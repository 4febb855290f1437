/** The event buffer between producers and the one consumer. Code between two awaits runs without
    interruption, so each transition below is one such stretch; transitions of producers and of the consumer
    interleave in any order. */
module EventQueue {
  import opened Wrappers
  import S = Sequences

  /** Where the consumer is suspended: waiting for the ready flag, at a `yield`, or returned. */
  datatype Point = Waiting | Yielding | Returned

  /** The fields of the queue, the consumer's position, and what has been pushed and delivered so far. */
  datatype Queue<T> = Queue(
    ready: bool,
    stream: seq<T>,
    cursor: nat,
    closed: bool,
    point: Point,
    pushed: seq<T>,
    delivered: seq<T>)

  datatype Action<T> = Push(event: T) | Close | Consume

  function Empty<T>(): Queue<T> {
    Queue(false, [], 0, false, Waiting, [], [])
  }

  /** The consumer has reached the inner loop's test: deliver the next event, or reset and wait or return. */
  function Advance<T>(q: Queue<T>): Queue<T> {
    if q.cursor < |q.stream| then q.(point := Yielding, delivered := q.delivered + [q.stream[q.cursor]])
    else q.(stream := [], cursor := 0, point := if q.closed then Returned else Waiting)
  }

  /** Whether the consumer can take a step: a set flag ends its wait, a yield is always resumed. */
  predicate CanConsume<T>(q: Queue<T>) {
    (q.point.Waiting? && q.ready) || q.point.Yielding?
  }

  function Step<T>(q: Queue<T>, a: Action<T>): Queue<T> {
    match a
    case Push(e) => q.(stream := q.stream + [e], ready := true, pushed := q.pushed + [e])
    case Close => q.(closed := true, ready := true)
    case Consume =>
      if q.point.Waiting? && q.ready then Advance(q.(ready := false))
      else if q.point.Yielding? then Advance(q.(cursor := q.cursor + 1))
      else q
  }

  function RunAll<T>(actions: seq<Action<T>>): Queue<T> {
    if actions == [] then Empty() else Step(RunAll(actions[..|actions| - 1]), actions[|actions| - 1])
  }

  /** Events that are buffered and not yet delivered. */
  function Pending<T>(q: Queue<T>): seq<T> {
    var from := if q.point.Yielding? then q.cursor + 1 else q.cursor;
    if from <= |q.stream| then q.stream[from..] else []
  }

  /** What every interleaving keeps. */
  predicate Valid<T(==)>(q: Queue<T>) {
    q.delivered + Pending(q) == q.pushed &&
    (q.point.Yielding? ==> q.cursor < |q.stream| && |q.delivered| > 0 && q.delivered[|q.delivered| - 1] == q.stream[q.cursor]) &&
    (!q.point.Yielding? ==> q.cursor == 0) &&
    (q.point.Waiting? && (Pending(q) != [] || q.closed) ==> q.ready) &&
    (q.point.Returned? ==> q.closed)
  }

  lemma PushIsPending<T>(q: Queue<T>, e: T)
    requires Valid(q)
    ensures Pending(Step(q, Push(e))) == Pending(q) + [e]
  {}

  lemma ProducerKeepsValid<T>(q: Queue<T>, a: Action<T>)
    requires Valid(q) && !a.Consume?
    ensures Valid(Step(q, a))
  {
    if a.Push? {
      PushIsPending(q, a.event);
      S.Assoc(q.delivered, Pending(q), [a.event]);
      hide Pending;
    }
  }

  /** What one consumer step moves. */
  lemma ConsumeMoves<T>(q: Queue<T>)
    requires Valid(q) && CanConsume(q)
    ensures var q1 := Step(q, Consume);
            if Pending(q) == [] then Pending(q1) == [] && q1.delivered == q.delivered && !q1.point.Yielding? && q1.cursor == 0
            else q1.delivered == q.delivered + [Pending(q)[0]] && Pending(q1) == Pending(q)[1..] && q1.point.Yielding? &&
                 q1.cursor < |q1.stream| && q1.stream[q1.cursor] == Pending(q)[0]
    ensures var q1 := Step(q, Consume);
            q1.pushed == q.pushed && q1.closed == q.closed &&
            (q1.point.Returned? ==> q.closed) && (q1.point.Waiting? ==> !q.closed)
  {}

  lemma ConsumerKeepsValid<T>(q: Queue<T>)
    requires Valid(q)
    ensures Valid(Step(q, Consume))
    ensures CanConsume(q) && Pending(q) != [] ==> Pending(Step(q, Consume)) == Pending(q)[1..]
  {
    if CanConsume(q) {
      ConsumeMoves(q);
      if Pending(q) != [] {
        S.HeadAndTail(Pending(q));
        S.Assoc(q.delivered, [Pending(q)[0]], Pending(q)[1..]);
      }
      hide Pending, Step;
    }
  }

  lemma StepKeepsValid<T>(q: Queue<T>, a: Action<T>)
    requires Valid(q)
    ensures Valid(Step(q, a))
  {
    if a.Consume? { ConsumerKeepsValid(q); } else { ProducerKeepsValid(q, a); }
  }

  lemma {:induction false} RunsAreValid<T>(actions: seq<Action<T>>)
    ensures Valid(RunAll(actions))
  {
    if actions != [] {
      RunsAreValid(actions[..|actions| - 1]);
      StepKeepsValid(RunAll(actions[..|actions| - 1]), actions[|actions| - 1]);
    }
  }

  /** In every interleaving, what was delivered and what is pending make up what was pushed, in order and each
      once. A consumer that has something to deliver delivers the next of it with its next step, one that has
      nothing left after the close returns with its next step, and one that waits for the flag stays. */
  lemma EveryInterleaving<T>(actions: seq<Action<T>>)
    ensures var q := RunAll(actions);
            var next := Step(q, Consume);
            Valid(q) && q.delivered <= q.pushed && q.delivered + Pending(q) == q.pushed &&
            (!q.point.Returned? && (Pending(q) != [] || q.closed) ==> CanConsume(q)) &&
            (!q.point.Returned? && Pending(q) != [] ==> next.delivered == q.delivered + [Pending(q)[0]]) &&
            (!q.point.Returned? && Pending(q) == [] && q.closed ==> next.point.Returned? && next.delivered == q.delivered) &&
            (q.point.Returned? || (q.point.Waiting? && !q.ready) ==> next == q)
  {
    RunsAreValid(actions);
    var q := RunAll(actions);
    if CanConsume(q) { ConsumeMoves(q); }
    hide RunAll, Pending;
  }

  /** Steps the consumer takes on its own. */
  function ConsumeTimes<T>(q: Queue<T>, n: nat): Queue<T>
    decreases n
  {
    if n == 0 then q else ConsumeTimes(Step(q, Consume), n - 1)
  }

  /** How many consumer steps remain once the queue is closed and nothing more is pushed. */
  function StepsLeft<T>(q: Queue<T>): nat {
    if q.point.Returned? then 0 else |Pending(q)| + 1
  }

  /** After close, with no further pushes, the consumer never blocks, and returns after delivering everything;
      the number of its steps is exact. */
  lemma {:induction false} ClosedQueueDrains<T>(q: Queue<T>)
    requires Valid(q) && q.closed && !q.point.Returned?
    ensures forall i :: 0 <= i < StepsLeft(q) ==> CanConsume(ConsumeTimes(q, i))
    ensures var d := ConsumeTimes(q, StepsLeft(q));
            d.point.Returned? && d.delivered == q.pushed == d.pushed
    decreases StepsLeft(q)
  {
    var q1 := Step(q, Consume);
    ConsumerKeepsValid(q);
    ConsumeMoves(q);
    hide Step, Pending;
    if Pending(q) == [] {
      assert StepsLeft(q) == 1;
      assert ConsumeTimes(q, 1) == q1;
      assert forall i :: 0 <= i < 1 ==> ConsumeTimes(q, i) == q;
    } else {
      assert |Pending(q1)| == |Pending(q)| - 1;
      ClosedQueueDrains(q1);
      forall i | 0 <= i < StepsLeft(q) ensures CanConsume(ConsumeTimes(q, i)) {
        if i > 0 { assert ConsumeTimes(q, i) == ConsumeTimes(q1, i - 1); }
      }
    }
  }

  // ---- The queue object ----

  class AsyncDataQueue<T(==)> {
    var ready: bool
    var eventStream: seq<T>
    var cursor: nat
    var closed: bool
    /** The suspended `stream_events` generator. */
    var point: Point
    ghost var pushed: seq<T>
    ghost var delivered: seq<T>

    ghost function View(): Queue<T>
      reads this
    {
      Queue(ready, eventStream, cursor, closed, point, pushed, delivered)
    }

    constructor ()
      ensures View() == Empty()
    {
      ready, eventStream, cursor, closed, point := false, [], 0, false, Waiting;
      pushed, delivered := [], [];
    }

    method PushEvent(event: T)
      modifies this
      ensures View() == Step(old(View()), Push(event))
    {
      eventStream := eventStream + [event];
      ready := true;
      pushed := pushed + [event];
    }

    method CloseQueue()
      modifies this
      ensures View() == Step(old(View()), Close)
    {
      closed := true;
      ready := true;
    }

    /** `await ready.wait()` has returned: run to the next yield, wait or return. */
    method Wake() returns (event: Option<T>)
      requires point.Waiting? && ready
      modifies this
      ensures View() == Step(old(View()), Consume)
      ensures delivered == old(delivered) + if event.Some? then [event.value] else []
    {
      ready := false;
      event := InnerLoop();
    }

    /** The consumer asks for the next event after a yield. */
    method Resume() returns (event: Option<T>)
      requires point.Yielding?
      modifies this
      ensures View() == Step(old(View()), Consume)
      ensures delivered == old(delivered) + if event.Some? then [event.value] else []
    {
      cursor := cursor + 1;
      event := InnerLoop();
    }

    method InnerLoop() returns (event: Option<T>)
      modifies this
      ensures View() == Advance(old(View()))
      ensures delivered == old(delivered) + if event.Some? then [event.value] else []
    {
      if cursor < |eventStream| {
        event := Some(eventStream[cursor]);
        delivered := delivered + [eventStream[cursor]];
        point := Yielding;
        return;
      }
      event := None;
      cursor := 0;
      eventStream := [];
      point := if closed then Returned else Waiting;
    }
  }

  // ---- Sentinels ----

  /** What a managed queue carries: data, a checkpoint to be signalled, or the end of the conversation. */
  datatype Managed<T> = Data(value: T) | Checkpoint(done: int) | EndConversation

  datatype Drained<T> = Drained(handled: seq<T>, signalled: seq<int>, stopped: bool)

  /** The drainer's state after a delivered prefix: after the end sentinel it looks at nothing more. */
  function Drain<T>(delivered: seq<Managed<T>>): Drained<T> {
    if delivered == [] then Drained([], [], false)
    else
      var d := Drain(delivered[..|delivered| - 1]);
      if d.stopped then d
      else
        match delivered[|delivered| - 1]
        case Data(v) => d.(handled := d.handled + [v])
        case Checkpoint(c) => d.(signalled := d.signalled + [c])
        case EndConversation => d.(stopped := true)
  }

  function DataOf<T>(ms: seq<Managed<T>>): seq<T> {
    if ms == [] then []
    else DataOf(ms[..|ms| - 1]) + if ms[|ms| - 1].Data? then [ms[|ms| - 1].value] else []
  }

  lemma {:induction false} DrainBeforeEnd<T>(ms: seq<Managed<T>>)
    requires EndConversation !in ms
    ensures Drain(ms).handled == DataOf(ms) && !Drain(ms).stopped
  {
    if ms != [] {
      var init := ms[..|ms| - 1];
      assert ms == init + [ms[|ms| - 1]];
      DrainBeforeEnd(init);
    }
  }

  /** After the end sentinel the drainer looks at nothing more, and what came before it has been handled. */
  lemma {:induction false} NothingAfterTheEnd<T>(before: seq<Managed<T>>, after: seq<Managed<T>>)
    ensures var end := before + [EndConversation];
            Drain(end).stopped && Drain(end).handled == Drain(before).handled &&
            Drain(end).signalled == Drain(before).signalled &&
            Drain(end + after) == Drain(end)
    decreases |after|
  {
    var end := before + [EndConversation];
    S.InitOfConcat(before, EndConversation);
    if after == [] {
      S.Empty(end);
    } else {
      var init, last := after[..|after| - 1], after[|after| - 1];
      NothingAfterTheEnd(before, init);
      assert end + after == end + init + [last];
      S.InitOfConcat(end + init, last);
    }
  }

  /** A checkpoint is a barrier: in any interleaving, when the drainer has taken the checkpoint pushed at
      position i (and no end sentinel was pushed before it), it has handled exactly the data pushed before. */
  lemma CheckpointIsABarrier<T>(actions: seq<Action<Managed<T>>>, i: nat)
    requires var q := RunAll(actions);
             i < |q.delivered| && q.delivered[i].Checkpoint? && EndConversation !in q.delivered[..i]
    ensures var q := RunAll(actions);
            i < |q.pushed| && q.pushed[i] == q.delivered[i] &&
            Drain(q.delivered[..i + 1]).handled == DataOf(q.pushed[..i]) &&
            q.delivered[i].done in Drain(q.delivered[..i + 1]).signalled
  {
    EveryInterleaving(actions);
    var q := RunAll(actions);
    assert q.delivered[..i] == q.pushed[..i];
    assert q.delivered[..i + 1][..i] == q.delivered[..i];
    DrainBeforeEnd(q.pushed[..i]);
  }
}
