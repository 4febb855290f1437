/** Executions and the event queue together: sinks push into the queue, and the drainer reads what it delivers. */
module Delivery {
  import opened Wrappers
  import opened GraphRun
  import opened GraphEvents
  import Q = EventQueue
  import S = Sequences

  /** A step of an execution, a step of the consumer, or the closing of the queue. */
  datatype Step = Execute(move: Move) | Consume | CloseQueue

  datatype System = System(world: World, queue: Q.Queue<Entry>)

  /** What a step of an execution pushes. */
  function Pushed(w: World, m: Move): seq<Entry>
    requires Enabled(w, m)
  {
    Apply(w, m).log[|w.log|..]
  }

  function PushAll(q: Q.Queue<Entry>, es: seq<Entry>): Q.Queue<Entry>
    decreases |es|
  {
    if es == [] then q else PushAll(Q.Step(q, Q.Push(es[0])), es[1..])
  }

  predicate CanStep(s: System, st: Step) {
    st.Execute? ==> Enabled(s.world, st.move)
  }

  function Take(s: System, st: Step): System
    requires CanStep(s, st)
  {
    match st
    case Execute(m) => System(Apply(s.world, m), PushAll(s.queue, Pushed(s.world, m)))
    case Consume => s.(queue := Q.Step(s.queue, Q.Consume))
    case CloseQueue => s.(queue := Q.Step(s.queue, Q.Close))
  }

  function TakeAll(steps: seq<Step>): Option<System> {
    if steps == [] then Some(System(World(map[], []), Q.Empty()))
    else
      var s := TakeAll(steps[..|steps| - 1]);
      if s.Some? && CanStep(s.value, steps[|steps| - 1]) then Some(Take(s.value, steps[|steps| - 1])) else None
  }

  /** The steps of the executions alone. */
  function Moves(steps: seq<Step>): seq<Move> {
    if steps == [] then []
    else Moves(steps[..|steps| - 1]) + if steps[|steps| - 1].Execute? then [steps[|steps| - 1].move] else []
  }

  lemma {:induction false} PushAllKeeps(q: Q.Queue<Entry>, es: seq<Entry>)
    requires Q.Valid(q)
    ensures Q.Valid(PushAll(q, es)) && PushAll(q, es).pushed == q.pushed + es
    decreases |es|
  {
    if es == [] {
      S.Empty(q.pushed);
    } else {
      Q.StepKeepsValid(q, Q.Push(es[0]));
      PushAllKeeps(Q.Step(q, Q.Push(es[0])), es[1..]);
      S.HeadAndTail(es);
      S.Assoc(q.pushed, [es[0]], es[1..]);
      hide Q.Valid;
    }
  }

  /** The executions run as they would without the queue, and the queue has been pushed exactly what they log. */
  lemma {:induction false} QueueHoldsTheLog(steps: seq<Step>)
    requires TakeAll(steps).Some?
    ensures var s := TakeAll(steps).value;
            Q.Valid(s.queue) && Perform(Moves(steps)) == Some(s.world) && s.queue.pushed == s.world.log
  {
    if steps != [] {
      var init, st := steps[..|steps| - 1], steps[|steps| - 1];
      QueueHoldsTheLog(init);
      var s := TakeAll(init).value;
      match st
      case Execute(m) =>
        PushAllKeeps(s.queue, Pushed(s.world, m));
        LogGrows(s.world, m);
        PerformOneMore(Moves(init), m);
        hide Q.Valid, Apply, PushAll, Pushed, Perform, Enabled;
      case Consume =>
        Q.StepKeepsValid(s.queue, Q.Consume);
        S.Empty(Moves(init));
        hide Q.Valid;
      case CloseQueue =>
        Q.StepKeepsValid(s.queue, Q.Close);
        S.Empty(Moves(init));
        hide Q.Valid;
    }
  }

  lemma PerformOneMore(moves: seq<Move>, m: Move)
    requires Perform(moves).Some? && Enabled(Perform(moves).value, m)
    ensures Perform(moves + [m]) == Some(Apply(Perform(moves).value, m))
  {
    S.InitOfConcat(moves, m);
    hide Apply;
  }

  lemma LogGrows(w: World, m: Move)
    requires Enabled(w, m)
    ensures |w.log| <= |Apply(w, m).log| && w.log + Apply(w, m).log[|w.log|..] == Apply(w, m).log
  {
    LogStep(w, m);
    hide Apply, Effect, Sink;
  }

  lemma {:induction false} OwnConcat(x: seq<Entry>, y: seq<Entry>, a: int)
    ensures Own(x + y, a) == Own(x, a) + Own(y, a)
    decreases |y|
  {
    if y == [] {
      S.Empty(x);
      S.Empty(Own(x, a));
    } else {
      var init, last := y[..|y| - 1], y[|y| - 1];
      assert y == init + [last];
      OwnConcat(x, init, a);
      OwnOfAppend(x + init, last, a);
      OwnOfAppend(init, last, a);
      S.Assoc(x, init, [last]);
      S.Assoc(Own(x, a), Own(init, a), if last.source == a then [Peel(last.event)] else []);
      hide Own;
    }
  }

  /** For every interleaving of executions nested to any depth, consumer steps and the closing of the queue: what
      the queue has delivered of an execution is, in order and under its full path, a prefix of its run, and once
      the execution has closed and the queue has nothing pending, the whole of it. */
  lemma DeliveredRuns(steps: seq<Step>, a: int)
    requires TakeAll(steps).Some? && a in TakeAll(steps).value.world.acts
    ensures var s := TakeAll(steps).value;
            var act := s.world.acts[a];
            if act.parent.None? then act.path == []
            else act.parent.value in s.world.acts &&
                 act.path == s.world.acts[act.parent.value].path + [s.world.acts[act.parent.value].job.tid]
    ensures var s := TakeAll(steps).value;
            var act := s.world.acts[a];
            var run := Under(act.path, JobOut(act.job));
            Own(s.queue.delivered, a) <= run &&
            (act.at.Closed? && Q.Pending(s.queue) == [] ==> Own(s.queue.delivered, a) == run)
  {
    var s := TakeAll(steps).value;
    QueueHoldsTheLog(steps);
    DrainerReadsEveryRun(Moves(steps), a);
    OwnConcat(s.queue.delivered, Q.Pending(s.queue), a);
    assert s.queue.delivered + Q.Pending(s.queue) == s.world.log;
    if Q.Pending(s.queue) == [] { S.Empty(s.queue.delivered); }
    hide Own, Under, JobOut, TakeAll, Perform, Q.Pending;
  }
}
