/** One graph execution: the events it emits for a stream of items, and how an interrupt ends it. */
module GraphRun {
  import opened Wrappers
  import S = Sequences

  datatype Event =
    | Start(threadId: string, description: string, toolId: Option<string>)
    | End(threadId: string, failed: bool)
    | NextCheckpoint(threadId: string, checkpointId: string)
    | CustomUpdate(threadId: string, payload: string, checkpointId: string)
    | StateUpdate(threadId: string, payload: string)

  /** What the graph stream yields. The answer to an interrupt is None when there is no human handler, or when
      reading the state or asking the handler raises. */
  datatype Item =
    | Checkpoint(id: string)
    | Custom(payload: string)
    | Update(payload: string)
    | Interrupt(answer: Option<string>)

  /** One `astream` call: its items, and whether it raises after the last of them. A cancellation is a stream
      that raises after the items read so far. */
  datatype Stream = Stream(items: seq<Item>, raises: bool)

  /** How the loop over a stream ends: at its end, at an answered interrupt, or by an exception. */
  datatype Outcome = Exhausted | Interrupted(answer: string) | Raised

  datatype Emitted = Emitted(events: seq<Event>, checkpoint: Option<string>, outcome: Outcome)

  /** The items of a stream. A custom update before any checkpoint reads an unbound variable and raises. Items
      after an interrupt are not read. */
  function ItemsOut(tid: string, items: seq<Item>, ckpt: Option<string>): Emitted {
    if items == [] then Emitted([], ckpt, Exhausted)
    else
      match items[0]
      case Checkpoint(id) =>
        var k := ItemsOut(tid, items[1..], Some(id));
        k.(events := [NextCheckpoint(tid, id)] + k.events)
      case Custom(p) =>
        if ckpt.None? then Emitted([], ckpt, Raised)
        else
          var k := ItemsOut(tid, items[1..], ckpt);
          k.(events := [CustomUpdate(tid, p, ckpt.value)] + k.events)
      case Update(p) =>
        var k := ItemsOut(tid, items[1..], ckpt);
        k.(events := [StateUpdate(tid, p)] + k.events)
      case Interrupt(answer) => Emitted([], ckpt, if answer.Some? then Interrupted(answer.value) else Raised)
  }

  function StreamOut(tid: string, s: Stream, ckpt: Option<string>): Emitted {
    var r := ItemsOut(tid, s.items, ckpt);
    if r.outcome.Exhausted? && s.raises then r.(outcome := Raised) else r
  }

  /** What an execution emits. After the loop over the stream, ended or interrupted, the final state is read,
      which may raise, and returned. */
  function RunOut(tid: string, description: string, toolId: Option<string>, s: Stream, stateRead: bool): seq<Event> {
    var body := StreamOut(tid, s, None);
    [Start(tid, description, toolId)] + body.events + [End(tid, body.outcome.Raised? || !stateRead)]
  }

  /** The streaming loop; `streams(n)` is what the n-th call of the graph would yield. An interrupt leaves the
      inner loop, and what follows that loop returns: the graph is called once, whatever was answered. */
  method RunGraph(tid: string, description: string, toolId: Option<string>, streams: nat -> Stream, stateRead: bool)
    returns (sink: seq<Event>, calls: nat)
    ensures sink == RunOut(tid, description, toolId, streams(0), stateRead)
    ensures calls == 1
  {
    sink, calls := [Start(tid, description, toolId)], 0;
    var currCheckpoint: Option<string> := None;
    var failed := true;
    ghost var body := StreamOut(tid, streams(0), None);
    var left := false;
    while !left
      invariant if left then calls == 1 && sink == [Start(tid, description, toolId)] + body.events &&
                             failed == (body.outcome.Raised? || !stateRead)
                else calls == 0 && failed && currCheckpoint == None && sink == [Start(tid, description, toolId)]
      decreases if left then 0 else 1
    {
      var s := streams(calls);
      calls := calls + 1;
      var outcome;
      sink, currCheckpoint, outcome := StreamItems(tid, s.items, currCheckpoint, sink);
      if !outcome.Raised? && !(outcome.Exhausted? && s.raises) {
        failed := !stateRead;
      }
      left := true;
    }
    sink := sink + [End(tid, failed)];
  }

  /** The inner loop. */
  method StreamItems(tid: string, items: seq<Item>, ckpt: Option<string>, before: seq<Event>)
    returns (sink: seq<Event>, currCheckpoint: Option<string>, outcome: Outcome)
    ensures var r := ItemsOut(tid, items, ckpt);
            sink == before + r.events && currCheckpoint == r.checkpoint && outcome == r.outcome
  {
    sink, currCheckpoint, outcome := before, ckpt, Exhausted;
    ghost var r := ItemsOut(tid, items, ckpt);
    for i := 0 to |items|
      invariant outcome.Exhausted?
      invariant var k := ItemsOut(tid, items[i..], currCheckpoint);
                sink + k.events == before + r.events && k.checkpoint == r.checkpoint && k.outcome == r.outcome
    {
      assert items[i..][0] == items[i] && items[i..][1..] == items[i + 1..];
      match items[i]
      case Checkpoint(id) =>
        currCheckpoint := Some(id);
        sink := sink + [NextCheckpoint(tid, id)];
      case Custom(p) =>
        if currCheckpoint.None? {
          outcome := Raised;
          return;
        }
        sink := sink + [CustomUpdate(tid, p, currCheckpoint.value)];
      case Update(p) =>
        sink := sink + [StateUpdate(tid, p)];
      case Interrupt(answer) =>
        outcome := if answer.Some? then Interrupted(answer.value) else Raised;
        return;
    }
  }

  predicate IsBody(e: Event) {
    !e.Start? && !e.End?
  }

  function LatestCheckpoint(es: seq<Event>, before: Option<string>): Option<string> {
    if es == [] then before
    else if es[|es| - 1].NextCheckpoint? then Some(es[|es| - 1].checkpointId)
    else LatestCheckpoint(es[..|es| - 1], before)
  }

  lemma {:induction false} LatestSplits(a: seq<Event>, b: seq<Event>, before: Option<string>)
    ensures LatestCheckpoint(a + b, before) == LatestCheckpoint(b, LatestCheckpoint(a, before))
  {
    if b == [] {
      assert a + b == a;
    } else {
      assert (a + b)[..|a + b| - 1] == a + b[..|b| - 1];
      LatestSplits(a, b[..|b| - 1], before);
    }
  }

  /** Body events only, all of this thread, each custom update with the latest checkpoint before it. */
  predicate BodyFits(es: seq<Event>, tid: string, before: Option<string>) {
    forall i :: 0 <= i < |es| ==>
      IsBody(es[i]) && es[i].threadId == tid &&
      (es[i].CustomUpdate? ==> LatestCheckpoint(es[..i], before) == Some(es[i].checkpointId))
  }

  lemma FitsConcat(a: seq<Event>, b: seq<Event>, tid: string, before: Option<string>)
    requires BodyFits(a, tid, before) && BodyFits(b, tid, LatestCheckpoint(a, before))
    ensures BodyFits(a + b, tid, before)
  {
    forall i | 0 <= i < |a + b|
      ensures IsBody((a + b)[i]) && (a + b)[i].threadId == tid &&
              ((a + b)[i].CustomUpdate? ==> LatestCheckpoint((a + b)[..i], before) == Some((a + b)[i].checkpointId))
    {
      if i < |a| {
        assert (a + b)[..i] == a[..i];
      } else {
        assert (a + b)[..i] == a + b[..i - |a|];
        LatestSplits(a, b[..i - |a|], before);
      }
    }
  }

  lemma {:induction false} ItemsFit(tid: string, items: seq<Item>, ckpt: Option<string>)
    ensures var r := ItemsOut(tid, items, ckpt);
            BodyFits(r.events, tid, ckpt) && LatestCheckpoint(r.events, ckpt) == r.checkpoint
  {
    if items != [] && !items[0].Interrupt? && !(items[0].Custom? && ckpt.None?) {
      var ckpt' := if items[0].Checkpoint? then Some(items[0].id) else ckpt;
      ItemsFit(tid, items[1..], ckpt');
      var k := ItemsOut(tid, items[1..], ckpt');
      var r := ItemsOut(tid, items, ckpt);
      var head := [r.events[0]];
      assert r.events == head + k.events;
      assert head[..0] == [];
      assert LatestCheckpoint(head, ckpt) == ckpt';
      FitsConcat(head, k.events, tid, ckpt);
      LatestSplits(head, k.events, ckpt);
    }
  }

  /** For every stream, with any interrupt or failure: one start first, one end last, only this thread's body
      events between, and every custom update names the latest checkpoint announced before it. */
  lemma RunIsBracketed(tid: string, description: string, toolId: Option<string>, s: Stream, stateRead: bool)
    ensures var es := RunOut(tid, description, toolId, s, stateRead);
            |es| >= 2 && es[0] == Start(tid, description, toolId) &&
            es[|es| - 1].End? && es[|es| - 1].threadId == tid && BodyFits(es[1..|es| - 1], tid, None)
  {
    ItemsFit(tid, s.items, None);
    var es := RunOut(tid, description, toolId, s, stateRead);
    assert es[1..|es| - 1] == StreamOut(tid, s, None).events;
  }

  // ---- Events and items ----

  /** The event for an item: same payload, this thread. */
  predicate EventFor(tid: string, item: Item, e: Event) {
    match item
    case Checkpoint(id) => e == NextCheckpoint(tid, id)
    case Custom(p) => e.CustomUpdate? && e.threadId == tid && e.payload == p
    case Update(p) => e == StateUpdate(tid, p)
    case Interrupt(_) => false
  }

  /** No event is emitted for this item: an interrupt, or a custom update with no checkpoint before it. */
  predicate StopsAt(items: seq<Item>, i: nat, ckpt: Option<string>)
    requires i < |items|
  {
    items[i].Interrupt? || (items[i].Custom? && ckpt.None? && forall k :: 0 <= k < i ==> !items[k].Checkpoint?)
  }

  /** The events follow the items one by one, in order, up to the first that stops the loop; that item says how the
      loop ends. */
  lemma {:induction false} EventsFollowItems(tid: string, items: seq<Item>, ckpt: Option<string>)
    ensures var r := ItemsOut(tid, items, ckpt);
            var n := |r.events|;
            n <= |items| && (forall i :: 0 <= i < n ==> EventFor(tid, items[i], r.events[i]) && !StopsAt(items, i, ckpt)) &&
            if n == |items| then r.outcome == Exhausted
            else StopsAt(items, n, ckpt) &&
                 r.outcome == if items[n].Interrupt? && items[n].answer.Some? then Interrupted(items[n].answer.value) else Raised
  {
    if items != [] && !StopsAt(items, 0, ckpt) {
      var ckpt' := if items[0].Checkpoint? then Some(items[0].id) else ckpt;
      var tail := items[1..];
      EventsFollowItems(tid, tail, ckpt');
      var k, r := ItemsOut(tid, tail, ckpt'), ItemsOut(tid, items, ckpt);
      assert r.events[1..] == k.events && r.outcome == k.outcome;
      forall i | 0 <= i < |tail| ensures StopsAt(tail, i, ckpt') <==> StopsAt(items, i + 1, ckpt) {
        StopsLater(items, i, ckpt);
      }
      hide ItemsOut, StopsAt;
      forall i | 0 <= i < |r.events| ensures EventFor(tid, items[i], r.events[i]) && !StopsAt(items, i, ckpt) {
        if i > 0 { assert r.events[i] == k.events[i - 1] && items[i] == tail[i - 1]; }
      }
    }
  }

  lemma StopsLater(items: seq<Item>, i: nat, ckpt: Option<string>)
    requires i + 1 < |items| && !StopsAt(items, 0, ckpt)
    ensures StopsAt(items[1..], i, if items[0].Checkpoint? then Some(items[0].id) else ckpt) <==> StopsAt(items, i + 1, ckpt)
  {
    var tail := items[1..];
    assert forall k :: 0 <= k < |tail| ==> tail[k] == items[k + 1];
    assert forall k :: 1 <= k < |items| ==> items[k] == tail[k - 1];
  }

  /** Every run: between start and end stand the events of the items before the one that stops the loop, in order; the
      end is marked failed exactly when the stream raised, the stopping item was not an answered interrupt, or the
      final state could not be read. */
  lemma RunFollowsItsStream(tid: string, description: string, toolId: Option<string>, s: Stream, stateRead: bool)
    ensures var es := RunOut(tid, description, toolId, s, stateRead);
            var n := |es| - 2;
            0 <= n <= |s.items| && (forall i :: 0 <= i < n ==> EventFor(tid, s.items[i], es[i + 1])) &&
            (forall i :: 0 <= i < n ==> !StopsAt(s.items, i, None)) && (n < |s.items| ==> StopsAt(s.items, n, None)) &&
            es[n + 1] == End(tid, !stateRead || if n == |s.items| then s.raises
                                                else !(s.items[n].Interrupt? && s.items[n].answer.Some?))
  {
    EventsFollowItems(tid, s.items, None);
    RunParts(tid, description, toolId, s, stateRead);
    hide ItemsOut, StopsAt, EventFor, RunOut;
  }

  /** What a run adds to the events of its stream. */
  lemma RunParts(tid: string, description: string, toolId: Option<string>, s: Stream, stateRead: bool)
    ensures var es, body := RunOut(tid, description, toolId, s, stateRead), StreamOut(tid, s, None);
            |es| == |body.events| + 2 && (forall i :: 0 <= i < |body.events| ==> es[i + 1] == body.events[i]) &&
            es[|body.events| + 1] == End(tid, body.outcome.Raised? || !stateRead)
  {
    hide StreamOut;
  }

  // ---- Interrupts ----

  /** A stream that did not raise is read whole, one event for each item, exactly when it holds no interrupt. */
  lemma {:induction false} ReadWholeExactlyWithoutInterrupt(tid: string, s: Stream, ckpt: Option<string>)
    requires !StreamOut(tid, s, ckpt).outcome.Raised?
    ensures |StreamOut(tid, s, ckpt).events| == |s.items| <==> forall i :: 0 <= i < |s.items| ==> !s.items[i].Interrupt?
    ensures |StreamOut(tid, s, ckpt).events| <= |s.items|
    decreases |s.items|
  {
    if s.items != [] && !s.items[0].Interrupt? {
      var rest := Stream(s.items[1..], s.raises);
      ReadWholeExactlyWithoutInterrupt(tid, rest, if s.items[0].Checkpoint? then Some(s.items[0].id) else ckpt);
      assert forall i :: 1 <= i < |s.items| ==> s.items[i] == rest.items[i - 1];
      assert forall i :: 0 <= i < |rest.items| ==> rest.items[i] == s.items[i + 1];
    }
  }

  /** What the documentation promises: an answered interrupt resumes the graph with a further stream, the last
      checkpoint carried over. Running out of streams stands for a cancellation. */
  function PromisedBody(tid: string, streams: seq<Stream>, ckpt: Option<string>): Emitted {
    if streams == [] then Emitted([], ckpt, Raised)
    else
      var r := StreamOut(tid, streams[0], ckpt);
      if r.outcome.Interrupted? then
        var k := PromisedBody(tid, streams[1..], r.checkpoint);
        k.(events := r.events + k.events)
      else r
  }

  function PromisedOut(tid: string, description: string, toolId: Option<string>, streams: seq<Stream>, stateRead: bool)
    : seq<Event>
  {
    var body := PromisedBody(tid, streams, None);
    [Start(tid, description, toolId)] + body.events + [End(tid, body.outcome.Raised? || !stateRead)]
  }

  /** The promise is kept exactly when the first stream has no answered interrupt, or when resuming would have
      shown nothing and ended as the state reading did. */
  lemma PromiseKeptExactlyWithoutResumption(tid: string, description: string, toolId: Option<string>,
                                            s: Stream, rest: seq<Stream>, stateRead: bool)
    ensures
      var r := StreamOut(tid, s, None);
      var k := PromisedBody(tid, rest, r.checkpoint);
      RunOut(tid, description, toolId, s, stateRead) == PromisedOut(tid, description, toolId, [s] + rest, stateRead) <==>
      (!r.outcome.Interrupted? || (k.events == [] && (k.outcome.Raised? ==> !stateRead)))
  {
    hide StreamOut;
    var r := StreamOut(tid, s, None);
    var k := PromisedBody(tid, rest, r.checkpoint);
    assert ([s] + rest)[1..] == rest;
    if r.outcome.Interrupted? {
      var a, b := RunOut(tid, description, toolId, s, stateRead), PromisedOut(tid, description, toolId, [s] + rest, stateRead);
      assert |b| == |a| + |k.events|;
      if k.events == [] {
        S.Empty(r.events);
        assert a[|a| - 1] == End(tid, !stateRead) && b[|b| - 1] == End(tid, k.outcome.Raised? || !stateRead);
      }
    }
  }

  /** A human answers, the graph has more to say, and the execution ends as if all were well. */
  lemma AnswerIsDropped(tid: string, description: string, answer: string, update: string)
    ensures var s := Stream([Interrupt(Some(answer))], false);
            var resumed := Stream([Update(update)], false);
            RunOut(tid, description, None, s, true) == [Start(tid, description, None), End(tid, false)] &&
            PromisedOut(tid, description, None, [s, resumed], true) ==
            [Start(tid, description, None), StateUpdate(tid, update), End(tid, false)]
  {
    var s := Stream([Interrupt(Some(answer))], false);
    var resumed := Stream([Update(update)], false);
    assert [s, resumed][1..] == [resumed];
    assert resumed.items[1..] == [] && ItemsOut(tid, [], None).events == [];
    assert ItemsOut(tid, resumed.items, None).events == [StateUpdate(tid, update)];
    assert ItemsOut(tid, s.items, None).events == [];
    assert PromisedBody(tid, [resumed], None) == StreamOut(tid, resumed, None);
    assert PromisedBody(tid, [s, resumed], None).events == [StateUpdate(tid, update)];
  }
}
