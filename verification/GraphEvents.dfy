/** Events of nested graph executions: how nesting wraps them, and what the drainer sees for any interleaving
    of executions nested to any depth. */
module GraphEvents {
  import opened Wrappers
  import opened GraphRun
  import S = Sequences

  datatype GraphEvent = Inner(event: Event) | Nested(inner: GraphEvent, parentId: string)

  // ---- Nesting ----

  /** The sink of an execution whose enclosing executions have the threads `path`, outermost first: it wraps
      with the nearest parent and hands over to that parent's sink. The result is what reaches the queue. */
  function Sink(path: seq<string>, e: GraphEvent): GraphEvent {
    if path == [] then e else Sink(path[..|path| - 1], Nested(e, path[|path| - 1]))
  }

  function Peel(e: GraphEvent): (seq<string>, Event) {
    match e
    case Inner(event) => ([], event)
    case Nested(inner, p) => var (path, event) := Peel(inner); ([p] + path, event)
  }

  /** The drainer's unwrapping loop. */
  method Unwrap(event: GraphEvent) returns (path: seq<string>, inner: Event)
    ensures (path, inner) == Peel(event)
  {
    path := [];
    var e := event;
    while e.Nested?
      invariant Peel(event).0 == path + Peel(e).0 && Peel(event).1 == Peel(e).1
      decreases e
    {
      path := path + [e.parentId];
      e := e.inner;
    }
    inner := e.event;
    assert path + [] == path;
  }

  lemma {:induction false} SinkPeels(path: seq<string>, e: GraphEvent)
    ensures Peel(Sink(path, e)).0 == path + Peel(e).0 && Peel(Sink(path, e)).1 == Peel(e).1
  {
    if path != [] {
      SinkPeels(path[..|path| - 1], Nested(e, path[|path| - 1]));
      assert path == path[..|path| - 1] + [path[|path| - 1]];
    }
  }

  /** Unwrapping inverts the composed sinks. */
  lemma UnwrapInvertsSinks(path: seq<string>, e: Event)
    ensures Peel(Sink(path, Inner(e))) == (path, e)
  {
    SinkPeels(path, Inner(e));
    assert path + [] == path;
  }

  // ---- Any interleaving of executions ----

  /** What one execution is given, by its caller and by the graph it streams. */
  datatype Job = Job(tid: string, description: string, toolId: Option<string>, stream: Stream, stateRead: bool)

  function JobOut(j: Job): seq<Event> {
    RunOut(j.tid, j.description, j.toolId, j.stream, j.stateRead)
  }

  /** Opened: the start event is out, the thread log is being entered. Streaming: the next item and the latest
      checkpoint. Ending: the end event is due. Abandoned: the thread log could not be opened. */
  datatype Position =
    | Opened
    | Streaming(next: nat, checkpoint: Option<string>)
    | Ending(failed: bool)
    | Closed
    | Abandoned

  datatype Activation = Activation(job: Job, parent: Option<int>, path: seq<string>, at: Position)

  /** A queue entry, with the activation that emitted it. */
  datatype Entry = Entry(source: int, event: GraphEvent)

  datatype World = World(acts: map<int, Activation>, log: seq<Entry>)

  datatype Move = Open(a: int, parent: Option<int>, job: Job) | Enter(a: int) | FailOpening(a: int) | Turn(a: int) | Close(a: int)

  predicate Enabled(w: World, m: Move) {
    match m
    case Open(a, parent, _) => a !in w.acts && (parent.Some? ==> parent.value in w.acts)
    case Enter(a) => a in w.acts && w.acts[a].at.Opened?
    case FailOpening(a) => a in w.acts && w.acts[a].at.Opened?
    case Turn(a) => a in w.acts && w.acts[a].at.Streaming? && w.acts[a].at.next <= |w.acts[a].job.stream.items|
    case Close(a) => a in w.acts && w.acts[a].at.Ending?
  }

  /** The threads around an execution started under `parent`. */
  function PathUnder(acts: map<int, Activation>, parent: Option<int>): seq<string>
    requires parent.Some? ==> parent.value in acts
  {
    if parent.None? then [] else acts[parent.value].path + [acts[parent.value].job.tid]
  }

  /** One turn of the streaming loop: the event it emits, if any, and where it leaves the execution. */
  function TurnOf(j: Job, next: nat, ckpt: Option<string>): (Option<Event>, Position)
    requires next <= |j.stream.items|
  {
    if next == |j.stream.items| then (None, Ending(j.stream.raises || !j.stateRead))
    else
      match j.stream.items[next]
      case Checkpoint(id) => (Some(NextCheckpoint(j.tid, id)), Streaming(next + 1, Some(id)))
      case Custom(p) =>
        if ckpt.None? then (None, Ending(true)) else (Some(CustomUpdate(j.tid, p, ckpt.value)), Streaming(next + 1, ckpt))
      case Update(p) => (Some(StateUpdate(j.tid, p)), Streaming(next + 1, ckpt))
      case Interrupt(answer) => (None, Ending(answer.None? || !j.stateRead))
  }

  /** The event a move emits, and the position it leaves its execution in. */
  function Effect(w: World, m: Move): (Option<Event>, Position)
    requires Enabled(w, m)
  {
    match m
    case Open(_, _, j) => (Some(Start(j.tid, j.description, j.toolId)), Opened)
    case Enter(_) => (None, Streaming(0, None))
    case FailOpening(_) => (None, Abandoned)
    case Turn(a) => TurnOf(w.acts[a].job, w.acts[a].at.next, w.acts[a].at.checkpoint)
    case Close(a) => (Some(End(w.acts[a].job.tid, w.acts[a].at.failed)), Closed)
  }

  function Apply(w: World, m: Move): World
    requires Enabled(w, m)
  {
    var (event, at) := Effect(w, m);
    var act := if m.Open? then Activation(m.job, m.parent, PathUnder(w.acts, m.parent), at) else w.acts[m.a].(at := at);
    World(w.acts[m.a := act], if event.None? then w.log else w.log + [Entry(m.a, Sink(act.path, Inner(event.value)))])
  }

  function Perform(moves: seq<Move>): Option<World> {
    if moves == [] then Some(World(map[], []))
    else
      var w := Perform(moves[..|moves| - 1]);
      if w.Some? && Enabled(w.value, moves[|moves| - 1]) then Some(Apply(w.value, moves[|moves| - 1])) else None
  }

  /** What the drainer reads from the entries of one activation, in queue order. */
  function Own(log: seq<Entry>, a: int): seq<(seq<string>, Event)> {
    if log == [] then []
    else Own(log[..|log| - 1], a) + if log[|log| - 1].source == a then [Peel(log[|log| - 1].event)] else []
  }

  /** Events, each read under the same path. */
  function Under(path: seq<string>, es: seq<Event>): seq<(seq<string>, Event)> {
    seq(|es|, i requires 0 <= i < |es| => (path, es[i]))
  }

  /** What the loop emits from an item on, and the end. */
  function FromItem(j: Job, next: nat, ckpt: Option<string>): seq<Event>
    requires next <= |j.stream.items|
  {
    var r := StreamOut(j.tid, Stream(j.stream.items[next..], j.stream.raises), ckpt);
    r.events + [End(j.tid, r.outcome.Raised? || !j.stateRead)]
  }

  /** Positions a run can be in, with what it still has to emit. */
  function Left(j: Job, at: Position): Option<seq<Event>> {
    match at
    case Opened => Some(FromItem(j, 0, None))
    case Streaming(next, ckpt) => if next <= |j.stream.items| then Some(FromItem(j, next, ckpt)) else None
    case Ending(failed) => Some([End(j.tid, failed)])
    case Closed => Some([])
    case Abandoned => None
  }

  /** An activation has emitted `own`, and with what is left that makes its whole run; one whose opening failed
      has emitted its start alone. */
  predicate Follows(act: Activation, own: seq<(seq<string>, Event)>) {
    if act.at.Abandoned? then own == Under(act.path, [Start(act.job.tid, act.job.description, act.job.toolId)])
    else Left(act.job, act.at).Some? && own + Under(act.path, Left(act.job, act.at).value) == Under(act.path, JobOut(act.job))
  }

  predicate OwnFits(w: World, a: int)
    requires a in w.acts
  {
    Follows(w.acts[a], Own(w.log, a))
  }

  /** The path of an execution: nothing at the top, otherwise its parent's path and then its parent's thread. */
  predicate PathFits(acts: map<int, Activation>, act: Activation) {
    if act.parent.None? then act.path == []
    else act.parent.value in acts && act.path == acts[act.parent.value].path + [acts[act.parent.value].job.tid]
  }

  predicate Fits(w: World) {
    (forall k :: 0 <= k < |w.log| ==> w.log[k].source in w.acts) &&
    (forall a :: a in w.acts ==> PathFits(w.acts, w.acts[a])) &&
    (forall a :: a in w.acts ==> OwnFits(w, a))
  }

  lemma OwnOfAppend(log: seq<Entry>, e: Entry, a: int)
    ensures Own(log + [e], a) == Own(log, a) + if e.source == a then [Peel(e.event)] else []
  {
    assert (log + [e])[..|log|] == log;
  }

  lemma {:induction false} OwnOfStranger(log: seq<Entry>, a: int)
    requires forall k :: 0 <= k < |log| ==> log[k].source != a
    ensures Own(log, a) == []
  {
    if log != [] { OwnOfStranger(log[..|log| - 1], a); }
  }

  lemma UnderConcat(path: seq<string>, a: seq<Event>, b: seq<Event>)
    ensures Under(path, a + b) == Under(path, a) + Under(path, b)
  {}

  /** A turn emits the next event of what is left. */
  lemma TurnUnfolds(j: Job, next: nat, ckpt: Option<string>)
    requires next <= |j.stream.items|
    ensures var (event, at) := TurnOf(j, next, ckpt);
            Left(j, at).Some? &&
            FromItem(j, next, ckpt) == (if event.Some? then [event.value] else []) + Left(j, at).value
  {
    var items := j.stream.items[next..];
    var (event, at) := TurnOf(j, next, ckpt);
    if next < |j.stream.items| {
      assert items[0] == j.stream.items[next] && items[1..] == j.stream.items[next + 1..];
      if at.Streaming? {
        var rest := StreamOut(j.tid, Stream(items[1..], j.stream.raises), at.checkpoint);
        assert StreamOut(j.tid, Stream(items, j.stream.raises), ckpt).events == [event.value] + rest.events;
        S.Assoc([event.value], rest.events, [End(j.tid, rest.outcome.Raised? || !j.stateRead)]);
      }
    }
  }

  lemma StartUnfolds(j: Job)
    ensures JobOut(j) == [Start(j.tid, j.description, j.toolId)] + FromItem(j, 0, None)
  {
    assert j.stream.items[0..] == j.stream.items;
  }

  lemma MoveKeepsFits(w: World, m: Move)
    requires Fits(w) && Enabled(w, m)
    ensures Fits(Apply(w, m))
  {
    var w' := Apply(w, m);
    forall a | a in w'.acts
      ensures OwnFits(w', a)
      ensures PathFits(w'.acts, w'.acts[a])
    {
      PathKept(w, m, a);
      if a != m.a { OthersUntouched(w, m, a); } else { OwnMoveFits(w, m); }
      hide OwnFits, Apply, Fits, PathFits;
    }
    LogStep(w, m);
    hide OwnFits, Apply, Effect;
  }

  lemma PathKept(w: World, m: Move, a: int)
    requires Fits(w) && Enabled(w, m) && a in Apply(w, m).acts
    ensures PathFits(Apply(w, m).acts, Apply(w, m).acts[a])
  {
    hide Effect, OwnFits, Sink;
  }

  /** A move logs at most one event, for its own execution, and leaves all others as they were. */
  lemma LogStep(w: World, m: Move)
    requires Enabled(w, m)
    ensures var w' := Apply(w, m);
            var (event, at) := Effect(w, m);
            w'.log == (if event.None? then w.log else w.log + [Entry(m.a, Sink(w'.acts[m.a].path, Inner(event.value)))]) &&
            w'.acts.Keys == w.acts.Keys + {m.a} && w'.acts[m.a].at == at &&
            (forall a :: a in w.acts && a != m.a ==> w'.acts[a] == w.acts[a]) &&
            (m.a in w.acts ==> w'.acts[m.a] == w.acts[m.a].(at := at))
  {
    hide Sink;
  }

  lemma OthersUntouched(w: World, m: Move, a: int)
    requires Fits(w) && Enabled(w, m) && a in w.acts && a != m.a
    ensures OwnFits(Apply(w, m), a)
  {
    assert OwnFits(w, a);
    OtherStep(w, m, a);
    hide Follows, Own, Apply;
  }

  lemma OtherStep(w: World, m: Move, a: int)
    requires Enabled(w, m) && a in w.acts && a != m.a
    ensures var w' := Apply(w, m); a in w'.acts && w'.acts[a] == w.acts[a] && Own(w'.log, a) == Own(w.log, a)
  {
    var (event, at) := Effect(w, m);
    if event.Some? {
      var e := Apply(w, m).log[|w.log|];
      OwnOfAppend(w.log, e, a);
      S.Empty(Own(w.log, a));
    }
    hide Own, Effect, Sink;
  }

  lemma OwnMoveFits(w: World, m: Move)
    requires Fits(w) && Enabled(w, m)
    ensures OwnFits(Apply(w, m), m.a)
  {
    OwnAfter(w, m);
    LogStep(w, m);
    var own := Own(w.log, m.a);
    var (event, at) := Effect(w, m);
    var act := Apply(w, m).acts[m.a];
    var es := if event.Some? then [event.value] else [];
    if m.Open? {
      OwnOfStranger(w.log, m.a);
      OpenFollows(m.job, act);
      S.Empty(Under(act.path, es));
    } else {
      assert OwnFits(w, m.a);
      MoveFollows(w, m, own);
    }
    hide Own, Fits, Apply, Effect, Follows;
  }

  lemma OpenFollows(j: Job, act: Activation)
    requires act.job == j && act.at == Opened
    ensures Follows(act, Under(act.path, [Start(j.tid, j.description, j.toolId)]))
  {
    StartUnfolds(j);
    UnderConcat(act.path, [Start(j.tid, j.description, j.toolId)], FromItem(j, 0, None));
    hide Under, FromItem, JobOut;
  }

  /** A move of an execution that is there emits the next of what is left. */
  lemma MoveFollows(w: World, m: Move, own: seq<(seq<string>, Event)>)
    requires Enabled(w, m) && !m.Open? && Follows(w.acts[m.a], own)
    ensures var (event, at) := Effect(w, m);
            var act := w.acts[m.a].(at := at);
            Follows(act, own + Under(act.path, if event.Some? then [event.value] else []))
  {
    var act := w.acts[m.a];
    assert Under(act.path, []) == [];
    S.Empty(own);
    match m
    case Enter(_) =>
    case FailOpening(_) => StartAlone(act.job, act.path, own);
    case Turn(_) =>
      var (event, at) := Effect(w, m);
      var es := if event.Some? then [event.value] else [];
      TurnUnfolds(act.job, act.at.next, act.at.checkpoint);
      hide Under, FromItem, JobOut, TurnOf;
      UnderConcat(act.path, es, Left(act.job, at).value);
      S.Assoc(own, Under(act.path, es), Under(act.path, Left(act.job, at).value));
    case Close(_) =>
      hide Under, FromItem, JobOut;
      S.Empty(own + Under(act.path, [End(act.job.tid, act.at.failed)]));
  }

  lemma StartAlone(j: Job, path: seq<string>, own: seq<(seq<string>, Event)>)
    requires own + Under(path, FromItem(j, 0, None)) == Under(path, JobOut(j))
    ensures own == Under(path, [Start(j.tid, j.description, j.toolId)])
  {
    StartUnfolds(j);
    var start := [Start(j.tid, j.description, j.toolId)];
    UnderConcat(path, start, FromItem(j, 0, None));
    var rest := Under(path, FromItem(j, 0, None));
    assert |own| == 1;
    assert own == (own + rest)[..1] && Under(path, start) == (Under(path, start) + rest)[..1];
  }

  /** What the drainer reads more of the moving execution. */
  lemma OwnAfter(w: World, m: Move)
    requires Enabled(w, m)
    ensures var w' := Apply(w, m);
            var event := Effect(w, m).0;
            Own(w'.log, m.a) == Own(w.log, m.a) + Under(w'.acts[m.a].path, if event.Some? then [event.value] else [])
  {
    LogStep(w, m);
    var event := Effect(w, m).0;
    var path := Apply(w, m).acts[m.a].path;
    assert Under(path, []) == [];
    S.Empty(Own(w.log, m.a));
    if event.Some? {
      OwnOfAppend(w.log, Entry(m.a, Sink(path, Inner(event.value))), m.a);
      UnwrapInvertsSinks(path, event.value);
      assert Under(path, [event.value]) == [(path, event.value)];
    }
    hide Own, Sink, Apply, Effect;
  }

  lemma {:induction false} EveryInterleavingFits(moves: seq<Move>)
    ensures Perform(moves).Some? ==> Fits(Perform(moves).value)
  {
    if moves != [] {
      EveryInterleavingFits(moves[..|moves| - 1]);
      var w := Perform(moves[..|moves| - 1]);
      if w.Some? && Enabled(w.value, moves[|moves| - 1]) {
        MoveKeepsFits(w.value, moves[|moves| - 1]);
      }
    }
  }

  /** The execution n levels above a; a itself for 0. */
  function AncestorAt(acts: map<int, Activation>, a: int, n: nat): Option<int> {
    if n == 0 then Some(a)
    else
      var b := AncestorAt(acts, a, n - 1);
      if b.None? || b.value !in acts then None else acts[b.value].parent
  }

  lemma PrefixEnd(path: seq<string>, k: nat, init: seq<string>, last: string)
    requires k < |path| && path[..k + 1] == init + [last]
    ensures path[..k] == init && path[k] == last
  {
    assert path[..k + 1][..k] == path[..k] && (init + [last])[..k] == init;
    assert path[..k + 1][k] == path[k];
  }

  /** The ancestor n levels up has all of a's path but its last n entries. */
  lemma {:induction false} AncestorPath(acts: map<int, Activation>, a: int, n: nat)
    requires a in acts && (forall b :: b in acts ==> PathFits(acts, acts[b])) && n <= |acts[a].path|
    ensures var b := AncestorAt(acts, a, n);
            var rest := |acts[a].path| - n;
            b.Some? && b.value in acts && acts[b.value].path == acts[a].path[..rest] &&
            (n > 0 ==> acts[a].path[rest] == acts[b.value].job.tid)
  {
    var path := acts[a].path;
    if n == 0 {
      assert path[..|path|] == path;
    } else {
      AncestorPath(acts, a, n - 1);
      var c := acts[AncestorAt(acts, a, n - 1).value];
      assert PathFits(acts, c);
      PrefixEnd(path, |path| - n, acts[c.parent.value].path, acts[c.parent.value].job.tid);
    }
  }

  /** Entry i of a's path is the thread of the ancestor as many levels up as there are entries from i on. */
  predicate NamesAncestor(acts: map<int, Activation>, a: int, i: nat)
    requires a in acts && i < |acts[a].path|
  {
    var b := AncestorAt(acts, a, |acts[a].path| - i);
    b.Some? && b.value in acts && acts[a].path[i] == acts[b.value].job.tid
  }

  lemma FittingPathNames(acts: map<int, Activation>, a: int)
    requires a in acts && (forall b :: b in acts ==> PathFits(acts, acts[b]))
    ensures forall i :: 0 <= i < |acts[a].path| ==> NamesAncestor(acts, a, i)
  {
    forall i | 0 <= i < |acts[a].path| ensures NamesAncestor(acts, a, i) {
      AncestorPath(acts, a, |acts[a].path| - i);
    }
  }

  lemma TopHasNoParent(acts: map<int, Activation>, a: int)
    requires a in acts && (forall b :: b in acts ==> PathFits(acts, acts[b]))
    ensures AncestorAt(acts, a, |acts[a].path| + 1).None?
  {
    AncestorPath(acts, a, |acts[a].path|);
    assert PathFits(acts, acts[AncestorAt(acts, a, |acts[a].path|).value]);
  }

  /** In every interleaving, the path of an execution holds the threads of all its ancestors, outermost first. */
  lemma PathsListAncestors(moves: seq<Move>, a: int)
    requires Perform(moves).Some? && a in Perform(moves).value.acts
    ensures var acts := Perform(moves).value.acts;
            AncestorAt(acts, a, |acts[a].path| + 1).None? &&
            forall i :: 0 <= i < |acts[a].path| ==> NamesAncestor(acts, a, i)
  {
    EveryInterleavingFits(moves);
    hide Perform, OwnFits, NamesAncestor, AncestorAt;
    FittingPathNames(Perform(moves).value.acts, a);
    TopHasNoParent(Perform(moves).value.acts, a);
  }

  // ---- Progress ----

  /** Moves an execution has left until it is closed. */
  function MovesLeft(act: Activation): nat {
    match act.at
    case Opened => |act.job.stream.items| + 3
    case Streaming(next, _) => if next <= |act.job.stream.items| then |act.job.stream.items| - next + 2 else 0
    case Ending(_) => 1
    case _ => 0
  }

  function OwnMove(a: int, at: Position): Move {
    match at
    case Opened => Enter(a)
    case Streaming(_, _) => Turn(a)
    case _ => Close(a)
  }

  lemma OwnMoveAdvances(w: World, a: int)
    requires a in w.acts && OwnFits(w, a) && !w.acts[a].at.Abandoned? && !w.acts[a].at.Closed?
    ensures var m := OwnMove(a, w.acts[a].at);
            Enabled(w, m) && a in Apply(w, m).acts && !Apply(w, m).acts[a].at.Abandoned? &&
            MovesLeft(Apply(w, m).acts[a]) < MovesLeft(w.acts[a])
  {
    var m := OwnMove(a, w.acts[a].at);
    LogStep(w, m);
    hide Own, Under, FromItem, Sink, Apply;
  }

  /** In every interleaving: an execution whose thread log was opened can go on to its end, whatever the others do. */
  lemma {:induction false} EveryExecutionCanFinish(moves: seq<Move>, a: int) returns (more: seq<Move>)
    requires Perform(moves).Some? && a in Perform(moves).value.acts && !Perform(moves).value.acts[a].at.Abandoned?
    ensures Perform(moves + more).Some? && a in Perform(moves + more).value.acts
    ensures Perform(moves + more).value.acts[a].at.Closed?
    decreases MovesLeft(Perform(moves).value.acts[a])
  {
    var w := Perform(moves).value;
    if w.acts[a].at.Closed? {
      more := [];
      S.Empty(moves);
    } else {
      EveryInterleavingFits(moves);
      assert OwnFits(w, a);
      OwnMoveAdvances(w, a);
      var m := OwnMove(a, w.acts[a].at);
      S.InitOfConcat(moves, m);
      assert Perform(moves + [m]) == Some(Apply(w, m));
      hide *;
      var rest := EveryExecutionCanFinish(moves + [m], a);
      S.Assoc(moves, [m], rest);
      more := [m] + rest;
    }
  }

  /** For every interleaving of executions nested to any depth: an execution's path is its parent's path and the
      parent's thread; under exactly that path the drainer reads a prefix of the execution's run, the whole of
      it once the execution has closed, and its start alone when the thread log could not be opened. */
  lemma DrainerReadsEveryRun(moves: seq<Move>, a: int)
    requires Perform(moves).Some? && a in Perform(moves).value.acts
    ensures var w := Perform(moves).value;
            var act := w.acts[a];
            if act.parent.None? then act.path == []
            else act.parent.value in w.acts && act.path == w.acts[act.parent.value].path + [w.acts[act.parent.value].job.tid]
    ensures var w := Perform(moves).value;
            var act := w.acts[a];
            Own(w.log, a) <= Under(act.path, JobOut(act.job)) &&
            (act.at.Closed? ==> Own(w.log, a) == Under(act.path, JobOut(act.job))) &&
            (act.at.Abandoned? ==> Own(w.log, a) == Under(act.path, JobOut(act.job)[..1]))
  {
    EveryInterleavingFits(moves);
    var w := Perform(moves).value;
    var act := w.acts[a];
    hide Perform;
    assert OwnFits(w, a);
    StartUnfolds(act.job);
    var start := [Start(act.job.tid, act.job.description, act.job.toolId)];
    assert JobOut(act.job)[..1] == start;
    UnderConcat(act.path, start, FromItem(act.job, 0, None));
    assert Under(act.path, []) == [];
    S.Empty(Own(w.log, a));
    hide Own, JobOut, FromItem, Under;
  }
}
