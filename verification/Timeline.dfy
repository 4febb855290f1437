/** Loading a thread's timeline: walk the checkpoint chain back from an anchor, then list every message once,
    with a marker wherever the message channel was wiped. */
module Timeline {
  import opened Wrappers
  import S = Sequences

  datatype Message = Message(id: Option<string>, content: string)

  datatype Checkpoint = Checkpoint(id: Option<string>, parent: Option<string>, messages: seq<Message>)

  /** One visited checkpoint. */
  datatype Visit = Visit(cid: string, messages: seq<Message>)

  datatype Item = Shown(message: Message, cid: string) | SummarizationMarker(checkpointId: string)

  type Db = map<string, Checkpoint>

  // ---- The chain ----

  /** Checkpoints are stored under their own id, and parents rank below their children: a forest. */
  predicate Forest(db: Db, rank: map<string, nat>) {
    forall k :: k in db ==>
      db[k].id == Some(k) && k in rank &&
      (db[k].parent.Some? && db[k].parent.value in db ==>
         db[k].parent.value in rank && rank[db[k].parent.value] < rank[k])
  }

  /** A checkpoint tuple the saver may hand out: one of the database, or one without an id. */
  predicate FromDb(db: Db, c: Checkpoint) {
    c.id.Some? ==> c.id.value in db && db[c.id.value] == c
  }

  function RankOf(rank: map<string, nat>, c: Checkpoint): nat {
    if c.id.Some? && c.id.value in rank then rank[c.id.value] else 0
  }

  /** The parent chain from c, newest first, ending at `stop` (inclusive), at a root, or where a parent is
      missing from the database. */
  function Chain(db: Db, c: Checkpoint, stop: Option<string>, rank: map<string, nat>): seq<Visit>
    requires Forest(db, rank) && FromDb(db, c)
    decreases RankOf(rank, c)
  {
    if c.id.None? then []
    else
      [Visit(c.id.value, c.messages)] +
      if c.id == stop || c.parent.None? || c.parent.value !in db then []
      else Chain(db, db[c.parent.value], stop, rank)
  }

  function Reverse<T>(s: seq<T>): seq<T> {
    if s == [] then [] else Reverse(s[1..]) + [s[0]]
  }

  /** h is the parent chain: it starts at c, each next visit is the stored parent of the one before, it goes
      through `stop` only at its end, and it does not end early. */
  predicate IsParentChain(db: Db, c: Checkpoint, stop: Option<string>, h: seq<Visit>) {
    h != [] && h[0] == Visit(c.id.GetOr(""), c.messages) && c.id.Some? &&
    (forall i :: 0 <= i < |h| ==> h[i].cid in db && h[i].messages == db[h[i].cid].messages) &&
    (forall i :: 0 <= i < |h| - 1 ==> db[h[i].cid].parent == Some(h[i + 1].cid) && Some(h[i].cid) != stop) &&
    var last := h[|h| - 1].cid;
    Some(last) == stop || db[last].parent.None? || db[last].parent.value !in db
  }

  lemma SecondVisit(db: Db, c: Checkpoint, stop: Option<string>, h: seq<Visit>)
    requires FromDb(db, c) && IsParentChain(db, c, stop, h) && |h| > 1
    ensures c.id != stop && c.parent == Some(h[1].cid) && h[1].cid in db
  {
    assert db[h[0].cid].parent == Some(h[1].cid);
  }

  lemma {:induction false} ChainIsTheParentChain(db: Db, c: Checkpoint, stop: Option<string>, rank: map<string, nat>, h: seq<Visit>)
    requires Forest(db, rank) && FromDb(db, c) && c.id.Some?
    ensures h == Chain(db, c, stop, rank) <==> IsParentChain(db, c, stop, h)
    decreases RankOf(rank, c)
  {
    var k := c.id.value;
    var head := Visit(k, c.messages);
    if c.id == stop || c.parent.None? || c.parent.value !in db {
      assert Chain(db, c, stop, rank) == [head];
      if IsParentChain(db, c, stop, h) && |h| > 1 {
        SecondVisit(db, c, stop, h);
      }
    } else {
      var p := db[c.parent.value];
      var tail := if h == [] then [] else h[1..];
      ChainIsTheParentChain(db, p, stop, rank, tail);
      ChainIsTheParentChain(db, p, stop, rank, Chain(db, p, stop, rank));
      assert Chain(db, c, stop, rank) == [head] + Chain(db, p, stop, rank);
      if h != [] && h[0] == head {
        S.HeadAndTail(h);
        FirstStep(db, c, stop, h);
      }
      hide Chain, IsParentChain;
    }
  }

  /** Where the walk goes on, a parent chain is the checkpoint before a parent chain of its parent. */
  lemma FirstStep(db: Db, c: Checkpoint, stop: Option<string>, h: seq<Visit>)
    requires FromDb(db, c) && c.id.Some? && c.id != stop && c.parent.Some? && c.parent.value in db
    requires db[c.parent.value].id == c.parent
    requires h != [] && h[0] == Visit(c.id.value, c.messages)
    ensures IsParentChain(db, c, stop, h) <==> IsParentChain(db, db[c.parent.value], stop, h[1..])
  {
    var tail := h[1..];
    assert forall i :: 0 <= i < |tail| ==> tail[i] == h[i + 1];
    assert forall i :: 1 <= i < |h| ==> h[i] == tail[i - 1];
    if IsParentChain(db, c, stop, h) {
      assert |h| > 1;
      assert db[h[0].cid].parent == Some(h[1].cid);
    }
  }

  /** The checkpoint the walk moves to from c, if it goes on. */
  function Next(db: Db, c: Checkpoint, stop: Option<string>): Option<Checkpoint> {
    if c.id.None? || c.id == stop || c.parent.None? || c.parent.value !in db then None else Some(db[c.parent.value])
  }

  function ChainFrom(db: Db, c: Option<Checkpoint>, stop: Option<string>, rank: map<string, nat>): seq<Visit>
    requires Forest(db, rank) && (c.Some? ==> FromDb(db, c.value))
  {
    if c.None? then [] else Chain(db, c.value, stop, rank)
  }

  lemma ChainStep(db: Db, c: Checkpoint, stop: Option<string>, rank: map<string, nat>)
    requires Forest(db, rank) && FromDb(db, c)
    ensures c.id.None? ==> Chain(db, c, stop, rank) == []
    ensures Next(db, c, stop).Some? ==>
              FromDb(db, Next(db, c, stop).value) && RankOf(rank, Next(db, c, stop).value) < RankOf(rank, c)
    ensures c.id.Some? ==>
              Chain(db, c, stop, rank) == [Visit(c.id.value, c.messages)] + ChainFrom(db, Next(db, c, stop), stop, rank)
  {}

  /** The walk: parents come from the prefetched map, with a direct fetch when one is missing there. */
  method Walk(db: Db, prefetched: Db, anchor: Option<Checkpoint>, stop: Option<string>, ghost rank: map<string, nat>)
    returns (history: seq<Visit>)
    requires Forest(db, rank) && (anchor.Some? ==> FromDb(db, anchor.value))
    requires forall k :: k in prefetched ==> k in db && prefetched[k] == db[k]
    ensures history == Reverse(ChainFrom(db, anchor, stop, rank))
  {
    hide Forest, Chain, RankOf, FromDb;
    history := [];
    var current := anchor;
    ghost var chain := ChainFrom(db, anchor, stop, rank);
    ghost var rest := chain;
    while current.Some?
      invariant current.Some? ==> FromDb(db, current.value)
      invariant rest == ChainFrom(db, current, stop, rank) && chain == history + rest
      decreases current.Some?, if current.Some? then RankOf(rank, current.value) else 0
    {
      var c := current.value;
      ChainStep(db, c, stop, rank);
      if c.id.None? {
        break;
      }
      history := history + [Visit(c.id.value, c.messages)];
      rest := ChainFrom(db, Next(db, c, stop), stop, rank);
      if c.id == stop {
        break;
      }
      if c.parent.None? {
        break;
      }
      var pid := c.parent.value;
      if pid in prefetched {
        current := Some(prefetched[pid]);
      } else {
        current := if pid in db then Some(db[pid]) else None;
      }
    }
    assert rest == [] && chain == history;
    history := Reversed(history);
  }

  method Reversed<T>(s: seq<T>) returns (r: seq<T>)
    ensures r == Reverse(s)
  {
    r := [];
    for i := 0 to |s|
      invariant Reverse(s) == Reverse(s[i..]) + r
    {
      r := [s[i]] + r;
      assert s[i..][1..] == s[i + 1..];
    }
  }

  // ---- The timeline of a history ----

  function Ids(ms: seq<Message>): set<string> {
    set m | m in ms && m.id.Some? :: m.id.value
  }

  function AllIds(h: seq<Visit>): set<string> {
    if h == [] then {} else Ids(h[0].messages) + AllIds(h[1..])
  }

  /** The messages of one checkpoint that are not yet shown. */
  function Fresh(ms: seq<Message>, seen: set<string>, cid: string): seq<Item> {
    if ms == [] then []
    else if ms[0].id.Some? && ms[0].id.value in seen then Fresh(ms[1..], seen, cid)
    else [Shown(ms[0], cid)] + Fresh(ms[1..], if ms[0].id.Some? then seen + {ms[0].id.value} else seen, cid)
  }

  /** A wipe: two successive checkpoints with messages and no id in common. */
  predicate Wiped(prev: set<string>, curr: set<string>) {
    prev != {} && curr != {} && prev !! curr
  }

  function Build(h: seq<Visit>, seen: set<string>, prev: set<string>): seq<Item> {
    if h == [] then []
    else
      var curr := Ids(h[0].messages);
      (if Wiped(prev, curr) then [SummarizationMarker(h[0].cid)] else []) +
      Fresh(h[0].messages, seen, h[0].cid) + Build(h[1..], seen + curr, curr)
  }

  function Timeline(h: seq<Visit>): seq<Item> {
    Build(h, {}, {})
  }

  lemma IdsStep(ms: seq<Message>)
    requires ms != []
    ensures Ids(ms) == Ids(ms[1..]) + if ms[0].id.Some? then {ms[0].id.value} else {}
  {
    assert ms == [ms[0]] + ms[1..];
  }

  lemma BuildStep(h: seq<Visit>, i: nat, seen: set<string>, prev: set<string>)
    requires i < |h|
    ensures var curr := Ids(h[i].messages);
            Build(h[i..], seen, prev) ==
            (if Wiped(prev, curr) then [SummarizationMarker(h[i].cid)] else []) +
            (Fresh(h[i].messages, seen, h[i].cid) + Build(h[i + 1..], seen + curr, curr))
  {
    assert h[i..][0] == h[i] && h[i..][1..] == h[i + 1..];
  }

  /** The scan as it runs, with its growing set of seen ids. */
  method BuildTimeline(history: seq<Visit>) returns (timeline: seq<Item>)
    ensures timeline == Timeline(history)
  {
    hide Build, Fresh, Ids;
    timeline := [];
    var seenIds: set<string> := {};
    var prevIds: set<string> := {};
    assert history[0..] == history;
    for i := 0 to |history|
      invariant Timeline(history) == timeline + Build(history[i..], seenIds, prevIds)
    {
      var v := history[i];
      BuildStep(history, i, seenIds, prevIds);
      var currIds := Ids(v.messages);
      if prevIds != {} && currIds != {} && prevIds !! currIds {
        timeline := timeline + [SummarizationMarker(v.cid)];
      }
      timeline, seenIds := ShowFresh(v, timeline, seenIds);
      prevIds := currIds;
    }
    NothingLeft(history, seenIds, prevIds);
  }

  lemma NothingLeft(history: seq<Visit>, seen: set<string>, prev: set<string>)
    ensures Build(history[|history|..], seen, prev) == []
  {}

  /** The inner loop over one checkpoint's messages. */
  method ShowFresh(v: Visit, before: seq<Item>, seen: set<string>) returns (timeline: seq<Item>, seenIds: set<string>)
    ensures timeline == before + Fresh(v.messages, seen, v.cid)
    ensures seenIds == seen + Ids(v.messages)
  {
    timeline, seenIds := before, seen;
    for k := 0 to |v.messages|
      invariant before + Fresh(v.messages, seen, v.cid) == timeline + Fresh(v.messages[k..], seenIds, v.cid)
      invariant seenIds + Ids(v.messages[k..]) == seen + Ids(v.messages)
    {
      var m := v.messages[k];
      assert v.messages[k..][1..] == v.messages[k + 1..];
      IdsStep(v.messages[k..]);
      if m.id.Some? && m.id.value in seenIds {
        continue;
      }
      if m.id.Some? {
        seenIds := seenIds + {m.id.value};
      }
      timeline := timeline + [Shown(m, v.cid)];
    }
  }

  // ---- Every id once, at its earliest checkpoint ----

  /** The first checkpoint of the history that holds a message with this id. */
  function FirstHolder(h: seq<Visit>, id: string): string
    requires id in AllIds(h)
  {
    if id in Ids(h[0].messages) then h[0].cid else FirstHolder(h[1..], id)
  }

  predicate Shows(i: Item, id: string) {
    i.Shown? && i.message.id == Some(id)
  }

  predicate ShowsOnce(r: seq<Item>, id: string, cid: string) {
    exists i :: 0 <= i < |r| && Shows(r[i], id) && r[i].cid == cid && forall j :: 0 <= j < |r| && j != i ==> !Shows(r[j], id)
  }

  predicate ShowsNever(r: seq<Item>, id: string) {
    forall i :: 0 <= i < |r| ==> !Shows(r[i], id)
  }

  lemma OnceConcat(a: seq<Item>, b: seq<Item>, id: string, cid: string)
    ensures ShowsOnce(a, id, cid) && ShowsNever(b, id) ==> ShowsOnce(a + b, id, cid)
    ensures ShowsNever(a, id) && ShowsOnce(b, id, cid) ==> ShowsOnce(a + b, id, cid)
    ensures ShowsNever(a, id) && ShowsNever(b, id) ==> ShowsNever(a + b, id)
  {
    if ShowsOnce(a, id, cid) && ShowsNever(b, id) {
      var i :| 0 <= i < |a| && Shows(a[i], id) && a[i].cid == cid && forall j :: 0 <= j < |a| && j != i ==> !Shows(a[j], id);
      assert (a + b)[i] == a[i];
    }
    if ShowsNever(a, id) && ShowsOnce(b, id, cid) {
      var i :| 0 <= i < |b| && Shows(b[i], id) && b[i].cid == cid && forall j :: 0 <= j < |b| && j != i ==> !Shows(b[j], id);
      assert (a + b)[|a| + i] == b[i];
    }
  }

  lemma {:induction false} FreshShows(ms: seq<Message>, seen: set<string>, cid: string, id: string)
    ensures id in seen || id !in Ids(ms) ==> ShowsNever(Fresh(ms, seen, cid), id)
    ensures id !in seen && id in Ids(ms) ==> ShowsOnce(Fresh(ms, seen, cid), id, cid)
  {
    if ms != [] {
      IdsStep(ms);
      var item := Shown(ms[0], cid);
      var seen' := if ms[0].id.Some? then seen + {ms[0].id.value} else seen;
      FreshShows(ms[1..], seen, cid, id);
      FreshShows(ms[1..], seen', cid, id);
      OnceConcat([item], Fresh(ms[1..], seen', cid), id, cid);
      assert Shows(item, id) ==> ShowsOnce([item], id, cid) by { assert [item][0] == item; }
    }
  }

  lemma {:induction false} BuildShows(h: seq<Visit>, seen: set<string>, prev: set<string>, id: string)
    ensures id in seen || id !in AllIds(h) ==> ShowsNever(Build(h, seen, prev), id)
    ensures id !in seen && id in AllIds(h) ==> ShowsOnce(Build(h, seen, prev), id, FirstHolder(h, id))
  {
    hide ShowsOnce, ShowsNever, Fresh;
    if h == [] {
      NothingShown(id);
    } else {
      var curr := Ids(h[0].messages);
      var mark := if Wiped(prev, curr) then [SummarizationMarker(h[0].cid)] else [];
      var fresh_ := Fresh(h[0].messages, seen, h[0].cid);
      var rest := Build(h[1..], seen + curr, curr);
      MarkShowsNothing(mark, id);
      FreshShows(h[0].messages, seen, h[0].cid, id);
      BuildShows(h[1..], seen + curr, curr, id);
      var at := if id in AllIds(h) then FirstHolder(h, id) else "";
      OnceConcat(mark, fresh_, id, at);
      OnceConcat(mark + fresh_, rest, id, at);
    }
  }

  lemma NothingShown(id: string)
    ensures ShowsNever([], id)
  {}

  lemma MarkShowsNothing(mark: seq<Item>, id: string)
    requires forall i :: 0 <= i < |mark| ==> mark[i].SummarizationMarker?
    ensures ShowsNever(mark, id)
  {}

  /** Every id on the chain is shown exactly once, with the earliest checkpoint that holds it; no other id is
      shown. */
  lemma EachIdOnceAtItsFirstHolder(h: seq<Visit>, id: string)
    ensures id in AllIds(h) ==> ShowsOnce(Timeline(h), id, FirstHolder(h, id))
    ensures id !in AllIds(h) ==> ShowsNever(Timeline(h), id)
  {
    BuildShows(h, {}, {}, id);
  }

  // ---- Splitting a chain at an ancestor ----

  /** Items whose id is new; markers and messages without id stay. */
  function OnlyNew(r: seq<Item>, known: set<string>): seq<Item> {
    if r == [] then []
    else if r[0].Shown? && r[0].message.id.Some? && r[0].message.id.value in known then OnlyNew(r[1..], known)
    else [r[0]] + OnlyNew(r[1..], known)
  }

  function WithoutId(ms: seq<Message>): seq<Message> {
    if ms == [] then [] else (if ms[0].id.None? then [ms[0]] else []) + WithoutId(ms[1..])
  }

  function LastIds(h: seq<Visit>, prev: set<string>): set<string> {
    if h == [] then prev else Ids(h[|h| - 1].messages)
  }

  lemma {:induction false} BuildConcat(a: seq<Visit>, b: seq<Visit>, seen: set<string>, prev: set<string>)
    ensures Build(a + b, seen, prev) == Build(a, seen, prev) + Build(b, seen + AllIds(a), LastIds(a, prev))
  {
    if a == [] {
      assert a + b == b && seen + AllIds(a) == seen;
    } else {
      var curr := Ids(a[0].messages);
      S.TailOfConcat(a, b);
      BuildConcat(a[1..], b, seen + curr, curr);
      var rest := Build(b, seen + AllIds(a), LastIds(a, prev));
      var marker := if Wiped(prev, curr) then [SummarizationMarker(a[0].cid)] else [];
      S.Assoc(marker + Fresh(a[0].messages, seen, a[0].cid), Build(a[1..], seen + curr, curr), rest);
      assert seen + curr + AllIds(a[1..]) == seen + AllIds(a);
      assert LastIds(a, prev) == LastIds(a[1..], curr);
    }
  }

  lemma {:induction false} OnlyNewConcat(a: seq<Item>, b: seq<Item>, known: set<string>)
    ensures OnlyNew(a + b, known) == OnlyNew(a, known) + OnlyNew(b, known)
  {
    if a == [] {
      assert a + b == b;
    } else {
      assert (a + b)[1..] == a[1..] + b;
      OnlyNewConcat(a[1..], b, known);
    }
  }

  lemma {:induction false} OnlyNewFresh(ms: seq<Message>, seen: set<string>, cid: string, known: set<string>)
    ensures OnlyNew(Fresh(ms, seen, cid), known) == Fresh(ms, seen + known, cid)
  {
    if ms != [] {
      var seen' := if ms[0].id.Some? then seen + {ms[0].id.value} else seen;
      OnlyNewFresh(ms[1..], seen, cid, known);
      OnlyNewFresh(ms[1..], seen', cid, known);
      if ms[0].id.Some? {
        assert (seen + known) + {ms[0].id.value} == seen' + known;
        if ms[0].id.value in known { assert seen' + known == seen + known; }
      }
    }
  }

  lemma {:induction false} OnlyNewBuild(h: seq<Visit>, seen: set<string>, prev: set<string>, known: set<string>)
    ensures OnlyNew(Build(h, seen, prev), known) == Build(h, seen + known, prev)
  {
    if h != [] {
      hide Fresh;
      var curr := Ids(h[0].messages);
      var mark := if Wiped(prev, curr) then [SummarizationMarker(h[0].cid)] else [];
      var fresh_ := Fresh(h[0].messages, seen, h[0].cid);
      OnlyNewConcat(mark + fresh_, Build(h[1..], seen + curr, curr), known);
      OnlyNewConcat(mark, fresh_, known);
      OnlyNewFresh(h[0].messages, seen, h[0].cid, known);
      OnlyNewBuild(h[1..], seen + curr, curr, known);
      assert seen + curr + known == seen + known + curr;
      if mark != [] { assert mark[1..] == []; }
      assert OnlyNew(mark, known) == mark;
    }
  }

  lemma {:induction false} FreshAllKnown(ms: seq<Message>, seen: set<string>, cid: string)
    requires Ids(ms) <= seen
    ensures |Fresh(ms, seen, cid)| == |WithoutId(ms)|
  {
    if ms != [] {
      IdsStep(ms);
      FreshAllKnown(ms[1..], seen, cid);
    }
  }

  lemma {:induction false} AllIdsConcat(a: seq<Visit>, b: seq<Visit>)
    ensures AllIds(a + b) == AllIds(a) + AllIds(b)
  {
    if a == [] {
      assert a + b == b;
    } else {
      assert (a + b)[1..] == a[1..] + b;
      AllIdsConcat(a[1..], b);
    }
  }

  /** Segments: a whole history is the history up to s, then the new part of the segment that starts at s,
      exactly when s holds no message without an id. */
  lemma SegmentsCompose(before: seq<Visit>, s: Visit, after: seq<Visit>)
    ensures Timeline(before + [s] + after) ==
            Timeline(before + [s]) + OnlyNew(Timeline([s] + after), AllIds(before + [s]))
            <==> WithoutId(s.messages) == []
  {
    hide Build, OnlyNew, Fresh, WithoutId, AllIds;
    var upto := before + [s];
    var known := AllIds(upto);
    SegmentBuild(before, s, after);
    FreshAllKnown(s.messages, known, s.cid);
    var x, f, y := Timeline(upto), Fresh(s.messages, known, s.cid), Build(after, known, Ids(s.messages));
    assert |x + (f + y)| == |x + y| + |f|;
    if f == [] { assert f + y == y; }
  }

  lemma SegmentBuild(before: seq<Visit>, s: Visit, after: seq<Visit>)
    ensures var known := AllIds(before + [s]);
            Ids(s.messages) <= known &&
            Timeline(before + [s] + after) == Timeline(before + [s]) + Build(after, known, Ids(s.messages)) &&
            OnlyNew(Timeline([s] + after), known) == Fresh(s.messages, known, s.cid) + Build(after, known, Ids(s.messages))
  {
    hide OnlyNew, Fresh;
    var upto := before + [s];
    var known := AllIds(upto);
    BuildConcat(upto, after, {}, {});
    assert {} + known == known;
    AllIdsConcat(before, [s]);
    assert AllIds([s]) == Ids(s.messages) by { assert [s][1..] == []; }
    assert known + Ids(s.messages) == known;
    OnlyNewBuild([s] + after, {}, {}, known);
    BuildStep([s] + after, 0, known, {});
    assert ([s] + after)[0..] == [s] + after && ([s] + after)[1..] == after;
    hide Build;
    assert LastIds(upto, {}) == Ids(s.messages);
    assert forall k: seq<Item> :: [] + k == k;
  }

  /** Where s lies on the chain of c. */
  predicate OnChain(db: Db, c: Checkpoint, s: Checkpoint, rank: map<string, nat>)
    requires Forest(db, rank) && FromDb(db, c) && FromDb(db, s)
    decreases RankOf(rank, c)
  {
    c.id.Some? && (c == s || (c.parent.Some? && c.parent.value in db && OnChain(db, db[c.parent.value], s, rank)))
  }

  lemma {:induction false} ChainSplits(db: Db, c: Checkpoint, s: Checkpoint, rank: map<string, nat>)
    requires Forest(db, rank) && FromDb(db, c) && FromDb(db, s) && s.id.Some? && OnChain(db, c, s, rank)
    ensures var upto := Chain(db, s, None, rank);
            var segment := Chain(db, c, s.id, rank);
            segment != [] && upto != [] && segment[|segment| - 1] == Visit(s.id.value, s.messages) == upto[0] &&
            Chain(db, c, None, rank) == segment + upto[1..]
    decreases RankOf(rank, c)
  {
    hide Forest, Chain;
    ChainStep(db, s, None, rank);
    ChainStep(db, c, s.id, rank);
    ChainStep(db, c, None, rank);
    var upto := Chain(db, s, None, rank);
    if c.id == s.id {
      assert c == s;
      assert upto == [upto[0]] + upto[1..];
      assert Chain(db, c, s.id, rank) == [upto[0]];
    } else {
      var p := db[c.parent.value];
      ChainSplits(db, p, s, rank);
      var head := Visit(c.id.value, c.messages);
      assert [head] + (Chain(db, p, s.id, rank) + upto[1..]) == [head] + Chain(db, p, s.id, rank) + upto[1..];
    }
  }

  lemma {:induction false} ReverseConcat<T>(a: seq<T>, b: seq<T>)
    ensures Reverse(a + b) == Reverse(b) + Reverse(a)
  {
    if a == [] {
      assert a + b == b;
    } else {
      assert (a + b)[1..] == a[1..] + b;
      ReverseConcat(a[1..], b);
    }
  }

  /** What the loader returns. */
  function Load(db: Db, c: Checkpoint, stop: Option<string>, rank: map<string, nat>): seq<Item>
    requires Forest(db, rank) && FromDb(db, c)
  {
    Timeline(Reverse(Chain(db, c, stop, rank)))
  }

  /** Main result on segments, for any anchor c and any ancestor s of it: the timeline to c is the timeline to
      s followed by what is new in the segment from s to c, exactly when s has no message without an id. */
  lemma TimelineSplitsAtAncestor(db: Db, c: Checkpoint, s: Checkpoint, rank: map<string, nat>)
    requires Forest(db, rank) && FromDb(db, c) && FromDb(db, s) && s.id.Some? && OnChain(db, c, s, rank)
    ensures Load(db, c, None, rank) ==
            Load(db, s, None, rank) + OnlyNew(Load(db, c, s.id, rank), AllIds(Reverse(Chain(db, s, None, rank))))
            <==> WithoutId(s.messages) == []
  {
    hide Timeline, OnlyNew, WithoutId, AllIds, Forest, Chain, Reverse;
    ChainSplits(db, c, s, rank);
    var upto, segment := Chain(db, s, None, rank), Chain(db, c, s.id, rank);
    var v := Visit(s.id.value, s.messages);
    var init, tail := segment[..|segment| - 1], upto[1..];
    var before, after := Reverse(tail), Reverse(init);
    assert segment == init + [v] && upto == [v] + tail;
    ReverseOne(v);
    ReverseConcat([v], tail);
    ReverseConcat(init, [v]);
    ReverseConcat(segment, tail);
    assert before + ([v] + after) == before + [v] + after;
    SegmentsCompose(before, v, after);
  }

  lemma ReverseOne<T>(x: T)
    ensures Reverse([x]) == [x]
  {
    assert [x][1..] == [];
  }

  // ---- Markers ----

  function Markers(r: seq<Item>): seq<string> {
    if r == [] then []
    else (if r[0].SummarizationMarker? then [r[0].checkpointId] else []) + Markers(r[1..])
  }

  lemma {:induction false} MarkersConcat(a: seq<Item>, b: seq<Item>)
    ensures Markers(a + b) == Markers(a) + Markers(b)
  {
    if a == [] {
      assert a + b == b;
    } else {
      assert (a + b)[1..] == a[1..] + b;
      MarkersConcat(a[1..], b);
    }
  }

  lemma {:induction false} FreshHasNoMarker(ms: seq<Message>, seen: set<string>, cid: string)
    ensures Markers(Fresh(ms, seen, cid)) == []
  {
    if ms != [] {
      FreshHasNoMarker(ms[1..], seen, cid);
      FreshHasNoMarker(ms[1..], if ms[0].id.Some? then seen + {ms[0].id.value} else seen, cid);
      var rest := Fresh(ms[1..], if ms[0].id.Some? then seen + {ms[0].id.value} else seen, cid);
      assert ([Shown(ms[0], cid)] + rest)[1..] == rest;
    }
  }
}
