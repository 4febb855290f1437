/** What writes the checkpoints of a thread: updates of its message channel. The timeline's markers are judged
    against these updates. */
module MessageChannel {
  import opened Wrappers
  import opened T = Timeline
  import S = Sequences

  /** One update. A write removes messages by id, then puts messages, each in the place of the one with its id
      if there is one. The summarizer removes everything and inserts new messages. */
  datatype Update = Write(removed: set<string>, added: seq<Message>) | Summarize(inserted: seq<Message>)

  function Without(ms: seq<Message>, removed: set<string>): seq<Message> {
    if ms == [] then []
    else (if ms[0].id.Some? && ms[0].id.value in removed then [] else [ms[0]]) + Without(ms[1..], removed)
  }

  function Put(ms: seq<Message>, m: Message): seq<Message> {
    if ms == [] then [m]
    else if m.id.Some? && ms[0].id == m.id then [m] + ms[1..]
    else [ms[0]] + Put(ms[1..], m)
  }

  function PutAll(ms: seq<Message>, added: seq<Message>): seq<Message>
    decreases |added|
  {
    if added == [] then ms else PutAll(Put(ms, added[0]), added[1..])
  }

  function After(ms: seq<Message>, u: Update): seq<Message> {
    match u
    case Write(removed, added) => PutAll(Without(ms, removed), added)
    case Summarize(inserted) => inserted
  }

  lemma {:induction false} WithoutIds(ms: seq<Message>, removed: set<string>)
    ensures Ids(Without(ms, removed)) == Ids(ms) - removed
  {
    if ms != [] {
      WithoutIds(ms[1..], removed);
      IdsStep(ms);
      var rest := Without(ms[1..], removed);
      if ms[0].id.Some? && ms[0].id.value in removed {
        S.Empty(rest);
      } else {
        IdsStep([ms[0]] + rest);
        assert ([ms[0]] + rest)[1..] == rest;
      }
    }
  }

  lemma {:induction false} PutIds(ms: seq<Message>, m: Message)
    ensures Ids(Put(ms, m)) == Ids(ms) + if m.id.Some? then {m.id.value} else {}
  {
    IdsStep([m] + if ms == [] then [] else ms[1..]);
    if ms != [] {
      IdsStep(ms);
      assert ([m] + ms[1..])[1..] == ms[1..];
      PutIds(ms[1..], m);
      var rest := Put(ms[1..], m);
      IdsStep([ms[0]] + rest);
      assert ([ms[0]] + rest)[1..] == rest;
    }
  }

  lemma {:induction false} PutAllIds(ms: seq<Message>, added: seq<Message>)
    ensures Ids(PutAll(ms, added)) == Ids(ms) + Ids(added)
    decreases |added|
  {
    if added != [] {
      PutIds(ms, added[0]);
      PutAllIds(Put(ms, added[0]), added[1..]);
      IdsStep(added);
    }
  }

  lemma AfterIds(ms: seq<Message>, u: Update)
    ensures Ids(After(ms, u)) == if u.Write? then (Ids(ms) - u.removed) + Ids(u.added) else Ids(u.inserted)
  {
    if u.Write? {
      WithoutIds(ms, u.removed);
      PutAllIds(Without(ms, u.removed), u.added);
    }
  }

  // ---- Runs of updates ----

  /** One checkpoint per update. */
  function History(ms: seq<Message>, us: seq<Update>, cids: seq<string>): seq<Visit>
    requires |cids| == |us|
    decreases |us|
  {
    if us == [] then [] else [Visit(cids[0], After(ms, us[0]))] + History(After(ms, us[0]), us[1..], cids[1..])
  }

  /** The checkpoints written by the summarizer. */
  function SummaryPoints(us: seq<Update>, cids: seq<string>): seq<string>
    requires |cids| == |us|
  {
    if us == [] then [] else (if us[0].Summarize? then [cids[0]] else []) + SummaryPoints(us[1..], cids[1..])
  }

  /** Every summary inserts messages with ids never used before. */
  predicate FreshSummaries(ms: seq<Message>, used: set<string>, us: seq<Update>)
    decreases |us|
  {
    us == [] ||
    ((us[0].Summarize? ==> Ids(us[0].inserted) != {} && Ids(us[0].inserted) !! used) &&
     FreshSummaries(After(ms, us[0]), used + Ids(After(ms, us[0])), us[1..]))
  }

  /** A write that leaves no message of a channel, yet puts others under other ids. */
  predicate ReplacesAll(ms: seq<Message>, u: Update) {
    u.Write? && Ids(ms) != {} && Ids(ms) <= u.removed && Ids(u.added) != {} && Ids(ms) !! Ids(u.added)
  }

  /** The edges: no summary of a channel without ids, no write that replaces everything. */
  predicate NoEdge(ms: seq<Message>, us: seq<Update>)
    decreases |us|
  {
    us == [] ||
    ((us[0].Summarize? ==> Ids(ms) != {}) && !ReplacesAll(ms, us[0]) && NoEdge(After(ms, us[0]), us[1..]))
  }

  predicate Distinct(cids: seq<string>) {
    forall i, j :: 0 <= i < j < |cids| ==> cids[i] != cids[j]
  }

  /** A checkpoint looks wiped exactly when it summarizes a channel with ids or replaces everything. */
  lemma WipedExactly(ms: seq<Message>, used: set<string>, u: Update)
    requires FreshSummaries(ms, used, [u]) && Ids(ms) <= used
    ensures Wiped(Ids(ms), Ids(After(ms, u))) <==> if u.Summarize? then Ids(ms) != {} else ReplacesAll(ms, u)
  {
    AfterIds(ms, u);
  }

  lemma {:induction false} PointsAmong(ms: seq<Message>, us: seq<Update>, cids: seq<string>, seen: set<string>, prev: set<string>)
    requires |cids| == |us|
    ensures forall c :: c in SummaryPoints(us, cids) ==> c in cids
    ensures forall c :: c in Markers(Build(History(ms, us, cids), seen, prev)) ==> c in cids
    decreases |us|
  {
    if us != [] {
      var v := Visit(cids[0], After(ms, us[0]));
      PointsAmong(v.messages, us[1..], cids[1..], seen + Ids(v.messages), Ids(v.messages));
      MarkersStep(v, History(v.messages, us[1..], cids[1..]), seen, prev);
    }
  }

  lemma MarkersStep(v: Visit, rest: seq<Visit>, seen: set<string>, prev: set<string>)
    ensures var curr := Ids(v.messages);
            Markers(Build([v] + rest, seen, prev)) ==
            (if Wiped(prev, curr) then [v.cid] else []) + Markers(Build(rest, seen + curr, curr))
  {
    var curr := Ids(v.messages);
    var mark := if Wiped(prev, curr) then [SummarizationMarker(v.cid)] else [];
    var shown := Fresh(v.messages, seen, v.cid);
    assert ([v] + rest)[1..] == rest;
    MarkersConcat(mark + shown, Build(rest, seen + curr, curr));
    MarkersConcat(mark, shown);
    FreshHasNoMarker(v.messages, seen, v.cid);
    if mark != [] { assert mark[1..] == []; }
    S.Empty(Markers(mark));
  }

  lemma SameHeads(m: bool, s: bool, c: string, a: seq<string>, b: seq<string>)
    requires c !in a && c !in b
    ensures (if m then [c] else []) + a == (if s then [c] else []) + b <==> (m == s && a == b)
  {
    var x, y := (if m then [c] else []) + a, (if s then [c] else []) + b;
    assert m ==> x[0] == c && x[1..] == a;
    assert s ==> y[0] == c && y[1..] == b;
    S.Empty(a);
    S.Empty(b);
    assert x == y && m && !s ==> c in b;
    assert x == y && s && !m ==> c in a;
  }

  /** Over every run of updates whose summaries use new ids, the markers are exactly the summarizing checkpoints
      if and only if no summary meets a channel without ids and no write replaces a whole channel. */
  lemma {:induction false} MarkersAreTheSummaries(ms: seq<Message>, used: set<string>, us: seq<Update>,
                                                    cids: seq<string>, seen: set<string>)
    requires |cids| == |us| && Distinct(cids) && Ids(ms) <= used && FreshSummaries(ms, used, us)
    ensures Markers(Build(History(ms, us, cids), seen, Ids(ms))) == SummaryPoints(us, cids) <==> NoEdge(ms, us)
    decreases |us|
  {
    if us != [] {
      var v := Visit(cids[0], After(ms, us[0]));
      var curr := Ids(v.messages);
      var rest := History(v.messages, us[1..], cids[1..]);
      WipedExactly(ms, used, us[0]);
      MarkersStep(v, rest, seen, Ids(ms));
      PointsAmong(v.messages, us[1..], cids[1..], seen + curr, curr);
      MarkersAreTheSummaries(v.messages, used + curr, us[1..], cids[1..], seen + curr);
      hide Build, Markers, After, Wiped, ReplacesAll, Ids;
      SameHeads(Wiped(Ids(ms), curr), us[0].Summarize?, cids[0],
                Markers(Build(rest, seen + curr, curr)), SummaryPoints(us[1..], cids[1..]));
    }
  }

  /** A whole thread, from its empty channel. */
  lemma ThreadMarkersAreTheSummaries(us: seq<Update>, cids: seq<string>)
    requires |cids| == |us| && Distinct(cids) && FreshSummaries([], {}, us)
    ensures Markers(Timeline(History([], us, cids))) == SummaryPoints(us, cids) <==> NoEdge([], us)
  {
    MarkersAreTheSummaries([], {}, us, cids, {});
  }
}
