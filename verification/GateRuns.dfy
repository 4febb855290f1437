/** Runs of the authoring workflow, from its start to an accepted publish, in which the report differs from what was
    certified: in the tests claimed, in the markings, in the skips. */
module GateRuns {
  import opened Wrappers
  import opened Strings
  import opened Skips
  import opened PropertyTests
  import opened PublishGate
  import opened PublishedBatch
  import opened DigestSurface
  import S = Sequences

  // ---- Runs of one call a step ----

  function Next(cfg: Config, st: State, c: Call): State {
    Reduce(st, Run(cfg, c, st))
  }

  function After(cfg: Config, calls: seq<Call>): State {
    if calls == [] then INITIAL else Next(cfg, After(cfg, calls[..|calls| - 1]), calls[|calls| - 1])
  }

  function Trace(cfg: Config, calls: seq<Call>): seq<State> {
    seq(|calls| + 1, i requires 0 <= i <= |calls| => After(cfg, calls[..i]))
  }

  function Singles(calls: seq<Call>): seq<seq<Call>> {
    seq(|calls|, i requires 0 <= i < |calls| => [calls[i]])
  }

  lemma AfterOneMore(cfg: Config, calls: seq<Call>, c: Call)
    ensures After(cfg, calls + [c]) == Next(cfg, After(cfg, calls), c)
  {
    S.InitOfConcat(calls, c);
  }

  lemma TraceIsARun(cfg: Config, calls: seq<Call>)
    ensures IsRun(cfg, Trace(cfg, calls), Singles(calls))
    ensures Trace(cfg, calls)[|calls|] == After(cfg, calls)
  {
    var states, steps := Trace(cfg, calls), Singles(calls);
    forall i | 0 <= i < |steps| ensures states[i + 1] == Fold(cfg, steps[i], states[i]) {
      assert calls[..i + 1] == calls[..i] + [calls[i]];
      AfterOneMore(cfg, calls[..i], calls[i]);
      FoldOne(cfg, calls[i], states[i]);
      hide After, Fold;
    }
    assert calls[..|calls|] == calls;
  }

  // ---- What single calls do ----

  lemma NothingMerged(st: State)
    ensures st.validations + map[] == st.validations && MergeExpected(st.expectedFailures, map[]) == st.expectedFailures
  {}

  lemma NextPut(cfg: Config, st: State, source: string)
    ensures Next(cfg, st, PutTest(source)) == st.(currTest := Some(source))
  {
    NothingMerged(st);
    hide MergeExpected;
  }

  /** A forge run of one passing test. */
  function Passes(seed: Option<string>, name: string): Call {
    ForgeTest(seed, Ran(0, [TestResult(name, "Success")]))
  }

  lemma NextPasses(cfg: Config, st: State, seed: Option<string>, name: string)
    requires st.currTest.Some? && name !in st.expectedFailures
    ensures Next(cfg, st, Passes(seed, name)) ==
            st.(lastTestNames := Some([name]),
                validations := if seed.None? then st.validations[FORGE_TEST := DigestOf(cfg, st)] else st.validations)
  {
    NothingMerged(st);
    var rs := [TestResult(name, "Success")];
    assert TestNames(rs) == [name];
    assert IsClean(Ran(0, rs), st.expectedFailures);
    assert st.validations + map[FORGE_TEST := DigestOf(cfg, st)] == st.validations[FORGE_TEST := DigestOf(cfg, st)];
    hide MergeExpected, DigestOf, TestNames, IsClean;
  }

  lemma NextGood(cfg: Config, st: State)
    requires st.currTest.Some?
    ensures Next(cfg, st, Feedback(true)) == st.(validations := st.validations[FEEDBACK := DigestOf(cfg, st)])
  {
    NothingMerged(st);
    assert st.validations + map[FEEDBACK := DigestOf(cfg, st)] == st.validations[FEEDBACK := DigestOf(cfg, st)];
    hide MergeExpected, DigestOf;
  }

  lemma NextMark(cfg: Config, st: State, name: string, why: string)
    requires Strip(why) != "" && why != ""
    ensures Next(cfg, st, ExpectFailure(name, why)) == st.(expectedFailures := st.expectedFailures[name := why])
  {
    NothingMerged(st);
    hide Strip;
    assert MergeExpected(st.expectedFailures, map[name := why]) == st.expectedFailures[name := why];
  }

  lemma NextSkip(cfg: Config, st: State, title: string, reason: string)
    requires title in cfg.titles && Strip(reason) != ""
    ensures Next(cfg, st, RecordSkip(title, reason)) == st.(skipped := Merge(st.skipped, [Skip(title, reason)]))
  {
    NothingMerged(st);
    hide MergeExpected, Strip, Merge;
  }

  lemma NextPublish(cfg: Config, st: State, note: string, mapping: seq<PropertyTestMapping>)
    requires PublishVerdict(cfg, st, mapping).None?
    ensures Next(cfg, st, Publish(note, mapping)) ==
            st.(result := Some(note), propertyTests := mapping, failed := Some(false))
  {
    NothingMerged(st);
    hide MergeExpected, PublishVerdict;
  }

  // ---- Acceptance ----

  /** Both stamps carry the current digest. */
  predicate Stamped(cfg: Config, st: State) {
    st.currTest.Some? && st.required == [FORGE_TEST, FEEDBACK] &&
    st.validations == map[FORGE_TEST := DigestOf(cfg, st), FEEDBACK := DigestOf(cfg, st)]
  }

  lemma StampedIsComplete(cfg: Config, st: State)
    requires Stamped(cfg, st)
    ensures CheckCompletion(cfg, st).None?
  {
    FirstStaleNone(st.required, st.validations, DigestOf(cfg, st));
    hide DigestOf, FirstStale;
  }

  /** One property mapped to one test, the others skipped. */
  lemma OneMappingIsValid(p: string, name: string, skipped: seq<Skip>, titles: seq<string>)
    requires Strip(name) == name != "" && p in titles && p !in SkippedTitles(skipped)
    requires forall t :: t in titles ==> t == p || t in SkippedTitles(skipped)
    ensures var ms := [PropertyTestMapping(p, [name])];
            ValidMapping(ms, skipped, titles, [name]) && ClaimedTests(ms) == {name}
  {
    hide Strip, SkippedTitles;
    var m := PropertyTestMapping(p, [name]);
    assert Names(m.tests) == {name} by { assert name in m.tests; }
    hide Names;
    assert m in [m];
    assert ClaimedTests([m]) == {name};
    assert MappedTitles([m]) == {p};
  }

  lemma Accepts(cfg: Config, st: State, p: string, name: string)
    requires Stamped(cfg, st) && st.lastTestNames == Some([name])
    requires Strip(name) == name != "" && p in cfg.titles && p !in SkippedTitles(st.skipped)
    requires forall t :: t in cfg.titles ==> t == p || t in SkippedTitles(st.skipped)
    ensures PublishVerdict(cfg, st, [PropertyTestMapping(p, [name])]).None?
  {
    StampedIsComplete(cfg, st);
    OneMappingIsValid(p, name, st.skipped, cfg.titles);
    hide CheckCompletion, ValidMapping, Stamped;
  }

  // ---- Other tests claimed ----

  function OtherTests(a: string, b: string, x: string, y: string): seq<Call> {
    [PutTest(a), Passes(None, x), Feedback(true), PutTest(b), Passes(Some("s"), y), PutTest(a)]
  }

  /** Test a is certified by a run that reports x. Another draft runs under a seed and reports y, then a is put back.
      The publish is accepted with a mapping that claims y, which never ran on a, and not x, which did. */
  lemma AnotherTestIsClaimed(cfg: Config, p: string, a: string, b: string, x: string, y: string, note: string)
    requires cfg.titles == [p] && Strip(y) == y != "" && x != y
    ensures var mapping := [PropertyTestMapping(p, [y])];
            var calls := OtherTests(a, b, x, y);
            var st := After(cfg, calls);
            IsRun(cfg, Trace(cfg, calls + [Publish(note, mapping)]), Singles(calls + [Publish(note, mapping)])) &&
            PublishVerdict(cfg, st, mapping).None? && st.currTest == Some(a) &&
            After(cfg, calls + [Publish(note, mapping)]).failed == Some(false) &&
            Reported(calls[1]) == {x} && ClaimedTests(mapping) == {y}
  {
    var mapping := [PropertyTestMapping(p, [y])];
    var calls := OtherTests(a, b, x, y);
    var st := OtherTestsState(cfg, a, b, x, y);
    OneReported(x);
    hide Reported, ClaimedTests;
    Accepts(cfg, st, p, y);
    OneMappingIsValid(p, y, [], [p]);
    TraceIsARun(cfg, calls + [Publish(note, mapping)]);
    AfterOneMore(cfg, calls, Publish(note, mapping));
    NextPublish(cfg, st, note, mapping);
    hide After, Next, PublishVerdict, Stamped, IsRun, Trace, Singles, Strip;
  }

  lemma OneReported(x: string)
    ensures Reported(Passes(None, x)) == {x}
  {
    var rs := Passes(None, x).outcome.results;
    assert rs[0] in rs;
  }

  lemma OtherTestsState(cfg: Config, a: string, b: string, x: string, y: string) returns (st: State)
    ensures st == After(cfg, OtherTests(a, b, x, y)) && Stamped(cfg, st) && st.currTest == Some(a) && st.skipped == []
    ensures st.lastTestNames == Some([y])
  {
    var s1 := INITIAL.(currTest := Some(a));
    var d := DigestOf(cfg, s1);
    var s2 := s1.(lastTestNames := Some([x]), validations := map[FORGE_TEST := d]);
    var s3 := s2.(validations := map[FORGE_TEST := d, FEEDBACK := d]);
    var s4 := s3.(currTest := Some(b));
    var s5 := s4.(lastTestNames := Some([y]));
    st := s5.(currTest := Some(a));
    assert DigestOf(cfg, s2) == DigestOf(cfg, st) == d;
    hide DigestOf;
    NextPut(cfg, INITIAL, a);
    NextPasses(cfg, s1, None, x);
    NextGood(cfg, s2);
    NextPut(cfg, s3, b);
    NextPasses(cfg, s4, Some("s"), y);
    NextPut(cfg, s5, a);
    hide Next;
    assert s2.validations[FEEDBACK := d] == s3.validations;
    AfterSix(cfg, PutTest(a), Passes(None, x), Feedback(true), PutTest(b), Passes(Some("s"), y), PutTest(a));
    hide After;
  }

  lemma AfterFour(cfg: Config, c1: Call, c2: Call, c3: Call, c4: Call)
    ensures After(cfg, [c1, c2, c3, c4]) == Next(cfg, Next(cfg, Next(cfg, Next(cfg, INITIAL, c1), c2), c3), c4)
  {
    hide Next;
    AfterOneMore(cfg, [], c1);
    AfterOneMore(cfg, [c1], c2);
    AfterOneMore(cfg, [c1, c2], c3);
    AfterOneMore(cfg, [c1, c2, c3], c4);
    assert [] + [c1] == [c1] && [c1] + [c2] == [c1, c2] && [c1, c2] + [c3] == [c1, c2, c3];
    assert [c1, c2, c3] + [c4] == [c1, c2, c3, c4];
  }

  lemma AfterSix(cfg: Config, c1: Call, c2: Call, c3: Call, c4: Call, c5: Call, c6: Call)
    ensures After(cfg, [c1, c2, c3, c4, c5, c6]) ==
            Next(cfg, Next(cfg, Next(cfg, Next(cfg, Next(cfg, Next(cfg, INITIAL, c1), c2), c3), c4), c5), c6)
  {
    AfterFour(cfg, c1, c2, c3, c4);
    hide Next, After;
    AfterOneMore(cfg, [c1, c2, c3, c4], c5);
    AfterOneMore(cfg, [c1, c2, c3, c4, c5], c6);
    assert [c1, c2, c3, c4] + [c5] == [c1, c2, c3, c4, c5];
    assert [c1, c2, c3, c4, c5] + [c6] == [c1, c2, c3, c4, c5, c6];
  }

  // ---- Other markings ----

  function MarkedLater(a: string, x: string, why: string): seq<Call> {
    [PutTest(a), Passes(None, x), Feedback(true), ExpectFailure(x, why)]
  }

  /** After both certifications the test that passed is marked as expected to fail. The publish is accepted, and
      the certifying run is not clean under the markings published. */
  lemma PassingTestIsMarked(cfg: Config, p: string, a: string, x: string, why: string, note: string)
    requires cfg.titles == [p] && Strip(x) == x != "" && Strip(why) != "" && why != ""
    ensures var mapping := [PropertyTestMapping(p, [x])];
            var calls := MarkedLater(a, x, why);
            var st := After(cfg, calls);
            IsRun(cfg, Trace(cfg, calls + [Publish(note, mapping)]), Singles(calls + [Publish(note, mapping)])) &&
            PublishVerdict(cfg, st, mapping).None? &&
            After(cfg, calls + [Publish(note, mapping)]).failed == Some(false) &&
            calls[1].outcome.results == [TestResult(x, "Success")] &&
            x in After(cfg, calls + [Publish(note, mapping)]).expectedFailures
  {
    var mapping := [PropertyTestMapping(p, [x])];
    var calls := MarkedLater(a, x, why);
    var st := MarkedState(cfg, a, x, why);
    Accepts(cfg, st, p, x);
    TraceIsARun(cfg, calls + [Publish(note, mapping)]);
    AfterOneMore(cfg, calls, Publish(note, mapping));
    NextPublish(cfg, st, note, mapping);
    hide After, Next, PublishVerdict, Stamped, IsRun, Trace, Singles, Strip;
  }

  lemma MarkedState(cfg: Config, a: string, x: string, why: string) returns (st: State)
    requires Strip(why) != "" && why != ""
    ensures st == After(cfg, MarkedLater(a, x, why)) && Stamped(cfg, st) && st.skipped == []
    ensures st.lastTestNames == Some([x]) && x in st.expectedFailures
  {
    var s1 := INITIAL.(currTest := Some(a));
    var d := DigestOf(cfg, s1);
    var s2 := s1.(lastTestNames := Some([x]), validations := map[FORGE_TEST := d]);
    var s3 := s2.(validations := map[FORGE_TEST := d, FEEDBACK := d]);
    st := s3.(expectedFailures := map[x := why]);
    assert DigestOf(cfg, s2) == DigestOf(cfg, st) == d;
    hide DigestOf, Strip;
    NextPut(cfg, INITIAL, a);
    NextPasses(cfg, s1, None, x);
    NextGood(cfg, s2);
    NextMark(cfg, s3, x, why);
    hide Next;
    assert s2.validations[FEEDBACK := d] == s3.validations;
    AfterFour(cfg, PutTest(a), Passes(None, x), Feedback(true), ExpectFailure(x, why));
    hide After;
  }

  // ---- Another skip ----

  function SkippedLater(t: string, a: string, b: string, c: string, d: string, x: string): seq<Call> {
    [PutTest(t), RecordSkip(a, b + c + ":" + d), Passes(None, x), Feedback(true), RecordSkip(a, b), RecordSkip(c, d)]
  }

  /** Both certifications see one skip. Afterwards two declarations turn it into two, and the publish is accepted
      with a property skipped that neither certification saw skipped. */
  lemma AnotherPropertyIsSkipped(cfg: Config, t: string, p: string, a: string, b: string, c: string, d: string,
                                 x: string, note: string)
    requires cfg.titles == [p, a, c] && p != a && p != c && Less(a, c) && Strip(x) == x != ""
    requires Strip(b) != "" && Strip(d) != "" && b != "" && d != ""
    ensures var mapping := [PropertyTestMapping(p, [x])];
            var calls := SkippedLater(t, a, b, c, d, x);
            IsRun(cfg, Trace(cfg, calls + [Publish(note, mapping)]), Singles(calls + [Publish(note, mapping)])) &&
            PublishVerdict(cfg, After(cfg, calls), mapping).None? &&
            After(cfg, calls[..4]).skipped == [Skip(a, b + c + ":" + d)] &&
            After(cfg, calls + [Publish(note, mapping)]).failed == Some(false) &&
            After(cfg, calls + [Publish(note, mapping)]).skipped == [Skip(a, b), Skip(c, d)]
  {
    var mapping := [PropertyTestMapping(p, [x])];
    var calls := SkippedLater(t, a, b, c, d, x);
    var st := SkippedState(cfg, t, a, b, c, d, x);
    TwoTitles(Skip(a, b), Skip(c, d));
    Accepts(cfg, st, p, x);
    TraceIsARun(cfg, calls + [Publish(note, mapping)]);
    AfterOneMore(cfg, calls, Publish(note, mapping));
    NextPublish(cfg, st, note, mapping);
    hide After, Next, PublishVerdict, Stamped, IsRun, Trace, Singles, Strip, Less;
  }

  lemma TwoTitles(a: Skip, b: Skip)
    ensures SkippedTitles([a, b]) == {a.title, b.title}
  {
    assert a in [a, b] && b in [a, b];
  }

  lemma SkippedState(cfg: Config, t: string, a: string, b: string, c: string, d: string, x: string) returns (st: State)
    requires a in cfg.titles && c in cfg.titles && Less(a, c)
    requires Strip(b) != "" && Strip(d) != "" && b != "" && d != ""
    ensures st == After(cfg, SkippedLater(t, a, b, c, d, x)) && Stamped(cfg, st)
    ensures st.lastTestNames == Some([x]) && st.skipped == [Skip(a, b), Skip(c, d)]
    ensures After(cfg, SkippedLater(t, a, b, c, d, x)[..4]).skipped == [Skip(a, b + c + ":" + d)]
  {
    var was := b + c + ":" + d;
    var s1 := INITIAL.(currTest := Some(t));
    var s2 := s1.(skipped := [Skip(a, was)]);
    var h := DigestOf(cfg, s2);
    var s3 := s2.(lastTestNames := Some([x]), validations := map[FORGE_TEST := h]);
    var s4 := s3.(validations := map[FORGE_TEST := h, FEEDBACK := h]);
    var s5 := s4.(skipped := Merge([Skip(a, was)], [Skip(a, b)]));
    st := s4.(skipped := [Skip(a, b), Skip(c, d)]);
    OneSkipPassesForTwo(cfg, s4, a, b, c, d);
    assert DigestOf(cfg, s3) == DigestOf(cfg, s4.(skipped := [Skip(a, was)])) == DigestOf(cfg, st) == h;
    SolidStays(was, |b + c|);
    FirstSkip(Skip(a, was));
    MergeRecords(a, b, c, d, was);
    hide DigestOf, Strip, Merge, Less;
    NextPut(cfg, INITIAL, t);
    NextSkip(cfg, s1, a, was);
    NextPasses(cfg, s2, None, x);
    NextGood(cfg, s3);
    NextSkip(cfg, s4, a, b);
    NextSkip(cfg, s5, c, d);
    hide Next;
    assert s3.validations[FEEDBACK := h] == s4.validations;
    var calls := SkippedLater(t, a, b, c, d, x);
    AfterFour(cfg, PutTest(t), RecordSkip(a, was), Passes(None, x), Feedback(true));
    AfterSix(cfg, PutTest(t), RecordSkip(a, was), Passes(None, x), Feedback(true), RecordSkip(a, b), RecordSkip(c, d));
    assert calls[..4] == [PutTest(t), RecordSkip(a, was), Passes(None, x), Feedback(true)];
    hide After;
  }

  lemma FirstSkip(s: Skip)
    requires s.reason != ""
    ensures Merge([], [s]) == [s]
  {
    assert [] + [s] == [s] && [s][..0] == [];
    assert DeclareAll([]) == [];
  }

  /** A text with a character that is not blank does not strip to nothing. */
  lemma SolidStays(s: string, i: nat)
    requires i < |s| && !IsBlank(s[i])
    ensures Strip(s) != ""
  {
    var j := LeftKeeps(s, i);
    RightKeeps(StripLeft(s), j);
  }

  lemma {:induction false} LeftKeeps(s: string, i: nat) returns (j: nat)
    requires i < |s| && !IsBlank(s[i])
    ensures j < |StripLeft(s)| && StripLeft(s)[j] == s[i]
  {
    if IsBlank(s[0]) { j := LeftKeeps(s[1..], i - 1); } else { j := i; }
  }

  lemma {:induction false} RightKeeps(s: string, i: nat)
    requires i < |s| && !IsBlank(s[i])
    ensures StripRight(s) != ""
  {
    if IsBlank(s[|s| - 1]) { RightKeeps(s[..|s| - 1], i); }
  }
}
