/** What is reported after an accepted publish, and when that is what was certified. */
module PublishedBatch {
  import opened Wrappers
  import opened Strings
  import opened Skips
  import opened PropertyTests
  import opened PublishGate
  import S = Sequences

  // ---- What one step does to the reported fields ----

  /** The last draft put by a list of calls, if any. */
  function LastPut(calls: seq<Call>): Option<string> {
    if calls == [] then None
    else if calls[|calls| - 1].PutTest? then Some(calls[|calls| - 1].source)
    else LastPut(calls[..|calls| - 1])
  }

  /** The skip declarations that one call makes; an empty reason withdraws. */
  function Declares(cfg: Config, c: Call): seq<Skip> {
    if c.RecordSkip? && c.skipTitle in cfg.titles && Strip(c.skipReason) != "" then [Skip(c.skipTitle, c.skipReason)]
    else if c.Unskip? && c.unskipTitle in cfg.titles then [Skip(c.unskipTitle, "")]
    else []
  }

  function Declared(cfg: Config, calls: seq<Call>): seq<Skip> {
    if calls == [] then [] else Declared(cfg, calls[..|calls| - 1]) + Declares(cfg, calls[|calls| - 1])
  }

  /** The last marking of each test; an empty reason unmarks. */
  function Marked(calls: seq<Call>): map<string, string> {
    if calls == [] then map[]
    else
      var c, init := calls[|calls| - 1], Marked(calls[..|calls| - 1]);
      if c.ExpectFailure? && Strip(c.why) != "" then init[c.failingTest := c.why]
      else if c.ExpectPassage? then init[c.passingTest := ""]
      else init
  }

  /** The call that decides how the step ends: the last accepted publish or surrender. */
  function Ending(cfg: Config, calls: seq<Call>, snap: State): Option<Call> {
    if calls == [] then None
    else
      var c := calls[|calls| - 1];
      if c.GiveUp? || (c.Publish? && PublishVerdict(cfg, snap, c.mapping).None?) then Some(c)
      else Ending(cfg, calls[..|calls| - 1], snap)
  }

  lemma {:induction false} FoldTest(cfg: Config, calls: seq<Call>, snap: State)
    ensures Fold(cfg, calls, snap).currTest == if LastPut(calls).Some? then LastPut(calls) else snap.currTest
  {
    if calls != [] {
      hide DigestOf, IsClean, PublishVerdict, MergeExpected, Merge, TestNames;
      FoldTest(cfg, calls[..|calls| - 1], snap);
    }
  }

  lemma MergeNothing(l: seq<Skip>)
    requires Canonical(l)
    ensures Merge(l, []) == l
  {
    S.Empty(l);
    DeclareAllMeaning(l);
    CanonicalIsLive(l);
    CanonicalUnique(Merge(l, []), l);
  }

  lemma MergeCanonical(l: seq<Skip>, r: seq<Skip>)
    ensures Canonical(Merge(l, r)) && ByTitle(Merge(l, r)) == Live(ByTitle(l) + ByTitle(r))
  {
    DeclareAllMeaning(l + r);
    ByTitleConcat(l, r);
  }

  lemma RunSkips(cfg: Config, c: Call, snap: State, st: State)
    requires Canonical(st.skipped)
    ensures Reduce(st, Run(cfg, c, snap)).skipped == Merge(st.skipped, Declares(cfg, c))
  {
    hide DigestOf, IsClean, PublishVerdict, MergeExpected, Merge, TestNames, Strip, Canonical;
    MergeNothing(st.skipped);
  }

  lemma {:induction false} FoldSkips(cfg: Config, calls: seq<Call>, snap: State)
    requires Canonical(snap.skipped)
    ensures Fold(cfg, calls, snap).skipped == Merge(snap.skipped, Declared(cfg, calls))
    ensures Canonical(Fold(cfg, calls, snap).skipped)
  {
    hide Run, Reduce, Merge, Canonical, Declares;
    MergeCanonical(snap.skipped, Declared(cfg, calls));
    if calls == [] {
      MergeNothing(snap.skipped);
    } else {
      var init, c := calls[..|calls| - 1], calls[|calls| - 1];
      FoldSkips(cfg, init, snap);
      RunSkips(cfg, c, snap, Fold(cfg, init, snap));
      MergeIsAnAction(snap.skipped, Declared(cfg, init), Declares(cfg, c));
    }
  }

  /** The step leaves the skips as they are exactly when the last declaration of each title says what the list
      says already. */
  predicate SkipsAgree(cfg: Config, calls: seq<Call>, snap: State) {
    var d, l := ByTitle(Declared(cfg, calls)), ByTitle(snap.skipped);
    forall t :: t in d ==> d[t] == if t in l then l[t] else ""
  }

  lemma SkipsUnchanged(cfg: Config, calls: seq<Call>, snap: State)
    requires Canonical(snap.skipped)
    ensures Fold(cfg, calls, snap).skipped == snap.skipped <==> SkipsAgree(cfg, calls, snap)
  {
    var d := Declared(cfg, calls);
    FoldSkips(cfg, calls, snap);
    MergeCanonical(snap.skipped, d);
    CanonicalIsLive(snap.skipped);
    LiveSame(ByTitle(snap.skipped), ByTitle(d));
    if ByTitle(Merge(snap.skipped, d)) == ByTitle(snap.skipped) {
      CanonicalUnique(Merge(snap.skipped, d), snap.skipped);
    }
    hide Merge, Canonical, ByTitle, Fold, Declared, Live;
  }

  lemma LiveSame(l: map<string, string>, d: map<string, string>)
    requires Live(l) == l
    ensures Live(l + d) == l <==> forall t :: t in d ==> d[t] == if t in l then l[t] else ""
  {
    if Live(l + d) == l {
      forall t | t in d ensures d[t] == if t in l then l[t] else "" {
        assert t in l + d && (l + d)[t] == d[t];
      }
    } else {
      assert (forall t :: t in d ==> d[t] == if t in l then l[t] else "") ==> forall t :: t in Live(l + d) <==> t in l;
    }
  }

  // ---- Markings ----

  predicate LiveMarks(m: map<string, string>) {
    forall t :: t in m ==> m[t] != ""
  }

  lemma {:induction false} FoldMarks(cfg: Config, calls: seq<Call>, snap: State)
    ensures Fold(cfg, calls, snap).expectedFailures == MergeExpected(snap.expectedFailures, Marked(calls))
  {
    hide DigestOf, IsClean, PublishVerdict, Merge, TestNames, Strip;
    if calls != [] {
      var init, c := calls[..|calls| - 1], calls[|calls| - 1];
      FoldMarks(cfg, init, snap);
      RunMarks(cfg, c, snap);
      MergeOneMore(snap.expectedFailures, Marked(init), Run(cfg, c, snap).expectedFailures);
      hide Run, MergeExpected;
    }
  }

  lemma RunMarks(cfg: Config, c: Call, snap: State)
    ensures Run(cfg, c, snap).expectedFailures ==
            if c.ExpectFailure? && Strip(c.why) != "" then map[c.failingTest := c.why]
            else if c.ExpectPassage? then map[c.passingTest := ""] else map[]
  {
    hide DigestOf, IsClean, PublishVerdict, TestNames, Strip;
  }

  lemma MergeOneMore(l: map<string, string>, r: map<string, string>, u: map<string, string>)
    ensures MergeExpected(MergeExpected(l, r), u) == MergeExpected(l, r + u)
    ensures r + map[] == r
    ensures forall k, v {:trigger r[k := v]} :: r + map[k := v] == r[k := v]
  {}

  predicate MarksAgree(calls: seq<Call>, snap: State) {
    var m, l := Marked(calls), snap.expectedFailures;
    forall t :: t in m ==> m[t] == if t in l then l[t] else ""
  }

  lemma MarksUnchanged(cfg: Config, calls: seq<Call>, snap: State)
    requires LiveMarks(snap.expectedFailures)
    ensures Fold(cfg, calls, snap).expectedFailures == snap.expectedFailures <==> MarksAgree(calls, snap)
    ensures LiveMarks(Fold(cfg, calls, snap).expectedFailures)
  {
    FoldMarks(cfg, calls, snap);
    var l, m := snap.expectedFailures, Marked(calls);
    hide Fold, Marked;
    if MergeExpected(l, m) == l {
      forall t | t in m ensures m[t] == if t in l then l[t] else "" {
        assert t in MergeExpected(l, m) <==> m[t] != "";
      }
    }
  }

  // ---- How a step ends ----

  lemma {:induction false} FoldEnd(cfg: Config, calls: seq<Call>, snap: State)
    ensures var st := Fold(cfg, calls, snap);
            match Ending(cfg, calls, snap)
            case None => st.failed == snap.failed && st.result == snap.result && st.propertyTests == snap.propertyTests
            case Some(c) =>
              c in calls &&
              if c.Publish? then
                PublishVerdict(cfg, snap, c.mapping).None? &&
                st.failed == Some(false) && st.result == Some(c.commentary) && st.propertyTests == c.mapping
              else c.GiveUp? && st.failed == Some(true) && st.result == Some(c.giveUpReason)
  {
    hide Run, Reduce, PublishVerdict;
    if calls != [] {
      var init, c := calls[..|calls| - 1], calls[|calls| - 1];
      FoldEnd(cfg, init, snap);
      RunEnd(cfg, c, snap, Fold(cfg, init, snap));
      assert calls == init + [c];
    }
  }

  lemma RunEnd(cfg: Config, c: Call, snap: State, st: State)
    ensures var now := Reduce(st, Run(cfg, c, snap));
            if c.Publish? && PublishVerdict(cfg, snap, c.mapping).None? then
              now.failed == Some(false) && now.result == Some(c.commentary) && now.propertyTests == c.mapping
            else if c.GiveUp? then
              now.failed == Some(true) && now.result == Some(c.giveUpReason) && now.propertyTests == st.propertyTests
            else now.failed == st.failed && now.result == st.result && now.propertyTests == st.propertyTests
  {
    hide DigestOf, IsClean, PublishVerdict, MergeExpected, Merge, TestNames, Strip;
  }

  // ---- Reports of a run ----

  /** What the caller reads from the final state. */
  datatype Batch = Batch(
    source: Option<string>,
    skipped: seq<Skip>,
    propertyTests: seq<PropertyTestMapping>,
    expectedFailures: map<string, string>,
    ranTests: Option<seq<string>>)

  function BatchOf(st: State): Batch {
    Batch(st.currTest, st.skipped, st.propertyTests, st.expectedFailures, st.lastTestNames)
  }

  /** The batch the publish tool accepted: the snapshot it read, with the mapping it was given. */
  function Accepted(snap: State, mapping: seq<PropertyTestMapping>): Batch {
    BatchOf(snap).(propertyTests := mapping)
  }

  lemma {:induction false} RunsKeepListsClean(cfg: Config, states: seq<State>, steps: seq<seq<Call>>, k: nat)
    requires IsRun(cfg, states, steps) && k <= |steps|
    ensures Canonical(states[k].skipped) && LiveMarks(states[k].expectedFailures)
  {
    if k > 0 {
      RunsKeepListsClean(cfg, states, steps, k - 1);
      FoldSkips(cfg, steps[k - 1], states[k - 1]);
      MarksUnchanged(cfg, steps[k - 1], states[k - 1]);
      hide Fold, Canonical, LiveMarks;
    } else {
      NothingDeclared();
    }
  }

  /** Skips are of the batch, for a reason that is not blank. */
  predicate SkipsFit(cfg: Config, ss: seq<Skip>) {
    forall i :: 0 <= i < |ss| ==> ss[i].title in cfg.titles && Strip(ss[i].reason) != ""
  }

  /** The same, or a withdrawal. */
  predicate DeclarationsFit(cfg: Config, ss: seq<Skip>) {
    forall i :: 0 <= i < |ss| ==> ss[i].title in cfg.titles && (ss[i].reason == "" || Strip(ss[i].reason) != "")
  }

  lemma {:induction false} ByTitleFits(cfg: Config, ss: seq<Skip>)
    requires DeclarationsFit(cfg, ss)
    ensures forall t :: t in ByTitle(ss) ==> t in cfg.titles && (ByTitle(ss)[t] == "" || Strip(ByTitle(ss)[t]) != "")
  {
    hide Strip;
    if ss != [] {
      assert forall i :: 0 <= i < |ss| - 1 ==> ss[..|ss| - 1][i] == ss[i];
      ByTitleFits(cfg, ss[..|ss| - 1]);
    }
  }

  lemma {:induction false} DeclaredFits(cfg: Config, calls: seq<Call>)
    ensures DeclarationsFit(cfg, Declared(cfg, calls))
  {
    hide Strip;
    if calls != [] { DeclaredFits(cfg, calls[..|calls| - 1]); }
  }

  lemma MergedFits(cfg: Config, l: seq<Skip>, r: seq<Skip>)
    requires SkipsFit(cfg, l) && DeclarationsFit(cfg, r)
    ensures SkipsFit(cfg, Merge(l, r))
  {
    assert DeclarationsFit(cfg, l + r);
    DeclareAllMeaning(l + r);
    ByTitleFits(cfg, l + r);
    hide Strip, DeclareAll;
    var m := Merge(l, r);
    forall i | 0 <= i < |m| ensures m[i].title in cfg.titles && Strip(m[i].reason) != "" {
      ByTitleAt(m, i);
    }
  }

  /** Over every run: only properties of the batch are skipped, and no skip and no marking has a blank reason. */
  lemma {:induction false} SkipsAndMarksFit(cfg: Config, states: seq<State>, steps: seq<seq<Call>>, k: nat)
    requires IsRun(cfg, states, steps) && k <= |steps|
    ensures SkipsFit(cfg, states[k].skipped)
    ensures forall t :: t in states[k].expectedFailures ==> Strip(states[k].expectedFailures[t]) != ""
  {
    hide Strip, Fold;
    if k > 0 {
      SkipsAndMarksFit(cfg, states, steps, k - 1);
      RunsKeepListsClean(cfg, states, steps, k - 1);
      FoldSkips(cfg, steps[k - 1], states[k - 1]);
      DeclaredFits(cfg, steps[k - 1]);
      MergedFits(cfg, states[k - 1].skipped, Declared(cfg, steps[k - 1]));
      FoldMarks(cfg, steps[k - 1], states[k - 1]);
      MarkedFits(steps[k - 1]);
      hide Merge, SkipsFit, Marked, Declared;
    }
  }

  lemma {:induction false} MarkedFits(calls: seq<Call>)
    ensures forall t :: t in Marked(calls) ==> Marked(calls)[t] == "" || Strip(Marked(calls)[t]) != ""
  {
    hide Strip;
    if calls != [] { MarkedFits(calls[..|calls| - 1]); }
  }

  /** A report of success comes from a publish that was accepted in an earlier step, after which nothing else
      ended the work. */
  lemma {:induction false} FindPublish(cfg: Config, states: seq<State>, steps: seq<seq<Call>>, k: nat)
    returns (j: nat, publish: Call)
    requires IsRun(cfg, states, steps) && k <= |steps| && states[k].failed == Some(false)
    ensures j < k && publish in steps[j] && publish.Publish? && Ending(cfg, steps[j], states[j]) == Some(publish)
    ensures PublishVerdict(cfg, states[j], publish.mapping).None?
    ensures states[j + 1].result == Some(publish.commentary) && states[k].result == Some(publish.commentary)
    ensures states[k].propertyTests == publish.mapping
    ensures forall i :: j < i < k ==> Ending(cfg, steps[i], states[i]).None?
  {
    hide Fold, Ending, PublishVerdict;
    FoldEnd(cfg, steps[k - 1], states[k - 1]);
    var end := Ending(cfg, steps[k - 1], states[k - 1]);
    if end.Some? {
      j, publish := k - 1, end.value;
    } else {
      j, publish := FindPublish(cfg, states, steps, k - 1);
    }
  }

  /** The workflow stops at the first result. When a run ends with a report of success, its last step held a
      publish that was accepted; an earlier clean unseeded forge run and an earlier accepting judge saw the
      digest of the snapshot it read. The whole report is the accepted batch exactly when the other calls of that
      step changed nothing of it; the tests claimed are those of the certifying run exactly when the forge outputs
      since left the same names recorded; and that run is clean under the reported markings exactly when these
      treat its results as the markings it ran under. */
  lemma ReportedBatchIsCertified(cfg: Config, states: seq<State>, steps: seq<seq<Call>>, k: nat)
    returns (publish: Call, forgeStep: nat, forge: Call, judgeStep: nat, judge: Call)
    requires IsRun(cfg, states, steps) && 0 < k <= |steps|
    requires states[k - 1].result.None? && states[k].failed == Some(false)
    ensures publish in steps[k - 1] && publish.Publish? && PublishVerdict(cfg, states[k - 1], publish.mapping).None?
    ensures forgeStep < k - 1 && forge in steps[forgeStep] && forge.ForgeTest? && forge.seed.None?
    ensures forge.outcome.Ran? && forge.outcome.returncode == 0
    ensures forall r :: r in forge.outcome.results && r.status == "Failure" ==> r.name in states[forgeStep].expectedFailures
    ensures forall r :: r in forge.outcome.results && r.status == "Success" ==> r.name !in states[forgeStep].expectedFailures
    ensures judgeStep < k - 1 && judge in steps[judgeStep] && judge.Feedback? && judge.good
    ensures states[forgeStep].currTest.Some? && states[judgeStep].currTest.Some?
    ensures DigestOf(cfg, states[forgeStep]) == DigestOf(cfg, states[judgeStep]) == DigestOf(cfg, states[k - 1])
    ensures var calls, snap := steps[k - 1], states[k - 1];
            BatchOf(states[k]) == Accepted(snap, publish.mapping) <==>
            (LastPut(calls).None? || LastPut(calls) == snap.currTest) && SkipsAgree(cfg, calls, snap) &&
            MarksAgree(calls, snap) && (NamesIn(calls, snap).None? || NamesIn(calls, snap) == snap.lastTestNames)
    ensures var names := NamesFrom(states, steps, forgeStep, k - 1);
            names.Some? && (ClaimedTests(publish.mapping) == Reported(forge) <==> Elements(names.value) == Reported(forge))
    ensures (forall r :: r in forge.outcome.results && r.status == "Failure" ==> r.name in states[k].expectedFailures) &&
            (forall r :: r in forge.outcome.results && r.status == "Success" ==> r.name !in states[k].expectedFailures)
            <==>
            SameOnResults(forge.outcome, states[forgeStep].expectedFailures, states[k].expectedFailures)
  {
    hide DigestOf, SameOnResults, NamesFrom, Fold, PublishVerdict, Ending;
    var calls, snap := steps[k - 1], states[k - 1];
    FoldEnd(cfg, calls, snap);
    if Ending(cfg, calls, snap).None? {
      FailedHasResult(cfg, states, steps, k - 1);
    }
    publish := Ending(cfg, calls, snap).value;
    forgeStep, forge, judgeStep, judge := AcceptedPublishIsCertified(cfg, states, steps, k - 1, publish.mapping);
    RunsKeepListsClean(cfg, states, steps, k - 1);
    FoldTest(cfg, calls, snap);
    FoldFrame(cfg, calls, snap);
    SkipsUnchanged(cfg, calls, snap);
    MarksUnchanged(cfg, calls, snap);
    hide SkipsAgree, MarksAgree, LastPut, NamesIn, Canonical, LiveMarks, IsRun, ValidMapping, LatestNames;
  }

  lemma {:induction false} FailedHasResult(cfg: Config, states: seq<State>, steps: seq<seq<Call>>, k: nat)
    requires IsRun(cfg, states, steps) && k <= |steps|
    ensures states[k].failed.Some? <==> states[k].result.Some?
  {
    if k > 0 {
      hide Fold, Ending, PublishVerdict;
      FailedHasResult(cfg, states, steps, k - 1);
      FoldEnd(cfg, steps[k - 1], states[k - 1]);
    }
  }

  /** The source and the skips alone: with both unchanged, what is reported has the certified digest. */
  lemma PublishedSourceIsTheCertifiedOne(cfg: Config, calls: seq<Call>, snap: State, mapping: seq<PropertyTestMapping>)
    requires PublishVerdict(cfg, snap, mapping).None? && Canonical(snap.skipped)
    ensures Fold(cfg, calls, snap).currTest == snap.currTest <==> LastPut(calls).None? || LastPut(calls) == snap.currTest
    ensures Fold(cfg, calls, snap).skipped == snap.skipped <==> SkipsAgree(cfg, calls, snap)
    ensures (LastPut(calls).None? || LastPut(calls) == snap.currTest) && SkipsAgree(cfg, calls, snap) ==>
            DigestOf(cfg, Fold(cfg, calls, snap)) == DigestOf(cfg, snap)
  {
    FoldTest(cfg, calls, snap);
    SkipsUnchanged(cfg, calls, snap);
    hide Fold, SkipsAgree;
  }

  /** For instance, a draft put in the same step as an accepted publish is what gets reported, unverified. */
  lemma DraftPutBesidePublish(cfg: Config, snap: State, note: string, mapping: seq<PropertyTestMapping>, draft: string)
    requires PublishVerdict(cfg, snap, mapping).None?
    ensures var st := Fold(cfg, [Publish(note, mapping), PutTest(draft)], snap);
            st.failed == Some(false) && st.result == Some(note) && st.currTest == Some(draft)
  {
    var calls := [Publish(note, mapping), PutTest(draft)];
    FoldTest(cfg, calls, snap);
    FoldEnd(cfg, calls, snap);
    assert calls[..1] == [Publish(note, mapping)];
    assert Ending(cfg, calls, snap) == Some(Publish(note, mapping));
    hide Fold, PublishVerdict;
  }
}
