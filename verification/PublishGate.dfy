/** The foundry authoring workflow as a transition system, and what its publish gate guarantees.

    One step is a list of tool calls that all read the same snapshot; their updates are then folded into the
    state by the reducers, in order. The digest function is a parameter of the configuration: nothing below
    assumes it free of collisions unless a lemma says so. */
module PublishGate {
  import opened Wrappers
  import opened Strings
  import opened Skips
  import opened PropertyTests

  const FORGE_TEST := "forge_test"
  const FEEDBACK := "feedback"

  datatype Config = Config(titles: seq<string>, digest: string -> string)

  datatype TestResult = TestResult(name: string, status: string)

  /** What came back from the subprocess: nothing usable before a result was read (no project, no binary,
      timeout), output that is not JSON, or test results. */
  datatype ForgeOutcome = NoResult | NotJson | Ran(returncode: int, results: seq<TestResult>)

  /** A tool call with everything the outside world contributes to it. */
  datatype Call =
    | PutTest(source: string)
    | RecordSkip(skipTitle: string, skipReason: string)
    | Unskip(unskipTitle: string)
    | ExpectFailure(failingTest: string, why: string)
    | ExpectPassage(passingTest: string)
    | ForgeTest(seed: Option<string>, outcome: ForgeOutcome)
    | Feedback(good: bool)
    | Publish(commentary: string, mapping: seq<PropertyTestMapping>)
    | GiveUp(giveUpReason: string)
    | ReadOnly

  datatype State = State(
    currTest: Option<string>,
    skipped: seq<Skip>,
    propertyTests: seq<PropertyTestMapping>,
    validations: map<string, string>,
    required: seq<string>,
    expectedFailures: map<string, string>,
    lastTestNames: Option<seq<string>>,
    failed: Option<bool>,
    result: Option<string>)

  /** A partial state returned by a tool: only the fields it sets. */
  datatype Update = Update(
    currTest: Option<string>,
    skipped: Option<seq<Skip>>,
    propertyTests: Option<seq<PropertyTestMapping>>,
    validations: map<string, string>,
    expectedFailures: map<string, string>,
    lastTestNames: Option<seq<string>>,
    failed: Option<bool>,
    result: Option<string>)

  const NO_UPDATE := Update(None, None, None, map[], map[], None, None, None)

  const INITIAL := State(None, [], [], map[], [FORGE_TEST, FEEDBACK], map[], None, None, None)

  // ---- The digest ----

  function SkipText(ss: seq<Skip>): string {
    if ss == [] then "" else ss[0].title + ":" + ss[0].reason + SkipText(ss[1..])
  }

  /** The bytes that are hashed. */
  function Surface(test: string, skipped: seq<Skip>): string {
    test + SkipText(skipped)
  }

  function DigestOf(cfg: Config, st: State): string {
    cfg.digest(Surface(if st.currTest.None? then "" else st.currTest.value, st.skipped))
  }

  // ---- Tools ----

  function TestNames(rs: seq<TestResult>): seq<string> {
    seq(|rs|, i requires 0 <= i < |rs| => rs[i].name)
  }

  /** A clean run: exit code zero, no unexpected failure, no unexpected pass. */
  predicate IsClean(o: ForgeOutcome, expectedFailures: map<string, string>) {
    o.Ran? && o.returncode == 0 &&
    forall r :: r in o.results ==>
      !(r.status == "Failure" && r.name !in expectedFailures) && !(r.status == "Success" && r.name in expectedFailures)
  }

  datatype Rejection = NoTestYet | NotSatisfiedOrStale(key: string) | NoRunRecorded | BadMapping

  /** The first required key whose stamp does not match. */
  function FirstStale(required: seq<string>, validations: map<string, string>, digest: string): Option<string> {
    if required == [] then None
    else if required[0] !in validations || validations[required[0]] != digest then Some(required[0])
    else FirstStale(required[1..], validations, digest)
  }

  /** `check_foundry_completion`. */
  function CheckCompletion(cfg: Config, st: State): Option<Rejection> {
    if st.currTest.None? then Some(NoTestYet)
    else
      var stale := FirstStale(st.required, st.validations, DigestOf(cfg, st));
      if stale.Some? then Some(NotSatisfiedOrStale(stale.value)) else None
  }

  /** The publish tool's decision; None is acceptance. */
  function PublishVerdict(cfg: Config, st: State, mapping: seq<PropertyTestMapping>): Option<Rejection> {
    if CheckCompletion(cfg, st).Some? then CheckCompletion(cfg, st)
    else if st.lastTestNames.None? then Some(NoRunRecorded)
    else if !ValidMapping(mapping, st.skipped, cfg.titles, st.lastTestNames.value) then Some(BadMapping)
    else None
  }

  /** One tool call against the snapshot it was given. */
  function Run(cfg: Config, c: Call, snap: State): Update {
    match c
    case PutTest(source) => NO_UPDATE.(currTest := Some(source))
    case RecordSkip(title, reason) =>
      if title !in cfg.titles || Strip(reason) == "" then NO_UPDATE
      else NO_UPDATE.(skipped := Some([Skip(title, reason)]))
    case Unskip(title) =>
      if title !in cfg.titles then NO_UPDATE else NO_UPDATE.(skipped := Some([Skip(title, "")]))
    case ExpectFailure(test, why) =>
      if Strip(why) == "" then NO_UPDATE else NO_UPDATE.(expectedFailures := map[test := why])
    case ExpectPassage(test) => NO_UPDATE.(expectedFailures := map[test := ""])
    case ForgeTest(seed, outcome) =>
      if snap.currTest.None? || outcome.NoResult? then NO_UPDATE
      else if outcome.NotJson? then NO_UPDATE.(lastTestNames := Some([]))
      else if IsClean(outcome, snap.expectedFailures) && seed.None? then
        NO_UPDATE.(validations := map[FORGE_TEST := DigestOf(cfg, snap)], lastTestNames := Some(TestNames(outcome.results)))
      else NO_UPDATE.(lastTestNames := Some(TestNames(outcome.results)))
    case Feedback(good) =>
      if snap.currTest.None? || !good then NO_UPDATE
      else NO_UPDATE.(validations := map[FEEDBACK := DigestOf(cfg, snap)])
    case Publish(commentary, mapping) =>
      if PublishVerdict(cfg, snap, mapping).Some? then NO_UPDATE
      else NO_UPDATE.(result := Some(commentary), propertyTests := Some(mapping), failed := Some(false))
    case GiveUp(reason) => NO_UPDATE.(failed := Some(true), result := Some(reason))
    case ReadOnly => NO_UPDATE
  }

  // ---- Reducers ----

  /** `_merge_expected_failures`: an empty reason removes the marking. */
  function MergeExpected(l: map<string, string>, r: map<string, string>): map<string, string> {
    map t | t in l.Keys + r.Keys && (t in r ==> r[t] != "") :: if t in r then r[t] else l[t]
  }

  lemma MergeOne(l: map<string, string>, r: map<string, string>, k: string, v: string)
    ensures MergeExpected(l, r[k := v]) ==
            if v == "" then map t | t in MergeExpected(l, r) && t != k :: MergeExpected(l, r)[t]
            else MergeExpected(l, r)[k := v]
  {}

  /** The reducer as it is written: copy, then pop or assign entry by entry. */
  method MergeExpectedFailures(left: map<string, string>, right: map<string, string>) returns (r: map<string, string>)
    ensures r == MergeExpected(left, right)
  {
    r := left;
    var todo := right.Keys;
    while todo != {}
      invariant todo <= right.Keys
      invariant r == MergeExpected(left, map k | k in right && k !in todo :: right[k])
      decreases todo
    {
      var k :| k in todo;
      ghost var done := map k | k in right && k !in todo :: right[k];
      todo := todo - {k};
      assert (map k | k in right && k !in todo :: right[k]) == done[k := right[k]];
      MergeOne(left, done, k, right[k]);
      hide MergeExpected;
      if right[k] == "" {
        r := map t | t in r && t != k :: r[t];
      } else {
        r := r[k := right[k]];
      }
    }
    assert (map k | k in right && k !in todo :: right[k]) == right;
  }

  function Choose<T>(new_: Option<T>, old_: T): T {
    if new_.Some? then new_.value else old_
  }

  function Reduce(st: State, u: Update): State {
    State(
      if u.currTest.Some? then u.currTest else st.currTest,
      if u.skipped.Some? then Merge(st.skipped, u.skipped.value) else st.skipped,
      Choose(u.propertyTests, st.propertyTests),
      st.validations + u.validations,
      st.required,
      MergeExpected(st.expectedFailures, u.expectedFailures),
      if u.lastTestNames.Some? then u.lastTestNames else st.lastTestNames,
      if u.failed.Some? then u.failed else st.failed,
      if u.result.Some? then u.result else st.result)
  }

  /** The calls read `snap`; their updates reach the state one after the other. */
  function Fold(cfg: Config, calls: seq<Call>, snap: State): State {
    if calls == [] then snap
    else Reduce(Fold(cfg, calls[..|calls| - 1], snap), Run(cfg, calls[|calls| - 1], snap))
  }

  // ---- Runs ----

  predicate IsRun(cfg: Config, states: seq<State>, steps: seq<seq<Call>>) {
    |states| == |steps| + 1 && states[0] == INITIAL &&
    forall i {:trigger steps[i]} :: 0 <= i < |steps| ==> states[i + 1] == Fold(cfg, steps[i], states[i])
  }

  /** Call c, reading snap, is a certification for key: a clean unseeded forge run, resp. an accepting judge. */
  predicate Certifies(key: string, c: Call, snap: State) {
    snap.currTest.Some? &&
    ((key == FORGE_TEST && c.ForgeTest? && c.seed.None? && IsClean(c.outcome, snap.expectedFailures)) ||
     (key == FEEDBACK && c.Feedback? && c.good))
  }

  predicate StepCertifies(key: string, calls: seq<Call>, snap: State) {
    exists c :: c in calls && Certifies(key, c, snap)
  }

  /** The digest seen by the latest certification for key among the first k steps. */
  function LatestCertified(cfg: Config, states: seq<State>, steps: seq<seq<Call>>, k: nat, key: string): Option<string>
    requires k <= |steps| && |states| == |steps| + 1
  {
    if k == 0 then None
    else if StepCertifies(key, steps[k - 1], states[k - 1]) then Some(DigestOf(cfg, states[k - 1]))
    else LatestCertified(cfg, states, steps, k - 1, key)
  }

  /** Test names from the latest forge call that got output, in one step's calls. */
  function NamesIn(calls: seq<Call>, snap: State): Option<seq<string>> {
    if calls == [] || snap.currTest.None? then None
    else
      var c := calls[|calls| - 1];
      if c.ForgeTest? && c.outcome.NotJson? then Some([])
      else if c.ForgeTest? && c.outcome.Ran? then Some(TestNames(c.outcome.results))
      else NamesIn(calls[..|calls| - 1], snap)
  }

  function LatestNames(states: seq<State>, steps: seq<seq<Call>>, k: nat): Option<seq<string>>
    requires k <= |steps| && |states| == |steps| + 1
  {
    if k == 0 then None
    else if NamesIn(steps[k - 1], states[k - 1]).Some? then NamesIn(steps[k - 1], states[k - 1])
    else LatestNames(states, steps, k - 1)
  }

  // ---- What one step does ----

  /** A tool call stamps a key exactly when it certifies it, with the digest of what it read. */
  lemma RunStamps(cfg: Config, c: Call, snap: State, key: string)
    requires key == FORGE_TEST || key == FEEDBACK
    ensures var u := Run(cfg, c, snap).validations;
            (key in u <==> Certifies(key, c, snap)) && (key in u ==> u[key] == DigestOf(cfg, snap))
  {
    hide DigestOf, PublishVerdict;
  }

  lemma {:induction false} FoldStamps(cfg: Config, calls: seq<Call>, snap: State, key: string)
    requires key == FORGE_TEST || key == FEEDBACK
    ensures var st := Fold(cfg, calls, snap);
            if StepCertifies(key, calls, snap) then key in st.validations && st.validations[key] == DigestOf(cfg, snap)
            else (key in st.validations <==> key in snap.validations) &&
                 (key in st.validations ==> st.validations[key] == snap.validations[key])
  {
    hide DigestOf, Run, Certifies, MergeExpected, Merge;
    if calls != [] {
      var init, c := calls[..|calls| - 1], calls[|calls| - 1];
      FoldStamps(cfg, init, snap, key);
      RunStamps(cfg, c, snap, key);
      assert calls == init + [c];
      assert StepCertifies(key, calls, snap) <==> StepCertifies(key, init, snap) || Certifies(key, c, snap);
    }
  }

  lemma {:induction false} FoldFrame(cfg: Config, calls: seq<Call>, snap: State)
    ensures var st := Fold(cfg, calls, snap);
            st.required == snap.required &&
            st.lastTestNames == (if NamesIn(calls, snap).Some? then NamesIn(calls, snap) else snap.lastTestNames)
  {
    hide DigestOf, IsClean, PublishVerdict, MergeExpected, Merge;
    if calls != [] {
      FoldFrame(cfg, calls[..|calls| - 1], snap);
    }
  }

  // ---- Invariants of every run ----

  lemma {:induction false} RunInvariant(cfg: Config, states: seq<State>, steps: seq<seq<Call>>, k: nat, key: string)
    requires IsRun(cfg, states, steps) && k <= |steps| && (key == FORGE_TEST || key == FEEDBACK)
    ensures states[k].required == [FORGE_TEST, FEEDBACK]
    ensures (key in states[k].validations <==> LatestCertified(cfg, states, steps, k, key).Some?)
    ensures key in states[k].validations ==> LatestCertified(cfg, states, steps, k, key) == Some(states[k].validations[key])
    ensures states[k].lastTestNames == LatestNames(states, steps, k)
  {
    hide Fold, StepCertifies, NamesIn, DigestOf;
    if k > 0 {
      RunInvariant(cfg, states, steps, k - 1, key);
      var calls := steps[k - 1];
      FoldStamps(cfg, calls, states[k - 1], key);
      FoldFrame(cfg, calls, states[k - 1]);
    }
  }

  lemma {:induction false} FirstStaleNone(required: seq<string>, validations: map<string, string>, digest: string)
    ensures FirstStale(required, validations, digest).None? <==>
            forall key :: key in required ==> key in validations && validations[key] == digest
  {
    if required != [] {
      FirstStaleNone(required[1..], validations, digest);
      assert required == [required[0]] + required[1..];
    }
  }

  // ---- Main results ----

  /** In every reachable state the gate is open exactly when there is a test and, for both required keys, the
      latest certification saw the current digest. Seeded or unclean forge runs and rejected drafts play no
      part, and an edit after the certification closes the gate unless it restores the digest. */
  lemma GateOpenExactlyWhenCertified(cfg: Config, states: seq<State>, steps: seq<seq<Call>>, k: nat)
    requires IsRun(cfg, states, steps) && k <= |steps|
    ensures CheckCompletion(cfg, states[k]).None? <==>
            states[k].currTest.Some? &&
            LatestCertified(cfg, states, steps, k, FORGE_TEST) == Some(DigestOf(cfg, states[k])) &&
            LatestCertified(cfg, states, steps, k, FEEDBACK) == Some(DigestOf(cfg, states[k]))
  {
    RunInvariant(cfg, states, steps, k, FORGE_TEST);
    RunInvariant(cfg, states, steps, k, FEEDBACK);
    hide DigestOf, LatestCertified, LatestNames, IsRun;
    var st := states[k];
    FirstStaleNone(st.required, st.validations, DigestOf(cfg, st));
    assert FORGE_TEST in st.required && FEEDBACK in st.required;
  }

  /** The certifying call itself: an earlier step, reading a state with a test and the same digest. */
  lemma {:induction false} FindCertification(cfg: Config, states: seq<State>, steps: seq<seq<Call>>, k: nat, key: string)
    returns (j: nat, c: Call)
    requires |states| == |steps| + 1 && k <= |steps|
    requires LatestCertified(cfg, states, steps, k, key).Some?
    ensures j < k && c in steps[j] && Certifies(key, c, states[j])
    ensures LatestCertified(cfg, states, steps, k, key) == Some(DigestOf(cfg, states[j]))
  {
    if StepCertifies(key, steps[k - 1], states[k - 1]) {
      j := k - 1;
      c :| c in steps[j] && Certifies(key, c, states[j]);
    } else {
      j, c := FindCertification(cfg, states, steps, k - 1, key);
    }
  }

  /** Test names from the latest forge output among the steps from j on. */
  function NamesFrom(states: seq<State>, steps: seq<seq<Call>>, j: nat, k: nat): Option<seq<string>>
    requires j <= k <= |steps| && |states| == |steps| + 1
  {
    if j == k then None
    else if NamesIn(steps[k - 1], states[k - 1]).Some? then NamesIn(steps[k - 1], states[k - 1])
    else NamesFrom(states, steps, j, k - 1)
  }

  lemma {:induction false} LatestIsSince(states: seq<State>, steps: seq<seq<Call>>, j: nat, k: nat)
    requires j < k <= |steps| && |states| == |steps| + 1 && NamesIn(steps[j], states[j]).Some?
    ensures NamesFrom(states, steps, j, k).Some? && NamesFrom(states, steps, j, k) == LatestNames(states, steps, k)
  {
    hide NamesIn;
    if k > j + 1 { LatestIsSince(states, steps, j, k - 1); }
  }

  /** The names a forge run reported. */
  function Reported(forge: Call): set<string>
    requires forge.ForgeTest? && forge.outcome.Ran?
  {
    set r | r in forge.outcome.results :: r.name
  }

  lemma ReportedAreItsNames(forge: Call)
    requires forge.ForgeTest? && forge.outcome.Ran?
    ensures Elements(TestNames(forge.outcome.results)) == Reported(forge)
  {
    var rs := forge.outcome.results;
    forall i | 0 <= i < |rs| ensures rs[i].name in Elements(TestNames(rs)) {
      assert TestNames(rs)[i] == rs[i].name;
    }
  }

  /** Two markings treat every test that passed or failed alike. */
  predicate SameOnResults(o: ForgeOutcome, a: map<string, string>, b: map<string, string>)
    requires o.Ran?
  {
    forall r :: r in o.results && (r.status == "Failure" || r.status == "Success") ==> (r.name in a <==> r.name in b)
  }

  /** Which calls stamp. The forge key: exactly an unseeded run of a test that is there, with exit code zero, in
      which every failing test is marked as expected to fail and no passing test is. The feedback key: exactly an
      accepting judge of a test that is there. */
  lemma StampedExactly(cfg: Config, c: Call, snap: State)
    ensures FORGE_TEST in Run(cfg, c, snap).validations <==>
            c.ForgeTest? && c.seed.None? && snap.currTest.Some? && c.outcome.Ran? && c.outcome.returncode == 0 &&
            (forall r :: r in c.outcome.results && r.status == "Failure" ==> r.name in snap.expectedFailures) &&
            (forall r :: r in c.outcome.results && r.status == "Success" ==> r.name !in snap.expectedFailures)
    ensures FEEDBACK in Run(cfg, c, snap).validations <==> c.Feedback? && c.good && snap.currTest.Some?
  {
    RunStamps(cfg, c, snap, FORGE_TEST);
    RunStamps(cfg, c, snap, FEEDBACK);
    hide Run;
  }

  /** Which calls record test names: exactly forge runs of a test that is there and that got anywhere, seeded or not;
      the names are those of the results in order, none when the output could not be read. */
  lemma NamesRecordedExactly(cfg: Config, c: Call, snap: State)
    ensures var names := Run(cfg, c, snap).lastTestNames;
            (names.Some? <==> c.ForgeTest? && snap.currTest.Some? && (c.outcome.Ran? || c.outcome.NotJson?)) &&
            (names.Some? && c.outcome.NotJson? ==> names.value == []) &&
            (names.Some? && c.outcome.Ran? ==>
               |names.value| == |c.outcome.results| &&
               forall i :: 0 <= i < |names.value| ==> names.value[i] == c.outcome.results[i].name)
  {
    hide DigestOf, PublishVerdict, IsClean;
  }

  /** A run that is clean under some markings is clean under others exactly when both treat all its results alike. */
  lemma CleanUnderOtherMarkings(rs: seq<TestResult>, code: int, a: map<string, string>, b: map<string, string>)
    requires forall r :: r in rs && r.status == "Failure" ==> r.name in a
    requires forall r :: r in rs && r.status == "Success" ==> r.name !in a
    ensures (forall r :: r in rs && r.status == "Failure" ==> r.name in b) &&
            (forall r :: r in rs && r.status == "Success" ==> r.name !in b)
            <==> SameOnResults(Ran(code, rs), a, b)
  {}

  /** Safety of publishing: when a run accepts a publish, an earlier clean unseeded forge run and an earlier
      accepting judge each saw the digest of the snapshot being published, and the mapping is valid for the names
      of the most recent forge run. The tests claimed are those of the certifying run exactly when the outputs from
      its step on leave the same names recorded; the certifying run is clean under the present markings exactly
      when they treat its results as the markings it ran under. */
  lemma AcceptedPublishIsCertified(cfg: Config, states: seq<State>, steps: seq<seq<Call>>, k: nat,
                                   mapping: seq<PropertyTestMapping>)
    returns (forgeStep: nat, forge: Call, judgeStep: nat, judge: Call)
    requires IsRun(cfg, states, steps) && k <= |steps| && PublishVerdict(cfg, states[k], mapping).None?
    ensures forgeStep < k && forge in steps[forgeStep] && forge.ForgeTest? && forge.seed.None?
    ensures forge.outcome.Ran? && forge.outcome.returncode == 0
    ensures forall r :: r in forge.outcome.results && r.status == "Failure" ==> r.name in states[forgeStep].expectedFailures
    ensures forall r :: r in forge.outcome.results && r.status == "Success" ==> r.name !in states[forgeStep].expectedFailures
    ensures judgeStep < k && judge in steps[judgeStep] && judge.Feedback? && judge.good
    ensures states[forgeStep].currTest.Some? && states[judgeStep].currTest.Some? && states[k].currTest.Some?
    ensures DigestOf(cfg, states[forgeStep]) == DigestOf(cfg, states[judgeStep]) == DigestOf(cfg, states[k])
    ensures states[k].lastTestNames == LatestNames(states, steps, k) && states[k].lastTestNames.Some?
    ensures ValidMapping(mapping, states[k].skipped, cfg.titles, states[k].lastTestNames.value)
    ensures var names := NamesFrom(states, steps, forgeStep, k);
            names.Some? && (ClaimedTests(mapping) == Reported(forge) <==> Elements(names.value) == Reported(forge))
    ensures forall marks: map<string, string> ::
              (forall r :: r in forge.outcome.results && r.status == "Failure" ==> r.name in marks) &&
              (forall r :: r in forge.outcome.results && r.status == "Success" ==> r.name !in marks)
              <==> SameOnResults(forge.outcome, states[forgeStep].expectedFailures, marks)
  {
    GateOpenExactlyWhenCertified(cfg, states, steps, k);
    RunInvariant(cfg, states, steps, k, FORGE_TEST);
    forgeStep, forge := FindCertification(cfg, states, steps, k, FORGE_TEST);
    judgeStep, judge := FindCertification(cfg, states, steps, k, FEEDBACK);
    hide DigestOf, LatestCertified, ValidMapping, IsRun;
    RunRecordsNames(steps[forgeStep], states[forgeStep], forge);
    LatestIsSince(states, steps, forgeStep, k);
    AcceptedMappingSplitsTheBatch(mapping, states[k].skipped, cfg.titles, states[k].lastTestNames.value);
    ReportedAreItsNames(forge);
    var rs := forge.outcome.results;
    forall marks: map<string, string>
      ensures (forall r :: r in rs && r.status == "Failure" ==> r.name in marks) &&
              (forall r :: r in rs && r.status == "Success" ==> r.name !in marks)
              <==> SameOnResults(forge.outcome, states[forgeStep].expectedFailures, marks)
    {
      CleanUnderOtherMarkings(rs, forge.outcome.returncode, states[forgeStep].expectedFailures, marks);
    }
  }

  /** The publish tool's "no run recorded" branch is dead: once the gate is open, test names are recorded. */
  lemma {:induction false} OpenGateHasTestNames(cfg: Config, states: seq<State>, steps: seq<seq<Call>>, k: nat)
    requires IsRun(cfg, states, steps) && k <= |steps| && CheckCompletion(cfg, states[k]).None?
    ensures states[k].lastTestNames.Some?
  {
    GateOpenExactlyWhenCertified(cfg, states, steps, k);
    RunInvariant(cfg, states, steps, k, FORGE_TEST);
    CertifiedHasNames(cfg, states, steps, k);
  }

  lemma {:induction false} CertifiedHasNames(cfg: Config, states: seq<State>, steps: seq<seq<Call>>, k: nat)
    requires |states| == |steps| + 1 && k <= |steps|
    requires LatestCertified(cfg, states, steps, k, FORGE_TEST).Some?
    ensures LatestNames(states, steps, k).Some?
  {
    if StepCertifies(FORGE_TEST, steps[k - 1], states[k - 1]) {
      var c :| c in steps[k - 1] && Certifies(FORGE_TEST, c, states[k - 1]);
      RunRecordsNames(steps[k - 1], states[k - 1], c);
    } else {
      CertifiedHasNames(cfg, states, steps, k - 1);
    }
  }

  lemma {:induction false} RunRecordsNames(calls: seq<Call>, snap: State, c: Call)
    requires c in calls && c.ForgeTest? && c.outcome.Ran? && snap.currTest.Some?
    ensures NamesIn(calls, snap).Some?
  {
    var last := calls[|calls| - 1];
    if !(last.ForgeTest? && (last.outcome.Ran? || last.outcome.NotJson?)) {
      assert calls == calls[..|calls| - 1] + [last];
      RunRecordsNames(calls[..|calls| - 1], snap, c);
    }
  }

  /** When a publish is accepted in a run: exactly when there is a test, both latest certifications saw the current
      digest, and the mapping is valid for the tests of the latest forge output. */
  lemma PublishAcceptedExactly(cfg: Config, states: seq<State>, steps: seq<seq<Call>>, k: nat,
                               mapping: seq<PropertyTestMapping>)
    requires IsRun(cfg, states, steps) && k <= |steps|
    ensures PublishVerdict(cfg, states[k], mapping).None? <==>
            states[k].currTest.Some? &&
            LatestCertified(cfg, states, steps, k, FORGE_TEST) == Some(DigestOf(cfg, states[k])) &&
            LatestCertified(cfg, states, steps, k, FEEDBACK) == Some(DigestOf(cfg, states[k])) &&
            LatestNames(states, steps, k).Some? &&
            ValidMapping(mapping, states[k].skipped, cfg.titles, LatestNames(states, steps, k).value)
  {
    GateOpenExactlyWhenCertified(cfg, states, steps, k);
    RunInvariant(cfg, states, steps, k, FORGE_TEST);
    hide CheckCompletion, LatestCertified, LatestNames, ValidMapping, DigestOf, IsRun;
  }

  // ---- From digests to texts ----

  ghost predicate CollisionFree(cfg: Config) {
    forall a, b {:trigger cfg.digest(a), cfg.digest(b)} :: cfg.digest(a) == cfg.digest(b) ==> a == b
  }

  /** Without collisions and with the same skip list, equal digests mean the very same test source. */
  lemma SameDigestSameTest(cfg: Config, a: State, b: State)
    requires CollisionFree(cfg) && a.currTest.Some? && b.currTest.Some? && a.skipped == b.skipped
    ensures DigestOf(cfg, a) == DigestOf(cfg, b) <==> a.currTest == b.currTest
  {
    var x, y, s := a.currTest.value, b.currTest.value, SkipText(a.skipped);
    if DigestOf(cfg, a) == DigestOf(cfg, b) {
      assert x + s == y + s;
      assert |x| == |y|;
      assert x == (x + s)[..|x|] == (y + s)[..|y|] == y;
    }
  }

  /** With different skip lists they may not: the hashed text runs test and skips together, so a test that
      ends like a skip entry has the digest of the shorter test with that skip. */
  lemma DigestRunsTestAndSkipsTogether(cfg: Config, a: State, t: string, s: Skip)
    requires a.currTest == Some(t)
    ensures DigestOf(cfg, a.(skipped := [s])) ==
            DigestOf(cfg, a.(currTest := Some(t + s.title + ":" + s.reason), skipped := []))
  {
    assert SkipText([s][1..]) == "";
    assert s.title + ":" + s.reason + "" == s.title + ":" + s.reason;
    assert t + (s.title + ":" + s.reason) + "" == t + s.title + ":" + s.reason;
    assert SkipText([s]) == s.title + ":" + s.reason;
    assert Surface(t, [s]) == Surface(t + s.title + ":" + s.reason, []);
  }

  /** Marking or unmarking an expected failure never closes or opens the gate: the digest does not cover the
      markings, so a certification may have been given under other markings than those published. */
  lemma MarkingsLeaveTheGateAlone(cfg: Config, st: State, test: string, why: string)
    ensures CheckCompletion(cfg, Fold(cfg, [ExpectFailure(test, why)], st)) == CheckCompletion(cfg, st)
    ensures CheckCompletion(cfg, Fold(cfg, [ExpectPassage(test)], st)) == CheckCompletion(cfg, st)
  {
    FoldOne(cfg, ExpectFailure(test, why), st);
    FoldOne(cfg, ExpectPassage(test), st);
    assert st.validations + map[] == st.validations;
    hide Fold;
  }

  lemma FoldOne(cfg: Config, c: Call, st: State)
    ensures Fold(cfg, [c], st) == Reduce(st, Run(cfg, c, st))
  {
    assert [c][..0] == [];
  }
}
