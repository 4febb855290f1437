/** The check of the property-to-tests mapping declared at publish time. */
module PropertyTests {
  import opened Wrappers
  import opened Strings
  import opened Skips

  datatype PropertyTestMapping = PropertyTestMapping(title: string, tests: seq<string>)

  datatype MappingError =
    | UnknownTitle(title: string)
    | MappedTwice(title: string)
    | MappedButSkipped(title: string)
    | NoTests(title: string)
    | DidNotRun(title: string, test: string)
    | Unaccounted(title: string)
    | Untied(test: string)

  /** The non-blank test names of one entry, stripped. */
  function Names(tests: seq<string>): set<string> {
    set t | t in tests && Strip(t) != "" :: Strip(t)
  }

  function SkippedTitles(skipped: seq<Skip>): set<string> {
    set s | s in skipped :: s.title
  }

  /** One entry is in order by itself. */
  predicate EntryValid(m: PropertyTestMapping, skipped: set<string>, titles: seq<string>, ran: seq<string>) {
    m.title in titles && m.title !in skipped && Names(m.tests) != {} && forall n :: n in Names(m.tests) ==> n in ran
  }

  predicate EntriesValid(ms: seq<PropertyTestMapping>, skipped: set<string>, titles: seq<string>, ran: seq<string>) {
    (forall i :: 0 <= i < |ms| ==> EntryValid(ms[i], skipped, titles, ran)) &&
    (forall i, j :: 0 <= i < j < |ms| ==> ms[i].title != ms[j].title)
  }

  function MappedTitles(ms: seq<PropertyTestMapping>): set<string> {
    set m | m in ms :: m.title
  }

  function ClaimedTests(ms: seq<PropertyTestMapping>): set<string> {
    set m, n | m in ms && n in Names(m.tests) :: n
  }

  /** The mapping is acceptable: entries in order and distinct, every title skipped or mapped, every test that
      ran claimed by some entry. */
  predicate ValidMapping(ms: seq<PropertyTestMapping>, skipped: seq<Skip>, titles: seq<string>, ran: seq<string>) {
    EntriesValid(ms, SkippedTitles(skipped), titles, ran) &&
    (forall t :: t in titles ==> t in SkippedTitles(skipped) || t in MappedTitles(ms)) &&
    (forall n :: n in ran ==> n in ClaimedTests(ms))
  }

  /** The check as it runs; None is acceptance. It accepts exactly the valid mappings. */
  method ValidatePropertyTests(ms: seq<PropertyTestMapping>, skipped: seq<Skip>, titles: seq<string>, ran: seq<string>)
    returns (r: Option<seq<MappingError>>)
    ensures r.None? <==> ValidMapping(ms, skipped, titles, ran)
    ensures r.Some? ==> r.value != []
  {
    hide EntriesValid, MappedTitles, ClaimedTests;
    var skippedTitles := SkippedTitles(skipped);
    var errors, mapped, claimed := CheckEntries(ms, skippedTitles, titles, ran);
    for i := 0 to |titles|
      invariant errors == [] ==> mapped == MappedTitles(ms) && claimed == ClaimedTests(ms)
      invariant errors == [] <==>
                (EntriesValid(ms, skippedTitles, titles, ran) &&
                 forall j :: 0 <= j < i ==> titles[j] in skippedTitles || titles[j] in mapped)
    {
      if titles[i] !in skippedTitles && titles[i] !in mapped {
        errors := errors + [Unaccounted(titles[i])];
      }
    }
    var untied := SortSet((set n | n in ran) - claimed);
    assert untied == [] <==> forall n :: n in ran ==> n in claimed by {
      forall n | n in ran && n !in claimed ensures untied != [] { assert n in Elements(untied); }
      if untied != [] { assert untied[0] in Elements(untied); }
    }
    errors := errors + seq(|untied|, i requires 0 <= i < |untied| => Untied(untied[i]));
    r := if errors == [] then None else Some(errors);
  }

  /** The loop over the declared entries. */
  method CheckEntries(ms: seq<PropertyTestMapping>, skippedTitles: set<string>, titles: seq<string>, ran: seq<string>)
    returns (errors: seq<MappingError>, mapped: set<string>, claimed: set<string>)
    ensures errors == [] <==> EntriesValid(ms, skippedTitles, titles, ran)
    ensures errors == [] ==> mapped == MappedTitles(ms) && claimed == ClaimedTests(ms)
  {
    hide Names, MappedTitles, ClaimedTests;
    errors, mapped, claimed := [], {}, {};
    NoEntries(ms, skippedTitles, titles, ran);
    hide EntriesValid;
    for i := 0 to |ms|
      invariant errors == [] <==> EntriesValid(ms[..i], skippedTitles, titles, ran)
      invariant errors == [] ==> mapped == MappedTitles(ms[..i]) && claimed == ClaimedTests(ms[..i])
    {
      var m := ms[i];
      EntriesStep(ms, i, skippedTitles, titles, ran);
      if m.title !in titles {
        errors := errors + [UnknownTitle(m.title)];
      } else if m.title in mapped {
        errors := errors + [MappedTwice(m.title)];
      } else {
        mapped := mapped + {m.title};
        if m.title in skippedTitles {
          errors := errors + [MappedButSkipped(m.title)];
        } else {
          var names := ListNames(m.tests);
          if names == [] {
            errors := errors + [NoTests(m.title)];
          } else {
            ghost var before := errors;
            for k := 0 to |names|
              invariant errors == [] <==> before == [] && forall j :: 0 <= j < k ==> names[j] in ran
            {
              if names[k] !in ran {
                errors := errors + [DidNotRun(m.title, names[k])];
              }
            }
            claimed := claimed + Elements(names);
          }
        }
      }
    }
    assert ms[..|ms|] == ms;
  }

  lemma NoEntries(ms: seq<PropertyTestMapping>, skippedTitles: set<string>, titles: seq<string>, ran: seq<string>)
    ensures EntriesValid(ms[..0], skippedTitles, titles, ran) && MappedTitles(ms[..0]) == {} && ClaimedTests(ms[..0]) == {}
  {}

  method ListNames(tests: seq<string>) returns (names: seq<string>)
    ensures Elements(names) == Names(tests)
    ensures names == [] <==> Names(tests) == {}
    ensures forall n :: n in Names(tests) <==> n in names
  {
    names := [];
    for i := 0 to |tests|
      invariant Elements(names) == Names(tests[..i])
    {
      NamesStep(tests, i);
      if Strip(tests[i]) != "" {
        names := names + [Strip(tests[i])];
      }
    }
    assert tests[..|tests|] == tests;
    assert names != [] ==> names[0] in Elements(names);
  }

  lemma NamesStep(tests: seq<string>, i: nat)
    requires i < |tests|
    ensures Names(tests[..i + 1]) == Names(tests[..i]) + if Strip(tests[i]) == "" then {} else {Strip(tests[i])}
  {
    hide Strip;
    var a, b := tests[..i], tests[..i + 1];
    assert b == a + [tests[i]];
    forall n | n in Names(a) ensures n in Names(b) {
      var t :| t in a && Strip(t) != "" && Strip(t) == n;
      assert t in b;
    }
    if Strip(tests[i]) != "" { assert tests[i] in b; }
  }

  lemma EntriesStep(ms: seq<PropertyTestMapping>, i: nat, skipped: set<string>, titles: seq<string>, ran: seq<string>)
    requires i < |ms|
    ensures EntriesValid(ms[..i + 1], skipped, titles, ran) <==>
            EntriesValid(ms[..i], skipped, titles, ran) && EntryValid(ms[i], skipped, titles, ran) &&
            ms[i].title !in MappedTitles(ms[..i])
    ensures MappedTitles(ms[..i + 1]) == MappedTitles(ms[..i]) + {ms[i].title}
    ensures ClaimedTests(ms[..i + 1]) == ClaimedTests(ms[..i]) + Names(ms[i].tests)
  {
    hide Names;
    var a, b := ms[..i], ms[..i + 1];
    assert b == a + [ms[i]];
    assert forall k :: 0 <= k < i ==> b[k] == a[k];
    assert b[i] == ms[i];
    if ms[i].title in MappedTitles(a) {
      var m :| m in a && m.title == ms[i].title;
      var k :| 0 <= k < |a| && a[k] == m;
      assert b[k].title == b[i].title;
    }
    if EntriesValid(b, skipped, titles, ran) {
      forall k | 0 <= k < |a| ensures EntryValid(a[k], skipped, titles, ran) { assert b[k] == a[k]; }
      forall j, k | 0 <= j < k < |a| ensures a[j].title != a[k].title { assert b[j].title != b[k].title; }
    }
    if EntriesValid(a, skipped, titles, ran) && EntryValid(ms[i], skipped, titles, ran) && ms[i].title !in MappedTitles(a) {
      forall j, k | 0 <= j < k < |b| ensures b[j].title != b[k].title {
        assert b[j] in a;
        if k < i { assert a[j].title != a[k].title; }
      }
    }
  }

  /** An accepted mapping splits the batch: no title is both skipped and mapped, and every title is one of
      the two; the claimed tests are exactly the tests that ran. */
  lemma AcceptedMappingSplitsTheBatch(ms: seq<PropertyTestMapping>, skipped: seq<Skip>, titles: seq<string>, ran: seq<string>)
    requires ValidMapping(ms, skipped, titles, ran)
    ensures MappedTitles(ms) !! SkippedTitles(skipped)
    ensures MappedTitles(ms) == Elements(titles) - SkippedTitles(skipped)
    ensures ClaimedTests(ms) == Elements(ran)
    ensures |MappedTitles(ms)| == |ms|
  {
    hide Names, SkippedTitles;
    forall m | m in ms ensures EntryValid(m, SkippedTitles(skipped), titles, ran) {
      var i :| 0 <= i < |ms| && ms[i] == m;
    }
    forall t | t in MappedTitles(ms) ensures t in titles && t !in SkippedTitles(skipped) {
      var m :| m in ms && m.title == t;
    }
    forall n | n in ClaimedTests(ms) ensures n in ran {
      var m :| m in ms && n in Names(m.tests);
    }
    CountTitles(ms);
  }

  lemma {:induction false} CountTitles(ms: seq<PropertyTestMapping>)
    requires forall i, j :: 0 <= i < j < |ms| ==> ms[i].title != ms[j].title
    ensures |MappedTitles(ms)| == |ms|
  {
    if ms != [] {
      var n := |ms| - 1;
      var init := ms[..n];
      CountTitles(init);
      assert ms == init + [ms[n]];
      assert MappedTitles(ms) == MappedTitles(init) + {ms[n].title};
      forall m | m in init ensures m.title != ms[n].title {
        var k :| 0 <= k < n && init[k] == m;
        assert ms[k].title != ms[n].title;
      }
    }
  }

  // ---- Valid mappings, told from titles and tests ----

  /** The entry names the test, up to blanks around it. */
  predicate Claims(m: PropertyTestMapping, test: string) {
    test != "" && exists t :: t in m.tests && Strip(t) == test
  }

  predicate Claimed(ms: seq<PropertyTestMapping>, test: string) {
    exists m :: m in ms && Claims(m, test)
  }

  predicate ClaimsSomething(m: PropertyTestMapping) {
    exists t :: t in m.tests && Strip(t) != ""
  }

  predicate Mapped(ms: seq<PropertyTestMapping>, title: string) {
    exists m :: m in ms && m.title == title
  }

  predicate IsSkipped(skipped: seq<Skip>, title: string) {
    exists s :: s in skipped && s.title == title
  }

  lemma SetsSayTheSame(ms: seq<PropertyTestMapping>, skipped: seq<Skip>, x: string)
    ensures x in MappedTitles(ms) <==> Mapped(ms, x)
    ensures x in SkippedTitles(skipped) <==> IsSkipped(skipped, x)
    ensures x in ClaimedTests(ms) <==> Claimed(ms, x)
  {
    hide Strip;
    forall m: PropertyTestMapping ensures x in Names(m.tests) <==> Claims(m, x) {}
    hide Names, Claims;
    if x in ClaimedTests(ms) {
      var m :| m in ms && x in Names(m.tests);
      assert Claims(m, x);
    }
    if Claimed(ms, x) {
      var m :| m in ms && Claims(m, x);
      assert x in Names(m.tests);
    }
  }

  lemma ValidSplits(ms: seq<PropertyTestMapping>, skipped: seq<Skip>, titles: seq<string>, ran: seq<string>)
    requires ValidMapping(ms, skipped, titles, ran)
    ensures forall i, j :: 0 <= i < j < |ms| ==> ms[i].title != ms[j].title
    ensures forall t :: Mapped(ms, t) <==> t in titles && !IsSkipped(skipped, t)
    ensures forall m :: m in ms ==> ClaimsSomething(m)
    ensures forall test :: Claimed(ms, test) <==> test in ran
  {
    ValidEntries(ms, skipped, titles, ran);
    hide *;
    AcceptedMappingSplitsTheBatch(ms, skipped, titles, ran);
    forall t ensures Mapped(ms, t) <==> t in titles && !IsSkipped(skipped, t) {
      SetsSayTheSame(ms, skipped, t);
      InElements(titles, t);
    }
    forall test ensures Claimed(ms, test) <==> test in ran {
      SetsSayTheSame(ms, skipped, test);
      InElements(ran, test);
    }
  }

  lemma ValidEntries(ms: seq<PropertyTestMapping>, skipped: seq<Skip>, titles: seq<string>, ran: seq<string>)
    requires ValidMapping(ms, skipped, titles, ran)
    ensures forall i, j :: 0 <= i < j < |ms| ==> ms[i].title != ms[j].title
    ensures forall m :: m in ms ==> ClaimsSomething(m)
  {
    hide Names, ClaimsSomething, MappedTitles, ClaimedTests, SkippedTitles;
    forall m | m in ms ensures ClaimsSomething(m) {
      var i :| 0 <= i < |ms| && ms[i] == m;
      assert EntryValid(ms[i], SkippedTitles(skipped), titles, ran);
      NamesSomething(m);
    }
  }

  lemma InElements(ss: seq<string>, x: string)
    ensures x in Elements(ss) <==> x in ss
  {}

  lemma SplitIsValid(ms: seq<PropertyTestMapping>, skipped: seq<Skip>, titles: seq<string>, ran: seq<string>)
    requires forall i, j :: 0 <= i < j < |ms| ==> ms[i].title != ms[j].title
    requires forall t :: Mapped(ms, t) <==> t in titles && !IsSkipped(skipped, t)
    requires forall m :: m in ms ==> ClaimsSomething(m)
    requires forall test :: Claimed(ms, test) <==> test in ran
    ensures ValidMapping(ms, skipped, titles, ran)
  {
    hide EntriesValid, Mapped, Claimed, IsSkipped, ClaimsSomething, SkippedTitles, MappedTitles, ClaimedTests, Names;
    forall x ensures x in MappedTitles(ms) <==> x in titles && x !in SkippedTitles(skipped) { SetsSayTheSame(ms, skipped, x); }
    forall x ensures x in ClaimedTests(ms) <==> x in ran { SetsSayTheSame(ms, skipped, x); }
    forall m | m in ms ensures Names(m.tests) != {} { NamesSomething(m); }
    EntriesFit(ms, SkippedTitles(skipped), titles, ran);
  }

  /** A mapping is valid exactly when its entries are for different titles, those titles are the batch without the
      skipped ones, every entry names some test, and the tests named are exactly those that ran. */
  lemma ValidExactlyWhenItSplitsTheBatch(ms: seq<PropertyTestMapping>, skipped: seq<Skip>, titles: seq<string>, ran: seq<string>)
    ensures ValidMapping(ms, skipped, titles, ran) <==>
            (forall i, j :: 0 <= i < j < |ms| ==> ms[i].title != ms[j].title) &&
            (forall t :: Mapped(ms, t) <==> t in titles && !IsSkipped(skipped, t)) &&
            (forall m :: m in ms ==> ClaimsSomething(m)) &&
            (forall test :: Claimed(ms, test) <==> test in ran)
  {
    hide *;
    if ValidMapping(ms, skipped, titles, ran) {
      ValidSplits(ms, skipped, titles, ran);
    } else if (forall i, j :: 0 <= i < j < |ms| ==> ms[i].title != ms[j].title) &&
              (forall t :: Mapped(ms, t) <==> t in titles && !IsSkipped(skipped, t)) &&
              (forall m :: m in ms ==> ClaimsSomething(m)) && (forall test :: Claimed(ms, test) <==> test in ran) {
      SplitIsValid(ms, skipped, titles, ran);
    }
  }

  lemma NamesSomething(m: PropertyTestMapping)
    ensures Names(m.tests) != {} <==> ClaimsSomething(m)
  {
    hide Strip;
    if t :| t in m.tests && Strip(t) != "" { assert Strip(t) in Names(m.tests); }
  }

  lemma EntriesFit(ms: seq<PropertyTestMapping>, skipped: set<string>, titles: seq<string>, ran: seq<string>)
    requires forall i, j :: 0 <= i < j < |ms| ==> ms[i].title != ms[j].title
    requires forall t :: t in MappedTitles(ms) ==> t in titles && t !in skipped
    requires forall m :: m in ms ==> Names(m.tests) != {}
    requires forall n :: n in ClaimedTests(ms) ==> n in ran
    ensures EntriesValid(ms, skipped, titles, ran)
  {
    hide Names;
    forall i | 0 <= i < |ms| ensures EntryValid(ms[i], skipped, titles, ran) {
      assert ms[i] in ms && ms[i].title in MappedTitles(ms);
      forall n | n in Names(ms[i].tests) ensures n in ran { assert n in ClaimedTests(ms); }
    }
  }
}
