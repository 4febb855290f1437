/** The CVL counterpart of the mapping check: properties are mapped to rules, whose names are taken on trust. */
module PropertyRules {
  import opened Wrappers
  import opened Strings
  import opened Skips
  import opened PropertyTests

  datatype PropertyRuleMapping = PropertyRuleMapping(title: string, rules: seq<string>)

  datatype RuleError =
    | NotInBatch(title: string)
    | Repeated(title: string)
    | Skipped(title: string)
    | NoRules(title: string)
    | LeftOut(title: string)

  predicate NamesARule(m: PropertyRuleMapping) {
    exists r :: r in m.rules && Strip(r) != ""
  }

  predicate RuleEntryValid(m: PropertyRuleMapping, skipped: set<string>, titles: seq<string>) {
    m.title in titles && m.title !in skipped && NamesARule(m)
  }

  predicate RuleEntriesValid(ms: seq<PropertyRuleMapping>, skipped: set<string>, titles: seq<string>) {
    (forall i :: 0 <= i < |ms| ==> RuleEntryValid(ms[i], skipped, titles)) &&
    (forall i, j :: 0 <= i < j < |ms| ==> ms[i].title != ms[j].title)
  }

  function TitlesOf(ms: seq<PropertyRuleMapping>): set<string> {
    set m | m in ms :: m.title
  }

  predicate ValidRules(ms: seq<PropertyRuleMapping>, skipped: seq<Skip>, titles: seq<string>) {
    RuleEntriesValid(ms, SkippedTitles(skipped), titles) &&
    forall t :: t in titles ==> t in SkippedTitles(skipped) || t in TitlesOf(ms)
  }

  lemma RuleEntriesStep(ms: seq<PropertyRuleMapping>, i: nat, skipped: set<string>, titles: seq<string>)
    requires i < |ms|
    ensures RuleEntriesValid(ms[..i + 1], skipped, titles) <==>
            RuleEntriesValid(ms[..i], skipped, titles) && RuleEntryValid(ms[i], skipped, titles) &&
            ms[i].title !in TitlesOf(ms[..i])
    ensures TitlesOf(ms[..i + 1]) == TitlesOf(ms[..i]) + {ms[i].title}
  {
    hide RuleEntryValid;
    var a, b := ms[..i], ms[..i + 1];
    assert b == a + [ms[i]];
    assert forall k :: 0 <= k < i ==> b[k] == a[k];
    if ms[i].title in TitlesOf(a) {
      var k :| 0 <= k < |a| && a[k].title == ms[i].title;
      assert b[k].title == b[i].title;
    }
    if RuleEntriesValid(b, skipped, titles) {
      assert RuleEntryValid(b[i], skipped, titles);
      forall k | 0 <= k < |a| ensures RuleEntryValid(a[k], skipped, titles) { assert b[k] == a[k]; }
      forall j, k | 0 <= j < k < |a| ensures a[j].title != a[k].title { assert b[j].title != b[k].title; }
    }
    if RuleEntriesValid(a, skipped, titles) && ms[i].title !in TitlesOf(a) {
      forall j, k | 0 <= j < k < |b| ensures b[j].title != b[k].title {
        assert b[j] in a;
        if k < i { assert a[j].title != a[k].title; }
      }
    }
  }

  /** The check as it runs; None is acceptance. It accepts exactly the valid mappings. */
  method ValidatePropertyRules(ms: seq<PropertyRuleMapping>, skipped: seq<Skip>, titles: seq<string>)
    returns (r: Option<seq<RuleError>>)
    ensures r.None? <==> ValidRules(ms, skipped, titles)
    ensures r.Some? ==> r.value != []
  {
    var skippedTitles := SkippedTitles(skipped);
    var errors: seq<RuleError> := [];
    var mapped: set<string> := {};
    assert RuleEntriesValid(ms[..0], skippedTitles, titles) && TitlesOf(ms[..0]) == {};
    hide RuleEntriesValid, TitlesOf, NamesARule;
    for i := 0 to |ms|
      invariant errors == [] <==> RuleEntriesValid(ms[..i], skippedTitles, titles)
      invariant errors == [] ==> mapped == TitlesOf(ms[..i])
    {
      var m := ms[i];
      RuleEntriesStep(ms, i, skippedTitles, titles);
      if m.title !in titles {
        errors := errors + [NotInBatch(m.title)];
      } else if m.title in mapped {
        errors := errors + [Repeated(m.title)];
      } else {
        mapped := mapped + {m.title};
        if m.title in skippedTitles {
          errors := errors + [Skipped(m.title)];
        } else if !NamesARule(m) {
          errors := errors + [NoRules(m.title)];
        }
      }
    }
    assert ms[..|ms|] == ms;
    for i := 0 to |titles|
      invariant errors == [] ==> mapped == TitlesOf(ms)
      invariant errors == [] <==>
                (RuleEntriesValid(ms, skippedTitles, titles) &&
                 forall j :: 0 <= j < i ==> titles[j] in skippedTitles || titles[j] in mapped)
    {
      if titles[i] !in skippedTitles && titles[i] !in mapped {
        errors := errors + [LeftOut(titles[i])];
      }
    }
    r := if errors == [] then None else Some(errors);
  }

  // ---- The two checks compared ----

  function AsTests(ms: seq<PropertyRuleMapping>): seq<PropertyTestMapping> {
    seq(|ms|, i requires 0 <= i < |ms| => PropertyTestMapping(ms[i].title, ms[i].rules))
  }

  /** The foundry check is this check and, on top, that the claimed names are exactly the names that ran: what the
      CVL check leaves to trust, and nothing else. */
  lemma TestsAreRulesThatRan(ms: seq<PropertyRuleMapping>, skipped: seq<Skip>, titles: seq<string>, ran: seq<string>)
    ensures ValidMapping(AsTests(ms), skipped, titles, ran) <==>
            ValidRules(ms, skipped, titles) && ClaimedTests(AsTests(ms)) == Elements(ran)
  {
    var ts, sk := AsTests(ms), SkippedTitles(skipped);
    assert forall i :: 0 <= i < |ms| ==> ts[i].title == ms[i].title;
    SameTitles(ms);
    forall i | 0 <= i < |ms|
      ensures EntryValid(ts[i], sk, titles, ran) <==>
              RuleEntryValid(ms[i], sk, titles) && forall n :: n in Names(ts[i].tests) ==> n in ran
    {
      SomeName(ms[i]);
    }
    ClaimsByEntry(ts, ran);
    hide EntryValid, RuleEntryValid, Names, ClaimedTests, AsTests, TitlesOf, MappedTitles, SkippedTitles;
    assert RuleEntriesValid(ms, sk, titles) && (forall n :: n in ClaimedTests(ts) ==> n in ran) <==>
           EntriesValid(ts, sk, titles, ran);
  }

  lemma SomeName(m: PropertyRuleMapping)
    ensures NamesARule(m) <==> Names(m.rules) != {}
  {
    hide Strip;
    if NamesARule(m) {
      var r :| r in m.rules && Strip(r) != "";
      assert Strip(r) in Names(m.rules);
    }
  }

  lemma SameTitles(ms: seq<PropertyRuleMapping>)
    ensures TitlesOf(ms) == MappedTitles(AsTests(ms))
  {
    var ts := AsTests(ms);
    forall t | t in TitlesOf(ms) ensures t in MappedTitles(ts) {
      var i :| 0 <= i < |ms| && ms[i].title == t;
      assert ts[i] in ts;
    }
    forall t | t in MappedTitles(ts) ensures t in TitlesOf(ms) {
      var i :| 0 <= i < |ts| && ts[i].title == t;
      assert ms[i] in ms;
    }
  }

  lemma ClaimsByEntry(ts: seq<PropertyTestMapping>, ran: seq<string>)
    ensures (forall n :: n in ClaimedTests(ts) ==> n in ran) <==>
            forall i :: 0 <= i < |ts| ==> forall n :: n in Names(ts[i].tests) ==> n in ran
  {
    hide Names;
    forall i, n | 0 <= i < |ts| && n in Names(ts[i].tests) ensures n in ClaimedTests(ts) { assert ts[i] in ts; }
    forall n | n in ClaimedTests(ts) ensures exists i :: 0 <= i < |ts| && n in Names(ts[i].tests) {
      var m :| m in ts && n in Names(m.tests);
      var i :| 0 <= i < |ts| && ts[i] == m;
    }
  }
}
