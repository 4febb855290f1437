/** The skip list of a batch and its state reducer. */
module Skips {
  import opened Strings

  datatype Skip = Skip(title: string, reason: string)

  /** The dictionary built by assigning in order: the last declaration of a title wins. */
  function ByTitle(ss: seq<Skip>): map<string, string> {
    if ss == [] then map[] else ByTitle(ss[..|ss| - 1])[ss[|ss| - 1].title := ss[|ss| - 1].reason]
  }

  /** Declarations with an empty reason are withdrawn. */
  function Live(m: map<string, string>): map<string, string> {
    map t | t in m && m[t] != "" :: m[t]
  }

  function Titles(ss: seq<Skip>): seq<string> {
    seq(|ss|, i requires 0 <= i < |ss| => ss[i].title)
  }

  /** Strictly increasing titles and no empty reason. */
  predicate Canonical(ss: seq<Skip>) {
    StrictlySorted(Titles(ss)) && forall i :: 0 <= i < |ss| ==> ss[i].reason != ""
  }

  lemma {:induction false} ByTitleKeys(ss: seq<Skip>)
    ensures ByTitle(ss).Keys == Elements(Titles(ss))
  {
    if ss != [] {
      ByTitleKeys(ss[..|ss| - 1]);
      assert Titles(ss) == Titles(ss[..|ss| - 1]) + [ss[|ss| - 1].title];
    }
  }

  lemma {:induction false} ByTitleAt(ss: seq<Skip>, i: nat)
    requires StrictlySorted(Titles(ss)) && i < |ss|
    ensures ss[i].title in ByTitle(ss) && ByTitle(ss)[ss[i].title] == ss[i].reason
  {
    var n := |ss| - 1;
    if i < n {
      var init := ss[..n];
      assert forall j :: 0 <= j < n ==> Titles(init)[j] == Titles(ss)[j];
      ByTitleAt(init, i);
      assert Less(Titles(ss)[i], Titles(ss)[n]);
      LessIrreflexive(ss[i].title);
    }
  }

  /** A canonical list is determined by what it says about each title. */
  lemma CanonicalUnique(a: seq<Skip>, b: seq<Skip>)
    requires Canonical(a) && Canonical(b) && ByTitle(a) == ByTitle(b)
    ensures a == b
  {
    ByTitleKeys(a);
    ByTitleKeys(b);
    SortedUnique(Titles(a), Titles(b));
    assert |Titles(a)| == |Titles(b)|;
    forall i | 0 <= i < |a| ensures a[i] == b[i] {
      ByTitleAt(a, i);
      ByTitleAt(b, i);
      assert Titles(a)[i] == Titles(b)[i];
    }
  }

  // ---- The reducer as a function ----

  /** Insert, replace or withdraw one declaration in a canonical list. */
  function Declare(ss: seq<Skip>, s: Skip): seq<Skip> {
    if ss == [] then (if s.reason == "" then [] else [s])
    else if ss[0].title == s.title then (if s.reason == "" then [] else [s]) + ss[1..]
    else if Less(s.title, ss[0].title) then (if s.reason == "" then [] else [s]) + ss
    else [ss[0]] + Declare(ss[1..], s)
  }

  function DeclareAll(ss: seq<Skip>): seq<Skip> {
    if ss == [] then [] else Declare(DeclareAll(ss[..|ss| - 1]), ss[|ss| - 1])
  }

  /** `_merge_skips`. */
  function Merge(left: seq<Skip>, right: seq<Skip>): seq<Skip> {
    DeclareAll(left + right)
  }

  lemma {:induction false} ByTitleCons(s: Skip, ss: seq<Skip>)
    ensures ByTitle([s] + ss) == map[s.title := s.reason] + ByTitle(ss)
  {
    var all := [s] + ss;
    if ss == [] {
      assert all[..0] == [];
      assert ByTitle(all[..0]) == map[];
    } else {
      ByTitleCons(s, ss[..|ss| - 1]);
      assert all[..|all| - 1] == [s] + ss[..|ss| - 1];
    }
  }

  lemma TitlesTail(ss: seq<Skip>)
    requires Canonical(ss) && ss != []
    ensures Canonical(ss[1..]) && Titles(ss)[1..] == Titles(ss[1..])
    ensures forall t :: t in ByTitle(ss[1..]) ==> Less(ss[0].title, t)
  {
    assert Titles(ss)[1..] == Titles(ss[1..]);
    TailElements(Titles(ss));
    ByTitleKeys(ss[1..]);
  }

  /** A declaration put in front of titles that are all larger. */
  lemma OwnEntry(s: Skip, ss: seq<Skip>)
    requires Canonical(ss)
    requires forall t :: t in ByTitle(ss) ==> Less(s.title, t)
    ensures var r := (if s.reason == "" then [] else [s]) + ss;
            Canonical(r) && ByTitle(r) == Live(ByTitle(ss)[s.title := s.reason])
  {
    CanonicalIsLive(ss);
    LessIrreflexive(s.title);
    if s.reason == "" {
      assert [] + ss == ss;
      assert Live(ByTitle(ss)[s.title := s.reason]) == ByTitle(ss);
    } else {
      ConsCanonical(s, ss);
      ByTitleCons(s, ss);
      assert map[s.title := s.reason] + ByTitle(ss) == ByTitle(ss)[s.title := s.reason];
    }
  }

  lemma {:induction false} DeclareMeaning(ss: seq<Skip>, s: Skip)
    requires Canonical(ss)
    ensures Canonical(Declare(ss, s))
    ensures ByTitle(Declare(ss, s)) == Live(ByTitle(ss)[s.title := s.reason])
  {
    hide Canonical, ByTitle, Live;
    if ss == [] {
      NothingDeclared();
      OwnEntry(s, []);
      assert forall own: seq<Skip> :: own + [] == own;
    } else {
      TitlesTail(ss);
      ByTitleCons(ss[0], ss[1..]);
      assert [ss[0]] + ss[1..] == ss;
      if ss[0].title == s.title {
        OwnEntry(s, ss[1..]);
        assert (map[s.title := ss[0].reason] + ByTitle(ss[1..]))[s.title := s.reason] == ByTitle(ss[1..])[s.title := s.reason];
      } else if Less(s.title, ss[0].title) {
        forall t | t in ByTitle(ss) ensures Less(s.title, t) {
          if t != ss[0].title { LessTransitive(s.title, ss[0].title, t); }
        }
        OwnEntry(s, ss);
      } else {
        LessTotal(s.title, ss[0].title);
        DeclareMeaning(ss[1..], s);
        BehindHead(ss, s);
      }
    }
  }

  lemma NothingDeclared()
    ensures Canonical([]) && ByTitle([]) == map[]
  {}

  lemma BehindHead(ss: seq<Skip>, s: Skip)
    requires Canonical(ss) && ss != [] && Less(ss[0].title, s.title)
    requires Canonical(Declare(ss[1..], s)) && ByTitle(Declare(ss[1..], s)) == Live(ByTitle(ss[1..])[s.title := s.reason])
    ensures Canonical([ss[0]] + Declare(ss[1..], s))
    ensures ByTitle([ss[0]] + Declare(ss[1..], s)) == Live(ByTitle(ss)[s.title := s.reason])
  {
    hide Declare, ByTitle;
    TitlesTail(ss);
    var m, h, tail := ByTitle(ss[1..]), ss[0], Declare(ss[1..], s);
    assert h.reason != "";
    forall t | t in ByTitle(tail) ensures Less(h.title, t) {
      assert t in m || t == s.title;
    }
    ConsCanonical(h, tail);
    ByTitleCons(h, ss[1..]);
    ByTitleCons(h, tail);
    assert [h] + ss[1..] == ss;
    hide Canonical;
    LessIrreflexive(h.title);
    LiveBehind(m, h, s);
  }

  lemma LiveBehind(m: map<string, string>, h: Skip, s: Skip)
    requires h.reason != "" && h.title != s.title && h.title !in m
    ensures map[h.title := h.reason] + Live(m[s.title := s.reason])
            == Live((map[h.title := h.reason] + m)[s.title := s.reason])
  {}

  lemma CanonicalIsLive(ss: seq<Skip>)
    requires Canonical(ss)
    ensures Live(ByTitle(ss)) == ByTitle(ss)
  {
    ByTitleKeys(ss);
    forall t | t in ByTitle(ss) ensures ByTitle(ss)[t] != "" {
      var i :| 0 <= i < |ss| && Titles(ss)[i] == t;
      ByTitleAt(ss, i);
    }
  }

  lemma ConsCanonical(s: Skip, ss: seq<Skip>)
    requires Canonical(ss) && s.reason != ""
    requires forall t :: t in ByTitle(ss) ==> Less(s.title, t)
    ensures Canonical([s] + ss)
  {
    ByTitleKeys(ss);
    assert Titles([s] + ss) == [s.title] + Titles(ss);
    forall j | 0 <= j < |ss| ensures Less(s.title, Titles(ss)[j]) {
      assert Titles(ss)[j] in ByTitle(ss);
    }
  }

  /** What the reducer computes: the canonical list of the latest non-empty declarations. */
  lemma {:induction false} DeclareAllMeaning(ss: seq<Skip>)
    ensures Canonical(DeclareAll(ss)) && ByTitle(DeclareAll(ss)) == Live(ByTitle(ss))
  {
    if ss != [] {
      DeclareAllMeaning(ss[..|ss| - 1]);
      DeclareMeaning(DeclareAll(ss[..|ss| - 1]), ss[|ss| - 1]);
    }
  }

  lemma {:induction false} ByTitleConcat(a: seq<Skip>, b: seq<Skip>)
    ensures ByTitle(a + b) == ByTitle(a) + ByTitle(b)
  {
    if b == [] {
      assert a + b == a;
    } else {
      assert (a + b)[..|a + b| - 1] == a + b[..|b| - 1];
      ByTitleConcat(a, b[..|b| - 1]);
    }
  }

  lemma LiveAbsorbs(m: map<string, string>, n: map<string, string>)
    ensures Live(Live(m) + n) == Live(m + n)
  {}

  /** Merging in two steps is merging the concatenation. */
  lemma MergeIsAnAction(l: seq<Skip>, a: seq<Skip>, b: seq<Skip>)
    ensures Merge(Merge(l, a), b) == Merge(l, a + b)
  {
    hide Live, ByTitle, DeclareAll, Canonical;
    DeclareAllMeaning(l + a);
    DeclareAllMeaning(Merge(l, a) + b);
    DeclareAllMeaning(l + (a + b));
    ByTitleConcat(Merge(l, a), b);
    ByTitleConcat(l + a, b);
    LiveAbsorbs(ByTitle(l + a), ByTitle(b));
    assert l + (a + b) == l + a + b;
    CanonicalUnique(Merge(Merge(l, a), b), Merge(l, a + b));
  }

  /** The result depends only on the latest declaration of each title, not on the order across titles. */
  lemma MergeDependsOnLatest(a: seq<Skip>, b: seq<Skip>)
    ensures DeclareAll(a) == DeclareAll(b) <==> Live(ByTitle(a)) == Live(ByTitle(b))
  {
    DeclareAllMeaning(a);
    DeclareAllMeaning(b);
    if Live(ByTitle(a)) == Live(ByTitle(b)) { CanonicalUnique(DeclareAll(a), DeclareAll(b)); }
  }

  /** The reducer as it is written: fill a dictionary, drop empty reasons, sort by title. */
  method MergeSkips(left: seq<Skip>, right: seq<Skip>) returns (r: seq<Skip>)
    ensures r == Merge(left, right)
  {
    var byTitle: map<string, string> := map[];
    for i := 0 to |left|
      invariant byTitle == ByTitle(left[..i])
    {
      byTitle := byTitle[left[i].title := left[i].reason];
      assert left[..i + 1][..i] == left[..i];
    }
    assert left[..|left|] == left && left + right[..0] == left;
    for i := 0 to |right|
      invariant byTitle == ByTitle(left + right[..i])
    {
      byTitle := byTitle[right[i].title := right[i].reason];
      assert (left + right[..i + 1])[..|left| + i] == left + right[..i];
    }
    assert right[..|right|] == right;
    var titles := SortSet(set t | t in byTitle && byTitle[t] != "");
    assert forall i :: 0 <= i < |titles| ==> titles[i] in Elements(titles);
    r := seq(|titles|, i requires 0 <= i < |titles| => Skip(titles[i], byTitle[titles[i]]));
    ListedByTitle(byTitle, titles, r);
    DeclareAllMeaning(left + right);
    CanonicalUnique(r, Merge(left, right));
  }

  lemma ListedByTitle(byTitle: map<string, string>, titles: seq<string>, r: seq<Skip>)
    requires StrictlySorted(titles) && Elements(titles) == Live(byTitle).Keys && |r| == |titles|
    requires forall i :: 0 <= i < |r| ==> titles[i] in byTitle && r[i] == Skip(titles[i], byTitle[titles[i]])
    ensures Canonical(r) && ByTitle(r) == Live(byTitle)
  {
    hide ByTitle;
    assert Titles(r) == titles;
    forall i | 0 <= i < |r| ensures r[i].reason != "" {
      assert titles[i] in Elements(titles);
    }
    ByTitleKeys(r);
    forall t | t in ByTitle(r) ensures ByTitle(r)[t] == byTitle[t] {
      var i :| 0 <= i < |r| && Titles(r)[i] == t;
      ByTitleAt(r, i);
    }
  }
}
