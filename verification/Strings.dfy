/** The string operations the gates rely on: order by code points, sorting, and stripping blanks. */
module Strings {

  /** Strict lexicographic order. */
  predicate Less(a: string, b: string) {
    if b == [] then false
    else if a == [] then true
    else if a[0] != b[0] then a[0] < b[0]
    else Less(a[1..], b[1..])
  }

  /** The strings agree up to k, where a has the smaller code point. */
  predicate SmallerAt(a: string, b: string, k: nat) {
    k < |a| && k < |b| && a[..k] == b[..k] && a[k] < b[k]
  }

  lemma SmallerAtNext(a: string, b: string, k: nat)
    requires a != [] && b != [] && a[0] == b[0]
    ensures SmallerAt(a, b, k + 1) <==> SmallerAt(a[1..], b[1..], k)
  {
    if k < |a[1..]| && k < |b[1..]| {
      assert a[..k + 1] == [a[0]] + a[1..][..k] && b[..k + 1] == [b[0]] + b[1..][..k];
      assert a[1..][..k] == a[..k + 1][1..] && b[1..][..k] == b[..k + 1][1..];
    }
  }

  lemma PrefixNext(a: string, b: string)
    requires a != [] && b != [] && a[0] == b[0]
    ensures a < b <==> a[1..] < b[1..]
  {
    assert a == [a[0]] + a[1..] && b == [b[0]] + b[1..];
  }

  /** Where two strings first differ decides, by code point; a proper prefix comes first. */
  lemma {:induction false} LessIsLexicographic(a: string, b: string)
    ensures Less(a, b) <==> a < b || exists k: nat :: SmallerAt(a, b, k)
  {
    if a != [] && b != [] && a[0] == b[0] {
      LessIsLexicographic(a[1..], b[1..]);
      PrefixNext(a, b);
      forall k: nat ensures SmallerAt(a, b, k + 1) <==> SmallerAt(a[1..], b[1..], k) { SmallerAtNext(a, b, k); }
      assert !SmallerAt(a, b, 0);
      hide SmallerAt;
      if k: nat :| SmallerAt(a, b, k) {
        SmallerAtNext(a, b, k - 1);
        assert SmallerAt(a[1..], b[1..], k - 1);
      }
      if k: nat :| SmallerAt(a[1..], b[1..], k) { assert SmallerAt(a, b, k + 1); }
    } else if a != [] && b != [] && a[0] < b[0] {
      assert SmallerAt(a, b, 0);
    } else if a != [] && b != [] {
      assert forall k :: 0 < k < |a| && k < |b| ==> a[..k][0] == a[0] && b[..k][0] == b[0];
    }
  }

  lemma {:induction false} LessTransitive(a: string, b: string, c: string)
    requires Less(a, b) && Less(b, c)
    ensures Less(a, c)
  {
    if a != [] && a[0] == b[0] && b[0] == c[0] {
      LessTransitive(a[1..], b[1..], c[1..]);
    }
  }

  lemma {:induction false} LessTotal(a: string, b: string)
    ensures Less(a, b) || a == b || Less(b, a)
    ensures !(Less(a, b) && Less(b, a))
  {
    if a != [] && b != [] && a[0] == b[0] {
      LessTotal(a[1..], b[1..]);
      assert a == [a[0]] + a[1..] && b == [b[0]] + b[1..];
    }
  }

  lemma {:induction false} LessIrreflexive(a: string)
    ensures !Less(a, a)
  {
    LessTotal(a, a);
  }

  predicate StrictlySorted(ss: seq<string>) {
    forall i, j :: 0 <= i < j < |ss| ==> Less(ss[i], ss[j])
  }

  function Elements(ss: seq<string>): set<string> {
    set s | s in ss
  }

  /** A strictly sorted sequence is determined by its elements. */
  lemma {:induction false} SortedUnique(a: seq<string>, b: seq<string>)
    requires StrictlySorted(a) && StrictlySorted(b) && Elements(a) == Elements(b)
    ensures a == b
    decreases |a|
  {
    assert b != [] ==> b[0] in Elements(b);
    if a == [] {
    } else {
      assert a[0] in Elements(b);
      assert b[0] in Elements(a);
      FirstIsLeast(a, b[0]);
      FirstIsLeast(b, a[0]);
      LessTotal(a[0], b[0]);
      TailElements(a);
      TailElements(b);
      SortedUnique(a[1..], b[1..]);
      assert a == [a[0]] + a[1..] && b == [b[0]] + b[1..];
    }
  }

  lemma FirstIsLeast(a: seq<string>, s: string)
    requires StrictlySorted(a) && s in a
    ensures a[0] == s || Less(a[0], s)
  {}

  lemma TailElements(a: seq<string>)
    requires StrictlySorted(a) && a != []
    ensures StrictlySorted(a[1..]) && Elements(a[1..]) == Elements(a) - {a[0]}
  {
    forall s | s in a[1..] ensures s != a[0] {
      LessIrreflexive(s);
    }
    assert a == [a[0]] + a[1..];
  }

  /** Where s belongs in a sorted sequence. */
  function Insert(s: string, ss: seq<string>): (r: seq<string>) {
    if ss == [] || Less(s, ss[0]) then [s] + ss else [ss[0]] + Insert(s, ss[1..])
  }

  lemma {:induction false} InsertSorted(s: string, ss: seq<string>)
    requires StrictlySorted(ss) && s !in ss
    ensures StrictlySorted(Insert(s, ss)) && Elements(Insert(s, ss)) == Elements(ss) + {s}
  {
    if ss == [] {
    } else if Less(s, ss[0]) {
      forall j | 0 <= j < |ss| ensures Less(s, ss[j]) {
        if j > 0 { LessTransitive(s, ss[0], ss[j]); }
      }
    } else {
      TailElements(ss);
      InsertSorted(s, ss[1..]);
      LessTotal(s, ss[0]);
      var r := Insert(s, ss[1..]);
      forall j | 0 <= j < |r| ensures Less(ss[0], r[j]) {
        assert r[j] in Elements(ss[1..]) + {s};
      }
    }
  }

  /** Python's `sorted` on a set of strings. */
  method SortSet(s: set<string>) returns (r: seq<string>)
    ensures StrictlySorted(r) && Elements(r) == s
  {
    r := [];
    var left := s;
    while left != {}
      invariant left <= s && StrictlySorted(r) && Elements(r) == s - left
      decreases left
    {
      var x :| x in left;
      assert x !in Elements(r);
      InsertSorted(x, r);
      r := Insert(x, r);
      left := left - {x};
    }
  }

  /** Characters Python's `str.strip` removes. */
  predicate IsBlank(c: char) {
    var n := c as int;
    9 <= n <= 13 || 28 <= n <= 32 || n == 0x85 || n == 0xA0 || n == 0x1680 ||
    0x2000 <= n <= 0x200A || n == 0x2028 || n == 0x2029 || n == 0x202F || n == 0x205F || n == 0x3000
  }

  function StripLeft(s: string): string {
    if s != [] && IsBlank(s[0]) then StripLeft(s[1..]) else s
  }

  function StripRight(s: string): string {
    if s != [] && IsBlank(s[|s| - 1]) then StripRight(s[..|s| - 1]) else s
  }

  function Strip(s: string): string {
    StripRight(StripLeft(s))
  }

  predicate AllBlank(s: string) {
    forall i :: 0 <= i < |s| ==> IsBlank(s[i])
  }

  lemma {:induction false} StripLeftCuts(s: string) returns (a: string)
    ensures s == a + StripLeft(s) && AllBlank(a) && (StripLeft(s) != "" ==> !IsBlank(StripLeft(s)[0]))
  {
    a := "";
    if s != "" && IsBlank(s[0]) {
      a := StripLeftCuts(s[1..]);
      a := [s[0]] + a;
    }
  }

  lemma {:induction false} StripRightCuts(s: string) returns (b: string)
    ensures s == StripRight(s) + b && AllBlank(b) && (StripRight(s) != "" ==> !IsBlank(StripRight(s)[|StripRight(s)| - 1]))
  {
    b := "";
    if s != "" && IsBlank(s[|s| - 1]) {
      b := StripRightCuts(s[..|s| - 1]);
      b := b + [s[|s| - 1]];
    }
  }

  /** Stripping takes the blanks off both ends, and nothing else. */
  lemma StripTakesBlanksOff(s: string) returns (a: string, b: string)
    ensures s == a + Strip(s) + b && AllBlank(a) && AllBlank(b)
    ensures Strip(s) != "" ==> !IsBlank(Strip(s)[0]) && !IsBlank(Strip(s)[|Strip(s)| - 1])
  {
    a := StripLeftCuts(s);
    b := StripRightCuts(StripLeft(s));
    var r := Strip(s);
    assert StripLeft(s) == r + b;
    if r != "" { assert StripLeft(s)[0] == r[0]; }
  }

  // ---- Joining ----

  /** `' / '.join`. */
  function Join(parts: seq<string>): string {
    if parts == [] then "" else if |parts| == 1 then parts[0] else parts[0] + " / " + Join(parts[1..])
  }

  /** A joined list: each part as it is, and one separator between any two that follow one another. */
  lemma {:induction false} JoinSeparates(a: seq<string>, b: seq<string>, part: string)
    ensures Join([]) == "" && Join([part]) == part
    ensures a != [] && b != [] ==> Join(a + b) == Join(a) + " / " + Join(b)
  {
    if a != [] && b != [] {
      if |a| == 1 {
        assert a + b == [a[0]] + b && ([a[0]] + b)[1..] == b;
      } else {
        JoinSeparates(a[1..], b, part);
        assert (a + b)[1..] == a[1..] + b;
        assert a[0] + " / " + (Join(a[1..]) + " / " + Join(b)) == a[0] + " / " + Join(a[1..]) + " / " + Join(b);
      }
    }
  }
}
