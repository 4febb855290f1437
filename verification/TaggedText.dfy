/** Text with code-reference tags, as characters and tags. A tag is one atom: nothing here cuts through it. */
module TaggedText {
  import opened Strings
  import S = Sequences

  datatype Atom = Ch(c: char) | Ref(n: nat)

  type Text = seq<Atom>

  /** What a piece of text stands for once tags are replaced by code. */
  datatype Out = Char(c: char) | Code(code: string) | Dangling(n: nat)

  function Digits(n: nat): nat {
    if n < 10 then 1 else 1 + Digits(n / 10)
  }

  /** Length in characters; a tag is written `<code-ref-n>`. */
  function Len(t: Text): nat {
    if t == [] then 0 else (if t[0].Ch? then 1 else 11 + Digits(t[0].n)) + Len(t[1..])
  }

  function FromString(s: string): Text {
    seq(|s|, i requires 0 <= i < |s| => Ch(s[i]))
  }

  predicate IsBlankAtom(a: Atom) {
    a.Ch? && IsBlank(a.c)
  }

  predicate Blank(t: Text) {
    forall i :: 0 <= i < |t| ==> IsBlankAtom(t[i])
  }

  function StripText(t: Text): Text {
    if t == [] then []
    else if IsBlankAtom(t[0]) then StripText(t[1..])
    else if IsBlankAtom(t[|t| - 1]) then StripText(t[..|t| - 1])
    else t
  }

  /** The tag numbers in order of appearance. */
  function RefsOf(t: Text): seq<nat> {
    if t == [] then [] else (if t[0].Ref? then [t[0].n] else []) + RefsOf(t[1..])
  }

  function Upto(n: nat): (r: seq<nat>)
    ensures |r| == n && forall i :: 0 <= i < n ==> r[i] == i
  {
    seq(n, i => i)
  }

  lemma UptoStep(n: nat)
    ensures Upto(n + 1) == Upto(n) + [n]
  {}

  function OutOf(a: Atom, refs: seq<string>): Out {
    if a.Ch? then Char(a.c) else if a.n < |refs| then Code(refs[a.n]) else Dangling(a.n)
  }

  /** Non-blank characters and code, in order: the content of a text under a list of references. */
  function Content(t: Text, refs: seq<string>): seq<Out> {
    if t == [] then [] else (if IsBlankAtom(t[0]) then [] else [OutOf(t[0], refs)]) + Content(t[1..], refs)
  }

  function Flat(ts: seq<Text>): Text {
    if ts == [] then [] else ts[0] + Flat(ts[1..])
  }

  // ---- Laws ----

  lemma {:induction false} RefsConcat(a: Text, b: Text)
    ensures RefsOf(a + b) == RefsOf(a) + RefsOf(b)
  {
    if a == [] {
      assert a + b == b;
    } else {
      S.TailOfConcat(a, b);
      RefsConcat(a[1..], b);
      S.Assoc(if a[0].Ref? then [a[0].n] else [], RefsOf(a[1..]), RefsOf(b));
    }
  }

  lemma {:induction false} ContentConcat(a: Text, b: Text, refs: seq<string>)
    ensures Content(a + b, refs) == Content(a, refs) + Content(b, refs)
  {
    if a == [] {
      assert a + b == b;
    } else {
      assert (a + b)[1..] == a[1..] + b;
      ContentConcat(a[1..], b, refs);
    }
  }

  lemma {:induction false} FlatConcat(a: seq<Text>, b: seq<Text>)
    ensures Flat(a + b) == Flat(a) + Flat(b)
  {
    if a == [] {
      assert a + b == b;
    } else {
      assert (a + b)[1..] == a[1..] + b;
      FlatConcat(a[1..], b);
    }
  }

  lemma FlatOne(t: Text)
    ensures Flat([t]) == t
  {
    assert [t][1..] == [];
    assert t + [] == t;
  }

  /** Stripping changes neither content nor tags, and leaves nothing only of a blank text. */
  lemma {:induction false} StripKeeps(t: Text, refs: seq<string>)
    ensures Content(StripText(t), refs) == Content(t, refs)
    ensures RefsOf(StripText(t)) == RefsOf(t)
    ensures StripText(t) == [] <==> Blank(t)
    ensures StripText(t) != [] ==> !Blank(StripText(t))
    decreases |t|
  {
    if t != [] {
      var n := |t| - 1;
      if IsBlankAtom(t[0]) {
        StripKeeps(t[1..], refs);
        assert Blank(t) <==> Blank(t[1..]) by { assert t == [t[0]] + t[1..]; }
      } else if IsBlankAtom(t[n]) {
        StripKeeps(t[..n], refs);
        assert t == t[..n] + [t[n]];
        ContentConcat(t[..n], [t[n]], refs);
        RefsConcat(t[..n], [t[n]]);
        assert [t[n]][1..] == [];
        assert t[..n][0] == t[0];
      }
    }
  }

  /** Stripping takes the blanks off both ends, and nothing else. */
  lemma {:induction false} StripCuts(t: Text) returns (a: Text, b: Text)
    ensures t == a + StripText(t) + b && Blank(a) && Blank(b)
    ensures var r := StripText(t); r != [] ==> !IsBlankAtom(r[0]) && !IsBlankAtom(r[|r| - 1])
    decreases |t|
  {
    a, b := [], [];
    if t != [] {
      var n := |t| - 1;
      if IsBlankAtom(t[0]) {
        a, b := StripCuts(t[1..]);
        CutsLeft(t, a, StripText(t[1..]), b);
        a := [t[0]] + a;
      } else if IsBlankAtom(t[n]) {
        a, b := StripCuts(t[..n]);
        CutsRight(t, a, StripText(t[..n]), b);
        b := b + [t[n]];
      } else {
        S.Empty(t);
      }
    }
  }

  lemma CutsLeft(t: Text, a: Text, r: Text, b: Text)
    requires t != [] && IsBlankAtom(t[0]) && t[1..] == a + r + b && Blank(a)
    ensures t == [t[0]] + a + r + b && Blank([t[0]] + a)
  {
    S.HeadAndTail(t);
  }

  lemma CutsRight(t: Text, a: Text, r: Text, b: Text)
    requires t != [] && IsBlankAtom(t[|t| - 1]) && t[..|t| - 1] == a + r + b && Blank(b)
    ensures t == a + r + (b + [t[|t| - 1]]) && Blank(b + [t[|t| - 1]])
  {
    assert t == t[..|t| - 1] + [t[|t| - 1]];
  }

  lemma {:induction false} BlankHasNothing(t: Text, refs: seq<string>)
    ensures Blank(t) <==> Content(t, refs) == []
    ensures Blank(t) ==> RefsOf(t) == []
  {
    if t != [] {
      BlankHasNothing(t[1..], refs);
      assert t == [t[0]] + t[1..];
    }
  }

  /** The content depends only on the references the text uses. */
  lemma {:induction false} ContentAgrees(t: Text, a: seq<string>, b: seq<string>)
    requires forall i :: 0 <= i < |RefsOf(t)| ==> RefsOf(t)[i] < |a| && RefsOf(t)[i] < |b| && a[RefsOf(t)[i]] == b[RefsOf(t)[i]]
    ensures Content(t, a) == Content(t, b)
  {
    if t != [] {
      var tail := RefsOf(t[1..]);
      assert t[0].Ref? ==> RefsOf(t)[0] == t[0].n;
      forall i | 0 <= i < |tail| ensures tail[i] < |a| && tail[i] < |b| && a[tail[i]] == b[tail[i]] {
        assert RefsOf(t)[if t[0].Ref? then i + 1 else i] == tail[i];
      }
      ContentAgrees(t[1..], a, b);
    }
  }

  lemma {:induction false} PlainText(s: string)
    ensures RefsOf(FromString(s)) == []
  {
    if s != "" {
      assert FromString(s)[1..] == FromString(s[1..]);
      PlainText(s[1..]);
    }
  }
}
