/** Moving a text with code references from one reference list to another. */
module CodeRefs {
  import opened TaggedText

  /** The text while it is rewritten: placeholders stand where tags have been replaced. */
  datatype Piece = Kept(a: Atom) | Hole(id: nat)

  function FirstIndex(n: nat, ns: seq<nat>): (i: nat)
    ensures i <= |ns| && (i < |ns| <==> n in ns)
    ensures i < |ns| ==> ns[i] == n && n !in ns[..i]
  {
    if ns == [] then 0
    else if ns[0] == n then 0
    else
      var i := FirstIndex(n, ns[1..]) + 1;
      assert i < |ns| ==> ns[..i] == [ns[0]] + ns[1..][..i - 1];
      assert n in ns <==> n in ns[1..];
      i
  }

  /** Every tag is replaced by `base` plus the position of its first occurrence among all tag occurrences. */
  function Renamed(t: Text, base: nat): Text {
    var ns := RefsOf(t);
    seq(|t|, i requires 0 <= i < |t| => if t[i].Ref? then Ref(base + FirstIndex(t[i].n, ns)) else t[i])
  }

  /** The references appended: one per tag occurrence, in order. */
  function Moved(t: Text, refs: seq<string>): seq<string>
    requires InRange(t, refs)
  {
    var ns := RefsOf(t);
    seq(|ns|, i requires 0 <= i < |ns| => refs[ns[i]])
  }

  predicate InRange(t: Text, refs: seq<string>) {
    forall i :: 0 <= i < |RefsOf(t)| ==> RefsOf(t)[i] < |refs|
  }

  lemma {:induction false} RefsAppear(t: Text, i: nat)
    requires i < |t| && t[i].Ref?
    ensures t[i].n in RefsOf(t)
  {
    if i > 0 {
      RefsAppear(t[1..], i - 1);
    }
  }

  /** Replace one tag everywhere by a placeholder. */
  function ReplaceTag(ps: seq<Piece>, n: nat, id: nat): seq<Piece> {
    seq(|ps|, i requires 0 <= i < |ps| => if ps[i] == Kept(Ref(n)) then Hole(id) else ps[i])
  }

  /** The text after the tags of the first k occurrences have been replaced. */
  function Partly(t: Text, ns: seq<nat>): seq<Piece> {
    seq(|t|, i requires 0 <= i < |t| =>
      if t[i].Ref? && t[i].n in ns then Hole(FirstIndex(t[i].n, ns)) else Kept(t[i]))
  }

  lemma ReplaceNext(t: Text, ns: seq<nat>, n: nat)
    ensures ReplaceTag(Partly(t, ns), n, |ns|) == Partly(t, ns + [n])
  {
    forall i | 0 <= i < |t| ensures ReplaceTag(Partly(t, ns), n, |ns|)[i] == Partly(t, ns + [n])[i] {
      if t[i].Ref? {
        FirstIndexGrows(t[i].n, ns, n);
      }
    }
  }

  lemma {:induction false} FirstIndexGrows(m: nat, ns: seq<nat>, n: nat)
    ensures m in ns ==> FirstIndex(m, ns + [n]) == FirstIndex(m, ns)
    ensures m !in ns && m == n ==> FirstIndex(m, ns + [n]) == |ns|
  {
    if ns == [] {
    } else {
      assert (ns + [n])[1..] == ns[1..] + [n];
      FirstIndexGrows(m, ns[1..], n);
      assert ns == [ns[0]] + ns[1..];
    }
  }

  lemma NothingReplaced(t: Text)
    ensures Partly(t, []) == seq(|t|, i requires 0 <= i < |t| => Kept(t[i]))
  {}

  /** The placeholders of a completely replaced text, and what filling them in gives. */
  lemma HolesFill(t: Text, base: nat)
    ensures var ps := Partly(t, RefsOf(t));
            |ps| == |t| == |Renamed(t, base)| &&
            forall i :: 0 <= i < |t| ==>
              match ps[i]
              case Kept(a) => Renamed(t, base)[i] == a
              case Hole(id) => id < |RefsOf(t)| && Renamed(t, base)[i] == Ref(base + id)
    ensures RefsOf(t) == [] ==> Renamed(t, base) == t
  {
    forall i | 0 <= i < |t| && t[i].Ref? ensures t[i].n in RefsOf(t) {
      RefsAppear(t, i);
    }
  }

  lemma ContentAt(t: Text, u: Text, a: seq<string>, b: seq<string>)
    requires |t| == |u|
    requires forall i :: 0 <= i < |t| ==> IsBlankAtom(t[i]) == IsBlankAtom(u[i]) && OutOf(t[i], a) == OutOf(u[i], b)
    ensures Content(t, a) == Content(u, b)
  {
    if t != [] {
      ContentAt(t[1..], u[1..], a, b);
    }
  }

  /** Meaning is kept, for any tag order and any repetitions: the rewritten text under the extended list stands
      for what the original stood for under its own, and a text that was in range keeps its meaning. */
  lemma FixupKeepsMeaning(t: Text, refs: seq<string>, codeRefs: seq<string>, other: Text)
    requires InRange(t, refs)
    ensures Content(Renamed(t, |codeRefs|), codeRefs + Moved(t, refs)) == Content(t, refs)
    ensures InRange(Renamed(t, |codeRefs|), codeRefs + Moved(t, refs))
    ensures InRange(other, codeRefs) ==> Content(other, codeRefs + Moved(t, refs)) == Content(other, codeRefs)
  {
    var u := Renamed(t, |codeRefs|);
    var all := codeRefs + Moved(t, refs);
    forall i | 0 <= i < |t| ensures IsBlankAtom(t[i]) == IsBlankAtom(u[i]) && OutOf(t[i], refs) == OutOf(u[i], all) {
      AtomKeepsMeaning(t, i, refs, codeRefs);
    }
    ContentAt(u, t, all, refs);
    RenamedInRange(t, refs, codeRefs);
    if InRange(other, codeRefs) { ContentAgrees(other, all, codeRefs); }
    hide RefsOf, Renamed, Moved, Content, OutOf, IsBlankAtom;
  }

  lemma AtomKeepsMeaning(t: Text, i: nat, refs: seq<string>, codeRefs: seq<string>)
    requires InRange(t, refs) && i < |t|
    ensures var u := Renamed(t, |codeRefs|);
            IsBlankAtom(t[i]) == IsBlankAtom(u[i]) && OutOf(t[i], refs) == OutOf(u[i], codeRefs + Moved(t, refs))
  {
    if t[i].Ref? { RefsAppear(t, i); }
    hide RefsOf;
  }

  lemma RenamedInRange(t: Text, refs: seq<string>, codeRefs: seq<string>)
    requires InRange(t, refs)
    ensures InRange(Renamed(t, |codeRefs|), codeRefs + Moved(t, refs))
  {
    RenamedRefs(t, |codeRefs|);
    hide RefsOf, Renamed, FirstIndex;
  }

  lemma RenamedRefs(t: Text, base: nat)
    ensures var ns := RefsOf(t);
            RefsOf(Renamed(t, base)) == seq(|ns|, i requires 0 <= i < |ns| => base + FirstIndex(ns[i], ns))
    ensures forall i :: 0 <= i < |RefsOf(t)| ==> FirstIndex(RefsOf(t)[i], RefsOf(t)) < |RefsOf(t)|
  {
    RenamedRefsWithin(t, base, RefsOf(t));
  }

  lemma {:induction false} RenamedRefsWithin(t: Text, base: nat, ns: seq<nat>)
    ensures RefsOf(seq(|t|, i requires 0 <= i < |t| => if t[i].Ref? then Ref(base + FirstIndex(t[i].n, ns)) else t[i]))
            == seq(|RefsOf(t)|, i requires 0 <= i < |RefsOf(t)| => base + FirstIndex(RefsOf(t)[i], ns))
  {
    if t != [] {
      RenamedRefsWithin(t[1..], base, ns);
      var u := seq(|t|, i requires 0 <= i < |t| => if t[i].Ref? then Ref(base + FirstIndex(t[i].n, ns)) else t[i]);
      assert u[1..] == seq(|t| - 1, i requires 0 <= i < |t| - 1 =>
        if t[1..][i].Ref? then Ref(base + FirstIndex(t[1..][i].n, ns)) else t[1..][i]);
    }
  }

  predicate DistinctRefs(t: Text) {
    forall i, j :: 0 <= i < j < |RefsOf(t)| ==> RefsOf(t)[i] != RefsOf(t)[j]
  }

  /** Without repetitions the new tags are consecutive. */
  lemma DistinctAreConsecutive(t: Text, base: nat)
    requires DistinctRefs(t)
    ensures |RefsOf(Renamed(t, base))| == |RefsOf(t)|
    ensures forall i :: 0 <= i < |RefsOf(t)| ==> RefsOf(Renamed(t, base))[i] == base + i
  {
    RenamedRefs(t, base);
    forall i | 0 <= i < |RefsOf(t)| ensures FirstIndex(RefsOf(t)[i], RefsOf(t)) == i {
      FirstIndexAt(RefsOf(t), i);
    }
    hide RefsOf, Renamed, FirstIndex;
  }

  lemma FirstIndexAt(ns: seq<nat>, i: nat)
    requires i < |ns| && forall j, k :: 0 <= j < k < |ns| ==> ns[j] != ns[k]
    ensures FirstIndex(ns[i], ns) == i
  {
    var k := FirstIndex(ns[i], ns);
    assert forall j :: 0 <= j < k ==> ns[..k][j] == ns[j];
    hide FirstIndex;
  }
}
