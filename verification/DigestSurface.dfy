/** What the digest separates: when two states with equal digests must have the same test and the same skips, and
    families of states that share a digest without. */
module DigestSurface {
  import opened Wrappers
  import opened Strings
  import opened Skips
  import opened PublishGate
  import S = Sequences

  /** No reason has a colon. */
  predicate PlainReasons(ss: seq<Skip>) {
    forall i :: 0 <= i < |ss| ==> ':' !in ss[i].reason
  }

  lemma {:induction false} SkipTextSnoc(ss: seq<Skip>, s: Skip)
    ensures SkipText(ss + [s]) == SkipText(ss) + (s.title + ":" + s.reason)
  {
    if ss == [] {
      assert ([] + [s])[1..] == [];
      S.Empty(s.title + ":" + s.reason);
    } else {
      S.TailOfConcat(ss, [s]);
      SkipTextSnoc(ss[1..], s);
      S.Assoc(ss[0].title + ":" + ss[0].reason, SkipText(ss[1..]), s.title + ":" + s.reason);
    }
  }

  /** The last colon tells a text from a colon-free ending. */
  lemma LastColon(x: string, y: string, r: string, q: string)
    requires ':' !in r && ':' !in q && x + ":" + r == y + ":" + q
    ensures x == y && r == q
  {
    if |r| < |q| { ColonInside(x, y, r, q); }
    if |q| < |r| { ColonInside(y, x, q, r); }
    var a, b := x + ":" + r, y + ":" + q;
    assert x == a[..|x|] && y == b[..|y|];
    assert r == a[|x| + 1..] && q == b[|y| + 1..];
  }

  lemma ColonInside(x: string, y: string, r: string, q: string)
    requires x + ":" + r == y + ":" + q && |r| < |q|
    ensures ':' in q
  {
    var a, b := x + ":" + r, y + ":" + q;
    assert a[|x|] == ':';
    assert q[|x| - |y| - 1] == b[|x|];
  }

  lemma SameSuffix(x: string, y: string, t: string)
    requires x + t == y + t
    ensures x == y
  {
    assert x == (x + t)[..|x|] && y == (y + t)[..|y|];
  }

  /** With the same titles and plain reasons, the hashed text determines the test and every reason. */
  lemma {:induction false} SurfaceDetermines(x: string, y: string, a: seq<Skip>, b: seq<Skip>)
    requires Titles(a) == Titles(b) && PlainReasons(a) && PlainReasons(b)
    requires Surface(x, a) == Surface(y, b)
    ensures x == y && a == b
    decreases |a|
  {
    assert |a| == |Titles(a)| == |Titles(b)| == |b|;
    if a == [] {
      S.Empty(x);
      S.Empty(y);
    } else {
      var n := |a| - 1;
      assert a[n].title == Titles(a)[n] == Titles(b)[n] == b[n].title;
      var p, q := Surface(x, a[..n]), Surface(y, b[..n]);
      SurfaceSnoc(x, a);
      SurfaceSnoc(y, b);
      LastColon(p + a[n].title, q + b[n].title, a[n].reason, b[n].reason);
      SameSuffix(p, q, a[n].title);
      assert Titles(a[..n]) == Titles(a)[..n] == Titles(b)[..n] == Titles(b[..n]);
      SurfaceDetermines(x, y, a[..n], b[..n]);
      assert a == a[..n] + [a[n]] && b == b[..n] + [b[n]];
      hide Surface, Titles;
    }
  }

  lemma SurfaceSnoc(x: string, a: seq<Skip>)
    requires a != []
    ensures var n := |a| - 1; Surface(x, a) == Surface(x, a[..n]) + a[n].title + ":" + a[n].reason
  {
    var n := |a| - 1;
    var s := a[n];
    assert a == a[..n] + [s];
    SkipTextSnoc(a[..n], s);
    hide SkipText;
    S.Assoc(x, SkipText(a[..n]), s.title + ":" + s.reason);
    S.Assoc(Surface(x, a[..n]), s.title + ":", s.reason);
    S.Assoc(Surface(x, a[..n]), s.title, ":");
  }

  /** Without collisions, states with the same skipped titles and no colon in a reason have equal digests exactly
      when both their tests and their skips are equal. */
  lemma DigestSeparatesPlainReasons(cfg: Config, a: State, b: State)
    requires CollisionFree(cfg) && a.currTest.Some? && b.currTest.Some?
    requires Titles(a.skipped) == Titles(b.skipped) && PlainReasons(a.skipped) && PlainReasons(b.skipped)
    ensures DigestOf(cfg, a) == DigestOf(cfg, b) <==> a.currTest == b.currTest && a.skipped == b.skipped
  {
    if DigestOf(cfg, a) == DigestOf(cfg, b) {
      SurfaceDetermines(a.currTest.value, b.currTest.value, a.skipped, b.skipped);
    }
  }

  lemma TwoSkips(a: Skip, b: Skip)
    ensures SkipText([a, b]) == a.title + ":" + a.reason + (b.title + ":" + b.reason)
  {
    OneSkip(b);
    assert [a, b][1..] == [b];
  }

  lemma OneSkip(a: Skip)
    ensures SkipText([a]) == a.title + ":" + a.reason
  {
    assert [a][1..] == [];
    S.Empty(a.title + ":" + a.reason);
  }

  /** Both hypotheses are needed. Titles: one skip can pass for two, for any title and reason whatever. */
  lemma OneSkipPassesForTwo(cfg: Config, st: State, a: string, b: string, c: string, d: string)
    ensures DigestOf(cfg, st.(skipped := [Skip(a, b + c + ":" + d)])) == DigestOf(cfg, st.(skipped := [Skip(a, b), Skip(c, d)]))
  {
    OneSkip(Skip(a, b + c + ":" + d));
    TwoSkips(Skip(a, b), Skip(c, d));
    assert a + ":" + (b + c + ":" + d) == a + ":" + b + (c + ":" + d);
  }

  /** Titles again, with as many skips and plain reasons: the end of a reason can pass for the start of a title. */
  lemma ReasonPassesForTitle(cfg: Config, st: State, a: string, b: string, x: string, c: string, d: string)
    ensures DigestOf(cfg, st.(skipped := [Skip(a, b + x), Skip(c, d)])) ==
            DigestOf(cfg, st.(skipped := [Skip(a, b), Skip(x + c, d)]))
  {
    TwoSkips(Skip(a, b + x), Skip(c, d));
    TwoSkips(Skip(a, b), Skip(x + c, d));
    assert a + ":" + (b + x) + (c + ":" + d) == a + ":" + b + (x + c + ":" + d);
  }

  /** Colons: with the same two titles, a reason that quotes the second title can be cut in two ways. */
  lemma ColonMovesBetweenReasons(cfg: Config, st: State, a: string, b: string, c: string, d: string, e: string)
    ensures DigestOf(cfg, st.(skipped := [Skip(a, b), Skip(c, d + c + ":" + e)])) ==
            DigestOf(cfg, st.(skipped := [Skip(a, b + c + ":" + d), Skip(c, e)]))
  {
    TwoSkips(Skip(a, b), Skip(c, d + c + ":" + e));
    TwoSkips(Skip(a, b + c + ":" + d), Skip(c, e));
    assert a + ":" + b + (c + ":" + (d + c + ":" + e)) == a + ":" + (b + c + ":" + d) + (c + ":" + e);
  }

  /** So after the certifications a further property can be skipped with the gate still open: two declarations
      turn one certified skip into two. */
  lemma SkippedAfterCertification(cfg: Config, st: State, a: string, b: string, c: string, d: string)
    requires st.skipped == [Skip(a, b + c + ":" + d)] && a in cfg.titles && c in cfg.titles && Less(a, c)
    requires Strip(b) != "" && Strip(d) != "" && b != "" && d != ""
    ensures var now := Fold(cfg, [RecordSkip(a, b), RecordSkip(c, d)], st);
            now.skipped == [Skip(a, b), Skip(c, d)] && CheckCompletion(cfg, now) == CheckCompletion(cfg, st)
  {
    var was := b + c + ":" + d;
    MergeRecords(a, b, c, d, was);
    OneSkipPassesForTwo(cfg, st, a, b, c, d);
    hide SkipText, Strip, Merge, MergeExpected;
    FoldTwo(cfg, RecordSkip(a, b), RecordSkip(c, d), st);
    var one := Reduce(st, Run(cfg, RecordSkip(a, b), st));
    assert st.validations + map[] == st.validations;
    assert one.skipped == Merge([Skip(a, was)], [Skip(a, b)]);
  }

  lemma FoldTwo(cfg: Config, x: Call, y: Call, st: State)
    ensures Fold(cfg, [x, y], st) == Reduce(Reduce(st, Run(cfg, x, st)), Run(cfg, y, st))
  {
    assert [x, y][..1] == [x];
    FoldOne(cfg, x, st);
  }

  lemma MergeRecords(a: string, b: string, c: string, d: string, was: string)
    requires Less(a, c) && b != "" && d != ""
    ensures Merge(Merge([Skip(a, was)], [Skip(a, b)]), [Skip(c, d)]) == [Skip(a, b), Skip(c, d)]
  {
    LessTotal(a, c);
    LessIrreflexive(a);
    MergeIsAnAction([Skip(a, was)], [Skip(a, b)], [Skip(c, d)]);
    var all := [Skip(a, was), Skip(a, b), Skip(c, d)];
    assert [Skip(a, was)] + ([Skip(a, b)] + [Skip(c, d)]) == all;
    assert all[..2] == [Skip(a, was), Skip(a, b)] && all[..2][..1] == [Skip(a, was)] && all[..2][..1][..0] == [];
    var first := DeclareAll([Skip(a, was)]);
    assert DeclareAll([]) == [];
    assert [Skip(a, was)][..0] == [];
    assert first == if was == "" then [] else [Skip(a, was)];
    assert DeclareAll(all[..2]) == Declare(first, Skip(a, b)) == [Skip(a, b)];
    assert [Skip(a, b)][1..] == [];
    assert Declare([Skip(a, b)], Skip(c, d)) == [Skip(a, b)] + [Skip(c, d)];
  }
}
