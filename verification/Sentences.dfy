/** A sentence model that does split, at full stops, and meets all that the block builder assumes of one. */
module Sentences {
  import opened TaggedText
  import opened CodeRefs
  import opened Chunker
  import S = Sequences

  const STOP := Ch('.')

  /** Sentences end at a full stop. */
  function AtStops(t: Text): seq<Text> {
    if t == [] then []
    else
      var k := AtStops(t[1..]);
      if t[0] == STOP || k == [] then [[t[0]]] + k else [[t[0]] + k[0]] + k[1..]
  }

  /** A full stop at most at the end. */
  predicate StopsLast(t: Text) {
    forall i :: 0 <= i < |t| && t[i] == STOP ==> i == |t| - 1
  }

  lemma {:induction false} SentencesAreTheText(t: Text)
    ensures Flat(AtStops(t)) == t
  {
    if t != [] {
      SentencesAreTheText(t[1..]);
      S.HeadAndTail(t);
      var k := AtStops(t[1..]);
      if t[0] != STOP && k != [] {
        assert ([[t[0]] + k[0]] + k[1..])[1..] == k[1..];
        S.Assoc([t[0]], k[0], Flat(k[1..]));
      } else {
        assert ([[t[0]]] + k)[1..] == k;
      }
    }
  }

  lemma {:induction false} SentencesStopLast(t: Text)
    ensures forall i :: 0 <= i < |AtStops(t)| ==> StopsLast(AtStops(t)[i]) && AtStops(t)[i] != []
  {
    if t != [] { SentencesStopLast(t[1..]); }
  }

  lemma {:induction false} StripStopsLast(t: Text)
    requires StopsLast(t)
    ensures StopsLast(StripText(t))
    decreases |t|
  {
    if t != [] {
      assert !IsBlankAtom(STOP);
      if IsBlankAtom(t[0]) {
        assert forall i :: 0 <= i < |t[1..]| ==> t[1..][i] == t[i + 1];
        StripStopsLast(t[1..]);
      } else if IsBlankAtom(t[|t| - 1]) {
        StripStopsLast(t[..|t| - 1]);
      }
    }
  }

  /** In a text that starts with one sentence and goes on without tags, only the first sentence holds tags. */
  lemma {:induction false} TagsInFirst(u: Text, w: Text)
    requires StopsLast(u) && RefsOf(w) == []
    ensures forall j :: 1 <= j < |AtStops(u + w)| ==> RefsOf(AtStops(u + w)[j]) == []
  {
    if u == [] {
      S.Empty(w);
      TagFree(w);
    } else {
      S.TailOfConcat(u, w);
      assert forall i :: 0 <= i < |u[1..]| ==> u[1..][i] == u[i + 1];
      if u[0] == STOP {
        assert u[1..] == [];
        S.Empty(w);
        TagFree(w);
      }
      TagsInFirst(u[1..], w);
      var k := AtStops(u[1..] + w);
      hide RefsOf, StopsLast;
    }
  }

  lemma TagFree(w: Text)
    requires RefsOf(w) == []
    ensures forall j :: 0 <= j < |AtStops(w)| ==> RefsOf(AtStops(w)[j]) == []
  {
    SentencesAreTheText(w);
    forall j | 0 <= j < |AtStops(w)| ensures RefsOf(AtStops(w)[j]) == [] { PartsWithoutRefs(AtStops(w), j); }
  }

  lemma ContextStops(ctx: Text, t: Text)
    requires IsContext(AtStops, ctx) && RefsOf(t) == []
    ensures forall j :: 1 <= j < |AtStops(ctx + t)| ==> RefsOf(AtStops(ctx + t)[j]) == []
  {
    if ctx == [] {
      S.Empty(t);
      TagFree(t);
    } else {
      var s: Text, i, base, blank :|
        0 <= i < |AtStops(s)| && Blank(blank) && ctx == Renamed(StripText(AtStops(s)[i]), base) + blank;
      var u := Renamed(StripText(AtStops(s)[i]), base);
      SentencesStopLast(s);
      StripStopsLast(AtStops(s)[i]);
      BlankHasNothing(blank, []);
      RefsConcat(blank, t);
      S.Assoc(u, blank, t);
      TagsInFirst(u, blank + t);
    }
  }

  /** The assumptions on the sentence model hold of it. */
  lemma StopsMakeAGoodSplitter()
    ensures GoodSplitter(AtStops)
  {
    forall t ensures Flat(AtStops(t)) == t { SentencesAreTheText(t); }
    forall ctx, t | IsContext(AtStops, ctx) && RefsOf(t) == []
      ensures forall j :: 1 <= j < |AtStops(ctx + t)| ==> RefsOf(AtStops(ctx + t)[j]) == []
    {
      ContextStops(ctx, t);
    }
    hide RefsOf, Content, AtStops, IsContext;
  }

  /** It does split: the text up to a full stop is a sentence of its own. */
  lemma {:induction false} EachStopEndsASentence(a: Text, b: Text)
    requires STOP !in a
    ensures AtStops(a + [STOP] + b) == [a + [STOP]] + AtStops(b)
  {
    var t := a + [STOP] + b;
    S.TailOfConcat(a + [STOP], b);
    if a == [] {
      S.Empty([STOP]);
      S.Empty(b);
      assert [STOP][1..] == [];
    } else {
      S.TailOfConcat(a, [STOP]);
      EachStopEndsASentence(a[1..], b);
      assert a[0] in a;
      var k := AtStops(t[1..]);
      assert AtStops(t) == [[a[0]] + k[0]] + k[1..];
      hide AtStops;
      S.HeadAndTail(a);
      S.Assoc([a[0]], a[1..], [STOP]);
      var first := [a[1..] + [STOP]];
      S.TailOfConcat(first, AtStops(b));
      S.Empty(AtStops(b));
      assert first[1..] == [];
    }
  }
}
