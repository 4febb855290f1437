/** How long chunks get. The builder closes a chunk over the limit, so a chunk exceeds it by what came last, by a
    carried or overlong first sentence, and by the tags of its code blocks; nothing else. */
module ChunkSizes {
  import opened Wrappers
  import opened TaggedText
  import opened CodeRefs
  import opened Chunker
  import S = Sequences

  lemma {:induction false} LenConcat(a: Text, b: Text)
    ensures Len(a + b) == Len(a) + Len(b)
  {
    if a == [] {
      S.Empty(b);
    } else {
      S.TailOfConcat(a, b);
      LenConcat(a[1..], b);
    }
  }

  /** One sentence of some text, stripped, with blanks around; or nothing. */
  ghost predicate IsSentence(nlp: Text -> seq<Text>, t: Text) {
    t == [] || exists src, i, a, b :: 0 <= i < |nlp(src)| && Blank(a) && Blank(b) && t == a + StripText(nlp(src)[i]) + b
  }

  /** Code tags and line breaks. */
  predicate OnlyTags(t: Text) {
    forall i :: 0 <= i < |t| ==> t[i] == Ch('\n') || t[i].Ref?
  }

  /** A text of a first sentence or carried context, then at most the limit, then code tags. */
  ghost predicate PendingFits(cfg: Config, t: Text) {
    exists head, body, tags :: t == head + body + tags && Len(body) <= cfg.maxLength && OnlyTags(tags) &&
      (IsContext(cfg.nlp, head) || IsSentence(cfg.nlp, head))
  }

  /** A chunk of such a text and one more sentence. */
  ghost predicate ChunkFits(cfg: Config, chunk: Text) {
    exists t, last :: PendingFits(cfg, t) && IsSentence(cfg.nlp, last) && chunk == StripText(t + last)
  }

  /** A chunk that was closed because of its last sentence: over the limit with it, not over it before. */
  ghost predicate ClosedWhenFull(max: nat, ss: seq<Text>, chunk: Text) {
    exists before, s :: s in ss && Len(before) <= max && Len(before + StripText(s) + SPACE) > max &&
                        chunk == StripText(before + StripText(s) + SPACE)
  }

  // ---- Pending texts ----

  lemma NothingIsASentence(nlp: Text -> seq<Text>)
    ensures IsSentence(nlp, []) && IsContext(nlp, [])
  {}

  lemma WithinLimit(cfg: Config, t: Text)
    requires Len(t) <= cfg.maxLength
    ensures PendingFits(cfg, t)
  {
    NothingIsASentence(cfg.nlp);
    assert t == [] + t + [];
    assert OnlyTags([]);
  }

  lemma SentenceFits(cfg: Config, head: Text, body: Text)
    requires IsContext(cfg.nlp, head) || IsSentence(cfg.nlp, head)
    requires Len(body) <= cfg.maxLength
    ensures PendingFits(cfg, head + body)
  {
    assert head + body == head + body + [];
    assert OnlyTags([]);
  }

  lemma TagFits(cfg: Config, t: Text, n: nat)
    requires PendingFits(cfg, t)
    ensures PendingFits(cfg, t + [Ch('\n'), Ref(n)])
  {
    var head, body, tags :| t == head + body + tags && Len(body) <= cfg.maxLength && OnlyTags(tags) &&
      (IsContext(cfg.nlp, head) || IsSentence(cfg.nlp, head));
    var more := tags + [Ch('\n'), Ref(n)];
    assert OnlyTags(more);
    S.Assoc(head + body, tags, [Ch('\n'), Ref(n)]);
    assert t + [Ch('\n'), Ref(n)] == head + body + more;
    hide IsContext, IsSentence, Len;
  }

  lemma OneOf(cfg: Config, src: Text, s: Text)
    requires s in cfg.nlp(src)
    ensures IsSentence(cfg.nlp, StripText(s))
    ensures IsSentence(cfg.nlp, SPACE + StripText(s)) && IsSentence(cfg.nlp, StripText(s) + SPACE)
  {
    var i :| 0 <= i < |cfg.nlp(src)| && cfg.nlp(src)[i] == s;
    var l := StripText(s);
    assert IsBlankAtom(Ch(' '));
    assert Blank([]) && Blank(SPACE);
    assert [] + l + [] == l && SPACE + l + [] == SPACE + l && [] + l + SPACE == l + SPACE;
  }

  lemma PushedFits(cfg: Config, t: Text)
    requires PendingFits(cfg, t)
    ensures forall c :: c in Pushed(t) ==> ChunkFits(cfg, c)
  {
    NothingIsASentence(cfg.nlp);
    S.Empty(t);
    hide PendingFits;
  }

  // ---- The sentence loop of a new chunk ----

  /** What is left pending is within the limit, and every chunk was closed exactly when it got over it. */
  lemma {:induction false} FillCloses(ss: seq<Text>, max: nat)
    ensures Len(Fill(ss, max).rest) <= max
    ensures forall c :: c in Fill(ss, max).closed ==> ClosedWhenFull(max, ss, c)
  {
    if ss != [] {
      var init, s := ss[..|ss| - 1], ss[|ss| - 1];
      FillCloses(init, max);
      assert ss == init + [s];
      var f := Fill(init, max);
      forall c | c in f.closed ensures ClosedWhenFull(max, ss, c) {
        assert ClosedWhenFull(max, init, c);
      }
      hide ClosedWhenFull;
      ClosesNow(f.rest, s, ss, max);
    }
  }

  lemma ClosesNow(before: Text, s: Text, ss: seq<Text>, max: nat)
    requires s in ss && Len(before) <= max
    ensures var more := before + StripText(s) + SPACE; Len(more) > max ==> ClosedWhenFull(max, ss, StripText(more))
  {}

  lemma FullFits(cfg: Config, src: Text, chunk: Text)
    requires ClosedWhenFull(cfg.maxLength, cfg.nlp(src), chunk)
    ensures ChunkFits(cfg, chunk)
  {
    hide StripText, Len, PendingFits, IsSentence;
    var before, s :| s in cfg.nlp(src) && Len(before) <= cfg.maxLength && chunk == StripText(before + StripText(s) + SPACE);
    OneOf(cfg, src, s);
    WithinLimit(cfg, before);
    S.Assoc(before, StripText(s), SPACE);
  }

  /** A new chunk: what is pending is the context and less than the limit, or within the limit. Unless the text is
      long and unbreakable, which makes it one chunk, every chunk closed was closed when it got over the limit. */
  lemma StartedFits(cfg: Config, ctx: Text, newText: Text, unbreakable: bool)
    requires IsContext(cfg.nlp, ctx)
    ensures var f := Started(cfg, ctx, newText, unbreakable);
            PendingFits(cfg, f.rest) &&
            (!unbreakable || Len(newText) < cfg.maxLength ==> forall c :: c in f.closed ==> ChunkFits(cfg, c)) &&
            (unbreakable ==> |f.closed| <= 1)
  {
    if Len(newText) < cfg.maxLength {
      SentenceFits(cfg, ctx, newText);
    } else if unbreakable {
      WithinLimit(cfg, []);
    } else {
      var src := ctx + newText;
      FillCloses(cfg.nlp(src), cfg.maxLength);
      WithinLimit(cfg, Fill(cfg.nlp(src), cfg.maxLength).rest);
      forall c | c in Fill(cfg.nlp(src), cfg.maxLength).closed ensures ChunkFits(cfg, c) { FullFits(cfg, src, c); }
    }
    hide PendingFits, ChunkFits, Fill, ClosedWhenFull;
  }

  // ---- The sentence loop without a boundary ----

  /** A piece that was closed because of its last sentence. */
  ghost predicate PieceCloses(cfg: Config, piece: Text) {
    exists before, last :: PendingFits(cfg, before) && IsSentence(cfg.nlp, last) && piece == before + last &&
                           Len(piece) > cfg.maxLength
  }

  /** The last piece fits as pending text, the others were closed. */
  ghost predicate PiecesClose(cfg: Config, pieces: seq<Text>) {
    (pieces != [] ==> PendingFits(cfg, pieces[|pieces| - 1])) &&
    forall i :: 0 <= i < |pieces| - 1 ==> PieceCloses(cfg, pieces[i])
  }

  lemma OneMorePiece(cfg: Config, piece: Text, pieces: seq<Text>)
    requires PieceCloses(cfg, piece) && pieces != [] && PiecesClose(cfg, pieces)
    ensures PiecesClose(cfg, [piece] + pieces)
  {
    hide PieceCloses, PendingFits;
  }

  /** A sentence that takes the piece over the limit closes it and starts the next. */
  lemma PieceGrows(cfg: Config, src: Text, curr: Text, s: Text)
    requires PendingFits(cfg, curr) && s in cfg.nlp(src)
    ensures var l := StripText(s);
            var c := curr + SPACE + l;
            if Len(c) > cfg.maxLength then PieceCloses(cfg, c) && PendingFits(cfg, l) else PendingFits(cfg, c)
  {
    var l := StripText(s);
    var c := curr + SPACE + l;
    if Len(c) > cfg.maxLength {
      OneOf(cfg, src, s);
      hide *;
      AloneFits(cfg, l);
      S.Assoc(curr, SPACE, l);
      ClosesPiece(cfg, curr, SPACE + l);
    } else {
      WithinLimit(cfg, c);
    }
  }

  lemma AloneFits(cfg: Config, s: Text)
    requires IsSentence(cfg.nlp, s)
    ensures PendingFits(cfg, s)
  {
    SentenceFits(cfg, s, []);
    S.Empty(s);
    hide PendingFits, IsSentence;
  }

  lemma ClosesPiece(cfg: Config, before: Text, last: Text)
    requires PendingFits(cfg, before) && IsSentence(cfg.nlp, last) && Len(before + last) > cfg.maxLength
    ensures PieceCloses(cfg, before + last)
  {
    hide PendingFits, IsSentence, Len;
  }

  lemma {:induction false} PiecesFitLimit(cfg: Config, src: Text, ss: seq<Text>, curr: Text)
    requires PendingFits(cfg, curr) && forall s :: s in ss ==> s in cfg.nlp(src)
    ensures PiecesClose(cfg, Pieces(ss, curr, cfg.maxLength))
    decreases |ss|
  {
    hide StripText, Len, PendingFits, PieceCloses, PiecesClose;
    if ss == [] {
      PieceLeft(cfg, curr);
    } else {
      assert forall s :: s in ss[1..] ==> s in ss;
      var l := StripText(ss[0]);
      var c := curr + SPACE + l;
      if l == [] {
        PiecesFitLimit(cfg, src, ss[1..], curr);
      } else {
        PieceGrows(cfg, src, curr, ss[0]);
        if Len(c) > cfg.maxLength {
          PiecesFitLimit(cfg, src, ss[1..], l);
          NextPieceIsThere(ss[1..], l, cfg.maxLength);
          OneMorePiece(cfg, c, Pieces(ss[1..], l, cfg.maxLength));
        } else {
          PiecesFitLimit(cfg, src, ss[1..], c);
        }
      }
    }
  }

  lemma PieceLeft(cfg: Config, curr: Text)
    requires PendingFits(cfg, curr)
    ensures PiecesClose(cfg, []) && PiecesClose(cfg, [curr])
  {}

  lemma {:induction false} NextPieceIsThere(ss: seq<Text>, curr: Text, max: nat)
    requires curr != []
    ensures Pieces(ss, curr, max) != []
    decreases |ss|
  {
    if ss != [] && StripText(ss[0]) == [] { NextPieceIsThere(ss[1..], curr, max); }
    else if ss != [] && Len(curr + SPACE + StripText(ss[0])) <= max {
      NextPieceIsThere(ss[1..], curr + SPACE + StripText(ss[0]), max);
    }
  }

  lemma {:induction false} PushedPiecesFit(cfg: Config, pieces: seq<Text>)
    requires forall i :: 0 <= i < |pieces| ==> PieceCloses(cfg, pieces[i])
    ensures forall c :: c in PushedAll(pieces) ==> ChunkFits(cfg, c)
  {
    if pieces != [] {
      PushedPiecesFit(cfg, pieces[..|pieces| - 1]);
      assert PieceCloses(cfg, pieces[|pieces| - 1]);
      hide PendingFits, IsSentence;
    }
  }

  // ---- Appends ----

  /** An append may close one chunk of any length: unbreakable text at a boundary that is as long as the limit. */
  predicate Unbreakable(cfg: Config, a: Append) {
    a.isBoundary && a.unbreakable && Len(a.txt) >= cfg.maxLength
  }

  lemma CarriedText(cfg: Config, text: Text, codeRefs: seq<string>, a: Append)
    requires GoodSplitter(cfg.nlp) && TagsFit(text, codeRefs)
    ensures IsContext(cfg.nlp, ContextText(CarryOver(cfg, text, codeRefs, a)))
  {
    if CarryOver(cfg, text, codeRefs, a).Some? {
      CarryIsCarried(cfg, text, codeRefs, a);
      CarriedIsContext(cfg.nlp, CarryOver(cfg, text, codeRefs, a).value);
    } else {
      NothingIsASentence(cfg.nlp);
    }
  }

  /** Whatever is appended, the pending text fits afterwards, and so does every chunk closed, but for the one made
      of long unbreakable text. */
  lemma AppendedFits(cfg: Config, text: Text, codeRefs: seq<string>, a: Append)
    requires GoodSplitter(cfg.nlp) && TagsFit(text, codeRefs) && PendingFits(cfg, text)
    ensures var f := Appended(cfg, text, codeRefs, a);
            PendingFits(cfg, f.rest) &&
            (!Unbreakable(cfg, a) ==> forall c :: c in f.closed ==> ChunkFits(cfg, c)) &&
            (Unbreakable(cfg, a) ==> |Pushed(text)| <= |f.closed| <= |Pushed(text)| + 1 &&
                                     forall c :: c in f.closed[..|Pushed(text)|] ==> ChunkFits(cfg, c))
  {
    hide GoodSplitter, TagsFit, PendingFits, Pieces, Started, ChunkFits, PieceCloses, IsContext;
    if !Overflows(cfg, text, a.txt) {
      LenConcat(text, a.txt);
      WithinLimit(cfg, text + a.txt);
    } else if a.isBoundary {
      var ctx := ContextText(CarryOver(cfg, text, codeRefs, a));
      CarriedText(cfg, text, codeRefs, a);
      StartedFits(cfg, ctx, a.txt, a.unbreakable);
      PushedFits(cfg, text);
      var f := Started(cfg, ctx, a.txt, a.unbreakable);
      assert (Pushed(text) + f.closed)[..|Pushed(text)|] == Pushed(text);
      hide Pushed, CarryOver, ContextText;
    } else {
      var pieces := Pieces(cfg.nlp(a.txt), text, cfg.maxLength);
      PiecesFitLimit(cfg, a.txt, cfg.nlp(a.txt), text);
      if pieces != [] { PushedPiecesFit(cfg, pieces[..|pieces| - 1]); }
      hide PushedAll;
    }
  }
}
