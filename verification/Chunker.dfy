/** The block builder: text and code are appended, chunks are split off, and a sentence may be carried over as
    context. */
module Chunker {
  import opened Wrappers
  import opened Strings
  import opened TaggedText
  import opened CodeRefs
  import opened Fixup
  import S = Sequences

  datatype Chunk = Chunk(headers: seq<string>, part: nat, codeRefs: seq<string>, chunk: Text)

  /** The sentence model and the size limit. */
  datatype Config = Config(nlp: Text -> seq<Text>, maxLength: nat)

  const SPACE := [Ch(' ')]
  const NEWLINE := [Ch('\n')]

  /** All that is assumed of the sentence model: its sentences hold the non-blank content of the text in
      order; and a text made of one of its own sentences, a space, and text without tags keeps the tags within
      its first non-blank sentence. */
  ghost predicate GoodSplitter(nlp: Text -> seq<Text>) {
    (forall t, refs :: Content(Flat(nlp(t)), refs) == Content(t, refs)) &&
    (forall t :: RefsOf(Flat(nlp(t))) == RefsOf(t)) &&
    (forall ctx, t, i, j :: IsContext(nlp, ctx) && RefsOf(t) == [] && 0 <= i < j < |nlp(ctx + t)| && !Blank(nlp(ctx + t)[i])
       ==> RefsOf(nlp(ctx + t)[j]) == [])
  }

  /** Context: nothing, or a stripped sentence with its tags renumbered, and a blank. */
  ghost predicate IsContext(nlp: Text -> seq<Text>, ctx: Text) {
    ctx == [] ||
    exists t, i, base, blank :: 0 <= i < |nlp(t)| && Blank(blank) && ctx == Renamed(StripText(nlp(t)[i]), base) + blank
  }

  /** The last non-blank sentence, stripped. */
  function LastSentence(ss: seq<Text>): Option<Text> {
    if ss == [] then None
    else if !Blank(ss[|ss| - 1]) then Some(StripText(ss[|ss| - 1]))
    else LastSentence(ss[..|ss| - 1])
  }

  /** Tags are exactly 0, 1, 2, ... once each in order, one per reference; a blank text has no references. */
  predicate TagsFit(t: Text, codeRefs: seq<string>) {
    RefsOf(t) == Upto(|codeRefs|)
  }

  predicate ChunksFit(headers: seq<string>, chunks: seq<Chunk>) {
    forall i :: 0 <= i < |chunks| ==>
      chunks[i].part == i && chunks[i].headers == headers && !Blank(chunks[i].chunk) &&
      TagsFit(chunks[i].chunk, chunks[i].codeRefs)
  }

  /** What a list of chunks stands for. */
  function ChunksContent(chunks: seq<Chunk>): seq<Out> {
    if chunks == [] then []
    else
      var last := chunks[|chunks| - 1];
      ChunksContent(chunks[..|chunks| - 1]) + Content(last.chunk, last.codeRefs)
  }

  // ---- Facts about texts with fitting tags ----

  lemma FitsInRange(t: Text, codeRefs: seq<string>)
    requires TagsFit(t, codeRefs)
    ensures InRange(t, codeRefs) && DistinctRefs(t)
    ensures Blank(t) ==> codeRefs == []
  {
    if Blank(t) { BlankHasNothing(t, codeRefs); }
  }

  lemma RefFreeContent(t: Text, a: seq<string>, b: seq<string>)
    requires RefsOf(t) == []
    ensures Content(t, a) == Content(t, b)
  {
    ContentAgrees(t, a, b);
  }

  lemma BlankEnd(t: Text, blank: Text, refs: seq<string>)
    requires Blank(blank)
    ensures Content(t + blank, refs) == Content(t, refs) && RefsOf(t + blank) == RefsOf(t)
  {
    ContentConcat(t, blank, refs);
    RefsConcat(t, blank);
    BlankHasNothing(blank, refs);
  }

  /** The sentences of a text without tags have none. */
  lemma {:induction false} PartsWithoutRefs(ss: seq<Text>, i: nat)
    requires RefsOf(Flat(ss)) == [] && i < |ss|
    ensures RefsOf(ss[i]) == []
  {
    RefsConcat(ss[0], Flat(ss[1..]));
    if i > 0 { PartsWithoutRefs(ss[1..], i - 1); }
  }

  /** It is there unless all are blank, and only blank ones come after it. */
  lemma {:induction false} LastSentenceIsOne(ss: seq<Text>)
    ensures LastSentence(ss).None? <==> forall i :: 0 <= i < |ss| ==> Blank(ss[i])
    ensures LastSentence(ss).Some? ==>
              exists i :: 0 <= i < |ss| && LastSentence(ss).value == StripText(ss[i]) && !Blank(ss[i]) &&
                          forall j :: i < j < |ss| ==> Blank(ss[j])
  {
    if ss != [] && Blank(ss[|ss| - 1]) {
      var init := ss[..|ss| - 1];
      LastSentenceIsOne(init);
      assert forall i :: 0 <= i < |init| ==> ss[i] == init[i];
      if LastSentence(init).Some? {
        var i :| 0 <= i < |init| && LastSentence(init).value == StripText(init[i]) && !Blank(init[i]) &&
                 forall j :: i < j < |init| ==> Blank(init[j]);
        assert ss[i] == init[i];
      }
    }
  }

  lemma {:induction false} SentenceRefs(ss: seq<Text>, i: nat) returns (a: seq<nat>, b: seq<nat>)
    requires i < |ss|
    ensures RefsOf(Flat(ss)) == a + RefsOf(ss[i]) + b
  {
    RefsConcat(ss[0], Flat(ss[1..]));
    if i == 0 {
      a, b := [], RefsOf(Flat(ss[1..]));
      S.Empty(RefsOf(ss[0]));
    } else {
      a, b := SentenceRefs(ss[1..], i - 1);
      S.Assoc(RefsOf(ss[0]), a, RefsOf(ss[i]));
      S.Assoc(RefsOf(ss[0]), a + RefsOf(ss[i]), b);
      a := RefsOf(ss[0]) + a;
    }
  }

  /** The tags of one sentence of a fitting text are in range and distinct. */
  lemma SentenceFits(nlp: Text -> seq<Text>, t: Text, codeRefs: seq<string>, i: nat)
    requires GoodSplitter(nlp) && TagsFit(t, codeRefs) && i < |nlp(t)|
    ensures InRange(StripText(nlp(t)[i]), codeRefs) && DistinctRefs(StripText(nlp(t)[i]))
    ensures InRange(nlp(t)[i], codeRefs) && DistinctRefs(nlp(t)[i])
  {
    var ss := nlp(t);
    StripKeeps(ss[i], codeRefs);
    var a, b := SentenceRefs(ss, i);
    var rs := RefsOf(ss[i]);
    forall k | 0 <= k < |rs| ensures rs[k] == |a| + k && rs[k] < |codeRefs| {
      assert (a + rs + b)[|a| + k] == rs[k];
      assert Upto(|codeRefs|)[|a| + k] == |a| + k;
    }
  }

  lemma {:induction false} BlankFlat(ss: seq<Text>, refs: seq<string>)
    requires forall j :: 0 <= j < |ss| ==> Blank(ss[j])
    ensures RefsOf(Flat(ss)) == [] && Content(Flat(ss), refs) == []
  {
    if ss != [] {
      BlankFlat(ss[1..], refs);
      BlankHasNothing(ss[0], refs);
      RefsConcat(ss[0], Flat(ss[1..]));
      ContentConcat(ss[0], Flat(ss[1..]), refs);
    }
  }

  lemma {:induction false} RefFreeFlat(ss: seq<Text>)
    requires forall j :: 0 <= j < |ss| ==> RefsOf(ss[j]) == []
    ensures RefsOf(Flat(ss)) == []
  {
    if ss != [] {
      RefFreeFlat(ss[1..]);
      RefsConcat(ss[0], Flat(ss[1..]));
    }
  }

  /** When all tags lie in the first non-blank sentence, that sentence has them all. */
  lemma FirstHoldsAll(ss: seq<Text>, i: nat)
    requires i < |ss| && (forall j :: 0 <= j < i ==> Blank(ss[j]))
    requires forall j :: i < j < |ss| ==> RefsOf(ss[j]) == []
    ensures RefsOf(ss[i]) == RefsOf(Flat(ss))
  {
    hide RefsOf, Flat, Blank;
    BlankFlat(ss[..i], []);
    RefFreeFlat(ss[i + 1..]);
    FlatNext(ss, i, []);
    assert ss == ss[..i + 1] + ss[i + 1..];
    FlatConcat(ss[..i + 1], ss[i + 1..]);
    RefsConcat(Flat(ss[..i + 1]), Flat(ss[i + 1..]));
    assert forall r: seq<nat> :: [] + r == r && r + [] == r;
  }

  /** Content of one more sentence. */
  lemma FlatNext(ss: seq<Text>, i: nat, refs: seq<string>)
    requires i < |ss|
    ensures Content(Flat(ss[..i + 1]), refs) == Content(Flat(ss[..i]), refs) + Content(ss[i], refs)
    ensures RefsOf(Flat(ss[..i + 1])) == RefsOf(Flat(ss[..i])) + RefsOf(ss[i])
  {
    assert ss[..i + 1] == ss[..i] + [ss[i]];
    FlatConcat(ss[..i], [ss[i]]);
    FlatOne(ss[i]);
    ContentConcat(Flat(ss[..i]), ss[i], refs);
    RefsConcat(Flat(ss[..i]), ss[i]);
  }

  /** Appending a stripped sentence and a separator on either side. */
  lemma AddSentence(t: Text, s: Text, refs: seq<string>)
    ensures Content(t + StripText(s) + SPACE, refs) == Content(t, refs) + Content(s, refs)
    ensures Content(t + SPACE + StripText(s), refs) == Content(t, refs) + Content(s, refs)
    ensures RefsOf(t + StripText(s) + SPACE) == RefsOf(t) + RefsOf(s)
    ensures RefsOf(t + SPACE + StripText(s)) == RefsOf(t) + RefsOf(s)
  {
    StripKeeps(s, refs);
    ContentConcat(t, StripText(s), refs);
    RefsConcat(t, StripText(s));
    BlankEnd(t + StripText(s), SPACE, refs);
    BlankEnd(t, SPACE, refs);
    ContentConcat(t + SPACE, StripText(s), refs);
    RefsConcat(t + SPACE, StripText(s));
  }

  lemma ContentOfNextChunk(chunks: seq<Chunk>, c: Chunk)
    ensures ChunksContent(chunks + [c]) == ChunksContent(chunks) + Content(c.chunk, c.codeRefs)
  {
    assert (chunks + [c])[..|chunks|] == chunks;
  }

  function CarriedContent(context: Option<InitContext>): seq<Out> {
    if context.None? then [] else Content(context.value.context, context.value.codes)
  }

  lemma NothingCarried()
    ensures CarriedContent(None) == []
  {}

  lemma AppendedPlain(t: Text, refs: seq<string>, plain: Text)
    requires RefsOf(plain) == []
    ensures Content(t + plain, refs) == Content(t, refs) + Content(plain, []) && RefsOf(t + plain) == RefsOf(t)
  {
    ContentConcat(t, plain, refs);
    RefsConcat(t, plain);
    RefFreeContent(plain, refs, []);
  }

  lemma SentencesOfPlain(nlp: Text -> seq<Text>, txt: Text)
    requires GoodSplitter(nlp) && RefsOf(txt) == []
    ensures forall i :: 0 <= i < |nlp(txt)| ==> RefsOf(nlp(txt)[i]) == []
    ensures (forall i :: 0 <= i < |nlp(txt)| ==> Blank(nlp(txt)[i])) <==> Blank(txt)
  {
    var ss := nlp(txt);
    forall i | 0 <= i < |ss| ensures RefsOf(ss[i]) == [] { PartsWithoutRefs(ss, i); }
    BlankHasNothing(txt, []);
    BlankParts(ss);
  }

  lemma {:induction false} BlankParts(ss: seq<Text>)
    ensures (forall i :: 0 <= i < |ss| ==> Blank(ss[i])) <==> Content(Flat(ss), []) == []
  {
    if ss != [] {
      BlankParts(ss[1..]);
      BlankHasNothing(ss[0], []);
      ContentConcat(ss[0], Flat(ss[1..]), []);
      assert forall i :: 0 < i < |ss| ==> ss[i] == ss[1..][i - 1];
      assert forall i :: 0 <= i < |ss[1..]| ==> ss[1..][i] == ss[i + 1];
    }
  }

  lemma NoContent()
    ensures Blank([]) && RefsOf([]) == [] && forall refs :: Content([], refs) == []
  {}

  lemma EmptyIsContext(nlp: Text -> seq<Text>)
    ensures IsContext(nlp, [])
  {}

  /** The assumptions on the sentence model, for one context. */
  lemma SplitterOn(nlp: Text -> seq<Text>, ctx: Text, t: Text, refs: seq<string>)
    requires GoodSplitter(nlp) && IsContext(nlp, ctx) && RefsOf(t) == []
    ensures var ss := nlp(ctx + t);
            Content(Flat(ss), refs) == Content(ctx + t, refs) && RefsOf(Flat(ss)) == RefsOf(ctx + t) &&
            forall i, j :: 0 <= i < j < |ss| && !Blank(ss[i]) ==> RefsOf(ss[j]) == []
  {}

  /** A tag for a new code block at the end of the text. */
  lemma TagAppended(text: Text, refs: seq<string>, code: string)
    requires TagsFit(text, refs)
    ensures var more, moreRefs := text + [Ch('\n'), Ref(|refs|)], refs + [code];
            TagsFit(more, moreRefs) && Content(more, moreRefs) == Content(text, refs) + [Code(code)]
  {
    var tag := [Ch('\n'), Ref(|refs|)];
    TagContent(|refs|, refs + [code]);
    RefsConcat(text, tag);
    ContentConcat(text, tag, refs + [code]);
    FitsInRange(text, refs);
    ContentAgrees(text, refs, refs + [code]);
    UptoStep(|refs|);
    hide Content, RefsOf, Upto;
  }

  lemma TagContent(n: nat, refs: seq<string>)
    ensures RefsOf([Ch('\n'), Ref(n)]) == [n]
    ensures n < |refs| ==> Content([Ch('\n'), Ref(n)], refs) == [Code(refs[n])]
  {
    var tag := [Ch('\n'), Ref(n)];
    assert tag[1..] == [Ref(n)] && [Ref(n)][1..] == [];
    assert RefsOf([Ref(n)]) == [n] + RefsOf([]);
    assert Content([Ref(n)], refs) == [OutOf(Ref(n), refs)] + Content([], refs);
    assert IsBlankAtom(Ch('\n'));
  }

  lemma RenamedBlankEnd(s: Text, blank: Text, base: nat)
    requires Blank(blank)
    ensures Renamed(s + blank, base) == Renamed(s, base) + blank
  {
    BlankEnd(s, blank, []);
  }

  /** Carried-over context, as handed to a new chunk. */
  datatype InitContext = InitContext(codes: seq<string>, context: Text)

  /** The context is one of the model's sentences, stripped, perhaps with blanks after it. */
  ghost predicate IsCarried(nlp: Text -> seq<Text>, c: InitContext) {
    InRange(c.context, c.codes) && DistinctRefs(c.context) &&
    exists t, i, blank :: 0 <= i < |nlp(t)| && Blank(blank) && c.context == StripText(nlp(t)[i]) + blank
  }

  lemma CarriedIsContext(nlp: Text -> seq<Text>, c: InitContext)
    requires IsCarried(nlp, c)
    ensures IsContext(nlp, Renamed(c.context, 0) + SPACE)
  {
    hide Renamed, StripText, RefsOf;
    var t, i, blank :| 0 <= i < |nlp(t)| && Blank(blank) && c.context == StripText(nlp(t)[i]) + blank;
    RenamedBlankEnd(StripText(nlp(t)[i]), blank, 0);
    assert Renamed(StripText(nlp(t)[i]), 0) + blank + SPACE == Renamed(StripText(nlp(t)[i]), 0) + (blank + SPACE);
    assert IsBlankAtom(Ch(' '));
    assert Blank(blank + SPACE);
  }

  /** What the rewritten context looks like at the head of a fresh chunk. */
  lemma ContextFits(c: InitContext, newText: Text)
    requires InRange(c.context, c.codes) && DistinctRefs(c.context) && RefsOf(newText) == []
    ensures var ctx := Renamed(c.context, 0) + SPACE;
            var refs := [] + Moved(c.context, c.codes);
            TagsFit(ctx + newText, refs) &&
            Content(ctx + newText, refs) == Content(c.context, c.codes) + Content(newText, [])
  {
    var r := Renamed(c.context, 0);
    var refs := [] + Moved(c.context, c.codes);
    DistinctAreConsecutive(c.context, 0);
    assert RefsOf(r) == Upto(|refs|);
    FixupKeepsMeaning(c.context, c.codes, [], []);
    BlankEnd(r, SPACE, refs);
    RefsConcat(r + SPACE, newText);
    ContentConcat(r + SPACE, newText, refs);
    RefFreeContent(newText, refs, []);
  }

  // ---- Pieces of a long text ----

  /** Sentences fill up a piece; one that exceeds the limit closes the piece and also begins the next. */
  function Pieces(ss: seq<Text>, curr: Text, max: nat): seq<Text> {
    if ss == [] then (if curr == [] then [] else [curr])
    else if StripText(ss[0]) == [] then Pieces(ss[1..], curr, max)
    else
      var l := StripText(ss[0]);
      var c := curr + SPACE + l;
      if Len(c) > max then [c] + Pieces(ss[1..], l, max) else Pieces(ss[1..], c, max)
  }

  /** The content the pieces add to the text they start from: every sentence once, and once more where a piece
      was closed with it. */
  function Spread(ss: seq<Text>, curr: Text, max: nat): seq<Out> {
    if ss == [] then []
    else if StripText(ss[0]) == [] then Spread(ss[1..], curr, max)
    else
      var l := StripText(ss[0]);
      var c := curr + SPACE + l;
      Content(l, []) + if Len(c) > max then Content(l, []) + Spread(ss[1..], l, max) else Spread(ss[1..], c, max)
  }

  /** The first piece has all the tags, the others none. */
  predicate PiecesFit(pieces: seq<Text>, tags: seq<nat>) {
    forall i :: 0 <= i < |pieces| ==> RefsOf(pieces[i]) == if i == 0 then tags else []
  }

  lemma {:induction false} PiecesContent(ss: seq<Text>, curr: Text, max: nat, refs: seq<string>)
    requires forall i :: 0 <= i < |ss| ==> RefsOf(ss[i]) == []
    ensures Content(Flat(Pieces(ss, curr, max)), refs) == Content(curr, refs) + Spread(ss, curr, max)
    ensures PiecesFit(Pieces(ss, curr, max), RefsOf(curr))
    ensures Pieces(ss, curr, max) == [] <==> curr == [] && forall i :: 0 <= i < |ss| ==> Blank(ss[i])
  {
    hide StripText, Flat, Content, RefsOf, Len;
    NoContent();
    assert forall x: seq<Out> :: x + [] == x && [] + x == x;
    if ss == [] {
      FlatOne(curr);
      NothingFlat();
    } else {
      var l := StripText(ss[0]);
      StripKeeps(ss[0], refs);
      if l == [] {
        PiecesContent(ss[1..], curr, max, refs);
        assert forall i :: 0 < i < |ss| ==> ss[i] == ss[1..][i - 1];
      } else {
        var c := curr + SPACE + l;
        AddSentence(curr, ss[0], refs);
        StripKeeps(ss[0], []);
        RefFreeContent(l, refs, []);
        assert RefsOf(c) == RefsOf(curr) by { assert RefsOf(curr) + [] == RefsOf(curr); }
        if Len(c) > max {
          PiecesContent(ss[1..], l, max, refs);
          FlatConcat([c], Pieces(ss[1..], l, max));
          FlatOne(c);
          ContentConcat(c, Flat(Pieces(ss[1..], l, max)), refs);
          S.Assoc(Content(curr, refs), Content(l, []), Content(l, []) + Spread(ss[1..], l, max));
        } else {
          PiecesContent(ss[1..], c, max, refs);
          S.Assoc(Content(curr, refs), Content(l, []), Spread(ss[1..], c, max));
        }
      }
    }
  }

  lemma NothingFlat()
    ensures Flat([]) == []
  {}

  lemma PieceStep(ss: seq<Text>, i: nat, curr: Text, max: nat)
    requires i < |ss|
    ensures Pieces(ss[i..], curr, max) ==
            var l := StripText(ss[i]);
            if l == [] then Pieces(ss[i + 1..], curr, max)
            else
              var c := curr + SPACE + l;
              if Len(c) > max then [c] + Pieces(ss[i + 1..], l, max) else Pieces(ss[i + 1..], c, max)
  {
    assert ss[i..][0] == ss[i] && ss[i..][1..] == ss[i + 1..];
  }

  lemma PiecesEnd(ss: seq<Text>, curr: Text, max: nat)
    ensures Pieces(ss[|ss|..], curr, max) == if curr == [] then [] else [curr]
  {}

  // ---- Subsequences ----

  /** The elements of b selected by a mask. */
  function Pick(b: seq<Out>, mask: seq<bool>): seq<Out>
    requires |mask| == |b|
  {
    if b == [] then [] else (if mask[0] then [b[0]] else []) + Pick(b[1..], mask[1..])
  }

  /** a occurs in b, in order, with other things possibly between. */
  ghost predicate Within(a: seq<Out>, b: seq<Out>) {
    exists mask :: |mask| == |b| && Pick(b, mask) == a
  }

  lemma {:induction false} PickConcat(b: seq<Out>, m: seq<bool>, d: seq<Out>, n: seq<bool>)
    requires |m| == |b| && |n| == |d|
    ensures Pick(b + d, m + n) == Pick(b, m) + Pick(d, n)
  {
    if b == [] {
      S.Empty(d);
      S.Empty(n);
      S.Empty(Pick(d, n));
    } else {
      S.TailOfConcat(b, d);
      S.TailOfConcat(m, n);
      PickConcat(b[1..], m[1..], d, n);
      S.Assoc(if m[0] then [b[0]] else [], Pick(b[1..], m[1..]), Pick(d, n));
    }
  }

  lemma {:induction false} WithinSelf(a: seq<Out>)
    ensures Within(a, a) && Within([], a)
  {
    PickAll(a);
    assert Pick(a, seq(|a|, i => true)) == a;
    assert Pick(a, seq(|a|, i => false)) == [];
  }

  lemma {:induction false} PickAll(a: seq<Out>)
    ensures Pick(a, seq(|a|, i => true)) == a && Pick(a, seq(|a|, i => false)) == []
  {
    if a != [] {
      PickAll(a[1..]);
      assert seq(|a|, i => true)[1..] == seq(|a| - 1, i => true);
      assert seq(|a|, i => false)[1..] == seq(|a| - 1, i => false);
    }
  }

  lemma WithinConcat(a: seq<Out>, b: seq<Out>, c: seq<Out>, d: seq<Out>)
    requires Within(a, b) && Within(c, d)
    ensures Within(a + c, b + d)
  {
    var m :| |m| == |b| && Pick(b, m) == a;
    var n :| |n| == |d| && Pick(d, n) == c;
    PickConcat(b, m, d, n);
  }

  /** Spreading over pieces repeats, but loses nothing. */
  lemma {:induction false} SpreadKeepsAll(ss: seq<Text>, curr: Text, max: nat)
    ensures Within(Content(Flat(ss), []), Spread(ss, curr, max))
  {
    hide StripText, Content, Len, Within;
    if ss == [] {
      NoContent();
      WithinSelf([]);
    } else {
      var l := StripText(ss[0]);
      StripKeeps(ss[0], []);
      ContentConcat(ss[0], Flat(ss[1..]), []);
      if l == [] {
        NoContent();
        assert [] + Content(Flat(ss[1..]), []) == Content(Flat(ss[1..]), []);
        SpreadKeepsAll(ss[1..], curr, max);
      } else {
        var c := curr + SPACE + l;
        WithinSelf(Content(l, []));
        if Len(c) > max {
          SpreadKeepsAll(ss[1..], l, max);
          WithinConcat([], Content(l, []), Content(Flat(ss[1..]), []), Spread(ss[1..], l, max));
          assert [] + Content(Flat(ss[1..]), []) == Content(Flat(ss[1..]), []);
          WithinConcat(Content(l, []), Content(l, []), Content(Flat(ss[1..]), []), Content(l, []) + Spread(ss[1..], l, max));
        } else {
          SpreadKeepsAll(ss[1..], c, max);
          WithinConcat(Content(l, []), Content(l, []), Content(Flat(ss[1..]), []), Spread(ss[1..], c, max));
        }
      }
    }
  }

  // ---- What one append does ----

  datatype Append = Append(txt: Text, isBoundary: bool, unbreakable: bool)

  predicate Overflows(cfg: Config, text: Text, txt: Text) {
    Len(txt) + Len(text) >= cfg.maxLength
  }

  /** The context an overflowing append at a structured boundary carries over. */
  function CarryOver(cfg: Config, text: Text, codeRefs: seq<string>, a: Append): Option<InitContext> {
    if !Overflows(cfg, text, a.txt) || !a.isBoundary || LastSentence(cfg.nlp(text)).None? then None
    else Some(InitContext(codeRefs, LastSentence(cfg.nlp(text)).value + if a.unbreakable then NEWLINE else []))
  }

  /** An append fares as the rewriting of the carried sentence does; an overflowing text without boundary raises
      when it leaves not a single piece. */
  function AppendFate(cfg: Config, text: Text, codeRefs: seq<string>, a: Append): Fate {
    if !Overflows(cfg, text, a.txt) then Exact
    else if a.isBoundary then CarriedFate(CarryOver(cfg, text, codeRefs, a))
    else if text != [] || !Blank(a.txt) then Exact
    else Raises
  }

  /** A new chunk has no references yet. */
  function CarriedFate(context: Option<InitContext>): Fate {
    if context.None? then Exact else FateOf(context.value.context, 0)
  }

  /** The content an append adds when its rewriting is exact. */
  function Added(cfg: Config, text: Text, codeRefs: seq<string>, a: Append): seq<Out> {
    if Overflows(cfg, text, a.txt) && !a.isBoundary then Spread(cfg.nlp(a.txt), text, cfg.maxLength)
    else CarriedContent(CarryOver(cfg, text, codeRefs, a)) + Content(a.txt, [])
  }

  /** Nothing appended is lost. */
  lemma AddedHasAll(cfg: Config, text: Text, codeRefs: seq<string>, a: Append)
    requires GoodSplitter(cfg.nlp)
    ensures Within(Content(a.txt, []), Added(cfg, text, codeRefs, a))
  {
    hide Within, Content, CarriedContent, CarryOver, Spread, Flat;
    if Overflows(cfg, text, a.txt) && !a.isBoundary {
      SpreadKeepsAll(cfg.nlp(a.txt), text, cfg.maxLength);
    } else {
      WithinSelf(CarriedContent(CarryOver(cfg, text, codeRefs, a)));
      WithinSelf(Content(a.txt, []));
      WithinConcat([], CarriedContent(CarryOver(cfg, text, codeRefs, a)), Content(a.txt, []), Content(a.txt, []));
      assert [] + Content(a.txt, []) == Content(a.txt, []);
    }
  }

  lemma CarryIsCarried(cfg: Config, text: Text, codeRefs: seq<string>, a: Append)
    requires GoodSplitter(cfg.nlp) && TagsFit(text, codeRefs) && CarryOver(cfg, text, codeRefs, a).Some?
    ensures IsCarried(cfg.nlp, CarryOver(cfg, text, codeRefs, a).value)
  {
    var ss := cfg.nlp(text);
    LastSentenceIsOne(ss);
    var i :| 0 <= i < |ss| && LastSentence(ss).value == StripText(ss[i]);
    SentenceFits(cfg.nlp, text, codeRefs, i);
    var end := if a.unbreakable then NEWLINE else [];
    assert Blank(end) by { assert IsBlankAtom(Ch('\n')); }
    BlankEnd(StripText(ss[i]), end, codeRefs);
  }

  // ---- Notes about child chunks ----

  function NonEmpty(hs: seq<string>): seq<string> {
    if hs == [] then [] else (if hs[0] == "" then [] else [hs[0]]) + NonEmpty(hs[1..])
  }

  /** The non-empty headers, joined. */
  function JoinHeaders(hs: seq<string>): string {
    Join(NonEmpty(hs))
  }

  /** Empty headers make no difference, the others all stay. */
  lemma {:induction false} EmptyHeadersVanish(a: seq<string>, b: seq<string>)
    ensures JoinHeaders(a + [""] + b) == JoinHeaders(a + b)
    ensures "" !in a ==> JoinHeaders(a) == Join(a)
  {
    NonEmptySkips(a, b);
  }

  lemma {:induction false} NonEmptySkips(a: seq<string>, b: seq<string>)
    ensures NonEmpty(a + [""] + b) == NonEmpty(a + b)
    ensures "" !in a ==> NonEmpty(a) == a
  {
    if a == [] {
      assert [] + [""] + b == [""] + b && ([""] + b)[1..] == b;
      S.Empty(b);
    } else {
      NonEmptySkips(a[1..], b);
      assert (a + [""] + b)[1..] == a[1..] + [""] + b && (a + b)[1..] == a[1..] + b;
    }
  }

  /** A child of a blank text is not looked at; otherwise its first sentence, which must be there, is rewritten. */
  function ChildFate(cfg: Config, text: Text, codeRefs: seq<string>, c: Chunk): Fate {
    if Blank(text) then Exact
    else if cfg.nlp(c.chunk) == [] then Raises
    else FateOf(cfg.nlp(c.chunk)[0], |codeRefs|)
  }

  function ChildNote(cfg: Config, c: Chunk): seq<Out> {
    Content(FromString(JoinHeaders(c.headers)), []) +
    if cfg.nlp(c.chunk) == [] then [] else Content(cfg.nlp(c.chunk)[0], c.codeRefs)
  }

  /** The pending text with the note about a child. */
  function WithChild(cfg: Config, text: Text, codeRefs: seq<string>, c: Chunk): Text {
    if cfg.nlp(c.chunk) == [] then text
    else text + (FromString(JoinHeaders(c.headers)) + NEWLINE + Renamed(cfg.nlp(c.chunk)[0], |codeRefs|))
  }

  lemma ChildAppended(text: Text, codeRefs: seq<string>, header: Text, sentence: Text, refs: seq<string>)
    requires TagsFit(text, codeRefs) && InRange(sentence, refs) && DistinctRefs(sentence) && RefsOf(header) == []
    ensures var all := codeRefs + Moved(sentence, refs);
            var t := text + (header + NEWLINE + Renamed(sentence, |codeRefs|));
            TagsFit(t, all) && Content(t, all) == Content(text, codeRefs) + (Content(header, []) + Content(sentence, refs))
  {
    var all := codeRefs + Moved(sentence, refs);
    var r := Renamed(sentence, |codeRefs|);
    FitsInRange(text, codeRefs);
    FixupKeepsMeaning(sentence, refs, codeRefs, text);
    TagsContinue(text, codeRefs, sentence, refs);
    hide Renamed, Moved, Content, RefsOf, InRange, TagsFit;
    assert IsBlankAtom(Ch('\n'));
    BlankEnd(header, NEWLINE, all);
    RefFreeContent(header, all, []);
    ContentConcat(header + NEWLINE, r, all);
    RefsConcat(header + NEWLINE, r);
    ContentConcat(text, header + NEWLINE + r, all);
    RefsConcat(text, header + NEWLINE + r);
    assert forall x: seq<nat> :: [] + x == x;
    TagsFitFrom(text + (header + NEWLINE + r), all);
  }

  lemma TagsContinue(text: Text, codeRefs: seq<string>, sentence: Text, refs: seq<string>)
    requires TagsFit(text, codeRefs) && InRange(sentence, refs) && DistinctRefs(sentence)
    ensures RefsOf(text) + RefsOf(Renamed(sentence, |codeRefs|)) == Upto(|codeRefs + Moved(sentence, refs)|)
  {
    DistinctAreConsecutive(sentence, |codeRefs|);
  }

  lemma TagsFitFrom(t: Text, refs: seq<string>)
    requires RefsOf(t) == Upto(|refs|)
    ensures TagsFit(t, refs)
  {}

  // ---- Where the text goes ----

  /** Chunk texts that are closed, and the text that is left pending. */
  datatype Filling = Filling(closed: seq<Text>, rest: Text)

  function Texts(chunks: seq<Chunk>): seq<Text> {
    seq(|chunks|, i requires 0 <= i < |chunks| => chunks[i].chunk)
  }

  /** What pushing a text closes. */
  function Pushed(t: Text): seq<Text> {
    if Blank(t) then [] else [StripText(t)]
  }

  function PushedAll(ts: seq<Text>): seq<Text> {
    if ts == [] then [] else PushedAll(ts[..|ts| - 1]) + Pushed(ts[|ts| - 1])
  }

  /** The sentence loop of a new chunk. */
  function Fill(ss: seq<Text>, max: nat): Filling {
    if ss == [] then Filling([], [])
    else
      var f := Fill(ss[..|ss| - 1], max);
      var l := StripText(ss[|ss| - 1]);
      if l == [] then f
      else
        var more := f.rest + l + SPACE;
        if Len(more) > max then Filling(f.closed + [StripText(more)], []) else Filling(f.closed, more)
  }

  /** A new chunk that starts with the rewritten context. */
  function Started(cfg: Config, ctx: Text, newText: Text, unbreakable: bool): Filling {
    if Len(newText) < cfg.maxLength then Filling([], ctx + newText)
    else if unbreakable then Filling(Pushed(ctx + newText), [])
    else Fill(cfg.nlp(ctx + newText), cfg.maxLength)
  }

  /** The carried context as it stands at the head of a new chunk. */
  function ContextText(context: Option<InitContext>): Text {
    if context.None? then [] else Renamed(context.value.context, 0) + SPACE
  }

  /** An append, when its rewriting is exact. */
  function Appended(cfg: Config, text: Text, codeRefs: seq<string>, a: Append): Filling {
    if !Overflows(cfg, text, a.txt) then Filling([], text + a.txt)
    else if a.isBoundary then
      var f := Started(cfg, ContextText(CarryOver(cfg, text, codeRefs, a)), a.txt, a.unbreakable);
      Filling(Pushed(text) + f.closed, f.rest)
    else
      var pieces := Pieces(cfg.nlp(a.txt), text, cfg.maxLength);
      if pieces == [] then Filling([], text) else Filling(PushedAll(pieces[..|pieces| - 1]), pieces[|pieces| - 1])
  }

  lemma TextsMore(chunks: seq<Chunk>, c: Chunk)
    ensures Texts(chunks + [c]) == Texts(chunks) + [c.chunk]
  {}

  lemma NothingPushed()
    ensures PushedAll([]) == []
  {}

  lemma PushedMore(ts: seq<Text>, k: nat)
    requires k < |ts|
    ensures PushedAll(ts[..k + 1]) == PushedAll(ts[..k]) + Pushed(ts[k])
  {
    assert ts[..k + 1][..k] == ts[..k];
  }

  /** A blank after a text makes no difference to the chunk. */
  lemma {:induction false} PushedWithSpace(t: Text)
    ensures Pushed(t + SPACE) == Pushed(t)
  {
    assert IsBlankAtom(Ch(' '));
    assert Blank(t + SPACE) <==> Blank(t) by {
      assert forall i :: 0 <= i < |t| ==> (t + SPACE)[i] == t[i];
      assert (t + SPACE)[|t|] == Ch(' ');
    }
    StripWithSpace(t);
  }

  lemma {:induction false} StripWithSpace(t: Text)
    ensures StripText(t + SPACE) == StripText(t)
  {
    assert IsBlankAtom(Ch(' '));
    if t == [] {
      assert [] + SPACE == SPACE && SPACE[1..] == [];
    } else if IsBlankAtom(t[0]) {
      StripWithSpace(t[1..]);
      S.TailOfConcat(t, SPACE);
    } else {
      S.InitOfConcat(t, Ch(' '));
    }
  }

  lemma PushedSentence(t: Text, s: Text)
    requires StripText(s) != []
    ensures Pushed(t + StripText(s) + SPACE) == [StripText(t + StripText(s) + SPACE)]
  {
    StripKeeps(s, []);
    var l := StripText(s);
    var i :| 0 <= i < |l| && !IsBlankAtom(l[i]);
    assert (t + l + SPACE)[|t| + i] == l[i];
  }

  lemma NothingFilled(max: nat)
    ensures Fill([], max) == Filling([], [])
  {}

  lemma FillMore(ss: seq<Text>, i: nat, max: nat)
    requires i < |ss|
    ensures var f, l := Fill(ss[..i], max), StripText(ss[i]);
            var more := f.rest + l + SPACE;
            Fill(ss[..i + 1], max) ==
            if l == [] then f
            else if Len(more) > max then Filling(f.closed + [StripText(more)], []) else Filling(f.closed, more)
  {
    assert ss[..i + 1][..i] == ss[..i];
  }

  // ---- The builder ----

  class BlockBuilder {
    const headers: seq<string>
    const config: Config
    var siblings: seq<Chunk>
    var text: Text
    var codeRefs: seq<string>
    var partCounter: nat

    ghost predicate Valid()
      reads this
    {
      GoodSplitter(config.nlp) && ChunksFit(headers, siblings) && partCounter == |siblings| && TagsFit(text, codeRefs)
    }

    /** Everything the builder holds: its chunks, then the pending text. */
    ghost function Holds(): seq<Out>
      reads this
    {
      ChunksContent(siblings) + Content(text, codeRefs)
    }

    constructor (headers: seq<string>, config: Config)
      requires GoodSplitter(config.nlp)
      ensures Valid() && Holds() == [] && this.headers == headers && this.config == config
      ensures siblings == [] && text == []
    {
      this.headers, this.config := headers, config;
      siblings, text, codeRefs, partCounter := [], [], [], 0;
    }

    method AddCode(code: string)
      requires Valid()
      modifies this
      ensures Valid() && Holds() == old(Holds()) + [Code(code)]
      ensures siblings == old(siblings) && text == old(text) + [Ch('\n'), Ref(|old(codeRefs)|)]
    {
      TagAppended(text, codeRefs, code);
      S.Assoc(ChunksContent(siblings), Content(text, codeRefs), [Code(code)]);
      hide Content, ChunksContent, TagsFit, ChunksFit;
      text := text + [Ch('\n'), Ref(|codeRefs|)];
      codeRefs := codeRefs + [code];
    }

    /** Turn the pending text into a chunk, unless it is blank. Nothing is lost. */
    method Push()
      requires Valid()
      modifies this
      ensures Valid() && Holds() == old(Holds())
      ensures text == [] && codeRefs == []
      ensures old(siblings) <= siblings && Texts(siblings) == old(Texts(siblings)) + Pushed(old(text))
    {
      StripKeeps(text, codeRefs);
      FitsInRange(text, codeRefs);
      BlankHasNothing(text, codeRefs);
      if StripText(text) == [] {
        text := [];
        S.Empty(Texts(siblings));
        return;
      }
      var c := Chunk(headers, partCounter, codeRefs, StripText(text));
      ContentOfNextChunk(siblings, c);
      TextsMore(siblings, c);
      siblings := siblings + [c];
      partCounter := partCounter + 1;
      codeRefs := [];
      text := [];
    }

    /** The sentence loop of a new chunk: the first non-blank sentence brings all tags. */
    method AddSentences(ss: seq<Text>)
      requires GoodSplitter(config.nlp) && ChunksFit(headers, siblings) && partCounter == |siblings| && text == []
      requires RefsOf(Flat(ss)) == Upto(|codeRefs|)
      requires forall i, j :: 0 <= i < j < |ss| && !Blank(ss[i]) ==> RefsOf(ss[j]) == []
      modifies this
      ensures Valid() && Holds() == ChunksContent(old(siblings)) + Content(Flat(ss), old(codeRefs))
      ensures var f := Fill(ss, config.maxLength); Texts(siblings) == old(Texts(siblings)) + f.closed && text == f.rest
    {
      hide GoodSplitter, Flat, StripText, ChunksContent, ChunksFit, Content, RefsOf, Fill, Texts, Pushed;
      ghost var refs := codeRefs;
      ghost var started := false;
      ghost var before := Texts(siblings);
      NothingFilled(config.maxLength);
      S.Empty(before);
      BlankFlat(ss[..0], refs);
      BlankHasNothing([], refs);
      for i := 0 to |ss|
        invariant started ==> Valid() && Holds() == ChunksContent(old(siblings)) + Content(Flat(ss[..i]), refs)
        invariant !started ==> text == [] && codeRefs == refs && siblings == old(siblings) && partCounter == |siblings|
        invariant !started ==> ChunksFit(headers, siblings) && forall j :: 0 <= j < i ==> Blank(ss[j])
        invariant started ==> exists j :: 0 <= j < i && !Blank(ss[j])
        invariant ss[..0] == [] && Texts(siblings) == before + Fill(ss[..i], config.maxLength).closed
        invariant text == Fill(ss[..i], config.maxLength).rest
      {
        FillMore(ss, i, config.maxLength);
        StripKeeps(ss[i], refs);
        FlatNext(ss, i, refs);
        BlankHasNothing(ss[i], refs);
        if StripText(ss[i]) == [] {
          assert forall c: seq<Out> :: c + [] == c;
          continue;
        }
        AddSentence(text, ss[i], codeRefs);
        PushedSentence(text, ss[i]);
        if started {
          RefFreeContent(ss[i], codeRefs, refs);
          assert forall r: seq<nat> :: r + [] == r;
        } else {
          FirstHoldsAll(ss, i);
          BlankFlat(ss[..i], refs);
          BlankHasNothing([], refs);
          assert forall c: seq<Out> :: [] + c == c;
          assert forall r: seq<nat> :: [] + r == r;
        }
        S.Assoc(ChunksContent(siblings), Content(text, codeRefs), Content(ss[i], codeRefs));
        S.Assoc(ChunksContent(old(siblings)), Content(Flat(ss[..i]), refs), Content(ss[i], refs));
        text := text + StripText(ss[i]) + SPACE;
        started := true;
        if Len(text) > config.maxLength {
          S.Assoc(before, Fill(ss[..i], config.maxLength).closed, Pushed(text));
          Push();
        }
      }
      assert ss[..|ss|] == ss;
      if !started {
        BlankFlat(ss, refs);
        BlankHasNothing([], refs);
        assert |Upto(|refs|)| == 0;
      }
    }

    /** Start a chunk, with or without carried context. What follows a rewriting that is not exact is not modelled. */
    method InitNewChunk(newText: Text, unbreakable: bool, context: Option<InitContext>) returns (fate: Fate)
      requires Valid() && text == [] && RefsOf(newText) == []
      requires context.Some? ==> IsCarried(config.nlp, context.value)
      modifies this
      ensures fate == CarriedFate(context)
      ensures fate.Exact? <==> context.None? || Rewritable(context.value.context)
      ensures fate.Exact? ==> Valid()
      ensures fate.Exact? ==> Holds() == old(Holds()) + CarriedContent(context) + Content(newText, [])
      ensures var f := Started(config, ContextText(context), newText, unbreakable);
              fate.Exact? ==> Texts(siblings) == old(Texts(siblings)) + f.closed && text == f.rest
    {
      hide GoodSplitter, Flat, StripText, ChunksContent, ChunksFit, Content, RefsOf, Renamed, Moved, Texts, Pushed, Fill;
      S.Empty(Texts(siblings));
      FitsInRange(text, codeRefs);
      NoContent();
      assert codeRefs == [];
      assert forall c: seq<Out> :: [] + c == c && c + [] == c;
      var ctx: Text := [];
      ghost var carried: seq<Out> := [];
      if context.Some? {
        var r, refs := FixupCodeRefs(context.value.context, context.value.codes, codeRefs);
        ExactExactlyWhenRewritable(context.value.context, 0);
        if !r.Rewrote? {
          return if r.Failed? then Raises else Garbled;
        }
        codeRefs := refs;
        ctx := r.text + SPACE;
        carried := Content(context.value.context, context.value.codes);
        ContextFits(context.value, newText);
        CarriedIsContext(config.nlp, context.value);
      } else {
        assert ctx + newText == newText;
        EmptyIsContext(config.nlp);
        assert Upto(0) == [];
      }
      fate := Exact;
      ghost var whole := Content(ctx + newText, codeRefs);
      assert whole == carried + Content(newText, []);
      assert old(Holds()) == ChunksContent(siblings);
      S.Assoc(ChunksContent(siblings), carried, Content(newText, []));
      if Len(newText) < config.maxLength {
        text := ctx + newText;
        return;
      }
      if unbreakable {
        text := ctx + newText;
        Push();
        return;
      }
      SplitterOn(config.nlp, ctx, newText, codeRefs);
      AddSentences(config.nlp(ctx + newText));
    }

    method FindLast(ss: seq<Text>) returns (last: Option<Text>)
      ensures last == LastSentence(ss)
    {
      last := None;
      for i := 0 to |ss|
        invariant last == LastSentence(ss[..i])
      {
        StripKeeps(ss[i], []);
        assert ss[..i + 1][..i] == ss[..i];
        if StripText(ss[i]) != [] {
          last := Some(StripText(ss[i]));
        }
      }
      assert ss[..|ss|] == ss;
    }

    /** The sentence loop of an append without boundary. */
    method CollectPieces(ss: seq<Text>) returns (pieces: seq<Text>)
      ensures pieces == Pieces(ss, text, config.maxLength)
    {
      hide Pieces, StripText, Len;
      pieces := [];
      var curr := text;
      assert ss[0..] == ss;
      for i := 0 to |ss|
        invariant Pieces(ss, text, config.maxLength) == pieces + Pieces(ss[i..], curr, config.maxLength)
      {
        PieceStep(ss, i, curr, config.maxLength);
        var l := StripText(ss[i]);
        if l == [] {
          continue;
        }
        curr := curr + SPACE + l;
        if Len(curr) > config.maxLength {
          pieces := pieces + [curr];
          curr := l;
        }
      }
      PiecesEnd(ss, curr, config.maxLength);
      if |curr| > 0 {
        pieces := pieces + [curr];
      }
    }

    /** Push every piece but the last, which becomes the pending text. */
    method PushPieces(pieces: seq<Text>)
      requires Valid() && pieces != [] && PiecesFit(pieces, Upto(|codeRefs|))
      modifies this
      ensures Valid()
      ensures Holds() == ChunksContent(old(siblings)) + Content(Flat(pieces), old(codeRefs))
      ensures Texts(siblings) == old(Texts(siblings)) + PushedAll(pieces[..|pieces| - 1]) && text == pieces[|pieces| - 1]
    {
      hide GoodSplitter, Flat, StripText, ChunksContent, ChunksFit, Content, RefsOf, Texts, Pushed, PushedAll;
      ghost var refs := codeRefs;
      ghost var before := Texts(siblings);
      NothingPushed();
      S.Empty(before);
      NoContent();
      NothingFlat();
      assert forall c: seq<Out> :: c + [] == c;
      for k := 0 to |pieces| - 1
        invariant Valid()
        invariant k == 0 ==> codeRefs == refs && siblings == old(siblings)
        invariant k > 0 ==> codeRefs == []
        invariant ChunksContent(siblings) == ChunksContent(old(siblings)) + Content(Flat(pieces[..k]), refs)
        invariant pieces[..0] == [] && Texts(siblings) == before + PushedAll(pieces[..k])
      {
        PushedMore(pieces, k);
        S.Assoc(before, PushedAll(pieces[..k]), Pushed(pieces[k]));
        assert |Upto(0)| == 0;
        FlatNext(pieces, k, refs);
        if k > 0 { RefFreeContent(pieces[k], [], refs); }
        S.Assoc(ChunksContent(old(siblings)), Content(Flat(pieces[..k]), refs), Content(pieces[k], refs));
        text := pieces[k];
        Push();
      }
      var n := |pieces| - 1;
      assert |Upto(0)| == 0;
      FlatNext(pieces, n, refs);
      if n > 0 { RefFreeContent(pieces[n], [], refs); }
      assert pieces[..n + 1] == pieces;
      S.Assoc(ChunksContent(old(siblings)), Content(Flat(pieces[..n]), refs), Content(pieces[n], refs));
      text := pieces[n];
    }

    /** Append text without tags: in place while the whole stays under the limit. When the append is not exact
        nothing is claimed of what follows. */
    method AppendText(a: Append) returns (fate: Fate)
      requires Valid() && RefsOf(a.txt) == []
      modifies this
      ensures old(Len(text)) + Len(a.txt) < config.maxLength ==>
                fate == Exact && siblings == old(siblings) && text == old(text) + a.txt
      ensures fate == old(AppendFate(config, text, codeRefs, a))
      ensures fate.Exact? ==> Valid()
      ensures fate.Exact? ==> Holds() == old(Holds()) + old(Added(config, text, codeRefs, a))
      ensures var f := old(Appended(config, text, codeRefs, a));
              fate.Exact? ==> Texts(siblings) == old(Texts(siblings)) + f.closed && text == f.rest
    {
      hide GoodSplitter, Flat, StripText, ChunksContent, ChunksFit, Content, RefsOf, Spread, LastSentence, CarriedContent,
        Texts, Pushed, PushedAll, Pieces, Started, ContextText;
      S.Empty(Texts(siblings));
      var newLen := Len(a.txt) + Len(text);
      if newLen < config.maxLength {
        AppendedPlain(text, codeRefs, a.txt);
        S.Assoc(ChunksContent(siblings), Content(text, codeRefs), Content(a.txt, []));
        NothingCarried();
        assert [] + Content(a.txt, []) == Content(a.txt, []);
        text := text + a.txt;
        return Exact;
      }
      if a.isBoundary {
        fate := AppendAtBoundary(a);
      } else {
        var ok := AppendLong(a.txt);
        fate := if ok then Exact else Raises;
      }
    }

    method AppendLong(txt: Text) returns (ok: bool)
      requires Valid() && RefsOf(txt) == []
      modifies this
      ensures ok <==> old(text) != [] || !Blank(txt)
      ensures ok ==> Valid()
      ensures ok ==> Holds() == old(Holds()) + old(Spread(config.nlp(txt), text, config.maxLength))
      ensures var pieces := old(Pieces(config.nlp(txt), text, config.maxLength));
              ok ==> pieces != [] && Texts(siblings) == old(Texts(siblings)) + PushedAll(pieces[..|pieces| - 1]) &&
                     text == pieces[|pieces| - 1]
    {
      var ss := config.nlp(txt);
      SentencesOfPlain(config.nlp, txt);
      PiecesContent(ss, text, config.maxLength, codeRefs);
      hide GoodSplitter, Flat, StripText, ChunksContent, ChunksFit, Content, RefsOf, Spread, Pieces, Texts, PushedAll;
      var pieces := CollectPieces(ss);
      if |pieces| == 0 {
        return false;
      }
      S.Assoc(ChunksContent(siblings), Content(text, codeRefs), Spread(ss, text, config.maxLength));
      PushPieces(pieces);
      ok := true;
    }

    method AppendAtBoundary(a: Append) returns (fate: Fate)
      requires Valid() && RefsOf(a.txt) == [] && Overflows(config, text, a.txt) && a.isBoundary
      modifies this
      ensures fate == old(AppendFate(config, text, codeRefs, a))
      ensures fate.Exact? ==> Valid()
      ensures fate.Exact? ==> Holds() == old(Holds()) + old(Added(config, text, codeRefs, a))
      ensures var f := old(Appended(config, text, codeRefs, a));
              fate.Exact? ==> Texts(siblings) == old(Texts(siblings)) + f.closed && text == f.rest
    {
      hide GoodSplitter, Flat, StripText, ChunksContent, ChunksFit, Content, RefsOf, Spread, LastSentence, CarriedContent,
        Texts, Pushed, Started, Pieces, PushedAll;
      PushedWithSpace(text);
      ghost var carry := CarryOver(config, text, codeRefs, a);
      if carry.Some? { CarryIsCarried(config, text, codeRefs, a); }
      var context: Option<InitContext> := None;
      var last := FindLast(config.nlp(text));
      if !a.unbreakable {
        // The first sentence of the new text is looked for under an inverted test, so it is "" whenever some
        // sentence is blank and missing otherwise.
        var firstBlank := exists s :: s in config.nlp(a.txt) && StripText(s) == [];
        if firstBlank {
          assert IsBlankAtom(Ch(' '));
          BlankEnd(text, SPACE, codeRefs);
          text := text + SPACE;
        }
        if last.Some? {
          assert last.value + [] == last.value;
          context := Some(InitContext(codeRefs, last.value));
        }
      } else if last.Some? {
        context := Some(InitContext(codeRefs, last.value + NEWLINE));
      }
      assert context == carry;
      ghost var before := Texts(siblings);
      Push();
      S.Assoc(before, old(Pushed(text)), Started(config, ContextText(context), a.txt, a.unbreakable).closed);
      S.Assoc(Holds(), CarriedContent(context), Content(a.txt, []));
      fate := InitNewChunk(a.txt, a.unbreakable, context);
    }

    method Finish() returns (chunks: seq<Chunk>)
      requires Valid()
      modifies this
      ensures ChunksFit(headers, chunks) && ChunksContent(chunks) == old(Holds())
      ensures Texts(chunks) == old(Texts(siblings)) + Pushed(old(text))
    {
      Push();
      chunks := siblings;
    }

    /** Close the pending text with a note about a child chunk: its headers and its first sentence. A child of a
        blank text leaves no trace. */
    method PushChild(c: Chunk) returns (fate: Fate)
      requires Valid() && TagsFit(c.chunk, c.codeRefs)
      modifies this
      ensures fate == old(ChildFate(config, text, codeRefs, c))
      ensures fate.Exact? ==> Valid()
      ensures fate.Exact? ==> Holds() == old(Holds()) + if Blank(old(text)) then [] else ChildNote(config, c)
      ensures Blank(old(text)) ==> siblings == old(siblings) && text == old(text)
      ensures fate.Exact? && !Blank(old(text)) ==>
                text == [] && Texts(siblings) == old(Texts(siblings)) + Pushed(old(WithChild(config, text, codeRefs, c)))
    {
      StripKeeps(text, codeRefs);
      hide GoodSplitter, Flat, StripText, ChunksContent, ChunksFit, Content, RefsOf, Renamed, Moved, Upto, Texts, Pushed;
      fate := Exact;
      if StripText(text) == [] {
        assert Holds() + [] == Holds();
        return;
      }
      var ss := config.nlp(c.chunk);
      if ss == [] {
        return Raises;
      }
      SentenceFits(config.nlp, c.chunk, c.codeRefs, 0);
      var r, refs := FixupCodeRefs(ss[0], c.codeRefs, codeRefs);
      ExactExactlyWhenRewritable(ss[0], |codeRefs|);
      if !r.Rewrote? {
        return if r.Failed? then Raises else Garbled;
      }
      PlainText(JoinHeaders(c.headers));
      ChildAppended(text, codeRefs, FromString(JoinHeaders(c.headers)), ss[0], c.codeRefs);
      S.Assoc(ChunksContent(siblings), Content(text, codeRefs), ChildNote(config, c));
      text := text + (FromString(JoinHeaders(c.headers)) + NEWLINE + r.text);
      codeRefs := refs;
      Push();
    }
  }
}
