/** Whole builds: any sequence of operations on a block builder, then its finish. */
module Builds {
  import opened Wrappers
  import opened TaggedText
  import opened CodeRefs
  import opened Fixup
  import opened Chunker
  import opened ChunkSizes
  import S = Sequences

  datatype Op = DoCode(code: string) | DoText(append: Append) | DoChild(child: Chunk)

  /** What the caller of an operation wants kept. */
  function Own(ops: seq<Op>): seq<Out> {
    if ops == [] then [] else Own(ops[..|ops| - 1]) + OwnOf(ops[|ops| - 1])
  }

  predicate Acceptable(op: Op) {
    (op.DoText? ==> RefsOf(op.append.txt) == []) && (op.DoChild? ==> TagsFit(op.child.chunk, op.child.codeRefs))
  }

  function OwnOf(op: Op): seq<Out> {
    match op
    case DoCode(code) => [Code(code)]
    case DoText(a) => Content(a.txt, [])
    case DoChild(_) => []
  }

  /** No percent sign in appended text, or in the text and headers of a child. */
  predicate PercentFree(op: Op) {
    match op
    case DoCode(_) => true
    case DoText(a) => Ch('%') !in a.txt
    case DoChild(c) => Ch('%') !in c.chunk && '%' !in JoinHeaders(c.headers)
  }

  predicate NoPercent(outs: seq<Out>) {
    Char('%') !in outs
  }

  lemma {:induction false} PercentShows(t: Text, refs: seq<string>)
    ensures Ch('%') in t <==> !NoPercent(Content(t, refs))
  {
    if t != [] {
      PercentShows(t[1..], refs);
      S.HeadAndTail(t);
      assert !IsBlankAtom(Ch('%'));
    }
  }

  lemma {:induction false} PercentInFlat(ss: seq<Text>, i: nat)
    requires i < |ss| && Ch('%') in ss[i]
    ensures Ch('%') in Flat(ss)
  {
    if i > 0 { PercentInFlat(ss[1..], i - 1); }
  }

  /** Sentences of a text without percent signs have none. */
  lemma SentencesNoPercent(nlp: Text -> seq<Text>, t: Text)
    requires GoodSplitter(nlp) && Ch('%') !in t
    ensures forall i :: 0 <= i < |nlp(t)| ==> Ch('%') !in nlp(t)[i]
  {
    PercentShows(t, []);
    assert Content(Flat(nlp(t)), []) == Content(t, []);
    PercentShows(Flat(nlp(t)), []);
    hide GoodSplitter, Content, NoPercent;
    forall i | 0 <= i < |nlp(t)| ensures Ch('%') !in nlp(t)[i] {
      if Ch('%') in nlp(t)[i] { PercentInFlat(nlp(t), i); }
    }
  }

  lemma {:induction false} SpreadNoPercent(ss: seq<Text>, curr: Text, max: nat)
    requires forall i :: 0 <= i < |ss| ==> Ch('%') !in ss[i]
    ensures NoPercent(Spread(ss, curr, max))
    decreases |ss|
  {
    if ss != [] {
      assert forall i :: 0 <= i < |ss[1..]| ==> ss[1..][i] == ss[i + 1];
      var l := StripText(ss[0]);
      StripKeeps(ss[0], []);
      PercentShows(ss[0], []);
      PercentShows(l, []);
      SpreadNoPercent(ss[1..], curr, max);
      SpreadNoPercent(ss[1..], l, max);
      SpreadNoPercent(ss[1..], curr + SPACE + l, max);
    }
  }

  /** Without percent signs, the carried sentence has none and no rewriting is spoiled. */
  lemma CarryNoPercent(cfg: Config, text: Text, codeRefs: seq<string>, a: Append)
    requires GoodSplitter(cfg.nlp) && Ch('%') !in text
    ensures CarriedFate(CarryOver(cfg, text, codeRefs, a)) == Exact
    ensures NoPercent(CarriedContent(CarryOver(cfg, text, codeRefs, a)))
  {
    var carry := CarryOver(cfg, text, codeRefs, a);
    if carry.Some? {
      var ss := cfg.nlp(text);
      SentencesNoPercent(cfg.nlp, text);
      LastSentenceIsOne(ss);
      var i :| 0 <= i < |ss| && LastSentence(ss).value == StripText(ss[i]);
      StripKeeps(ss[i], []);
      PercentShows(ss[i], []);
      PercentShows(StripText(ss[i]), []);
      PercentShows(carry.value.context, carry.value.codes);
      ExactExactlyWhenRewritable(carry.value.context, 0);
    }
  }

  lemma AddedNoPercent(cfg: Config, text: Text, codeRefs: seq<string>, a: Append)
    requires GoodSplitter(cfg.nlp) && Ch('%') !in text && Ch('%') !in a.txt
    ensures AppendFate(cfg, text, codeRefs, a) != Garbled
    ensures NoPercent(Added(cfg, text, codeRefs, a))
  {
    CarryNoPercent(cfg, text, codeRefs, a);
    SentencesNoPercent(cfg.nlp, a.txt);
    SpreadNoPercent(cfg.nlp(a.txt), text, cfg.maxLength);
    PercentShows(a.txt, []);
    hide GoodSplitter, Spread, Content, CarryOver, CarriedContent, CarriedFate;
  }

  lemma ChildNoPercent(cfg: Config, text: Text, codeRefs: seq<string>, c: Chunk)
    requires GoodSplitter(cfg.nlp) && Ch('%') !in c.chunk && '%' !in JoinHeaders(c.headers)
    ensures ChildFate(cfg, text, codeRefs, c) != Garbled && NoPercent(ChildNote(cfg, c))
  {
    SentencesNoPercent(cfg.nlp, c.chunk);
    PercentShows(FromString(JoinHeaders(c.headers)), []);
    if cfg.nlp(c.chunk) != [] {
      PercentShows(cfg.nlp(c.chunk)[0], c.codeRefs);
      ExactExactlyWhenRewritable(cfg.nlp(c.chunk)[0], |codeRefs|);
    }
    hide GoodSplitter, Content;
  }

  lemma HoldsNoPercent(siblings: seq<Out>, text: Text, codeRefs: seq<string>)
    requires NoPercent(siblings + Content(text, codeRefs))
    ensures Ch('%') !in text
  {
    PercentShows(text, codeRefs);
  }

  // ---- Lengths ----

  /** An operation that may make one chunk of any length: a note about a child, or long unbreakable text at a
      boundary. */
  predicate AnyLength(cfg: Config, op: Op) {
    op.DoChild? || (op.DoText? && Unbreakable(cfg, op.append))
  }

  function CountAnyLength(cfg: Config, ops: seq<Op>): nat {
    if ops == [] then 0 else CountAnyLength(cfg, ops[..|ops| - 1]) + if AnyLength(cfg, ops[|ops| - 1]) then 1 else 0
  }

  /** All chunks but those with an exempt number fit. */
  ghost predicate AllFit(cfg: Config, texts: seq<Text>, exempt: set<nat>) {
    forall i :: 0 <= i < |texts| && i !in exempt ==> ChunkFits(cfg, texts[i])
  }

  lemma AllFitMore(cfg: Config, texts: seq<Text>, exempt: set<nat>, more: seq<Text>)
    requires AllFit(cfg, texts, exempt) && forall c :: c in more ==> ChunkFits(cfg, c)
    ensures AllFit(cfg, texts + more, exempt)
  {
    hide ChunkFits;
  }

  /** One more chunk that need not fit. */
  lemma AllFitButLast(cfg: Config, texts: seq<Text>, exempt: set<nat>, more: seq<Text>)
    requires AllFit(cfg, texts, exempt) && more != [] && forall c :: c in more[..|more| - 1] ==> ChunkFits(cfg, c)
    ensures var e := exempt + {|texts + more| - 1}; AllFit(cfg, texts + more, e) && |e| <= |exempt| + 1
  {
    hide ChunkFits;
    var e := exempt + {|texts + more| - 1};
    forall i | 0 <= i < |texts + more| && i !in e ensures ChunkFits(cfg, (texts + more)[i]) {
      if i >= |texts| { assert more[..|more| - 1][i - |texts|] == more[i - |texts|]; }
    }
  }

  /** What the sizes are after an append. */
  lemma AppendKeepsFit(cfg: Config, texts: seq<Text>, exempt: set<nat>, text: Text, codeRefs: seq<string>, a: Append)
    returns (e: set<nat>)
    requires GoodSplitter(cfg.nlp) && TagsFit(text, codeRefs) && PendingFits(cfg, text) && AllFit(cfg, texts, exempt)
    ensures var f := Appended(cfg, text, codeRefs, a);
            PendingFits(cfg, f.rest) && AllFit(cfg, texts + f.closed, e) &&
            |e| <= |exempt| + if Unbreakable(cfg, a) then 1 else 0
  {
    hide *;
    AppendedFits(cfg, text, codeRefs, a);
    var closed := Appended(cfg, text, codeRefs, a).closed;
    if !Unbreakable(cfg, a) {
      AllFitMore(cfg, texts, exempt, closed);
      e := exempt;
    } else if |closed| <= |Pushed(text)| {
      assert closed[..|Pushed(text)|] == closed;
      AllFitMore(cfg, texts, exempt, closed);
      e := exempt;
    } else {
      AllFitButLast(cfg, texts, exempt, closed);
      e := exempt + {|texts + closed| - 1};
    }
  }

  lemma ChildKeepsFit(cfg: Config, texts: seq<Text>, exempt: set<nat>, note: Text) returns (e: set<nat>)
    requires AllFit(cfg, texts, exempt)
    ensures PendingFits(cfg, []) && AllFit(cfg, texts + Pushed(note), e) && |e| <= |exempt| + 1
  {
    WithinLimit(cfg, []);
    hide PendingFits, ChunkFits;
    if Blank(note) {
      S.Empty(texts);
      e := exempt;
    } else {
      AllFitButLast(cfg, texts, exempt, Pushed(note));
      e := exempt + {|texts + Pushed(note)| - 1};
    }
  }

  // ---- Operations ----

  /** The builder's texts fit, but for the exempt chunks. */
  ghost predicate Sized(b: BlockBuilder, exempt: set<nat>)
    reads b
  {
    PendingFits(b.config, b.text) && AllFit(b.config, Texts(b.siblings), exempt)
  }

  method PerformCode(b: BlockBuilder, code: string, ghost own: seq<Out>, ghost exempt: set<nat>)
    returns (fate: Fate, ghost exempt': set<nat>)
    requires b.Valid() && Within(own, b.Holds()) && Sized(b, exempt)
    modifies b
    ensures fate.Exact? ==> b.Valid() && Within(own + OwnOf(DoCode(code)), b.Holds())
    ensures old(NoPercent(b.Holds())) && PercentFree(DoCode(code)) ==> !fate.Garbled? && (fate.Exact? ==> NoPercent(b.Holds()))
    ensures fate.Exact? ==> Sized(b, exempt') && |exempt'| <= |exempt| + if AnyLength(b.config, DoCode(code)) then 1 else 0
  {
    ghost var before := b.Holds();
    TagFits(b.config, b.text, |b.codeRefs|);
    WithinSelf([Code(code)]);
    WithinConcat(own, before, [Code(code)], [Code(code)]);
    hide GoodSplitter, Flat, ChunksContent, ChunksFit, Content, RefsOf, Within, PendingFits, AllFit, Texts;
    exempt' := exempt;
    b.AddCode(code);
    fate := Exact;
  }

  method PerformText(b: BlockBuilder, a: Append, ghost own: seq<Out>, ghost exempt: set<nat>)
    returns (fate: Fate, ghost exempt': set<nat>)
    requires b.Valid() && Within(own, b.Holds()) && Sized(b, exempt) && RefsOf(a.txt) == []
    modifies b
    ensures fate.Exact? ==> b.Valid() && Within(own + OwnOf(DoText(a)), b.Holds())
    ensures old(NoPercent(b.Holds())) && PercentFree(DoText(a)) ==> !fate.Garbled? && (fate.Exact? ==> NoPercent(b.Holds()))
    ensures fate.Exact? ==> Sized(b, exempt') && |exempt'| <= |exempt| + if AnyLength(b.config, DoText(a)) then 1 else 0
  {
    ghost var before := b.Holds();
    ghost var added := Added(b.config, b.text, b.codeRefs, a);
    if NoPercent(before) && PercentFree(DoText(a)) {
      HoldsNoPercent(ChunksContent(b.siblings), b.text, b.codeRefs);
      AddedNoPercent(b.config, b.text, b.codeRefs, a);
    }
    exempt' := AppendKeepsFit(b.config, Texts(b.siblings), exempt, b.text, b.codeRefs, a);
    AddedHasAll(b.config, b.text, b.codeRefs, a);
    WithinConcat(own, before, Content(a.txt, []), added);
    hide GoodSplitter, Flat, ChunksContent, ChunksFit, Content, RefsOf, Within, Added, AppendFate, PendingFits, AllFit,
      Texts, Appended, TagsFit, Unbreakable;
    fate := b.AppendText(a);
  }

  method PerformChild(b: BlockBuilder, c: Chunk, ghost own: seq<Out>, ghost exempt: set<nat>)
    returns (fate: Fate, ghost exempt': set<nat>)
    requires b.Valid() && Within(own, b.Holds()) && Sized(b, exempt) && TagsFit(c.chunk, c.codeRefs)
    modifies b
    ensures fate.Exact? ==> b.Valid() && Within(own + OwnOf(DoChild(c)), b.Holds())
    ensures old(NoPercent(b.Holds())) && PercentFree(DoChild(c)) ==> !fate.Garbled? && (fate.Exact? ==> NoPercent(b.Holds()))
    ensures fate.Exact? ==> Sized(b, exempt') && |exempt'| <= |exempt| + if AnyLength(b.config, DoChild(c)) then 1 else 0
  {
    ghost var before := b.Holds();
    ghost var note := if Blank(b.text) then [] else ChildNote(b.config, c);
    if NoPercent(before) && PercentFree(DoChild(c)) {
      HoldsNoPercent(ChunksContent(b.siblings), b.text, b.codeRefs);
      ChildNoPercent(b.config, b.text, b.codeRefs, c);
    }
    WithinSelf(note);
    WithinConcat(own, before, [], note);
    exempt' := exempt;
    if !Blank(b.text) {
      exempt' := ChildKeepsFit(b.config, Texts(b.siblings), exempt, WithChild(b.config, b.text, b.codeRefs, c));
    }
    hide GoodSplitter, Flat, ChunksContent, ChunksFit, Content, RefsOf, Within, ChildFate, ChildNote, PendingFits, AllFit,
      Texts, WithChild, Pushed;
    fate := b.PushChild(c);
  }

  /** One operation that is exact: whatever was within the builder still is, followed by the operation's own
      content. Without percent signs no operation is spoiled. Whatever fitted the limit still does. */
  method Perform(b: BlockBuilder, op: Op, ghost own: seq<Out>, ghost exempt: set<nat>)
    returns (fate: Fate, ghost exempt': set<nat>)
    requires b.Valid() && Within(own, b.Holds()) && Sized(b, exempt) && Acceptable(op)
    modifies b
    ensures fate.Exact? ==> b.Valid() && Within(own + OwnOf(op), b.Holds())
    ensures old(NoPercent(b.Holds())) && PercentFree(op) ==> !fate.Garbled? && (fate.Exact? ==> NoPercent(b.Holds()))
    ensures fate.Exact? ==> Sized(b, exempt') && |exempt'| <= |exempt| + if AnyLength(b.config, op) then 1 else 0
  {
    hide *;
    hide BlockBuilder.Valid, BlockBuilder.Holds;
    match op
    case DoCode(code) => fate, exempt' := PerformCode(b, code, own, exempt);
    case DoText(a) =>
      TextAcceptable(a);
      fate, exempt' := PerformText(b, a, own, exempt);
    case DoChild(c) =>
      ChildAcceptable(c);
      fate, exempt' := PerformChild(b, c, own, exempt);
  }

  lemma TextAcceptable(a: Append)
    ensures Acceptable(DoText(a)) <==> RefsOf(a.txt) == []
  {}

  lemma ChildAcceptable(c: Chunk)
    ensures Acceptable(DoChild(c)) <==> TagsFit(c.chunk, c.codeRefs)
  {}

  lemma OwnOfMore(ops: seq<Op>, i: nat)
    requires i < |ops|
    ensures Own(ops[..i + 1]) == Own(ops[..i]) + OwnOf(ops[i])
  {
    assert ops[..i + 1][..i] == ops[..i];
  }

  lemma CountMore(cfg: Config, ops: seq<Op>, i: nat)
    requires i < |ops|
    ensures CountAnyLength(cfg, ops[..i + 1]) == CountAnyLength(cfg, ops[..i]) + if AnyLength(cfg, ops[i]) then 1 else 0
  {
    assert ops[..i + 1][..i] == ops[..i];
  }

  lemma NothingDone(ops: seq<Op>, outs: seq<Out>, cfg: Config)
    requires outs == []
    ensures Within(Own(ops[..0]), outs) && NoPercent(outs) && CountAnyLength(cfg, ops[..0]) == 0
  {
    WithinSelf([]);
    assert ops[..0] == [];
  }

  /** All operations in order, up to the first that is not exact. */
  method PerformAll(b: BlockBuilder, ops: seq<Op>) returns (fate: Fate, ghost exempt: set<nat>)
    requires b.Valid() && b.Holds() == [] && forall i :: 0 <= i < |ops| ==> Acceptable(ops[i])
    requires Sized(b, {})
    modifies b
    ensures fate.Exact? ==> b.Valid() && Within(Own(ops), b.Holds())
    ensures (forall i :: 0 <= i < |ops| ==> PercentFree(ops[i])) ==> !fate.Garbled?
    ensures fate.Exact? ==> Sized(b, exempt) && |exempt| <= CountAnyLength(b.config, ops)
  {
    hide *;
    NothingDone(ops, b.Holds(), b.config);
    exempt := {};
    ghost var clean := forall k :: 0 <= k < |ops| ==> PercentFree(ops[k]);
    for i := 0 to |ops|
      invariant b.Valid() && Within(Own(ops[..i]), b.Holds())
      invariant clean ==> NoPercent(b.Holds())
      invariant Sized(b, exempt) && |exempt| <= CountAnyLength(b.config, ops[..i])
    {
      OwnOfMore(ops, i);
      CountMore(b.config, ops, i);
      fate, exempt := Perform(b, ops[i], Own(ops[..i]), exempt);
      if !fate.Exact? {
        return;
      }
    }
    assert ops[..|ops|] == ops;
    fate := Exact;
  }

  /** A build is completed, or stopped by an operation that raises or whose rewriting is spoiled. */
  datatype Built = Built(chunks: seq<Chunk>) | Stopped(fate: Fate)

  /** Any sequence of operations, then finish. If every rewriting is exact and nothing raises: parts are numbered
      from 0 without gap, each chunk has exactly the tags 0..n-1 for its n references, and all appended text and
      code is found in the chunks, in order. Without percent signs no rewriting is spoiled. All chunks fit the limit
      up to a first and a last sentence and code tags, except at most one for each note about a child and each long
      unbreakable text. */
  method Build(headers: seq<string>, config: Config, ops: seq<Op>) returns (r: Built, ghost exempt: set<nat>)
    requires GoodSplitter(config.nlp) && forall i :: 0 <= i < |ops| ==> Acceptable(ops[i])
    ensures r.Built? ==> ChunksFit(headers, r.chunks) && Within(Own(ops), ChunksContent(r.chunks))
    ensures r.Built? ==> |exempt| <= CountAnyLength(config, ops) &&
                         forall i :: 0 <= i < |r.chunks| && i !in exempt ==> ChunkFits(config, r.chunks[i].chunk)
    ensures r.Stopped? ==> !r.fate.Exact?
    ensures (forall i :: 0 <= i < |ops| ==> PercentFree(ops[i])) ==> r.Built? || r.fate.Raises?
  {
    var b := new BlockBuilder(headers, config);
    NothingYet(b);
    var fate;
    fate, exempt := PerformAll(b, ops);
    if !fate.Exact? {
      r := Stopped(fate);
      return;
    }
    PushedFits(config, b.text);
    AllFitMore(config, Texts(b.siblings), exempt, Pushed(b.text));
    hide ChunkFits, PendingFits, Within, Own, ChunksContent, ChunksFit, GoodSplitter, Pushed;
    var chunks := b.Finish();
    assert forall i :: 0 <= i < |chunks| ==> Texts(chunks)[i] == chunks[i].chunk;
    r := Built(chunks);
  }

  lemma NothingYet(b: BlockBuilder)
    requires b.siblings == [] && b.text == []
    ensures Sized(b, {})
  {
    WithinLimit(b.config, []);
  }
}
