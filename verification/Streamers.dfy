/** Text streamers: every call on a streamer is forwarded to its parents, and each active one of the chain
    appends it to its own buffer. */
module Streamers {
  import opened Wrappers
  import opened Strings
  import opened TaggedText
  import S = Sequences

  datatype Call =
    | StreamText(text: Text)
    | StreamCode(code: string)
    | SectionStart(headers: seq<string>)
    | SectionEnd

  /** What an active streamer holds. */
  datatype Page = Page(buffer: Text, codeRefs: seq<string>, sections: seq<seq<string>>)

  const BLANK_PAGE := Page([], [], [])

  /** An end without an open section fails an assertion. */
  predicate Allowed(p: Page, c: Call) {
    c.SectionEnd? ==> p.sections != []
  }

  function Append(p: Page, c: Call): Page
    requires Allowed(p, c)
  {
    match c
    case StreamText(t) => p.(buffer := p.buffer + [Ch(' ')] + t)
    case StreamCode(code) =>
      p.(buffer := p.buffer + [Ch('\n'), Ref(|p.codeRefs|), Ch('\n')], codeRefs := p.codeRefs + [code])
    case SectionStart(hs) =>
      p.(buffer := p.buffer + FromString("\n\nSection: " + Join(hs) + "\n"), sections := p.sections + [hs])
    case SectionEnd =>
      var n := |p.sections| - 1;
      p.(buffer := p.buffer + FromString("\n(End of Section " + Join(p.sections[n]) + ")"), sections := p.sections[..n])
  }

  /** The header of the innermost section still open after the calls, found by counting starts and ends
      backwards; `skip` ends are waiting for their start. */
  function OpenHeader(cs: seq<Call>, skip: nat): Option<seq<string>> {
    if cs == [] then None
    else
      var c := cs[|cs| - 1];
      var init := cs[..|cs| - 1];
      if c.SectionEnd? then OpenHeader(init, skip + 1)
      else if c.SectionStart? && skip == 0 then Some(c.headers)
      else if c.SectionStart? then OpenHeader(init, skip - 1)
      else OpenHeader(init, skip)
  }

  /** Every end has a start before it. */
  predicate Balanced(cs: seq<Call>) {
    cs == [] || (Balanced(cs[..|cs| - 1]) && (cs[|cs| - 1].SectionEnd? ==> OpenHeader(cs[..|cs| - 1], 0).Some?))
  }

  /** What is appended by the last call of a list, told from the calls alone. */
  function LastPart(cs: seq<Call>, codes: nat): Text
    requires cs != []
  {
    match cs[|cs| - 1]
    case StreamText(t) => [Ch(' ')] + t
    case StreamCode(_) => [Ch('\n'), Ref(codes), Ch('\n')]
    case SectionStart(hs) => FromString("\n\nSection: " + Join(hs) + "\n")
    case SectionEnd => FromString("\n(End of Section " + Join(OpenHeader(cs[..|cs| - 1], 0).GetOr([])) + ")")
  }

  function CodesOf(cs: seq<Call>): seq<string> {
    if cs == [] then []
    else CodesOf(cs[..|cs| - 1]) + if cs[|cs| - 1].StreamCode? then [cs[|cs| - 1].code] else []
  }

  /** The buffer a list of calls should produce: their parts in order, ends naming the section they close. */
  function Rendered(cs: seq<Call>): Text {
    if cs == [] then [] else Rendered(cs[..|cs| - 1]) + LastPart(cs, |CodesOf(cs[..|cs| - 1])|)
  }

  /** The page after all calls in order, None if some end had nothing to close. */
  function After(cs: seq<Call>): Option<Page> {
    if cs == [] then Some(BLANK_PAGE)
    else
      var p := After(cs[..|cs| - 1]);
      if p.Some? && Allowed(p.value, cs[|cs| - 1]) then Some(Append(p.value, cs[|cs| - 1])) else None
  }

  lemma OpenHeaderStep(cs: seq<Call>, skip: nat)
    requires cs != []
    ensures var c, init := cs[|cs| - 1], cs[..|cs| - 1];
            OpenHeader(cs, skip) ==
            if c.SectionEnd? then OpenHeader(init, skip + 1)
            else if c.SectionStart? then if skip == 0 then Some(c.headers) else OpenHeader(init, skip - 1)
            else OpenHeader(init, skip)
  {}

  lemma AfterLast(cs: seq<Call>)
    requires cs != [] && After(cs).Some?
    ensures var p := After(cs[..|cs| - 1]); p.Some? && Allowed(p.value, cs[|cs| - 1])
    ensures var st := After(cs[..|cs| - 1]).value.sections;
            After(cs).value.sections ==
            match cs[|cs| - 1]
            case SectionStart(hs) => st + [hs]
            case SectionEnd => st[..|st| - 1]
            case _ => st
  {
    hide FromString, Join;
  }

  /** The stack of a page holds the open headers, innermost last. */
  lemma {:induction false} StackIsOpenHeaders(cs: seq<Call>, skip: nat)
    requires After(cs).Some?
    ensures OpenHeader(cs, skip) == FromTop(After(cs).value.sections, skip)
  {
    if cs != [] {
      var c := cs[|cs| - 1];
      var init := cs[..|cs| - 1];
      AfterLast(cs);
      OpenHeaderStep(cs, skip);
      hide After, Append, OpenHeader;
      var st := After(init).value.sections;
      StackMoves(st, if c.SectionStart? then c.headers else [], skip);
      hide FromTop;
      if c.SectionEnd? {
        StackIsOpenHeaders(init, skip + 1);
      } else if c.SectionStart? {
        if skip > 0 { StackIsOpenHeaders(init, skip - 1); }
      } else {
        StackIsOpenHeaders(init, skip);
      }
    }
  }

  /** The entry of a stack with `skip` others above it. */
  function FromTop(st: seq<seq<string>>, skip: nat): Option<seq<string>> {
    if skip < |st| then Some(st[|st| - 1 - skip]) else None
  }

  lemma StackMoves(st: seq<seq<string>>, hs: seq<string>, skip: nat)
    ensures FromTop(st + [hs], skip) == if skip == 0 then Some(hs) else FromTop(st, skip - 1)
    ensures st != [] ==> FromTop(st[..|st| - 1], skip) == FromTop(st, skip + 1)
  {}

  /** A page is exactly the rendering of its calls: ends close the matching section. */
  lemma {:induction false} PageIsRendered(cs: seq<Call>)
    ensures After(cs).Some? <==> Balanced(cs)
    ensures After(cs).Some? ==> After(cs).value.buffer == Rendered(cs) && After(cs).value.codeRefs == CodesOf(cs)
  {
    if cs != [] {
      var c, init := cs[|cs| - 1], cs[..|cs| - 1];
      PageIsRendered(init);
      Unfold(cs);
      if After(init).Some? {
        var p := After(init).value;
        StackIsOpenHeaders(init, 0);
        if Allowed(p, c) {
          AppendsLastPart(cs, p);
          S.Empty(CodesOf(init));
        }
      }
      hide OpenHeader, Append, LastPart, After, Balanced, Rendered, CodesOf, FromString, Join;
    }
  }

  lemma Unfold(cs: seq<Call>)
    requires cs != []
    ensures var c, init := cs[|cs| - 1], cs[..|cs| - 1];
            (Balanced(cs) <==> Balanced(init) && (c.SectionEnd? ==> OpenHeader(init, 0).Some?)) &&
            After(cs) == (if After(init).Some? && Allowed(After(init).value, c) then Some(Append(After(init).value, c)) else None) &&
            Rendered(cs) == Rendered(init) + LastPart(cs, |CodesOf(init)|) &&
            CodesOf(cs) == CodesOf(init) + if c.StreamCode? then [c.code] else []
  {
    hide OpenHeader, Append, LastPart;
  }

  lemma AppendsLastPart(cs: seq<Call>, p: Page)
    requires cs != [] && Allowed(p, cs[|cs| - 1])
    requires p.sections != [] ==> OpenHeader(cs[..|cs| - 1], 0) == Some(p.sections[|p.sections| - 1])
    ensures Append(p, cs[|cs| - 1]).buffer == p.buffer + LastPart(cs, |p.codeRefs|)
    ensures var c := cs[|cs| - 1];
            Append(p, c).codeRefs == if c.StreamCode? then p.codeRefs + [c.code] else p.codeRefs
  {
    hide FromString, Join, OpenHeader;
    if cs[|cs| - 1].StreamText? {
      S.Assoc(p.buffer, [Ch(' ')], cs[|cs| - 1].text);
    }
  }

  /** With plain text only, the tags of a page are 0..n-1 in order, once each, for its n code blocks. */
  lemma {:induction false} TagsInOrder(cs: seq<Call>)
    requires forall i :: 0 <= i < |cs| && cs[i].StreamText? ==> RefsOf(cs[i].text) == []
    ensures RefsOf(Rendered(cs)) == Upto(|CodesOf(cs)|)
  {
    if cs != [] {
      hide FromString, Join;
      var init := cs[..|cs| - 1];
      var n := |CodesOf(init)|;
      assert forall i :: 0 <= i < |init| ==> init[i] == cs[i];
      TagsInOrder(init);
      RefsConcat(Rendered(init), LastPart(cs, n));
      PartTags(cs, n);
      S.Empty(Upto(n));
      S.Empty(CodesOf(init));
      UptoStep(n);
      hide RefsOf, LastPart, Upto;
    }
  }

  lemma PartTags(cs: seq<Call>, n: nat)
    requires cs != [] && (cs[|cs| - 1].StreamText? ==> RefsOf(cs[|cs| - 1].text) == [])
    ensures RefsOf(LastPart(cs, n)) == if cs[|cs| - 1].StreamCode? then [n] else []
  {
    hide FromString, Join, OpenHeader;
    match cs[|cs| - 1]
    case StreamText(t) => RefsConcat([Ch(' ')], t);
      assert [Ch(' ')][1..] == [];
    case StreamCode(_) =>
      var part := [Ch('\n'), Ref(n), Ch('\n')];
      assert part[1..] == [Ref(n), Ch('\n')] && part[1..][1..] == [Ch('\n')] && part[1..][1..][1..] == [];
      assert RefsOf([Ch('\n')]) == [];
      assert RefsOf(part[1..]) == [n] + RefsOf(part[1..][1..]);
    case SectionStart(hs) => PlainText("\n\nSection: " + Join(hs) + "\n");
    case SectionEnd => PlainText("\n(End of Section " + Join(OpenHeader(cs[..|cs| - 1], 0).GetOr([])) + ")");
  }

  // ---- The streamer objects ----

  class TextStreamer {
    const parent: TextStreamer?
    const header: seq<string>
    const active: bool
    var buffer: Text
    var codeRefs: seq<string>
    var sectionStack: seq<seq<string>>
    /** This streamer and its ancestors. */
    ghost const chain: set<TextStreamer>
    /** Every call made on this streamer or on a descendant of it, in order. */
    ghost var calls: seq<Call>

    ghost predicate Linked()
      decreases chain
    {
      this in chain &&
      if parent == null then chain == {this}
      else this !in parent.chain && chain == {this} + parent.chain && parent.Linked()
    }

    /** The fields of an active streamer are the page of the calls it has seen. */
    ghost predicate InStep()
      reads this
    {
      active ==> After(calls) == Some(Page(buffer, codeRefs, sectionStack))
    }

    constructor (parent: TextStreamer?, header: seq<string>, minDepth: nat)
      requires parent != null ==> parent.Linked()
      ensures Linked() && InStep() && this.parent == parent && this.header == header && calls == []
      ensures active <==> |header| > minDepth
      ensures chain == {this} + if parent == null then {} else parent.chain
    {
      this.parent, this.header, this.active := parent, header, |header| > minDepth;
      buffer, codeRefs, sectionStack, calls := [], [], [], [];
      chain := {this} + if parent == null then {} else parent.chain;
      new;
    }

    /** One call: every streamer of the chain sees it, no other does. The requirement is that an end closes a
        section wherever it arrives, which the source asserts. */
    method Stream(c: Call)
      requires Linked() && forall s :: s in chain ==> s.InStep()
      requires forall s :: s in chain && s.active ==> Balanced(s.calls + [c])
      modifies chain
      ensures forall s :: s in chain ==> s.InStep() && s.calls == old(s.calls) + [c]
      decreases chain
    {
      hide After, Balanced;
      Record(c);
      if parent != null {
        parent.Stream(c);
      }
    }

    /** What one streamer does with a call. */
    method Record(c: Call)
      requires InStep() && (active ==> Balanced(calls + [c]))
      modifies this
      ensures InStep() && calls == old(calls) + [c]
    {
      assert (calls + [c])[..|calls|] == calls;
      if active {
        PageIsRendered(calls + [c]);
        hide Balanced, Rendered, CodesOf, FromString, Join;
        match c
        case StreamText(t) =>
          buffer := buffer + [Ch(' ')] + t;
        case StreamCode(code) =>
          buffer := buffer + [Ch('\n'), Ref(|codeRefs|), Ch('\n')];
          codeRefs := codeRefs + [code];
        case SectionStart(hs) =>
          buffer := buffer + FromString("\n\nSection: " + Join(hs) + "\n");
          sectionStack := sectionStack + [hs];
        case SectionEnd =>
          var n := |sectionStack| - 1;
          var curr := sectionStack[n];
          sectionStack := sectionStack[..n];
          buffer := buffer + FromString("\n(End of Section " + Join(curr) + ")");
      }
      calls := calls + [c];
    }
  }

  // ---- A tree of streamers ----

  /** Creating a streamer under an existing one (or none), or calling one. */
  datatype Op = NewStreamer(parent: Option<nat>, header: seq<string>) | CallOn(target: nat, call: Call)

  /** The parents of the streamers created, in order of creation. */
  function Parents(ops: seq<Op>): seq<Option<nat>> {
    if ops == [] then []
    else Parents(ops[..|ops| - 1]) + if ops[|ops| - 1].NewStreamer? then [ops[|ops| - 1].parent] else []
  }

  /** Their headers. */
  function Headers(ops: seq<Op>): (hs: seq<seq<string>>)
    ensures |hs| == |Parents(ops)|
  {
    if ops == [] then []
    else Headers(ops[..|ops| - 1]) + if ops[|ops| - 1].NewStreamer? then [ops[|ops| - 1].header] else []
  }

  /** `to` is `from` or one of its ancestors. */
  predicate Reaches(ps: seq<Option<nat>>, from: nat, to: nat)
    decreases from
  {
    from < |ps| && (from == to || (ps[from].Some? && ps[from].value < from && Reaches(ps, ps[from].value, to)))
  }

  /** The calls made on streamer i or its descendants, in call order. */
  function Seen(ops: seq<Op>, i: nat): seq<Call> {
    if ops == [] then []
    else
      var init, op := ops[..|ops| - 1], ops[|ops| - 1];
      Seen(init, i) + if op.CallOn? && Reaches(Parents(init), op.target, i) then [op.call] else []
  }

  /** Operations name existing streamers, and no section end arrives at an active one where nothing is open. */
  predicate OpsFit(ops: seq<Op>, minDepth: nat) {
    ops == [] ||
    var init, op := ops[..|ops| - 1], ops[|ops| - 1];
    OpsFit(init, minDepth) &&
    match op
    case NewStreamer(p, _) => p.Some? ==> p.value < |Parents(init)|
    case CallOn(t, c) =>
      t < |Parents(init)| &&
      forall i :: 0 <= i < |Parents(init)| && Reaches(Parents(init), t, i) && |Headers(init)[i]| > minDepth ==>
                    Balanced(Seen(init, i) + [c])
  }

  lemma {:induction false} ReachesOld(ps: seq<Option<nat>>, p: Option<nat>, from: nat, to: nat)
    requires from < |ps|
    ensures Reaches(ps + [p], from, to) == Reaches(ps, from, to)
    ensures Reaches(ps, from, to) ==> to <= from
    decreases from
  {
    if ps[from].Some? && ps[from].value < from { ReachesOld(ps, p, ps[from].value, to); }
  }

  lemma {:induction false} NotSeenYet(ops: seq<Op>, i: nat)
    requires i >= |Parents(ops)|
    ensures Seen(ops, i) == []
  {
    if ops != [] {
      var init, op := ops[..|ops| - 1], ops[|ops| - 1];
      NotSeenYet(init, i);
      if op.CallOn? && op.target < |Parents(init)| { ReachesOld(Parents(init), None, op.target, i); }
    }
  }

  /** The objects mirror the tree. */
  ghost predicate Mirrors(bodies: seq<TextStreamer>, ps: seq<Option<nat>>)
  {
    |bodies| == |ps| &&
    (forall i :: 0 <= i < |bodies| ==> bodies[i].Linked()) &&
    (forall i, j :: 0 <= i < j < |bodies| ==> bodies[i] != bodies[j]) &&
    (forall i, j :: 0 <= i < |bodies| && 0 <= j < |bodies| ==> (bodies[i] in bodies[j].chain <==> Reaches(ps, j, i))) &&
    (forall j, s :: 0 <= j < |bodies| && s in bodies[j].chain ==> s in bodies)
  }

  lemma MirrorsNew(bodies: seq<TextStreamer>, ps: seq<Option<nat>>, b: TextStreamer, p: Option<nat>)
    requires Mirrors(bodies, ps) && b.Linked() && b !in bodies && (p.Some? ==> p.value < |ps|)
    requires b.chain == {b} + if p.None? then {} else bodies[p.value].chain
    ensures Mirrors(bodies + [b], ps + [p])
  {
    var bs, n := bodies + [b], |ps|;
    forall i, j | 0 <= i <= n && 0 <= j <= n ensures bs[i] in bs[j].chain <==> Reaches(ps + [p], j, i) {
      if j < n {
        ReachesOld(ps, p, j, i);
      } else if p.Some? {
        ReachesOld(ps, p, p.value, i);
      }
    }
  }

  ghost function IndexIn<T>(xs: seq<T>, x: T): (i: nat)
    requires x in xs
    ensures i < |xs| && xs[i] == x
  {
    if xs[0] == x then 0 else 1 + IndexIn(xs[1..], x)
  }

  lemma PlaceOf(bodies: seq<TextStreamer>, ps: seq<Option<nat>>, t: nat, s: TextStreamer) returns (i: nat)
    requires Mirrors(bodies, ps) && t < |bodies| && s in bodies[t].chain
    ensures i < |bodies| && bodies[i] == s && Reaches(ps, t, i)
  {
    assert s in bodies;
    i := IndexIn(bodies, s);
    assert bodies[i] in bodies[t].chain;
  }

  datatype BlockChunk = BlockChunk(headers: seq<string>, part: nat, codeRefs: seq<string>, chunk: Text)

  /** The chunks expected of the first n streamers: one part 0 for each active one, rendering the calls on it and
      on its descendants merged in call order. */
  function ChunksOf(ops: seq<Op>, minDepth: nat, n: nat): seq<BlockChunk>
    requires n <= |Parents(ops)|
  {
    if n == 0 then []
    else
      ChunksOf(ops, minDepth, n - 1) +
      if |Headers(ops)[n - 1]| > minDepth
      then [BlockChunk(Headers(ops)[n - 1], 0, CodesOf(Seen(ops, n - 1)), Rendered(Seen(ops, n - 1)))] else []
  }

  /** The bodies hold the calls of the operations so far. */
  ghost predicate Holds(bodies: seq<TextStreamer>, ops: seq<Op>, minDepth: nat)
    reads bodies
  {
    |bodies| == |Parents(ops)| &&
    (forall i :: 0 <= i < |bodies| ==> bodies[i].InStep() && bodies[i].calls == Seen(ops, i)) &&
    (forall i :: 0 <= i < |bodies| ==>
        bodies[i].header == Headers(ops)[i] && (bodies[i].active <==> |Headers(ops)[i]| > minDepth))
  }

  class TextCollector {
    var bodies: seq<TextStreamer>

    constructor ()
      ensures bodies == []
    {
      bodies := [];
    }

    method Chunks(ghost ops: seq<Op>, minDepth: nat) returns (chunks: seq<BlockChunk>)
      requires Holds(bodies, ops, minDepth)
      ensures chunks == ChunksOf(ops, minDepth, |Parents(ops)|)
    {
      hide Parents, Headers, Seen, Rendered, CodesOf, TextStreamer.InStep;
      chunks := [];
      for n := 0 to |bodies|
        invariant chunks == ChunksOf(ops, minDepth, n)
      {
        var s := bodies[n];
        if s.active {
          InStepMeansRendered(s);
          chunks := chunks + [BlockChunk(s.header, 0, s.codeRefs, s.buffer)];
        }
      }
    }
  }

  /** No text streamed holds a tag of its own. */
  predicate TagFree(ops: seq<Op>) {
    forall i :: 0 <= i < |ops| && ops[i].CallOn? && ops[i].call.StreamText? ==> RefsOf(ops[i].call.text) == []
  }

  lemma {:induction false} SeenIsTagFree(ops: seq<Op>, i: nat)
    requires TagFree(ops)
    ensures forall k :: 0 <= k < |Seen(ops, i)| && Seen(ops, i)[k].StreamText? ==> RefsOf(Seen(ops, i)[k].text) == []
  {
    if ops != [] {
      var init := ops[..|ops| - 1];
      assert forall k :: 0 <= k < |init| ==> init[k] == ops[k];
      SeenIsTagFree(init, i);
      hide RefsOf, Reaches;
    }
  }

  /** Every chunk has the tags 0..n-1, once each in order, for its n references. */
  lemma {:induction false} ChunksAreTagged(ops: seq<Op>, minDepth: nat, n: nat)
    requires TagFree(ops) && n <= |Parents(ops)|
    ensures forall c :: c in ChunksOf(ops, minDepth, n) ==> RefsOf(c.chunk) == Upto(|c.codeRefs|)
  {
    if n > 0 {
      ChunksAreTagged(ops, minDepth, n - 1);
      SeenIsTagFree(ops, n - 1);
      TagsInOrder(Seen(ops, n - 1));
      hide TagFree, Seen, Rendered, CodesOf, RefsOf, Upto, Parents, Headers;
      var init := ChunksOf(ops, minDepth, n - 1);
      var last := BlockChunk(Headers(ops)[n - 1], 0, CodesOf(Seen(ops, n - 1)), Rendered(Seen(ops, n - 1)));
      assert ChunksOf(ops, minDepth, n) == init + if |Headers(ops)[n - 1]| > minDepth then [last] else [];
      hide ChunksOf;
    }
  }

  /** For every tree of streamers and every fitting sequence of calls, the collected chunks are the expected ones,
      and their tags are in order. */
  method StreamAll(ops: seq<Op>, minDepth: nat) returns (chunks: seq<BlockChunk>)
    requires OpsFit(ops, minDepth)
    ensures chunks == ChunksOf(ops, minDepth, |Parents(ops)|)
    ensures TagFree(ops) ==> forall c :: c in chunks ==> RefsOf(c.chunk) == Upto(|c.codeRefs|)
  {
    if TagFree(ops) { ChunksAreTagged(ops, minDepth, |Parents(ops)|); }
    hide OpsFit, Mirrors, Seen, Parents, Headers, Holds;
    var sink := new TextCollector();
    NothingYet(ops, minDepth);
    for k := 0 to |ops|
      invariant OpsFit(ops[..k], minDepth) && Mirrors(sink.bodies, Parents(ops[..k]))
      invariant forall i :: 0 <= i < |sink.bodies| ==> fresh(sink.bodies[i])
      invariant Holds(sink.bodies, ops[..k], minDepth)
    {
      OpsFitPrefix(ops, minDepth, k + 1);
      assert ops[..k] + [ops[k]] == ops[..k + 1];
      Do(sink, ops[..k], ops[k], minDepth);
    }
    assert ops[..|ops|] == ops;
    chunks := sink.Chunks(ops, minDepth);
  }

  lemma NothingYet(ops: seq<Op>, minDepth: nat)
    ensures OpsFit(ops[..0], minDepth) && Mirrors([], Parents(ops[..0])) && Holds([], ops[..0], minDepth)
  {}

  lemma InStepMeansRendered(s: TextStreamer)
    requires s.InStep() && s.active
    ensures s.buffer == Rendered(s.calls) && s.codeRefs == CodesOf(s.calls)
  {
    PageIsRendered(s.calls);
  }

  lemma {:induction false} OpsFitPrefix(ops: seq<Op>, minDepth: nat, k: nat)
    requires OpsFit(ops, minDepth) && k <= |ops|
    ensures OpsFit(ops[..k], minDepth)
    decreases |ops|
  {
    if k < |ops| {
      OpsFitPrefix(ops[..|ops| - 1], minDepth, k);
      assert ops[..|ops| - 1][..k] == ops[..k];
    } else {
      assert ops[..k] == ops;
    }
  }

  /** One operation. */
  method Do(sink: TextCollector, ghost init: seq<Op>, op: Op, minDepth: nat)
    requires OpsFit(init + [op], minDepth) && Mirrors(sink.bodies, Parents(init)) && Holds(sink.bodies, init, minDepth)
    modifies sink, sink.bodies
    ensures Mirrors(sink.bodies, Parents(init + [op])) && Holds(sink.bodies, init + [op], minDepth)
    ensures forall i :: 0 <= i < |sink.bodies| ==>
                          (i < |old(sink.bodies)| && sink.bodies[i] == old(sink.bodies)[i]) || fresh(sink.bodies[i])
  {
    hide After, Balanced, OpsFit, Mirrors, Seen, Parents, Headers, TextStreamer.InStep;
    OneMore(init, op, minDepth);
    match op
    case NewStreamer(p, header) =>
      NotSeenYet(init, |sink.bodies|);
      Grow(sink, Parents(init), p, header, minDepth);
    case CallOn(t, c) =>
      assert Parents(init) + [] == Parents(init) && Headers(init) + [] == Headers(init);
      CallOne(sink.bodies, init, t, c);
  }

  lemma OneMore(init: seq<Op>, op: Op, minDepth: nat)
    requires OpsFit(init + [op], minDepth)
    ensures Parents(init + [op]) == Parents(init) + if op.NewStreamer? then [op.parent] else []
    ensures Headers(init + [op]) == Headers(init) + if op.NewStreamer? then [op.header] else []
    ensures forall i :: Seen(init + [op], i) ==
              Seen(init, i) + if op.CallOn? && Reaches(Parents(init), op.target, i) then [op.call] else []
    ensures op.NewStreamer? && op.parent.Some? ==> op.parent.value < |Parents(init)|
    ensures op.CallOn? ==> op.target < |Parents(init)|
    ensures op.CallOn? ==>
              forall i :: 0 <= i < |Parents(init)| && Reaches(Parents(init), op.target, i) && |Headers(init)[i]| > minDepth ==>
                            Balanced(Seen(init, i) + [op.call])
  {
    hide Balanced, Reaches;
    assert (init + [op])[..|init|] == init;
  }

  method Grow(sink: TextCollector, ghost ps: seq<Option<nat>>, p: Option<nat>, header: seq<string>, minDepth: nat)
    requires Mirrors(sink.bodies, ps) && (p.Some? ==> p.value < |sink.bodies|)
    modifies sink
    ensures Mirrors(sink.bodies, ps + [p]) && |sink.bodies| == |old(sink.bodies)| + 1
    ensures forall i :: 0 <= i < |old(sink.bodies)| ==> sink.bodies[i] == old(sink.bodies)[i]
    ensures var b := sink.bodies[|old(sink.bodies)|];
            fresh(b) && b.InStep() && b.calls == [] && b.header == header && (b.active <==> |header| > minDepth)
  {
    var b := new TextStreamer(if p.None? then null else sink.bodies[p.value], header, minDepth);
    MirrorsNew(sink.bodies, ps, b, p);
    sink.bodies := sink.bodies + [b];
  }

  method CallOne(bodies: seq<TextStreamer>, ghost init: seq<Op>, t: nat, c: Call)
    requires Mirrors(bodies, Parents(init)) && t < |bodies|
    requires forall i :: 0 <= i < |bodies| ==> bodies[i].InStep() && bodies[i].calls == Seen(init, i)
    requires forall i :: 0 <= i < |bodies| && Reaches(Parents(init), t, i) && bodies[i].active ==>
                           Balanced(Seen(init, i) + [c])
    modifies bodies
    ensures forall i :: 0 <= i < |bodies| ==> bodies[i].InStep()
    ensures forall i :: 0 <= i < |bodies| ==>
              bodies[i].calls == Seen(init, i) + if Reaches(Parents(init), t, i) then [c] else []
  {
    hide After, Balanced, Mirrors, Seen, Parents, TextStreamer.InStep;
    ChainPlaces(bodies, Parents(init), t);
    bodies[t].Stream(c);
  }

  lemma ChainPlaces(bodies: seq<TextStreamer>, ps: seq<Option<nat>>, t: nat)
    requires Mirrors(bodies, ps) && t < |bodies|
    ensures bodies[t].Linked()
    ensures forall i :: 0 <= i < |bodies| ==> (bodies[i] in bodies[t].chain <==> Reaches(ps, t, i))
    ensures forall s :: s in bodies[t].chain ==> exists i :: 0 <= i < |bodies| && bodies[i] == s && Reaches(ps, t, i)
  {
    forall s | s in bodies[t].chain ensures exists i :: 0 <= i < |bodies| && bodies[i] == s && Reaches(ps, t, i) {
      var i := PlaceOf(bodies, ps, t, s);
    }
  }
}
