/** The rewriting of code-reference tags as it runs: tags become placeholders, and Python's `%` fills them in. It
    is the intended renaming exactly on texts that do not mix tags and percent signs. */
module Fixup {
  import opened Wrappers
  import opened TaggedText
  import opened CodeRefs
  import opened PercentFormat
  import S = Sequences

  /** A text in characters. */
  function Spell(t: Text): string {
    if t == [] then "" else (if t[0].Ch? then [t[0].c] else Tag(t[0].n)) + Spell(t[1..])
  }

  /** The length the builder goes by is that of the text in characters, tags written out. */
  lemma {:induction false} LenIsSpelled(t: Text)
    ensures Len(t) == |Spell(t)|
  {
    if t != [] {
      LenIsSpelled(t[1..]);
      if t[0].Ref? { TagLength(t[0].n); }
    }
  }

  lemma TagLength(n: nat)
    ensures |Tag(n)| == 11 + Digits(n)
  {
    DecimalLength(n);
  }

  lemma {:induction false} DecimalLength(n: nat)
    ensures |Decimal(n)| == Digits(n)
  {
    if n >= 10 { DecimalLength(n / 10); }
  }

  function Placeholder(id: nat): string {
    "%(" + Key(id) + ")s"
  }

  function SpellPieces(ps: seq<Piece>): string {
    if ps == [] then ""
    else (if ps[0].Hole? then Placeholder(ps[0].id) else Spell([ps[0].a])) + SpellPieces(ps[1..])
  }

  /** The text with each tag replaced by the placeholder of its first occurrence. */
  function Template(t: Text, ns: seq<nat>): string {
    if t == [] then ""
    else (if t[0].Ref? then Placeholder(FirstIndex(t[0].n, ns)) else [t[0].c]) + Template(t[1..], ns)
  }

  /** The text with each tag renumbered. */
  function Filled(t: Text, ns: seq<nat>, base: nat): string {
    if t == [] then ""
    else (if t[0].Ref? then Tag(base + FirstIndex(t[0].n, ns)) else [t[0].c]) + Filled(t[1..], ns, base)
  }

  /** What comes out, in characters. */
  function Rewriting(t: Text, base: nat): Outcome {
    if RefsOf(t) == [] then Done(Spell(t)) else Format(Template(t, RefsOf(t)), true, Table(base, |RefsOf(t)|))
  }

  /** The rewriting raises, or yields the intended text, or yields something else. */
  datatype Fate = Exact | Garbled | Raises

  function FateOf(t: Text, base: nat): Fate {
    if Rewriting(t, base).Raised? then Raises
    else if Rewriting(t, base).out == Spell(Renamed(t, base)) then Exact
    else Garbled
  }

  /** Tags and percent signs are not mixed. */
  predicate Rewritable(t: Text) {
    RefsOf(t) == [] || Ch('%') !in t
  }

  // ---- The rewriting as it runs ----

  datatype Rewritten = Rewrote(text: Text) | Spoiled(out: string) | Failed

  /** One pass over the tag occurrences of the original text, then the placeholders are filled in. Repeated tags
      add an unused reference each. A result other than the intended text is kept in characters. */
  method FixupCodeRefs(text: Text, refs: seq<string>, codeRefs: seq<string>)
    returns (r: Rewritten, codeRefs': seq<string>)
    requires InRange(text, refs)
    ensures r.Failed? <==> FateOf(text, |codeRefs|) == Raises
    ensures r.Spoiled? <==> FateOf(text, |codeRefs|) == Garbled
    ensures r.Spoiled? ==> Rewriting(text, |codeRefs|) == Done(r.out)
    ensures r.Rewrote? <==> Rewritable(text)
    ensures r.Rewrote? ==> r.text == Renamed(text, |codeRefs|)
    ensures codeRefs' == codeRefs + Moved(text, refs)
  {
    hide RefsOf, Partly, ReplaceTag, Format, SpellPieces, Template, Spell;
    var names := RefsOf(text);
    var replacement: map<nat, nat> := map[];
    var replacer := seq(|text|, i requires 0 <= i < |text| => Piece.Kept(text[i]));
    codeRefs' := codeRefs;
    NothingReplaced(text);
    assert names[..0] == [];
    for id := 0 to |names|
      invariant replacer == Partly(text, names[..id])
      invariant codeRefs' == codeRefs + Moved(text, refs)[..id]
      invariant forall k :: k in replacement <==> 0 <= k < id
      invariant forall k :: k in replacement ==> replacement[k] == |codeRefs| + k
    {
      replacer := ReplaceTag(replacer, names[id], id);
      ReplaceNext(text, names[..id], names[id]);
      assert names[..id + 1] == names[..id] + [names[id]];
      replacement := replacement[id := |codeRefs'|];
      codeRefs' := codeRefs' + [refs[names[id]]];
    }
    assert names[..|names|] == names;
    assert Moved(text, refs)[..|names|] == Moved(text, refs);
    HolesFill(text, |codeRefs|);
    ExactExactlyWhenRewritable(text, |codeRefs|);
    assert 0 in replacement <==> |names| > 0;
    if replacement == map[] {
      r := Rewrote(text);
      return;
    }
    PiecesAreTemplate(text, names);
    var done := Format(SpellPieces(replacer), true, Table(|codeRefs|, |names|));
    if done.Raised? {
      r := Failed;
    } else if Ch('%') in text {
      r := Spoiled(done.out);
    } else {
      r := Rewrote(seq(|replacer|, i requires 0 <= i < |replacer| && (replacer[i].Hole? ==> replacer[i].id in replacement) =>
        match replacer[i] case Kept(a) => a case Hole(id) => Ref(replacement[id])));
    }
  }

  lemma {:induction false} PiecesAreTemplateOf(t: Text, ns: seq<nat>)
    requires forall i :: 0 <= i < |t| && t[i].Ref? ==> t[i].n in ns
    ensures SpellPieces(Partly(t, ns)) == Template(t, ns)
  {
    if t != [] {
      PiecesAreTemplateOf(t[1..], ns);
      var ps := Partly(t, ns);
      assert ps[1..] == Partly(t[1..], ns);
      if t[0].Ch? {
        assert ps[0] == Kept(t[0]);
        assert [t[0]][1..] == [];
        S.Empty([t[0].c]);
      } else {
        assert t[0].n in ns && ps[0] == Hole(FirstIndex(t[0].n, ns));
      }
      assert SpellPieces(ps) ==
             (if ps[0].Hole? then Placeholder(ps[0].id) else Spell([ps[0].a])) + SpellPieces(ps[1..]);
      hide Partly, Placeholder, SpellPieces;
    } else {
      assert Partly(t, ns) == [];
    }
  }

  lemma PiecesAreTemplate(t: Text, ns: seq<nat>)
    requires ns == RefsOf(t)
    ensures SpellPieces(Partly(t, ns)) == Template(t, ns)
  {
    forall i | 0 <= i < |t| && t[i].Ref? ensures t[i].n in ns { RefsAppear(t, i); }
    PiecesAreTemplateOf(t, ns);
  }

  // ---- Without percent signs ----

  lemma {:induction false} TemplateFills(t: Text, ns: seq<nat>, base: nat, whole: bool)
    requires Ch('%') !in t && forall i :: 0 <= i < |t| && t[i].Ref? ==> t[i].n in ns
    ensures Format(Template(t, ns), whole, Table(base, |ns|)) == Done(Filled(t, ns, base))
  {
    if t != [] {
      var tail, table := t[1..], Table(base, |ns|);
      assert forall i :: 0 <= i < |tail| ==> tail[i] == t[i + 1];
      if t[0].Ch? {
        TemplateFills(tail, ns, base, whole);
        FormatPlain([t[0].c], Template(tail, ns), whole, table);
      } else {
        TemplateFills(tail, ns, base, false);
        FormatPlaceholder(FirstIndex(t[0].n, ns), Template(tail, ns), whole, table);
      }
      hide Format;
    }
  }

  lemma FormatPlaceholder(id: nat, f: string, whole: bool, t: Table)
    requires id < t.count
    ensures Format(Placeholder(id) + f, whole, t) ==
            if Format(f, false, t).Raised? then Raised else Done(Tag(t.base + id) + Format(f, false, t).out)
  {
    var s := Placeholder(id) + f;
    assert s[0] == '%' && s[1..] == "(" + Key(id) + ")s" + f;
    ConvertPlaceholder(id, f, whole, t);
    hide Convert, Key, Tag;
  }

  function RenamedBy(t: Text, ns: seq<nat>, base: nat): Text {
    seq(|t|, i requires 0 <= i < |t| => if t[i].Ref? then Ref(base + FirstIndex(t[i].n, ns)) else t[i])
  }

  lemma RenamedTail(t: Text, ns: seq<nat>, base: nat)
    requires t != []
    ensures var u := RenamedBy(t, ns, base);
            u != [] && u[1..] == RenamedBy(t[1..], ns, base) &&
            u[0] == if t[0].Ref? then Ref(base + FirstIndex(t[0].n, ns)) else t[0]
  {
    hide FirstIndex;
  }

  lemma {:induction false} SpellRenamed(t: Text, ns: seq<nat>, base: nat)
    ensures Spell(RenamedBy(t, ns, base)) == Filled(t, ns, base)
  {
    if t != [] {
      SpellRenamed(t[1..], ns, base);
      RenamedTail(t, ns, base);
      hide FirstIndex, Tag, RenamedBy;
    }
  }

  // ---- With percent signs: counting ----

  function Chars(t: Text, c: char): nat {
    if t == [] then 0 else (if t[0] == Ch(c) then 1 else 0) + Chars(t[1..], c)
  }

  lemma {:induction false} CharsOf(t: Text, c: char)
    ensures Chars(t, c) == 0 <==> Ch(c) !in t
  {
    if t != [] {
      CharsOf(t[1..], c);
      S.HeadAndTail(t);
    }
  }

  lemma {:induction false} CountTemplate(t: Text, ns: seq<nat>, c: char)
    requires IsCounted(c)
    ensures Count(Template(t, ns), c) == Chars(t, c) + if c == '%' then |RefsOf(t)| else 0
  {
    if t != [] {
      CountTemplate(t[1..], ns, c);
      if t[0].Ch? {
        CountOne(t[0].c, c);
        CountConcat([t[0].c], Template(t[1..], ns), c);
      } else {
        CountPlaceholder(FirstIndex(t[0].n, ns), c);
        CountConcat(Placeholder(FirstIndex(t[0].n, ns)), Template(t[1..], ns), c);
      }
      hide Count, Placeholder;
    }
  }

  lemma CountPlaceholder(id: nat, c: char)
    requires IsCounted(c)
    ensures Count(Placeholder(id), c) == if c == '%' then 1 else 0
  {
    CountKey(id, c);
    CountOne('%', c);
    CountOne('(', c);
    CountOne(')', c);
    CountOne('s', c);
    hide Count, Key;
    assert Placeholder(id) == "%" + ("(" + (Key(id) + (")" + "s")));
    CountConcat("%", "(" + (Key(id) + (")" + "s")), c);
    CountConcat("(", Key(id) + (")" + "s"), c);
    CountConcat(Key(id), ")" + "s", c);
    CountConcat(")", "s", c);
  }

  lemma {:induction false} CountFilled(t: Text, ns: seq<nat>, base: nat, c: char)
    requires IsCounted(c)
    ensures Count(Filled(t, ns, base), c) == Chars(t, c) + if c == '<' then |RefsOf(t)| else 0
  {
    if t != [] {
      CountFilled(t[1..], ns, base, c);
      if t[0].Ch? {
        CountOne(t[0].c, c);
        CountConcat([t[0].c], Filled(t[1..], ns, base), c);
      } else {
        CountTag(base + FirstIndex(t[0].n, ns), c);
        CountConcat(Tag(base + FirstIndex(t[0].n, ns)), Filled(t[1..], ns, base), c);
      }
      hide Count, Tag;
    }
  }

  /** Main result on rewriting: it yields the intended text if and only if the text has no tag or no percent
      sign. For a text with both, every way the formatting can go, raising aside, loses a percent sign, loses a
      tag, or spills the table. */
  lemma ExactExactlyWhenRewritable(t: Text, base: nat)
    ensures FateOf(t, base) == Exact <==> Rewritable(t)
  {
    var ns := RefsOf(t);
    SpellRenamed(t, ns, base);
    assert Renamed(t, base) == RenamedBy(t, ns, base);
    if ns == [] {
      HolesFill(t, base);
    } else if Ch('%') !in t {
      forall i | 0 <= i < |t| && t[i].Ref? ensures t[i].n in ns { RefsAppear(t, i); }
      TemplateFills(t, ns, base, true);
    } else if Rewriting(t, base).Done? {
      FormatIsPaid(Template(t, ns), true, Table(base, |ns|));
      CharsOf(t, '%');
      assert IsCounted('<') && IsCounted('%') && IsCounted('{');
      CountTemplate(t, ns, '<');
      CountTemplate(t, ns, '%');
      CountTemplate(t, ns, '{');
      CountFilled(t, ns, base, '<');
      CountFilled(t, ns, base, '%');
      CountFilled(t, ns, base, '{');
    }
    hide Count, Template, Filled, Spell, Format, Renamed, RefsOf;
  }

  // ---- A family of spoiled texts ----

  /** `%s` before the first tag: the table is written out in its place, so the tag appears twice. Nothing is
      raised. */
  lemma PercentSRepeatsTheTag(x: string, y: string, n: nat, base: nat)
    requires '%' !in x && '%' !in y
    ensures var t := FromString(x + "%s" + y) + [Ref(n)];
            var u := FromString(x + "{'repl0': '") + [Ref(base)] + FromString("'}" + y) + [Ref(base)];
            FateOf(t, base) == Garbled && Rewriting(t, base) == Done(Spell(u)) && RefsOf(u) == [base, base]
  {
    var t := FromString(x + "%s" + y) + [Ref(n)];
    assert t[|x|] == Ch('%');
    TagsAround(x + "%s" + y, n);
    SpelledTable(x, y, base);
    TableFormats(x, y, base);
    TemplateOfTable(x, y, n);
    ExactExactlyWhenRewritable(t, base);
    hide FateOf, Format, Spell, Template, RefsOf, Placeholder, Dump, Tag, FromString;
    assert Rewriting(t, base).Done?;
    assert FateOf(t, base) != Raises by { NotRaised(t, base); }
  }

  lemma NotRaised(t: Text, base: nat)
    requires Rewriting(t, base).Done?
    ensures FateOf(t, base) != Raises
  {}

  lemma TemplateOfTable(x: string, y: string, n: nat)
    ensures Template(FromString(x + "%s" + y) + [Ref(n)], [n]) == x + ("%s" + (y + Placeholder(0)))
  {
    PlainTemplate(x + "%s" + y, [n]);
    TemplateConcat(FromString(x + "%s" + y), [Ref(n)], [n]);
    OneTag(n);
    hide Template, FromString, Placeholder;
    FourParts(x, "%s", y, Placeholder(0));
  }

  lemma FourParts(a: string, b: string, c: string, d: string)
    ensures a + b + c + d == a + (b + (c + d))
  {}

  lemma OneTag(n: nat)
    ensures Template([Ref(n)], [n]) == Placeholder(0) && Spell([Ref(n)]) == Tag(n)
  {
    assert [Ref(n)][1..] == [];
    S.Empty(Placeholder(0));
    S.Empty(Tag(n));
    hide Tag, Placeholder;
  }

  lemma TagsAround(x: string, n: nat)
    ensures RefsOf(FromString(x) + [Ref(n)]) == [n]
  {
    PlainText(x);
    RefsConcat(FromString(x), [Ref(n)]);
    assert [Ref(n)][1..] == [];
  }

  lemma {:induction false} TemplateConcat(a: Text, b: Text, ns: seq<nat>)
    ensures Template(a + b, ns) == Template(a, ns) + Template(b, ns)
  {
    if a == [] {
      S.Empty(b);
      S.Empty(Template(b, ns));
    } else {
      S.TailOfConcat(a, b);
      TemplateConcat(a[1..], b, ns);
      S.Assoc(if a[0].Ref? then Placeholder(FirstIndex(a[0].n, ns)) else [a[0].c], Template(a[1..], ns), Template(b, ns));
      hide Placeholder;
    }
  }

  lemma {:induction false} SpellConcat(a: Text, b: Text)
    ensures Spell(a + b) == Spell(a) + Spell(b)
  {
    if a == [] {
      S.Empty(b);
      S.Empty(Spell(b));
    } else {
      S.TailOfConcat(a, b);
      SpellConcat(a[1..], b);
      S.Assoc(if a[0].Ch? then [a[0].c] else Tag(a[0].n), Spell(a[1..]), Spell(b));
      hide Tag;
    }
  }

  lemma {:induction false} PlainTemplate(s: string, ns: seq<nat>)
    ensures Template(FromString(s), ns) == s && Spell(FromString(s)) == s
  {
    if s != "" {
      assert FromString(s)[1..] == FromString(s[1..]);
      PlainTemplate(s[1..], ns);
      S.HeadAndTail(s);
    }
  }

  lemma TableFormats(x: string, y: string, base: nat)
    requires '%' !in x && '%' !in y
    ensures Format(x + ("%s" + (y + Placeholder(0))), true, Table(base, 1)) ==
            Done(x + (Dump(Table(base, 1)) + (y + Tag(base))))
  {
    var table, rest := Table(base, 1), y + Placeholder(0);
    FormatPlain(x, "%s" + rest, true, table);
    FormatTable(rest, table);
    FormatPlain(y, Placeholder(0), false, table);
    FormatLast(0, table);
    hide Format, Dump, Tag, Placeholder;
  }

  lemma FormatLast(id: nat, table: Table)
    requires id < table.count
    ensures Format(Placeholder(id), false, table) == Done(Tag(table.base + id))
  {
    FormatPlaceholder(id, "", false, table);
    S.Empty(Placeholder(id));
    assert Format("", false, table) == Done("");
    S.Empty(Tag(table.base + id));
    hide Format, Tag, Placeholder;
  }

  lemma FormatTable(rest: string, table: Table)
    ensures Format("%s" + rest, true, table) ==
            if Format(rest, false, table).Raised? then Raised else Done(Dump(table) + Format(rest, false, table).out)
  {
    assert ("%s" + rest)[0] == '%' && ("%s" + rest)[1..] == "s" + rest;
    ConvertTable(rest, table);
    hide Convert, Dump;
  }

  lemma ConvertTable(rest: string, table: Table)
    ensures Convert("s" + rest, true, table) == Put("s", Dump(table), false, rest)
  {
    PlainLayout(rest);
    PlainShown(Dump(table));
    hide Dump, TakeLayout, Pad, Cut;
  }

  lemma SpelledTable(x: string, y: string, base: nat)
    ensures var u := FromString(x + "{'repl0': '") + [Ref(base)] + FromString("'}" + y) + [Ref(base)];
            Spell(u) == x + (Dump(Table(base, 1)) + (y + Tag(base))) && RefsOf(u) == [base, base]
  {
    var a, b := FromString(x + "{'repl0': '"), FromString("'}" + y);
    TagsAround(x + "{'repl0': '", base);
    TagsAround("'}" + y, base);
    TwoTags(a, b, base);
    PlainTemplate(x + "{'repl0': '", []);
    PlainTemplate("'}" + y, []);
    OneEntry(base);
    hide Spell, Dump, Tag, RefsOf, FromString;
    SixParts(x, "{'repl0': '", Tag(base), "'}", y);
  }

  lemma TwoTags(a: Text, b: Text, base: nat)
    ensures RefsOf(a + [Ref(base)] + b + [Ref(base)]) == RefsOf(a + [Ref(base)]) + RefsOf(b + [Ref(base)])
    ensures Spell(a + [Ref(base)] + b + [Ref(base)]) == Spell(a) + Tag(base) + (Spell(b) + Tag(base))
  {
    S.Assoc(a + [Ref(base)], b, [Ref(base)]);
    RefsConcat(a + [Ref(base)], b + [Ref(base)]);
    SpellConcat(a + [Ref(base)], b + [Ref(base)]);
    SpellConcat(a, [Ref(base)]);
    SpellConcat(b, [Ref(base)]);
    OneTag(base);
    hide Spell, RefsOf;
  }

  lemma SixParts(x: string, open: string, tag: string, close: string, y: string)
    ensures x + open + tag + (close + y + tag) == x + (open + tag + close + (y + tag))
  {}

  lemma OneEntry(base: nat)
    ensures Dump(Table(base, 1)) == "{'repl0': '" + Tag(base) + "'}"
  {
    var t := Table(base, 1);
    assert Entries(t, 1) == "";
    KeyZero();
    hide Tag, Key;
    assert Entries(t, 0) == "" + "'" + Key(0) + "': '" + Tag(base + 0) + "'" + "";
    QuotedKey();
    Quotes("'repl0': '", Tag(base));
    hide Entries;
  }

  lemma QuotedKey()
    ensures "" + "'" + "repl0" + "': '" == "'repl0': '"
  {}

  lemma Quotes(open: string, tag: string)
    ensures "{" + (open + tag + "'" + "") + "}" == "{" + open + tag + "'}"
  {}

  lemma KeyZero()
    ensures Key(0) == "repl0"
  {
  }
}
