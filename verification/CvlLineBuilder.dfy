/** The printer as it runs: `LineBuilder` and `LineInterleaver` are mutable buffers, and commands and rules
    append to them. Every method is tied to the lines of module CvlLines. */
module CvlLineBuilder {
  import opened Wrappers
  import opened CvlSchema
  import opened CvlPrinter
  import opened CvlCommands
  import opened CvlLines
  import RT = CvlRoundTrip

  /** One line under construction. */
  class LineInterleaver {
    const parent: LineBuilder
    var stringBuff: seq<Token>

    constructor (parent: LineBuilder)
      ensures this.parent == parent && stringBuff == []
    {
      this.parent := parent;
      stringBuff := [];
    }

    method Append(content: seq<Token>)
      modifies this
      ensures stringBuff == old(stringBuff) + content
    {
      stringBuff := stringBuff + content;
    }

    /** Leaving the `with` block hands the line to the parent. */
    method Exit()
      requires parent.childLine == this
      modifies parent
      ensures parent.childLine == null
      ensures parent.buffer == old(parent.Emitted())
    {
      parent.FinalizeMe(this);
    }
  }

  class LineBuilder {
    const indentAmt: nat
    const parent: LineBuilder?
    var buffer: seq<Line>
    var childLine: LineInterleaver?

    constructor (indentAmt: nat, parent: LineBuilder?)
      ensures this.indentAmt == indentAmt && this.parent == parent
      ensures buffer == [] && childLine == null
    {
      this.indentAmt := indentAmt;
      this.parent := parent;
      buffer := [];
      childLine := null;
    }

    /** The lines this builder stands for: those finished, then the one under construction unless it is
        still empty. */
    ghost function Emitted(): seq<Line>
      reads this, childLine
    {
      buffer + if childLine == null || childLine.stringBuff == [] then [] else [Line.Line(indentAmt, childLine.stringBuff)]
    }

    /** A nested builder. A line under construction is flushed first, so that nested lines come after it;
        what the builder stands for does not change. */
    method Indent() returns (nested: LineBuilder)
      modifies this, childLine
      ensures fresh(nested) && nested.indentAmt == indentAmt + 1 && nested.parent == this
      ensures nested.buffer == [] && nested.childLine == null
      ensures childLine == old(childLine) && (childLine != null ==> childLine.stringBuff == [])
      ensures buffer == old(Emitted())
    {
      if childLine != null && childLine.stringBuff != [] {
        AddLine(childLine.stringBuff);
        childLine.stringBuff := [];
      }
      nested := new LineBuilder(indentAmt + 1, this);
    }

    /** Leaving the `with` block of a nested builder copies its lines to the parent. */
    method Exit()
      requires parent != this
      modifies if parent == null then {} else {parent}
      ensures parent != null ==> parent.buffer == old(parent.buffer) + buffer && parent.childLine == old(parent.childLine)
    {
      if parent != null {
        parent.buffer := parent.buffer + buffer;
      }
    }

    method FinalizeMe(interleaver: LineInterleaver)
      modifies this
      ensures childLine == null
      ensures buffer == old(buffer) +
              if interleaver.stringBuff == [] then [] else [Line.Line(indentAmt, interleaver.stringBuff)]
    {
      if interleaver.stringBuff != [] {
        AddLine(interleaver.stringBuff);
      }
      childLine := null;
    }

    method AddLine(line: seq<Token>)
      modifies this
      ensures buffer == old(buffer) + [Line.Line(indentAmt, line)] && childLine == old(childLine)
    {
      buffer := buffer + [Line.Line(indentAmt, line)];
    }

    /** None stands for the RuntimeError of building two lines at once. */
    method OpenLine() returns (r: Option<LineInterleaver>)
      modifies this
      ensures buffer == old(buffer)
      ensures r.None? <==> old(childLine) != null
      ensures r.None? ==> childLine == old(childLine)
      ensures r.Some? ==> fresh(r.value) && childLine == r.value && r.value.parent == this && r.value.stringBuff == []
    {
      if childLine != null {
        return None;
      }
      var line := new LineInterleaver(this);
      childLine := line;
      r := Some(line);
    }
  }

  lemma {:induction false} LinesOfPrefix(cs: seq<Command>, n: nat, d: nat)
    requires n < |cs|
    ensures CommandsLines(cs[..n + 1], d) == CommandsLines(cs[..n], d) + CommandLines(cs[n], d)
  {
    hide CommandLines;
    if n == 0 {
      assert cs[..1][1..] == [] && cs[..0] == [];
    } else {
      LinesOfPrefix(cs[1..], n - 1, d);
      assert cs[..n + 1][1..] == cs[1..][..n];
      assert cs[..n][1..] == cs[1..][..n - 1];
    }
  }

  method PrintCommands(cs: seq<Command>, ident: LineBuilder)
    requires ident.childLine == null
    modifies ident
    ensures ident.childLine == null
    ensures ident.buffer == old(ident.buffer) + CommandsLines(cs, ident.indentAmt)
    decreases cs, 0
  {
    for i := 0 to |cs|
      invariant ident.childLine == null
      invariant ident.buffer == old(ident.buffer) + CommandsLines(cs[..i], ident.indentAmt)
    {
      PrintCommand(cs[i], ident);
      LinesOfPrefix(cs, i, ident.indentAmt);
    }
    assert cs[..|cs|] == cs;
  }

  method PrintCommand(c: Command, ident: LineBuilder)
    requires ident.childLine == null
    modifies ident
    ensures ident.childLine == null
    ensures ident.buffer == old(ident.buffer) + CommandLines(c, ident.indentAmt)
    decreases c, 2
  {
    match c
    case One(s) => ident.AddLine(PrintSimple(s));
    case If(i) => PrintIfCmd(i, ident, false);
    case Block(cs) =>
      ident.AddLine([TLBrace]);
      var nested := ident.Indent();
      PrintCommands(cs, nested);
      nested.Exit();
      ident.AddLine([TRBrace]);
  }

  method PrintIfCmd(i: IfCmd, ident: LineBuilder, isElseif: bool)
    requires ident.childLine == null
    modifies ident
    ensures ident.childLine == null
    ensures ident.buffer == old(ident.buffer) + IfLines(i, ident.indentAmt, isElseif)
    decreases i, 1
  {
    hide PrintInner;
    var ifLine := [TIf, TLParen] + PrintInner(i.condition) + [TRParen, TLBrace];
    if isElseif {
      ifLine := [TRBrace, TElse] + ifLine;
    }
    assert ifLine == IfHead(i.condition, isElseif);
    ident.AddLine(ifLine);
    var nested := ident.Indent();
    PrintCommands(i.thenCmd, nested);
    nested.Exit();
    match i.elseBlock
    case Some(e) => PrintElif(e, ident, i);
    case None => ident.AddLine([TRBrace]);
  }

  method PrintElif(e: ElseBlock, ident: LineBuilder, ghost i: IfCmd)
    requires ident.childLine == null && i.elseBlock == Some(e)
    modifies ident
    ensures ident.childLine == null
    ensures ident.buffer == old(ident.buffer) + ElseLines(i, ident.indentAmt)
    decreases i, 0
  {
    hide CommandsLines, IfLines;
    match e
    case Else(cs) =>
      ident.AddLine([TRBrace, TElse, TLBrace]);
      var nested := ident.Indent();
      PrintCommands(cs, nested);
      nested.Exit();
      ident.AddLine([TRBrace]);
    case ElseIf(j) => PrintIfCmd(j, ident, true);
  }

  // ---- Rules ----

  function FilterLine(f: FilteredBlock, comma: bool): seq<Token> {
    [TName(f.methodParam), TArrow] + PrintInner(f.e) + if comma then [TComma] else []
  }

  function FilterLines(fs: seq<FilteredBlock>, d: nat): seq<Line> {
    seq(|fs|, i requires 0 <= i < |fs| => Line.Line(d, FilterLine(fs[i], i != |fs| - 1)))
  }

  /** `rule name` and the parameters, if any. */
  function RuleHead(r: RuleBlock): seq<Token> {
    [TRule, TName(r.ruleName)] +
    if r.ruleParams == [] then [] else [TLParen] + PrintTypeAndIds(r.ruleParams) + [TRParen]
  }

  predicate HasFilters(r: RuleBlock) {
    r.filteredBlock.Some? && r.filteredBlock.value != []
  }

  /** The lines of a rule: with filters the head is split in two around the indented filter lines. */
  function RuleLines(r: RuleBlock, d: nat): seq<Line> {
    RuleOpening(r, d) + (CommandsLines(r.block, d + 1) + [Line.Line(d, [TRBrace])])
  }

  function RuleOpening(r: RuleBlock, d: nat): seq<Line> {
    if HasFilters(r) then
      [Line.Line(d, RuleHead(r) + [TFiltered, TLBrace])] +
      (FilterLines(r.filteredBlock.value, d + 1) + [Line.Line(d, [TRBrace, TLBrace])])
    else [Line.Line(d, RuleHead(r) + [TLBrace])]
  }

  method PrintFilters(fs: seq<FilteredBlock>, nested: LineBuilder)
    requires nested.childLine == null
    modifies nested
    ensures nested.childLine == null
    ensures nested.buffer == old(nested.buffer) + FilterLines(fs, nested.indentAmt)
  {
    hide FilterLine;
    for i := 0 to |fs|
      invariant nested.childLine == null
      invariant nested.buffer == old(nested.buffer) + FilterLines(fs, nested.indentAmt)[..i]
    {
      nested.AddLine(FilterLine(fs[i], i != |fs| - 1));
    }
  }

  /** The `with ident.line_builder()` block of the rule printer: filter lines are emitted while the head is
      still under construction. */
  method PrintRuleOpening(rule: RuleBlock, ident: LineBuilder)
    requires ident.childLine == null
    modifies ident
    ensures ident.childLine == null
    ensures ident.buffer == old(ident.buffer) + RuleOpening(rule, ident.indentAmt)
  {
    hide PrintTypeAndId, FilterLines;
    var params := PrintTypeAndIds(rule.ruleParams);
    if rule.ruleParams != [] {
      ParamsPrintSomething(rule.ruleParams);
    }
    var started := ident.OpenLine();
    var lb := started.value;
    lb.Append([TRule, TName(rule.ruleName)]);
    if |params| > 0 {
      lb.Append([TLParen] + params + [TRParen]);
    }
    assert lb.stringBuff == RuleHead(rule);
    hide RuleHead;
    if rule.filteredBlock.Some? && rule.filteredBlock.value != [] {
      lb.Append([TFiltered, TLBrace]);
      var filters := ident.Indent();
      PrintFilters(rule.filteredBlock.value, filters);
      filters.Exit();
      lb.Append([TRBrace]);
    }
    lb.Append([TLBrace]);
    assert lb.stringBuff == if HasFilters(rule) then [TRBrace, TLBrace] else RuleHead(rule) + [TLBrace];
    lb.Exit();
  }

  method PrintRuleBlock(rule: RuleBlock, ident: LineBuilder)
    requires ident.childLine == null
    modifies ident
    ensures ident.childLine == null
    ensures ident.buffer == old(ident.buffer) + RuleLines(rule, ident.indentAmt)
  {
    hide RuleOpening, CommandsLines;
    PrintRuleOpening(rule, ident);
    var nested := ident.Indent();
    PrintCommands(rule.block, nested);
    nested.Exit();
    ident.AddLine([TRBrace]);
  }

  lemma ParamsPrintSomething(vs: seq<TypeAndId>)
    requires vs != []
    ensures PrintTypeAndIds(vs) != []
  {
    RT.TypeStart(vs[0].declType);
  }

  // ---- Rules are balanced and indented by depth ----

  predicate EndsWell(ts: seq<Token>) {
    ts != [] && ts[|ts| - 1] != TLBrace && ts[|ts| - 1] != TComma
  }

  lemma EndsConcat(a: seq<Token>, b: seq<Token>)
    requires EndsWell(b)
    ensures EndsWell(a + b)
  {}

  lemma EndsWrap(ts: seq<Token>, paren: bool)
    requires EndsWell(ts)
    ensures EndsWell(Wrap(ts, paren))
  {}

  /** No expression ends with an opening brace or a comma. */
  lemma {:induction false} LastToken(e: Expr)
    ensures EndsWell(PrintInner(e))
  {
    match e
    case BinaryOp(op, l, r) =>
      LastToken(r);
      EndsWrap(PrintInner(r), NeedsParentheses(r, e, true));
      hide EndsWell, Wrap;
      EndsConcat(Wrap(PrintInner(l), NeedsParentheses(l, e, false)) + [TOp(BinaryGlyph(op))],
                 Wrap(PrintInner(r), NeedsParentheses(r, e, true)));
    case UnaryOp(op, x) =>
      LastToken(x);
      EndsWrap(PrintInner(x), NeedsParentheses(x, e, false));
      hide EndsWell, Wrap;
      EndsConcat([TOp(UnaryGlyph(op))], Wrap(PrintInner(x), NeedsParentheses(x, e, false)));
    case Conditional(c, t, f) =>
      LastToken(f);
      RT.ConditionalPrints(c, t, f, []);
      hide EndsWell, PrintInner;
      EndsConcat(PrintInner(c) + [TQuestion] + PrintInner(t) + [TColon], PrintInner(f));
    case Quantifier(all, v, b) =>
      LastToken(b);
      RT.QuantifierPrints(all, v, b, []);
      hide EndsWell, PrintInner;
      EndsConcat([if all then TForall else TExists] + PrintTypeAndId(v) + [TDot], PrintInner(b));
    case SumExp(u, vs, b) =>
      LastToken(b);
      RT.SumPrints(u, vs, b, []);
      hide EndsWell, PrintInner;
      EndsConcat([if u then TUSum else TSum] + PrintTypeAndIds(vs) + [TDot], PrintInner(b));
    case _ => OwnLastToken(e);
  }

  lemma OwnLastToken(e: Expr)
    requires !e.BinaryOp? && !e.UnaryOp? && !e.Conditional? && !e.Quantifier? && !e.SumExp?
    ensures EndsWell(PrintInner(e))
  {}

  lemma FilterNested(fs: seq<FilteredBlock>, d: nat, n: nat)
    requires n <= |fs|
    ensures Nested(FilterLines(fs, d)[n..], d, d)
    decreases |fs| - n
  {
    hide PrintInner;
    if n < |fs| {
      LastToken(fs[n].e);
      FilterNested(fs, d, n + 1);
      assert FilterLines(fs, d)[n..][1..] == FilterLines(fs, d)[n + 1..];
    }
  }

  lemma RuleNested(r: RuleBlock, d: nat)
    ensures Nested(RuleLines(r, d), d, d)
  {
    BodyNested(r.block, d);
    OpeningNested(r, d);
    NestedConcat(RuleOpening(r, d), CommandsLines(r.block, d + 1) + [Line.Line(d, [TRBrace])], d, d + 1, d);
    hide Nested, CommandsLines, RuleOpening;
  }

  lemma OpeningNested(r: RuleBlock, d: nat)
    ensures Nested(RuleOpening(r, d), d, d + 1)
  {
    if HasFilters(r) {
      var fs := FilterLines(r.filteredBlock.value, d + 1);
      var head := Line.Line(d, RuleHead(r) + [TFiltered, TLBrace]);
      var mid := Line.Line(d, [TRBrace, TLBrace]);
      FilterNested(r.filteredBlock.value, d + 1, 0);
      assert fs[0..] == fs;
      OneNested(head, d);
      OneNested(mid, d + 1);
      hide Nested, FilterLines;
      NestedConcat(fs, [mid], d + 1, d + 1, d + 1);
      NestedConcat([head], fs + [mid], d, d + 1, d + 1);
    } else {
      OneNested(Line.Line(d, RuleHead(r) + [TLBrace]), d);
      hide Nested;
    }
  }
}
