/** Reading printed rules back: head, parameters, filters and commands. */
module CvlRules {
  import opened Wrappers
  import opened CvlSchema
  import opened CvlPrinter
  import opened CvlReader
  import opened CvlLines
  import opened CvlLineBuilder
  import RT = CvlRoundTrip
  import S = Sequences

  /** `rule name` and, in parentheses, parameters if there are any. */
  function ReadHead(ts: seq<Token>): Option<(string, seq<TypeAndId>)> {
    if |ts| < 2 || ts[0] != TRule || !ts[1].TName? then None
    else if |ts| == 2 then Some((ts[1].text, []))
    else if |ts| < 4 || ts[2] != TLParen || ts[|ts| - 1] != TRParen then None
    else
      var vs := ParseVariables(ts[3..|ts| - 1] + [TDot]);
      if vs.Ok? && vs.rest == [] && vs.value != [] then Some((ts[1].text, vs.value)) else None
  }

  /** One filter, and whether a comma announces another. */
  function ReadFilter(ts: seq<Token>): Option<(FilteredBlock, bool)> {
    if |ts| < 2 || !ts[0].TName? || ts[1] != TArrow then None
    else
      var comma := ts[|ts| - 1] == TComma;
      var e := Parse(if comma then ts[2..|ts| - 1] else ts[2..]);
      if e.None? then None else Some((FilteredBlock(e.value, ts[0].text), comma))
  }

  function ReadFilters(ls: seq<Line>): (r: Read<seq<FilteredBlock>>)
    ensures r.Good? ==> |r.rest| < |ls|
  {
    if ls == [] then Bad
    else
      var f := ReadFilter(ls[0].tokens);
      if f.None? then Bad
      else if !f.value.1 then Good([f.value.0], ls[1..])
      else
        var fs := ReadFilters(ls[1..]);
        if fs.Bad? then Bad else Good([f.value.0] + fs.value, fs.rest)
  }

  /** The commands of a rule, up to its closing brace, which is the last line. */
  function ReadBlock(ls: seq<Line>): Option<seq<Command>> {
    var b := ReadBody(ls);
    if b.Good? && b.rest == [] then Some(b.value) else None
  }

  function ReadRule(ls: seq<Line>): Option<RuleBlock> {
    if ls == [] then None
    else
      var ts := ls[0].tokens;
      if |ts| >= 2 && ts[|ts| - 2] == TFiltered && ts[|ts| - 1] == TLBrace then
        var h := ReadHead(ts[..|ts| - 2]);
        var fs := ReadFilters(ls[1..]);
        if h.None? || fs.Bad? || fs.rest == [] || fs.rest[0].tokens != [TRBrace, TLBrace] then None
        else
          var b := ReadBlock(fs.rest[1..]);
          if b.None? then None else Some(RuleBlock(h.value.0, h.value.1, Some(fs.value), b.value))
      else if |ts| >= 1 && ts[|ts| - 1] == TLBrace then
        var h := ReadHead(ts[..|ts| - 1]);
        var b := ReadBlock(ls[1..]);
        if h.None? || b.None? then None else Some(RuleBlock(h.value.0, h.value.1, None, b.value))
      else None
  }

  // ---- Normal forms ----

  function NormalFilters(fs: seq<FilteredBlock>): seq<FilteredBlock> {
    seq(|fs|, i requires 0 <= i < |fs| => FilteredBlock(RT.Normal(fs[i].e), fs[i].methodParam))
  }

  /** An empty list of filters is printed like none. */
  function NormalRule(r: RuleBlock): RuleBlock {
    RuleBlock(r.ruleName, r.ruleParams, if HasFilters(r) then Some(NormalFilters(r.filteredBlock.value)) else None,
              NormalCommands(r.block))
  }

  // ---- Reading back ----

  lemma HeadReadsBack(r: RuleBlock)
    ensures ReadHead(RuleHead(r)) == Some((r.ruleName, r.ruleParams))
    ensures RuleHead(r)[|RuleHead(r)| - 1] != TFiltered
  {
    if r.ruleParams != [] {
      RT.VariablesReadBack(r.ruleParams, []);
      S.Empty(PrintTypeAndIds(r.ruleParams) + [TDot]);
      hide ParseVariables, PrintTypeAndIds;
      ReadParameters(r.ruleName, PrintTypeAndIds(r.ruleParams), r.ruleParams);
    }
  }

  lemma ReadParameters(name: string, ps: seq<Token>, vs: seq<TypeAndId>)
    requires ParseVariables(ps + [TDot]) == Ok(vs, []) && vs != []
    ensures ReadHead([TRule, TName(name)] + ([TLParen] + ps + [TRParen])) == Some((name, vs))
  {
    hide ParseVariables;
    var ts := [TRule, TName(name)] + ([TLParen] + ps + [TRParen]);
    assert ts[3..|ts| - 1] == ps;
  }

  lemma FilterReadsBack(f: FilteredBlock, comma: bool)
    ensures ReadFilter(FilterLine(f, comma)) == Some((FilteredBlock(RT.Normal(f.e), f.methodParam), comma))
  {
    var ts := FilterLine(f, comma);
    LastToken(f.e);
    RT.ReadBack(f.e);
    hide PrintInner, Parse;
    assert (if comma then ts[2..|ts| - 1] else ts[2..]) == PrintInner(f.e);
    assert comma <==> ts[|ts| - 1] == TComma;
  }

  lemma FilterLinesFrom(fs: seq<FilteredBlock>, d: nat, n: nat, rest: seq<Line>)
    requires n < |fs|
    ensures FilterLines(fs, d)[n..] + rest ==
            [Line.Line(d, FilterLine(fs[n], n != |fs| - 1))] + (FilterLines(fs, d)[n + 1..] + rest)
    ensures NormalFilters(fs)[n..] == [FilteredBlock(RT.Normal(fs[n].e), fs[n].methodParam)] + NormalFilters(fs)[n + 1..]
    ensures n == |fs| - 1 ==> FilterLines(fs, d)[n + 1..] == [] && NormalFilters(fs)[n + 1..] == []
  {
    hide FilterLine;
  }

  lemma ReadOneFilter(l: Line, f: FilteredBlock, comma: bool, k: seq<Line>)
    requires ReadFilter(l.tokens) == Some((f, comma))
    ensures !comma ==> ReadFilters([l] + k) == Good([f], k)
    ensures comma && ReadFilters(k).Good? ==> ReadFilters([l] + k) == Good([f] + ReadFilters(k).value, ReadFilters(k).rest)
  {
    assert ([l] + k)[0] == l && ([l] + k)[1..] == k;
    hide ReadFilter;
  }

  lemma {:induction false} FiltersReadBack(fs: seq<FilteredBlock>, d: nat, n: nat, rest: seq<Line>)
    requires n < |fs|
    ensures ReadFilters(FilterLines(fs, d)[n..] + rest) == Good(NormalFilters(fs)[n..], rest)
    decreases |fs| - n
  {
    var k := FilterLines(fs, d)[n + 1..] + rest;
    var f := FilteredBlock(RT.Normal(fs[n].e), fs[n].methodParam);
    FilterLinesFrom(fs, d, n, rest);
    FilterReadsBack(fs[n], n != |fs| - 1);
    ReadOneFilter(Line.Line(d, FilterLine(fs[n], n != |fs| - 1)), f, n != |fs| - 1, k);
    hide ReadFilters, ReadFilter, FilterLine, FilterLines, NormalFilters;
    if n == |fs| - 1 {
      S.Empty(rest);
      S.Empty([f]);
    } else {
      FiltersReadBack(fs, d, n + 1, rest);
    }
  }

  lemma BlockReadsBack(cs: seq<Command>, d: nat)
    ensures ReadBlock(CommandsLines(cs, d + 1) + [Line.Line(d, [TRBrace])]) == Some(NormalCommands(cs))
  {
    BodyReadsBack(cs, d, []);
    S.Empty(CommandsLines(cs, d + 1) + [Line.Line(d, [TRBrace])]);
    hide ReadBody, CommandsLines, NormalCommands;
  }

  lemma ReadPlainRule(ls: seq<Line>, h: seq<Token>, name: string, params: seq<TypeAndId>, cs: seq<Command>)
    requires ls != [] && ls[0].tokens == h + [TLBrace] && (h == [] || h[|h| - 1] != TFiltered)
    requires ReadHead(h) == Some((name, params)) && ReadBlock(ls[1..]) == Some(cs)
    ensures ReadRule(ls) == Some(RuleBlock(name, params, None, cs))
  {
    var ts := ls[0].tokens;
    assert ts[..|ts| - 1] == h && (h != [] ==> ts[|ts| - 2] == h[|h| - 1]);
    hide ReadHead, ReadBlock;
  }

  lemma ReadFilteredRule(ls: seq<Line>, h: seq<Token>, name: string, params: seq<TypeAndId>, fs: seq<FilteredBlock>,
                         more: seq<Line>, cs: seq<Command>)
    requires ls != [] && ls[0].tokens == h + [TFiltered, TLBrace]
    requires ReadHead(h) == Some((name, params)) && ReadFilters(ls[1..]) == Good(fs, more)
    requires more != [] && more[0].tokens == [TRBrace, TLBrace] && ReadBlock(more[1..]) == Some(cs)
    ensures ReadRule(ls) == Some(RuleBlock(name, params, Some(fs), cs))
  {
    hide ReadHead, ReadBlock, ReadFilters;
    var ts := ls[0].tokens;
    assert ts[..|ts| - 2] == h && ts[|ts| - 2] == TFiltered && ts[|ts| - 1] == TLBrace;
  }

  /** Main result on rules: name, parameters, filters and commands are read back from the lines, expressions in
      normal form. */
  lemma RuleReadsBack(r: RuleBlock, d: nat)
    ensures ReadRule(RuleLines(r, d)) == Some(NormalRule(r))
  {
    var body := CommandsLines(r.block, d + 1) + [Line.Line(d, [TRBrace])];
    HeadReadsBack(r);
    BlockReadsBack(r.block, d);
    hide ReadBlock, ReadHead, RuleHead, CommandsLines, NormalCommands, ReadRule;
    if HasFilters(r) {
      var fs := r.filteredBlock.value;
      var mid := Line.Line(d, [TRBrace, TLBrace]);
      FiltersReadBack(fs, d + 1, 0, [mid] + body);
      assert FilterLines(fs, d + 1)[0..] == FilterLines(fs, d + 1) && NormalFilters(fs)[0..] == NormalFilters(fs);
      hide FilterLines, NormalFilters, ReadFilters;
      FilteredLines(Line.Line(d, RuleHead(r) + [TFiltered, TLBrace]), FilterLines(fs, d + 1), mid, body);
      assert ([mid] + body)[1..] == body;
      ReadFilteredRule(RuleLines(r, d), RuleHead(r), r.ruleName, r.ruleParams, NormalFilters(fs), [mid] + body,
                       NormalCommands(r.block));
    } else {
      var head := Line.Line(d, RuleHead(r) + [TLBrace]);
      assert ([head] + body)[1..] == body;
      ReadPlainRule(RuleLines(r, d), RuleHead(r), r.ruleName, r.ruleParams, NormalCommands(r.block));
    }
  }

  lemma FilteredLines(head: Line, fs: seq<Line>, mid: Line, body: seq<Line>)
    ensures var ls := [head] + (fs + [mid]) + body; ls[0] == head && ls[1..] == fs + ([mid] + body)
  {}
}
