/** Commands as indented lines: what the printer should emit, and how the command structure is read back from the
    lines. */
module CvlLines {
  import opened Wrappers
  import opened CvlSchema
  import opened CvlPrinter
  import opened CvlReader
  import opened CvlCommands
  import RT = CvlRoundTrip
  import S = Sequences

  datatype Line = Line(indent: nat, tokens: seq<Token>)

  /** Eleven commands print as one line each. */
  datatype Command =
    | One(simple: Simple)
    | If(cmd: IfCmd)
    | Block(commands: seq<Command>)

  datatype IfCmd = IfCmd(condition: Expr, thenCmd: seq<Command>, elseBlock: Option<ElseBlock>)

  datatype ElseBlock = Else(elseCommands: seq<Command>) | ElseIf(elseIf: IfCmd)

  datatype FilteredBlock = FilteredBlock(e: Expr, methodParam: string)

  datatype RuleBlock = RuleBlock(
    ruleName: string,
    ruleParams: seq<TypeAndId>,
    filteredBlock: Option<seq<FilteredBlock>>,
    block: seq<Command>)

  // ---- The lines a command should print ----

  function IfHead(condition: Expr, isElseif: bool): seq<Token> {
    (if isElseif then [TRBrace, TElse] else []) + [TIf, TLParen] + PrintInner(condition) + [TRParen, TLBrace]
  }

  function CommandLines(c: Command, d: nat): seq<Line>
    decreases c, 2
  {
    match c
    case One(c) => [Line(d, PrintSimple(c))]
    case If(i) => IfLines(i, d, false)
    case Block(cs) => [Line(d, [TLBrace])] + CommandsLines(cs, d + 1) + [Line(d, [TRBrace])]
  }

  function IfLines(i: IfCmd, d: nat, isElseif: bool): seq<Line>
    decreases i, 1
  {
    [Line(d, IfHead(i.condition, isElseif))] + CommandsLines(i.thenCmd, d + 1) + ElseLines(i, d)
  }

  function ElseLines(i: IfCmd, d: nat): seq<Line>
    decreases i, 0
  {
    match i.elseBlock
    case None => [Line(d, [TRBrace])]
    case Some(Else(cs)) => [Line(d, [TRBrace, TElse, TLBrace])] + CommandsLines(cs, d + 1) + [Line(d, [TRBrace])]
    case Some(ElseIf(j)) => IfLines(j, d, true)
  }

  function CommandsLines(cs: seq<Command>, d: nat): seq<Line>
    decreases cs, 0
  {
    if cs == [] then [] else CommandLines(cs[0], d) + CommandsLines(cs[1..], d)
  }

  // ---- Shapes of lines ----

  predicate Closes(l: Line) {
    l.tokens != [] && l.tokens[0] == TRBrace
  }

  predicate Opens(l: Line) {
    l.tokens != [] && l.tokens[|l.tokens| - 1] == TLBrace
  }

  /** Starting at nesting depth d, the braces of the lines never close more than is open, every line is
      indented by its nesting depth, and the depth ends at `end`. */
  predicate Nested(ls: seq<Line>, d: nat, end: nat)
    decreases |ls|
  {
    if ls == [] then d == end
    else
      var l := ls[0];
      (Closes(l) ==> d > 0) &&
      var here := if Closes(l) then d - 1 else d;
      l.indent == here && Nested(ls[1..], if Opens(l) then here + 1 else here, end)
  }

  lemma {:induction false} NestedConcat(a: seq<Line>, b: seq<Line>, d: nat, mid: nat, end: nat)
    requires Nested(a, d, mid) && Nested(b, mid, end)
    ensures Nested(a + b, d, end)
    decreases |a|
  {
    if a == [] {
      S.Empty(b);
    } else {
      var here := if Closes(a[0]) then d - 1 else d;
      NestedConcat(a[1..], b, if Opens(a[0]) then here + 1 else here, mid, end);
      S.TailOfConcat(a, b);
    }
  }

  lemma OneNested(l: Line, d: nat)
    requires Closes(l) ==> d > 0
    requires l.indent == if Closes(l) then d - 1 else d
    ensures Nested([l], d, if Opens(l) then l.indent + 1 else l.indent)
  {
    assert [l][1..] == [];
  }

  lemma IfHeadShape(condition: Expr, isElseif: bool, d: nat)
    ensures Opens(Line(d, IfHead(condition, isElseif)))
    ensures !isElseif ==> IfHead(condition, isElseif)[0] == TIf && |IfHead(condition, isElseif)| > 1
    ensures Closes(Line(d, IfHead(condition, isElseif))) <==> isElseif
  {}

  /** For every list of commands the emitted lines are balanced and indented by depth. */
  lemma {:induction false} CommandsNested(cs: seq<Command>, d: nat)
    ensures Nested(CommandsLines(cs, d), d, d)
    decreases cs, 0
  {
    if cs != [] {
      CommandNested(cs[0], d);
      CommandsNested(cs[1..], d);
      NestedConcat(CommandLines(cs[0], d), CommandsLines(cs[1..], d), d, d, d);
    }
  }

  lemma {:induction false} CommandNested(c: Command, d: nat)
    ensures Nested(CommandLines(c, d), d, d)
    decreases c, 2
  {
    match c
    case One(s) =>
      SimpleShape(s);
      OneNested(Line(d, PrintSimple(s)), d);
    case If(i) => IfNested(i, d, false);
    case Block(cs) =>
      OneNested(Line(d, [TLBrace]), d);
      BodyNested(cs, d);
      NestedConcat([Line(d, [TLBrace])], CommandsLines(cs, d + 1) + [Line(d, [TRBrace])], d, d + 1, d);
      S.Assoc([Line(d, [TLBrace])], CommandsLines(cs, d + 1), [Line(d, [TRBrace])]);
      hide Nested, CommandsLines;
  }

  lemma {:induction false} BodyNested(cs: seq<Command>, d: nat)
    ensures Nested(CommandsLines(cs, d + 1) + [Line(d, [TRBrace])], d + 1, d)
    decreases cs, 1
  {
    CommandsNested(cs, d + 1);
    OneNested(Line(d, [TRBrace]), d + 1);
    NestedConcat(CommandsLines(cs, d + 1), [Line(d, [TRBrace])], d + 1, d + 1, d);
  }

  lemma {:induction false} IfNested(i: IfCmd, d: nat, isElseif: bool)
    ensures Nested(IfLines(i, d, isElseif), if isElseif then d + 1 else d, d)
    decreases i, 1
  {
    hide Nested, CommandsLines, ElseLines, IfHead, Opens, Closes;
    var head := Line(d, IfHead(i.condition, isElseif));
    IfHeadShape(i.condition, isElseif, d);
    OneNested(head, if isElseif then d + 1 else d);
    CommandsNested(i.thenCmd, d + 1);
    ElseNested(i, d);
    NestedConcat(CommandsLines(i.thenCmd, d + 1), ElseLines(i, d), d + 1, d + 1, d);
    NestedConcat([head], CommandsLines(i.thenCmd, d + 1) + ElseLines(i, d), if isElseif then d + 1 else d, d + 1, d);
    assert IfLines(i, d, isElseif) == [head] + (CommandsLines(i.thenCmd, d + 1) + ElseLines(i, d));
  }

  lemma {:induction false} ElseNested(i: IfCmd, d: nat)
    ensures Nested(ElseLines(i, d), d + 1, d)
    decreases i, 0
  {
    hide Nested, CommandsLines, IfLines;
    match i.elseBlock
    case None => OneNested(Line(d, [TRBrace]), d + 1);
    case Some(Else(cs)) =>
      var head := Line(d, [TRBrace, TElse, TLBrace]);
      OneNested(head, d + 1);
      BodyNested(cs, d);
      NestedConcat([head], CommandsLines(cs, d + 1) + [Line(d, [TRBrace])], d + 1, d + 1, d);
      assert ElseLines(i, d) == [head] + (CommandsLines(cs, d + 1) + [Line(d, [TRBrace])]);
    case Some(ElseIf(j)) => IfNested(j, d, true);
  }

  // ---- Reading the structure back (by braces alone; indentation is ignored) ----

  datatype Read<+T> = Bad | Good(value: T, rest: seq<Line>)

  /** The condition of an `if (...) {` whose tokens begin at ts[0]. */
  function ReadCondition(ts: seq<Token>): Option<Expr> {
    if |ts| >= 4 && ts[0] == TIf && ts[1] == TLParen && ts[|ts| - 2] == TRParen && ts[|ts| - 1] == TLBrace
    then Parse(ts[2..|ts| - 2]) else None
  }

  function ReadCommands(ls: seq<Line>): (r: Read<seq<Command>>)
    ensures r.Good? ==> |r.rest| <= |ls|
    decreases |ls|, 2
  {
    if ls == [] || Closes(ls[0]) then Good([], ls)
    else
      var c := ReadCommand(ls);
      if c.Bad? then Bad else
      var cs := ReadCommands(c.rest);
      if cs.Bad? then Bad else Good([c.value] + cs.value, cs.rest)
  }

  function ReadCommand(ls: seq<Line>): (r: Read<Command>)
    requires ls != []
    ensures r.Good? ==> |r.rest| < |ls|
    decreases |ls|, 1
  {
    var t := ls[0].tokens;
    if t == [TLBrace] then
      var b := ReadBody(ls[1..]);
      if b.Bad? then Bad else Good(Block(b.value), b.rest)
    else if t != [] && t[0] == TIf then
      var i := ReadIf(t, ls[1..]);
      if i.Bad? then Bad else Good(If(i.value), i.rest)
    else if ReadSimple(t).Some? then Good(One(ReadSimple(t).value), ls[1..])
    else Bad
  }

  /** Commands up to and including a line that is just `}`. */
  function ReadBody(ls: seq<Line>): (r: Read<seq<Command>>)
    ensures r.Good? ==> |r.rest| < |ls|
    decreases |ls|, 4
  {
    var b := ReadCommands(ls);
    if b.Bad? || b.rest == [] || b.rest[0].tokens != [TRBrace] then Bad else Good(b.value, b.rest[1..])
  }

  function ReadIf(head: seq<Token>, ls: seq<Line>): (r: Read<IfCmd>)
    ensures r.Good? ==> |r.rest| < |ls|
    decreases |ls|, 5
  {
    var c := ReadCondition(head);
    var b := ReadCommands(ls);
    if c.None? || b.Bad? || b.rest == [] then Bad
    else
      var t := b.rest[0].tokens;
      if t == [TRBrace] then Good(IfCmd(c.value, b.value, None), b.rest[1..])
      else if t == [TRBrace, TElse, TLBrace] then
        var e := ReadBody(b.rest[1..]);
        if e.Bad? then Bad else Good(IfCmd(c.value, b.value, Some(Else(e.value))), e.rest)
      else if |t| >= 2 && t[0] == TRBrace && t[1] == TElse then
        var j := ReadIf(t[2..], b.rest[1..]);
        if j.Bad? then Bad else Good(IfCmd(c.value, b.value, Some(ElseIf(j.value))), j.rest)
      else Bad
  }

  /** Commands with every expression in normal form; the command structure is untouched. */
  function NormalCommand(c: Command): Command
    decreases c, 2
  {
    match c
    case One(s) => One(NormalSimple(s))
    case If(i) => If(NormalIf(i))
    case Block(cs) => Block(NormalCommands(cs))
  }

  function NormalIf(i: IfCmd): IfCmd
    decreases i, 1
  {
    IfCmd(RT.Normal(i.condition), NormalCommands(i.thenCmd),
          match i.elseBlock
          case None => None
          case Some(Else(cs)) => Some(Else(NormalCommands(cs)))
          case Some(ElseIf(j)) => Some(ElseIf(NormalIf(j))))
  }

  function NormalCommands(cs: seq<Command>): seq<Command>
    decreases cs, 0
  {
    if cs == [] then [] else [NormalCommand(cs[0])] + NormalCommands(cs[1..])
  }

  lemma ConditionReadsBack(condition: Expr)
    ensures ReadCondition(IfHead(condition, false)) == Some(RT.Normal(condition))
    ensures IfHead(condition, true)[2..] == IfHead(condition, false)
  {
    hide Parse, PrintInner;
    var h := IfHead(condition, false);
    assert h[2..|h| - 2] == PrintInner(condition);
    RT.ReadBack(condition);
  }

  /** Whatever a command list printed, read back in front of a closing line or the end of the text. */
  lemma {:induction false} CommandsReadBack(cs: seq<Command>, d: nat, rest: seq<Line>)
    requires rest == [] || Closes(rest[0])
    ensures ReadCommands(CommandsLines(cs, d) + rest) == Good(NormalCommands(cs), rest)
    decreases cs, 0
  {
    hide ReadCommand, CommandLines, NormalCommand;
    var ls := CommandsLines(cs, d) + rest;
    if cs == [] {
      assert ls == rest;
    } else {
      var k := CommandsLines(cs[1..], d) + rest;
      assert ls == CommandLines(cs[0], d) + k;
      CommandReadsBack(cs[0], d, k);
      CommandsReadBack(cs[1..], d, rest);
    }
  }

  lemma {:induction false} CommandReadsBack(c: Command, d: nat, rest: seq<Line>)
    ensures var ls := CommandLines(c, d) + rest;
            ls != [] && !Closes(ls[0]) && ReadCommand(ls) == Good(NormalCommand(c), rest)
    decreases c, 2
  {
    hide ReadIf, ReadBody, ReadCommands, CommandsLines, IfLines, NormalIf, NormalCommands, PrintInner;
    var ls := CommandLines(c, d) + rest;
    match c
    case One(s) =>
      SimpleShape(s);
      SimpleReadsBack(s);
      assert ls[1..] == rest;
    case If(i) =>
      hide IfHead;
      IfHeadShape(i.condition, false, d);
      IfReadsBack(i, d, false, rest);
    case Block(cs) =>
      assert ls[1..] == CommandsLines(cs, d + 1) + [Line(d, [TRBrace])] + rest;
      BodyReadsBack(cs, d, rest);
  }

  lemma {:induction false} BodyReadsBack(cs: seq<Command>, d: nat, rest: seq<Line>)
    ensures ReadBody(CommandsLines(cs, d + 1) + [Line(d, [TRBrace])] + rest) == Good(NormalCommands(cs), rest)
    decreases cs, 1
  {
    hide ReadCommands, CommandsLines;
    var k := [Line(d, [TRBrace])] + rest;
    assert CommandsLines(cs, d + 1) + [Line(d, [TRBrace])] + rest == CommandsLines(cs, d + 1) + k;
    CommandsReadBack(cs, d + 1, k);
    assert k[1..] == rest;
  }

  lemma {:induction false} IfReadsBack(i: IfCmd, d: nat, isElseif: bool, rest: seq<Line>)
    ensures var ls := IfLines(i, d, isElseif) + rest;
            ls != [] && ls[0] == Line(d, IfHead(i.condition, isElseif)) &&
            ReadIf(IfHead(i.condition, false), ls[1..]) == Good(NormalIf(i), rest)
    decreases i, 1
  {
    hide ReadCommands, ReadBody, CommandsLines, ReadCondition, IfHead, NormalCommands;
    var ls := IfLines(i, d, isElseif) + rest;
    ConditionReadsBack(i.condition);
    var k := ElseLines(i, d) + rest;
    assert ls[1..] == CommandsLines(i.thenCmd, d + 1) + k;
    match i.elseBlock
    case None =>
      CommandsReadBack(i.thenCmd, d + 1, k);
      assert k[1..] == rest;
    case Some(Else(cs)) =>
      CommandsReadBack(i.thenCmd, d + 1, k);
      assert k[1..] == CommandsLines(cs, d + 1) + [Line(d, [TRBrace])] + rest;
      BodyReadsBack(cs, d, rest);
    case Some(ElseIf(j)) =>
      ElseIfReadsBack(i, j, d, rest);
  }

  lemma {:induction false} ElseIfReadsBack(i: IfCmd, j: IfCmd, d: nat, rest: seq<Line>)
    requires i.elseBlock == Some(ElseIf(j))
    ensures ReadIf(IfHead(i.condition, false), CommandsLines(i.thenCmd, d + 1) + (IfLines(j, d, true) + rest))
            == Good(NormalIf(i), rest)
    decreases i, 0
  {
    hide ReadCommands, ReadBody, CommandsLines, ReadCondition, NormalCommands, PrintInner, IfLines;
    var k := IfLines(j, d, true) + rest;
    ConditionReadsBack(i.condition);
    ConditionReadsBack(j.condition);
    IfHeadShape(j.condition, true, d);
    IfReadsBack(j, d, true, rest);
    CommandsReadBack(i.thenCmd, d + 1, k);
    assert k[0].tokens == IfHead(j.condition, true);
    assert |IfHead(j.condition, true)| >= 6 && IfHead(j.condition, true)[1] == TElse;
  }

  /** Main result: the printed lines determine the command structure and every command in it, expressions up
      to their normal form. */
  lemma StructureReadsBack(cs: seq<Command>, d: nat)
    ensures ReadCommands(CommandsLines(cs, d)) == Good(NormalCommands(cs), [])
  {
    hide ReadCommands, CommandsLines;
    CommandsReadBack(cs, d, []);
    assert CommandsLines(cs, d) + [] == CommandsLines(cs, d);
  }
}
