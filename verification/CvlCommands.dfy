/** The commands that print as one line, from their fields, and how they are read back. */
module CvlCommands {
  import opened Wrappers
  import opened CvlSchema
  import opened CvlPrinter
  import opened CvlReader
  import RT = CvlRoundTrip
  import S = Sequences

  datatype Lhs = IdLhs(name: string) | ArrayLhs(base: Lhs, index: Expr) | FieldLhs(base: Lhs, fieldName: string)

  datatype Simple =
    | Declaration(variable: TypeAndId, initialValue: Option<Expr>)
    | Assignment(leftHandSides: seq<Lhs>, value: Expr)
    | Havoc(targets: seq<Lhs>, assumption: Option<Expr>)
    | Claim(kind: ClaimKind, e: Expr, message: string)
    | AssumeInvariant(invariantName: string, arguments: seq<Expr>)
    | Apply(target: FunctionApplication)
    | ResetStorage(storage: Expr)
    | Return(values: seq<Expr>)
    | Revert(revertMessage: Option<string>)

  /** Assumptions, assertions and satisfy commands print alike but for their keyword. */
  datatype ClaimKind = Assume | Assert | Satisfy

  // ---- Printing ----

  function PrintLhs(l: Lhs): seq<Token> {
    match l
    case IdLhs(name) => [TName(name)]
    case ArrayLhs(b, i) => PrintLhs(b) + [TLBracket] + PrintInner(i) + [TRBracket]
    case FieldLhs(b, f) => PrintLhs(b) + [TDot, TName(f)]
  }

  function PrintLhss(ls: seq<Lhs>): seq<Token> {
    if ls == [] then []
    else if |ls| == 1 then PrintLhs(ls[0])
    else PrintLhs(ls[0]) + [TComma] + PrintLhss(ls[1..])
  }

  function ClaimKeyword(k: ClaimKind): Token {
    match k
    case Assume => TRequire
    case Assert => TAssert
    case Satisfy => TSatisfy
  }

  /** A revert message is printed only when it is there and not the empty string. */
  function PrintSimple(c: Simple): seq<Token> {
    match c
    case Declaration(v, None) => PrintTypeAndId(v) + [TSemi]
    case Declaration(v, Some(e)) => PrintTypeAndId(v) + ([TEquals] + (PrintInner(e) + [TSemi]))
    case Assignment(ls, e) =>
      if |ls| == 1 then PrintLhs(ls[0]) + ([TEquals] + (PrintInner(e) + [TSemi]))
      else [TLParen] + (PrintLhss(ls) + ([TRParen, TEquals] + (PrintInner(e) + [TSemi])))
    case Havoc(ls, None) => [THavoc] + (PrintLhss(ls) + [TSemi])
    case Havoc(ls, Some(e)) => [THavoc] + (PrintLhss(ls) + ([TAssuming] + (PrintInner(e) + [TSemi])))
    case Claim(k, e, m) => [ClaimKeyword(k), TLParen] + (PrintInner(e) + [TComma, TString(m), TRParen, TSemi])
    case AssumeInvariant(name, es) =>
      if es == [] then [TRequireInvariant, TName(name), TSemi]
      else [TRequireInvariant, TName(name), TLParen] + (PrintList(es) + [TRParen] + [TSemi])
    case Apply(app) => PrintInner(FunctionCall(app)) + [TSemi]
    case ResetStorage(e) => [TResetStorage] + (PrintInner(e) + [TSemi])
    case Return(es) =>
      if es == [] then [TReturn, TSemi]
      else if |es| == 1 then [TReturn] + (PrintInner(es[0]) + [TSemi])
      else [TReturn, TLParen] + (PrintList(es) + [TRParen] + [TSemi])
    case Revert(m) => if m.GetOr("") == "" then [TRevert, TSemi] else [TRevert, TLParen, TString(m.value), TRParen, TSemi]
  }

  // ---- Reading ----

  function ReadLhs(ts: seq<Token>): (r: Parsed<Lhs>)
    ensures r.Ok? ==> |r.rest| < |ts|
  {
    if ts == [] || !ts[0].TName? then Fail else LhsTail(IdLhs(ts[0].text), ts[1..])
  }

  function LhsTail(l: Lhs, ts: seq<Token>): (r: Parsed<Lhs>)
    ensures r.Ok? ==> |r.rest| <= |ts|
    decreases |ts|
  {
    if ts != [] && ts[0] == TLBracket then
      var i := ParseLevel(0, ts[1..]);
      if i.Fail? || i.rest == [] || i.rest[0] != TRBracket then Fail else LhsTail(ArrayLhs(l, i.value), i.rest[1..])
    else if |ts| >= 2 && ts[0] == TDot && ts[1].TName? then LhsTail(FieldLhs(l, ts[1].text), ts[2..])
    else Ok(l, ts)
  }

  /** One or more, separated by commas. */
  function ReadLhss(ts: seq<Token>): (r: Parsed<seq<Lhs>>)
    ensures r.Ok? ==> |r.rest| < |ts|
    decreases |ts|
  {
    var l := ReadLhs(ts);
    if l.Fail? then Fail
    else if l.rest != [] && l.rest[0] == TComma then
      var ls := ReadLhss(l.rest[1..]);
      if ls.Fail? then Fail else Ok([l.value] + ls.value, ls.rest)
    else Ok([l.value], l.rest)
  }

  /** An expression and the final semicolon. */
  function ReadLast(ts: seq<Token>): Option<Expr> {
    var e := ParseLevel(0, ts);
    if e.Ok? && e.rest == [TSemi] then Some(e.value) else None
  }

  /** Expressions in parentheses and the final semicolon. */
  function ReadArguments(ts: seq<Token>): Option<seq<Expr>> {
    var es := ParseList(TRParen, ts);
    if es.Ok? && es.rest == [TSemi] then Some(es.value) else None
  }

  function ReadSimple(ts: seq<Token>): Option<Simple> {
    if ts == [] then None else ReadMarked(ts[0], ts[1..])
  }

  /** A command by its first token; unmarked ones are read with it. */
  function ReadMarked(t: Token, ts: seq<Token>): Option<Simple> {
    match t
    case THavoc => ReadHavoc(ts)
    case TRequire => ReadClaim(Assume, ts)
    case TAssert => ReadClaim(Assert, ts)
    case TSatisfy => ReadClaim(Satisfy, ts)
    case TRequireInvariant => ReadInvariant(ts)
    case TResetStorage => if ReadLast(ts).None? then None else Some(ResetStorage(ReadLast(ts).value))
    case TReturn => ReadReturn(ts)
    case TRevert => ReadRevert(ts)
    case TLParen => ReadTuple(ts)
    case _ => ReadUnmarked([t] + ts)
  }

  function ReadInvariant(ts: seq<Token>): Option<Simple> {
    if |ts| == 2 && ts[0].TName? && ts[1] == TSemi then Some(AssumeInvariant(ts[0].text, []))
    else if |ts| >= 2 && ts[0].TName? && ts[1] == TLParen then
      var es := ReadArguments(ts[2..]);
      if es.None? then None else Some(AssumeInvariant(ts[0].text, es.value))
    else None
  }

  function ReadRevert(ts: seq<Token>): Option<Simple> {
    if ts == [TSemi] then Some(Revert(None))
    else if |ts| == 4 && ts[0] == TLParen && ts[1].TString? && ts[2] == TRParen && ts[3] == TSemi then
      Some(Revert(Some(ts[1].text)))
    else None
  }

  function ReadHavoc(ts: seq<Token>): Option<Simple> {
    var ls := if ts != [] && (ts[0] == TSemi || ts[0] == TAssuming) then Ok([], ts) else ReadLhss(ts);
    if ls.Fail? then None
    else if ls.rest == [TSemi] then Some(Havoc(ls.value, None))
    else if ls.rest != [] && ls.rest[0] == TAssuming then
      var e := ReadLast(ls.rest[1..]);
      if e.None? then None else Some(Havoc(ls.value, e))
    else None
  }

  function ReadClaim(k: ClaimKind, ts: seq<Token>): Option<Simple> {
    if ts == [] || ts[0] != TLParen then None
    else
      var e := ParseLevel(0, ts[1..]);
      if e.Fail? || |e.rest| != 4 || e.rest[0] != TComma || !e.rest[1].TString? || e.rest[2] != TRParen || e.rest[3] != TSemi
      then None
      else Some(Claim(k, e.value, e.rest[1].text))
  }

  /** One value first; a parenthesised list is not an expression. */
  function ReadReturn(ts: seq<Token>): Option<Simple> {
    if ts == [TSemi] then Some(Return([]))
    else if ReadLast(ts).Some? then Some(Return([ReadLast(ts).value]))
    else if ts != [] && ts[0] == TLParen then
      var es := ReadArguments(ts[1..]);
      if es.None? then None else Some(Return(es.value))
    else None
  }

  /** An assignment to none or several. */
  function ReadTuple(ts: seq<Token>): Option<Simple> {
    var ls := if ts != [] && ts[0] == TRParen then Ok([], ts) else ReadLhss(ts);
    if ls.Fail? || |ls.rest| < 2 || ls.rest[0] != TRParen || ls.rest[1] != TEquals then None
    else
      var e := ReadLast(ls.rest[2..]);
      if e.None? then None else Some(Assignment(ls.value, e.value))
  }

  /** A declaration, an assignment or a call: whichever can be read first. */
  function ReadUnmarked(ts: seq<Token>): Option<Simple> {
    var v := ParseTypeAndId(ts);
    if v.Ok? && v.rest == [TSemi] then Some(Declaration(v.value, None))
    else if v.Ok? && v.rest != [] && v.rest[0] == TEquals then
      var e := ReadLast(v.rest[1..]);
      if e.None? then None else Some(Declaration(v.value, e))
    else
      var l := ReadLhs(ts);
      if l.Ok? && l.rest != [] && l.rest[0] == TEquals then
        var e := ReadLast(l.rest[1..]);
        if e.None? then None else Some(Assignment([l.value], e.value))
      else
        var e := ReadLast(ts);
        if e.None? || !e.value.FunctionCall? then None else Some(Apply(e.value.application))
  }

  // ---- Normal forms ----

  function NormalLhs(l: Lhs): Lhs {
    match l
    case IdLhs(_) => l
    case ArrayLhs(b, i) => ArrayLhs(NormalLhs(b), RT.Normal(i))
    case FieldLhs(b, f) => FieldLhs(NormalLhs(b), f)
  }

  function NormalLhss(ls: seq<Lhs>): seq<Lhs> {
    if ls == [] then [] else [NormalLhs(ls[0])] + NormalLhss(ls[1..])
  }

  function NormalOption(e: Option<Expr>): Option<Expr> {
    if e.None? then None else Some(RT.Normal(e.value))
  }

  function NormalSimple(c: Simple): Simple {
    match c
    case Declaration(v, e) => Declaration(v, NormalOption(e))
    case Assignment(ls, e) => Assignment(NormalLhss(ls), RT.Normal(e))
    case Havoc(ls, e) => Havoc(NormalLhss(ls), NormalOption(e))
    case Claim(k, e, m) => Claim(k, RT.Normal(e), m)
    case AssumeInvariant(name, es) => AssumeInvariant(name, RT.NormalList(es))
    case Apply(app) => Apply(RT.Normal(FunctionCall(app)).application)
    case ResetStorage(e) => ResetStorage(RT.Normal(e))
    case Return(es) => Return(RT.NormalList(es))
    case Revert(m) => Revert(if m == Some("") then None else m)
  }

  // ---- Parts read back ----

  lemma ExprReadsBack(e: Expr, rest: seq<Token>)
    requires RT.Clean(rest) && RT.Stops(0, rest)
    ensures ParseLevel(0, PrintInner(e) + rest) == Ok(RT.Normal(e), rest)
  {
    RT.NormalPrintsAlike(e);
    RT.WrapPrints(PrintInner(e), rest);
    RT.OperandReadsBack(RT.Normal(e), false, 0, rest);
    RT.TailStops(0, RT.Normal(e), rest);
    hide ParseLevel, Tail, PrintInner;
  }

  lemma LastReadsBack(e: Expr)
    ensures ReadLast(PrintInner(e) + [TSemi]) == Some(RT.Normal(e))
  {
    ExprReadsBack(e, [TSemi]);
    hide ParseLevel, PrintInner;
  }

  lemma ArgumentsReadBack(es: seq<Expr>)
    ensures ReadArguments(PrintList(es) + [TRParen] + [TSemi]) == Some(RT.NormalList(es))
  {
    RT.NormalListPrintsAlike(es);
    RT.ListReadsBack(RT.NormalList(es), TRParen, [TSemi]);
    hide ParseList, PrintList;
  }

  /** Tokens an expression can start with. */
  predicate Starts(t: Token) {
    RT.IsPrefixToken(t) || RT.IsBinderToken(t) || t == TTrue || t == TFalse || t.TNumber? || t.THex? || t.TString? ||
    t == TLParen || t == TLBracket || t.TName? || t == TSig
  }

  /** Where no primary expression can be read, nothing can be read at any level. */
  lemma {:induction false} NothingRead(p: nat, ts: seq<Token>)
    requires p <= 15 && ts != [] && !RT.IsPrefixToken(ts[0]) && !RT.IsBinderToken(ts[0]) && ParsePrimary(ts).Fail?
    ensures ParseLevel(p, ts).Fail?
    decreases 15 - p
  {
    if p < 15 { NothingRead(p + 1, ts); }
    hide ParsePrimary, Tail;
  }

  lemma ExprStarts(e: Expr)
    ensures PrintInner(e) != [] && Starts(PrintInner(e)[0])
  {
    RT.FirstToken(e);
    RT.ReadBack(e);
    hide PrintInner, Tail;
    if !Starts(PrintInner(e)[0]) { NothingRead(0, PrintInner(e)); }
  }

  lemma TailIndex(l: Lhs, i: Expr, rest: seq<Token>)
    ensures LhsTail(l, [TLBracket] + (PrintInner(i) + ([TRBracket] + rest))) == LhsTail(ArrayLhs(l, RT.Normal(i)), rest)
  {
    var k := PrintInner(i) + ([TRBracket] + rest);
    ExprReadsBack(i, [TRBracket] + rest);
    assert ([TLBracket] + k)[1..] == k && ([TRBracket] + rest)[1..] == rest;
    hide ParseLevel, PrintInner;
  }

  lemma TailField(l: Lhs, f: string, rest: seq<Token>)
    ensures LhsTail(l, [TDot, TName(f)] + rest) == LhsTail(FieldLhs(l, f), rest)
  {
    assert ([TDot, TName(f)] + rest)[2..] == rest;
  }

  lemma LhsPrints(l: Lhs, rest: seq<Token>)
    ensures match l
            case IdLhs(_) => PrintLhs(l) + rest == [TName(l.name)] + rest
            case ArrayLhs(b, i) => PrintLhs(l) + rest == PrintLhs(b) + ([TLBracket] + (PrintInner(i) + ([TRBracket] + rest)))
            case FieldLhs(b, f) => PrintLhs(l) + rest == PrintLhs(b) + ([TDot, TName(f)] + rest)
  {
    hide PrintInner;
  }

  lemma {:induction false} LhsReadsBack(l: Lhs, rest: seq<Token>)
    ensures ReadLhs(PrintLhs(l) + rest) == LhsTail(NormalLhs(l), rest)
  {
    LhsPrints(l, rest);
    hide PrintInner, PrintLhs, LhsTail;
    match l
    case IdLhs(name) => assert ([TName(name)] + rest)[1..] == rest;
    case ArrayLhs(b, i) =>
      hide ReadLhs;
      LhsReadsBack(b, [TLBracket] + (PrintInner(i) + ([TRBracket] + rest)));
      TailIndex(NormalLhs(b), i, rest);
    case FieldLhs(b, f) =>
      hide ReadLhs;
      LhsReadsBack(b, [TDot, TName(f)] + rest);
      TailField(NormalLhs(b), f, rest);
  }

  /** What may follow a list of targets. */
  predicate EndsLhs(rest: seq<Token>) {
    rest != [] && rest[0] != TLBracket && rest[0] != TDot
  }

  lemma TargetReadsBack(l: Lhs, rest: seq<Token>)
    requires EndsLhs(rest)
    ensures ReadLhs(PrintLhs(l) + rest) == Ok(NormalLhs(l), rest)
  {
    LhsReadsBack(l, rest);
    hide ReadLhs;
  }

  lemma LhssPrint(ls: seq<Lhs>, rest: seq<Token>)
    requires ls != []
    ensures |ls| == 1 ==> PrintLhss(ls) + rest == PrintLhs(ls[0]) + rest
    ensures |ls| > 1 ==> PrintLhss(ls) + rest == PrintLhs(ls[0]) + ([TComma] + (PrintLhss(ls[1..]) + rest))
  {
    if |ls| > 1 {
      assert PrintLhss(ls) == PrintLhs(ls[0]) + [TComma] + PrintLhss(ls[1..]);
      hide PrintLhss, PrintLhs;
      S.Assoc(PrintLhs(ls[0]), [TComma], PrintLhss(ls[1..]));
      S.Assoc(PrintLhs(ls[0]), [TComma] + PrintLhss(ls[1..]), rest);
      S.Assoc([TComma], PrintLhss(ls[1..]), rest);
    }
  }

  lemma {:induction false} LhssReadBack(ls: seq<Lhs>, rest: seq<Token>)
    requires ls != [] && EndsLhs(rest) && rest[0] != TComma
    ensures ReadLhss(PrintLhss(ls) + rest) == Ok(NormalLhss(ls), rest)
    decreases ls
  {
    LhssPrint(ls, rest);
    hide PrintLhss, PrintLhs, ReadLhs, NormalLhs;
    if |ls| == 1 {
      TargetReadsBack(ls[0], rest);
      assert ls[1..] == [] && NormalLhss(ls[1..]) == [];
      assert NormalLhss(ls) == [NormalLhs(ls[0])];
    } else {
      var k := PrintLhss(ls[1..]) + rest;
      TargetReadsBack(ls[0], [TComma] + k);
      assert ([TComma] + k)[1..] == k;
      LhssReadBack(ls[1..], rest);
    }
  }

  // ---- Telling declarations, assignments and calls apart ----

  /** What can follow the name that a target starts with, up to the equals sign. */
  predicate TargetRest(ts: seq<Token>)
    decreases |ts|
  {
    ts != [] &&
    (ts[0] == TEquals || (ts[0] == TLBracket && |ts| >= 2 && Starts(ts[1])) ||
     (ts[0] == TDot && |ts| >= 3 && ts[1].TName? && TargetRest(ts[2..])))
  }

  lemma {:induction false} TargetShape(l: Lhs, rest: seq<Token>)
    requires TargetRest(rest)
    ensures var ts := PrintLhs(l) + rest; ts != [] && ts[0].TName? && TargetRest(ts[1..])
  {
    LhsPrints(l, rest);
    hide PrintInner, PrintLhs;
    match l
    case IdLhs(name) => assert ([TName(name)] + rest)[1..] == rest;
    case ArrayLhs(b, i) =>
      ExprStarts(i);
      var more := [TLBracket] + (PrintInner(i) + ([TRBracket] + rest));
      assert more[1] == PrintInner(i)[0];
      TargetShape(b, more);
    case FieldLhs(b, f) =>
      var more := [TDot, TName(f)] + rest;
      assert more[2..] == rest;
      TargetShape(b, more);
  }

  /** A target is not a declaration. */
  lemma TargetIsNoDeclaration(ts: seq<Token>)
    requires ts != [] && ts[0].TName? && TargetRest(ts[1..])
    ensures ParseTypeAndId(ts).Fail?
  {
    if ts[1] == TDot {
      assert ts[1..][1] == ts[2] && ts[1..][2..] == ts[3..];
      assert TargetRest(ts[3..]);
      assert TypeSuffix(ContractType(ts[0].text, ts[2].text), ts[3..]) == Ok(ContractType(ts[0].text, ts[2].text), ts[3..]);
    }
  }

  predicate IsOpening(t: Token) {
    t == TLParen || t.TAtCall?
  }

  /** A name, or two with a dot, before the opening of a call. */
  predicate CallShape(ts: seq<Token>) {
    |ts| >= 2 && ts[0].TName? &&
    (IsOpening(ts[1]) || (|ts| >= 4 && ts[1] == TDot && ts[2].TName? && IsOpening(ts[3])))
  }

  lemma CallHasShape(app: FunctionApplication, rest: seq<Token>)
    ensures CallShape(PrintInner(FunctionCall(app)) + rest)
  {
    RT.CallPrints(app, rest);
    hide PrintInner, PrintList;
    var open := RT.Opening(app.annotation) + (PrintList(app.params) + [TRParen] + rest);
    assert IsOpening(open[0]);
  }

  /** A call is neither a declaration nor the target of an assignment. */
  lemma CallIsACall(ts: seq<Token>)
    requires CallShape(ts)
    ensures ParseTypeAndId(ts).Fail?
    ensures ReadLhs(ts).Ok? ==> ReadLhs(ts).rest != [] && ReadLhs(ts).rest[0] != TEquals
  {
    var tail := ts[1..];
    if IsOpening(ts[1]) {
      assert tail[0] == ts[1];
    } else {
      var t := ContractType(ts[0].text, ts[2].text);
      assert tail[0] == TDot && tail[1] == ts[2] && tail[2..] == ts[3..] && ts[3..][0] == ts[3];
      assert TypeSuffix(t, ts[3..]) == Ok(t, ts[3..]);
      assert LhsTail(FieldLhs(IdLhs(ts[0].text), ts[2].text), ts[3..]).rest == ts[3..];
    }
  }

  // ---- Each command read back ----

  lemma Dispatch(t: Token, k: seq<Token>)
    ensures ReadSimple([t] + k) == ReadMarked(t, k)
  {
    assert ([t] + k)[0] == t && ([t] + k)[1..] == k;
    hide ReadMarked;
  }

  lemma Keywords(k: seq<Token>)
    ensures ReadMarked(THavoc, k) == ReadHavoc(k) && ReadMarked(TReturn, k) == ReadReturn(k)
    ensures ReadMarked(TRequireInvariant, k) == ReadInvariant(k)
    ensures ReadMarked(TRevert, k) == ReadRevert(k) && ReadMarked(TLParen, k) == ReadTuple(k)
  {
    hide ReadHavoc, ReadClaim, ReadReturn, ReadInvariant, ReadRevert, ReadTuple, ReadUnmarked, ReadLast;
  }

  lemma ClaimKeywords(k: seq<Token>, kind: ClaimKind)
    ensures ReadMarked(ClaimKeyword(kind), k) == ReadClaim(kind, k)
  {
    hide ReadHavoc, ReadClaim, ReadReturn, ReadInvariant, ReadRevert, ReadTuple, ReadUnmarked, ReadLast;
  }

  /** A command without a keyword is read as a whole. */
  lemma DispatchUnmarked(ts: seq<Token>)
    requires ts != [] && Unmarked(ts[0])
    ensures ReadSimple(ts) == ReadUnmarked(ts)
  {
    S.HeadAndTail(ts);
    hide ReadUnmarked;
  }

  lemma DeclarationReadsBack(v: TypeAndId, e: Option<Expr>)
    ensures ReadSimple(PrintSimple(Declaration(v, e))) == Some(Declaration(v, NormalOption(e)))
  {
    var ts := PrintSimple(Declaration(v, e));
    RT.TypeStart(v.declType);
    TypeOpens(v.declType);
    hide PrintType, ParseTypeAndId, PrintInner, ReadLast;
    assert ts[0] == PrintType(v.declType)[0];
    DispatchUnmarked(ts);
    hide ReadSimple;
    if e.None? {
      RT.TypeAndIdReadsBack(v, [TSemi]);
    } else {
      var k := PrintInner(e.value) + [TSemi];
      RT.TypeAndIdReadsBack(v, [TEquals] + k);
      LastReadsBack(e.value);
      assert ([TEquals] + k)[1..] == k && ([TEquals] + k) != [TSemi];
    }
  }

  /** Tokens that no marked command starts with. */
  predicate Unmarked(t: Token) {
    t.TName? || t.TPrim? || t == TStorage || t == TMapping
  }

  lemma {:induction false} TypeOpens(t: CvlType)
    ensures PrintType(t) != [] && Unmarked(PrintType(t)[0])
  {
    match t
    case DynArray(b) => TypeOpens(b);
    case StaticArray(b, _) => TypeOpens(b);
    case _ =>
  }

  lemma AssignmentReadsBack(ls: seq<Lhs>, e: Expr)
    ensures ReadSimple(PrintSimple(Assignment(ls, e))) == Some(Assignment(NormalLhss(ls), RT.Normal(e)))
  {
    if |ls| == 1 {
      OneTargetReadsBack(ls[0], e);
      assert ls[1..] == [] && NormalLhss(ls) == [NormalLhs(ls[0])];
    } else {
      TupleReadsBack(ls, e);
      Keywords(PrintLhss(ls) + ([TRParen, TEquals] + (PrintInner(e) + [TSemi])));
      Dispatch(TLParen, PrintLhss(ls) + ([TRParen, TEquals] + (PrintInner(e) + [TSemi])));
    }
    hide PrintInner, PrintLhss, PrintLhs, ReadSimple, ReadTuple, NormalLhss, ReadMarked;
  }

  lemma OneTargetReadsBack(l: Lhs, e: Expr)
    ensures ReadSimple(PrintLhs(l) + ([TEquals] + (PrintInner(e) + [TSemi]))) == Some(Assignment([NormalLhs(l)], RT.Normal(e)))
  {
    var k := PrintInner(e) + [TSemi];
    var rest := [TEquals] + k;
    var ts := PrintLhs(l) + rest;
    LastReadsBack(e);
    assert rest[1..] == k;
    TargetShape(l, rest);
    TargetIsNoDeclaration(ts);
    TargetReadsBack(l, rest);
    DispatchUnmarked(ts);
    hide PrintInner, PrintLhs, ReadLast, ParseTypeAndId, ReadLhs, TargetRest, ReadSimple;
  }

  lemma TupleReadsBack(ls: seq<Lhs>, e: Expr)
    ensures ReadTuple(PrintLhss(ls) + ([TRParen, TEquals] + (PrintInner(e) + [TSemi]))) ==
            Some(Assignment(NormalLhss(ls), RT.Normal(e)))
  {
    var k := PrintInner(e) + [TSemi];
    var rest := [TRParen, TEquals] + k;
    LastReadsBack(e);
    if ls == [] {
      S.Empty(rest);
      assert ReadTuple(rest) == Some(Assignment([], RT.Normal(e))) by { NoTargets(k, RT.Normal(e)); }
    } else {
      LhssReadBack(ls, rest);
      LhssStart(ls);
      S.TailOfConcat(PrintLhss(ls), rest);
      TupleTail(PrintLhss(ls) + rest, NormalLhss(ls), k, RT.Normal(e));
    }
    hide PrintInner, PrintLhss, NormalLhss, ReadTuple, ReadLast, ReadLhss;
  }

  lemma NoTargets(k: seq<Token>, e: Expr)
    requires ReadLast(k) == Some(e)
    ensures ReadTuple([TRParen, TEquals] + k) == Some(Assignment([], e))
  {
    assert ([TRParen, TEquals] + k)[2..] == k;
    hide ReadLast;
  }

  lemma TupleTail(ts: seq<Token>, ls: seq<Lhs>, k: seq<Token>, e: Expr)
    requires ts != [] && ts[0] != TRParen && ReadLhss(ts) == Ok(ls, [TRParen, TEquals] + k) && ReadLast(k) == Some(e)
    ensures ReadTuple(ts) == Some(Assignment(ls, e))
  {
    assert ([TRParen, TEquals] + k)[2..] == k;
    hide ReadLast, ReadLhss;
  }

  lemma LhssStart(ls: seq<Lhs>)
    requires ls != []
    ensures PrintLhss(ls) != [] && PrintLhss(ls)[0].TName?
  {
    LhsStart(ls[0]);
    hide PrintLhs;
  }

  lemma {:induction false} LhsStart(l: Lhs)
    ensures PrintLhs(l) != [] && PrintLhs(l)[0].TName?
  {
    hide PrintInner;
    if !l.IdLhs? { LhsStart(l.base); }
  }

  lemma HavocReadsBack(ls: seq<Lhs>, e: Option<Expr>)
    ensures ReadSimple(PrintSimple(Havoc(ls, e))) == Some(Havoc(NormalLhss(ls), NormalOption(e)))
  {
    var rest := if e.None? then [TSemi] else [TAssuming] + (PrintInner(e.value) + [TSemi]);
    assert PrintSimple(Havoc(ls, e)) == [THavoc] + (PrintLhss(ls) + rest) by { hide PrintInner, PrintLhss; }
    hide *;
    HavocTargets(ls, e, rest);
    Dispatch(THavoc, PrintLhss(ls) + rest);
    Keywords(PrintLhss(ls) + rest);
  }

  lemma HavocTargets(ls: seq<Lhs>, e: Option<Expr>, rest: seq<Token>)
    requires rest == if e.None? then [TSemi] else [TAssuming] + (PrintInner(e.value) + [TSemi])
    ensures ReadHavoc(PrintLhss(ls) + rest) == Some(Havoc(NormalLhss(ls), NormalOption(e)))
  {
    TargetsReadBack(ls, rest);
    if e.Some? {
      LastReadsBack(e.value);
      S.TailOfConcat([TAssuming], PrintInner(e.value) + [TSemi]);
      S.Empty(PrintInner(e.value) + [TSemi]);
      assert [TAssuming][1..] == [];
    }
    HavocTail(PrintLhss(ls) + rest, NormalLhss(ls), rest);
    hide PrintInner, PrintLhss, ReadLhss, ReadLast, NormalLhss, ReadHavoc;
  }

  lemma HavocTail(ts: seq<Token>, ls: seq<Lhs>, rest: seq<Token>)
    requires (if ts != [] && (ts[0] == TSemi || ts[0] == TAssuming) then Ok([], ts) else ReadLhss(ts)) == Ok(ls, rest)
    requires rest != [] && (rest[0] == TSemi || rest[0] == TAssuming)
    ensures ReadHavoc(ts) ==
            if rest == [TSemi] then Some(Havoc(ls, None))
            else if rest[0] == TAssuming && ReadLast(rest[1..]).Some? then Some(Havoc(ls, ReadLast(rest[1..]))) else None
  {
    hide ReadLhss, ReadLast;
  }

  lemma TargetsReadBack(ls: seq<Lhs>, rest: seq<Token>)
    requires rest != [] && (rest[0] == TSemi || rest[0] == TAssuming)
    ensures var ts := PrintLhss(ls) + rest;
            (if ts != [] && (ts[0] == TSemi || ts[0] == TAssuming) then Ok([], ts) else ReadLhss(ts)) == Ok(NormalLhss(ls), rest)
  {
    if ls == [] {
      S.Empty(rest);
    } else {
      LhssReadBack(ls, rest);
      LhssStart(ls);
      hide PrintLhss, ReadLhss;
    }
  }

  lemma ClaimReadsBack(k: ClaimKind, e: Expr, m: string)
    ensures ReadSimple(PrintSimple(Claim(k, e, m))) == Some(Claim(k, RT.Normal(e), m))
  {
    var tail := [TLParen] + (PrintInner(e) + [TComma, TString(m), TRParen, TSemi]);
    ClaimPrints(k, e, m);
    hide *;
    ClaimTail(k, e, m);
    Dispatch(ClaimKeyword(k), tail);
    ClaimKeywords(tail, k);
  }

  lemma ClaimPrints(k: ClaimKind, e: Expr, m: string)
    ensures PrintSimple(Claim(k, e, m)) ==
            [ClaimKeyword(k)] + ([TLParen] + (PrintInner(e) + [TComma, TString(m), TRParen, TSemi]))
  {
    hide PrintInner;
    var body := PrintInner(e) + [TComma, TString(m), TRParen, TSemi];
    assert [ClaimKeyword(k), TLParen] + body == [ClaimKeyword(k)] + ([TLParen] + body);
  }

  lemma ClaimTail(k: ClaimKind, e: Expr, m: string)
    ensures ReadClaim(k, [TLParen] + (PrintInner(e) + [TComma, TString(m), TRParen, TSemi])) == Some(Claim(k, RT.Normal(e), m))
  {
    var rest := [TComma, TString(m), TRParen, TSemi];
    assert ([TLParen] + (PrintInner(e) + rest))[1..] == PrintInner(e) + rest;
    ExprReadsBack(e, rest);
    hide PrintInner, ParseLevel;
  }

  lemma AssumeInvariantReadsBack(name: string, es: seq<Expr>)
    ensures ReadSimple(PrintSimple(AssumeInvariant(name, es))) == Some(AssumeInvariant(name, RT.NormalList(es)))
  {
    var k := if es == [] then [TName(name), TSemi] else [TName(name), TLParen] + (PrintList(es) + [TRParen] + [TSemi]);
    InvariantPrints(name, es);
    InvariantTail(name, es);
    hide *;
    Dispatch(TRequireInvariant, k);
    Keywords(k);
  }

  lemma InvariantPrints(name: string, es: seq<Expr>)
    ensures PrintSimple(AssumeInvariant(name, es)) ==
            [TRequireInvariant] +
            if es == [] then [TName(name), TSemi] else [TName(name), TLParen] + (PrintList(es) + [TRParen] + [TSemi])
  {
    hide PrintList;
    var body := PrintList(es) + [TRParen] + [TSemi];
    assert [TRequireInvariant, TName(name), TLParen] + body == [TRequireInvariant] + ([TName(name), TLParen] + body);
  }

  lemma InvariantTail(name: string, es: seq<Expr>)
    ensures ReadInvariant(if es == [] then [TName(name), TSemi] else [TName(name), TLParen] + (PrintList(es) + [TRParen] + [TSemi]))
            == Some(AssumeInvariant(name, RT.NormalList(es)))
  {
    if es != [] {
      var body := PrintList(es) + [TRParen] + [TSemi];
      ArgumentsReadBack(es);
      assert ([TName(name), TLParen] + body)[2..] == body;
    }
    hide PrintList, ReadArguments;
  }

  lemma ApplyReadsBack(app: FunctionApplication)
    ensures ReadSimple(PrintSimple(Apply(app))) == Some(Apply(RT.Normal(FunctionCall(app)).application))
  {
    var ts := PrintSimple(Apply(app));
    CallHasShape(app, [TSemi]);
    CallIsACall(ts);
    LastReadsBack(FunctionCall(app));
    DispatchUnmarked(ts);
    hide PrintInner, ReadLast, ParseTypeAndId, ReadLhs, ReadSimple;
  }

  lemma ResetReadsBack(e: Expr)
    ensures ReadSimple(PrintSimple(ResetStorage(e))) == Some(ResetStorage(RT.Normal(e)))
  {
    LastReadsBack(e);
    Dispatch(TResetStorage, PrintInner(e) + [TSemi]);
    hide PrintInner, ReadLast, ReadSimple;
  }

  /** Two or more values in parentheses are not one expression. */
  lemma ListIsNoExpression(es: seq<Expr>, rest: seq<Token>)
    requires |es| > 1
    ensures ParseLevel(0, [TLParen] + (PrintList(es) + rest)).Fail?
  {
    var k := PrintList(es[1..]) + rest;
    var ts := [TLParen] + (PrintList(es) + rest);
    assert !RT.IsPrefixToken(TLParen) && !RT.IsBinderToken(TLParen);
    assert RT.Clean([TComma] + k) && RT.Stops(0, [TComma] + k);
    ListFront(es, rest);
    hide *;
    ExprReadsBack(es[0], [TComma] + k);
    NoTuple(ts, RT.Normal(es[0]), k);
    NothingRead(0, ts);
  }

  lemma ListFront(es: seq<Expr>, rest: seq<Token>)
    requires |es| > 1
    ensures ([TLParen] + (PrintList(es) + rest))[1..] == PrintInner(es[0]) + ([TComma] + (PrintList(es[1..]) + rest))
  {
    RT.ListUnfolds(es);
    hide PrintList, PrintInner;
    var a, b := PrintInner(es[0]), PrintList(es[1..]);
    assert ([TLParen] + (PrintList(es) + rest))[1..] == PrintList(es) + rest;
    S.Assoc(a, [TComma], b);
    S.Assoc(a, [TComma] + b, rest);
    S.Assoc([TComma], b, rest);
  }

  lemma NoTuple(ts: seq<Token>, e: Expr, k: seq<Token>)
    requires ts != [] && ts[0] == TLParen && ParseLevel(0, ts[1..]) == Ok(e, [TComma] + k)
    ensures ParsePrimary(ts).Fail?
  {
    hide ParseLevel;
  }

  lemma ReturnReadsBack(es: seq<Expr>)
    ensures ReadSimple(PrintSimple(Return(es))) == Some(Return(RT.NormalList(es)))
  {
    var k := ReturnTokens(es);
    ReturnPrints(es);
    ReturnTail(es);
    hide *;
    Dispatch(TReturn, k);
    Keywords(k);
  }

  function ReturnTokens(es: seq<Expr>): seq<Token> {
    if es == [] then [TSemi]
    else if |es| == 1 then PrintInner(es[0]) + [TSemi]
    else [TLParen] + (PrintList(es) + [TRParen] + [TSemi])
  }

  lemma ReturnPrints(es: seq<Expr>)
    ensures PrintSimple(Return(es)) == [TReturn] + ReturnTokens(es)
  {
    hide PrintList, PrintInner;
    var body := PrintList(es) + [TRParen] + [TSemi];
    assert [TReturn, TLParen] + body == [TReturn] + ([TLParen] + body);
  }

  lemma ReturnTail(es: seq<Expr>)
    ensures ReadReturn(ReturnTokens(es)) == Some(Return(RT.NormalList(es)))
  {
    hide PrintInner, PrintList;
    if es == [] {
    } else if |es| == 1 {
      OneValueReadsBack(es[0]);
      assert es[1..] == [] && RT.NormalList(es) == [RT.Normal(es[0])];
      hide ReadReturn;
    } else {
      ValuesReadBack(es);
      hide ReadReturn;
    }
  }

  lemma OneValueReadsBack(e: Expr)
    ensures ReadReturn(PrintInner(e) + [TSemi]) == Some(Return([RT.Normal(e)]))
  {
    LastReadsBack(e);
    ExprStarts(e);
    hide PrintInner, ReadLast;
    assert (PrintInner(e) + [TSemi])[0] == PrintInner(e)[0];
  }

  lemma ValuesReadBack(es: seq<Expr>)
    requires |es| > 1
    ensures ReadReturn([TLParen] + (PrintList(es) + [TRParen] + [TSemi])) == Some(Return(RT.NormalList(es)))
  {
    var k := PrintList(es) + [TRParen] + [TSemi];
    ListIsNoExpression(es, [TRParen] + [TSemi]);
    S.Assoc(PrintList(es), [TRParen], [TSemi]);
    assert ([TLParen] + k)[1..] == k;
    ArgumentsReadBack(es);
    hide PrintList, ReadArguments, ParseLevel;
  }

  /** Main result: every one-line command is read back from its tokens, its expressions in normal form. */
  lemma SimpleReadsBack(c: Simple)
    ensures ReadSimple(PrintSimple(c)) == Some(NormalSimple(c))
  {
    match c
    case Declaration(v, e) => DeclarationReadsBack(v, e);
    case Assignment(ls, e) => AssignmentReadsBack(ls, e);
    case Havoc(ls, e) => HavocReadsBack(ls, e);
    case Claim(k, e, m) => ClaimReadsBack(k, e, m);
    case AssumeInvariant(name, es) => AssumeInvariantReadsBack(name, es);
    case Apply(app) => ApplyReadsBack(app);
    case ResetStorage(e) => ResetReadsBack(e);
    case Return(es) => ReturnReadsBack(es);
    case Revert(m) => RevertReadsBack(m);
  }

  lemma RevertReadsBack(m: Option<string>)
    ensures ReadSimple(PrintSimple(Revert(m))) == Some(Revert(if m == Some("") then None else m))
  {
    var k := if m.GetOr("") == "" then [TSemi] else [TLParen, TString(m.value), TRParen, TSemi];
    assert PrintSimple(Revert(m)) == [TRevert] + k;
    assert ReadRevert(k) == Some(Revert(if m == Some("") then None else m));
    hide *;
    Dispatch(TRevert, k);
    Keywords(k);
  }

  /** It ends in a semicolon and does not begin like a block or a condition. */
  lemma SimpleShape(c: Simple)
    ensures var ts := PrintSimple(c);
            ts != [] && ts[|ts| - 1] == TSemi && ts[0] != TRBrace && ts[0] != TLBrace && ts[0] != TIf
  {
    hide PrintInner, PrintLhs, PrintLhss, PrintList, PrintType;
    match c
    case Declaration(v, _) => TypeOpens(v.declType);
    case Assignment(ls, _) => if |ls| == 1 { LhsStart(ls[0]); }
    case Apply(app) => CallHasShape(app, [TSemi]);
    case _ =>
  }
}
