/** A reader for printed expressions: recursive descent over the documented precedence levels.
    It is written from the grammar (level numbers belong to glyphs, not to AST nodes) and does not
    consult the printer's precedence table or its parenthesisation rule. */
module CvlReader {
  import opened Wrappers
  import opened CvlSchema
  import opened CvlPrinter

  datatype Parsed<+T> = Fail | Ok(value: T, rest: seq<Token>)

  /** The binary operator a token denotes in infix position. */
  function InfixOperator(t: Token): Option<BinaryOperator> {
    if !t.TOp? then None else
    match t.g
    case Plus => Some(Add)
    case Minus => Some(Sub)
    case Star => Some(Mul)
    case Slash => Some(Div)
    case Percent => Some(Mod)
    case Caret => Some(Exponent)
    case AmpAmp => Some(And)
    case BarBar => Some(Or)
    case FatArrow => Some(Implies)
    case IffArrow => Some(Iff)
    case Bar => Some(BwOr)
    case Xor => Some(BwXor)
    case Amp => Some(BwAnd)
    case Shl => Some(BwLshift)
    case Shr => Some(BwRshift)
    case ShrZeros => Some(BwRshiftWzeros)
    case EqEq => Some(Eq)
    case BangEq => Some(Ne)
    case Less => Some(Lt)
    case LessEq => Some(Le)
    case Greater => Some(Gt)
    case GreaterEq => Some(Ge)
    case InWord => Some(In)
    case Bang | Tilde => None
  }

  function PrefixOperator(t: Token): Option<UnaryOperator> {
    if t == TOp(Bang) then Some(Not)
    else if t == TOp(Tilde) then Some(BwNot)
    else if t == TOp(Minus) then Some(Uminus)
    else None
  }

  /** The level at which a token continues an expression that has just been read; -1 if it never does. */
  function ContinuationLevel(t: Token): int {
    match t
    case TQuestion => 0
    case TLBracket | TDot => 15
    case TOp(g) =>
      (match g
       case IffArrow => 1
       case FatArrow => 2
       case BarBar => 3
       case AmpAmp => 4
       case EqEq | BangEq | Less | LessEq | Greater | GreaterEq => 5
       case Bar => 6
       case Xor => 7
       case Amp => 8
       case Shl | Shr | ShrZeros => 9
       case Plus | Minus => 10
       case Star | Slash | Percent => 11
       case Caret => 13
       case InWord => 14
       case Bang | Tilde => -1)
    case _ => -1
  }

  predicate RightAssociative(p: nat) {
    p == 1 || p == 2 || p == 13
  }

  /** Whether the next token is a binary operator of level p. */
  predicate InfixNext(p: nat, ts: seq<Token>)
    ensures InfixNext(p, ts) ==> ts != []
  {
    ts != [] && InfixOperator(ts[0]).Some? && ContinuationLevel(ts[0]) == p
  }

  function ParseType(ts: seq<Token>): (r: Parsed<CvlType>)
    ensures r.Ok? ==> |r.rest| < |ts|
    decreases |ts|, 1
  {
    if ts == [] then Fail
    else if ts[0].TPrim? then TypeSuffix(Primitive(ts[0].text), ts[1..])
    else if ts[0] == TStorage then TypeSuffix(StorageType, ts[1..])
    else if |ts| >= 3 && ts[0].TName? && ts[1] == TDot && ts[2].TName? then
      TypeSuffix(ContractType(ts[0].text, ts[2].text), ts[3..])
    else if |ts| >= 2 && ts[0] == TMapping && ts[1] == TLParen then
      var k := ParseType(ts[2..]);
      if k.Fail? || k.rest == [] || k.rest[0] != TOp(FatArrow) then Fail else
      var v := ParseType(k.rest[1..]);
      if v.Fail? || v.rest == [] || v.rest[0] != TRParen then Fail else
      TypeSuffix(Mapping(k.value, v.value), v.rest[1..])
    else Fail
  }

  function TypeSuffix(t: CvlType, ts: seq<Token>): (r: Parsed<CvlType>)
    ensures r.Ok? ==> |r.rest| <= |ts|
    decreases |ts|, 0
  {
    if |ts| >= 2 && ts[0] == TLBracket && ts[1] == TRBracket then TypeSuffix(DynArray(t), ts[2..])
    else if |ts| >= 3 && ts[0] == TLBracket && ts[1].TSize? && ts[2] == TRBracket then
      TypeSuffix(StaticArray(t, ts[1].n), ts[3..])
    else Ok(t, ts)
  }

  function ParseTypeAndId(ts: seq<Token>): (r: Parsed<TypeAndId>)
    ensures r.Ok? ==> |r.rest| < |ts|
  {
    var t := ParseType(ts);
    if t.Fail? || t.rest == [] || !t.rest[0].TName? then Fail
    else Ok(TypeAndId(t.value, t.rest[0].text), t.rest[1..])
  }

  /** Comma-separated variable declarations, up to and including the dot. */
  function ParseVariables(ts: seq<Token>): (r: Parsed<seq<TypeAndId>>)
    ensures r.Ok? ==> |r.rest| < |ts|
  {
    if ts != [] && ts[0] == TDot then Ok([], ts[1..]) else ParseVariables1(ts)
  }

  function ParseVariables1(ts: seq<Token>): (r: Parsed<seq<TypeAndId>>)
    ensures r.Ok? ==> |r.rest| < |ts|
    decreases |ts|
  {
    var v := ParseTypeAndId(ts);
    if v.Fail? || v.rest == [] then Fail
    else if v.rest[0] == TDot then Ok([v.value], v.rest[1..])
    else if v.rest[0] == TComma then
      var vs := ParseVariables1(v.rest[1..]);
      if vs.Fail? then Fail else Ok([v.value] + vs.value, vs.rest)
    else Fail
  }

  function ParseVmType(ts: seq<Token>): (r: Parsed<VmType>)
    ensures r.Ok? ==> |r.rest| < |ts|
  {
    var t := ParseType(ts);
    if t.Fail? then Fail
    else if t.rest != [] && t.rest[0] == TCalldata then Ok(VmType(t.value, Some(Calldata)), t.rest[1..])
    else if t.rest != [] && t.rest[0] == TMemory then Ok(VmType(t.value, Some(Memory)), t.rest[1..])
    else if t.rest != [] && t.rest[0] == TStorage then Ok(VmType(t.value, Some(Storage)), t.rest[1..])
    else Ok(VmType(t.value, None), t.rest)
  }

  function ParseVmTypes(ts: seq<Token>): (r: Parsed<seq<VmType>>)
    ensures r.Ok? ==> |r.rest| < |ts|
  {
    if ts != [] && ts[0] == TRParen then Ok([], ts[1..]) else ParseVmTypes1(ts)
  }

  function ParseVmTypes1(ts: seq<Token>): (r: Parsed<seq<VmType>>)
    ensures r.Ok? ==> |r.rest| < |ts|
    decreases |ts|
  {
    var v := ParseVmType(ts);
    if v.Fail? || v.rest == [] then Fail
    else if v.rest[0] == TRParen then Ok([v.value], v.rest[1..])
    else if v.rest[0] == TComma then
      var vs := ParseVmTypes1(v.rest[1..]);
      if vs.Fail? then Fail else Ok([v.value] + vs.value, vs.rest)
    else Fail
  }

  /** An expression at level p or tighter. Level 0 is the whole expression grammar, level 15 postfix forms. */
  function ParseLevel(p: nat, ts: seq<Token>): (r: Parsed<Expr>)
    requires p <= 15
    ensures r.Ok? ==> |r.rest| < |ts|
    decreases |ts|, 2, 16 - p
  {
    if ts == [] then Fail
    else if p == 0 && (ts[0] == TForall || ts[0] == TExists) then
      var v := ParseTypeAndId(ts[1..]);
      if v.Fail? || v.rest == [] || v.rest[0] != TDot then Fail else
      var b := ParseLevel(0, v.rest[1..]);
      if b.Fail? then Fail else Ok(Quantifier(ts[0] == TForall, v.value, b.value), b.rest)
    else if p == 0 && (ts[0] == TSum || ts[0] == TUSum) then
      var vs := ParseVariables(ts[1..]);
      if vs.Fail? then Fail else
      var b := ParseLevel(0, vs.rest);
      if b.Fail? then Fail else Ok(SumExp(ts[0] == TUSum, vs.value, b.value), b.rest)
    else if p == 12 && PrefixOperator(ts[0]).Some? then
      var x := ParseLevel(12, ts[1..]);
      if x.Fail? then Fail else Ok(UnaryOp(PrefixOperator(ts[0]).value, x.value), x.rest)
    else
      var first := if p == 15 then ParsePrimary(ts) else ParseLevel(p + 1, ts);
      if first.Fail? then Fail else Tail(p, first.value, first.rest)
  }

  /** What level p does after it has read e. */
  function Tail(p: nat, e: Expr, ts: seq<Token>): (r: Parsed<Expr>)
    requires p <= 15
    ensures r.Ok? ==> |r.rest| <= |ts|
    decreases |ts|, 0
  {
    if p == 0 then
      if ts == [] || ts[0] != TQuestion then Ok(e, ts) else
      var t := ParseLevel(0, ts[1..]);
      if t.Fail? || t.rest == [] || t.rest[0] != TColon then Fail else
      var f := ParseLevel(0, t.rest[1..]);
      if f.Fail? then Fail else Ok(Conditional(e, t.value, f.value), f.rest)
    else if p == 15 then
      if |ts| >= 2 && ts[0] == TDot && ts[1].TName? then Tail(15, FieldAccess(e, ts[1].text), ts[2..])
      else if ts != [] && ts[0] == TLBracket then
        var i := ParseLevel(0, ts[1..]);
        if i.Fail? || i.rest == [] || i.rest[0] != TRBracket then Fail
        else Tail(15, ArrayAccess(e, i.value), i.rest[1..])
      else Ok(e, ts)
    else if !InfixNext(p, ts) then Ok(e, ts)
    else
      var op := InfixOperator(ts[0]).value;
      var r := ParseLevel(if RightAssociative(p) then p else p + 1, ts[1..]);
      if r.Fail? then Fail
      else if RightAssociative(p) then Ok(BinaryOp(op, e, r.value), r.rest)
      else Tail(p, BinaryOp(op, e, r.value), r.rest)
  }

  /** The argument list of a call has been opened at ts. */
  function FinishCall(ann: Option<CallAnnotation>, name: string, host: Option<string>, ts: seq<Token>): (r: Parsed<Expr>)
    ensures r.Ok? ==> |r.rest| < |ts|
    decreases |ts|, 4
  {
    var args := ParseList(TRParen, ts);
    if args.Fail? then Fail
    else Ok(FunctionCall(FunctionApplication(ann, name, host, args.value, None)), args.rest)
  }

  /** Length of a call's opening after its name: `(` or `@annotation (`; 0 if no call starts here. */
  function CallOpening(ts: seq<Token>): (n: nat)
    ensures n <= |ts| && (n == 0 || n == 1 || n == 2)
    ensures n == 2 ==> ts[0].TAtCall?
  {
    if ts != [] && ts[0] == TLParen then 1
    else if |ts| >= 2 && ts[0].TAtCall? && ts[1] == TLParen then 2
    else 0
  }

  function OpeningAnnotation(ts: seq<Token>): Option<CallAnnotation> {
    if CallOpening(ts) == 2 then Some(ts[0].calla) else None
  }

  function ParsePrimary(ts: seq<Token>): (r: Parsed<Expr>)
    requires ts != []
    ensures r.Ok? ==> |r.rest| < |ts|
    decreases |ts|, 1
  {
    match ts[0]
    case TTrue => Ok(BoolLiteral(true), ts[1..])
    case TFalse => Ok(BoolLiteral(false), ts[1..])
    case TNumber(v) => Ok(NumberLiteral(v), ts[1..])
    case THex(v) => Ok(HexLiteral(v), ts[1..])
    case TString(v) => Ok(StringLiteral(v), ts[1..])
    case TLParen =>
      var e := ParseLevel(0, ts[1..]);
      if e.Fail? || e.rest == [] || e.rest[0] != TRParen then Fail else Ok(e.value, e.rest[1..])
    case TLBracket =>
      var es := ParseList(TRBracket, ts[1..]);
      if es.Fail? then Fail else Ok(ArrayLiteral(es.value), es.rest)
    case TName(x) =>
      if CallOpening(ts[1..]) > 0 then
        FinishCall(OpeningAnnotation(ts[1..]), x, None, ts[1 + CallOpening(ts[1..])..])
      else if |ts| >= 3 && ts[1] == TDot && ts[2].TName? && CallOpening(ts[3..]) > 0 then
        FinishCall(OpeningAnnotation(ts[3..]), ts[2].text, Some(x), ts[3 + CallOpening(ts[3..])..])
      else if |ts| >= 2 && ts[1].TAtId? then Ok(Identifier(x, Some(ts[1].ida)), ts[2..])
      else Ok(Identifier(x, None), ts[1..])
    case TSig =>
      if |ts| >= 4 && ts[1] == TColon && ts[2].TName? && ts[3] == TLParen then
        var vs := ParseVmTypes(ts[4..]);
        if vs.Fail? then Fail else Ok(SignatureLiteral(MethodReference(None, ts[2].text), vs.value), vs.rest)
      else if |ts| >= 6 && ts[1] == TColon && ts[2].TName? && ts[3] == TDot && ts[4].TName? && ts[5] == TLParen then
        var vs := ParseVmTypes(ts[6..]);
        if vs.Fail? then Fail
        else Ok(SignatureLiteral(MethodReference(Some(ts[2].text), ts[4].text), vs.value), vs.rest)
      else Fail
    case _ => Fail
  }

  /** Comma-separated expressions, up to and including the closing token. */
  function ParseList(close: Token, ts: seq<Token>): (r: Parsed<seq<Expr>>)
    ensures r.Ok? ==> |r.rest| < |ts|
    decreases |ts|, 3, 1
  {
    if ts != [] && ts[0] == close then Ok([], ts[1..]) else ParseList1(close, ts)
  }

  function ParseList1(close: Token, ts: seq<Token>): (r: Parsed<seq<Expr>>)
    ensures r.Ok? ==> |r.rest| < |ts|
    decreases |ts|, 3, 0
  {
    var e := ParseLevel(0, ts);
    if e.Fail? || e.rest == [] then Fail
    else if e.rest[0] == close then Ok([e.value], e.rest[1..])
    else if e.rest[0] == TComma then
      var es := ParseList1(close, e.rest[1..]);
      if es.Fail? then Fail else Ok([e.value] + es.value, es.rest)
    else Fail
  }

  /** A whole expression: nothing may be left over. */
  function Parse(ts: seq<Token>): Option<Expr> {
    var r := ParseLevel(0, ts);
    if r.Ok? && r.rest == [] then Some(r.value) else None
  }
}
