/** The CVL pretty printer for types and expressions, on tokens instead of characters. */
module CvlPrinter {
  import opened Wrappers
  import opened CvlSchema

  /** Operator glyphs, named after their spelling. `Minus` is printed for subtraction and for negation,
      `FatArrow` for implication and between the two halves of a mapping type. */
  datatype Glyph =
    | Plus | Minus | Star | Slash | Percent | Caret
    | AmpAmp | BarBar | FatArrow | IffArrow
    | Bar | Xor | Amp | Shl | Shr | ShrZeros
    | EqEq | BangEq | Less | LessEq | Greater | GreaterEq | InWord
    | Bang | Tilde

  datatype Token =
    | TName(text: string) | TPrim(text: string)
    | TNumber(text: string) | THex(text: string) | TString(text: string) | TSize(n: int)
    | TTrue | TFalse
    | TOp(g: Glyph)
    | TAtId(ida: IdAnnotation) | TAtCall(calla: CallAnnotation)
    | TLParen | TRParen | TLBracket | TRBracket | TComma | TDot | TQuestion | TColon
    | TForall | TExists | TSum | TUSum | TSig
    | TMapping | TStorage | TCalldata | TMemory
    | TIf | TElse | TRule | TFiltered | TArrow | TLBrace | TRBrace | TSemi | TEquals
    | THavoc | TAssuming | TRequire | TRequireInvariant | TResetStorage | TAssert | TSatisfy | TReturn | TRevert

  /** PRECEDENCE of a binary operator. */
  function BinaryPrecedence(op: BinaryOperator): nat {
    match op
    case Iff => 1
    case Implies => 2
    case Or => 3
    case And => 4
    case Eq | Ne | Lt | Le | Gt | Ge => 5
    case BwOr => 6
    case BwXor => 7
    case BwAnd => 8
    case BwLshift | BwRshift | BwRshiftWzeros => 9
    case Add | Sub => 10
    case Mul | Div | Mod => 11
    case Exponent => 13
    case In => 14
  }

  function Precedence(e: Expr): nat {
    match e
    case BinaryOp(op, _, _) => BinaryPrecedence(op)
    case UnaryOp(_, _) => 12
    case Conditional(_, _, _) | Quantifier(_, _, _) | SumExp(_, _, _) => 0
    case ArrayAccess(_, _) | FieldAccess(_, _) | FunctionCall(_) => 15
    case _ => 16
  }

  predicate NeedsParentheses(e: Expr, parent: Expr, isRightOperand: bool) {
    if Precedence(e) < Precedence(parent) then true
    else if Precedence(e) == Precedence(parent) && parent.BinaryOp? then
      if parent.op.Implies? || parent.op.Iff? || parent.op.Exponent? then !isRightOperand
      else isRightOperand
    else false
  }

  function BinaryGlyph(op: BinaryOperator): Glyph {
    match op
    case Add => Plus
    case And => AmpAmp
    case BwAnd => Amp
    case BwOr => Bar
    case BwLshift => Shl
    case BwRshift => Shr
    case BwRshiftWzeros => ShrZeros
    case BwXor => Xor
    case Div => Slash
    case Exponent => Caret
    case Eq => EqEq
    case Ge => GreaterEq
    case Gt => Greater
    case Iff => IffArrow
    case Implies => FatArrow
    case In => InWord
    case Le => LessEq
    case Lt => Less
    case Mod => Percent
    case Mul => Star
    case Ne => BangEq
    case Or => BarBar
    case Sub => Minus
  }

  function UnaryGlyph(op: UnaryOperator): Glyph {
    match op
    case BwNot => Tilde
    case Not => Bang
    case Uminus => Minus
  }

  function PrintType(t: CvlType): seq<Token> {
    match t
    case Mapping(k, v) => [TMapping, TLParen] + PrintType(k) + [TOp(FatArrow)] + PrintType(v) + [TRParen]
    case DynArray(b) => PrintType(b) + [TLBracket, TRBracket]
    case StaticArray(b, n) => PrintType(b) + [TLBracket, TSize(n), TRBracket]
    case Primitive(name) => [TPrim(name)]
    case StorageType => [TStorage]
    case ContractType(host, name) => [TName(host), TDot, TName(name)]
  }

  function PrintLocation(l: DataLocation): Token {
    match l
    case Calldata => TCalldata
    case Memory => TMemory
    case Storage => TStorage
  }

  function PrintVmType(t: VmType): seq<Token> {
    PrintType(t.base) + if t.location.None? then [] else [PrintLocation(t.location.value)]
  }

  function PrintVmTypes(ts: seq<VmType>): seq<Token> {
    if ts == [] then []
    else if |ts| == 1 then PrintVmType(ts[0])
    else PrintVmType(ts[0]) + [TComma] + PrintVmTypes(ts[1..])
  }

  function PrintTypeAndId(v: TypeAndId): seq<Token> {
    PrintType(v.declType) + [TName(v.id)]
  }

  function PrintTypeAndIds(vs: seq<TypeAndId>): seq<Token> {
    if vs == [] then []
    else if |vs| == 1 then PrintTypeAndId(vs[0])
    else PrintTypeAndId(vs[0]) + [TComma] + PrintTypeAndIds(vs[1..])
  }

  /** A contract qualifier is printed only when it is there and not the empty string. */
  function PrintHost(host: Option<string>): seq<Token> {
    if host.None? || host.value == "" then [] else [TName(host.value), TDot]
  }

  /** An expression without regard to its parent. */
  function PrintInner(e: Expr): seq<Token>
    decreases e, 1
  {
    match e
    case BoolLiteral(b) => [if b then TTrue else TFalse]
    case NumberLiteral(v) => [TNumber(v)]
    case HexLiteral(v) => [THex(v)]
    case StringLiteral(v) => [TString(v)]
    case ArrayLiteral(es) => [TLBracket] + PrintList(es) + [TRBracket]
    case Identifier(x, a) => [TName(x)] + if a.None? then [] else [TAtId(a.value)]
    case BinaryOp(op, l, r) =>
      Wrap(PrintInner(l), NeedsParentheses(l, e, false)) + [TOp(BinaryGlyph(op))] +
      Wrap(PrintInner(r), NeedsParentheses(r, e, true))
    case UnaryOp(op, x) => [TOp(UnaryGlyph(op))] + Wrap(PrintInner(x), NeedsParentheses(x, e, false))
    case Conditional(c, t, f) =>
      Wrap(PrintInner(c), NeedsParentheses(c, e, false)) + [TQuestion] +
      Wrap(PrintInner(t), NeedsParentheses(t, e, false)) + [TColon] +
      Wrap(PrintInner(f), NeedsParentheses(f, e, false))
    case Quantifier(all, v, b) =>
      [if all then TForall else TExists] + PrintTypeAndId(v) + [TDot] +
      Wrap(PrintInner(b), NeedsParentheses(b, e, false))
    case SumExp(u, vs, b) =>
      [if u then TUSum else TSum] + PrintTypeAndIds(vs) + [TDot] +
      Wrap(PrintInner(b), NeedsParentheses(b, e, false))
    case ArrayAccess(b, i) =>
      Wrap(PrintInner(b), NeedsParentheses(b, e, false)) + [TLBracket] + PrintInner(i) + [TRBracket]
    case FieldAccess(b, f) =>
      Wrap(PrintInner(b), NeedsParentheses(b, e, false)) + [TDot, TName(f)]
    case FunctionCall(app) =>
      PrintHost(app.hostContract) + [TName(app.name)] +
      (if app.annotation.None? then [] else [TAtCall(app.annotation.value)]) +
      [TLParen] + PrintList(app.params) + [TRParen]
    case SignatureLiteral(m, ts) =>
      [TSig, TColon] + PrintHost(m.contract) + [TName(m.methodName), TLParen] + PrintVmTypes(ts) + [TRParen]
  }

  function Wrap(ts: seq<Token>, parens: bool): seq<Token> {
    if parens then [TLParen] + ts + [TRParen] else ts
  }

  /** Elements of an array literal or arguments of a call: printed with no parent, joined by commas. */
  function PrintList(es: seq<Expr>): seq<Token>
    decreases es, 0
  {
    if es == [] then []
    else if |es| == 1 then PrintInner(es[0])
    else PrintInner(es[0]) + [TComma] + PrintList(es[1..])
  }
}
