/** Reading back what the printer prints.

    For every expression tree e, the printed tokens parse to `Normal(e)`; and `Normal(e) == e` exactly when
    `Faithful(e)`: no conditional has a conditional, quantifier or sum as its condition, no call carries a
    state clause, no contract qualifier is the empty string. */
module CvlRoundTrip {
  import opened Wrappers
  import opened CvlSchema
  import opened CvlPrinter
  import opened CvlReader
  import S = Sequences

  /** The trees the printed form determines. */
  predicate Faithful(e: Expr)
    decreases e, 1
  {
    match e
    case ArrayLiteral(es) => AllFaithful(es)
    case BinaryOp(_, l, r) => Faithful(l) && Faithful(r)
    case UnaryOp(_, x) => Faithful(x)
    case Conditional(c, t, f) =>
      !c.Conditional? && !c.Quantifier? && !c.SumExp? && Faithful(c) && Faithful(t) && Faithful(f)
    case Quantifier(_, _, b) => Faithful(b)
    case SumExp(_, _, b) => Faithful(b)
    case ArrayAccess(b, i) => Faithful(b) && Faithful(i)
    case FieldAccess(b, _) => Faithful(b)
    case FunctionCall(app) => app.state == None && app.hostContract != Some("") && AllFaithful(app.params)
    case SignatureLiteral(m, _) => m.contract != Some("")
    case _ => true
  }

  predicate AllFaithful(es: seq<Expr>)
    decreases es, 0
  {
    es == [] || (Faithful(es[0]) && AllFaithful(es[1..]))
  }

  /** The tree a reader sees: `? :` binds to the nearest complete condition on its left, state clauses and
      empty qualifiers are gone. */
  function Normal(e: Expr): Expr
    decreases e, 1
  {
    match e
    case ArrayLiteral(es) => ArrayLiteral(NormalList(es))
    case BinaryOp(op, l, r) => BinaryOp(op, Normal(l), Normal(r))
    case UnaryOp(op, x) => UnaryOp(op, Normal(x))
    case Conditional(c, t, f) => Attach(Normal(c), Normal(t), Normal(f))
    case Quantifier(all, v, b) => Quantifier(all, v, Normal(b))
    case SumExp(u, vs, b) => SumExp(u, vs, Normal(b))
    case ArrayAccess(b, i) => ArrayAccess(Normal(b), Normal(i))
    case FieldAccess(b, f) => FieldAccess(Normal(b), f)
    case FunctionCall(app) =>
      FunctionCall(FunctionApplication(app.annotation, app.name, NormalHost(app.hostContract), NormalList(app.params), None))
    case SignatureLiteral(m, ts) => SignatureLiteral(MethodReference(NormalHost(m.contract), m.methodName), ts)
    case _ => e
  }

  function NormalList(es: seq<Expr>): seq<Expr>
    decreases es, 0
  {
    if es == [] then [] else [Normal(es[0])] + NormalList(es[1..])
  }

  function NormalHost(host: Option<string>): Option<string> {
    if host == Some("") then None else host
  }

  /** `c ? t : f` when c itself may end in an open-ended form that swallows the question mark. */
  function Attach(c: Expr, t: Expr, f: Expr): Expr {
    match c
    case Conditional(c1, t1, f1) => Conditional(c1, t1, Attach(f1, t, f))
    case Quantifier(all, v, b) => Quantifier(all, v, Attach(b, t, f))
    case SumExp(u, vs, b) => SumExp(u, vs, Attach(b, t, f))
    case _ => Conditional(c, t, f)
  }

  // ---- What may follow an expression ----

  /** The next token does not continue an expression at level p or tighter. */
  predicate Stops(p: int, rest: seq<Token>) {
    rest == [] || ContinuationLevel(rest[0]) < p
  }

  /** The tokens after a name do not turn it into a call or an annotated identifier. */
  predicate Clean(rest: seq<Token>) {
    rest == [] ||
    (rest[0] != TLParen && !rest[0].TAtCall? && !rest[0].TAtId? &&
     !(|rest| >= 3 && rest[0] == TDot && rest[1].TName? && (rest[2] == TLParen || rest[2].TAtCall?)))
  }

  /** Levels whose tail goes on reading after an operand of the same level. */
  predicate Extends(p: nat) {
    p == 15 || (1 <= p <= 14 && p != 12 && !RightAssociative(p))
  }

  /** The level at which e is read. */
  function Level(e: Expr): nat {
    if Precedence(e) >= 15 then 15 else Precedence(e)
  }

  lemma GlyphsReadBack(op: BinaryOperator, uop: UnaryOperator)
    ensures InfixOperator(TOp(BinaryGlyph(op))) == Some(op)
    ensures ContinuationLevel(TOp(BinaryGlyph(op))) == BinaryPrecedence(op)
    ensures PrefixOperator(TOp(UnaryGlyph(uop))) == Some(uop)
    ensures RightAssociative(BinaryPrecedence(op)) <==> (op.Implies? || op.Iff? || op.Exponent?)
    ensures 1 <= BinaryPrecedence(op) <= 14 && BinaryPrecedence(op) != 12
  {}

  // ---- Printing one construct ----

  lemma Regroup(a: seq<Token>, b: seq<Token>, c: seq<Token>, d: seq<Token>, rest: seq<Token>)
    ensures a + b + rest == a + (b + rest)
    ensures a + b + c + rest == a + (b + (c + rest))
    ensures a + b + c + d + rest == a + (b + (c + (d + rest)))
  {}

  lemma BinaryPrints(op: BinaryOperator, l: Expr, r: Expr, rest: seq<Token>)
    ensures
      var e := BinaryOp(op, l, r);
      PrintInner(e) + rest == Wrap(PrintInner(l), NeedsParentheses(l, e, false)) +
      ([TOp(BinaryGlyph(op))] + (Wrap(PrintInner(r), NeedsParentheses(r, e, true)) + rest))
  {
    var e := BinaryOp(op, l, r);
    Regroup(Wrap(PrintInner(l), NeedsParentheses(l, e, false)), [TOp(BinaryGlyph(op))],
            Wrap(PrintInner(r), NeedsParentheses(r, e, true)), [], rest);
  }

  lemma UnaryPrints(op: UnaryOperator, x: Expr, rest: seq<Token>)
    ensures
      var e := UnaryOp(op, x);
      PrintInner(e) + rest == [TOp(UnaryGlyph(op))] + (Wrap(PrintInner(x), NeedsParentheses(x, e, false)) + rest)
  {
    var e := UnaryOp(op, x);
    Regroup([TOp(UnaryGlyph(op))], Wrap(PrintInner(x), NeedsParentheses(x, e, false)), [], [], rest);
  }

  lemma ConditionalPrints(c: Expr, t: Expr, f: Expr, rest: seq<Token>)
    ensures PrintInner(Conditional(c, t, f)) == PrintInner(c) + [TQuestion] + PrintInner(t) + [TColon] + PrintInner(f)
    ensures PrintInner(Conditional(c, t, f)) + rest
            == PrintInner(c) + ([TQuestion] + (PrintInner(t) + ([TColon] + (PrintInner(f) + rest))))
  {
    assert PrintInner(Conditional(c, t, f)) == PrintInner(c) + [TQuestion] + PrintInner(t) + [TColon] + PrintInner(f);
    hide PrintInner;
    Regroup(PrintInner(c), [TQuestion], PrintInner(t), [TColon], PrintInner(f) + rest);
    Regroup(PrintInner(c) + [TQuestion] + PrintInner(t) + [TColon], PrintInner(f), [], [], rest);
  }

  lemma QuantifierPrints(all: bool, v: TypeAndId, b: Expr, rest: seq<Token>)
    ensures PrintInner(Quantifier(all, v, b)) == [if all then TForall else TExists] + PrintTypeAndId(v) + [TDot] + PrintInner(b)
    ensures PrintInner(Quantifier(all, v, b)) + rest
            == [if all then TForall else TExists] + (PrintTypeAndId(v) + ([TDot] + (PrintInner(b) + rest)))
  {
    Regroup([if all then TForall else TExists], PrintTypeAndId(v), [TDot], PrintInner(b), rest);
  }

  lemma SumPrints(u: bool, vs: seq<TypeAndId>, b: Expr, rest: seq<Token>)
    ensures PrintInner(SumExp(u, vs, b)) == [if u then TUSum else TSum] + PrintTypeAndIds(vs) + [TDot] + PrintInner(b)
    ensures PrintInner(SumExp(u, vs, b)) + rest
            == [if u then TUSum else TSum] + (PrintTypeAndIds(vs) + [TDot] + (PrintInner(b) + rest))
  {
    Regroup([if u then TUSum else TSum], PrintTypeAndIds(vs), [TDot], PrintInner(b), rest);
    Regroup(PrintTypeAndIds(vs), [TDot], [], [], PrintInner(b) + rest);
  }

  lemma IndexPrints(b: Expr, i: Expr, rest: seq<Token>)
    ensures
      var e := ArrayAccess(b, i);
      PrintInner(e) + rest == Wrap(PrintInner(b), NeedsParentheses(b, e, false)) +
      ([TLBracket] + (PrintInner(i) + ([TRBracket] + rest)))
  {
    Regroup(Wrap(PrintInner(b), NeedsParentheses(b, ArrayAccess(b, i), false)), [TLBracket], PrintInner(i), [TRBracket], rest);
  }

  lemma FieldPrints(b: Expr, f: string, rest: seq<Token>)
    ensures
      var e := FieldAccess(b, f);
      PrintInner(e) + rest == Wrap(PrintInner(b), NeedsParentheses(b, e, false)) + ([TDot, TName(f)] + rest)
  {
    Regroup(Wrap(PrintInner(b), NeedsParentheses(b, FieldAccess(b, f), false)), [TDot, TName(f)], [], [], rest);
  }

  lemma ArrayPrints(es: seq<Expr>, rest: seq<Token>)
    ensures PrintInner(ArrayLiteral(es)) + rest == [TLBracket] + (PrintList(es) + [TRBracket] + rest)
  {
    Regroup([TLBracket], PrintList(es), [TRBracket], [], rest);
    Regroup(PrintList(es), [TRBracket], [], [], rest);
  }

  /** The tokens between a call's name and its first argument. */
  function Opening(ann: Option<CallAnnotation>): seq<Token> {
    if ann.None? then [TLParen] else [TAtCall(ann.value), TLParen]
  }

  lemma CallPrints(app: FunctionApplication, rest: seq<Token>)
    ensures PrintInner(FunctionCall(app)) + rest ==
            PrintHost(app.hostContract) + [TName(app.name)] +
            (Opening(app.annotation) + (PrintList(app.params) + [TRParen] + rest))
  {
    CallParts(app);
    hide PrintInner, PrintList, PrintHost;
    Regroup(PrintHost(app.hostContract) + [TName(app.name)], Opening(app.annotation), PrintList(app.params), [TRParen], rest);
    Regroup(PrintList(app.params), [TRParen], [], [], rest);
  }

  lemma CallParts(app: FunctionApplication)
    ensures PrintInner(FunctionCall(app)) ==
            PrintHost(app.hostContract) + [TName(app.name)] + Opening(app.annotation) + PrintList(app.params) + [TRParen]
  {
    hide PrintList, PrintHost;
    var h, l := PrintHost(app.hostContract) + [TName(app.name)], PrintList(app.params) + [TRParen];
  }

  // ---- Reading one construct ----
  //
  // One lemma per grammar rule, so that the proofs below never unfold the reader itself.

  lemma ReadDescend(p: nat, ts: seq<Token>, e: Expr, k: seq<Token>)
    requires p < 15 && ts != [] && ParseLevel(p + 1, ts) == Ok(e, k)
    requires p == 12 ==> !IsPrefixToken(ts[0])
    requires p == 0 ==> !IsBinderToken(ts[0])
    ensures ParseLevel(p, ts) == Tail(p, e, k)
  {}

  lemma ReadPrimary(ts: seq<Token>, e: Expr, k: seq<Token>)
    requires ts != [] && ParsePrimary(ts) == Ok(e, k)
    ensures ParseLevel(15, ts) == Tail(15, e, k)
  {}

  lemma ReadPrefix(op: UnaryOperator, k: seq<Token>, x: Expr, rest: seq<Token>)
    requires ParseLevel(12, k) == Ok(x, rest)
    ensures ParseLevel(12, [TOp(UnaryGlyph(op))] + k) == Ok(UnaryOp(op, x), rest)
  {
    GlyphsReadBack(Add, op);
    assert ([TOp(UnaryGlyph(op))] + k)[1..] == k;
  }

  lemma ReadQuantifier(all: bool, ts: seq<Token>, v: TypeAndId, k: seq<Token>, b: Expr, rest: seq<Token>)
    requires ParseTypeAndId(ts) == Ok(v, [TDot] + k) && ParseLevel(0, k) == Ok(b, rest)
    ensures ParseLevel(0, [if all then TForall else TExists] + ts) == Ok(Quantifier(all, v, b), rest)
  {
    assert ([if all then TForall else TExists] + ts)[1..] == ts;
    assert ([TDot] + k)[1..] == k;
  }

  lemma ReadSum(u: bool, ts: seq<Token>, vs: seq<TypeAndId>, k: seq<Token>, b: Expr, rest: seq<Token>)
    requires ParseVariables(ts) == Ok(vs, k) && ParseLevel(0, k) == Ok(b, rest)
    ensures ParseLevel(0, [if u then TUSum else TSum] + ts) == Ok(SumExp(u, vs, b), rest)
  {
    assert ([if u then TUSum else TSum] + ts)[1..] == ts;
  }

  lemma ReadQuestion(c: Expr, k1: seq<Token>, t: Expr, k2: seq<Token>, f: Expr, rest: seq<Token>)
    requires ParseLevel(0, k1) == Ok(t, [TColon] + k2) && ParseLevel(0, k2) == Ok(f, rest)
    ensures Tail(0, c, [TQuestion] + k1) == Ok(Conditional(c, t, f), rest)
  {
    assert ([TQuestion] + k1)[1..] == k1;
    assert ([TColon] + k2)[1..] == k2;
  }

  lemma ReadIndex(b: Expr, k: seq<Token>, i: Expr, rest: seq<Token>)
    requires ParseLevel(0, k) == Ok(i, [TRBracket] + rest)
    ensures Tail(15, b, [TLBracket] + k) == Tail(15, ArrayAccess(b, i), rest)
  {
    assert ([TLBracket] + k)[1..] == k;
    assert ([TRBracket] + rest)[1..] == rest;
  }

  lemma ReadField(b: Expr, f: string, rest: seq<Token>)
    ensures Tail(15, b, [TDot, TName(f)] + rest) == Tail(15, FieldAccess(b, f), rest)
  {
    assert ([TDot, TName(f)] + rest)[2..] == rest;
  }

  lemma ReadInfix(op: BinaryOperator, l: Expr, k: seq<Token>, r: Expr, rest: seq<Token>)
    requires ParseLevel(if RightAssociative(BinaryPrecedence(op)) then BinaryPrecedence(op) else BinaryPrecedence(op) + 1, k)
             == Ok(r, rest)
    ensures Tail(BinaryPrecedence(op), l, [TOp(BinaryGlyph(op))] + k) ==
            if RightAssociative(BinaryPrecedence(op)) then Ok(BinaryOp(op, l, r), rest)
            else Tail(BinaryPrecedence(op), BinaryOp(op, l, r), rest)
  {
    GlyphsReadBack(op, Not);
    assert ([TOp(BinaryGlyph(op))] + k)[1..] == k;
  }

  lemma ReadParens(k: seq<Token>, e: Expr, rest: seq<Token>)
    requires ParseLevel(0, k) == Ok(e, [TRParen] + rest)
    ensures ParseLevel(15, [TLParen] + k) == Tail(15, e, rest)
  {
    assert ([TLParen] + k)[1..] == k;
    assert ([TRParen] + rest)[1..] == rest;
    ReadPrimary([TLParen] + k, e, rest);
  }

  lemma ReadArray(k: seq<Token>, es: seq<Expr>, rest: seq<Token>)
    requires ParseList(TRBracket, k) == Ok(es, rest)
    ensures ParseLevel(15, [TLBracket] + k) == Tail(15, ArrayLiteral(es), rest)
  {
    assert ([TLBracket] + k)[1..] == k;
    ReadPrimary([TLBracket] + k, ArrayLiteral(es), rest);
  }

  lemma ReadLast(close: Token, k: seq<Token>, e: Expr, rest: seq<Token>)
    requires close != TComma && ParseLevel(0, k) == Ok(e, [close] + rest)
    ensures ParseList1(close, k) == Ok([e], rest)
  {
    assert ([close] + rest)[1..] == rest;
  }

  lemma ReadMore(close: Token, ts: seq<Token>, e: Expr, k: seq<Token>, es: seq<Expr>, rest: seq<Token>)
    requires close != TComma && ParseLevel(0, ts) == Ok(e, [TComma] + k) && ParseList1(close, k) == Ok(es, rest)
    ensures ParseList1(close, ts) == Ok([e] + es, rest)
  {
    assert ([TComma] + k)[1..] == k;
  }

  lemma ReadOpening(ann: Option<CallAnnotation>, k: seq<Token>)
    ensures CallOpening(Opening(ann) + k) == |Opening(ann)| && OpeningAnnotation(Opening(ann) + k) == ann
    ensures (Opening(ann) + k)[|Opening(ann)|..] == k
    ensures !(Opening(ann) + k)[0].TDot?
  {}

  lemma ReadCall(x: string, ann: Option<CallAnnotation>, k: seq<Token>, args: seq<Expr>, rest: seq<Token>)
    requires ParseList(TRParen, k) == Ok(args, rest)
    ensures ParseLevel(15, [TName(x)] + (Opening(ann) + k))
            == Tail(15, FunctionCall(FunctionApplication(ann, x, None, args, None)), rest)
  {
    hide ParseList, Tail, ParseLevel;
    var ts := [TName(x)] + (Opening(ann) + k);
    ReadOpening(ann, k);
    assert ts[1..] == Opening(ann) + k;
    assert ts[1 + |Opening(ann)|..] == k;
    ReadPrimary(ts, FunctionCall(FunctionApplication(ann, x, None, args, None)), rest);
  }

  lemma ReadHostCall(h: string, x: string, ann: Option<CallAnnotation>, k: seq<Token>, args: seq<Expr>, rest: seq<Token>)
    requires ParseList(TRParen, k) == Ok(args, rest)
    ensures ParseLevel(15, [TName(h), TDot, TName(x)] + (Opening(ann) + k))
            == Tail(15, FunctionCall(FunctionApplication(ann, x, Some(h), args, None)), rest)
  {
    hide ParseList, Tail, ParseLevel;
    var ts := [TName(h), TDot, TName(x)] + (Opening(ann) + k);
    ReadOpening(ann, k);
    assert ts[1..] == [TDot, TName(x)] + (Opening(ann) + k);
    assert CallOpening(ts[1..]) == 0;
    assert ts[3..] == Opening(ann) + k;
    assert ts[3 + |Opening(ann)|..] == k;
    ReadPrimary(ts, FunctionCall(FunctionApplication(ann, x, Some(h), args, None)), rest);
  }

  lemma ReadIdentifier(x: string, a: Option<IdAnnotation>, rest: seq<Token>)
    requires Clean(rest)
    ensures ParseLevel(15, PrintInner(Identifier(x, a)) + rest) == Tail(15, Identifier(x, a), rest)
  {
    hide ParseList, Tail, ParseLevel;
    var ts := PrintInner(Identifier(x, a)) + rest;
    assert ts == [TName(x)] + ts[1..];
    if a.None? {
      assert ts[1..] == rest;
      assert CallOpening(rest) == 0;
      if |rest| >= 2 { assert ts[3..] == rest[2..]; }
    } else {
      assert ts[1..] == [TAtId(a.value)] + rest;
      assert ts[2..] == rest;
    }
    ReadPrimary(ts, Identifier(x, a), rest);
  }

  lemma ReadSignature(h: Option<string>, m: string, k: seq<Token>, vs: seq<VmType>, rest: seq<Token>)
    requires ParseVmTypes(k) == Ok(vs, rest) && h != Some("")
    ensures ParseLevel(15, [TSig, TColon] + PrintHost(h) + [TName(m), TLParen] + k)
            == Tail(15, SignatureLiteral(MethodReference(h, m), vs), rest)
  {
    hide ParseList, Tail, ParseLevel, ParseVmTypes;
    var ts := [TSig, TColon] + PrintHost(h) + [TName(m), TLParen] + k;
    if h.None? {
      assert ts[4..] == k;
    } else {
      assert ts[6..] == k;
    }
    ReadPrimary(ts, SignatureLiteral(MethodReference(h, m), vs), rest);
  }

  // ---- Types ----

  lemma ReadMapping(ts: seq<Token>, key: CvlType, k: seq<Token>, v: CvlType, rest: seq<Token>)
    requires ParseType(ts) == Ok(key, [TOp(FatArrow)] + k) && ParseType(k) == Ok(v, [TRParen] + rest)
    ensures ParseType([TMapping, TLParen] + ts) == TypeSuffix(Mapping(key, v), rest)
  {
    hide TypeSuffix;
    assert ([TMapping, TLParen] + ts)[2..] == ts;
    assert ([TOp(FatArrow)] + k)[1..] == k;
    assert ([TRParen] + rest)[1..] == rest;
  }

  lemma ReadBrackets(t: CvlType, n: int, rest: seq<Token>)
    ensures TypeSuffix(t, [TLBracket, TRBracket] + rest) == TypeSuffix(DynArray(t), rest)
    ensures TypeSuffix(t, [TLBracket, TSize(n), TRBracket] + rest) == TypeSuffix(StaticArray(t, n), rest)
  {
    assert ([TLBracket, TRBracket] + rest)[2..] == rest;
    assert ([TLBracket, TSize(n), TRBracket] + rest)[3..] == rest;
  }

  lemma ReadPlainType(t: CvlType, rest: seq<Token>)
    requires t.Primitive? || t.StorageType? || t.ContractType?
    ensures ParseType(PrintType(t) + rest) == TypeSuffix(t, rest)
  {
    hide TypeSuffix;
    if t.ContractType? {
      assert (PrintType(t) + rest)[3..] == rest;
    } else {
      assert (PrintType(t) + rest)[1..] == rest;
    }
  }

  lemma MappingPrints(k: CvlType, v: CvlType, rest: seq<Token>)
    ensures PrintType(Mapping(k, v)) + rest ==
            [TMapping, TLParen] + (PrintType(k) + ([TOp(FatArrow)] + (PrintType(v) + ([TRParen] + rest))))
  {}

  lemma ArrayTypesPrint(b: CvlType, n: int, rest: seq<Token>)
    ensures PrintType(DynArray(b)) + rest == PrintType(b) + ([TLBracket, TRBracket] + rest)
    ensures PrintType(StaticArray(b, n)) + rest == PrintType(b) + ([TLBracket, TSize(n), TRBracket] + rest)
  {}

  lemma {:induction false} TypeReadsBack(t: CvlType, rest: seq<Token>)
    ensures ParseType(PrintType(t) + rest) == TypeSuffix(t, rest)
  {
    hide ParseType, TypeSuffix, PrintType;
    match t
    case Mapping(k, v) =>
      var tail := [TRParen] + rest;
      var mid := [TOp(FatArrow)] + (PrintType(v) + tail);
      MappingPrints(k, v, rest);
      TypeReadsBack(k, mid);
      TypeReadsBack(v, tail);
      NoSuffix(k, PrintType(v) + tail, v, rest);
      ReadMapping(PrintType(k) + mid, k, PrintType(v) + tail, v, rest);
    case DynArray(b) =>
      ArrayTypesPrint(b, 0, rest);
      TypeReadsBack(b, [TLBracket, TRBracket] + rest);
      ReadBrackets(b, 0, rest);
    case StaticArray(b, n) =>
      ArrayTypesPrint(b, n, rest);
      TypeReadsBack(b, [TLBracket, TSize(n), TRBracket] + rest);
      ReadBrackets(b, n, rest);
    case _ => ReadPlainType(t, rest);
  }

  lemma NoSuffix(k: CvlType, ts: seq<Token>, v: CvlType, rest: seq<Token>)
    ensures TypeSuffix(k, [TOp(FatArrow)] + ts) == Ok(k, [TOp(FatArrow)] + ts)
    ensures TypeSuffix(v, [TRParen] + rest) == Ok(v, [TRParen] + rest)
  {}

  lemma TypeStart(t: CvlType)
    ensures PrintType(t) != []
    ensures PrintType(t)[0] != TDot && PrintType(t)[0] != TRParen
  {}

  lemma TypeAndIdReadsBack(v: TypeAndId, rest: seq<Token>)
    ensures ParseTypeAndId(PrintTypeAndId(v) + rest) == Ok(v, rest)
  {
    var s := [TName(v.id)] + rest;
    assert PrintTypeAndId(v) + rest == PrintType(v.declType) + s;
    TypeReadsBack(v.declType, s);
    assert s[1..] == rest;
  }

  lemma RegroupList(a: seq<Token>, t: Token, b: seq<Token>, u: Token, rest: seq<Token>)
    ensures (a + [t] + b) + [u] + rest == a + ([t] + (b + [u] + rest))
  {}

  lemma ReadLastVariable(ts: seq<Token>, v: TypeAndId, rest: seq<Token>)
    requires ParseTypeAndId(ts) == Ok(v, [TDot] + rest)
    ensures ParseVariables1(ts) == Ok([v], rest)
  {
    hide ParseTypeAndId;
    assert ([TDot] + rest)[1..] == rest;
  }

  lemma ReadMoreVariables(ts: seq<Token>, v: TypeAndId, k: seq<Token>, vs: seq<TypeAndId>, rest: seq<Token>)
    requires ParseTypeAndId(ts) == Ok(v, [TComma] + k) && ParseVariables1(k) == Ok(vs, rest)
    ensures ParseVariables1(ts) == Ok([v] + vs, rest)
  {
    hide ParseTypeAndId;
    assert ([TComma] + k)[1..] == k;
  }

  lemma VariablesPrint(vs: seq<TypeAndId>, rest: seq<Token>)
    requires vs != []
    ensures |vs| == 1 ==> PrintTypeAndIds(vs) + [TDot] + rest == PrintTypeAndId(vs[0]) + ([TDot] + rest)
    ensures |vs| > 1 ==> PrintTypeAndIds(vs) + [TDot] + rest ==
                         PrintTypeAndId(vs[0]) + ([TComma] + (PrintTypeAndIds(vs[1..]) + [TDot] + rest))
  {
    hide PrintTypeAndId;
    if |vs| > 1 {
      hide PrintTypeAndIds;
      assert PrintTypeAndIds(vs) == PrintTypeAndId(vs[0]) + [TComma] + PrintTypeAndIds(vs[1..]) by {
        VariablesUnfold(vs);
      }
      RegroupList(PrintTypeAndId(vs[0]), TComma, PrintTypeAndIds(vs[1..]), TDot, rest);
    }
  }

  lemma VariablesUnfold(vs: seq<TypeAndId>)
    requires |vs| > 1
    ensures PrintTypeAndIds(vs) == PrintTypeAndId(vs[0]) + [TComma] + PrintTypeAndIds(vs[1..])
  {}

  lemma {:induction false} SomeVariablesReadBack(vs: seq<TypeAndId>, rest: seq<Token>)
    requires vs != []
    ensures ParseVariables1(PrintTypeAndIds(vs) + [TDot] + rest) == Ok(vs, rest)
    decreases vs
  {
    var s := PrintTypeAndIds(vs) + [TDot] + rest;
    VariablesPrint(vs, rest);
    hide *;
    if |vs| == 1 {
      TypeAndIdReadsBack(vs[0], [TDot] + rest);
      ReadLastVariable(s, vs[0], rest);
      S.HeadAndTail(vs);
    } else {
      var k := PrintTypeAndIds(vs[1..]) + [TDot] + rest;
      TypeAndIdReadsBack(vs[0], [TComma] + k);
      SomeVariablesReadBack(vs[1..], rest);
      ReadMoreVariables(s, vs[0], k, vs[1..], rest);
      S.HeadAndTail(vs);
    }
  }

  lemma VariablesReadBack(vs: seq<TypeAndId>, rest: seq<Token>)
    ensures ParseVariables(PrintTypeAndIds(vs) + [TDot] + rest) == Ok(vs, rest)
  {
    var s := PrintTypeAndIds(vs) + [TDot] + rest;
    hide ParseVariables1;
    if vs == [] {
      assert s[1..] == rest;
    } else {
      SomeVariablesReadBack(vs, rest);
      VariablesPrint(vs, rest);
      TypeStart(vs[0].declType);
      hide PrintTypeAndIds, PrintType;
    }
  }

  lemma VmTypeReadsBack(t: VmType, rest: seq<Token>)
    requires rest != [] && (rest[0] == TComma || rest[0] == TRParen)
    ensures ParseVmType(PrintVmType(t) + rest) == Ok(t, rest)
  {
    hide ParseType, PrintType;
    match t.location
    case None =>
      assert PrintVmType(t) + rest == PrintType(t.base) + rest;
      TypeReadsBack(t.base, rest);
    case Some(l) =>
      var s := [PrintLocation(l)] + rest;
      assert PrintVmType(t) + rest == PrintType(t.base) + s;
      TypeReadsBack(t.base, s);
      assert s[1..] == rest;
  }

  lemma ReadLastVmType(ts: seq<Token>, v: VmType, rest: seq<Token>)
    requires ParseVmType(ts) == Ok(v, [TRParen] + rest)
    ensures ParseVmTypes1(ts) == Ok([v], rest)
  {
    hide ParseVmType;
    assert ([TRParen] + rest)[1..] == rest;
  }

  lemma ReadMoreVmTypes(ts: seq<Token>, v: VmType, k: seq<Token>, vs: seq<VmType>, rest: seq<Token>)
    requires ParseVmType(ts) == Ok(v, [TComma] + k) && ParseVmTypes1(k) == Ok(vs, rest)
    ensures ParseVmTypes1(ts) == Ok([v] + vs, rest)
  {
    hide ParseVmType;
    assert ([TComma] + k)[1..] == k;
  }

  lemma VmTypesPrint(ts: seq<VmType>, rest: seq<Token>)
    requires ts != []
    ensures |ts| == 1 ==> PrintVmTypes(ts) + [TRParen] + rest == PrintVmType(ts[0]) + ([TRParen] + rest)
    ensures |ts| > 1 ==> PrintVmTypes(ts) + [TRParen] + rest ==
                         PrintVmType(ts[0]) + ([TComma] + (PrintVmTypes(ts[1..]) + [TRParen] + rest))
  {
    hide PrintVmType;
    if |ts| > 1 {
      hide PrintVmTypes;
      assert PrintVmTypes(ts) == PrintVmType(ts[0]) + [TComma] + PrintVmTypes(ts[1..]) by {
        VmTypesUnfold(ts);
      }
      RegroupList(PrintVmType(ts[0]), TComma, PrintVmTypes(ts[1..]), TRParen, rest);
    }
  }

  lemma VmTypesUnfold(ts: seq<VmType>)
    requires |ts| > 1
    ensures PrintVmTypes(ts) == PrintVmType(ts[0]) + [TComma] + PrintVmTypes(ts[1..])
  {}

  lemma {:induction false} SomeVmTypesReadBack(ts: seq<VmType>, rest: seq<Token>)
    requires ts != []
    ensures ParseVmTypes1(PrintVmTypes(ts) + [TRParen] + rest) == Ok(ts, rest)
    decreases ts
  {
    var s := PrintVmTypes(ts) + [TRParen] + rest;
    VmTypesPrint(ts, rest);
    hide *;
    if |ts| == 1 {
      VmTypeReadsBack(ts[0], [TRParen] + rest);
      ReadLastVmType(s, ts[0], rest);
      S.HeadAndTail(ts);
    } else {
      var k := PrintVmTypes(ts[1..]) + [TRParen] + rest;
      VmTypeReadsBack(ts[0], [TComma] + k);
      SomeVmTypesReadBack(ts[1..], rest);
      ReadMoreVmTypes(s, ts[0], k, ts[1..], rest);
      S.HeadAndTail(ts);
    }
  }

  lemma VmTypesReadBack(ts: seq<VmType>, rest: seq<Token>)
    ensures ParseVmTypes(PrintVmTypes(ts) + [TRParen] + rest) == Ok(ts, rest)
  {
    var s := PrintVmTypes(ts) + [TRParen] + rest;
    hide ParseVmTypes1;
    if ts == [] {
      assert s[1..] == rest;
    } else {
      SomeVmTypesReadBack(ts, rest);
      VmTypesPrint(ts, rest);
      TypeStart(ts[0].base);
      hide PrintVmTypes, PrintType;
    }
  }

  // ---- First tokens ----

  predicate IsPrefixToken(t: Token) {
    PrefixOperator(t).Some?
  }

  predicate IsBinderToken(t: Token) {
    t == TForall || t == TExists || t == TSum || t == TUSum
  }

  /** Forms whose first token is their own. */
  predicate StartsItself(e: Expr) {
    !e.BinaryOp? && !e.Conditional? && !e.ArrayAccess? && !e.FieldAccess?
  }

  lemma OwnFirstToken(e: Expr)
    requires StartsItself(e)
    ensures PrintInner(e) != []
    ensures PrintInner(e)[0] != TRParen && PrintInner(e)[0] != TRBracket
    ensures Precedence(e) > 12 ==> !IsPrefixToken(PrintInner(e)[0])
    ensures Precedence(e) > 0 ==> !IsBinderToken(PrintInner(e)[0])
  {}

  /** No expression starts with a closing bracket; only unary operators start with a prefix operator and only
      open-ended forms with a binder, unless a looser operator comes after. */
  lemma {:induction false} FirstToken(e: Expr)
    ensures PrintInner(e) != []
    ensures PrintInner(e)[0] != TRParen && PrintInner(e)[0] != TRBracket
    ensures Precedence(e) > 12 ==> !IsPrefixToken(PrintInner(e)[0])
    ensures Precedence(e) > 0 ==> !IsBinderToken(PrintInner(e)[0])
  {
    hide PrintInner;
    assert PrintInner(e) + [] == PrintInner(e);
    match e
    case BinaryOp(op, l, r) =>
      FirstToken(l);
      BinaryPrints(op, l, r, []);
    case Conditional(c, t, f) =>
      FirstToken(c);
      ConditionalPrints(c, t, f, []);
    case ArrayAccess(b, i) =>
      FirstToken(b);
      IndexPrints(b, i, []);
    case FieldAccess(b, f) =>
      FirstToken(b);
      FieldPrints(b, f, []);
    case _ => OwnFirstToken(e);
  }

  // ---- Expressions ----

  lemma TailStops(p: nat, e: Expr, rest: seq<Token>)
    requires p <= 15 && Stops(p, rest)
    ensures Tail(p, e, rest) == Ok(e, rest)
  {}

  /** Something read at level q is read at every looser level down to p, where the tail of p takes over. */
  lemma {:induction false} Loosen(p: nat, q: nat, e: Expr, ts: seq<Token>, rest: seq<Token>)
    requires p < q <= 15 && ts != []
    requires ParseLevel(q, ts) == Ok(e, rest)
    requires Stops(p + 1, rest)
    requires p <= 12 < q ==> !IsPrefixToken(ts[0])
    requires p == 0 ==> !IsBinderToken(ts[0])
    ensures ParseLevel(p, ts) == Tail(p, e, rest)
    decreases q - p
  {
    hide ParseLevel, Tail;
    if p + 1 < q {
      Loosen(p + 1, q, e, ts, rest);
      TailStops(p + 1, e, rest);
    }
    ReadDescend(p, ts, e, rest);
  }

  /** The heart of the round trip: e, printed and followed by rest, is read at its own level, and then the
      level's tail sees exactly rest. */
  lemma {:induction false} InnerReadsBack(e: Expr, rest: seq<Token>)
    requires Faithful(e) && Clean(rest)
    requires Stops(if Extends(Level(e)) then Level(e) + 1 else Level(e), rest)
    ensures ParseLevel(Level(e), PrintInner(e) + rest) == Tail(Level(e), e, rest)
    decreases e, 1
  {
    hide ParseLevel, Tail;
    match e
    case BinaryOp(_, _, _) => hide PrintInner; BinaryReadsBack(e, rest);
    case UnaryOp(_, _) => hide PrintInner; UnaryReadsBack(e, rest);
    case Conditional(_, _, _) => hide PrintInner; ConditionalReadsBack(e, rest);
    case Quantifier(_, _, _) => hide PrintInner; BinderReadsBack(e, rest);
    case SumExp(_, _, _) => hide PrintInner; BinderReadsBack(e, rest);
    case ArrayAccess(_, _) => hide PrintInner; PostfixReadsBack(e, rest);
    case FieldAccess(_, _) => hide PrintInner; PostfixReadsBack(e, rest);
    case ArrayLiteral(es) =>
      hide PrintInner;
      ListReadsBack(es, TRBracket, rest);
      ArrayPrints(es, rest);
      ReadArray(PrintList(es) + [TRBracket] + rest, es, rest);
    case FunctionCall(_) => hide PrintInner; CallReadsBack(e, rest);
    case SignatureLiteral(_, _) => hide PrintInner; SignatureReadsBack(e, rest);
    case Identifier(x, a) => hide PrintInner; ReadIdentifier(x, a, rest);
    case _ => hide PrintInner; LiteralReadsBack(e, rest);
  }

  lemma LiteralReadsBack(e: Expr, rest: seq<Token>)
    requires e.BoolLiteral? || e.NumberLiteral? || e.HexLiteral? || e.StringLiteral?
    ensures ParseLevel(15, PrintInner(e) + rest) == Tail(15, e, rest)
  {
    hide ParseLevel, Tail;
    assert (PrintInner(e) + rest)[1..] == rest;
    ReadPrimary(PrintInner(e) + rest, e, rest);
  }

  lemma SignatureReadsBack(e: Expr, rest: seq<Token>)
    requires e.SignatureLiteral? && Faithful(e)
    ensures ParseLevel(15, PrintInner(e) + rest) == Tail(15, e, rest)
  {
    hide ParseLevel, Tail, ParseVmTypes;
    var m, ts := e.methodRef, e.paramTypes;
    var k := PrintVmTypes(ts) + [TRParen] + rest;
    VmTypesReadBack(ts, rest);
    ReadSignature(m.contract, m.methodName, k, ts, rest);
    var opening := [TSig, TColon] + PrintHost(m.contract) + [TName(m.methodName), TLParen];
    assert PrintInner(e) == opening + PrintVmTypes(ts) + [TRParen];
    hide PrintInner;
    Regroup(opening, PrintVmTypes(ts), [TRParen], [], rest);
    Regroup(PrintVmTypes(ts), [TRParen], [], [], rest);
  }

  lemma {:induction false} UnaryReadsBack(e: Expr, rest: seq<Token>)
    requires e.UnaryOp? && Faithful(e) && Clean(rest) && Stops(12, rest)
    ensures ParseLevel(12, PrintInner(e) + rest) == Tail(12, e, rest)
    decreases e, 0
  {
    hide ParseLevel, Tail, PrintInner;
    var paren := NeedsParentheses(e.operand, e, false);
    UnaryPrints(e.uop, e.operand, rest);
    OperandReadsBack(e.operand, paren, 12, rest);
    TailStops(12, e.operand, rest);
    ReadPrefix(e.uop, Wrap(PrintInner(e.operand), paren) + rest, e.operand, rest);
    TailStops(12, e, rest);
  }

  lemma {:induction false} BinaryReadsBack(e: Expr, rest: seq<Token>)
    requires e.BinaryOp? && Faithful(e) && Clean(rest)
    requires Stops(if Extends(Level(e)) then Level(e) + 1 else Level(e), rest)
    ensures ParseLevel(Precedence(e), PrintInner(e) + rest) == Tail(Precedence(e), e, rest)
    decreases e, 0
  {
    hide ParseLevel, Tail, PrintInner;
    var p := BinaryPrecedence(e.op);
    GlyphsReadBack(e.op, Not);
    var lp, rp := NeedsParentheses(e.left, e, false), NeedsParentheses(e.right, e, true);
    var k := Wrap(PrintInner(e.right), rp) + rest;
    var s := [TOp(BinaryGlyph(e.op))] + k;
    BinaryPrints(e.op, e.left, e.right, rest);
    if RightAssociative(p) {
      OperandReadsBack(e.right, rp, p, rest);
      TailStops(p, e.right, rest);
      ReadInfix(e.op, e.left, k, e.right, rest);
      OperandReadsBack(e.left, lp, p + 1, s);
      TailStops(p + 1, e.left, s);
      FirstToken(e.left);
      ReadDescend(p, Wrap(PrintInner(e.left), lp) + s, e.left, s);
      TailStops(p, e, rest);
    } else {
      OperandReadsBack(e.right, rp, p + 1, rest);
      TailStops(p + 1, e.right, rest);
      ReadInfix(e.op, e.left, k, e.right, rest);
      OperandReadsBack(e.left, lp, p, s);
    }
  }

  lemma {:induction false} ConditionalReadsBack(e: Expr, rest: seq<Token>)
    requires e.Conditional? && Faithful(e) && Clean(rest) && Stops(0, rest)
    ensures ParseLevel(0, PrintInner(e) + rest) == Tail(0, e, rest)
    decreases e, 0
  {
    hide ParseLevel, Tail, PrintInner;
    var c, t, f := e.condition, e.thenExpr, e.elseExpr;
    var k2 := PrintInner(f) + rest;
    var k1 := PrintInner(t) + ([TColon] + k2);
    ConditionalPrints(c, t, f, rest);
    OperandReadsBack(c, false, 0, [TQuestion] + k1);
    OperandReadsBack(t, false, 0, [TColon] + k2);
    TailStops(0, t, [TColon] + k2);
    OperandReadsBack(f, false, 0, rest);
    TailStops(0, f, rest);
    ReadQuestion(c, k1, t, k2, f, rest);
    TailStops(0, e, rest);
  }

  lemma {:induction false} BinderReadsBack(e: Expr, rest: seq<Token>)
    requires (e.Quantifier? || e.SumExp?) && Faithful(e) && Clean(rest) && Stops(0, rest)
    ensures ParseLevel(0, PrintInner(e) + rest) == Tail(0, e, rest)
    decreases e, 0
  {
    hide ParseLevel, Tail, PrintInner, ParseTypeAndId, ParseVariables;
    var b := e.body;
    var k := PrintInner(b) + rest;
    OperandReadsBack(b, false, 0, rest);
    TailStops(0, b, rest);
    TailStops(0, e, rest);
    if e.Quantifier? {
      QuantifierPrints(e.isForall, e.variable, b, rest);
      TypeAndIdReadsBack(e.variable, [TDot] + k);
      ReadQuantifier(e.isForall, PrintTypeAndId(e.variable) + ([TDot] + k), e.variable, k, b, rest);
    } else {
      SumPrints(e.isUnsigned, e.variables, b, rest);
      VariablesReadBack(e.variables, k);
      ReadSum(e.isUnsigned, PrintTypeAndIds(e.variables) + [TDot] + k, e.variables, k, b, rest);
    }
  }

  lemma {:induction false} PostfixReadsBack(e: Expr, rest: seq<Token>)
    requires (e.ArrayAccess? || e.FieldAccess?) && Faithful(e) && Clean(rest)
    ensures ParseLevel(15, PrintInner(e) + rest) == Tail(15, e, rest)
    decreases e, 0
  {
    hide ParseLevel, Tail, PrintInner;
    var paren := NeedsParentheses(e.base, e, false);
    if e.ArrayAccess? {
      var k := PrintInner(e.index) + ([TRBracket] + rest);
      IndexPrints(e.base, e.index, rest);
      OperandReadsBack(e.base, paren, 15, [TLBracket] + k);
      OperandReadsBack(e.index, false, 0, [TRBracket] + rest);
      TailStops(0, e.index, [TRBracket] + rest);
      ReadIndex(e.base, k, e.index, rest);
    } else {
      FieldPrints(e.base, e.fieldName, rest);
      OperandReadsBack(e.base, paren, 15, [TDot, TName(e.fieldName)] + rest);
      ReadField(e.base, e.fieldName, rest);
    }
  }

  lemma {:induction false} CallReadsBack(e: Expr, rest: seq<Token>)
    requires e.FunctionCall? && Faithful(e) && Clean(rest)
    ensures ParseLevel(15, PrintInner(e) + rest) == Tail(15, e, rest)
    decreases e, 0
  {
    hide ParseLevel, Tail, ParseList, PrintInner;
    var app := e.application;
    var k := PrintList(app.params) + [TRParen] + rest;
    CallPrints(app, rest);
    ListReadsBack(app.params, TRParen, rest);
    if app.hostContract.None? {
      assert PrintHost(app.hostContract) + [TName(app.name)] == [TName(app.name)];
      ReadCall(app.name, app.annotation, k, app.params, rest);
    } else {
      var h := app.hostContract.value;
      assert [TName(h), TDot] + [TName(app.name)] == [TName(h), TDot, TName(app.name)];
      ReadHostCall(app.hostContract.value, app.name, app.annotation, k, app.params, rest);
    }
  }

  lemma ListPrints(es: seq<Expr>, close: Token, rest: seq<Token>)
    requires es != []
    ensures |es| == 1 ==> PrintList(es) + [close] + rest == PrintInner(es[0]) + ([close] + rest)
    ensures |es| > 1 ==> PrintList(es) + [close] + rest ==
                         PrintInner(es[0]) + ([TComma] + (PrintList(es[1..]) + [close] + rest))
  {
    if |es| > 1 {
      ListUnfolds(es);
      RegroupList(PrintInner(es[0]), TComma, PrintList(es[1..]), close, rest);
    }
    hide PrintInner;
    if |es| > 1 { hide PrintList; }
  }

  lemma ListUnfolds(es: seq<Expr>)
    requires |es| > 1
    ensures PrintList(es) == PrintInner(es[0]) + [TComma] + PrintList(es[1..])
  {}

  lemma {:induction false} SomeListReadsBack(es: seq<Expr>, close: Token, rest: seq<Token>)
    requires es != [] && AllFaithful(es) && (close == TRParen || close == TRBracket)
    ensures ParseList1(close, PrintList(es) + [close] + rest) == Ok(es, rest)
    decreases es, 0
  {
    var s := PrintList(es) + [close] + rest;
    ListPrints(es, close, rest);
    hide ParseLevel, ParseList1, PrintInner, PrintList, Tail;
    S.HeadAndTail(es);
    if |es| == 1 {
      OperandReadsBack(es[0], false, 0, [close] + rest);
      TailStops(0, es[0], [close] + rest);
      ReadLast(close, s, es[0], rest);
    } else {
      var k := PrintList(es[1..]) + [close] + rest;
      OperandReadsBack(es[0], false, 0, [TComma] + k);
      TailStops(0, es[0], [TComma] + k);
      SomeListReadsBack(es[1..], close, rest);
      ReadMore(close, s, es[0], k, es[1..], rest);
    }
  }

  lemma {:induction false} ListReadsBack(es: seq<Expr>, close: Token, rest: seq<Token>)
    requires AllFaithful(es) && (close == TRParen || close == TRBracket)
    ensures ParseList(close, PrintList(es) + [close] + rest) == Ok(es, rest)
    decreases es, 1
  {
    var s := PrintList(es) + [close] + rest;
    if es == [] {
      assert s[1..] == rest;
    } else {
      SomeListReadsBack(es, close, rest);
      ListPrints(es, close, rest);
      FirstToken(es[0]);
      hide ParseList1, PrintInner, PrintList;
    }
  }

  lemma WrapPrints(ts: seq<Token>, rest: seq<Token>)
    ensures Wrap(ts, true) + rest == [TLParen] + (ts + ([TRParen] + rest))
    ensures Wrap(ts, false) == ts
  {}

  lemma {:induction false} OperandReadsBack(e: Expr, paren: bool, p: nat, rest: seq<Token>)
    requires Faithful(e) && Clean(rest) && p <= 15 && Stops(p + 1, rest)
    requires !paren ==> p <= Precedence(e)
    requires !paren && Level(e) == p && !Extends(p) ==> Stops(p, rest)
    ensures ParseLevel(p, Wrap(PrintInner(e), paren) + rest) == Tail(p, e, rest)
    decreases e, if paren then 3 else 2
  {
    hide ParseLevel, Tail;
    var s := Wrap(PrintInner(e), paren) + rest;
    FirstToken(e);
    WrapPrints(PrintInner(e), rest);
    hide PrintInner, Wrap;
    if paren {
      var k := [TRParen] + rest;
      OperandReadsBack(e, false, 0, k);
      TailStops(0, e, k);
      ReadParens(PrintInner(e) + k, e, rest);
      if p < 15 {
        TailStops(15, e, rest);
        Loosen(p, 15, e, s, rest);
      }
    } else {
      InnerReadsBack(e, rest);
      if p < Level(e) {
        TailStops(Level(e), e, rest);
        Loosen(p, Level(e), e, s, rest);
      }
    }
  }

  // ---- Normal forms ----

  lemma {:induction false} AttachPrints(c: Expr, t: Expr, f: Expr)
    ensures Precedence(Attach(c, t, f)) == 0
    ensures PrintInner(Attach(c, t, f)) == PrintInner(c) + ([TQuestion] + (PrintInner(t) + ([TColon] + (PrintInner(f) + []))))
    ensures Faithful(c) && Faithful(t) && Faithful(f) ==> Faithful(Attach(c, t, f))
  {
    hide PrintInner;
    var k := [TQuestion] + (PrintInner(t) + ([TColon] + (PrintInner(f) + [])));
    match c
    case Conditional(c1, t1, f1) =>
      AttachPrints(f1, t, f);
      ConditionalPrints(c1, t1, Attach(f1, t, f), []);
      ConditionalPrints(c1, t1, f1, k);
      S.Empty(PrintInner(f1) + k);
    case Quantifier(all, v, b) =>
      AttachPrints(b, t, f);
      QuantifierPrints(all, v, Attach(b, t, f), []);
      QuantifierPrints(all, v, b, k);
      S.Empty(PrintInner(b) + k);
    case SumExp(u, vs, b) =>
      AttachPrints(b, t, f);
      SumPrints(u, vs, Attach(b, t, f), []);
      SumPrints(u, vs, b, k);
      S.Empty(PrintInner(b) + k);
    case _ => ConditionalPrints(c, t, f, []);
  }

  /** Normalising changes no printed token, and its result is faithful. */
  lemma {:induction false} NormalPrintsAlike(e: Expr)
    ensures PrintInner(Normal(e)) == PrintInner(e)
    ensures Faithful(Normal(e)) && Precedence(Normal(e)) == Precedence(e)
    decreases e, 1
  {
    hide PrintInner;
    S.Empty(PrintInner(e));
    S.Empty(PrintInner(Normal(e)));
    match e
    case ArrayLiteral(es) =>
      NormalListPrintsAlike(es);
      ArrayPrints(es, []);
      ArrayPrints(NormalList(es), []);
    case BinaryOp(op, l, r) =>
      NormalPrintsAlike(l); NormalPrintsAlike(r);
      BinaryPrints(op, l, r, []);
      BinaryPrints(op, Normal(l), Normal(r), []);
    case UnaryOp(op, x) =>
      NormalPrintsAlike(x);
      UnaryPrints(op, x, []);
      UnaryPrints(op, Normal(x), []);
    case Conditional(c, t, f) =>
      NormalPrintsAlike(c); NormalPrintsAlike(t); NormalPrintsAlike(f);
      AttachPrints(Normal(c), Normal(t), Normal(f));
      ConditionalPrints(c, t, f, []);
    case Quantifier(all, v, b) =>
      NormalPrintsAlike(b);
      QuantifierPrints(all, v, b, []);
      QuantifierPrints(all, v, Normal(b), []);
    case SumExp(u, vs, b) =>
      NormalPrintsAlike(b);
      SumPrints(u, vs, b, []);
      SumPrints(u, vs, Normal(b), []);
    case ArrayAccess(b, i) =>
      NormalPrintsAlike(b); NormalPrintsAlike(i);
      IndexPrints(b, i, []);
      IndexPrints(Normal(b), Normal(i), []);
    case FieldAccess(b, f) =>
      NormalPrintsAlike(b);
      FieldPrints(b, f, []);
      FieldPrints(Normal(b), f, []);
    case FunctionCall(app) =>
      NormalListPrintsAlike(app.params);
      CallPrints(app, []);
      CallPrints(Normal(e).application, []);
    case SignatureLiteral(m, ts) => SignaturePrints(m, ts);
    case _ =>
  }

  lemma SignaturePrints(m: MethodReference, ts: seq<VmType>)
    ensures PrintInner(SignatureLiteral(m, ts))
            == PrintInner(SignatureLiteral(MethodReference(NormalHost(m.contract), m.methodName), ts))
  {}

  lemma {:induction false} NormalListPrintsAlike(es: seq<Expr>)
    ensures PrintList(NormalList(es)) == PrintList(es)
    ensures AllFaithful(NormalList(es)) && |NormalList(es)| == |es|
    decreases es, 0
  {
    if es != [] {
      NormalPrintsAlike(es[0]);
      NormalListPrintsAlike(es[1..]);
      assert NormalList(es)[1..] == NormalList(es[1..]);
    }
  }

  lemma {:induction false} FaithfulIsNormal(e: Expr)
    requires Faithful(e)
    ensures Normal(e) == e
    decreases e, 1
  {
    match e
    case ArrayLiteral(es) => FaithfulListIsNormal(es);
    case BinaryOp(_, l, r) => FaithfulIsNormal(l); FaithfulIsNormal(r);
    case UnaryOp(_, x) => FaithfulIsNormal(x);
    case Conditional(c, t, f) => FaithfulIsNormal(c); FaithfulIsNormal(t); FaithfulIsNormal(f);
    case Quantifier(_, _, b) => FaithfulIsNormal(b);
    case SumExp(_, _, b) => FaithfulIsNormal(b);
    case ArrayAccess(b, i) => FaithfulIsNormal(b); FaithfulIsNormal(i);
    case FieldAccess(b, _) => FaithfulIsNormal(b);
    case FunctionCall(app) => FaithfulListIsNormal(app.params);
    case _ =>
  }

  lemma {:induction false} FaithfulListIsNormal(es: seq<Expr>)
    requires AllFaithful(es)
    ensures NormalList(es) == es
    decreases es, 0
  {
    if es != [] {
      FaithfulIsNormal(es[0]);
      FaithfulListIsNormal(es[1..]);
    }
  }

  // ---- Main results ----

  /** Every expression, without exception, is read back as its normal form. */
  lemma ReadBack(e: Expr)
    ensures Parse(PrintInner(e)) == Some(Normal(e))
  {
    NormalPrintsAlike(e);
    assert PrintInner(e) == Wrap(PrintInner(Normal(e)), false) + [];
    OperandReadsBack(Normal(e), false, 0, []);
    TailStops(0, Normal(e), []);
  }

  /** The round trip is the identity exactly on the faithful trees. */
  lemma RoundTripExactlyWhenFaithful(e: Expr)
    ensures Parse(PrintInner(e)) == Some(e) <==> Faithful(e)
  {
    ReadBack(e);
    NormalPrintsAlike(e);
    if Faithful(e) { FaithfulIsNormal(e); }
  }

  /** Two trees print alike exactly when they have the same normal form; so printing is injective on
      faithful trees. */
  lemma PrintingIdentifiesNormalForms(a: Expr, b: Expr)
    ensures PrintInner(a) == PrintInner(b) <==> Normal(a) == Normal(b)
    ensures Faithful(a) && Faithful(b) && PrintInner(a) == PrintInner(b) ==> a == b
  {
    ReadBack(a);
    ReadBack(b);
    NormalPrintsAlike(a);
    NormalPrintsAlike(b);
    if Faithful(a) && Faithful(b) { FaithfulIsNormal(a); FaithfulIsNormal(b); }
  }

  /** Why conditions must not be conditionals: for any five expressions, `(a ? b : c) ? d : e` and
      `a ? b : (c ? d : e)` are different trees with one printed form. */
  lemma NestedConditionLosesGrouping(a: Expr, b: Expr, c: Expr, d: Expr, e: Expr)
    ensures
      var outer := Conditional(Conditional(a, b, c), d, e);
      var inner := Conditional(a, b, Conditional(c, d, e));
      outer != inner && PrintInner(outer) == PrintInner(inner)
  {
    hide PrintInner;
    var k := [TQuestion] + (PrintInner(d) + ([TColon] + (PrintInner(e) + [])));
    ConditionalPrints(Conditional(a, b, c), d, e, []);
    ConditionalPrints(a, b, c, k);
    ConditionalPrints(c, d, e, []);
    ConditionalPrints(a, b, Conditional(c, d, e), []);
    assert PrintInner(c) + k + [] == PrintInner(c) + k;
    assert a != Conditional(a, b, c);
  }
}
