/** The operator spellings of the documentation against those that are printed: `**` and `^` for exponentiation and
    exclusive or in the table, `^` and `xor` in the output. A reader that goes by the table gets back exactly the
    trees that use neither. */
module CvlSpellings {
  import opened Wrappers
  import opened CvlSchema
  import opened CvlPrinter
  import opened CvlReader
  import RT = CvlRoundTrip
  import S = Sequences

  /** A printed token as a reader of the table takes it: `^` is exclusive or, `xor` is a name like any other. Its
      sign for exponentiation, `**`, is never printed. */
  function AsDocumented(t: Token): Token {
    if t == TOp(Caret) then TOp(Xor) else if t == TOp(Xor) then TName("xor") else t
  }

  function Respell(ts: seq<Token>): seq<Token> {
    seq(|ts|, i requires 0 <= i < |ts| => AsDocumented(ts[i]))
  }

  function ParseDocumented(ts: seq<Token>): Option<Expr> {
    Parse(Respell(ts))
  }

  predicate Uses(e: Expr, op: BinaryOperator)
    decreases e, 1
  {
    match e
    case ArrayLiteral(es) => AnyUses(es, op)
    case BinaryOp(o, l, r) => o == op || Uses(l, op) || Uses(r, op)
    case UnaryOp(_, x) => Uses(x, op)
    case Conditional(c, t, f) => Uses(c, op) || Uses(t, op) || Uses(f, op)
    case Quantifier(_, _, b) => Uses(b, op)
    case SumExp(_, _, b) => Uses(b, op)
    case ArrayAccess(b, i) => Uses(b, op) || Uses(i, op)
    case FieldAccess(b, _) => Uses(b, op)
    case FunctionCall(app) => AnyUses(app.params, op)
    case _ => false
  }

  predicate AnyUses(es: seq<Expr>, op: BinaryOperator)
    decreases es, 0
  {
    es != [] && (Uses(es[0], op) || AnyUses(es[1..], op))
  }

  lemma UsesOpenForms(c: Expr, t: Expr, f: Expr, all: bool, v: TypeAndId, vs: seq<TypeAndId>, op: BinaryOperator)
    ensures Uses(Conditional(c, t, f), op) <==> Uses(c, op) || Uses(t, op) || Uses(f, op)
    ensures Uses(Quantifier(all, v, c), op) <==> Uses(c, op)
    ensures Uses(SumExp(all, vs, c), op) <==> Uses(c, op)
  {}

  lemma {:induction false} AttachUses(c: Expr, t: Expr, f: Expr, op: BinaryOperator)
    ensures Uses(RT.Attach(c, t, f), op) <==> Uses(c, op) || Uses(t, op) || Uses(f, op)
  {
    hide Uses;
    var none := TypeAndId(StorageType, "");
    UsesOpenForms(c, t, f, true, none, [], op);
    match c
    case Conditional(c1, t1, f1) =>
      AttachUses(f1, t, f, op);
      UsesOpenForms(c1, t1, f1, true, none, [], op);
      UsesOpenForms(c1, t1, RT.Attach(f1, t, f), true, none, [], op);
    case Quantifier(all, v, b) =>
      AttachUses(b, t, f, op);
      UsesOpenForms(b, t, f, all, v, [], op);
      UsesOpenForms(RT.Attach(b, t, f), t, f, all, v, [], op);
    case SumExp(u, vs, b) =>
      AttachUses(b, t, f, op);
      UsesOpenForms(b, t, f, u, none, vs, op);
      UsesOpenForms(RT.Attach(b, t, f), t, f, u, none, vs, op);
    case _ =>
  }

  lemma {:induction false} NormalUses(e: Expr, op: BinaryOperator)
    ensures Uses(RT.Normal(e), op) <==> Uses(e, op)
    decreases e, 1
  {
    match e
    case ArrayLiteral(es) => NormalListUses(es, op);
    case BinaryOp(_, l, r) => NormalUses(l, op); NormalUses(r, op);
    case UnaryOp(_, x) => NormalUses(x, op);
    case Conditional(c, t, f) =>
      NormalUses(c, op); NormalUses(t, op); NormalUses(f, op);
      AttachUses(RT.Normal(c), RT.Normal(t), RT.Normal(f), op);
    case Quantifier(_, _, b) => NormalUses(b, op);
    case SumExp(_, _, b) => NormalUses(b, op);
    case ArrayAccess(b, i) => NormalUses(b, op); NormalUses(i, op);
    case FieldAccess(b, _) => NormalUses(b, op);
    case FunctionCall(app) => NormalListUses(app.params, op);
    case _ =>
  }

  lemma {:induction false} NormalListUses(es: seq<Expr>, op: BinaryOperator)
    ensures AnyUses(RT.NormalList(es), op) <==> AnyUses(es, op)
    decreases es, 0
  {
    if es != [] {
      NormalUses(es[0], op);
      NormalListUses(es[1..], op);
      assert RT.NormalList(es)[1..] == RT.NormalList(es[1..]);
    }
  }

  // ---- Signs that are printed ----

  /** The two signs that documentation and printer disagree about. */
  predicate IsDisputed(op: BinaryOperator) {
    op == Exponent || op == BwXor
  }

  lemma {:induction false} TypesPrintNoSign(t: CvlType, op: BinaryOperator)
    requires IsDisputed(op)
    ensures TOp(BinaryGlyph(op)) !in PrintType(t)
  {
    match t
    case Mapping(k, v) => TypesPrintNoSign(k, op); TypesPrintNoSign(v, op);
    case DynArray(b) => TypesPrintNoSign(b, op);
    case StaticArray(b, _) => TypesPrintNoSign(b, op);
    case _ =>
  }

  lemma {:induction false} VariablesPrintNoSign(vs: seq<TypeAndId>, op: BinaryOperator)
    requires IsDisputed(op)
    ensures TOp(BinaryGlyph(op)) !in PrintTypeAndIds(vs)
  {
    if vs != [] {
      TypesPrintNoSign(vs[0].declType, op);
      VariablesPrintNoSign(vs[1..], op);
      hide PrintType;
    }
  }

  lemma {:induction false} VmTypesPrintNoSign(ts: seq<VmType>, op: BinaryOperator)
    requires IsDisputed(op)
    ensures TOp(BinaryGlyph(op)) !in PrintVmTypes(ts)
  {
    if ts != [] {
      TypesPrintNoSign(ts[0].base, op);
      VmTypesPrintNoSign(ts[1..], op);
      hide PrintType;
    }
  }

  lemma OperatorsPrintNoSign(o: BinaryOperator, u: UnaryOperator, l: Expr, r: Expr, op: BinaryOperator)
    requires IsDisputed(op) && o != op && TOp(BinaryGlyph(op)) !in PrintInner(l) && TOp(BinaryGlyph(op)) !in PrintInner(r)
    ensures TOp(BinaryGlyph(op)) !in PrintInner(BinaryOp(o, l, r)) && TOp(BinaryGlyph(op)) !in PrintInner(UnaryOp(u, l))
  {
    SignOf(o, op);
    RT.BinaryPrints(o, l, r, []);
    RT.UnaryPrints(u, l, []);
    S.Empty(PrintInner(BinaryOp(o, l, r)));
    S.Empty(PrintInner(UnaryOp(u, l)));
    hide PrintInner, NeedsParentheses, BinaryGlyph;
  }

  lemma OpenFormsPrintNoSign(c: Expr, t: Expr, f: Expr, all: bool, v: TypeAndId, vs: seq<TypeAndId>, op: BinaryOperator)
    requires IsDisputed(op)
    requires var x := TOp(BinaryGlyph(op)); x !in PrintInner(c) && x !in PrintInner(t) && x !in PrintInner(f)
    ensures var x := TOp(BinaryGlyph(op));
            x !in PrintInner(Conditional(c, t, f)) && x !in PrintInner(Quantifier(all, v, c)) && x !in PrintInner(SumExp(all, vs, c))
  {
    RT.ConditionalPrints(c, t, f, []);
    TypesPrintNoSign(v.declType, op);
    RT.QuantifierPrints(all, v, c, []);
    VariablesPrintNoSign(vs, op);
    RT.SumPrints(all, vs, c, []);
    hide PrintInner, PrintType, PrintTypeAndIds, BinaryGlyph;
  }

  lemma PostfixPrintNoSign(b: Expr, i: Expr, f: string, op: BinaryOperator)
    requires IsDisputed(op)
    requires var x := TOp(BinaryGlyph(op)); x !in PrintInner(b) && x !in PrintInner(i)
    ensures var x := TOp(BinaryGlyph(op)); x !in PrintInner(ArrayAccess(b, i)) && x !in PrintInner(FieldAccess(b, f))
  {
    RT.IndexPrints(b, i, []);
    RT.FieldPrints(b, f, []);
    S.Empty(PrintInner(ArrayAccess(b, i)));
    S.Empty(PrintInner(FieldAccess(b, f)));
    hide PrintInner, NeedsParentheses, BinaryGlyph;
  }

  lemma ListsPrintNoSign(es: seq<Expr>, app: FunctionApplication, m: MethodReference, ts: seq<VmType>, op: BinaryOperator)
    requires IsDisputed(op) && app.params == es && TOp(BinaryGlyph(op)) !in PrintList(es)
    ensures var x := TOp(BinaryGlyph(op));
            x !in PrintInner(ArrayLiteral(es)) && x !in PrintInner(FunctionCall(app)) && x !in PrintInner(SignatureLiteral(m, ts))
  {
    RT.ArrayPrints(es, []);
    S.Empty(PrintInner(ArrayLiteral(es)));
    RT.CallParts(app);
    VmTypesPrintNoSign(ts, op);
    RT.SignaturePrints(m, ts);
    hide PrintInner, PrintList, PrintVmTypes, BinaryGlyph;
  }

  /** A disputed sign is printed only for its operator. */
  lemma {:induction false} SignIsUsed(e: Expr, op: BinaryOperator)
    requires IsDisputed(op) && !Uses(e, op)
    ensures TOp(BinaryGlyph(op)) !in PrintInner(e)
    decreases e, 1
  {
    var none := TypeAndId(StorageType, "");
    match e
    case ArrayLiteral(es) =>
      SignsAreUsed(es, op);
      ListsPrintNoSign(es, FunctionApplication(None, "", None, es, None), MethodReference(None, ""), [], op);
      hide PrintInner, PrintList;
    case BinaryOp(o, l, r) =>
      SignIsUsed(l, op); SignIsUsed(r, op);
      OperatorsPrintNoSign(o, Not, l, r, op);
      hide PrintInner;
    case UnaryOp(u, x) =>
      SignIsUsed(x, op);
      OperatorsPrintNoSign(Add, u, x, x, op);
      hide PrintInner;
    case Conditional(c, t, f) =>
      SignIsUsed(c, op); SignIsUsed(t, op); SignIsUsed(f, op);
      OpenFormsPrintNoSign(c, t, f, true, none, [], op);
      hide PrintInner;
    case Quantifier(all, v, b) =>
      SignIsUsed(b, op);
      OpenFormsPrintNoSign(b, b, b, all, v, [], op);
      hide PrintInner;
    case SumExp(u, vs, b) =>
      SignIsUsed(b, op);
      OpenFormsPrintNoSign(b, b, b, u, none, vs, op);
      hide PrintInner;
    case ArrayAccess(b, i) =>
      SignIsUsed(b, op); SignIsUsed(i, op);
      PostfixPrintNoSign(b, i, "", op);
      hide PrintInner;
    case FieldAccess(b, f) =>
      SignIsUsed(b, op);
      PostfixPrintNoSign(b, b, f, op);
      hide PrintInner;
    case FunctionCall(app) =>
      SignsAreUsed(app.params, op);
      ListsPrintNoSign(app.params, app, MethodReference(None, ""), [], op);
      hide PrintInner, PrintList;
    case SignatureLiteral(m, ts) =>
      assert PrintList([]) == [];
      ListsPrintNoSign([], FunctionApplication(None, "", None, [], None), m, ts, op);
      hide PrintInner, PrintList;
    case _ =>
  }

  lemma SignOf(o: BinaryOperator, op: BinaryOperator)
    requires IsDisputed(op) && o != op
    ensures BinaryGlyph(o) != BinaryGlyph(op)
  {}

  lemma {:induction false} SignsAreUsed(es: seq<Expr>, op: BinaryOperator)
    requires IsDisputed(op) && !AnyUses(es, op)
    ensures TOp(BinaryGlyph(op)) !in PrintList(es)
    decreases es, 0
  {
    if es != [] {
      SignIsUsed(es[0], op);
      SignsAreUsed(es[1..], op);
      hide PrintInner;
    }
  }

  // ---- Signs that are read ----

  lemma {:induction false} SuffixReads(t: CvlType, ts: seq<Token>, x: Token)
    requires x !in ts
    ensures TypeSuffix(t, ts).Ok? ==> x !in TypeSuffix(t, ts).rest
    decreases |ts|, 0
  {
    if |ts| >= 2 { SuffixReads(DynArray(t), ts[2..], x); }
    if |ts| >= 3 && ts[1].TSize? { SuffixReads(StaticArray(t, ts[1].n), ts[3..], x); }
  }

  /** What a reader leaves over holds no token that was not there. */
  lemma {:induction false} TypeReads(ts: seq<Token>, x: Token)
    requires x !in ts
    ensures ParseType(ts).Ok? ==> x !in ParseType(ts).rest
    decreases |ts|, 1
  {
    hide TypeSuffix;
    if ts == [] {
    } else if ts[0].TPrim? {
      SuffixReads(Primitive(ts[0].text), ts[1..], x);
    } else if ts[0] == TStorage {
      SuffixReads(StorageType, ts[1..], x);
    } else if |ts| >= 3 && ts[0].TName? && ts[2].TName? {
      SuffixReads(ContractType(ts[0].text, ts[2].text), ts[3..], x);
    } else if |ts| >= 2 && ts[0] == TMapping && ts[1] == TLParen {
      TypeReads(ts[2..], x);
      var k := ParseType(ts[2..]);
      if k.Ok? && k.rest != [] {
        TypeReads(k.rest[1..], x);
        var v := ParseType(k.rest[1..]);
        if v.Ok? && v.rest != [] { SuffixReads(Mapping(k.value, v.value), v.rest[1..], x); }
      }
    }
  }

  lemma VariableReads(ts: seq<Token>, x: Token)
    requires x !in ts
    ensures ParseTypeAndId(ts).Ok? ==> x !in ParseTypeAndId(ts).rest
  {
    TypeReads(ts, x);
    hide ParseType;
  }

  lemma {:induction false} VariablesRead(ts: seq<Token>, x: Token)
    requires x !in ts
    ensures ParseVariables1(ts).Ok? ==> x !in ParseVariables1(ts).rest
    ensures ParseVariables(ts).Ok? ==> x !in ParseVariables(ts).rest
    decreases |ts|
  {
    VariableReads(ts, x);
    hide ParseTypeAndId;
    var v := ParseTypeAndId(ts);
    if v.Ok? && v.rest != [] { VariablesRead(v.rest[1..], x); }
  }

  lemma VmTypeReads(ts: seq<Token>, x: Token)
    requires x !in ts
    ensures ParseVmType(ts).Ok? ==> x !in ParseVmType(ts).rest
  {
    TypeReads(ts, x);
    hide ParseType;
  }

  lemma {:induction false} VmTypesRead(ts: seq<Token>, x: Token)
    requires x !in ts
    ensures ParseVmTypes1(ts).Ok? ==> x !in ParseVmTypes1(ts).rest
    ensures ParseVmTypes(ts).Ok? ==> x !in ParseVmTypes(ts).rest
    decreases |ts|
  {
    VmTypeReads(ts, x);
    hide ParseVmType;
    var v := ParseVmType(ts);
    if v.Ok? && v.rest != [] { VmTypesRead(v.rest[1..], x); }
  }

  predicate Lacks(ts: seq<Token>, op: BinaryOperator) {
    TOp(BinaryGlyph(op)) !in ts
  }

  lemma LacksFrom(ts: seq<Token>, k: nat, op: BinaryOperator)
    requires Lacks(ts, op) && k <= |ts|
    ensures Lacks(ts[k..], op) && (ts != [] ==> ts[0] != TOp(BinaryGlyph(op)))
  {}

  lemma TypesLack(ts: seq<Token>, op: BinaryOperator)
    requires Lacks(ts, op)
    ensures ParseTypeAndId(ts).Ok? ==> Lacks(ParseTypeAndId(ts).rest, op)
    ensures ParseVariables(ts).Ok? ==> Lacks(ParseVariables(ts).rest, op)
    ensures ParseVmTypes(ts).Ok? ==> Lacks(ParseVmTypes(ts).rest, op)
  {
    VariableReads(ts, TOp(BinaryGlyph(op)));
    VariablesRead(ts, TOp(BinaryGlyph(op)));
    VmTypesRead(ts, TOp(BinaryGlyph(op)));
    hide ParseTypeAndId, ParseVariables, ParseVmTypes;
  }

  /** An expression read without the sign of an operator does not use it, and leaves a rest without it. */
  predicate Free(r: Parsed<Expr>, op: BinaryOperator) {
    r.Ok? ==> !Uses(r.value, op) && Lacks(r.rest, op)
  }

  predicate ListFree(r: Parsed<seq<Expr>>, op: BinaryOperator) {
    r.Ok? ==> !AnyUses(r.value, op) && Lacks(r.rest, op)
  }

  lemma InfixIsItsGlyph(t: Token)
    ensures InfixOperator(t).Some? ==> t == TOp(BinaryGlyph(InfixOperator(t).value))
  {}

  lemma UsesForms(a: Expr, b: Expr, o: BinaryOperator, u: UnaryOperator, f: string, op: BinaryOperator)
    ensures Uses(BinaryOp(o, a, b), op) <==> o == op || Uses(a, op) || Uses(b, op)
    ensures Uses(UnaryOp(u, a), op) <==> Uses(a, op)
    ensures Uses(ArrayAccess(a, b), op) <==> Uses(a, op) || Uses(b, op)
    ensures Uses(FieldAccess(a, f), op) <==> Uses(a, op)
  {}

  lemma {:induction false} LevelReads(p: nat, ts: seq<Token>, op: BinaryOperator)
    requires p <= 15 && Lacks(ts, op)
    ensures Free(ParseLevel(p, ts), op)
    decreases |ts|, 2, 16 - p
  {
    hide Lacks, Uses;
    if ts == [] {
    } else if p == 0 && RT.IsBinderToken(ts[0]) {
      BinderReads(ts, op);
    } else if p == 12 && PrefixOperator(ts[0]).Some? {
      LacksFrom(ts, 1, op);
      LevelReads(12, ts[1..], op);
      var x := ParseLevel(12, ts[1..]);
      if x.Ok? { UsesForms(x.value, x.value, Add, PrefixOperator(ts[0]).value, "", op); }
    } else {
      hide ParsePrimary, Tail, PrefixOperator;
      if p == 15 { PrimaryReads(ts, op); } else { LevelReads(p + 1, ts, op); }
      var first := if p == 15 then ParsePrimary(ts) else ParseLevel(p + 1, ts);
      if first.Ok? { TailReads(p, first.value, first.rest, op); }
    }
  }

  lemma {:induction false} BinderReads(ts: seq<Token>, op: BinaryOperator)
    requires Lacks(ts, op) && ts != [] && RT.IsBinderToken(ts[0])
    ensures Free(ParseLevel(0, ts), op)
    decreases |ts|, 1
  {
    hide Lacks, Uses, ParseTypeAndId, ParseVariables;
    var none := TypeAndId(StorageType, "");
    LacksFrom(ts, 1, op);
    TypesLack(ts[1..], op);
    if ts[0] == TForall || ts[0] == TExists {
      var v := ParseTypeAndId(ts[1..]);
      if v.Ok? && v.rest != [] {
        LacksFrom(v.rest, 1, op);
        LevelReads(0, v.rest[1..], op);
        var b := ParseLevel(0, v.rest[1..]);
        if b.Ok? { UsesOpenForms(b.value, b.value, b.value, ts[0] == TForall, v.value, [], op); }
      }
    } else {
      var vs := ParseVariables(ts[1..]);
      if vs.Ok? {
        LevelReads(0, vs.rest, op);
        var b := ParseLevel(0, vs.rest);
        if b.Ok? { UsesOpenForms(b.value, b.value, b.value, ts[0] == TUSum, none, vs.value, op); }
      }
    }
  }

  lemma {:induction false} TailReads(p: nat, e: Expr, ts: seq<Token>, op: BinaryOperator)
    requires p <= 15 && Lacks(ts, op) && !Uses(e, op)
    ensures Free(Tail(p, e, ts), op)
    decreases |ts|, 0, 2
  {
    hide Lacks, Uses, ParseLevel, InfixOperator;
    if p == 0 {
      if ts != [] && ts[0] == TQuestion {
        LacksFrom(ts, 1, op);
        LevelReads(0, ts[1..], op);
        var t := ParseLevel(0, ts[1..]);
        if t.Ok? && t.rest != [] {
          LacksFrom(t.rest, 1, op);
          LevelReads(0, t.rest[1..], op);
          var f := ParseLevel(0, t.rest[1..]);
          if f.Ok? { UsesOpenForms(e, t.value, f.value, true, TypeAndId(StorageType, ""), [], op); }
        }
      }
    } else if p == 15 {
      PostfixReads(e, ts, op);
    } else if InfixNext(p, ts) {
      InfixReads(p, e, ts, op);
    }
  }

  lemma {:induction false} PostfixReads(e: Expr, ts: seq<Token>, op: BinaryOperator)
    requires Lacks(ts, op) && !Uses(e, op)
    ensures Free(Tail(15, e, ts), op)
    decreases |ts|, 0, 1
  {
    hide Lacks, Uses, ParseLevel;
    if |ts| >= 2 && ts[0] == TDot && ts[1].TName? {
      LacksFrom(ts, 2, op);
      UsesForms(e, e, Add, Not, ts[1].text, op);
      PostfixReads(FieldAccess(e, ts[1].text), ts[2..], op);
      assert Tail(15, e, ts) == Tail(15, FieldAccess(e, ts[1].text), ts[2..]);
      hide Tail, Free;
    } else if ts != [] && ts[0] == TLBracket {
      IndexReads(e, ts, op);
    }
  }

  lemma {:induction false} IndexReads(e: Expr, ts: seq<Token>, op: BinaryOperator)
    requires Lacks(ts, op) && !Uses(e, op) && ts != [] && ts[0] == TLBracket
    ensures Free(Tail(15, e, ts), op)
    decreases |ts|, 0, 0
  {
    hide Lacks, Uses, ParseLevel;
    LacksFrom(ts, 1, op);
    LevelReads(0, ts[1..], op);
    var i := ParseLevel(0, ts[1..]);
    if i.Ok? && i.rest != [] && i.rest[0] == TRBracket {
      LacksFrom(i.rest, 1, op);
      UsesForms(e, i.value, Add, Not, "", op);
      PostfixReads(ArrayAccess(e, i.value), i.rest[1..], op);
      assert Tail(15, e, ts) == Tail(15, ArrayAccess(e, i.value), i.rest[1..]);
      hide Tail, Free;
    }
  }

  lemma {:induction false} InfixReads(p: nat, e: Expr, ts: seq<Token>, op: BinaryOperator)
    requires 0 < p < 15 && InfixNext(p, ts) && Lacks(ts, op) && !Uses(e, op)
    ensures Free(Tail(p, e, ts), op)
    decreases |ts|, 0, 0
  {
    hide Lacks, Uses, ParseLevel, InfixOperator, BinaryGlyph;
    InfixIsItsGlyph(ts[0]);
    LacksFrom(ts, 1, op);
    var q := if RightAssociative(p) then p else p + 1;
    LevelReads(q, ts[1..], op);
    var r := ParseLevel(q, ts[1..]);
    if r.Ok? {
      var o := InfixOperator(ts[0]).value;
      UsesForms(e, r.value, o, Not, "", op);
      TailReads(p, BinaryOp(o, e, r.value), r.rest, op);
    }
  }

  lemma {:induction false} PrimaryReads(ts: seq<Token>, op: BinaryOperator)
    requires ts != [] && Lacks(ts, op)
    ensures Free(ParsePrimary(ts), op)
    decreases |ts|, 1
  {
    hide Lacks, ParseLevel, ParseList, FinishCall, ParseVmTypes;
    LacksFrom(ts, 1, op);
    if ts[0] == TLParen {
      LevelReads(0, ts[1..], op);
      var e := ParseLevel(0, ts[1..]);
      if e.Ok? && e.rest != [] { LacksFrom(e.rest, 1, op); }
    } else if ts[0] == TLBracket {
      ListReads(TRBracket, ts[1..], op);
    } else if ts[0].TName? {
      NameReads(ts, op);
    } else if ts[0] == TSig {
      SignatureReads(ts, op);
    }
  }

  lemma VmTypesLack(ts: seq<Token>, k: nat, op: BinaryOperator)
    requires Lacks(ts, op) && k <= |ts|
    ensures ParseVmTypes(ts[k..]).Ok? ==> Lacks(ParseVmTypes(ts[k..]).rest, op)
  {
    LacksFrom(ts, k, op);
    TypesLack(ts[k..], op);
    hide Lacks, ParseVmTypes;
  }

  lemma SignatureUsesNothing(m: MethodReference, vs: seq<VmType>, op: BinaryOperator)
    ensures !Uses(SignatureLiteral(m, vs), op)
  {}

  lemma SignatureReads(ts: seq<Token>, op: BinaryOperator)
    requires ts != [] && ts[0] == TSig && Lacks(ts, op)
    ensures Free(ParsePrimary(ts), op)
  {
    hide Lacks, ParseVmTypes, Uses;
    if |ts| >= 4 && ts[2].TName? && ts[3] == TLParen {
      VmTypesLack(ts, 4, op);
      var vs := ParseVmTypes(ts[4..]);
      if vs.Ok? { SignatureUsesNothing(MethodReference(None, ts[2].text), vs.value, op); }
    } else if |ts| >= 6 && ts[2].TName? && ts[4].TName? {
      VmTypesLack(ts, 6, op);
      var vs := ParseVmTypes(ts[6..]);
      if vs.Ok? { SignatureUsesNothing(MethodReference(Some(ts[2].text), ts[4].text), vs.value, op); }
    }
  }

  lemma {:induction false} NameReads(ts: seq<Token>, op: BinaryOperator)
    requires ts != [] && ts[0].TName? && Lacks(ts, op)
    ensures Free(ParsePrimary(ts), op)
    decreases |ts|, 0
  {
    hide Lacks, FinishCall, OpeningAnnotation;
    var n := CallOpening(ts[1..]);
    LacksFrom(ts, 1, op);
    if n > 0 {
      LacksFrom(ts, 1 + n, op);
      FinishReads(OpeningAnnotation(ts[1..]), ts[0].text, None, ts[1 + n..], op);
    } else if |ts| >= 3 && ts[1] == TDot && ts[2].TName? && CallOpening(ts[3..]) > 0 {
      LacksFrom(ts, 3 + CallOpening(ts[3..]), op);
      FinishReads(OpeningAnnotation(ts[3..]), ts[2].text, Some(ts[0].text), ts[3 + CallOpening(ts[3..])..], op);
    } else if |ts| >= 2 {
      LacksFrom(ts, 2, op);
    }
  }

  lemma {:induction false} FinishReads(ann: Option<CallAnnotation>, name: string, host: Option<string>, ts: seq<Token>,
                                       op: BinaryOperator)
    requires Lacks(ts, op)
    ensures Free(FinishCall(ann, name, host, ts), op)
    decreases |ts|, 4
  {
    hide Lacks, ParseList;
    ListReads(TRParen, ts, op);
  }

  lemma {:induction false} ListReads(close: Token, ts: seq<Token>, op: BinaryOperator)
    requires Lacks(ts, op)
    ensures ListFree(ParseList(close, ts), op)
    decreases |ts|, 3, 1
  {
    hide Lacks, ParseList1;
    if ts != [] && ts[0] == close { LacksFrom(ts, 1, op); } else { ListReads1(close, ts, op); }
  }

  lemma UsesList(e: Expr, es: seq<Expr>, op: BinaryOperator)
    ensures AnyUses([e] + es, op) <==> Uses(e, op) || AnyUses(es, op)
    ensures AnyUses([e], op) <==> Uses(e, op)
  {
    hide Uses;
    assert ([e] + es)[1..] == es && [e][1..] == [];
  }

  /** One step of reading a list. */
  lemma ListStep(close: Token, ts: seq<Token>)
    ensures var e := ParseLevel(0, ts);
            ParseList1(close, ts) ==
            if e.Fail? || e.rest == [] then Fail
            else if e.rest[0] == close then Ok([e.value], e.rest[1..])
            else if e.rest[0] == TComma && ParseList1(close, e.rest[1..]).Ok? then
              Ok([e.value] + ParseList1(close, e.rest[1..]).value, ParseList1(close, e.rest[1..]).rest)
            else Fail
  {
    hide ParseLevel;
  }

  lemma {:induction false} ListReads1(close: Token, ts: seq<Token>, op: BinaryOperator)
    requires Lacks(ts, op)
    ensures ListFree(ParseList1(close, ts), op)
    decreases |ts|, 3, 0
  {
    ListStep(close, ts);
    hide Lacks, ParseLevel, Uses, ParseList1, AnyUses;
    LevelReads(0, ts, op);
    var e := ParseLevel(0, ts);
    if e.Ok? && e.rest != [] {
      LacksFrom(e.rest, 1, op);
      ListReads1(close, e.rest[1..], op);
      var es := ParseList1(close, e.rest[1..]);
      UsesList(e.value, if es.Ok? then es.value else [], op);
    }
  }

  // ---- Main result ----

  lemma NothingIsRead(ts: seq<Token>, op: BinaryOperator)
    requires Lacks(ts, op)
    ensures Parse(ts).Some? ==> !Uses(Parse(ts).value, op)
  {
    LevelReads(0, ts, op);
    hide ParseLevel, Lacks;
  }

  lemma RespelledLacks(ts: seq<Token>)
    ensures Lacks(Respell(ts), Exponent)
    ensures Lacks(ts, Exponent) ==> Lacks(Respell(ts), BwXor)
    ensures Lacks(ts, Exponent) && Lacks(ts, BwXor) ==> Respell(ts) == ts
  {}

  /** A reader that goes by the documented spellings gets a tree back, in normal form as ever, if and only if the
      tree uses neither exponentiation nor exclusive or. */
  lemma DocumentedReaderNeedsNeither(e: Expr)
    ensures ParseDocumented(PrintInner(e)) == Some(RT.Normal(e)) <==> !Uses(e, Exponent) && !Uses(e, BwXor)
  {
    var ts := PrintInner(e);
    RespelledLacks(ts);
    NormalUses(e, Exponent);
    NormalUses(e, BwXor);
    RT.ReadBack(e);
    if !Uses(e, Exponent) { SignIsUsed(e, Exponent); }
    if !Uses(e, BwXor) { SignIsUsed(e, BwXor); }
    assert !Uses(e, Exponent) ==> Lacks(ts, Exponent);
    assert !Uses(e, BwXor) ==> Lacks(ts, BwXor);
    hide PrintInner, Parse, Uses, Respell, Lacks, IsDisputed;
    NothingIsRead(Respell(ts), Exponent);
    if !Uses(e, Exponent) { NothingIsRead(Respell(ts), BwXor); }
  }
}
