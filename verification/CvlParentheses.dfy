/** No printed parenthesis can be left out: what the printer prints is as short as any text that is read as the
    same expression. */
module CvlParentheses {
  import opened Wrappers
  import opened CvlSchema
  import opened CvlPrinter
  import opened CvlReader
  import opened CvlRoundTrip

  /** Tokens of e where an expression of level p or tighter is wanted. */
  function Size(p: nat, e: Expr): nat {
    |PrintInner(e)| + if Precedence(e) < p then 2 else 0
  }

  /** The level at which level p reads a left operand. */
  function LeftLevel(p: nat): nat {
    if RightAssociative(p) then p + 1 else p
  }

  // ---- Types, variables and names ----

  lemma {:induction false} TypeConsumes(ts: seq<Token>)
    requires ParseType(ts).Ok?
    ensures |PrintType(ParseType(ts).value)| + |ParseType(ts).rest| <= |ts|
    decreases |ts|, 1
  {
    if ts[0].TPrim? {
      SuffixConsumes(Primitive(ts[0].text), ts[1..]);
    } else if ts[0] == TStorage {
      SuffixConsumes(StorageType, ts[1..]);
    } else if |ts| >= 3 && ts[0].TName? && ts[1] == TDot && ts[2].TName? {
      SuffixConsumes(ContractType(ts[0].text, ts[2].text), ts[3..]);
    } else {
      var k := ParseType(ts[2..]);
      var v := ParseType(k.rest[1..]);
      TypeConsumes(ts[2..]);
      TypeConsumes(k.rest[1..]);
      SuffixConsumes(Mapping(k.value, v.value), v.rest[1..]);
    }
  }

  lemma {:induction false} SuffixConsumes(t: CvlType, ts: seq<Token>)
    requires TypeSuffix(t, ts).Ok?
    ensures |PrintType(TypeSuffix(t, ts).value)| + |TypeSuffix(t, ts).rest| <= |PrintType(t)| + |ts|
    decreases |ts|, 0
  {
    if |ts| >= 2 && ts[0] == TLBracket && ts[1] == TRBracket {
      SuffixConsumes(DynArray(t), ts[2..]);
    } else if |ts| >= 3 && ts[0] == TLBracket && ts[1].TSize? && ts[2] == TRBracket {
      SuffixConsumes(StaticArray(t, ts[1].n), ts[3..]);
    }
  }

  lemma VariableConsumes(ts: seq<Token>)
    requires ParseTypeAndId(ts).Ok?
    ensures |PrintTypeAndId(ParseTypeAndId(ts).value)| + |ParseTypeAndId(ts).rest| <= |ts|
  {
    TypeConsumes(ts);
  }

  lemma {:induction false} VariablesConsume(ts: seq<Token>)
    requires ParseVariables1(ts).Ok?
    ensures |PrintTypeAndIds(ParseVariables1(ts).value)| + 1 + |ParseVariables1(ts).rest| <= |ts|
    decreases |ts|
  {
    VariableConsumes(ts);
    var v := ParseTypeAndId(ts);
    if v.rest[0] == TComma {
      VariablesConsume(v.rest[1..]);
      var vs := ParseVariables1(v.rest[1..]);
      assert ([v.value] + vs.value)[1..] == vs.value;
    }
  }

  lemma VmTypeConsumes(ts: seq<Token>)
    requires ParseVmType(ts).Ok?
    ensures |PrintVmType(ParseVmType(ts).value)| + |ParseVmType(ts).rest| <= |ts|
  {
    TypeConsumes(ts);
  }

  lemma {:induction false} VmTypesConsume(ts: seq<Token>)
    requires ParseVmTypes1(ts).Ok?
    ensures |PrintVmTypes(ParseVmTypes1(ts).value)| + 1 + |ParseVmTypes1(ts).rest| <= |ts|
    decreases |ts|
  {
    VmTypeConsumes(ts);
    var v := ParseVmType(ts);
    if v.rest[0] == TComma {
      VmTypesConsume(v.rest[1..]);
      var vs := ParseVmTypes1(v.rest[1..]);
      assert ([v.value] + vs.value)[1..] == vs.value;
    }
  }

  // ---- One construct ----

  lemma SizeGrows(p: nat, q: nat, e: Expr)
    requires p <= q
    ensures |PrintInner(e)| <= Size(p, e) <= Size(q, e)
  {}

  lemma InfixSize(p: nat, l: Expr, t: Token, r: Expr)
    requires InfixNext(p, [t])
    ensures Size(p, BinaryOp(InfixOperator(t).value, l, r)) <=
            Size(LeftLevel(p), l) + 1 + Size(if RightAssociative(p) then p else p + 1, r)
  {
    var op := InfixOperator(t).value;
    assert BinaryPrecedence(op) == p;
    BinaryPrints(op, l, r, []);
    hide PrintInner;
  }

  lemma ConditionalSize(c: Expr, t: Expr, f: Expr)
    ensures Size(0, Conditional(c, t, f)) == Size(0, c) + Size(0, t) + Size(0, f) + 2
  {
    ConditionalPrints(c, t, f, []);
    hide PrintInner;
  }

  lemma AccessSize(b: Expr, i: Expr, f: string)
    ensures Size(15, ArrayAccess(b, i)) <= Size(15, b) + Size(0, i) + 2
    ensures Size(15, FieldAccess(b, f)) <= Size(15, b) + 2
  {
    IndexPrints(b, i, []);
    FieldPrints(b, f, []);
    hide PrintInner;
  }

  lemma BinderSize(all: bool, v: TypeAndId, vs: seq<TypeAndId>, b: Expr)
    ensures Size(0, Quantifier(all, v, b)) == |PrintTypeAndId(v)| + Size(0, b) + 2
    ensures Size(0, SumExp(all, vs, b)) == |PrintTypeAndIds(vs)| + Size(0, b) + 2
  {
    QuantifierPrints(all, v, b, []);
    SumPrints(all, vs, b, []);
    hide PrintInner, PrintTypeAndId, PrintTypeAndIds;
  }

  lemma UnarySize(op: UnaryOperator, x: Expr)
    ensures Size(12, UnaryOp(op, x)) <= Size(12, x) + 1
  {
    UnaryPrints(op, x, []);
    hide PrintInner;
  }

  // ---- Expressions ----

  lemma {:induction false} LevelConsumes(p: nat, ts: seq<Token>)
    requires p <= 15 && ParseLevel(p, ts).Ok?
    ensures Size(p, ParseLevel(p, ts).value) + |ParseLevel(p, ts).rest| <= |ts|
    decreases |ts|, 2, 16 - p
  {
    hide Size, Tail, ParsePrimary, ParseTypeAndId, ParseVariables1, PrintTypeAndId, PrintTypeAndIds, PrintInner;
    if p == 0 && (ts[0] == TForall || ts[0] == TExists || ts[0] == TSum || ts[0] == TUSum) {
      BinderConsumes(ts);
    } else if p == 12 && PrefixOperator(ts[0]).Some? {
      LevelConsumes(12, ts[1..]);
      UnarySize(PrefixOperator(ts[0]).value, ParseLevel(12, ts[1..]).value);
    } else {
      var first := if p == 15 then ParsePrimary(ts) else ParseLevel(p + 1, ts);
      if p == 15 { PrimaryConsumes(ts); } else { LevelConsumes(p + 1, ts); }
      SizeGrows(LeftLevel(p), if p == 15 then p else p + 1, first.value);
      TailConsumes(p, first.value, first.rest);
    }
  }

  lemma {:induction false} BinderConsumes(ts: seq<Token>)
    requires ParseLevel(0, ts).Ok? && (ts[0] == TForall || ts[0] == TExists || ts[0] == TSum || ts[0] == TUSum)
    ensures Size(0, ParseLevel(0, ts).value) + |ParseLevel(0, ts).rest| <= |ts|
    decreases |ts|, 1
  {
    hide Size, Tail, ParsePrimary, ParseTypeAndId, ParseVariables1, PrintTypeAndId, PrintInner;
    if ts[0] == TForall || ts[0] == TExists {
      var v := ParseTypeAndId(ts[1..]);
      VariableConsumes(ts[1..]);
      LevelConsumes(0, v.rest[1..]);
      BinderSize(ts[0] == TForall, v.value, [], ParseLevel(0, v.rest[1..]).value);
    } else {
      var vs := ParseVariables(ts[1..]);
      if ts[1] != TDot { VariablesConsume(ts[1..]); }
      LevelConsumes(0, vs.rest);
      BinderSize(ts[0] == TUSum, TypeAndId(StorageType, ""), vs.value, ParseLevel(0, vs.rest).value);
    }
  }

  lemma {:induction false} TailConsumes(p: nat, e: Expr, ts: seq<Token>)
    requires p <= 15 && Tail(p, e, ts).Ok?
    ensures Size(p, Tail(p, e, ts).value) + |Tail(p, e, ts).rest| <= Size(LeftLevel(p), e) + |ts|
    decreases |ts|, 1
  {
    hide Size, ParseLevel, PrintInner;
    if p == 0 {
      if ts != [] && ts[0] == TQuestion {
        var t := ParseLevel(0, ts[1..]);
        LevelConsumes(0, ts[1..]);
        LevelConsumes(0, t.rest[1..]);
        ConditionalSize(e, t.value, ParseLevel(0, t.rest[1..]).value);
      }
    } else if p == 15 {
      PostfixConsumes(e, ts);
    } else if InfixNext(p, ts) {
      var rp := if RightAssociative(p) then p else p + 1;
      var r := ParseLevel(rp, ts[1..]);
      LevelConsumes(rp, ts[1..]);
      InfixSize(p, e, ts[0], r.value);
      if !RightAssociative(p) {
        TailConsumes(p, BinaryOp(InfixOperator(ts[0]).value, e, r.value), r.rest);
      }
    } else {
      SizeGrows(p, LeftLevel(p), e);
    }
  }

  lemma {:induction false} PostfixConsumes(e: Expr, ts: seq<Token>)
    requires Tail(15, e, ts).Ok?
    ensures Size(15, Tail(15, e, ts).value) + |Tail(15, e, ts).rest| <= Size(15, e) + |ts|
    decreases |ts|, 0
  {
    hide Size, ParseLevel, PrintInner;
    if |ts| >= 2 && ts[0] == TDot && ts[1].TName? {
      AccessSize(e, e, ts[1].text);
      PostfixConsumes(FieldAccess(e, ts[1].text), ts[2..]);
    } else if ts != [] && ts[0] == TLBracket {
      var i := ParseLevel(0, ts[1..]);
      LevelConsumes(0, ts[1..]);
      AccessSize(e, i.value, "");
      PostfixConsumes(ArrayAccess(e, i.value), i.rest[1..]);
    }
  }

  lemma {:induction false} PrimaryConsumes(ts: seq<Token>)
    requires ts != [] && ParsePrimary(ts).Ok?
    ensures Size(15, ParsePrimary(ts).value) + |ParsePrimary(ts).rest| <= |ts|
    decreases |ts|, 1
  {
    match ts[0]
    case TLParen => LevelConsumes(0, ts[1..]);
    case TLBracket => ListConsumes(TRBracket, ts[1..]);
    case TName(_) => NameConsumes(ts);
    case TSig => SignatureConsumes(ts);
    case _ =>
  }

  /** An identifier or a call. */
  lemma {:induction false} NameConsumes(ts: seq<Token>)
    requires ts != [] && ts[0].TName? && ParsePrimary(ts).Ok?
    ensures Size(15, ParsePrimary(ts).value) + |ParsePrimary(ts).rest| <= |ts|
    decreases |ts|, 0
  {
    hide ParseList;
    if CallOpening(ts[1..]) > 0 {
      CallConsumes(OpeningAnnotation(ts[1..]), ts[0].text, None, ts[1 + CallOpening(ts[1..])..]);
      hide FinishCall, PrintInner;
    } else if |ts| >= 3 && ts[1] == TDot && ts[2].TName? && CallOpening(ts[3..]) > 0 {
      CallConsumes(OpeningAnnotation(ts[3..]), ts[2].text, Some(ts[0].text), ts[3 + CallOpening(ts[3..])..]);
      hide FinishCall, PrintInner;
    }
  }

  lemma {:induction false} CallConsumes(ann: Option<CallAnnotation>, name: string, host: Option<string>, ts: seq<Token>)
    requires FinishCall(ann, name, host, ts).Ok?
    ensures var r := FinishCall(ann, name, host, ts);
            Size(15, r.value) + |r.rest| <=
            |ts| + 2 + (if ann.Some? then 1 else 0) + if host.Some? then 2 else 0
    decreases |ts|, 4
  {
    ListConsumes(TRParen, ts);
    CallPrints(FinishCall(ann, name, host, ts).value.application, []);
    hide ParseList, PrintList;
  }

  lemma SignatureSize(m: MethodReference, ts: seq<VmType>)
    ensures Size(15, SignatureLiteral(m, ts)) == |PrintHost(m.contract)| + |PrintVmTypes(ts)| + 5
  {
    hide PrintHost, PrintVmTypes;
  }

  lemma SignatureConsumes(ts: seq<Token>)
    requires ts != [] && ts[0] == TSig && ParsePrimary(ts).Ok?
    ensures Size(15, ParsePrimary(ts).value) + |ParsePrimary(ts).rest| <= |ts|
  {
    hide ParseVmTypes1, ParseList, Size, PrintInner;
    var r := ParsePrimary(ts).value;
    SignatureSize(r.methodRef, r.paramTypes);
    var from := if ts[3] == TLParen then 4 else 6;
    if ts[from] != TRParen { VmTypesConsume(ts[from..]); }
  }

  lemma {:induction false} ListConsumes(close: Token, ts: seq<Token>)
    requires ParseList(close, ts).Ok?
    ensures |PrintList(ParseList(close, ts).value)| + 1 + |ParseList(close, ts).rest| <= |ts|
    decreases |ts|, 3, 1
  {
    if ts[0] != close { SomeConsume(close, ts); }
  }

  lemma {:induction false} SomeConsume(close: Token, ts: seq<Token>)
    requires ParseList1(close, ts).Ok?
    ensures |PrintList(ParseList1(close, ts).value)| + 1 + |ParseList1(close, ts).rest| <= |ts|
    decreases |ts|, 3, 0
  {
    LevelConsumes(0, ts);
    var e := ParseLevel(0, ts);
    if e.rest[0] == TComma && e.rest[0] != close {
      SomeConsume(close, e.rest[1..]);
      var es := ParseList1(close, e.rest[1..]);
      assert ([e.value] + es.value)[1..] == es.value;
    }
  }

  // ---- Main results ----

  /** No text that is read as e is shorter than the printed form of e. */
  lemma PrintingIsShortest(ts: seq<Token>, e: Expr)
    requires Parse(ts) == Some(e)
    ensures |PrintInner(e)| <= |ts|
  {
    LevelConsumes(0, ts);
  }

  /** A text as printed but for one operand, which is bare in it, is read back exactly when the printed operand is
      bare as well. */
  lemma OneBareOperand(e: Expr, bare: seq<Token>, parens: bool)
    requires if parens then |bare| < |PrintInner(e)| else bare == PrintInner(e)
    ensures parens <==> Parse(bare) != Some(Normal(e))
  {
    ReadBack(e);
    NormalPrintsAlike(e);
    if Parse(bare) == Some(Normal(e)) { PrintingIsShortest(bare, Normal(e)); }
  }

  /** Which operands of a binary operator are printed in parentheses: exactly those without whose parentheses the
      text would not be read back. */
  lemma BinaryParenthesesAreNeeded(op: BinaryOperator, l: Expr, r: Expr) returns (left: bool, right: bool)
    ensures var e := BinaryOp(op, l, r);
            var sign := [TOp(BinaryGlyph(op))];
            PrintInner(e) == Wrap(PrintInner(l), left) + sign + Wrap(PrintInner(r), right) &&
            (left <==> Parse(PrintInner(l) + sign + Wrap(PrintInner(r), right)) != Some(Normal(e))) &&
            (right <==> Parse(Wrap(PrintInner(l), left) + sign + PrintInner(r)) != Some(Normal(e))) &&
            (Faithful(e) ==> Normal(e) == e)
  {
    var e := BinaryOp(op, l, r);
    var sign := [TOp(BinaryGlyph(op))];
    left, right := NeedsParentheses(l, e, false), NeedsParentheses(r, e, true);
    assert PrintInner(e) == Wrap(PrintInner(l), left) + sign + Wrap(PrintInner(r), right);
    hide PrintInner, Normal, Parse, Faithful, NeedsParentheses;
    OneBareOperand(e, PrintInner(l) + sign + Wrap(PrintInner(r), right), left);
    OneBareOperand(e, Wrap(PrintInner(l), left) + sign + PrintInner(r), right);
    if Faithful(e) { FaithfulIsNormal(e); }
  }

  /** The same for a prefix operator. */
  lemma UnaryParenthesesAreNeeded(op: UnaryOperator, x: Expr) returns (parens: bool)
    ensures var e := UnaryOp(op, x);
            var sign := [TOp(UnaryGlyph(op))];
            PrintInner(e) == sign + Wrap(PrintInner(x), parens) &&
            (parens <==> Parse(sign + PrintInner(x)) != Some(Normal(e))) &&
            (Faithful(e) ==> Normal(e) == e)
  {
    var e := UnaryOp(op, x);
    parens := NeedsParentheses(x, e, false);
    OneBareOperand(e, [TOp(UnaryGlyph(op))] + PrintInner(x), parens);
    if Faithful(e) { FaithfulIsNormal(e); }
    hide Normal, Parse, Faithful, NeedsParentheses;
  }

  /** The same for the base of an index. */
  lemma IndexParenthesesAreNeeded(b: Expr, i: Expr) returns (parens: bool)
    ensures var e := ArrayAccess(b, i);
            var suffix := [TLBracket] + PrintInner(i) + [TRBracket];
            PrintInner(e) == Wrap(PrintInner(b), parens) + suffix &&
            (parens <==> Parse(PrintInner(b) + suffix) != Some(Normal(e))) &&
            (Faithful(e) ==> Normal(e) == e)
  {
    var e := ArrayAccess(b, i);
    parens := NeedsParentheses(b, e, false);
    IndexParts(b, i);
    OneBareOperand(e, PrintInner(b) + ([TLBracket] + PrintInner(i) + [TRBracket]), parens);
    if Faithful(e) { FaithfulIsNormal(e); }
    hide Normal, Parse, Faithful, NeedsParentheses;
  }

  lemma IndexParts(b: Expr, i: Expr)
    ensures var e := ArrayAccess(b, i);
            PrintInner(e) ==
            Wrap(PrintInner(b), NeedsParentheses(b, e, false)) + ([TLBracket] + PrintInner(i) + [TRBracket])
  {
    var e := ArrayAccess(b, i);
    var base := Wrap(PrintInner(b), NeedsParentheses(b, e, false));
    assert PrintInner(e) == base + [TLBracket] + PrintInner(i) + [TRBracket];
    hide PrintInner, Wrap, NeedsParentheses;
    Regroup(base, [TLBracket], PrintInner(i), [TRBracket], []);
    Regroup([TLBracket], PrintInner(i), [TRBracket], [], []);
  }

  /** The same for the base of a field access. */
  lemma FieldParenthesesAreNeeded(b: Expr, f: string) returns (parens: bool)
    ensures var e := FieldAccess(b, f);
            var suffix := [TDot, TName(f)];
            PrintInner(e) == Wrap(PrintInner(b), parens) + suffix &&
            (parens <==> Parse(PrintInner(b) + suffix) != Some(Normal(e))) &&
            (Faithful(e) ==> Normal(e) == e)
  {
    var e := FieldAccess(b, f);
    parens := NeedsParentheses(b, e, false);
    OneBareOperand(e, PrintInner(b) + [TDot, TName(f)], parens);
    if Faithful(e) { FaithfulIsNormal(e); }
    hide Normal, Parse, Faithful, NeedsParentheses;
  }
}
