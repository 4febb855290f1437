/** The expression part of the CVL schema: types, operators and expressions.
    Python's `X | None` is `Option`, its lists are sequences. */
module CvlSchema {
  import opened Wrappers

  datatype CvlType =
    | Mapping(key: CvlType, val: CvlType)
    | DynArray(elem: CvlType)
    | StaticArray(elem: CvlType, n: int)
    | ContractType(host: string, typeName: string)
    | StorageType
    | Primitive(name: string)

  datatype DataLocation = Calldata | Memory | Storage

  datatype VmType = VmType(base: CvlType, location: Option<DataLocation>)

  datatype TypeAndId = TypeAndId(declType: CvlType, id: string)

  datatype BinaryOperator =
    | Add | Sub | Mul | Div | Mod | Exponent
    | And | Or | Implies | Iff
    | BwOr | BwXor | BwAnd | BwLshift | BwRshift | BwRshiftWzeros
    | Eq | Ne | Lt | Le | Gt | Ge | In

  datatype UnaryOperator = Not | BwNot | Uminus

  datatype IdAnnotation = Old | New

  datatype CallAnnotation = WithRevert | NoRevert

  datatype FunctionApplication = FunctionApplication(
    annotation: Option<CallAnnotation>,
    name: string,
    hostContract: Option<string>,
    params: seq<Expr>,
    state: Option<string>)

  datatype MethodReference = MethodReference(contract: Option<string>, methodName: string)

  datatype Expr =
    | BoolLiteral(b: bool)
    | NumberLiteral(num: string)
    | HexLiteral(hex: string)
    | StringLiteral(str: string)
    | ArrayLiteral(elements: seq<Expr>)
    | Identifier(name: string, idAnnotation: Option<IdAnnotation>)
    | BinaryOp(op: BinaryOperator, left: Expr, right: Expr)
    | UnaryOp(uop: UnaryOperator, operand: Expr)
    | Conditional(condition: Expr, thenExpr: Expr, elseExpr: Expr)
    | Quantifier(isForall: bool, variable: TypeAndId, body: Expr)
    | SumExp(isUnsigned: bool, variables: seq<TypeAndId>, body: Expr)
    | ArrayAccess(base: Expr, index: Expr)
    | FieldAccess(base: Expr, fieldName: string)
    | FunctionCall(application: FunctionApplication)
    | SignatureLiteral(methodRef: MethodReference, paramTypes: seq<VmType>)
}
