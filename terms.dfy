/**
 * The input of the lowering pass: the tagged terms that the upstream P front end
 * produces (the `P_Root` classes), as closed datatypes. Every NIL-terminated chain
 * of the term language (tuple types, named-tuple types, expression lists, named
 * expression lists, statement sequences, receive cases, variable lists) is a `Chain`;
 * a field that holds either a node or NIL is an `Option`.
 */
module Terms {
  import opened Base

  /** A NIL-terminated chain of nodes (`hd`/`tl`, `head`/`tail`, `s1`/`s2`, `cases`). */
  datatype Chain<+T> = Nil | Cons(hd: T, tl: Chain<T>)

  /** The nodes of a chain, in chain order. */
  function Elements<T>(c: Chain<T>): seq<T>
  {
    match c
    case Nil => []
    case Cons(h, t) => [h] + Elements(t)
  }

  /** The chain whose nodes are `s`, in order. */
  function ChainOf<T>(s: seq<T>): Chain<T>
  {
    if s == [] then Nil else Cons(s[0], ChainOf(s[1..]))
  }

  lemma {:induction false} ElementsOfChainOf<T>(s: seq<T>)
    ensures Elements(ChainOf(s)) == s
  {
    if s != [] {
      ElementsOfChainOf(s[1..]);
    }
  }

  lemma {:induction false} ChainOfElements<T>(c: Chain<T>)
    ensures ChainOf(Elements(c)) == c
  {
    match c
    case Nil =>
    case Cons(h, t) =>
      ChainOfElements(t);
      assert ([h] + Elements(t))[1..] == Elements(t);
  }

  /**
   * An atomic term read by the accessors: a string constant, a rational constant
   * (`Formula.Common.Rational`, numerator over denominator), a symbolic constant
   * such as NIL, TRUE or HALT, or any compound node (read where a constant was expected).
   */
  datatype Cnst =
    | StringCnst(str: string)
    | RealCnst(num: int, den: nat)
    | Symbol(tag: string)
    | Compound(kind: string)

  const Int32Min: int := -0x8000_0000
  const Int32Max: int := 0x7FFF_FFFF

  predicate InInt32(i: int) { Int32Min <= i <= Int32Max }

  /** `getString`: the text of a string constant; any other node is malformed. */
  function GetString(x: Cnst): Result<string>
  {
    if x.StringCnst? then Ok(x.str) else Err(MalformedTerm)
  }

  /**
   * `getValue`: the integer held by a rational constant. A non-integer rational,
   * a non-rational node, or an integer outside the 32-bit range is malformed.
   */
  function GetValue(x: Cnst): Result<int>
  {
    if x.RealCnst? && x.den > 0 && x.num % x.den == 0 && InInt32(x.num / x.den)
    then Ok(x.num / x.den)
    else Err(MalformedTerm)
  }

  /** The rational constant that denotes the integer `i`. */
  function IntCnst(i: int): Cnst { RealCnst(i, 1) }

  lemma GetStringIsPartial(x: Cnst)
    ensures GetString(x).Ok? <==> x.StringCnst?
  {
  }

  /** A value read by `GetValue` is a 32-bit integer that the constant denotes exactly. */
  lemma GetValueExact(x: Cnst, v: int)
    requires GetValue(x) == Ok(v)
    ensures x.RealCnst? && x.den > 0 && x.num == v * x.den && InInt32(v)
  {
    assert x.num == (x.num / x.den) * x.den + x.num % x.den;
  }

  /** `IntCnst` is the inverse of `GetValue` on the 32-bit integers. */
  lemma IntCnstRoundTrip(i: int)
    ensures GetValue(IntCnst(i)).Ok? <==> InInt32(i)
    ensures InInt32(i) ==> GetValue(IntCnst(i)) == Ok(i)
  {
    assert i / 1 == i && i % 1 == 0;
  }

  /** A possibly qualified state name: `qualifier` is NIL or the enclosing name. */
  datatype QualifiedName = QualifiedName(qualifier: Option<QualifiedName>, name: string)

  /** Type expressions (`TypeExpr`). */
  datatype TypeExpr =
    | NameType(name: string)
    | BaseType(tag: string)
    | SeqType(x: TypeExpr)
    | MapType(k: TypeExpr, v: TypeExpr)
    | TupType(elems: Chain<TypeExpr>)
    | NmdTupType(fields: Chain<NmdTupTypeField>)

  datatype NmdTupTypeField = NmdTupTypeField(name: string, ty: TypeExpr)

  /** Expressions (`Expr`). */
  datatype Expr =
    | Name(name: string)
    | New(machine: string, newArg: Option<Expr>)
    | FunApp(fun: string, args: Chain<Expr>)
    | NulApp(nulOp: Cnst)
    | UnApp(unOp: string, arg1: Expr)
    | BinApp(binOp: string, arg1: Expr, arg2: Expr)
    | Field(arg: Expr, field: Cnst)
    | Default(ty: TypeExpr)
    | Cast(arg: Expr, ty: TypeExpr)
    | Tuple(body: Chain<Expr>)
    | NamedTuple(named: Chain<NamedExpr>)

  datatype NamedExpr = NamedExpr(field: string, exp: Expr)

  /** Statements (`Stmt`); the statements of a `Seq` form a chain ended by SKIP. */
  datatype Stmt =
    | NewStmt(machine: string, newArg: Option<Expr>)
    | Raise(ev: Expr, payload: Option<Expr>)
    | Send(dest: Expr, ev: Expr, payload: Option<Expr>)
    | Monitor(ev: Expr, payload: Option<Expr>)
    | FunStmt(fun: string, args: Chain<Expr>, aout: Option<string>)
    | NulStmt(nulOp: string)
    | BinStmt(binOp: string, arg1: Expr, arg2: Expr)
    | Return(ret: Option<Expr>)
    | While(cond: Expr, body: Stmt)
    | Ite(cond: Expr, thn: Stmt, els: Stmt)
    | Seq(stmts: Chain<Stmt>)
    | Receive(cases: Chain<Case>)
    | Assert(arg: Expr)

  /** One case of a receive statement: a trigger and its inline action. */
  datatype Case = Case(trig: Cnst, action: AnonFunDecl)

  /**
   * An inline action body (`AnonFunDecl`): the machine that owns it (NIL for none),
   * the named function it sits in (NIL for none), its locals, its body, and the
   * environment variables it closes over.
   */
  datatype AnonFunDecl = AnonFunDecl(
    owner: Option<string>,
    ownerFun: Option<string>,
    locals: Chain<NmdTupTypeField>,
    body: Stmt,
    envVars: Chain<NmdTupTypeField>)

  datatype QueueConstraint = AssertMaxInstances(bound: Cnst) | AssumeMaxInstances(bound: Cnst)

  datatype EventDecl = EventDecl(name: string, card: Option<QueueConstraint>, ty: Option<TypeExpr>)

  /** The source state of a transition or do declaration: its name and owning machine. */
  datatype StateRef = StateRef(name: QualifiedName, owner: string)

  datatype TransAction = PushAction | AnonTrans(fn: AnonFunDecl) | NamedTrans(fun: string)

  datatype TransDecl = TransDecl(src: StateRef, trig: Cnst, dst: QualifiedName, action: TransAction)

  datatype DoAction = DeferAction | IgnoreAction | AnonDo(fn: AnonFunDecl) | NamedDo(fun: string)

  datatype DoDecl = DoDecl(src: StateRef, trig: Cnst, action: DoAction)

  /** A named function; `owner` is its machine, NIL for a static function; `kind` is MODEL, PURE or other. */
  datatype FunDecl = FunDecl(
    name: string,
    owner: Option<string>,
    kind: string,
    params: Chain<NmdTupTypeField>,
    ret: Option<TypeExpr>,
    locals: Chain<NmdTupTypeField>,
    body: Stmt)

  /** The entry or exit action of a state: absent, inline, or the name of a function. */
  datatype StateAction = NoAction | AnonAction(fn: AnonFunDecl) | NamedAction(fun: string)

  datatype StateDecl = StateDecl(
    name: QualifiedName,
    owner: string,
    temperature: string,
    entryAction: StateAction,
    exitFun: StateAction)

  /** A machine; `kind` is MODEL, MONITOR or other; `isMain` is its TRUE/FALSE flag. */
  datatype MachineDecl = MachineDecl(
    name: string,
    start: QualifiedName,
    kind: string,
    isMain: bool,
    card: Option<QueueConstraint>)

  /** A monitor's `observes` edge. */
  datatype Observes = Observes(ev: string, monitor: string)

  datatype TypeDef = TypeDef(name: string, ty: TypeExpr)

  /** One parsed program unit (`PProgram`) with its declaration collections in source order. */
  datatype ProgramUnit = ProgramUnit(
    typeDefs: seq<TypeDef>,
    events: seq<EventDecl>,
    machines: seq<MachineDecl>,
    functions: seq<FunDecl>,
    transitions: seq<TransDecl>,
    dos: seq<DoDecl>,
    observes: seq<Observes>)
}
