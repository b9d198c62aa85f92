/**
 * The typed AST that the lowering pass produces (the F# `Syntax` module consumed by
 * the downstream verifier). A type that failed to lower is kept as `None` wherever
 * the pass embeds it (`Default`, `Cast`, variable, event and return types).
 */
module Syntax {
  import opened Base

  datatype Type =
    | Int
    | Bool
    | Machine
    | Any
    | Null
    | Tuple(elems: seq<Type>)
    | NamedTuple(fields: seq<(string, Type)>)
    | Seq(elem: Type)
    | Map(key: Type, value: Type)

  datatype UnOp = Not | Neg | Keys | Values | Sizeof

  datatype BinOp = Add | Sub | Mul | Intdiv | And | Or | Eq | Neq | Lt | Le | Gt | Ge | Idx | In

  datatype Expr =
    | Var(name: string)
    | New(machine: string, arg: Expr)
    | Call(fun: string, args: seq<Expr>)
    | ConstInt(i: int)
    | ConstBool(b: bool)
    | This
    | Nondet
    | Nil
    | Event(event: string)
    | Dot(base: Expr, pos: int)
    | NamedDot(base: Expr, field: string)
    | Default(ty: Option<Type>)
    | Cast(arg: Expr, ty: Option<Type>)
    | Tuple(elems: seq<Expr>)
    | NamedTuple(fields: seq<(string, Expr)>)
    | Un(uop: UnOp, arg: Expr)
    | Bin(bop: BinOp, arg1: Expr, arg2: Expr)

  datatype Lval =
    | Var(name: string)
    | Dot(base: Lval, pos: int)
    | NamedDot(base: Lval, field: string)
    | Index(base: Lval, key: Expr)

  datatype Stmt =
    | NewStmt(machine: string, arg: Expr)
    | Raise(ev: Expr, arg: Expr)
    | Send(dest: Expr, ev: Expr, arg: Expr)
    | Monitor(ev: Expr, arg: Expr)
    | FunStmt(fun: string, args: seq<Expr>, aout: Option<string>)
    | Pop
    | Skip
    | Remove(lv: Lval, e: Expr)
    | Assign(lv: Lval, e: Expr)
    | Insert(lv: Lval, key: Expr, value: Expr)
    | Return(e: Expr)
    | While(cond: Expr, body: Stmt)
    | Ite(cond: Expr, thn: Stmt, els: Stmt)
    | SeqStmt(stmts: seq<Stmt>)
    | Receive(cases: seq<(string, string)>)
    | Assert(e: Expr)

  datatype VarDecl = VarDecl(name: string, ty: Option<Type>)

  /** A function; `ret` is absent when no return type is declared. */
  datatype FunDecl = FunDecl(
    name: string,
    params: seq<VarDecl>,
    ret: Option<Option<Type>>,
    locals: seq<VarDecl>,
    body: Stmt,
    isModel: bool,
    isPure: bool)

  datatype Card = AssertMax(bound: int) | AssumeMax(bound: int)

  datatype EventDecl = EventDecl(name: string, card: Option<Card>, payload: Option<Option<Type>>)

  datatype TransDecl = PushTrans(trig: string, dest: string) | CallTrans(trig: string, dest: string, action: string)

  datatype DoDecl = Defer(trig: string) | Ignore(trig: string) | CallDo(trig: string, action: string)

  datatype StateDecl = StateDecl(
    name: string,
    temperature: string,
    entry: Option<string>,
    exit: Option<string>,
    transitions: seq<TransDecl>,
    dos: seq<DoDecl>)

  datatype MachineDecl = MachineDecl(
    name: string,
    start: string,
    globals: seq<VarDecl>,
    functions: seq<FunDecl>,
    states: seq<StateDecl>,
    isMonitor: bool,
    monitored: Option<seq<string>>,
    card: Option<Card>,
    isModel: bool)

  datatype ProgramDecl = ProgramDecl(
    main: Option<string>,
    machines: seq<MachineDecl>,
    events: seq<EventDecl>,
    staticFunctions: seq<FunDecl>)
}
