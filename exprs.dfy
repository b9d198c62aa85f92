/**
 * Expression and lvalue lowering (`genExpr`, `genLVal` and their helpers). Operator
 * tags dispatch to exactly one AST operator each; an unknown tag is an
 * `UnsupportedOperator` error, a field selector that is neither a natural number nor a
 * string is malformed, and an expression with no lvalue form is `NotAnLval`.
 */
module ExprLowering {
  import opened Base
  import opened Terms
  import opened TypeLowering
  import S = Syntax

  /** The unary operator tags `genUnOp` recognises. */
  const UnOpTags: set<string> := {"NOT", "NEG", "KEYS", "VALUES", "SIZEOF"}

  /** The binary operator tags `genBinOp` recognises. */
  const BinOpTags: set<string> :=
    {"ADD", "SUB", "MUL", "INTDIV", "AND", "OR", "EQ", "NEQ", "LT", "LE", "GT", "GE", "IDX", "IN"}

  /** The nullary symbols `genNulApp` recognises. */
  const NulOpTags: set<string> := {"TRUE", "FALSE", "THIS", "NONDET", "NULL", "HALT"}

  /** `genUnOp`. */
  function LowerUnOp(tag: string): Result<S.UnOp>
  {
    match tag
    case "NOT" => Ok(S.Not)
    case "NEG" => Ok(S.Neg)
    case "KEYS" => Ok(S.Keys)
    case "VALUES" => Ok(S.Values)
    case "SIZEOF" => Ok(S.Sizeof)
    case _ => Err(UnsupportedOperator(tag))
  }

  /** The tag that denotes a unary operator. */
  function UnOpTag(op: S.UnOp): string
  {
    match op
    case Not => "NOT"
    case Neg => "NEG"
    case Keys => "KEYS"
    case Values => "VALUES"
    case Sizeof => "SIZEOF"
  }

  /** `genBinOp`. */
  function LowerBinOp(tag: string): Result<S.BinOp>
  {
    match tag
    case "ADD" => Ok(S.Add)
    case "SUB" => Ok(S.Sub)
    case "MUL" => Ok(S.Mul)
    case "INTDIV" => Ok(S.Intdiv)
    case "AND" => Ok(S.And)
    case "OR" => Ok(S.Or)
    case "EQ" => Ok(S.Eq)
    case "NEQ" => Ok(S.Neq)
    case "LT" => Ok(S.Lt)
    case "LE" => Ok(S.Le)
    case "GT" => Ok(S.Gt)
    case "GE" => Ok(S.Ge)
    case "IDX" => Ok(S.Idx)
    case "IN" => Ok(S.In)
    case _ => Err(UnsupportedOperator(tag))
  }

  /** The tag that denotes a binary operator. */
  function BinOpTag(op: S.BinOp): string
  {
    match op
    case Add => "ADD"
    case Sub => "SUB"
    case Mul => "MUL"
    case Intdiv => "INTDIV"
    case And => "AND"
    case Or => "OR"
    case Eq => "EQ"
    case Neq => "NEQ"
    case Lt => "LT"
    case Le => "LE"
    case Gt => "GT"
    case Ge => "GE"
    case Idx => "IDX"
    case In => "IN"
  }

  /**
   * `genNulApp`: an integer constant, or one of the six nullary symbols. FALSE lowers
   * to the false constant here (see the findings for the source's `true`).
   */
  function LowerNulApp(op: Cnst): Result<S.Expr>
  {
    match op
    case RealCnst(_, _) =>
      var v :- GetValue(op);
      Ok(S.ConstInt(v))
    case Symbol(tag) =>
      (match tag
       case "TRUE" => Ok(S.ConstBool(true))
       case "FALSE" => Ok(S.ConstBool(false))
       case "THIS" => Ok(S.This)
       case "NONDET" => Ok(S.Nondet)
       case "NULL" => Ok(S.Nil)
       case "HALT" => Ok(S.Event("halt"))
       case _ => Err(UnsupportedOperator(tag)))
    case _ => Err(MalformedTerm)
  }

  /** A field selector: a position (a `Natural`) or a field name (a `String`). */
  datatype Selector = Pos(pos: int) | Named(field: string)

  /** The selector of `Field` shared by `genFieldExpr` and `genLVal`; anything else is malformed. */
  function LowerSelector(f: Cnst): Result<Selector>
  {
    match f
    case RealCnst(_, _) =>
      var v :- GetValue(f);
      if v >= 0 then Ok(Pos(v)) else Err(MalformedTerm)
    case StringCnst(s) => Ok(Named(s))
    case _ => Err(MalformedTerm)
  }

  /** The selector term that denotes a selector. */
  function SelectorTerm(sel: Selector): Cnst
  {
    match sel
    case Pos(i) => IntCnst(i)
    case Named(n) => StringCnst(n)
  }

  /** `genExpr`; `genDefaultExpr` and `genCastExpr` keep a type that does not lower as `None`. */
  function LowerExpr(e: Expr, defs: map<string, S.Type>): Result<S.Expr>
  {
    match e
    case Name(n) => Ok(S.Expr.Var(n))
    case New(m, arg) =>
      var a :- LowerOptExpr(arg, defs);
      Ok(S.Expr.New(m, a))
    case FunApp(f, args) =>
      var as_ :- LowerExprs(args, defs);
      Ok(S.Call(f, as_))
    case NulApp(op) => LowerNulApp(op)
    case UnApp(tag, a1) =>
      var op :- LowerUnOp(tag);
      var a :- LowerExpr(a1, defs);
      Ok(S.Un(op, a))
    case BinApp(tag, a1, a2) =>
      var op :- LowerBinOp(tag);
      var l :- LowerExpr(a1, defs);
      var r :- LowerExpr(a2, defs);
      Ok(S.Bin(op, l, r))
    case Field(arg, f) =>
      var a :- LowerExpr(arg, defs);
      var sel :- LowerSelector(f);
      Ok(match sel
         case Pos(i) => S.Expr.Dot(a, i)
         case Named(n) => S.Expr.NamedDot(a, n))
    case Default(t) => Ok(S.Default(LowerType(t, defs)))
    case Cast(arg, t) =>
      var a :- LowerExpr(arg, defs);
      Ok(S.Cast(a, LowerType(t, defs)))
    case Tuple(body) =>
      var es :- LowerExprs(body, defs);
      Ok(S.Expr.Tuple(es))
    case NamedTuple(named) =>
      var fs :- LowerNamedExprs(named, defs);
      Ok(S.Expr.NamedTuple(fs))
  }

  /** An optional argument: NIL lowers to the `Nil` expression. */
  function LowerOptExpr(arg: Option<Expr>, defs: map<string, S.Type>): Result<S.Expr>
  {
    match arg
    case None => Ok(S.Nil)
    case Some(a) => LowerExpr(a, defs)
  }

  /** `genExprs`: every expression of the chain, in order. */
  function LowerExprs(c: Chain<Expr>, defs: map<string, S.Type>): Result<seq<S.Expr>>
  {
    match c
    case Nil => Ok([])
    case Cons(h, rest) =>
      var x :- LowerExpr(h, defs);
      var xs :- LowerExprs(rest, defs);
      Ok([x] + xs)
  }

  /** `genNamedExprs`: every field and its lowered expression, in order. */
  function LowerNamedExprs(c: Chain<NamedExpr>, defs: map<string, S.Type>): Result<seq<(string, S.Expr)>>
  {
    match c
    case Nil => Ok([])
    case Cons(h, rest) =>
      var x :- LowerExpr(h.exp, defs);
      var xs :- LowerNamedExprs(rest, defs);
      Ok([(h.field, x)] + xs)
  }

  /** `genLVal`: a name, a field of an lvalue, or an IDX application on an lvalue. */
  function LowerLval(e: Expr, defs: map<string, S.Type>): Result<S.Lval>
  {
    match e
    case Name(n) => Ok(S.Lval.Var(n))
    case Field(arg, f) =>
      var a :- LowerLval(arg, defs);
      var sel :- LowerSelector(f);
      Ok(match sel
         case Pos(i) => S.Lval.Dot(a, i)
         case Named(n) => S.Lval.NamedDot(a, n))
    case BinApp(tag, a1, a2) =>
      if tag == "IDX" then
        var l :- LowerLval(a1, defs);
        var k :- LowerExpr(a2, defs);
        Ok(S.Index(l, k))
      else Err(NotAnLval)
    case _ => Err(NotAnLval)
  }

  /** Reference definition: the expression terms that have an lvalue form. */
  predicate LvalShape(e: Expr)
  {
    match e
    case Name(_) => true
    case Field(arg, _) => LvalShape(arg)
    case BinApp(tag, a1, _) => tag == "IDX" && LvalShape(a1)
    case _ => false
  }

  /** The expression an lvalue reads: the same access path, with `Index` as an IDX application. */
  function ExprOfLval(lv: S.Lval): S.Expr
  {
    match lv
    case Var(n) => S.Expr.Var(n)
    case Dot(b, i) => S.Expr.Dot(ExprOfLval(b), i)
    case NamedDot(b, f) => S.Expr.NamedDot(ExprOfLval(b), f)
    case Index(b, k) => S.Bin(S.Idx, ExprOfLval(b), k)
  }

  lemma UnOpRoundTrip(op: S.UnOp)
    ensures LowerUnOp(UnOpTag(op)) == Ok(op)
  {
  }

  /** Every recognised unary tag denotes exactly one operator, and every other tag is rejected. */
  lemma UnOpDispatch(tag: string)
    ensures LowerUnOp(tag).Ok? <==> tag in UnOpTags
    ensures LowerUnOp(tag).Ok? ==> UnOpTag(LowerUnOp(tag).value) == tag
    ensures LowerUnOp(tag).Err? ==> LowerUnOp(tag).error == UnsupportedOperator(tag)
  {
  }

  lemma BinOpRoundTrip(op: S.BinOp)
    ensures LowerBinOp(BinOpTag(op)) == Ok(op)
  {
  }

  /** Every recognised binary tag denotes exactly one operator, and every other tag is rejected. */
  lemma BinOpDispatch(tag: string)
    ensures LowerBinOp(tag).Ok? <==> tag in BinOpTags
    ensures LowerBinOp(tag).Ok? ==> BinOpTag(LowerBinOp(tag).value) == tag
    ensures LowerBinOp(tag).Err? ==> LowerBinOp(tag).error == UnsupportedOperator(tag)
  {
  }

  /** Distinct recognised tags give distinct operators. */
  lemma OpDispatchInjective(t1: string, t2: string)
    ensures LowerUnOp(t1).Ok? && LowerUnOp(t1) == LowerUnOp(t2) ==> t1 == t2
    ensures LowerBinOp(t1).Ok? && LowerBinOp(t1) == LowerBinOp(t2) ==> t1 == t2
  {
    UnOpDispatch(t1);
    UnOpDispatch(t2);
    BinOpDispatch(t1);
    BinOpDispatch(t2);
  }

  /**
   * A nullary term lowers exactly when it is a 32-bit integer constant or one of the six
   * symbols; the two boolean symbols give the two distinct boolean constants.
   */
  lemma NulAppDispatch(op: Cnst)
    ensures LowerNulApp(op).Ok? <==> GetValue(op).Ok? || (op.Symbol? && op.tag in NulOpTags)
    ensures GetValue(op).Ok? ==> LowerNulApp(op) == Ok(S.ConstInt(GetValue(op).value))
    ensures op.Symbol? && op.tag !in NulOpTags ==> LowerNulApp(op) == Err(UnsupportedOperator(op.tag))
    ensures LowerNulApp(Symbol("TRUE")) == Ok(S.ConstBool(true))
    ensures LowerNulApp(Symbol("FALSE")) == Ok(S.ConstBool(false))
  {
  }

  /** A natural-number selector is a position, a string selector a field name; nothing else selects. */
  lemma SelectorDispatch(f: Cnst)
    ensures LowerSelector(f).Ok? <==> f.StringCnst? || (GetValue(f).Ok? && GetValue(f).value >= 0)
    ensures f.StringCnst? ==> LowerSelector(f) == Ok(Named(f.str))
    ensures GetValue(f).Ok? && GetValue(f).value >= 0 ==> LowerSelector(f) == Ok(Pos(GetValue(f).value))
  {
  }

  lemma SelectorRoundTrip(sel: Selector)
    requires sel.Pos? ==> 0 <= sel.pos <= Int32Max
    ensures LowerSelector(SelectorTerm(sel)) == Ok(sel)
  {
    if sel.Pos? {
      IntCnstRoundTrip(sel.pos);
    }
  }

  /** An integer field gives a positional access and a string field a named access, for expressions and lvalues alike. */
  lemma FieldAccess(arg: Expr, f: Cnst, defs: map<string, S.Type>)
    requires LowerExpr(Field(arg, f), defs).Ok?
    ensures f.StringCnst? ==> LowerExpr(Field(arg, f), defs).value.NamedDot? && LowerExpr(Field(arg, f), defs).value.field == f.str
    ensures f.RealCnst? ==> LowerExpr(Field(arg, f), defs).value.Dot? && Ok(LowerExpr(Field(arg, f), defs).value.pos) == GetValue(f)
    ensures LowerLval(Field(arg, f), defs).Ok? ==>
      ExprOfLval(LowerLval(Field(arg, f), defs).value) == LowerExpr(Field(arg, f), defs).value
  {
    if LowerLval(Field(arg, f), defs).Ok? {
      LvalAgrees(arg, defs);
    }
  }

  /** An lvalue, read back as an expression, is the lowering of the same term as an expression. */
  lemma {:induction false} LvalAgrees(e: Expr, defs: map<string, S.Type>)
    requires LowerLval(e, defs).Ok?
    ensures LowerExpr(e, defs) == Ok(ExprOfLval(LowerLval(e, defs).value))
  {
    match e
    case Name(_) =>
    case Field(arg, _) => LvalAgrees(arg, defs);
    case BinApp(_, a1, _) => LvalAgrees(a1, defs);
  }

  /**
   * A term lowers to an lvalue exactly when it has lvalue shape (names, fields and IDX
   * applications down to a name) and lowers as an expression.
   */
  lemma {:induction false} LvalDefined(e: Expr, defs: map<string, S.Type>)
    ensures LowerLval(e, defs).Ok? <==> LvalShape(e) && LowerExpr(e, defs).Ok?
  {
    match e
    case Name(_) =>
    case Field(arg, _) => LvalDefined(arg, defs);
    case BinApp(tag, a1, _) => LvalDefined(a1, defs);
    case _ =>
  }

  /** An expression list lowers element by element: same length, same order. */
  lemma {:induction false} LowerExprsElementwise(c: Chain<Expr>, defs: map<string, S.Type>)
    ensures LowerExprs(c, defs).Ok? <==>
      forall i :: 0 <= i < |Elements(c)| ==> LowerExpr(Elements(c)[i], defs).Ok?
    ensures LowerExprs(c, defs).Ok? ==>
      |LowerExprs(c, defs).value| == |Elements(c)| &&
      forall i :: 0 <= i < |Elements(c)| ==> LowerExpr(Elements(c)[i], defs) == Ok(LowerExprs(c, defs).value[i])
  {
    match c
    case Nil =>
    case Cons(h, rest) =>
      LowerExprsElementwise(rest, defs);
      assert Elements(c)[0] == h;
      assert forall i :: 1 <= i < |Elements(c)| ==> Elements(c)[i] == Elements(rest)[i - 1];
      if forall i :: 0 <= i < |Elements(c)| ==> LowerExpr(Elements(c)[i], defs).Ok? {
        assert forall i :: 0 <= i < |Elements(rest)| ==> Elements(rest)[i] == Elements(c)[i + 1];
      }
  }

  /** A named-expression list lowers entry by entry, keeping each field name in place. */
  lemma {:induction false} LowerNamedExprsElementwise(c: Chain<NamedExpr>, defs: map<string, S.Type>)
    ensures LowerNamedExprs(c, defs).Ok? ==>
      |LowerNamedExprs(c, defs).value| == |Elements(c)| &&
      forall i :: 0 <= i < |Elements(c)| ==>
        LowerNamedExprs(c, defs).value[i].0 == Elements(c)[i].field &&
        LowerExpr(Elements(c)[i].exp, defs) == Ok(LowerNamedExprs(c, defs).value[i].1)
  {
    match c
    case Nil =>
    case Cons(h, rest) =>
      LowerNamedExprsElementwise(rest, defs);
      assert forall i :: 1 <= i < |Elements(c)| ==> Elements(c)[i] == Elements(rest)[i - 1];
  }

  /** `genExprs` as a loop over the chain, with every element handled. */
  method LowerExprsLoop(c: Chain<Expr>, defs: map<string, S.Type>) returns (r: Result<seq<S.Expr>>)
    ensures r == LowerExprs(c, defs)
  {
    var x := c;
    var acc: seq<S.Expr> := [];
    assert forall rest: seq<S.Expr> :: [] + rest == rest;
    while x.Cons?
      invariant LowerExprs(c, defs) == (if LowerExprs(x, defs).Ok? then Ok(acc + LowerExprs(x, defs).value) else LowerExprs(x, defs))
      decreases x
    {
      var z := LowerExpr(x.hd, defs);
      if z.Err? {
        return Err(z.error);
      }
      assert forall rest: seq<S.Expr> :: acc + ([z.value] + rest) == (acc + [z.value]) + rest;
      acc := acc + [z.value];
      x := x.tl;
    }
    assert acc + [] == acc;
    return Ok(acc);
  }

  /** `genNamedExprs` as a loop over the chain, with every entry handled. */
  method LowerNamedExprsLoop(c: Chain<NamedExpr>, defs: map<string, S.Type>) returns (r: Result<seq<(string, S.Expr)>>)
    ensures r == LowerNamedExprs(c, defs)
  {
    var x := c;
    var acc: seq<(string, S.Expr)> := [];
    assert forall rest: seq<(string, S.Expr)> :: [] + rest == rest;
    while x.Cons?
      invariant LowerNamedExprs(c, defs) ==
        (if LowerNamedExprs(x, defs).Ok? then Ok(acc + LowerNamedExprs(x, defs).value) else LowerNamedExprs(x, defs))
      decreases x
    {
      var z := LowerExpr(x.hd.exp, defs);
      if z.Err? {
        return Err(z.error);
      }
      var entry := (x.hd.field, z.value);
      assert forall rest: seq<(string, S.Expr)> :: acc + ([entry] + rest) == (acc + [entry]) + rest;
      acc := acc + [entry];
      x := x.tl;
    }
    assert acc + [] == acc;
    return Ok(acc);
  }
}
