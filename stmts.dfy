/**
 * Statement lowering (`genStmt` and its helpers), variable lists (`genVar`, `genVars`),
 * named functions (`genFunDecl`) and inline actions (`genAnonFunDecl`).
 *
 * Lowering is pure here: besides the lowered node, each function returns the functions
 * it hoists out of inline actions, in the order the source appends them to the owner's
 * function list or to the static functions. The class in the session module applies them.
 */
module StmtLowering {
  import opened Base
  import opened Terms
  import opened TypeLowering
  import opened ExprLowering
  import S = Syntax

  /** A hoisted inline action: the machine it belongs to (`None` for a static function) and its declaration. */
  datatype Hoist = Hoist(owner: Option<string>, fun: S.FunDecl)

  /** A lowered node together with the functions hoisted while lowering it. */
  datatype Lowered<+T> = Lowered(value: T, hoisted: seq<Hoist>)

  /** `genVar`: a variable keeps its name; a type that does not lower is kept as `None`. */
  function LowerVar(f: NmdTupTypeField, defs: map<string, S.Type>): S.VarDecl
  {
    S.VarDecl(f.name, LowerType(f.ty, defs))
  }

  /** `genVars`: every variable of the chain, in order. */
  function LowerVars(c: Chain<NmdTupTypeField>, defs: map<string, S.Type>): seq<S.VarDecl>
  {
    match c
    case Nil => []
    case Cons(f, rest) => [LowerVar(f, defs)] + LowerVars(rest, defs)
  }

  /** The last node of a non-empty chain. */
  function Last<T>(c: Chain<T>): T
    requires c.Cons?
  {
    if c.tl.Nil? then c.hd else Last(c.tl)
  }

  /** The name of a hoisted action: the owning function's name and `_` when there is one, then the hint. */
  function HoistName(ownerFun: Option<string>, hint: string): string
  {
    (if ownerFun.Some? then ownerFun.value + "_" else "") + hint
  }

  /** The hint of the action of a receive case with trigger `trig`; the source's state name here is always empty. */
  function CaseHint(trig: string): string
  {
    "_case_" + trig
  }

  /** `genStmt`. */
  function LowerStmt(s: Stmt, defs: map<string, S.Type>): Result<Lowered<S.Stmt>>
    decreases s
  {
    match s
    case NewStmt(m, arg) =>
      var a :- LowerOptExpr(arg, defs);
      Ok(Lowered(S.NewStmt(m, a), []))
    case Raise(ev, payload) =>
      var e :- LowerExpr(ev, defs);
      var a :- LowerOptExpr(payload, defs);
      Ok(Lowered(S.Raise(e, a), []))
    case Send(dest, ev, payload) =>
      var d :- LowerExpr(dest, defs);
      var e :- LowerExpr(ev, defs);
      var a :- LowerOptExpr(payload, defs);
      Ok(Lowered(S.Send(d, e, a), []))
    case Monitor(ev, payload) =>
      var e :- LowerExpr(ev, defs);
      var a :- LowerOptExpr(payload, defs);
      Ok(Lowered(S.Monitor(e, a), []))
    case FunStmt(f, args, aout) =>
      var as_ :- LowerExprs(args, defs);
      Ok(Lowered(S.FunStmt(f, as_, aout), []))
    case NulStmt(tag) =>
      Ok(Lowered(if tag == "POP" then S.Pop else S.Skip, []))
    case BinStmt(tag, a1, a2) =>
      var st :- LowerBinStmt(tag, a1, a2, defs);
      Ok(Lowered(st, []))
    case Return(ret) =>
      var e :- LowerOptExpr(ret, defs);
      Ok(Lowered(S.Return(e), []))
    case While(cond, body) =>
      var c :- LowerExpr(cond, defs);
      var b :- LowerStmt(body, defs);
      Ok(Lowered(S.While(c, b.value), b.hoisted))
    case Ite(cond, thn, els) =>
      var c :- LowerExpr(cond, defs);
      var t :- LowerStmt(thn, defs);
      var f :- LowerStmt(els, defs);
      Ok(Lowered(S.Ite(c, t.value, f.value), t.hoisted + f.hoisted))
    case Seq(stmts) =>
      var ss :- LowerStmts(stmts, defs);
      Ok(Lowered(S.SeqStmt(ss.value), ss.hoisted))
    case Receive(cases) =>
      var cs :- LowerCases(cases, defs);
      Ok(Lowered(S.Receive(cs.value), cs.hoisted))
    case Assert(arg) =>
      var e :- LowerExpr(arg, defs);
      Ok(Lowered(S.Assert(e), []))
  }

  /** `genSeqStmt`: every statement of the sequence, in order. */
  function LowerStmts(c: Chain<Stmt>, defs: map<string, S.Type>): Result<Lowered<seq<S.Stmt>>>
    decreases c
  {
    match c
    case Nil => Ok(Lowered([], []))
    case Cons(h, rest) =>
      var x :- LowerStmt(h, defs);
      var xs :- LowerStmts(rest, defs);
      Ok(Lowered([x.value] + xs.value, x.hoisted + xs.hoisted))
  }

  /** `genReceiveStmt` and `genCase`: each case's trigger and the name of its hoisted action. */
  function LowerCases(c: Chain<Case>, defs: map<string, S.Type>): Result<Lowered<seq<(string, string)>>>
    decreases c
  {
    match c
    case Nil => Ok(Lowered([], []))
    case Cons(h, rest) =>
      var trig :- GetString(h.trig);
      var a :- LowerAnon(h.action, CaseHint(trig), defs);
      var xs :- LowerCases(rest, defs);
      Ok(Lowered([(trig, a.value)] + xs.value, a.hoisted + xs.hoisted))
  }

  /**
   * `genAnonFunDecl`: the action's body is lowered (hoisting what it contains first),
   * then one function is hoisted for the action itself; its value is that function's name.
   */
  function LowerAnon(d: AnonFunDecl, hint: string, defs: map<string, S.Type>): Result<Lowered<string>>
    decreases d
  {
    var name := HoistName(d.ownerFun, hint);
    var body :- LowerStmt(d.body, defs);
    var params := if d.envVars.Cons? then [LowerVar(Last(d.envVars), defs)] else [];
    var fd := S.FunDecl(name, params, None, LowerVars(d.locals, defs), body.value, false, false);
    Ok(Lowered(name, body.hoisted + [Hoist(d.owner, fd)]))
  }

  /**
   * `genBinStmt`: the target is lowered as an lvalue first; INSERT takes a tuple of
   * exactly two expressions (key and value); any other operator is unsupported.
   */
  function LowerBinStmt(tag: string, a1: Expr, a2: Expr, defs: map<string, S.Type>): Result<S.Stmt>
  {
    var lv :- LowerLval(a1, defs);
    if tag == "REMOVE" then
      var e :- LowerExpr(a2, defs);
      Ok(S.Remove(lv, e))
    else if tag == "ASSIGN" then
      var e :- LowerExpr(a2, defs);
      Ok(S.Assign(lv, e))
    else if tag == "INSERT" then
      match a2
      case Tuple(Cons(k, Cons(v, rest))) =>
        var key :- LowerExpr(k, defs);
        var value :- LowerExpr(v, defs);
        if rest.Nil? then Ok(S.Insert(lv, key, value)) else Err(MalformedInsert)
      case Tuple(Cons(k, Nil)) =>
        var _ :- LowerExpr(k, defs);
        Err(MalformedInsert)
      case _ => Err(MalformedInsert)
    else Err(UnsupportedOperator(tag))
  }

  /** `genFunDecl`: the body first, then the flags, parameters, return type and locals. */
  function LowerFunDecl(d: FunDecl, defs: map<string, S.Type>): Result<Lowered<S.FunDecl>>
  {
    var body :- LowerStmt(d.body, defs);
    var ret := if d.ret.Some? then Some(LowerType(d.ret.value, defs)) else None;
    var fd := S.FunDecl(d.name, LowerVars(d.params, defs), ret, LowerVars(d.locals, defs), body.value,
                        d.kind == "MODEL", d.kind == "PURE");
    Ok(Lowered(fd, body.hoisted))
  }

  /** Reference definition: a statement with no receive anywhere inside it. */
  predicate NoReceive(s: Stmt)
    decreases s
  {
    match s
    case While(_, body) => NoReceive(body)
    case Ite(_, thn, els) => NoReceive(thn) && NoReceive(els)
    case Seq(stmts) => NoReceiveIn(stmts)
    case Receive(_) => false
    case _ => true
  }

  predicate NoReceiveIn(c: Chain<Stmt>)
    decreases c
  {
    match c
    case Nil => true
    case Cons(h, rest) => NoReceive(h) && NoReceiveIn(rest)
  }

  /** Only receive cases hoist functions: a statement without a receive hoists nothing. */
  lemma {:induction false} NoReceiveNoHoist(s: Stmt, defs: map<string, S.Type>)
    requires NoReceive(s) && LowerStmt(s, defs).Ok?
    ensures LowerStmt(s, defs).value.hoisted == []
    decreases s
  {
    match s
    case While(_, body) => NoReceiveNoHoist(body, defs);
    case Ite(_, thn, els) => NoReceiveNoHoist(thn, defs); NoReceiveNoHoist(els, defs);
    case Seq(stmts) => NoReceiveInNoHoist(stmts, defs);
    case _ =>
  }

  lemma {:induction false} NoReceiveInNoHoist(c: Chain<Stmt>, defs: map<string, S.Type>)
    requires NoReceiveIn(c) && LowerStmts(c, defs).Ok?
    ensures LowerStmts(c, defs).value.hoisted == []
    decreases c
  {
    match c
    case Nil =>
    case Cons(h, rest) =>
      NoReceiveNoHoist(h, defs);
      NoReceiveInNoHoist(rest, defs);
  }

  /** The last node of a chain is the last of its elements. */
  lemma {:induction false} LastIsLastElement<T>(c: Chain<T>)
    requires c.Cons?
    ensures |Elements(c)| >= 1 && Last(c) == Elements(c)[|Elements(c)| - 1]
  {
    if c.tl.Cons? {
      LastIsLastElement(c.tl);
    }
  }

  /** A variable list lowers variable by variable: same length, same names, same order. */
  lemma {:induction false} LowerVarsElementwise(c: Chain<NmdTupTypeField>, defs: map<string, S.Type>)
    ensures |LowerVars(c, defs)| == |Elements(c)|
    ensures forall i :: 0 <= i < |Elements(c)| ==>
      LowerVars(c, defs)[i].name == Elements(c)[i].name && LowerVars(c, defs)[i].ty == LowerType(Elements(c)[i].ty, defs)
  {
    match c
    case Nil =>
    case Cons(f, rest) =>
      LowerVarsElementwise(rest, defs);
      assert forall i :: 1 <= i < |Elements(c)| ==> Elements(c)[i] == Elements(rest)[i - 1];
  }

  /**
   * Hoisting an action: the value is the hoisted function's name (the owner function's
   * prefix, then the hint), and exactly one function is hoisted after those of the
   * body: owned by the action's machine, with the last environment variable as its only
   * parameter (none without environment variables), no return type, and the body lowered.
   */
  lemma AnonHoist(d: AnonFunDecl, hint: string, defs: map<string, S.Type>)
    requires LowerAnon(d, hint, defs).Ok?
    ensures var r := LowerAnon(d, hint, defs).value;
      var hs := r.hoisted;
      var envs := Elements(d.envVars);
      LowerStmt(d.body, defs).Ok? &&
      r.value == HoistName(d.ownerFun, hint) &&
      |hs| == |LowerStmt(d.body, defs).value.hoisted| + 1 &&
      hs[..|hs| - 1] == LowerStmt(d.body, defs).value.hoisted &&
      hs[|hs| - 1].owner == d.owner &&
      hs[|hs| - 1].fun.name == r.value &&
      hs[|hs| - 1].fun.body == LowerStmt(d.body, defs).value.value &&
      hs[|hs| - 1].fun.ret.None? &&
      hs[|hs| - 1].fun.locals == LowerVars(d.locals, defs) &&
      (envs == [] ==> hs[|hs| - 1].fun.params == []) &&
      (envs != [] ==> hs[|hs| - 1].fun.params == [LowerVar(envs[|envs| - 1], defs)])
  {
    if d.envVars.Cons? {
      LastIsLastElement(d.envVars);
    }
    var body := LowerStmt(d.body, defs).value;
    var hs := LowerAnon(d, hint, defs).value.hoisted;
    assert hs[..|hs| - 1] == body.hoisted;
  }

  /** The hoisted name has the owner function's name and `_` as prefix when there is one, and always ends with the hint. */
  lemma HoistNameShape(ownerFun: Option<string>, hint: string)
    ensures ownerFun.None? ==> HoistName(ownerFun, hint) == hint
    ensures ownerFun.Some? ==> HoistName(ownerFun, hint)[..|ownerFun.value| + 1] == ownerFun.value + "_"
    ensures |HoistName(ownerFun, hint)| >= |hint| && HoistName(ownerFun, hint)[|HoistName(ownerFun, hint)| - |hint|..] == hint
  {
  }

  /** With the same owner function, distinct hints give distinct hoisted names. */
  lemma HoistNameInjective(ownerFun: Option<string>, h1: string, h2: string)
    requires h1 != h2
    ensures HoistName(ownerFun, h1) != HoistName(ownerFun, h2)
  {
    var p := if ownerFun.Some? then ownerFun.value + "_" else "";
    assert h1 == HoistName(ownerFun, h1)[|p|..];
    assert h2 == HoistName(ownerFun, h2)[|p|..];
  }

  /** Distinct triggers give distinct case hints. */
  lemma CaseHintInjective(t1: string, t2: string)
    requires t1 != t2
    ensures CaseHint(t1) != CaseHint(t2)
  {
    assert t1 == CaseHint(t1)[6..];
    assert t2 == CaseHint(t2)[6..];
  }

  /**
   * A receive lowers case by case: one entry per case, in order, pairing the case's
   * trigger with the name of the function hoisted for its action.
   */
  lemma {:induction false} LowerCasesElementwise(c: Chain<Case>, defs: map<string, S.Type>)
    requires LowerCases(c, defs).Ok?
    ensures var r := LowerCases(c, defs).value;
      |r.value| == |Elements(c)| &&
      forall i :: 0 <= i < |Elements(c)| ==>
        GetString(Elements(c)[i].trig) == Ok(r.value[i].0) &&
        r.value[i].1 == HoistName(Elements(c)[i].action.ownerFun, CaseHint(r.value[i].0))
    decreases c
  {
    match c
    case Nil =>
    case Cons(h, rest) =>
      var trig := GetString(h.trig).value;
      var a := LowerAnon(h.action, CaseHint(trig), defs).value;
      AnonHoist(h.action, CaseHint(trig), defs);
      LowerCasesElementwise(rest, defs);
      var xs := LowerCases(rest, defs).value;
      var r := LowerCases(c, defs).value;
      assert r.value == [(trig, a.value)] + xs.value;
      assert Elements(c) == [h] + Elements(rest);
      forall i | 1 <= i < |Elements(c)|
        ensures GetString(Elements(c)[i].trig) == Ok(r.value[i].0)
        ensures r.value[i].1 == HoistName(Elements(c)[i].action.ownerFun, CaseHint(r.value[i].0))
      {
        assert Elements(c)[i] == Elements(rest)[i - 1];
        assert r.value[i] == xs.value[i - 1];
      }
  }

  /** The function named by each case's entry is among the hoisted functions. */
  /** Every action name in `vs` is the name of some function in `hs`. */
  ghost predicate NamesHoisted(hs: seq<Hoist>, vs: seq<(string, string)>)
  {
    forall i :: 0 <= i < |vs| ==> exists j :: 0 <= j < |hs| && hs[j].fun.name == vs[i].1
  }

  lemma NamesHoistedCons(ah: seq<Hoist>, v: (string, string), xh: seq<Hoist>, xv: seq<(string, string)>)
    requires |ah| > 0 && ah[|ah| - 1].fun.name == v.1
    requires NamesHoisted(xh, xv)
    ensures NamesHoisted(ah + xh, [v] + xv)
  {
    var hs, vs := ah + xh, [v] + xv;
    assert hs[|ah| - 1].fun.name == vs[0].1;
    forall i | 1 <= i < |vs|
      ensures exists j :: 0 <= j < |hs| && hs[j].fun.name == vs[i].1
    {
      assert vs[i] == xv[i - 1];
      var j :| 0 <= j < |xh| && xh[j].fun.name == xv[i - 1].1;
      assert hs[|ah| + j] == xh[j];
    }
  }

  lemma {:induction false} LowerCasesHoisted(c: Chain<Case>, defs: map<string, S.Type>)
    requires LowerCases(c, defs).Ok?
    ensures var r := LowerCases(c, defs).value;
      |r.hoisted| >= |r.value| && NamesHoisted(r.hoisted, r.value)
    decreases c
  {
    match c
    case Nil =>
    case Cons(h, rest) =>
      var trig := GetString(h.trig).value;
      var a := LowerAnon(h.action, CaseHint(trig), defs).value;
      AnonHoist(h.action, CaseHint(trig), defs);
      LowerCasesHoisted(rest, defs);
      var xs := LowerCases(rest, defs).value;
      var r := LowerCases(c, defs).value;
      assert r.hoisted == a.hoisted + xs.hoisted;
      assert r.value == [(trig, a.value)] + xs.value;
      NamesHoistedCons(a.hoisted, (trig, a.value), xs.hoisted, xs.value);
      assert NamesHoisted(r.hoisted, r.value);
  }

  /** Cases with pairwise distinct triggers, in one owner function, get pairwise distinct action names. */
  lemma ReceiveNamesDistinct(c: Chain<Case>, defs: map<string, S.Type>, ownerFun: Option<string>)
    requires LowerCases(c, defs).Ok?
    requires forall i :: 0 <= i < |Elements(c)| ==> Elements(c)[i].action.ownerFun == ownerFun
    requires forall i, j :: 0 <= i < j < |Elements(c)| ==> Elements(c)[i].trig != Elements(c)[j].trig
    ensures var names := LowerCases(c, defs).value.value;
      forall i, j :: 0 <= i < j < |names| ==> names[i].1 != names[j].1
  {
    LowerCasesElementwise(c, defs);
    var names := LowerCases(c, defs).value.value;
    forall i, j | 0 <= i < j < |names|
      ensures names[i].1 != names[j].1
    {
      assert Elements(c)[i].trig == StringCnst(names[i].0);
      assert Elements(c)[j].trig == StringCnst(names[j].0);
      CaseHintInjective(names[i].0, names[j].0);
      HoistNameInjective(ownerFun, CaseHint(names[i].0), CaseHint(names[j].0));
    }
  }

  /** A statement sequence lowers statement by statement, one lowered statement per statement, in order. */
  lemma {:induction false} LowerStmtsElementwise(c: Chain<Stmt>, defs: map<string, S.Type>)
    ensures LowerStmts(c, defs).Ok? <==>
      forall i :: 0 <= i < |Elements(c)| ==> LowerStmt(Elements(c)[i], defs).Ok?
    ensures LowerStmts(c, defs).Ok? ==>
      |LowerStmts(c, defs).value.value| == |Elements(c)| &&
      forall i :: 0 <= i < |Elements(c)| ==> LowerStmt(Elements(c)[i], defs).value.value == LowerStmts(c, defs).value.value[i]
    decreases c
  {
    match c
    case Nil =>
    case Cons(h, rest) =>
      LowerStmtsElementwise(rest, defs);
      assert Elements(c)[0] == h;
      assert forall i :: 1 <= i < |Elements(c)| ==> Elements(c)[i] == Elements(rest)[i - 1];
      if forall i :: 0 <= i < |Elements(c)| ==> LowerStmt(Elements(c)[i], defs).Ok? {
        assert forall i :: 0 <= i < |Elements(rest)| ==> Elements(rest)[i] == Elements(c)[i + 1];
      }
  }

  /**
   * INSERT succeeds exactly when the target is an lvalue and the value operand is a
   * tuple of exactly two expressions that both lower; the result inserts the first
   * (the key) and the second (the value). Any other shape yields no statement.
   */
  lemma InsertArity(a1: Expr, a2: Expr, defs: map<string, S.Type>)
    ensures LowerBinStmt("INSERT", a1, a2, defs).Ok? <==>
      LowerLval(a1, defs).Ok? && a2.Tuple? && |Elements(a2.body)| == 2 &&
      LowerExpr(Elements(a2.body)[0], defs).Ok? && LowerExpr(Elements(a2.body)[1], defs).Ok?
    ensures LowerBinStmt("INSERT", a1, a2, defs).Ok? ==>
      LowerBinStmt("INSERT", a1, a2, defs).value ==
        S.Insert(LowerLval(a1, defs).value, LowerExpr(Elements(a2.body)[0], defs).value, LowerExpr(Elements(a2.body)[1], defs).value)
    ensures LowerLval(a1, defs).Ok? && !(a2.Tuple? && |Elements(a2.body)| >= 1) ==>
      LowerBinStmt("INSERT", a1, a2, defs) == Err(MalformedInsert)
    ensures (LowerLval(a1, defs).Ok? && a2.Tuple? && |Elements(a2.body)| >= 1 && |Elements(a2.body)| != 2 &&
             forall i :: 0 <= i < |Elements(a2.body)| && i < 2 ==> LowerExpr(Elements(a2.body)[i], defs).Ok?) ==>
      LowerBinStmt("INSERT", a1, a2, defs) == Err(MalformedInsert)
  {
    if a2.Tuple? && a2.body.Cons? {
      var es := Elements(a2.body);
      assert es == [a2.body.hd] + Elements(a2.body.tl);
      assert es[0] == a2.body.hd;
      if a2.body.tl.Cons? {
        var rest := a2.body.tl.tl;
        assert Elements(a2.body.tl) == [a2.body.tl.hd] + Elements(rest);
        assert es[1] == a2.body.tl.hd;
        if rest.Cons? {
          assert |Elements(a2.body)| == 2 + |Elements(rest)| > 2;
        }
      }
    }
  }

  /** REMOVE and ASSIGN pair the lvalue with the lowered operand; any unrecognised tag is unsupported. */
  lemma BinStmtDispatch(tag: string, a1: Expr, a2: Expr, defs: map<string, S.Type>)
    ensures LowerLval(a1, defs).Err? ==> LowerBinStmt(tag, a1, a2, defs) == Err(LowerLval(a1, defs).error)
    ensures tag == "REMOVE" && LowerLval(a1, defs).Ok? && LowerExpr(a2, defs).Ok? ==>
      LowerBinStmt(tag, a1, a2, defs) == Ok(S.Remove(LowerLval(a1, defs).value, LowerExpr(a2, defs).value))
    ensures tag == "ASSIGN" && LowerLval(a1, defs).Ok? && LowerExpr(a2, defs).Ok? ==>
      LowerBinStmt(tag, a1, a2, defs) == Ok(S.Assign(LowerLval(a1, defs).value, LowerExpr(a2, defs).value))
    ensures tag !in {"REMOVE", "ASSIGN", "INSERT"} && LowerLval(a1, defs).Ok? ==>
      LowerBinStmt(tag, a1, a2, defs) == Err(UnsupportedOperator(tag))
  {
  }

  /**
   * A function keeps its name, its body is its lowered body, its parameters and locals
   * are its variables lowered one by one, its return type is the lowered declared type
   * (present exactly when declared), and it is a model or pure as its kind says, never both.
   */
  lemma FunDeclShape(d: FunDecl, defs: map<string, S.Type>)
    requires LowerFunDecl(d, defs).Ok?
    ensures var r := LowerFunDecl(d, defs).value;
      LowerStmt(d.body, defs).Ok? &&
      r.hoisted == LowerStmt(d.body, defs).value.hoisted &&
      r.value.body == LowerStmt(d.body, defs).value.value &&
      r.value.name == d.name &&
      (r.value.ret.Some? <==> d.ret.Some?) &&
      (d.ret.Some? ==> r.value.ret == Some(LowerType(d.ret.value, defs))) &&
      !(r.value.isModel && r.value.isPure) &&
      (r.value.isModel <==> d.kind == "MODEL") &&
      (r.value.isPure <==> d.kind == "PURE")
    ensures var r := LowerFunDecl(d, defs).value.value;
      var ps, ls := Elements(d.params), Elements(d.locals);
      |r.params| == |ps| && |r.locals| == |ls| &&
      (forall i :: 0 <= i < |ps| ==> r.params[i].name == ps[i].name && r.params[i].ty == LowerType(ps[i].ty, defs)) &&
      (forall i :: 0 <= i < |ls| ==> r.locals[i].name == ls[i].name && r.locals[i].ty == LowerType(ls[i].ty, defs))
  {
    LowerVarsElementwise(d.params, defs);
    LowerVarsElementwise(d.locals, defs);
  }

  /** `genVars` as a loop over the chain, with every variable handled. */
  method LowerVarsLoop(c: Chain<NmdTupTypeField>, defs: map<string, S.Type>) returns (r: seq<S.VarDecl>)
    ensures r == LowerVars(c, defs)
  {
    var x := c;
    r := [];
    assert forall rest: seq<S.VarDecl> :: [] + rest == rest;
    while x.Cons?
      invariant LowerVars(c, defs) == r + LowerVars(x, defs)
      decreases x
    {
      var d := LowerVar(x.hd, defs);
      assert r + ([d] + LowerVars(x.tl, defs)) == (r + [d]) + LowerVars(x.tl, defs);
      r := r + [d];
      x := x.tl;
    }
    assert r + [] == r;
  }

  /** The loop of `genAnonFunDecl` that walks the environment variables to the last one. */
  method LastLoop<T>(c: Chain<T>) returns (r: T)
    requires c.Cons?
    ensures r == Elements(c)[|Elements(c)| - 1]
  {
    var x := c;
    while x.tl.Cons?
      invariant x.Cons? && Last(x) == Last(c)
      decreases x
    {
      x := x.tl;
    }
    r := x.hd;
    LastIsLastElement(c);
  }

  /** `genSeqStmt` as a loop over the sequence, with every statement handled. */
  method LowerStmtsLoop(c: Chain<Stmt>, defs: map<string, S.Type>) returns (r: Result<Lowered<seq<S.Stmt>>>)
    ensures r == LowerStmts(c, defs)
  {
    var x := c;
    var acc: seq<S.Stmt> := [];
    var hs: seq<Hoist> := [];
    assert forall rest: seq<S.Stmt> :: [] + rest == rest;
    assert forall rest: seq<Hoist> :: [] + rest == rest;
    while x.Cons?
      invariant LowerStmts(c, defs) ==
        (if LowerStmts(x, defs).Ok?
         then Ok(Lowered(acc + LowerStmts(x, defs).value.value, hs + LowerStmts(x, defs).value.hoisted))
         else LowerStmts(x, defs))
      decreases x
    {
      var z := LowerStmt(x.hd, defs);
      if z.Err? {
        return Err(z.error);
      }
      assert forall rest: seq<S.Stmt> :: acc + ([z.value.value] + rest) == (acc + [z.value.value]) + rest;
      assert forall rest: seq<Hoist> :: hs + (z.value.hoisted + rest) == (hs + z.value.hoisted) + rest;
      acc := acc + [z.value.value];
      hs := hs + z.value.hoisted;
      x := x.tl;
    }
    assert acc + [] == acc && hs + [] == hs;
    return Ok(Lowered(acc, hs));
  }

  /** `genReceiveStmt` as a loop that advances through the cases, with every case handled. */
  method LowerReceiveLoop(c: Chain<Case>, defs: map<string, S.Type>) returns (r: Result<Lowered<S.Stmt>>)
    ensures r == LowerStmt(Receive(c), defs)
  {
    var x := c;
    var acc: seq<(string, string)> := [];
    var hs: seq<Hoist> := [];
    assert forall rest: seq<(string, string)> :: [] + rest == rest;
    assert forall rest: seq<Hoist> :: [] + rest == rest;
    while x.Cons?
      invariant LowerCases(c, defs) ==
        (if LowerCases(x, defs).Ok?
         then Ok(Lowered(acc + LowerCases(x, defs).value.value, hs + LowerCases(x, defs).value.hoisted))
         else LowerCases(x, defs))
      decreases x
    {
      var trig := GetString(x.hd.trig);
      if trig.Err? {
        return Err(trig.error);
      }
      var a := LowerAnon(x.hd.action, CaseHint(trig.value), defs);
      if a.Err? {
        return Err(a.error);
      }
      var entry := (trig.value, a.value.value);
      assert forall rest: seq<(string, string)> :: acc + ([entry] + rest) == (acc + [entry]) + rest;
      assert forall rest: seq<Hoist> :: hs + (a.value.hoisted + rest) == (hs + a.value.hoisted) + rest;
      acc := acc + [entry];
      hs := hs + a.value.hoisted;
      x := x.tl;
    }
    assert acc + [] == acc && hs + [] == hs;
    return Ok(Lowered(S.Receive(acc), hs));
  }
}
