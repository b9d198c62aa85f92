/**
 * The pass as it is written, where that differs from what it evidently means to do.
 * Each member here models one construct of the source literally; the lemma beside it
 * exhibits an input on which the literal reading goes wrong. The rest of the model
 * uses the corrected definitions (named in each doc comment).
 */
module AsWritten {
  import opened Base
  import opened Terms
  import opened Names
  import opened TypeLowering
  import opened TypeDefs
  import opened ExprLowering
  import opened StmtLowering
  import opened DeclLowering
  import opened Tables
  import opened Session
  import S = Syntax

  // ---------------------------------------------------------------------------
  // The `do { ... x = x.tl; } while (x.tl != NIL)` loops over NIL-terminated chains.
  // Corrected: LowerVarsLoop, LowerExprsLoop, LowerNamedExprsLoop, LowerStmtsLoop,
  // LowerTupTypeLoop and LowerNmdTupTypeLoop, which visit every element.
  // ---------------------------------------------------------------------------

  /**
   * The elements such a loop collects; `None` when it dereferences the tail of NIL.
   * The body runs on the head, moves to the tail, and then tests the tail of the tail.
   */
  function DoWhileCollect<T>(c: Chain<T>): Option<seq<T>>
    decreases c
  {
    match c
    case Nil => None
    case Cons(h, t) =>
      match t
      case Nil => None
      case Cons(_, tt) =>
        if tt.Nil? then Some([h])
        else
          var rest :- DoWhileCollect(t);
          Some([h] + rest)
  }

  /** On a chain of two or more elements the loop collects all but the last one. */
  lemma {:induction false} DoWhileDropsLast<T>(c: Chain<T>)
    requires |Elements(c)| >= 2
    ensures DoWhileCollect(c) == Some(Elements(c)[..|Elements(c)| - 1])
    decreases c
  {
    var t := c.tl;
    if t.tl.Cons? {
      DoWhileDropsLast(t);
      var es := Elements(c);
      assert es == [c.hd] + Elements(t);
      assert [c.hd] + Elements(t)[..|Elements(t)| - 1] == es[..|es| - 1];
    }
  }

  /** A one-element chain makes the loop dereference NIL; a two-element chain loses its second element. */
  lemma DoWhileCounterexamples()
    ensures DoWhileCollect(ChainOf([1])) == None
    ensures DoWhileCollect(ChainOf([1, 2])) == Some([1])
    ensures Elements(ChainOf([1, 2])) == [1, 2]
  {
    assert [1][1..] == [];
    assert [1, 2][1..] == [2];
    assert [2][1..] == [];
  }

  // ---------------------------------------------------------------------------
  // `genReceiveStmt`: the loop variable `@case` is never reassigned.
  // Corrected: LowerReceiveLoop, which walks the cases.
  // ---------------------------------------------------------------------------

  /** The loop's variables: the case it looks at and the cases lowered so far. */
  datatype ReceiveLoop = ReceiveLoop(current: Chain<Case>, collected: seq<Case>)

  /** The loop's variables after `n` iterations, as written. */
  function ReceiveAfter(c: Chain<Case>, n: nat): (r: ReceiveLoop)
    requires c.Cons?
    ensures r.current.Cons?
  {
    if n == 0 then ReceiveLoop(c, [])
    else
      var st := ReceiveAfter(c, n - 1);
      ReceiveLoop(st.current, st.collected + [st.current.hd])
  }

  /** The loop never moves on: after any number of iterations it holds that many copies of the first case. */
  lemma {:induction false} ReceiveNeverAdvances(c: Chain<Case>, n: nat)
    requires c.Cons?
    ensures ReceiveAfter(c, n).current == c
    ensures |ReceiveAfter(c, n).collected| == n
    ensures forall i :: 0 <= i < n ==> ReceiveAfter(c, n).collected[i] == c.hd
  {
    if n > 0 {
      ReceiveNeverAdvances(c, n - 1);
    }
  }

  /** With two or more cases the exit test fails after every iteration: the loop does not terminate. */
  lemma ReceiveDiverges(c: Chain<Case>, n: nat)
    requires c.Cons? && c.tl.Cons?
    ensures ReceiveAfter(c, n).current.tl.Cons?
  {
    ReceiveNeverAdvances(c, n);
  }

  // ---------------------------------------------------------------------------
  // `genNulApp`: FALSE produces the constant true.
  // Corrected: ExprLowering.LowerNulApp.
  // ---------------------------------------------------------------------------

  /** `genNulApp` as written. */
  function NulAppAsWritten(op: Cnst): Result<S.Expr>
  {
    if op == Symbol("FALSE") then Ok(S.ConstBool(true)) else LowerNulApp(op)
  }

  /** As written, FALSE and TRUE lower to the same constant; corrected, they differ. */
  lemma FalseReadsAsTrue()
    ensures NulAppAsWritten(Symbol("FALSE")) == NulAppAsWritten(Symbol("TRUE")) == Ok(S.ConstBool(true))
    ensures LowerNulApp(Symbol("FALSE")) != LowerNulApp(Symbol("TRUE"))
  {
  }

  // ---------------------------------------------------------------------------
  // `genStateDecl`: the exit action is hoisted under the `_entry` suffix.
  // Corrected: DeclLowering.LowerStateDecl (`_exit`), see StateDeclShape.
  // ---------------------------------------------------------------------------

  /** `genStateDecl` as written. */
  function StateDeclAsWritten(st: StateDecl, transitions: map<string, seq<S.TransDecl>>, dos: map<string, seq<S.DoDecl>>,
                              defs: map<string, S.Type>): Result<Lowered<S.StateDecl>>
  {
    var name := FlattenName(st.name);
    var entry :- LowerStateAction(st.entryAction, name + "_entry", defs);
    var exit :- LowerStateAction(st.exitFun, name + "_entry", defs);
    var key := StateKey(st.owner, name);
    Ok(Lowered(S.StateDecl(name, st.temperature, entry.value, exit.value, ListAt(transitions, key), ListAt(dos, key)),
               entry.hoisted + exit.hoisted))
  }

  /**
   * As written, a state with inline entry and exit actions names both actions alike, so
   * two functions of the same name are hoisted; corrected, the names differ.
   */
  lemma ExitNamedAsEntry(st: StateDecl, transitions: map<string, seq<S.TransDecl>>, dos: map<string, seq<S.DoDecl>>,
                         defs: map<string, S.Type>)
    requires st.entryAction.AnonAction? && st.exitFun.AnonAction?
    requires st.entryAction.fn.ownerFun == st.exitFun.fn.ownerFun
    requires StateDeclAsWritten(st, transitions, dos, defs).Ok?
    ensures var r := StateDeclAsWritten(st, transitions, dos, defs).value;
      r.value.entry.Some? && r.value.entry == r.value.exit
    ensures LowerStateDecl(st, transitions, dos, defs).Ok? ==>
      var r := LowerStateDecl(st, transitions, dos, defs).value;
      r.value.entry != r.value.exit
  {
    if LowerStateDecl(st, transitions, dos, defs).Ok? {
      StateDeclShape(st, transitions, dos, defs);
    }
  }

  // ---------------------------------------------------------------------------
  // `genDoDecl`: a call-style handler is built but `null` is returned.
  // Corrected: DeclLowering.LowerDoDecl, see HandlerShape.
  // ---------------------------------------------------------------------------

  /**
   * `genDoDecl` as written: DEFER and IGNORE give their handler; an inline action is
   * hoisted (its hint reads the state's qualified name as a plain string, which yields
   * the empty string) and nothing is returned; a named action returns nothing either.
   */
  function DoDeclAsWritten(d: DoDecl, defs: map<string, S.Type>): Result<Lowered<Option<S.DoDecl>>>
  {
    var trig :- Trig(d.trig);
    match d.action
    case DeferAction => Ok(Lowered(Some(S.Defer(trig)), []))
    case IgnoreAction => Ok(Lowered(Some(S.Ignore(trig)), []))
    case AnonDo(fn) =>
      var a :- LowerAnon(fn, "" + "_do_" + trig, defs);
      Ok(Lowered(None, a.hoisted))
    case NamedDo(_) => Ok(Lowered(None, []))
  }

  /**
   * As written, an inline do action is hoisted but no handler refers to it, and a named
   * one is dropped; corrected, both give a handler that calls the action.
   */
  lemma CallHandlersLost(d: DoDecl, defs: map<string, S.Type>)
    requires d.action.AnonDo? || d.action.NamedDo?
    requires DoDeclAsWritten(d, defs).Ok?
    ensures DoDeclAsWritten(d, defs).value.value.None?
    ensures d.action.AnonDo? ==> DoDeclAsWritten(d, defs).value.hoisted != []
    ensures LowerDoDecl(d, defs).Ok? ==> LowerDoDecl(d, defs).value.value.CallDo?
  {
    if d.action.AnonDo? {
      var trig := Trig(d.trig).value;
      AnonHoist(d.action.fn, "" + "_do_" + trig, defs);
    }
  }

  /**
   * As written, the hint of an inline do action ignores the state it belongs to, so two
   * states of one function owner handling the same trigger hoist two functions of the
   * same name; corrected, the flattened state name is part of the hint and the hoisted
   * names differ.
   */
  lemma DoHintCollides(d1: DoDecl, d2: DoDecl, defs: map<string, S.Type>)
    requires d1.action.AnonDo? && d2.action.AnonDo?
    requires d1.action.fn.ownerFun == d2.action.fn.ownerFun && Trig(d1.trig) == Trig(d2.trig)
    requires DoDeclAsWritten(d1, defs).Ok? && DoDeclAsWritten(d2, defs).Ok?
    ensures var h1, h2 := DoDeclAsWritten(d1, defs).value.hoisted, DoDeclAsWritten(d2, defs).value.hoisted;
      h1 != [] && h2 != [] && h1[|h1| - 1].fun.name == h2[|h2| - 1].fun.name
    ensures (FlattenName(d1.src.name) != FlattenName(d2.src.name) &&
             LowerDoDecl(d1, defs).Ok? && LowerDoDecl(d2, defs).Ok?) ==>
      LowerDoDecl(d1, defs).value.value.action != LowerDoDecl(d2, defs).value.value.action
  {
    var trig := Trig(d1.trig).value;
    AnonHoist(d1.action.fn, "" + "_do_" + trig, defs);
    AnonHoist(d2.action.fn, "" + "_do_" + trig, defs);
    if FlattenName(d1.src.name) != FlattenName(d2.src.name) && LowerDoDecl(d1, defs).Ok? && LowerDoDecl(d2, defs).Ok? {
      var hint1, hint2 := DoHint(d1.src.name, trig), DoHint(d2.src.name, trig);
      AnonHoist(d1.action.fn, hint1, defs);
      AnonHoist(d2.action.fn, hint2, defs);
      DoHintInjective(d1.src.name, d2.src.name, trig);
      HoistNameInjective(d1.action.fn.ownerFun, hint1, hint2);
    }
  }

  // ---------------------------------------------------------------------------
  // `genEventDecl`: the card is guarded by the payload type's NIL test.
  // Corrected: DeclLowering.LowerEventDecl, see EventDeclShape.
  // ---------------------------------------------------------------------------

  /** The card slot of an event as written: absent, present but null, or a card. */
  datatype CardSlot = NoCard | NullCard | CardOf(card: S.Card)

  /** The card `genEventDecl` produces as written. */
  function EventCardAsWritten(d: EventDecl): Result<CardSlot>
  {
    if d.ty.None? then Ok(NoCard)
    else match d.card
      case None => Ok(NullCard)
      case Some(q) =>
        var c :- LowerQueueConstraint(q);
        Ok(CardOf(c))
  }

  /**
   * As written, an event with a card and no payload loses its card, and one with a
   * payload and no card gets a null card; corrected, the card is present exactly when declared.
   */
  lemma EventCardMisplaced(d: EventDecl, defs: map<string, S.Type>)
    ensures d.ty.None? ==> EventCardAsWritten(d) == Ok(NoCard)
    ensures d.ty.Some? && d.card.None? ==> EventCardAsWritten(d) == Ok(NullCard)
    ensures LowerEventDecl(d, defs).Ok? ==> (LowerEventDecl(d, defs).value.card.Some? <==> d.card.Some?)
  {
    EventDeclShape(d, defs);
  }

  /** A concrete event: `e` with an assert-max card of 1 and no payload. */
  lemma EventCardCounterexample(defs: map<string, S.Type>)
    ensures var d := EventDecl("e", Some(AssertMaxInstances(RealCnst(1, 1))), None);
      EventCardAsWritten(d) == Ok(NoCard) && LowerEventDecl(d, defs) == Ok(S.EventDecl("e", Some(S.AssertMax(1)), None))
  {
  }

  // ---------------------------------------------------------------------------
  // `genFSExprs`: the key handlers are filed under reads the state's qualified name as
  // a plain string, which yields the empty string.
  // Corrected: DeclLowering.GroupKey, see StateKeyInjective and DosGroupedByState.
  // ---------------------------------------------------------------------------

  /** The key a do-handler or transition is filed under, as written. */
  function GroupKeyAsWritten(src: StateRef): string
  {
    StateKey(src.owner, "")
  }

  /**
   * As written, all states of a machine share one key, and it is not the key
   * `genStateDecl` looks up for a state with a name; corrected, the keys are those looked up.
   */
  lemma GroupKeyIgnoresState(a: StateRef, b: StateRef)
    requires a.owner == b.owner && '+' !in a.owner
    requires FlattenName(a.name) != ""
    ensures GroupKeyAsWritten(a) == GroupKeyAsWritten(b)
    ensures GroupKeyAsWritten(a) != StateKey(a.owner, FlattenName(a.name))
    ensures GroupKey(a) == StateKey(a.owner, FlattenName(a.name))
  {
    if GroupKeyAsWritten(a) == StateKey(a.owner, FlattenName(a.name)) {
      StateKeyInjective(a.owner, "", a.owner, FlattenName(a.name));
    }
  }

  // ---------------------------------------------------------------------------
  // `addTypeDefs`: `iter` is set whenever a name is still undefined at its visit, so a
  // definition that never resolves keeps the loop running.
  // Corrected: FSharpExpGen.AddTypeDefs with Settle and Resolve, see ResolveSound.
  // ---------------------------------------------------------------------------

  /** The flag a pass sets as written: some definition's name was undefined when it was visited. */
  function IterAsWritten(defs: TypeTable, tds: seq<TypeDef>): bool
    decreases |tds|
  {
    if tds == [] then false
    else
      var front := tds[..|tds| - 1];
      IterAsWritten(defs, front) || tds[|tds| - 1].name !in Pass(defs, front)
  }

  /** A name still undefined after a pass was undefined when visited, so the flag is set. */
  lemma {:induction false} IterSetWhilePending(defs: TypeTable, tds: seq<TypeDef>)
    requires Pending(Pass(defs, tds), tds) != {}
    ensures IterAsWritten(defs, tds)
    decreases |tds|
  {
    var n :| n in Pending(Pass(defs, tds), tds);
    var i :| 0 <= i < |tds| && tds[i].name == n;
    var front, last := tds[..|tds| - 1], tds[|tds| - 1];
    PassPrefixExtends(defs, tds, |tds| - 1);
    if i == |tds| - 1 {
      assert n !in Pass(defs, front);
    } else {
      assert front[i] == tds[i];
      assert n in TypeDefs.Names(front);
      PassExtends(defs, front);
      assert n in Pending(Pass(defs, front), front);
      IterSetWhilePending(defs, front);
    }
  }

  /**
   * When a pass adds nothing while a name is pending, the next pass starts from the same
   * table and sets the flag again: as written, the loop never ends.
   */
  lemma TypeDefLoopDiverges(defs: TypeTable, tds: seq<TypeDef>)
    requires Pending(defs, tds) != {}
    requires Pass(defs, tds).Keys == defs.Keys
    ensures Pass(defs, tds) == defs
    ensures IterAsWritten(defs, tds)
  {
    PassStuck(defs, tds);
    IterSetWhilePending(defs, tds);
  }

  /** A concrete input: `T` defined as the undefined `U`; corrected, the undefined name is reported. */
  lemma TypeDefCounterexample()
    ensures var tds := [TypeDef("T", NameType("U"))];
      Pass(map[], tds) == map[] && IterAsWritten(map[], tds) &&
      Resolve(map[], tds) == Err(UnresolvedTypeName("T"))
  {
    var tds := [TypeDef("T", NameType("U"))];
    assert tds[..0] == [];
    assert tds[0].name == "T";
    assert "T" in TypeDefs.Names(tds);
    assert forall n :: n in TypeDefs.Names(tds) ==> n == "T";
    assert Pending(map[], tds) == {"T"};
  }

  // ---------------------------------------------------------------------------
  // Dictionary indexers that throw on an absent key.
  // Corrected: ListAt reads an absent key as the empty list, and Append creates the list.
  // ---------------------------------------------------------------------------

  /** Whether both dictionary reads of `genStateDecl` find the state's key. */
  predicate StateReadsHit(st: StateDecl, transitions: map<string, seq<S.TransDecl>>, dos: map<string, seq<S.DoDecl>>)
  {
    var key := StateKey(st.owner, FlattenName(st.name));
    key in transitions && key in dos
  }

  /** `genStateDecl` as written: `None` when an indexer throws. */
  function StateReadsAsWritten(st: StateDecl, transitions: map<string, seq<S.TransDecl>>, dos: map<string, seq<S.DoDecl>>,
                               defs: map<string, S.Type>): Option<Result<Lowered<S.StateDecl>>>
  {
    if StateReadsHit(st, transitions, dos) then Some(LowerStateDecl(st, transitions, dos, defs)) else None
  }

  /**
   * As written, a state with no transition or no do-handler filed under its key throws;
   * corrected, the missing list reads as empty.
   */
  lemma StateWithoutHandlersThrows(st: StateDecl, transitions: map<string, seq<S.TransDecl>>,
                                   dos: map<string, seq<S.DoDecl>>, defs: map<string, S.Type>)
    requires StateKey(st.owner, FlattenName(st.name)) !in transitions || StateKey(st.owner, FlattenName(st.name)) !in dos
    ensures StateReadsAsWritten(st, transitions, dos, defs).None?
    ensures LowerStateDecl(st, transitions, dos, defs).Ok? ==>
      var r := LowerStateDecl(st, transitions, dos, defs).value.value;
      (StateKey(st.owner, FlattenName(st.name)) !in transitions ==> r.transitions == []) &&
      (StateKey(st.owner, FlattenName(st.name)) !in dos ==> r.dos == [])
  {
    if LowerStateDecl(st, transitions, dos, defs).Ok? {
      StateDeclShape(st, transitions, dos, defs);
    }
  }

  /** Whether every dictionary read of `genMachineDecl` finds its key. */
  predicate MachineReadsHit(m: MachineDecl, t: MachineTables)
  {
    m.name in t.states && m.name in t.vars && m.name in t.functions &&
    (m.kind == "MONITOR" ==> m.name in t.monitored)
  }

  /** `genMachineDecl` as written: `None` when an indexer throws. */
  function MachineDeclAsWritten(m: MachineDecl, t: MachineTables): Option<Result<S.MachineDecl>>
  {
    if MachineReadsHit(m, t) then Some(LowerMachineDecl(m, t)) else None
  }

  /**
   * The state lists are never written, so as written every machine of every program
   * throws; corrected, a machine lowers exactly when its card does.
   */
  lemma MachineReadsAlwaysThrow(defs: map<string, S.Type>, items: seq<Item>, m: MachineDecl)
    requires Steps(Initial().(typeDefs := defs), items).Ok?
    ensures var t := TablesOf(Steps(Initial().(typeDefs := defs), items).value);
      MachineDeclAsWritten(m, t).None? &&
      (LowerMachineDecl(m, t).Ok? <==> (m.card.Some? ==> LowerQueueConstraint(m.card.value).Ok?))
  {
    var s := Initial().(typeDefs := defs);
    StepsKeepMachineLists(s, items);
    MachineDeclShape(m, TablesOf(Steps(s, items).value));
  }

  /** The observes loop as written: `None` when the monitor has no list yet. */
  function ObservesAsWritten(table: map<string, seq<string>>, o: Observes): Option<map<string, seq<string>>>
  {
    if o.monitor in table then Some(table[o.monitor := table[o.monitor] + [o.ev]]) else None
  }

  /** Nothing creates a monitor's list, so as written the first observes edge throws; corrected, it starts the list. */
  lemma FirstObservesThrows(o: Observes)
    ensures ObservesAsWritten(Initial().monitorToEventList, o).None?
    ensures ListAt(Step(Initial(), ObservesItem(o)).value.monitorToEventList, o.monitor) == [o.ev]
  {
  }

  /** How `genAnonFunDecl` files a hoisted function as written: `None` when its machine has no list yet. */
  function FileAsWritten(funs: map<string, seq<S.FunDecl>>, h: Hoist): Option<map<string, seq<S.FunDecl>>>
  {
    match h.owner
    case None => Some(funs)
    case Some(m) => if m in funs then Some(funs[m := funs[m] + [h.fun]]) else None
  }

  /**
   * Machine function lists are created only by the function loop, which runs after the
   * do and transition loops; as written, an inline action of a machine met first throws.
   * Corrected, the list is created.
   */
  lemma EarlyActionThrows(h: Hoist)
    requires h.owner.Some?
    ensures FileAsWritten(Initial().machineToFunList, h).None?
    ensures ListAt(Register(Initial(), [h]).machineToFunList, h.owner.value) == [h.fun]
  {
    RegisterSingle(Initial(), h);
  }
}
