/**
 * The pass itself (`FSharpExpGen`): an object whose dictionaries and lists are filled in
 * place while the declarations are lowered. Each method is proved against the session
 * specification: what it returns and the fields it leaves behind are those of the
 * matching function on `Snapshot()`, the fields read as one `State` value.
 */
module Generator {
  import opened Base
  import opened Terms
  import opened TypeLowering
  import opened TypeDefs
  import opened StmtLowering
  import opened DeclLowering
  import opened Tables
  import opened Session
  import Names
  import S = Syntax

  /**
   * The outcome of a lowering method that hoists functions as it goes: on success the
   * method returns the lowered node and has registered exactly the hoisted functions;
   * on failure it returns the same error.
   */
  ghost predicate Lowers<T>(r: Result<T>, expected: Result<Lowered<T>>, before: State, after: State)
  {
    match expected
    case Ok(x) => r == Ok(x.value) && after == Register(before, x.hoisted)
    case Err(e) => r == Err(e)
  }

  /** The outcome of a state-changing method: success with the state `expected` holds, or its error. */
  ghost predicate Reaches(r: Result<()>, expected: Result<State>, after: State)
  {
    match expected
    case Ok(s) => r.Ok? && after == s
    case Err(e) => r == Err(e)
  }

  class FSharpExpGen {
    var statesToDos: map<string, seq<S.DoDecl>>
    var statesToTransitions: map<string, seq<S.TransDecl>>
    var machineToStateList: map<string, seq<S.StateDecl>>
    var machineToFunList: map<string, seq<S.FunDecl>>
    var machineToVars: map<string, seq<S.VarDecl>>
    var monitorToEventList: map<string, seq<string>>
    var staticFunctions: seq<S.FunDecl>
    var machines: seq<S.MachineDecl>
    var events: seq<S.EventDecl>
    var typeDefs: map<string, S.Type>
    var mainMachine: Option<string>

    /** The fields, as one value. */
    ghost function Snapshot(): State
      reads this
    {
      State(statesToDos, statesToTransitions, machineToStateList, machineToFunList, machineToVars,
            monitorToEventList, staticFunctions, machines, events, typeDefs, mainMachine)
    }

    /** Every table starts empty; the event list holds the built-in `halt` and `null`. */
    constructor()
      ensures Snapshot() == Initial()
    {
      statesToDos, statesToTransitions := map[], map[];
      machineToStateList, machineToFunList, machineToVars, monitorToEventList := map[], map[], map[], map[];
      staticFunctions, machines := [], [];
      events := [S.EventDecl("halt", None, None)];
      events := events + [S.EventDecl("null", None, None)];
      typeDefs, mainMachine := map[], None;
    }

    /** Files each hoisted function, in order, under its machine or among the static functions. */
    method RegisterHoisted(hs: seq<Hoist>)
      modifies this
      ensures Snapshot() == Register(old(Snapshot()), hs)
    {
      RegisterNone(old(Snapshot()));
      for i := 0 to |hs|
        invariant Snapshot() == Register(old(Snapshot()), hs[..i])
      {
        var h := hs[i];
        ghost var before := Snapshot();
        RegisterSingle(before, h);
        match h.owner {
          case Some(m) => machineToFunList := Append(machineToFunList, m, h.fun);
          case None => staticFunctions := staticFunctions + [h.fun];
        }
        RegisterAppend(old(Snapshot()), hs[..i], [h]);
        assert hs[..i] + [h] == hs[..i + 1];
      }
      assert hs[..|hs|] == hs;
    }

    /** `genAnonFunDecl`: lowers the body, builds the function and files it; returns its name. */
    method GenAnonFunDecl(d: AnonFunDecl, hint: string) returns (r: Result<string>)
      modifies this
      ensures Lowers(r, LowerAnon(d, hint, old(typeDefs)), old(Snapshot()), Snapshot())
    {
      var name := HoistName(d.ownerFun, hint);
      var body := LowerStmt(d.body, typeDefs);
      if body.Err? {
        return Err(body.error);
      }
      RegisterHoisted(body.value.hoisted);
      var params: seq<S.VarDecl> := [];
      if d.envVars.Cons? {
        var last := LastLoop(d.envVars);
        LastIsLastElement(d.envVars);
        params := [LowerVar(last, typeDefs)];
      }
      var locals := LowerVarsLoop(d.locals, typeDefs);
      var fd := S.FunDecl(name, params, None, locals, body.value.value, false, false);
      RegisterHoisted([Hoist(d.owner, fd)]);
      RegisterAppend(old(Snapshot()), body.value.hoisted, [Hoist(d.owner, fd)]);
      r := Ok(name);
    }

    /** `genFunDecl`: the body first (filing what it hoists), then the signature. */
    method GenFunDecl(d: FunDecl) returns (r: Result<S.FunDecl>)
      modifies this
      ensures Lowers(r, LowerFunDecl(d, old(typeDefs)), old(Snapshot()), Snapshot())
    {
      var body := LowerStmt(d.body, typeDefs);
      if body.Err? {
        return Err(body.error);
      }
      RegisterHoisted(body.value.hoisted);
      var params := LowerVarsLoop(d.params, typeDefs);
      var ret := if d.ret.Some? then Some(LowerType(d.ret.value, typeDefs)) else None;
      var locals := LowerVarsLoop(d.locals, typeDefs);
      r := Ok(S.FunDecl(d.name, params, ret, locals, body.value.value, d.kind == "MODEL", d.kind == "PURE"));
    }

    /** `genTransDecl`. */
    method GenTransDecl(t: TransDecl) returns (r: Result<S.TransDecl>)
      modifies this
      ensures Lowers(r, LowerTransDecl(t, old(typeDefs)), old(Snapshot()), Snapshot())
    {
      RegisterNone(Snapshot());
      var trig :- Names.Trig(t.trig);
      var dst := Names.FlattenName(t.dst);
      match t.action {
        case PushAction => r := Ok(S.PushTrans(trig, dst));
        case AnonTrans(fn) =>
          var action :- GenAnonFunDecl(fn, "");
          r := Ok(S.CallTrans(trig, dst, action));
        case NamedTrans(f) => r := Ok(S.CallTrans(trig, dst, f));
      }
    }

    /** `genDoDecl`, returning the handler in every case. */
    method GenDoDecl(d: DoDecl) returns (r: Result<S.DoDecl>)
      modifies this
      ensures Lowers(r, LowerDoDecl(d, old(typeDefs)), old(Snapshot()), Snapshot())
    {
      RegisterNone(Snapshot());
      var trig :- Names.Trig(d.trig);
      match d.action {
        case DeferAction => r := Ok(S.Defer(trig));
        case IgnoreAction => r := Ok(S.Ignore(trig));
        case AnonDo(fn) =>
          var action :- GenAnonFunDecl(fn, DoHint(d.src.name, trig));
          r := Ok(S.CallDo(trig, action));
        case NamedDo(f) => r := Ok(S.CallDo(trig, f));
      }
    }

    /** An entry or exit action of `genStateDecl`. */
    method GenStateAction(a: StateAction, hint: string) returns (r: Result<Option<string>>)
      modifies this
      ensures Lowers(r, LowerStateAction(a, hint, old(typeDefs)), old(Snapshot()), Snapshot())
    {
      RegisterNone(Snapshot());
      match a {
        case NoAction => r := Ok(None);
        case AnonAction(fn) =>
          var name :- GenAnonFunDecl(fn, hint);
          r := Ok(Some(name));
        case NamedAction(f) => r := Ok(Some(f));
      }
    }

    /** `genStateDecl`: the entry and exit actions, then the handlers filed under the state's key. */
    method GenStateDecl(st: StateDecl) returns (r: Result<S.StateDecl>)
      modifies this
      ensures Lowers(r, LowerStateDecl(st, old(statesToTransitions), old(statesToDos), old(typeDefs)), old(Snapshot()), Snapshot())
    {
      var name := Names.FlattenName(st.name);
      var entry :- GenStateAction(st.entryAction, name + "_entry");
      ghost var mid := Snapshot();
      var exit :- GenStateAction(st.exitFun, name + "_exit");
      var key := StateKey(st.owner, name);
      RegisterAppend(old(Snapshot()), LowerStateAction(st.entryAction, name + "_entry", old(typeDefs)).value.hoisted,
                     LowerStateAction(st.exitFun, name + "_exit", old(typeDefs)).value.hoisted);
      r := Ok(S.StateDecl(name, st.temperature, entry, exit, ListAt(statesToTransitions, key), ListAt(statesToDos, key)));
    }

    /** `genMachineDecl`: reads the machine's lists, records it as main when flagged, lowers its card. */
    method GenMachineDecl(m: MachineDecl) returns (r: Result<S.MachineDecl>)
      modifies this
      ensures r == LowerMachineDecl(m, old(TablesOf(Snapshot())))
      ensures r.Ok? ==> Snapshot() == old(Snapshot()).(mainMachine := MainAfter(MachineItem(m), old(mainMachine)))
    {
      var start := Names.FlattenName(m.start);
      var states := ListAt(machineToStateList, m.name);
      var globals := ListAt(machineToVars, m.name);
      var functions := ListAt(machineToFunList, m.name);
      var isMonitor := m.kind == "MONITOR";
      var isModel := m.kind == "MODEL";
      var monitored := if isMonitor then Some(ListAt(monitorToEventList, m.name)) else None;
      if m.isMain {
        mainMachine := Some(m.name);
      }
      var card: Option<S.Card> := None;
      if m.card.Some? {
        var c :- LowerQueueConstraint(m.card.value);
        card := Some(c);
      }
      r := Ok(S.MachineDecl(m.name, start, globals, functions, states, isMonitor, monitored, card, isModel));
    }

    /** One iteration of the event loop of `genFSExprs`. */
    method AddEvent(e: EventDecl) returns (r: Result<()>)
      modifies this
      ensures Reaches(r, Step(old(Snapshot()), EventItem(e)), Snapshot())
    {
      var d :- LowerEventDecl(e, typeDefs);
      events := events + [d];
      r := Ok(());
    }

    /** One iteration of the do loop: the handler, filed under its state's key. */
    method AddDo(d: DoDecl) returns (r: Result<()>)
      modifies this
      ensures Reaches(r, Step(old(Snapshot()), DoItem(d)), Snapshot())
    {
      var x :- GenDoDecl(d);
      statesToDos := Append(statesToDos, GroupKey(d.src), x);
      r := Ok(());
    }

    /** One iteration of the transition loop: the transition, filed under its state's key. */
    method AddTrans(t: TransDecl) returns (r: Result<()>)
      modifies this
      ensures Reaches(r, Step(old(Snapshot()), TransItem(t)), Snapshot())
    {
      var x :- GenTransDecl(t);
      statesToTransitions := Append(statesToTransitions, GroupKey(t.src), x);
      r := Ok(());
    }

    /** One iteration of the function loop: the function, filed under its machine or among the static ones. */
    method AddFunction(f: FunDecl) returns (r: Result<()>)
      modifies this
      ensures Reaches(r, Step(old(Snapshot()), FunItem(f)), Snapshot())
    {
      var fd :- GenFunDecl(f);
      ghost var mid := Snapshot();
      RegisterSingle(mid, Hoist(f.owner, fd));
      match f.owner {
        case None => staticFunctions := staticFunctions + [fd];
        case Some(m) => machineToFunList := Append(machineToFunList, m, fd);
      }
      r := Ok(());
    }

    /** One iteration of the observes loop: the event, appended to its monitor's list. */
    method AddObserves(o: Observes) returns (r: Result<()>)
      modifies this
      ensures Reaches(r, Step(old(Snapshot()), ObservesItem(o)), Snapshot())
    {
      monitorToEventList := Append(monitorToEventList, o.monitor, o.ev);
      r := Ok(());
    }

    /** One iteration of the machine loop. */
    method AddMachine(m: MachineDecl) returns (r: Result<()>)
      modifies this
      ensures Reaches(r, Step(old(Snapshot()), MachineItem(m)), Snapshot())
    {
      var d :- GenMachineDecl(m);
      machines := machines + [d];
      r := Ok(());
    }

    /** One declaration, whatever its kind. */
    method AddItem(it: Item) returns (r: Result<()>)
      modifies this
      ensures Reaches(r, Step(old(Snapshot()), it), Snapshot())
    {
      match it {
        case EventItem(e) => r := AddEvent(e);
        case DoItem(d) => r := AddDo(d);
        case TransItem(t) => r := AddTrans(t);
        case FunItem(f) => r := AddFunction(f);
        case ObservesItem(o) => r := AddObserves(o);
        case MachineItem(m) => r := AddMachine(m);
      }
    }

    /** One `foreach` of `genFSExprs`: the declarations in order, stopping at the first failure. */
    method AddItems(items: seq<Item>) returns (r: Result<()>)
      modifies this
      ensures Reaches(r, Steps(old(Snapshot()), items), Snapshot())
    {
      for i := 0 to |items|
        invariant Steps(old(Snapshot()), items) == Steps(Snapshot(), items[i..])
      {
        ghost var before := Snapshot();
        assert items[i..][0] == items[i] && items[i..][1..] == items[i + 1..];
        var x := AddItem(items[i]);
        if x.Err? {
          return x;
        }
      }
      r := Ok(());
    }

    /** A run of the declarations of one kind after those of the kinds before it in the unit; a failure before it skips it. */
    method AddGroup(ghost s: State, ghost done: seq<Item>, items: seq<Item>, prev: Result<()>) returns (r: Result<()>)
      modifies this
      requires Reaches(prev, Steps(s, done), Snapshot())
      ensures Reaches(r, Steps(s, done + items), Snapshot())
    {
      StepsAppend(s, done, items);
      if prev.Err? {
        return prev;
      }
      r := AddItems(items);
    }

    /** The body of the outer `foreach` of `genFSExprs`: events, do-handlers, transitions, functions, observes edges, machines. */
    method GenUnit(u: ProgramUnit) returns (r: Result<()>)
      modifies this
      ensures Reaches(r, Steps(old(Snapshot()), UnitItems(u)), Snapshot())
    {
      ghost var s := Snapshot();
      var evs, dos, trans := EventItems(u.events), DoItems(u.dos), TransItems(u.transitions);
      var funs, obs, ms := FunItems(u.functions), ObservesItems(u.observes), MachineItems(u.machines);
      assert [] + evs == evs;
      r := AddGroup(s, [], evs, Ok(()));
      r := AddGroup(s, evs, dos, r);
      r := AddGroup(s, evs + dos, trans, r);
      r := AddGroup(s, evs + dos + trans, funs, r);
      r := AddGroup(s, evs + dos + trans + funs, obs, r);
      r := AddGroup(s, evs + dos + trans + funs + obs, ms, r);
    }

    /** `addTypeDef`: records the definition when its type lowers. */
    method AddTypeDef(t: TypeDef)
      modifies this
      ensures typeDefs == (match LowerType(t.ty, old(typeDefs))
                             case Some(ty) => old(typeDefs)[t.name := ty]
                             case None => old(typeDefs))
      ensures t.name !in old(typeDefs) ==> typeDefs == Visit(old(typeDefs), t)
      ensures typeDefs.Keys <= old(typeDefs).Keys + {t.name}
      ensures Snapshot() == old(Snapshot()).(typeDefs := typeDefs)
    {
      var ty := LowerType(t.ty, typeDefs);
      if ty.Some? {
        typeDefs := typeDefs[t.name := ty.value];
      }
    }

    /** The `foreach` of `addTypeDefs`: one pass; `iter` is set when the pass defined a new name. */
    method TypeDefPass(tds: seq<TypeDef>) returns (iter: bool)
      modifies this
      ensures Snapshot() == old(Snapshot()).(typeDefs := Pass(old(typeDefs), tds))
      ensures iter <==> typeDefs.Keys != old(typeDefs).Keys
    {
      iter := false;
      for i := 0 to |tds|
        invariant Snapshot() == old(Snapshot()).(typeDefs := typeDefs)
        invariant typeDefs == Pass(old(typeDefs), tds[..i])
        invariant old(typeDefs).Keys <= typeDefs.Keys
        invariant iter <==> typeDefs.Keys != old(typeDefs).Keys
      {
        var t := tds[i];
        assert tds[..i + 1][..i] == tds[..i];
        if t.name !in typeDefs {
          AddTypeDef(t);
          if t.name in typeDefs {
            iter := true;
          }
        }
      }
      assert tds[..|tds|] == tds;
    }

    /**
     * `addTypeDefs`, with the loop ending when a pass adds nothing: passes run until the
     * fixpoint; the result names the first definition left unresolved, if any.
     */
    method AddTypeDefs(tds: seq<TypeDef>) returns (r: Result<()>)
      modifies this
      ensures Snapshot() == old(Snapshot()).(typeDefs := Settle(old(typeDefs), tds))
      ensures r == (match Resolve(old(typeDefs), tds) case Ok(_) => Ok(()) case Err(e) => Err(e))
    {
      var iter := true;
      while iter
        invariant Snapshot() == old(Snapshot()).(typeDefs := typeDefs)
        invariant Settle(typeDefs, tds) == Settle(old(typeDefs), tds)
        invariant !iter ==> Settle(typeDefs, tds) == typeDefs
        decreases |Pending(typeDefs, tds)|, iter
      {
        ghost var before := typeDefs;
        iter := TypeDefPass(tds);
        if iter {
          PendingShrinks(before, tds);
        } else {
          PassStuck(before, tds);
        }
      }
      if Pending(typeDefs, tds) == {} {
        r := Ok(());
      } else {
        r := Err(UnresolvedTypeName(FirstPending(typeDefs, tds)));
      }
    }

    /** `fixTypeDefs`: the definitions of all units, unit after unit, resolved together. */
    method FixTypeDefs(units: seq<ProgramUnit>) returns (r: Result<()>)
      modifies this
      ensures Snapshot() == old(Snapshot()).(typeDefs := Settle(old(typeDefs), AllTypeDefs(units)))
      ensures r == (match Resolve(old(typeDefs), AllTypeDefs(units)) case Ok(_) => Ok(()) case Err(e) => Err(e))
    {
      var tds: seq<TypeDef> := [];
      for i := 0 to |units|
        invariant tds == AllTypeDefs(units[..i])
      {
        assert units[..i + 1][..i] == units[..i];
        tds := tds + units[i].typeDefs;
      }
      assert units[..|units|] == units;
      r := AddTypeDefs(tds);
    }

    /** `genFSExprs`: the typedefs first, then every unit in order. */
    method GenFSExprs(units: seq<ProgramUnit>) returns (r: Result<()>)
      modifies this
      ensures Reaches(r, Run(old(Snapshot()), units), Snapshot())
    {
      r := FixTypeDefs(units);
      if r.Err? {
        return;
      }
      ghost var s := Snapshot();
      assert Resolve(old(typeDefs), AllTypeDefs(units)) == Ok(typeDefs);
      assert Run(old(Snapshot()), units) == Steps(s, AllItems(units));
      for i := 0 to |units|
        invariant r.Ok?
        invariant Steps(s, AllItems(units)) == Steps(Snapshot(), AllItems(units[i..]))
      {
        ghost var before := Snapshot();
        assert units[i..][0] == units[i] && units[i..][1..] == units[i + 1..];
        StepsAppend(before, UnitItems(units[i]), AllItems(units[i + 1..]));
        r := GenUnit(units[i]);
        if r.Err? {
          return;
        }
      }
      assert AllItems(units[|units|..]) == [];
    }

    /** `genFSExpression` once the units are parsed: the pass, then the program from its fields. */
    method GenFSExpression(units: seq<ProgramUnit>) returns (r: Result<S.ProgramDecl>)
      modifies this
      ensures r == LowerProgram(old(Snapshot()), units)
    {
      var x :- GenFSExprs(units);
      r := Ok(S.ProgramDecl(mainMachine, machines, events, staticFunctions));
    }
  }
}
