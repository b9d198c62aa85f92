/**
 * The driver (`genFSExprs`, `fixTypeDefs`, `genFSExpression`) as a specification over
 * the pass's state: each declaration of a program unit is one step, taken in the
 * source's order (events, do-handlers, transitions, functions, observes edges,
 * machines), and the steps of all units run after the typedefs of all units are resolved.
 */
module Session {
  import opened Base
  import opened Terms
  import opened TypeDefs
  import opened StmtLowering
  import opened DeclLowering
  import opened Tables
  import S = Syntax

  /** The fields of the pass, as one value. */
  datatype State = State(
    statesToDos: map<string, seq<S.DoDecl>>,
    statesToTransitions: map<string, seq<S.TransDecl>>,
    machineToStateList: map<string, seq<S.StateDecl>>,
    machineToFunList: map<string, seq<S.FunDecl>>,
    machineToVars: map<string, seq<S.VarDecl>>,
    monitorToEventList: map<string, seq<string>>,
    staticFunctions: seq<S.FunDecl>,
    machines: seq<S.MachineDecl>,
    events: seq<S.EventDecl>,
    typeDefs: map<string, S.Type>,
    mainMachine: Option<string>)

  /** The two events every program declares, in this order. */
  const BuiltinEvents: seq<S.EventDecl> := [S.EventDecl("halt", None, None), S.EventDecl("null", None, None)]

  /** The state right after construction: only the built-in events. */
  function Initial(): State
  {
    State(map[], map[], map[], map[], map[], map[], [], [], BuiltinEvents, map[], None)
  }

  /** The owned functions among `hs`, paired with their machine, in order. */
  function OwnedPairs(hs: seq<Hoist>): seq<(string, S.FunDecl)>
  {
    if hs == [] then []
    else (if hs[0].owner.Some? then [(hs[0].owner.value, hs[0].fun)] else []) + OwnedPairs(hs[1..])
  }

  /** The static functions among `hs`, in order. */
  function StaticOf(hs: seq<Hoist>): seq<S.FunDecl>
  {
    if hs == [] then []
    else (if hs[0].owner.None? then [hs[0].fun] else []) + StaticOf(hs[1..])
  }

  /** Appends each function to its machine's list, or to the static functions when it has no machine. */
  function Register(s: State, hs: seq<Hoist>): State
  {
    s.(machineToFunList := GroupAll(s.machineToFunList, OwnedPairs(hs)),
       staticFunctions := s.staticFunctions + StaticOf(hs))
  }

  /** One declaration of a program unit. */
  datatype Item =
    | EventItem(event: EventDecl)
    | DoItem(handler: DoDecl)
    | TransItem(trans: TransDecl)
    | FunItem(fun: FunDecl)
    | ObservesItem(obs: Observes)
    | MachineItem(machine: MachineDecl)

  /** The tables `genMachineDecl` reads. */
  function TablesOf(s: State): MachineTables
  {
    MachineTables(s.machineToStateList, s.machineToVars, s.machineToFunList, s.monitorToEventList)
  }

  /** One iteration of one of the `foreach` loops of `genFSExprs`. */
  function Step(s: State, it: Item): Result<State>
  {
    match it
    case EventItem(e) =>
      var d :- LowerEventDecl(e, s.typeDefs);
      Ok(s.(events := s.events + [d]))
    case DoItem(d) =>
      var x :- LowerDoDecl(d, s.typeDefs);
      var s' := Register(s, x.hoisted);
      Ok(s'.(statesToDos := Append(s'.statesToDos, GroupKey(d.src), x.value)))
    case TransItem(t) =>
      var x :- LowerTransDecl(t, s.typeDefs);
      var s' := Register(s, x.hoisted);
      Ok(s'.(statesToTransitions := Append(s'.statesToTransitions, GroupKey(t.src), x.value)))
    case FunItem(f) =>
      var x :- LowerFunDecl(f, s.typeDefs);
      Ok(Register(Register(s, x.hoisted), [Hoist(f.owner, x.value)]))
    case ObservesItem(o) =>
      Ok(s.(monitorToEventList := Append(s.monitorToEventList, o.monitor, o.ev)))
    case MachineItem(m) =>
      var d :- LowerMachineDecl(m, TablesOf(s));
      Ok(s.(machines := s.machines + [d], mainMachine := if m.isMain then Some(m.name) else s.mainMachine))
  }

  /** The steps in order; the first failing step ends the run. */
  function Steps(s: State, items: seq<Item>): Result<State>
    decreases |items|
  {
    if items == [] then Ok(s)
    else
      var s' :- Step(s, items[0]);
      Steps(s', items[1..])
  }

  function EventItems(evs: seq<EventDecl>): seq<Item> { seq(|evs|, i requires 0 <= i < |evs| => EventItem(evs[i])) }
  function DoItems(ds: seq<DoDecl>): seq<Item> { seq(|ds|, i requires 0 <= i < |ds| => DoItem(ds[i])) }
  function TransItems(ts: seq<TransDecl>): seq<Item> { seq(|ts|, i requires 0 <= i < |ts| => TransItem(ts[i])) }
  function FunItems(fs: seq<FunDecl>): seq<Item> { seq(|fs|, i requires 0 <= i < |fs| => FunItem(fs[i])) }
  function ObservesItems(os: seq<Observes>): seq<Item> { seq(|os|, i requires 0 <= i < |os| => ObservesItem(os[i])) }
  function MachineItems(ms: seq<MachineDecl>): seq<Item> { seq(|ms|, i requires 0 <= i < |ms| => MachineItem(ms[i])) }

  /** The declarations of one unit in the order `genFSExprs` visits them. */
  function UnitItems(u: ProgramUnit): seq<Item>
  {
    EventItems(u.events) + DoItems(u.dos) + TransItems(u.transitions) +
    FunItems(u.functions) + ObservesItems(u.observes) + MachineItems(u.machines)
  }

  /** The declarations of all units, unit after unit. */
  function AllItems(units: seq<ProgramUnit>): seq<Item>
  {
    if units == [] then [] else UnitItems(units[0]) + AllItems(units[1..])
  }

  /** `fixTypeDefs`: the type definitions of all units, unit after unit. */
  function AllTypeDefs(units: seq<ProgramUnit>): seq<TypeDef>
    decreases |units|
  {
    if units == [] then [] else AllTypeDefs(units[..|units| - 1]) + units[|units| - 1].typeDefs
  }

  /** `genFSExprs`: resolve the typedefs of all units, then run the steps of all units. */
  function Run(s: State, units: seq<ProgramUnit>): Result<State>
  {
    var defs :- Resolve(s.typeDefs, AllTypeDefs(units));
    Steps(s.(typeDefs := defs), AllItems(units))
  }

  /** `genFSExpression` after parsing: run the pass, then assemble the program from its state. */
  function LowerProgram(s: State, units: seq<ProgramUnit>): Result<S.ProgramDecl>
  {
    var r :- Run(s, units);
    Ok(S.ProgramDecl(r.mainMachine, r.machines, r.events, r.staticFunctions))
  }

  /** Running two item lists one after the other is running their concatenation. */
  lemma {:induction false} StepsAppend(s: State, xs: seq<Item>, ys: seq<Item>)
    ensures Steps(s, xs + ys) == (if Steps(s, xs).Ok? then Steps(Steps(s, xs).value, ys) else Steps(s, xs))
    decreases |xs|
  {
    if xs == [] {
      assert xs + ys == ys;
    } else {
      assert (xs + ys)[0] == xs[0];
      assert (xs + ys)[1..] == xs[1..] + ys;
      if Step(s, xs[0]).Ok? {
        StepsAppend(Step(s, xs[0]).value, xs[1..], ys);
      }
    }
  }

  /** Registering appends every static function to the static list and every owned function to its machine's list, in order; nothing else changes. */
  lemma RegisterSpec(s: State, hs: seq<Hoist>, m: string)
    ensures Register(s, hs).staticFunctions == s.staticFunctions + StaticOf(hs)
    ensures ListAt(Register(s, hs).machineToFunList, m) == ListAt(s.machineToFunList, m) + Filter(OwnedPairs(hs), m)
    ensures Register(s, hs).(machineToFunList := s.machineToFunList, staticFunctions := s.staticFunctions) == s
  {
    GroupAllSpec(s.machineToFunList, OwnedPairs(hs), m);
  }

  lemma {:induction false} OwnedPairsAppend(a: seq<Hoist>, b: seq<Hoist>)
    ensures OwnedPairs(a + b) == OwnedPairs(a) + OwnedPairs(b)
    decreases |a|
  {
    if a == [] {
      assert a + b == b;
    } else {
      var h := a[0];
      var x := if h.owner.Some? then [(h.owner.value, h.fun)] else [];
      assert (a + b)[0] == h;
      assert (a + b)[1..] == a[1..] + b;
      assert OwnedPairs(a + b) == x + OwnedPairs(a[1..] + b);
      OwnedPairsAppend(a[1..], b);
      assert OwnedPairs(a) == x + OwnedPairs(a[1..]);
      ConcatAssoc(x, OwnedPairs(a[1..]), OwnedPairs(b));
    }
  }

  lemma {:induction false} StaticOfAppend(a: seq<Hoist>, b: seq<Hoist>)
    ensures StaticOf(a + b) == StaticOf(a) + StaticOf(b)
    decreases |a|
  {
    if a == [] {
      assert a + b == b;
    } else {
      var h := a[0];
      var x := if h.owner.None? then [h.fun] else [];
      assert (a + b)[0] == h;
      assert (a + b)[1..] == a[1..] + b;
      assert StaticOf(a + b) == x + StaticOf(a[1..] + b);
      StaticOfAppend(a[1..], b);
      assert StaticOf(a) == x + StaticOf(a[1..]);
      ConcatAssoc(x, StaticOf(a[1..]), StaticOf(b));
    }
  }

  /** Registering two lists of hoisted functions one after the other is registering their concatenation. */
  lemma RegisterAppend(s: State, a: seq<Hoist>, b: seq<Hoist>)
    ensures Register(Register(s, a), b) == Register(s, a + b)
  {
    OwnedPairsAppend(a, b);
    StaticOfAppend(a, b);
    GroupAllAppend(s.machineToFunList, OwnedPairs(a), OwnedPairs(b));
    ConcatAssoc(s.staticFunctions, StaticOf(a), StaticOf(b));
  }

  /** Registering nothing changes nothing. */
  lemma RegisterNone(s: State)
    ensures Register(s, []) == s
  {
    assert s.staticFunctions + [] == s.staticFunctions;
  }

  /**
   * A single hoisted function lands in exactly one list: appended to its machine's
   * function list (which is created when absent), or to the static functions.
   */
  lemma RegisterSingle(s: State, h: Hoist)
    ensures h.owner.None? ==> Register(s, [h]) == s.(staticFunctions := s.staticFunctions + [h.fun])
    ensures h.owner.Some? ==> Register(s, [h]) == s.(machineToFunList := Append(s.machineToFunList, h.owner.value, h.fun))
  {
    assert [h][1..] == [];
    if h.owner.None? {
      assert OwnedPairs([h]) == [];
      assert StaticOf([h]) == [h.fun];
    } else {
      assert OwnedPairs([h]) == [(h.owner.value, h.fun)];
      assert StaticOf([h]) == [];
      assert s.staticFunctions + [] == s.staticFunctions;
      var p := (h.owner.value, h.fun);
      var none: seq<(string, S.FunDecl)> := [];
      assert [p][..0] == none;
      assert GroupAll(s.machineToFunList, [p]) == Append(GroupAll(s.machineToFunList, []), p.0, p.1);
    }
  }

  /** The lowered event an item contributes: one for a lowerable event declaration, none otherwise. */
  function EventOf(it: Item, defs: map<string, S.Type>): seq<S.EventDecl>
  {
    if it.EventItem? && LowerEventDecl(it.event, defs).Ok? then [LowerEventDecl(it.event, defs).value] else []
  }

  /** The lowered do-handler an item files under key `k`. */
  function DoOf(it: Item, k: string, defs: map<string, S.Type>): seq<S.DoDecl>
  {
    if it.DoItem? && GroupKey(it.handler.src) == k && LowerDoDecl(it.handler, defs).Ok?
    then [LowerDoDecl(it.handler, defs).value.value] else []
  }

  /** The lowered transition an item files under key `k`. */
  function TransOf(it: Item, k: string, defs: map<string, S.Type>): seq<S.TransDecl>
  {
    if it.TransItem? && GroupKey(it.trans.src) == k && LowerTransDecl(it.trans, defs).Ok?
    then [LowerTransDecl(it.trans, defs).value.value] else []
  }

  /** The event an observes edge attaches to monitor `m`. */
  function ObservedOf(it: Item, m: string): seq<string>
  {
    if it.ObservesItem? && it.obs.monitor == m then [it.obs.ev] else []
  }

  /** The main machine after an item, from `prev`. */
  function MainAfter(it: Item, prev: Option<string>): Option<string>
  {
    if it.MachineItem? && it.machine.isMain then Some(it.machine.name) else prev
  }

  /** One step keeps the typedef table. */
  lemma StepKeepsTypeDefs(s: State, it: Item)
    requires Step(s, it).Ok?
    ensures Step(s, it).value.typeDefs == s.typeDefs
  {
    match it
    case EventItem(e) =>
    case DoItem(d) =>
    case TransItem(t) =>
    case FunItem(f) =>
    case ObservesItem(o) =>
    case MachineItem(mach) =>
  }

  /** One step adds at most its own lowered event to the event list. */
  lemma StepEvents(s: State, it: Item)
    requires Step(s, it).Ok?
    ensures Step(s, it).value.events == s.events + EventOf(it, s.typeDefs)
  {
    match it
    case EventItem(e) =>
    case DoItem(d) =>
    case TransItem(t) =>
    case FunItem(f) =>
    case ObservesItem(o) =>
    case MachineItem(mach) =>
  }

  /** One step files at most its own do-handler under key `k`. */
  lemma StepDos(s: State, it: Item, k: string)
    requires Step(s, it).Ok?
    ensures ListAt(Step(s, it).value.statesToDos, k) == ListAt(s.statesToDos, k) + DoOf(it, k, s.typeDefs)
  {
    match it
    case EventItem(e) =>
    case DoItem(d) =>
    case TransItem(t) =>
    case FunItem(f) =>
    case ObservesItem(o) =>
    case MachineItem(mach) =>
  }

  /** One step files at most its own transition under key `k`. */
  lemma StepTrans(s: State, it: Item, k: string)
    requires Step(s, it).Ok?
    ensures ListAt(Step(s, it).value.statesToTransitions, k) == ListAt(s.statesToTransitions, k) + TransOf(it, k, s.typeDefs)
  {
    match it
    case EventItem(e) =>
    case DoItem(d) =>
    case TransItem(t) =>
    case FunItem(f) =>
    case ObservesItem(o) =>
    case MachineItem(mach) =>
  }

  /** One step attaches at most its own observed event to monitor `m`. */
  lemma StepMonitor(s: State, it: Item, m: string)
    requires Step(s, it).Ok?
    ensures ListAt(Step(s, it).value.monitorToEventList, m) == ListAt(s.monitorToEventList, m) + ObservedOf(it, m)
  {
    match it
    case EventItem(e) =>
    case DoItem(d) =>
    case TransItem(t) =>
    case FunItem(f) =>
    case ObservesItem(o) =>
    case MachineItem(mach) =>
  }

  /** Only a machine flagged main changes the main machine. */
  lemma StepMain(s: State, it: Item)
    requires Step(s, it).Ok?
    ensures Step(s, it).value.mainMachine == MainAfter(it, s.mainMachine)
  {
    match it
    case EventItem(e) =>
    case DoItem(d) =>
    case TransItem(t) =>
    case FunItem(f) =>
    case ObservesItem(o) =>
    case MachineItem(mach) =>
  }

  /** One step never removes a function, a machine or an event. */
  lemma StepGrows(s: State, it: Item, m: string)
    requires Step(s, it).Ok?
    ensures var r := Step(s, it).value;
      s.staticFunctions <= r.staticFunctions && s.machines <= r.machines && s.events <= r.events &&
      ListAt(s.machineToFunList, m) <= ListAt(r.machineToFunList, m)
  {
    match it
    case DoItem(d) => RegisterSpec(s, LowerDoDecl(d, s.typeDefs).value.hoisted, m);
    case TransItem(t) => RegisterSpec(s, LowerTransDecl(t, s.typeDefs).value.hoisted, m);
    case FunItem(f) =>
      var x := LowerFunDecl(f, s.typeDefs).value;
      RegisterSpec(s, x.hoisted, m);
      RegisterSpec(Register(s, x.hoisted), [Hoist(f.owner, x.value)], m);
    case _ =>
  }

  /** No step touches the typedef table. */
  lemma {:induction false} StepsKeepTypeDefs(s: State, items: seq<Item>)
    requires Steps(s, items).Ok?
    ensures Steps(s, items).value.typeDefs == s.typeDefs
    decreases |items|
  {
    if items != [] {
      var s' := StepsCons(s, items);
      StepKeepsTypeDefs(s, items[0]);
      StepsKeepTypeDefs(s', items[1..]);
    }
  }

  /** Reference definition: the events the items declare, lowered, in order. */
  function LoweredEvents(items: seq<Item>, defs: map<string, S.Type>): seq<S.EventDecl>
  {
    if items == [] then [] else EventOf(items[0], defs) + LoweredEvents(items[1..], defs)
  }

  /** The event list only grows, by the declared events in declaration order. */
  lemma {:induction false} EventsInOrder(s: State, items: seq<Item>)
    requires Steps(s, items).Ok?
    ensures Steps(s, items).value.events == s.events + LoweredEvents(items, s.typeDefs)
    decreases |items|
  {
    if items != [] {
      var s' := StepsCons(s, items);
      var r := Steps(s, items).value;
      StepEvents(s, items[0]);
      StepKeepsTypeDefs(s, items[0]);
      EventsInOrder(s', items[1..]);
      var head, tail := EventOf(items[0], s.typeDefs), LoweredEvents(items[1..], s.typeDefs);
      assert s'.events == s.events + head;
      assert r.events == s.events + head + tail;
      assert LoweredEvents(items, s.typeDefs) == head + tail;
      ConcatAssoc(s.events, head, tail);
    }
  }

  /** Reference definition: the lowered do-handlers of the state keyed `k`, in order. */
  function DosAt(items: seq<Item>, k: string, defs: map<string, S.Type>): seq<S.DoDecl>
  {
    if items == [] then [] else DoOf(items[0], k, defs) + DosAt(items[1..], k, defs)
  }

  /** Reference definition: the lowered transitions of the state keyed `k`, in order. */
  function TransAt(items: seq<Item>, k: string, defs: map<string, S.Type>): seq<S.TransDecl>
  {
    if items == [] then [] else TransOf(items[0], k, defs) + TransAt(items[1..], k, defs)
  }

  /**
   * Grouping: under each state key, the do-handlers leaving that state are appended in
   * declaration order to what was there; other keys get nothing.
   */
  lemma {:induction false} DosGroupedByState(s: State, items: seq<Item>, k: string)
    requires Steps(s, items).Ok?
    ensures ListAt(Steps(s, items).value.statesToDos, k) == ListAt(s.statesToDos, k) + DosAt(items, k, s.typeDefs)
    decreases |items|
  {
    if items != [] {
      var s' := StepsCons(s, items);
      var r := Steps(s, items).value;
      StepDos(s, items[0], k);
      StepKeepsTypeDefs(s, items[0]);
      DosGroupedByState(s', items[1..], k);
      var before, head, tail := ListAt(s.statesToDos, k), DoOf(items[0], k, s.typeDefs), DosAt(items[1..], k, s.typeDefs);
      assert ListAt(s'.statesToDos, k) == before + head;
      assert ListAt(r.statesToDos, k) == before + head + tail;
      assert DosAt(items, k, s.typeDefs) == head + tail;
      ConcatAssoc(before, head, tail);
    }
  }

  /** The same grouping for transitions. */
  lemma {:induction false} TransGroupedByState(s: State, items: seq<Item>, k: string)
    requires Steps(s, items).Ok?
    ensures ListAt(Steps(s, items).value.statesToTransitions, k) ==
      ListAt(s.statesToTransitions, k) + TransAt(items, k, s.typeDefs)
    decreases |items|
  {
    if items != [] {
      var s' := StepsCons(s, items);
      var r := Steps(s, items).value;
      StepTrans(s, items[0], k);
      StepKeepsTypeDefs(s, items[0]);
      TransGroupedByState(s', items[1..], k);
      var before, head, tail := ListAt(s.statesToTransitions, k), TransOf(items[0], k, s.typeDefs), TransAt(items[1..], k, s.typeDefs);
      assert ListAt(s'.statesToTransitions, k) == before + head;
      assert ListAt(r.statesToTransitions, k) == before + head + tail;
      assert TransAt(items, k, s.typeDefs) == head + tail;
      ConcatAssoc(before, head, tail);
    }
  }

  /** A successful run takes its first step successfully and continues from there. */
  lemma StepsCons(s: State, items: seq<Item>) returns (s': State)
    requires items != [] && Steps(s, items).Ok?
    ensures Step(s, items[0]) == Ok(s') && Steps(s, items) == Steps(s', items[1..])
  {
    s' := Step(s, items[0]).value;
  }

  /** Reference definition: the events the observes edges attach to monitor `m`, in order. */
  function ObservedBy(items: seq<Item>, m: string): seq<string>
  {
    if items == [] then [] else ObservedOf(items[0], m) + ObservedBy(items[1..], m)
  }

  /** Each monitor's event list is extended by the events it observes, in declaration order. */
  lemma {:induction false} MonitorEvents(s: State, items: seq<Item>, m: string)
    requires Steps(s, items).Ok?
    ensures ListAt(Steps(s, items).value.monitorToEventList, m) == ListAt(s.monitorToEventList, m) + ObservedBy(items, m)
    decreases |items|
  {
    if items != [] {
      var s' := StepsCons(s, items);
      var r := Steps(s, items).value;
      StepMonitor(s, items[0], m);
      MonitorEvents(s', items[1..], m);
      var before, head, tail := ListAt(s.monitorToEventList, m), ObservedOf(items[0], m), ObservedBy(items[1..], m);
      assert ListAt(s'.monitorToEventList, m) == before + head;
      assert ListAt(r.monitorToEventList, m) == before + head + tail;
      assert ObservedBy(items, m) == head + tail;
      ConcatAssoc(before, head, tail);
    }
  }

  /** Reference definition: the last machine flagged main among the items, else `prev`. */
  function LastMain(items: seq<Item>, prev: Option<string>): Option<string>
  {
    if items == [] then prev else LastMain(items[1..], MainAfter(items[0], prev))
  }

  /** The main machine is the last machine flagged main; without one it is unchanged. */
  lemma {:induction false} MainMachineIsLast(s: State, items: seq<Item>)
    requires Steps(s, items).Ok?
    ensures Steps(s, items).value.mainMachine == LastMain(items, s.mainMachine)
    decreases |items|
  {
    if items != [] {
      var s' := StepsCons(s, items);
      StepMain(s, items[0]);
      MainMachineIsLast(s', items[1..]);
    }
  }

  /** Nothing is ever removed: the function, machine and event lists only grow. */
  lemma {:induction false} StepsOnlyAppend(s: State, items: seq<Item>, m: string)
    requires Steps(s, items).Ok?
    ensures var r := Steps(s, items).value;
      s.staticFunctions <= r.staticFunctions && s.machines <= r.machines && s.events <= r.events &&
      ListAt(s.machineToFunList, m) <= ListAt(r.machineToFunList, m)
    decreases |items|
  {
    if items != [] {
      var s' := StepsCons(s, items);
      StepGrows(s, items[0], m);
      StepsOnlyAppend(s', items[1..], m);
    }
  }

  /** No step writes the state lists or the variable lists of the machines. */
  lemma StepKeepsMachineLists(s: State, it: Item)
    requires Step(s, it).Ok?
    ensures Step(s, it).value.machineToStateList == s.machineToStateList
    ensures Step(s, it).value.machineToVars == s.machineToVars
  {
    match it
    case EventItem(e) =>
    case DoItem(d) =>
    case TransItem(t) =>
    case FunItem(f) =>
    case ObservesItem(o) =>
    case MachineItem(mach) =>
  }

  /** The state lists and variable lists of the machines are never written, so they keep what they held. */
  lemma {:induction false} StepsKeepMachineLists(s: State, items: seq<Item>)
    requires Steps(s, items).Ok?
    ensures Steps(s, items).value.machineToStateList == s.machineToStateList
    ensures Steps(s, items).value.machineToVars == s.machineToVars
    decreases |items|
  {
    if items != [] {
      var s' := StepsCons(s, items);
      StepKeepsMachineLists(s, items[0]);
      StepsKeepMachineLists(s', items[1..]);
    }
  }

  /** A lowered program lists `halt` and `null` first, then the declared events of all units in order. */
  lemma ProgramEvents(units: seq<ProgramUnit>)
    requires LowerProgram(Initial(), units).Ok?
    ensures var p := LowerProgram(Initial(), units).value;
      |p.events| >= 2 && p.events[..2] == BuiltinEvents &&
      p.events[2..] == LoweredEvents(AllItems(units), Resolve(map[], AllTypeDefs(units)).value)
  {
    var defs := Resolve(map[], AllTypeDefs(units)).value;
    EventsInOrder(Initial().(typeDefs := defs), AllItems(units));
  }

  /**
   * A monitor lowered after some declarations lists exactly the events observed by it
   * among them, in declaration order, after those it was already listed with.
   */
  lemma MonitorSeesObserved(s: State, items: seq<Item>, m: MachineDecl)
    requires Steps(s, items).Ok? && m.kind == "MONITOR"
    requires LowerMachineDecl(m, TablesOf(Steps(s, items).value)).Ok?
    ensures LowerMachineDecl(m, TablesOf(Steps(s, items).value)).value.monitored ==
      Some(ListAt(s.monitorToEventList, m.name) + ObservedBy(items, m.name))
  {
    MonitorEvents(s, items, m.name);
    MachineDeclShape(m, TablesOf(Steps(s, items).value));
  }

  /** A monitor observing `e1` and then `e2`, declared after both edges, lists `[e1, e2]`. */
  lemma MonitorScenario(mon: MachineDecl)
    requires mon.kind == "MONITOR" && mon.card.None?
    ensures var items := [ObservesItem(Observes("e1", mon.name)), ObservesItem(Observes("e2", mon.name)), MachineItem(mon)];
      Steps(Initial(), items).Ok? &&
      |Steps(Initial(), items).value.machines| == 1 &&
      Steps(Initial(), items).value.machines[0].monitored == Some(["e1", "e2"])
  {
    var items := [ObservesItem(Observes("e1", mon.name)), ObservesItem(Observes("e2", mon.name)), MachineItem(mon)];
    var edges := items[..2];
    assert edges[0] == items[0] && edges[1..] == [items[1]] && [items[1]][1..] == [];
    assert ObservedBy([items[1]], mon.name) == ["e2"];
    assert ObservedBy(edges, mon.name) == ["e1"] + ["e2"];
    var s1 := Step(Initial(), items[0]).value;
    assert Steps(s1, [items[1]]) == Step(s1, items[1]);
    assert Steps(Initial(), edges) == Steps(s1, [items[1]]);
    var s2 := Steps(Initial(), edges).value;
    MonitorSeesObserved(Initial(), edges, mon);
    StepsAppend(Initial(), edges, [items[2]]);
    assert edges + [items[2]] == items;
    assert Steps(s2, [items[2]]) == Step(s2, items[2]);
    assert s1.machines == [] && s2.machines == [];
    assert ListAt(Initial().monitorToEventList, mon.name) == [];
    var d := LowerMachineDecl(mon, TablesOf(s2)).value;
    assert d.monitored == Some(ListAt(Initial().monitorToEventList, mon.name) + ObservedBy(edges, mon.name));
    assert [] + (["e1"] + ["e2"]) == ["e1", "e2"];
    assert Steps(Initial(), items).value.machines == [d];
  }
}
