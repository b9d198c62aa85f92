/**
 * Declaration lowering: queue constraints (`genQueueConstraint`), events
 * (`genEventDecl`), transitions (`genTransDecl`), do-handlers (`genDoDecl`), states
 * (`genStateDecl`) and machines (`genMachineDecl`). Handlers and transitions are filed
 * under the key `owner + "+" + state`, where `state` is the flattened state name.
 */
module DeclLowering {
  import opened Base
  import opened Terms
  import opened Names
  import opened TypeLowering
  import opened StmtLowering
  import opened Tables
  import S = Syntax

  /** `genQueueConstraint`: the bound must be a 32-bit integer. */
  function LowerQueueConstraint(q: QueueConstraint): Result<S.Card>
  {
    match q
    case AssertMaxInstances(b) =>
      var v :- GetValue(b);
      Ok(S.AssertMax(v))
    case AssumeMaxInstances(b) =>
      var v :- GetValue(b);
      Ok(S.AssumeMax(v))
  }

  /** The queue-constraint term that denotes a card. */
  function ConstraintTerm(c: S.Card): QueueConstraint
  {
    match c
    case AssertMax(b) => AssertMaxInstances(IntCnst(b))
    case AssumeMax(b) => AssumeMaxInstances(IntCnst(b))
  }

  /** A card with a 32-bit bound survives the trip through its term; the assert/assume kind is kept. */
  lemma QueueConstraintRoundTrip(c: S.Card)
    requires InInt32(c.bound)
    ensures LowerQueueConstraint(ConstraintTerm(c)) == Ok(c)
  {
    IntCnstRoundTrip(c.bound);
  }

  /** A constraint lowers exactly when its bound is a 32-bit integer, keeping its kind and bound. */
  lemma QueueConstraintDefined(q: QueueConstraint)
    ensures LowerQueueConstraint(q).Ok? <==> GetValue(q.bound).Ok?
    ensures LowerQueueConstraint(q).Ok? ==>
      LowerQueueConstraint(q).value.bound == GetValue(q.bound).value &&
      (LowerQueueConstraint(q).value.AssertMax? <==> q.AssertMaxInstances?)
  {
  }

  /** `genEventDecl`: the payload type when one is declared, the card when one is declared. */
  function LowerEventDecl(d: EventDecl, defs: map<string, S.Type>): Result<S.EventDecl>
  {
    var payload := if d.ty.Some? then Some(LowerType(d.ty.value, defs)) else None;
    var card :- if d.card.Some? then
        var c :- LowerQueueConstraint(d.card.value);
        Ok(Some(c))
      else Ok(None);
    Ok(S.EventDecl(d.name, card, payload))
  }

  /**
   * An event keeps its name; its payload is the lowered declared type, present exactly
   * when one is declared; its card is the lowered declared card, present exactly when one is declared.
   */
  lemma EventDeclShape(d: EventDecl, defs: map<string, S.Type>)
    ensures LowerEventDecl(d, defs).Ok? <==> (d.card.Some? ==> LowerQueueConstraint(d.card.value).Ok?)
    ensures LowerEventDecl(d, defs).Ok? ==>
      var e := LowerEventDecl(d, defs).value;
      e.name == d.name &&
      (e.payload.Some? <==> d.ty.Some?) &&
      (d.ty.Some? ==> e.payload == Some(LowerType(d.ty.value, defs))) &&
      (e.card.Some? <==> d.card.Some?) &&
      (d.card.Some? ==> Ok(e.card.value) == LowerQueueConstraint(d.card.value))
  {
  }

  /** `genTransDecl`: PUSH, an inline action hoisted with an empty hint, or a named function. */
  function LowerTransDecl(t: TransDecl, defs: map<string, S.Type>): Result<Lowered<S.TransDecl>>
  {
    var trig :- Trig(t.trig);
    var dst := FlattenName(t.dst);
    match t.action
    case PushAction => Ok(Lowered(S.PushTrans(trig, dst), []))
    case AnonTrans(fn) =>
      var a :- LowerAnon(fn, "", defs);
      Ok(Lowered(S.CallTrans(trig, dst, a.value), a.hoisted))
    case NamedTrans(f) => Ok(Lowered(S.CallTrans(trig, dst, f), []))
  }

  /** The hint of the action of a do-handler: the flattened state name, `_do_`, then the trigger. */
  function DoHint(state: QualifiedName, trig: string): string
  {
    FlattenName(state) + "_do_" + trig
  }

  /** `genDoDecl`: DEFER, IGNORE, an inline action hoisted under the do hint, or a named function. */
  function LowerDoDecl(d: DoDecl, defs: map<string, S.Type>): Result<Lowered<S.DoDecl>>
  {
    var trig :- Trig(d.trig);
    match d.action
    case DeferAction => Ok(Lowered(S.Defer(trig), []))
    case IgnoreAction => Ok(Lowered(S.Ignore(trig), []))
    case AnonDo(fn) =>
      var a :- LowerAnon(fn, DoHint(d.src.name, trig), defs);
      Ok(Lowered(S.CallDo(trig, a.value), a.hoisted))
    case NamedDo(f) => Ok(Lowered(S.CallDo(trig, f), []))
  }

  /** Handlers of differently named states, on the same trigger, get different action hints. */
  lemma DoHintInjective(n1: QualifiedName, n2: QualifiedName, trig: string)
    requires FlattenName(n1) != FlattenName(n2)
    ensures DoHint(n1, trig) != DoHint(n2, trig)
  {
    var f1, f2 := FlattenName(n1), FlattenName(n2);
    var suffix := "_do_" + trig;
    assert DoHint(n1, trig) == f1 + suffix && DoHint(n2, trig) == f2 + suffix;
    if |f1| == |f2| {
      assert (f1 + suffix)[..|f1|] == f1 && (f2 + suffix)[..|f2|] == f2;
    }
  }

  /**
   * Transitions and do-handlers keep their trigger (NULL and HALT as the built-in
   * events); a call-style one names the hoisted action or the named function, and only
   * inline actions hoist.
   */
  lemma HandlerShape(t: TransDecl, d: DoDecl, defs: map<string, S.Type>)
    ensures LowerTransDecl(t, defs).Ok? ==>
      var r := LowerTransDecl(t, defs).value;
      Ok(r.value.trig) == Trig(t.trig) && r.value.dest == FlattenName(t.dst) &&
      (r.value.PushTrans? <==> t.action.PushAction?) &&
      (t.action.NamedTrans? ==> r.value == S.CallTrans(r.value.trig, r.value.dest, t.action.fun) && r.hoisted == []) &&
      (t.action.AnonTrans? ==> r.value.action == HoistName(t.action.fn.ownerFun, "") && |r.hoisted| >= 1)
    ensures LowerDoDecl(d, defs).Ok? ==>
      var r := LowerDoDecl(d, defs).value;
      Ok(r.value.trig) == Trig(d.trig) &&
      (r.value.Defer? <==> d.action.DeferAction?) &&
      (r.value.Ignore? <==> d.action.IgnoreAction?) &&
      (d.action.NamedDo? ==> r.value == S.CallDo(r.value.trig, d.action.fun) && r.hoisted == []) &&
      (d.action.AnonDo? ==> r.value.action == HoistName(d.action.fn.ownerFun, DoHint(d.src.name, r.value.trig)) && |r.hoisted| >= 1)
  {
    if LowerTransDecl(t, defs).Ok? && t.action.AnonTrans? {
      AnonHoist(t.action.fn, "", defs);
    }
    if LowerDoDecl(d, defs).Ok? && d.action.AnonDo? {
      AnonHoist(d.action.fn, DoHint(d.src.name, Trig(d.trig).value), defs);
    }
  }

  /** The key a state's handlers are filed under: its machine, `+`, its flattened name. */
  function StateKey(owner: string, state: string): string
  {
    owner + "+" + state
  }

  /** The key of the state a transition or do-handler leaves from. */
  function GroupKey(src: StateRef): string
  {
    StateKey(src.owner, FlattenName(src.name))
  }

  /** Distinct states of one machine have distinct keys, and so do equally named states of distinct machines that contain no `+`. */
  lemma StateKeyInjective(o1: string, n1: string, o2: string, n2: string)
    requires '+' !in o1 && '+' !in o2
    requires StateKey(o1, n1) == StateKey(o2, n2)
    ensures o1 == o2 && n1 == n2
  {
    var k := StateKey(o1, n1);
    FirstPlus(o1, n1);
    FirstPlus(o2, n2);
    assert |o1| == |o2|;
    assert o1 == k[..|o1|] == o2;
    assert n1 == k[|o1| + 1..] == n2;
  }

  /** In a key, the first `+` follows the machine name when that name has none. */
  lemma FirstPlus(o: string, n: string)
    requires '+' !in o
    ensures forall i :: 0 <= i < |o| ==> StateKey(o, n)[i] != '+'
    ensures StateKey(o, n)[|o|] == '+'
  {
    forall i | 0 <= i < |o| ensures StateKey(o, n)[i] != '+' {
      assert StateKey(o, n)[i] == o[i];
    }
  }

  /** The entry or exit action of a state: absent, an inline action hoisted under `hint`, or a named function. */
  function LowerStateAction(a: StateAction, hint: string, defs: map<string, S.Type>): Result<Lowered<Option<string>>>
  {
    match a
    case NoAction => Ok(Lowered(None, []))
    case AnonAction(fn) =>
      var r :- LowerAnon(fn, hint, defs);
      Ok(Lowered(Some(r.value), r.hoisted))
    case NamedAction(f) => Ok(Lowered(Some(f), []))
  }

  /** An entry or exit action names its hoisted function when inline, itself when named, and nothing when absent. */
  lemma StateActionShape(a: StateAction, hint: string, defs: map<string, S.Type>)
    ensures LowerStateAction(a, hint, defs).Ok? ==>
      var v := LowerStateAction(a, hint, defs).value.value;
      (v.Some? <==> !a.NoAction?) &&
      (a.NamedAction? ==> v == Some(a.fun)) &&
      (a.AnonAction? ==> v == Some(HoistName(a.fn.ownerFun, hint)))
  {
    if a.AnonAction? && LowerStateAction(a, hint, defs).Ok? {
      AnonHoist(a.fn, hint, defs);
    }
  }

  /**
   * `genStateDecl`: the entry action is hoisted with the suffix `_entry` and the exit
   * action with `_exit`; the transitions and handlers are those filed under the state's key.
   */
  function LowerStateDecl(st: StateDecl, transitions: map<string, seq<S.TransDecl>>, dos: map<string, seq<S.DoDecl>>,
                          defs: map<string, S.Type>): Result<Lowered<S.StateDecl>>
  {
    var name := FlattenName(st.name);
    var entry :- LowerStateAction(st.entryAction, name + "_entry", defs);
    var exit :- LowerStateAction(st.exitFun, name + "_exit", defs);
    var key := StateKey(st.owner, name);
    var decl := S.StateDecl(name, st.temperature, entry.value, exit.value, ListAt(transitions, key), ListAt(dos, key));
    Ok(Lowered(decl, entry.hoisted + exit.hoisted))
  }

  /**
   * A state keeps its flattened name and temperature; a named entry or exit action is
   * kept, an inline one is named by its hoisted function (`_entry`, `_exit`), and inline
   * entry and exit actions of the same owner function get distinct names; the state's
   * handlers are exactly the lists filed under its key.
   */
  lemma StateDeclShape(st: StateDecl, transitions: map<string, seq<S.TransDecl>>, dos: map<string, seq<S.DoDecl>>,
                       defs: map<string, S.Type>)
    requires LowerStateDecl(st, transitions, dos, defs).Ok?
    ensures var r := LowerStateDecl(st, transitions, dos, defs).value.value;
      r.name == FlattenName(st.name) && r.temperature == st.temperature &&
      r.transitions == ListAt(transitions, StateKey(st.owner, r.name)) &&
      r.dos == ListAt(dos, StateKey(st.owner, r.name)) &&
      (r.entry.Some? <==> !st.entryAction.NoAction?) &&
      (r.exit.Some? <==> !st.exitFun.NoAction?) &&
      (st.entryAction.NamedAction? ==> r.entry == Some(st.entryAction.fun)) &&
      (st.exitFun.NamedAction? ==> r.exit == Some(st.exitFun.fun)) &&
      (st.entryAction.AnonAction? ==> r.entry == Some(HoistName(st.entryAction.fn.ownerFun, r.name + "_entry"))) &&
      (st.exitFun.AnonAction? ==> r.exit == Some(HoistName(st.exitFun.fn.ownerFun, r.name + "_exit"))) &&
      ((st.entryAction.AnonAction? && st.exitFun.AnonAction? &&
        st.entryAction.fn.ownerFun == st.exitFun.fn.ownerFun) ==> r.entry != r.exit)
  {
    var name := FlattenName(st.name);
    StateActionShape(st.entryAction, name + "_entry", defs);
    StateActionShape(st.exitFun, name + "_exit", defs);
    if st.entryAction.AnonAction? && st.exitFun.AnonAction? && st.entryAction.fn.ownerFun == st.exitFun.fn.ownerFun {
      assert (name + "_entry")[|name| + 1] == 'e' && (name + "_exit")[|name| + 1] == 'e';
      assert (name + "_entry")[|name| + 2] == 'n' && (name + "_exit")[|name| + 2] == 'x';
      HoistNameInjective(st.entryAction.fn.ownerFun, name + "_entry", name + "_exit");
    }
  }

  /** The tables a machine declaration reads, each keyed by machine name. */
  datatype MachineTables = MachineTables(
    states: map<string, seq<S.StateDecl>>,
    vars: map<string, seq<S.VarDecl>>,
    functions: map<string, seq<S.FunDecl>>,
    monitored: map<string, seq<string>>)

  /**
   * `genMachineDecl`: the machine's states, globals and functions are the lists under
   * its name; a MONITOR lists the events it observes; a MODEL is flagged as such.
   */
  function LowerMachineDecl(m: MachineDecl, t: MachineTables): Result<S.MachineDecl>
  {
    var isMonitor := m.kind == "MONITOR";
    var monitored := if isMonitor then Some(ListAt(t.monitored, m.name)) else None;
    var card :- if m.card.Some? then
        var c :- LowerQueueConstraint(m.card.value);
        Ok(Some(c))
      else Ok(None);
    Ok(S.MachineDecl(m.name, FlattenName(m.start), ListAt(t.vars, m.name), ListAt(t.functions, m.name),
                     ListAt(t.states, m.name), isMonitor, monitored, card, m.kind == "MODEL"))
  }

  /**
   * A machine lowers exactly when its card does. It keeps its name and flattened start
   * state; its globals, functions and states are the lists filed under its name; it is a
   * monitor exactly when declared MONITOR, and then (only then) lists the events filed
   * under its name; it is a model exactly when declared MODEL, never both; its card is the
   * lowered declared card, present exactly when declared.
   */
  lemma MachineDeclShape(m: MachineDecl, t: MachineTables)
    ensures LowerMachineDecl(m, t).Ok? <==> (m.card.Some? ==> LowerQueueConstraint(m.card.value).Ok?)
    ensures LowerMachineDecl(m, t).Ok? ==>
      var r := LowerMachineDecl(m, t).value;
      r.name == m.name && r.start == FlattenName(m.start) &&
      r.globals == ListAt(t.vars, m.name) &&
      r.functions == ListAt(t.functions, m.name) &&
      r.states == ListAt(t.states, m.name) &&
      (r.isMonitor <==> r.monitored.Some?) &&
      (r.isMonitor <==> m.kind == "MONITOR") &&
      r.monitored == (if m.kind == "MONITOR" then Some(ListAt(t.monitored, m.name)) else None) &&
      (r.isModel <==> m.kind == "MODEL") &&
      !(r.isMonitor && r.isModel) &&
      (r.card.Some? <==> m.card.Some?) &&
      (m.card.Some? ==> Ok(r.card.value) == LowerQueueConstraint(m.card.value))
  {
  }
}
