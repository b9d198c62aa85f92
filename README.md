# The P term-to-AST lowering pass, in Dafny

This project models `FSharpExpGen`, the pass of the P compiler tool chain that takes the
term tree produced by the P front end and builds the typed AST (`Syntax.ProgramDecl`) of a
P program: its machines, states, events, handlers and functions.

The model has two halves.

- **Pure lowering.** Each `gen*` routine that builds a value from a term is a function.
  This covers types, qualified names, triggers, expressions, lvalues, statements and
  declarations. Routines that also append a hoisted anonymous function to the generator's
  lists return that function in a `Lowered(value, hoisted)` pair instead. The list
  registration is a separate step (`Session.Register`). This is equivalent, because
  lowering never reads those lists.
- **The generator object.** `Generator.FSharpExpGen` is a class. It holds the generator's
  dictionaries and lists as fields (`typeDefs`, `events`, `statesToDos`,
  `statesToTransitions`, `machineToFunList`, `monitorToEventList`, `machines`,
  `staticFunctions`, `mainMachine`, ...).
  - Its methods update those fields as the source does: `addTypeDefs` is a `while` fixpoint
    loop, and `genFSExprs` loops over program units and declaration groups.
  - Each method is proved against a specification function over a snapshot of the fields:
    `Session.Step`/`Steps`/`Run` for the driver, and `TypeDefs.Pass`/`Settle`/`Resolve` for
    the typedef fixpoint.
  - Lemmas about those functions state what the pass guarantees:
    - the events are seeded with `halt` and `null` and keep declaration order;
    - handlers are grouped by the key `machine + '+' + state`;
    - every hoisted function lands in exactly one list;
    - the fixpoint only adds justified definitions and never overwrites one.

Input terms are closed datatypes (`Terms`). Every NIL-terminated chain (`TupType`,
`NmdTupType`, `Exprs`, `NamedExprs`, `Seq`, `Cases`, variable lists) is a `Chain<T>`.
Loosely typed leaves are constants (`Cnst`): string and rational constants, symbols. Where
the source reads a leaf with `getString`/`getValue`, the model reads it with partial
accessors that return a `Result`.

Where the source misbehaves, the main model uses the evident intent. The module `AsWritten`
(findings.dfy) models each such construct literally and proves an input that exposes it
(see "## Findings").

## Model

| member | source | states |
|---|---|---|
| Terms.GetStringIsPartial | ConsoleApplication2/FsharpExpGen.cs:45-57 | reading a string succeeds exactly on string constants |
| Terms.GetValueExact | ConsoleApplication2/FsharpExpGen.cs:59-73 | a value read is an integral rational equal to the result, within the 32-bit range |
| Terms.IntCnstRoundTrip | ConsoleApplication2/FsharpExpGen.cs:59-73 | an integer constant reads back as itself exactly when it fits in 32 bits |
| TypeLowering.LowerType | ConsoleApplication2/FsharpExpGen.cs:188-216 | the lowering of a type expression: a name reads the typedef table, a base tag maps to its built-in type, sequence, map and tuple types lower their parts; what it promises is stated by LowerTypeDefined and LowerTypeMonotone |
| TypeLowering.LowerTypeDefined | ConsoleApplication2/FsharpExpGen.cs:92-216 | a type expression lowers iff every name it refers to is already defined and every base-type tag is known (an undefined name's null propagates through tuple, sequence and map types) |
| TypeLowering.LowerTypesDefined | ConsoleApplication2/FsharpExpGen.cs:121-134 | a tuple's element types lower iff all their names are defined and all tags known |
| TypeLowering.LowerFieldsDefined | ConsoleApplication2/FsharpExpGen.cs:136-159 | a named tuple's fields lower iff all their names are defined and all tags known |
| TypeLowering.LowerTypeMonotone | ConsoleApplication2/FsharpExpGen.cs:178-186 | a type that lowers under some definitions lowers to the same type under any extension of them |
| TypeLowering.LowerTypesMonotone | ConsoleApplication2/FsharpExpGen.cs:121-134 | the same monotonicity for tuple element types |
| TypeLowering.LowerFieldsMonotone | ConsoleApplication2/FsharpExpGen.cs:145-159 | the same monotonicity for named-tuple fields |
| TypeLowering.LowerTypesElementwise | ConsoleApplication2/FsharpExpGen.cs:121-134 | tuple element types lower iff each element does; the result has one entry per element, in order |
| TypeLowering.LowerFieldsElementwise | ConsoleApplication2/FsharpExpGen.cs:136-159 | named-tuple fields keep their names and order and each field's type is its lowered type |
| TypeLowering.LowerTupTypeLoop | ConsoleApplication2/FsharpExpGen.cs:121-134 | the accumulating loop over the element chain computes the tuple type |
| TypeLowering.LowerNmdTupTypeLoop | ConsoleApplication2/FsharpExpGen.cs:145-159 | the accumulating loop over the field chain computes the named tuple type |
| TypeDefs.Settle | ConsoleApplication2/FsharpExpGen.cs:1042-1058 | the fixpoint of `addTypeDefs`: passes repeat until nothing is pending or a pass adds nothing; stated by SettleSound and ResolveOrderIndependent |
| TypeDefs.Resolve | ConsoleApplication2/FsharpExpGen.cs:1042-1058 | the table the fixpoint reaches, or the first unresolved name; stated by ResolveSound and ResolveOrderIndependent |
| TypeDefs.VisitExtends | ConsoleApplication2/FsharpExpGen.cs:1031-1040 | visiting one definition never changes or removes an entry and adds at most its own name |
| TypeDefs.PassExtends | ConsoleApplication2/FsharpExpGen.cs:1042-1058 | a pass over the definitions keeps every existing entry and adds only defined names |
| TypeDefs.PassJustified | ConsoleApplication2/FsharpExpGen.cs:1042-1058 | every entry a pass adds is the lowering of that name's type expression under the table it ends with |
| TypeDefs.PendingShrinks | ConsoleApplication2/FsharpExpGen.cs:1042-1058 | a pass that adds something strictly shrinks the set of undefined names (the fixpoint's termination measure) |
| TypeDefs.GrowthShrinksPending | ConsoleApplication2/FsharpExpGen.cs:1042-1058 | any growth of the table by defined names strictly shrinks the undefined names |
| TypeDefs.PassPrefixExtends | ConsoleApplication2/FsharpExpGen.cs:1047-1056 | the table after visiting a prefix of the list is extended by the table after the whole pass |
| TypeDefs.PassStuck | ConsoleApplication2/FsharpExpGen.cs:1042-1058 | a pass that adds no key changes nothing, and every still-undefined definition then fails to lower |
| TypeDefs.SettleSound | ConsoleApplication2/FsharpExpGen.cs:1042-1058 | the fixpoint extends the initial table by justified entries for defined names only, and each name it leaves undefined does not lower under the final table |
| TypeDefs.ResolveSound | ConsoleApplication2/FsharpExpGen.cs:1042-1058 | on success every definition's name is defined, and the definitions are justified and extend the initial ones; on failure the reported name is one of the definitions' names and was not defined initially |
| TypeDefs.FirstPendingIsPending | ConsoleApplication2/FsharpExpGen.cs:1042-1058 | the name reported as unresolved is indeed still undefined |
| TypeDefs.SettleClosed | ConsoleApplication2/FsharpExpGen.cs:1042-1058 | the table the fixpoint reaches keeps the starting table, justifies each new entry by its definition, and leaves out only definitions that do not lower against it |
| TypeDefs.VisitBelow | ConsoleApplication2/FsharpExpGen.cs:1031-1040 | visiting a definition from a closed table's list, starting below that table, stays below it (with no two definitions sharing a name) |
| TypeDefs.PassBelow | ConsoleApplication2/FsharpExpGen.cs:1047-1056 | the same for a whole pass over definitions drawn from that list |
| TypeDefs.SettleBelow | ConsoleApplication2/FsharpExpGen.cs:1042-1058 | the same for the whole fixpoint: it reaches no more than any closed table |
| TypeDefs.ResolveOrderIndependent | ConsoleApplication2/FsharpExpGen.cs:1042-1058 | when no two definitions share a name, listing them in another order gives the same table, succeeds exactly when the original order does, and gives the same result |
| TypeDefs.BackwardReferenceResolves | ConsoleApplication2/FsharpExpGen.cs:1042-1058 | `T2 = int` followed by `T1 = seq[T2]` resolves to `T1 = seq[int]`, `T2 = int` |
| TypeDefs.ForwardReference | ConsoleApplication2/FsharpExpGen.cs:1042-1058 | a definition may refer to one listed after it: both orders of those two definitions resolve to the same table |
| Names.FlattenName | ConsoleApplication2/FsharpExpGen.cs:80-90 | a qualified name's parts joined with `_`; stated by FlattenIsJoin and FlattenBoundaries |
| Names.PartsOfNameOf | ConsoleApplication2/FsharpExpGen.cs:80-90 | building a qualified name from parts and splitting it back gives the parts |
| Names.FlattenIsJoin | ConsoleApplication2/FsharpExpGen.cs:80-90 | a qualified name flattens to its parts, outermost first, joined with `_` |
| Names.PartsNonEmpty | ConsoleApplication2/FsharpExpGen.cs:80-90 | a qualified name has at least one part and its last part is its own name |
| Names.FlattenExamples | ConsoleApplication2/FsharpExpGen.cs:80-90 | `[A,B,C]` flattens to `A_B_C` and `[A]` to `A` |
| Names.FlattenBoundaries | ConsoleApplication2/FsharpExpGen.cs:80-90 | the flattened name starts with the outermost qualifier and ends with the name itself |
| Names.NoOuterUnderscore | ConsoleApplication2/FsharpExpGen.cs:80-90 | when no part is empty or starts or ends with `_`, the flattened name neither starts nor ends with `_` |
| Names.Trig | ConsoleApplication2/FsharpExpGen.cs:931-945 | a trigger: NULL and HALT as the built-in events, an event name as itself; stated by TrigRoundTrip and TrigDefined |
| Names.TrigRoundTrip | ConsoleApplication2/FsharpExpGen.cs:931-945 | a string trigger reads back as its name |
| Names.TrigDefined | ConsoleApplication2/FsharpExpGen.cs:931-945 | a trigger is a string, `NULL` (giving `null`) or `HALT` (giving `halt`); anything else is an error |
| ExprLowering.UnOpRoundTrip | ConsoleApplication2/FsharpExpGen.cs:276-294 | each unary operator's tag dispatches back to that operator |
| ExprLowering.UnOpDispatch | ConsoleApplication2/FsharpExpGen.cs:276-294 | a unary tag dispatches iff it is one of the recognised tags; any other tag is an unsupported-operator error |
| ExprLowering.BinOpRoundTrip | ConsoleApplication2/FsharpExpGen.cs:296-331 | each binary operator's tag dispatches back to that operator |
| ExprLowering.BinOpDispatch | ConsoleApplication2/FsharpExpGen.cs:296-331 | a binary tag dispatches iff it is recognised; any other tag is an unsupported-operator error |
| ExprLowering.OpDispatchInjective | ConsoleApplication2/FsharpExpGen.cs:276-331 | distinct recognised tags give distinct operators |
| ExprLowering.LowerNulApp | ConsoleApplication2/FsharpExpGen.cs:246-274 | a nullary application: an integer constant, or one of TRUE, FALSE, THIS, NONDET, NULL and HALT; any other symbol is an error; stated by NulAppDispatch |
| ExprLowering.NulAppDispatch | ConsoleApplication2/FsharpExpGen.cs:246-274 | a nullary application lowers iff it is an integer or a recognised symbol; integers give integer constants, `TRUE` gives true, `FALSE` gives false, other symbols are errors |
| ExprLowering.SelectorDispatch | ConsoleApplication2/FsharpExpGen.cs:333-347 | a field selector is a string (named access) or a non-negative integer (positional access), and nothing else |
| ExprLowering.SelectorRoundTrip | ConsoleApplication2/FsharpExpGen.cs:333-347 | a selector written as a term reads back as itself |
| ExprLowering.FieldAccess | ConsoleApplication2/FsharpExpGen.cs:333-347 | a string field gives `NamedDot`, an integer field gives `Dot` at that position, and the lvalue of a field access is the same access |
| ExprLowering.LowerExpr | ConsoleApplication2/FsharpExpGen.cs:417-464 | the lowering of an expression, case by case over the term kinds; its list parts are stated by LowerExprsElementwise and LowerNamedExprsElementwise |
| ExprLowering.LowerLval | ConsoleApplication2/FsharpExpGen.cs:569-602 | the lowering of an assignment target; stated by LvalAgrees and LvalDefined |
| ExprLowering.LvalAgrees | ConsoleApplication2/FsharpExpGen.cs:569-602 | an lvalue, read as an expression, is the expression lowering of the same term |
| ExprLowering.LvalDefined | ConsoleApplication2/FsharpExpGen.cs:569-602 | a term lowers to an lvalue iff it is a name, a field access or an `IDX` application over lvalues, and it lowers as an expression |
| ExprLowering.LowerExprsElementwise | ConsoleApplication2/FsharpExpGen.cs:362-373 | an expression list lowers iff each element does; one result per element, in order |
| ExprLowering.LowerNamedExprsElementwise | ConsoleApplication2/FsharpExpGen.cs:375-388 | named expressions keep their field names and order, each with its lowered expression |
| ExprLowering.LowerExprsLoop | ConsoleApplication2/FsharpExpGen.cs:362-373 | the loop over the expression chain computes the list lowering |
| ExprLowering.LowerNamedExprsLoop | ConsoleApplication2/FsharpExpGen.cs:375-388 | the loop over the named-expression chain computes the list lowering |
| StmtLowering.LowerStmt | ConsoleApplication2/FsharpExpGen.cs:670-725 | the lowering of a statement with the functions it hoists; stated by NoReceiveNoHoist, LowerStmtsElementwise and LowerCasesHoisted |
| StmtLowering.LowerAnon | ConsoleApplication2/FsharpExpGen.cs:898-929 | an anonymous function is hoisted under its hint and referred to by that name; stated by AnonHoist |
| StmtLowering.NoReceiveNoHoist | ConsoleApplication2/FsharpExpGen.cs:670-725 | a statement without a receive hoists no function |
| StmtLowering.NoReceiveInNoHoist | ConsoleApplication2/FsharpExpGen.cs:629-641 | a statement sequence without a receive hoists no function |
| StmtLowering.LastIsLastElement | ConsoleApplication2/FsharpExpGen.cs:905-913 | the walk to the end of the captured-variable chain finds its last element |
| StmtLowering.LowerVarsElementwise | ConsoleApplication2/FsharpExpGen.cs:841-860 | variable declarations keep their names and order, each with its lowered type |
| StmtLowering.AnonHoist | ConsoleApplication2/FsharpExpGen.cs:898-929 | an inline action hoists its body's functions and then exactly one function: named by the returned name, with the action's owner, the lowered body and locals, no return type, and the last captured variable as its only parameter (none when nothing is captured) |
| StmtLowering.HoistNameShape | ConsoleApplication2/FsharpExpGen.cs:900-902 | the hoisted name is the hint, prefixed by the owner function and `_` when there is one |
| StmtLowering.HoistNameInjective | ConsoleApplication2/FsharpExpGen.cs:900-902 | different hints give different hoisted names |
| StmtLowering.CaseHintInjective | ConsoleApplication2/FsharpExpGen.cs:643-649 | different case triggers give different hints |
| StmtLowering.LowerCasesElementwise | ConsoleApplication2/FsharpExpGen.cs:643-661 | a receive lists one entry per case, in order, pairing its trigger with the hoisted action's name |
| StmtLowering.LowerCasesHoisted | ConsoleApplication2/FsharpExpGen.cs:643-661 | every action name a receive lists is the name of a function it hoists |
| StmtLowering.ReceiveNamesDistinct | ConsoleApplication2/FsharpExpGen.cs:643-661 | cases with distinct triggers get distinct action names |
| StmtLowering.LowerStmtsElementwise | ConsoleApplication2/FsharpExpGen.cs:629-641 | a sequence lowers iff each statement does, one lowered statement per statement, in order |
| StmtLowering.LowerBinStmt | ConsoleApplication2/FsharpExpGen.cs:537-567 | the lowering of REMOVE, ASSIGN and INSERT; stated by BinStmtDispatch and InsertArity |
| StmtLowering.InsertArity | ConsoleApplication2/FsharpExpGen.cs:551-565 | `INSERT` succeeds iff its value is a tuple of exactly two lowerable expressions and gives `Insert(lval, first, second)`; a non-tuple, an empty tuple, or a tuple of any other length whose leading elements lower is a malformed-insert error |
| StmtLowering.BinStmtDispatch | ConsoleApplication2/FsharpExpGen.cs:537-567 | `REMOVE` and `ASSIGN` build their statements over the lowered lvalue and expression; an lvalue error propagates; any other tag is an unsupported-operator error |
| StmtLowering.LowerFunDecl | ConsoleApplication2/FsharpExpGen.cs:862-893 | the lowering of a named function; stated by FunDeclShape |
| StmtLowering.FunDeclShape | ConsoleApplication2/FsharpExpGen.cs:862-893 | a function keeps its name; its body is its lowered body; it has a return type iff declared, and that type is the lowered one; it is a model iff its kind is MODEL and pure iff its kind is PURE, never both; its parameters and locals are the declared ones, in order, with lowered types; it hoists exactly what its body hoists |
| StmtLowering.LowerVarsLoop | ConsoleApplication2/FsharpExpGen.cs:848-860 | the loop over the variable chain computes the declaration list |
| StmtLowering.LastLoop | ConsoleApplication2/FsharpExpGen.cs:905-913 | the walk along the chain returns its last element |
| StmtLowering.LowerStmtsLoop | ConsoleApplication2/FsharpExpGen.cs:629-641 | the loop over the statement chain computes the sequence lowering |
| StmtLowering.LowerReceiveLoop | ConsoleApplication2/FsharpExpGen.cs:651-661 | the loop over the cases computes the receive lowering |
| Tables.Append | ConsoleApplication2/FsharpExpGen.cs:1090-1092 | appending under a key creates the list when absent, extends that list by one item and leaves every other key's list as it was |
| Tables.GroupAllSpec | ConsoleApplication2/FsharpExpGen.cs:1082-1106 | after grouping, each key's list is its old list followed by exactly the items filed under it, in input order |
| Tables.GroupAllAppend | ConsoleApplication2/FsharpExpGen.cs:1082-1106 | grouping two batches one after the other equals grouping their concatenation |
| DeclLowering.LowerQueueConstraint | ConsoleApplication2/FsharpExpGen.cs:782-797 | `assert n` and `assume n` cards; stated by QueueConstraintRoundTrip and QueueConstraintDefined |
| DeclLowering.QueueConstraintRoundTrip | ConsoleApplication2/FsharpExpGen.cs:782-797 | a card written as a queue constraint reads back as itself |
| DeclLowering.QueueConstraintDefined | ConsoleApplication2/FsharpExpGen.cs:782-797 | a queue constraint lowers iff its bound reads as an integer; it keeps its bound and its assert/assume kind |
| DeclLowering.LowerEventDecl | ConsoleApplication2/FsharpExpGen.cs:727-743 | the lowering of an event declaration; stated by EventDeclShape |
| DeclLowering.EventDeclShape | ConsoleApplication2/FsharpExpGen.cs:727-743 | an event lowers iff its card (when present) does; it keeps its name; it has a payload iff declared, and that payload is the lowered type; it has a card iff declared |
| DeclLowering.LowerTransDecl | ConsoleApplication2/FsharpExpGen.cs:947-965 | the lowering of a transition; stated by HandlerShape |
| DeclLowering.LowerDoDecl | ConsoleApplication2/FsharpExpGen.cs:967-990 | the lowering of a do-handler; stated by HandlerShape and DoHintInjective |
| DeclLowering.HandlerShape | ConsoleApplication2/FsharpExpGen.cs:947-990 | transitions and do-handlers keep their trigger and target; push, defer and ignore keep their kind; named actions are called by name without hoisting; inline actions are hoisted and called by the hoisted name |
| DeclLowering.DoHintInjective | ConsoleApplication2/FsharpExpGen.cs:979-980 | on one trigger, states with different flattened names get different do-action hints |
| DeclLowering.StateKeyInjective | ConsoleApplication2/FsharpExpGen.cs:1086-1089 | for machine names without `+`, the key `machine + '+' + state` determines both machine and state |
| DeclLowering.LowerStateDecl | ConsoleApplication2/FsharpExpGen.cs:806-839 | the lowering of a state declaration; stated by StateDeclShape |
| DeclLowering.StateActionShape | ConsoleApplication2/FsharpExpGen.cs:814-833 | a state action is present iff declared; a named one is kept, an inline one is the function hoisted under the given hint |
| DeclLowering.StateDeclShape | ConsoleApplication2/FsharpExpGen.cs:806-839 | a state gets its flattened name and its temperature, and exactly the transitions and do-handlers filed under its key; a named entry or exit action is kept as named; an inline one is the function hoisted under `<state>_entry` or `<state>_exit`; the two inline actions get different names |
| DeclLowering.LowerMachineDecl | ConsoleApplication2/FsharpExpGen.cs:745-780 | the lowering of a machine declaration against the tables filed by name; stated by MachineDeclShape |
| DeclLowering.MachineDeclShape | ConsoleApplication2/FsharpExpGen.cs:745-780 | a machine lowers iff its card does, and its card is then the lowered one; it keeps its name and flattened start state; its states, globals and functions are the lists filed under its name; a MONITOR gets exactly the event list filed under its name, and any other kind gets none; it is a model iff its kind is MODEL, never both monitor and model |
| Session.Step | ConsoleApplication2/FsharpExpGen.cs:1076-1137 | one declaration added to the session, by kind; stated by StepEvents, StepDos, StepTrans, StepMonitor, StepMain and StepGrows |
| Session.Run | ConsoleApplication2/FsharpExpGen.cs:1070-1138 | all declarations of all units, in the order the driver adds them; stated by StepsAppend and the grouping lemmas |
| Session.LowerProgram | ConsoleApplication2/FsharpExpGen.cs:1157-1169 | the program: main machine, machines, events and static functions of the session after resolving typedefs and running every unit; stated by ProgramEvents |
| Session.StepsAppend | ConsoleApplication2/FsharpExpGen.cs:1070-1138 | processing two batches of declarations one after the other equals processing their concatenation |
| Session.RegisterSpec | ConsoleApplication2/FsharpExpGen.cs:918-926 | registration appends the ownerless functions to the static list and each owned function to its machine's list, in order; nothing else changes |
| Session.RegisterAppend | ConsoleApplication2/FsharpExpGen.cs:918-926 | registering two batches in turn equals registering their concatenation |
| Session.RegisterNone | ConsoleApplication2/FsharpExpGen.cs:918-926 | registering nothing changes nothing |
| Session.RegisterSingle | ConsoleApplication2/FsharpExpGen.cs:918-926 | a hoisted function lands in exactly one list: its machine's list (created when absent) or the static list |
| Session.StepKeepsTypeDefs | ConsoleApplication2/FsharpExpGen.cs:1076-1137 | declaration processing never changes the type definitions |
| Session.StepEvents | ConsoleApplication2/FsharpExpGen.cs:1077-1080 | an event declaration appends its lowered event; other declarations leave the events alone |
| Session.StepDos | ConsoleApplication2/FsharpExpGen.cs:1082-1093 | a do-handler is appended under its state's key only; other keys and other declarations leave the lists alone |
| Session.StepTrans | ConsoleApplication2/FsharpExpGen.cs:1095-1106 | a transition is appended under its state's key only |
| Session.StepMonitor | ConsoleApplication2/FsharpExpGen.cs:1125-1131 | an observes edge appends its event under its monitor only |
| Session.StepMain | ConsoleApplication2/FsharpExpGen.cs:759-760 | only a machine marked main changes the main machine, to its own name |
| Session.StepGrows | ConsoleApplication2/FsharpExpGen.cs:1076-1137 | one declaration only appends: the static functions, machines, events and every machine's function list keep their old contents as a prefix |
| Session.StepsKeepTypeDefs | ConsoleApplication2/FsharpExpGen.cs:1076-1137 | the whole declaration loop keeps the type definitions |
| Session.EventsInOrder | ConsoleApplication2/FsharpExpGen.cs:1077-1080 | the events after the loop are the earlier events followed by the declared events, lowered, in declaration order |
| Session.DosGroupedByState | ConsoleApplication2/FsharpExpGen.cs:1082-1093 | each key's do-handler list is its old list followed by exactly the handlers of that state, in declaration order |
| Session.TransGroupedByState | ConsoleApplication2/FsharpExpGen.cs:1095-1106 | each key's transition list is its old list followed by exactly the transitions of that state, in declaration order |
| Session.MonitorEvents | ConsoleApplication2/FsharpExpGen.cs:1125-1131 | each monitor's list is its old list followed by exactly the events it observes, in order |
| Session.MonitorSeesObserved | ConsoleApplication2/FsharpExpGen.cs:1125-1131 | a monitor lowered after a run of declarations gets the events it had plus those the run's observes edges add for it, in order |
| Session.MonitorScenario | ConsoleApplication2/FsharpExpGen.cs:1125-1131 | a monitor observing `e1` then `e2`, declared after both edges, is lowered with exactly `[e1, e2]` as its observed events |
| Session.MainMachineIsLast | ConsoleApplication2/FsharpExpGen.cs:1133-1136 | the main machine is the last machine marked main, or the initial value when none is |
| Session.StepsOnlyAppend | ConsoleApplication2/FsharpExpGen.cs:1076-1137 | the whole loop only appends to the static functions, machines, events and function lists |
| Session.StepKeepsMachineLists | ConsoleApplication2/FsharpExpGen.cs:1076-1137 | no declaration writes the state and variable lists of machines |
| Session.StepsKeepMachineLists | ConsoleApplication2/FsharpExpGen.cs:1076-1137 | the whole loop leaves the state and variable lists of machines as they were |
| Session.ProgramEvents | ConsoleApplication2/FsharpExpGen.cs:36-43 | a program's events start with `halt` and `null`, followed by the declared events in order |
| Generator.FSharpExpGen.constructor | ConsoleApplication2/FsharpExpGen.cs:36-43 | a new generator holds the two built-in events and otherwise empty tables |
| Generator.FSharpExpGen.RegisterHoisted | ConsoleApplication2/FsharpExpGen.cs:918-926 | appending hoisted functions one at a time reaches the registration of all of them |
| Generator.FSharpExpGen.GenAnonFunDecl | ConsoleApplication2/FsharpExpGen.cs:898-929 | returns the hoisted name and registers exactly the functions the action hoists; errors propagate |
| Generator.FSharpExpGen.GenFunDecl | ConsoleApplication2/FsharpExpGen.cs:862-893 | returns the lowered function and registers what its body hoists |
| Generator.FSharpExpGen.GenTransDecl | ConsoleApplication2/FsharpExpGen.cs:947-965 | returns the lowered transition and registers what it hoists |
| Generator.FSharpExpGen.GenDoDecl | ConsoleApplication2/FsharpExpGen.cs:967-990 | returns the lowered do-handler and registers what it hoists |
| Generator.FSharpExpGen.GenStateAction | ConsoleApplication2/FsharpExpGen.cs:814-833 | returns the entry or exit action's name (hoisting an inline one) or none |
| Generator.FSharpExpGen.GenStateDecl | ConsoleApplication2/FsharpExpGen.cs:806-839 | returns the lowered state, reading the grouped handlers, and registers what its actions hoist |
| Generator.FSharpExpGen.GenMachineDecl | ConsoleApplication2/FsharpExpGen.cs:745-780 | returns the lowered machine from the current tables and updates only the main machine |
| Generator.FSharpExpGen.AddEvent | ConsoleApplication2/FsharpExpGen.cs:1077-1080 | the object reaches the state one event step specifies |
| Generator.FSharpExpGen.AddDo | ConsoleApplication2/FsharpExpGen.cs:1082-1093 | the object reaches the state one do-handler step specifies |
| Generator.FSharpExpGen.AddTrans | ConsoleApplication2/FsharpExpGen.cs:1095-1106 | the object reaches the state one transition step specifies |
| Generator.FSharpExpGen.AddFunction | ConsoleApplication2/FsharpExpGen.cs:1108-1123 | the object reaches the state one function step specifies |
| Generator.FSharpExpGen.AddObserves | ConsoleApplication2/FsharpExpGen.cs:1125-1131 | the object reaches the state one observes step specifies |
| Generator.FSharpExpGen.AddMachine | ConsoleApplication2/FsharpExpGen.cs:1133-1136 | the object reaches the state one machine step specifies |
| Generator.FSharpExpGen.AddItem | ConsoleApplication2/FsharpExpGen.cs:1076-1137 | one declaration of any kind moves the object as the step function says |
| Generator.FSharpExpGen.AddItems | ConsoleApplication2/FsharpExpGen.cs:1076-1137 | a loop over declarations moves the object as the steps function says |
| Generator.FSharpExpGen.AddGroup | ConsoleApplication2/FsharpExpGen.cs:1076-1137 | continuing with one more group of declarations extends the specified run by that group |
| Generator.FSharpExpGen.GenUnit | ConsoleApplication2/FsharpExpGen.cs:1076-1137 | one program unit's groups (events, dos, transitions, functions, observes, machines, in that order) move the object as specified |
| Generator.FSharpExpGen.AddTypeDef | ConsoleApplication2/FsharpExpGen.cs:1031-1040 | when the type lowers against the current table, its name is set to the lowered type, overwriting any earlier entry; otherwise the table is unchanged; nothing else changes |
| Generator.FSharpExpGen.TypeDefPass | ConsoleApplication2/FsharpExpGen.cs:1047-1056 | one pass computes the pass function and reports whether it added a name |
| Generator.FSharpExpGen.AddTypeDefs | ConsoleApplication2/FsharpExpGen.cs:1042-1058 | the loop terminates in the fixpoint of the passes and reports the first unresolved name when one remains |
| Generator.FSharpExpGen.FixTypeDefs | ConsoleApplication2/FsharpExpGen.cs:1060-1068 | the definitions of all units, in order, are resolved together |
| Generator.FSharpExpGen.GenFSExprs | ConsoleApplication2/FsharpExpGen.cs:1070-1138 | the object reaches the state the run over all units specifies |
| Generator.FSharpExpGen.GenFSExpression | ConsoleApplication2/FsharpExpGen.cs:1157-1169 | returns the program the lowering of all units specifies |
| AsWritten.DoWhileDropsLast | ConsoleApplication2/FsharpExpGen.cs:852-857 | the loop as written collects all but the last element of a chain of two or more |
| AsWritten.DoWhileCounterexamples | ConsoleApplication2/FsharpExpGen.cs:852-857 | on `[1]` the loop as written dereferences NIL; on `[1, 2]` it collects only `[1]` |
| AsWritten.ReceiveAfter | ConsoleApplication2/FsharpExpGen.cs:651-661 | the receive loop's case variable always holds a case |
| AsWritten.ReceiveNeverAdvances | ConsoleApplication2/FsharpExpGen.cs:655-658 | after n iterations as written the case variable is unchanged and n copies of the first case are collected |
| AsWritten.ReceiveDiverges | ConsoleApplication2/FsharpExpGen.cs:655-658 | with two or more cases the exit test fails after every iteration |
| AsWritten.FalseReadsAsTrue | ConsoleApplication2/FsharpExpGen.cs:259-260 | as written `FALSE` and `TRUE` both give true; corrected they differ |
| AsWritten.ExitNamedAsEntry | ConsoleApplication2/FsharpExpGen.cs:814-833 | as written inline entry and exit actions get the same name; corrected they differ |
| AsWritten.CallHandlersLost | ConsoleApplication2/FsharpExpGen.cs:967-990 | as written call-style do-handlers give no handler, though an inline action is still hoisted; corrected they give a call handler |
| AsWritten.DoHintCollides | ConsoleApplication2/FsharpExpGen.cs:979-980 | as written, two states of one owner handling one trigger hoist their inline actions under the same name; corrected, the names differ when the states' flattened names do |
| AsWritten.EventCardMisplaced | ConsoleApplication2/FsharpExpGen.cs:732-742 | as written the card follows the payload test; corrected it is present iff declared |
| AsWritten.EventCardCounterexample | ConsoleApplication2/FsharpExpGen.cs:732-742 | an event with a card and no payload loses its card as written |
| AsWritten.GroupKeyIgnoresState | ConsoleApplication2/FsharpExpGen.cs:1086-1089 | as written all states of a machine share one key, which differs from the key a named state looks up; corrected the keys agree |
| AsWritten.IterSetWhilePending | ConsoleApplication2/FsharpExpGen.cs:1047-1056 | as written the flag is set whenever a name is still undefined after a pass |
| AsWritten.TypeDefLoopDiverges | ConsoleApplication2/FsharpExpGen.cs:1042-1058 | a pass that adds nothing while a name is undefined repeats forever as written |
| AsWritten.TypeDefCounterexample | ConsoleApplication2/FsharpExpGen.cs:1042-1058 | `T = U` with `U` undefined loops as written; corrected it reports `T` |
| AsWritten.MachineReadsAlwaysThrow | ConsoleApplication2/FsharpExpGen.cs:749-754 | as written every machine lowering throws, because the state lists are never filled; corrected a machine lowers iff its card does |
| AsWritten.StateWithoutHandlersThrows | ConsoleApplication2/FsharpExpGen.cs:836-837 | as written, a state with no transition or no do-handler filed under its key throws; corrected, the missing list reads as empty |
| AsWritten.FirstObservesThrows | ConsoleApplication2/FsharpExpGen.cs:1125-1131 | as written the first observes edge of a monitor throws; corrected it starts the list |
| AsWritten.EarlyActionThrows | ConsoleApplication2/FsharpExpGen.cs:918-923 | as written an inline action of a machine with no function list yet throws; corrected the list is created |

## Left out

- Terms.GetValueExact: an integral value outside the 32-bit range is an error here. The source returns -1 for it.
- Terms.GetStringIsPartial: reading a non-string leaf is an error here. The source logs and returns `""`. The empty-string reading is kept only where it decides behaviour: the grouping key (`AsWritten.GroupKeyAsWritten`) and the do-action hint (`AsWritten.DoDeclAsWritten`).
- StmtLowering.BinStmtDispatch: an unknown binary-statement tag is an error here. The source returns `null`. Likewise, `null` from field and lvalue lowering on a bad shape becomes an error.
- NIL lists in the output (parameters, locals, arguments) are empty sequences here, not `null`.
- StmtLowering.LowerCasesElementwise: a receive's state name is always `""`, as in the source, whose statement lowering passes no state name. The names of case actions in different receives of one function are therefore not proved distinct.
- DeclLowering.HandlerShape: an inline transition action is hoisted with the empty hint, as in the source. Such names are not proved distinct across transitions.
- Generator.FSharpExpGen.GenFSExprs: after an error, the object's fields are unspecified. The source throws, and the pass is abandoned.
- Reading the input file, invoking the FORMULA/P compiler, `Environment.Exit`, console logging, the rational-number library behind `getValue`, the F# list and option conversions, `compile.py`, and the commented-out annotation code are not part of this model.
- Generator.FSharpExpGen.GenStateDecl: the driver never calls this method, and in the source no code path lowers states. It is modelled standalone against the grouped handler tables.
- `machineToStateList` and `machineToVars` are fields of the object that nothing in the source writes. They stay empty (`Session.StepsKeepMachineLists`). Machine lowering therefore reads them as empty lists.
- DeclLowering.LowerStateDecl: an absent transition or do-handler list reads as empty here. In the source the indexers at :836-837 throw (see "## Findings").
- Generator.FSharpExpGen.GenMachineDecl: in the source the main machine is updated before the card is lowered, so it would change even when lowering the card throws. Here it changes only on success.

## Findings

| source | as written | input that shows it | evidently intended | confidence | as-written member | corrected member |
|---|---|---|---|---|---|---|
| ConsoleApplication2/FsharpExpGen.cs:852-857 (also :125-132, :149-157, :366-371, :379-386, :633-638) | `do { ...; x = x.tl; } while (x.tl != NIL)` tests the tail of the node it has just moved to | a one-element chain dereferences NIL; a two-element chain `[1, 2]` yields `[1]` | visit every element of the chain | high, not executed | AsWritten.DoWhileCounterexamples | StmtLowering.LowerVarsLoop |
| ConsoleApplication2/FsharpExpGen.cs:655-658 | the receive loop never reassigns its case variable | any receive with two cases: the loop adds the first case forever | walk the chain of cases | high, not executed | AsWritten.ReceiveDiverges | StmtLowering.LowerReceiveLoop |
| ConsoleApplication2/FsharpExpGen.cs:259-260 | `FALSE` lowers to the constant true | the nullary application `FALSE` | the constant false | high, not executed | AsWritten.FalseReadsAsTrue | ExprLowering.NulAppDispatch |
| ConsoleApplication2/FsharpExpGen.cs:825-828 | the exit action is hoisted with the `_entry` suffix | a state with inline entry and exit actions: two functions `S_entry` | suffix `_exit` | high, not executed | AsWritten.ExitNamedAsEntry | DeclLowering.StateDeclShape |
| ConsoleApplication2/FsharpExpGen.cs:975-989 | call-style do-handlers return `null`; an inline action is hoisted but not referred to | `on e do f` | a handler that calls the action | high, not executed | AsWritten.CallHandlersLost | DeclLowering.HandlerShape |
| ConsoleApplication2/FsharpExpGen.cs:979-980 | the owner part of the do-action hint reads the state's qualified name as a plain string, which gives `""` | two states `A` and `B` of one machine, both with an inline action on `e`: both actions are hoisted as `_do_e` | prefix the flattened state name | high, not executed | AsWritten.DoHintCollides | DeclLowering.DoHintInjective |
| ConsoleApplication2/FsharpExpGen.cs:737 | the card is lowered when the payload type, not the card, is present | event `e` with card `assert 1` and no payload loses its card; an event with payload and no card gets a null card | test the card | high, not executed | AsWritten.EventCardCounterexample | DeclLowering.EventDeclShape |
| ConsoleApplication2/FsharpExpGen.cs:1086-1089 (and :1099-1102) | the key reads the state's qualified name as a plain string, which gives `""` | two states `A` and `B` of machine `M` are both filed under `M+`, while state `A` looks up `M+A` | key `machine + '+' + flattened state name` | high, not executed | AsWritten.GroupKeyIgnoresState | DeclLowering.StateKeyInjective |
| ConsoleApplication2/FsharpExpGen.cs:1051-1054 | `iter` is set whenever a name is undefined when visited, whether or not it gets defined | `type T = U` with `U` undefined: the loop never ends | stop when a pass adds nothing, and report the unresolved name | high, not executed | AsWritten.TypeDefCounterexample | TypeDefs.ResolveSound |
| ConsoleApplication2/FsharpExpGen.cs:749-754 | the dictionary indexers throw on an absent key, and the state and variable lists are never written | any program with a machine | an absent key reads as an empty list | high, not executed | AsWritten.MachineReadsAlwaysThrow | DeclLowering.MachineDeclShape |
| ConsoleApplication2/FsharpExpGen.cs:836-837 | the dictionary indexers throw when the state has no transition or no do-handler filed under its key | a state with transitions but no do-handler | an absent key reads as an empty list | high, not executed | AsWritten.StateWithoutHandlersThrows | DeclLowering.StateDeclShape |
| ConsoleApplication2/FsharpExpGen.cs:1130 | `monitorToEventList[m].Add` on a monitor without a list | the first observes edge of any monitor | create the list | high, not executed | AsWritten.FirstObservesThrows | Session.MonitorEvents |
| ConsoleApplication2/FsharpExpGen.cs:922 | `machineToFunList[mid].Add` before the function loop creates the list | an inline do action of a machine whose functions come later | create the list | medium, not executed | AsWritten.EarlyActionThrows | Session.RegisterSingle |
