# concern actor runtime — a Dafny model

This project models the bookkeeping and decision logic of the `concern` actor
runtime. Actors live at path-like addresses (`/`, `/foo`, `/foo/bar`), hold a
context (a mailbox, a behaviour stack and flags), and talk to their system by
submitting ops and small bytecode scripts. The codebase has several
evolutions side by side. Each is modelled as its own module and they are not
merged:

- `SystemAddress`: the separator, the dead address, `mkChildPath` and
  `validateId`.
- `AddressTree`: `make`, `isRestricted`, `getParent`, and ancestry along the
  chain of parents.
- `Flags`: the bitmask flags and their tests.
- `ActorContext`: the context with `{immutable, buffered}` flag records.
  `newContext` is its constructor.
- `Cases`: the `Case` type and first-match-wins selection.
- `Supervision`: the `Raise` op. `execRaise` is one step. `Supervise`
  follows escalations up the tree.
- `Transfer`: `execTransfer`, which delivers to a router or else drops.
- `Discard`: the `Discard` op, which shifts the context's mailbox in place.
- `Script`: the constant pool and `Script` defaults.
- `Scripts`: the hand-written resident programs.
- `Machine` and `Programs`:
  - `Machine` is an interpreter for those programs.
  - `Programs` holds what each program does for every input.
- `RuntimeWord`: the instruction-word masks.
- `RuntimeContext`: the runtime's context, which always has a mailbox and
  has a flag word.
- `Vm`: the platform's state table and queues (`PVM`), and the per-actor
  `Runtime`.
- `Resident` (record flags) and `ResidentIndex` (bitmask flags): actor
  `init`, `select`, `spawn`, `self`, `exit` and `stop`.
- `Util`: `merge`, `fling`, `head`, `tail`, `pipe` and `oreduce` over
  ordered objects.

How the model treats the system's inputs and outputs:

- The outcome of telling a message (`sendMessage`) and of reading a message
  are parameters (`Machine.Oracles`).
- The answer the system gives to `self` and `spawn` scripts is a parameter.
- The pattern test of a `Case` comes from a foreign library, so it is a
  parameter `test`.
- Ops an actor hands to its system are recorded in order in a `submitted`
  field rather than executed.

## Model

| member | source | states |
|---|---|---|
| SystemAddress.MkChildPath | lib/system/index.d.ts:90-96 | The child path starts with the whole parent and ends with the id. A separator sits between them unless the parent is the separator itself. The length is exactly the sum of the parts. |
| SystemAddress.RootChildPath | lib/system/index.d.ts:90-96 | Under the root, a valid id gives "/" + id, and there is no second separator anywhere after the first character. |
| SystemAddress.NonRootChildPath | lib/system/index.d.ts:90-96 | Under any other parent the path is parent + "/" + id, so the parent is a strict prefix of the child. |
| SystemAddress.ValidateId | lib/system/index.d.ts:97-103 | Success holds iff the id contains no separator and is not "$". On success the same id is returned, unchanged. |
| SystemAddress.ValidateIdRejects | lib/system/index.d.ts:97-103 | Every id containing "/" is rejected, and so is "$". |
| SystemAddress.ContainsChar | lib/system/index.d.ts:100-101 | For a one-character separator, "contains the separator" is character membership. |
| AddressTree.ParentOfChild | lib/system/index.d.ts:90-103 | For a valid id and a non-empty parent, the parent of make(parent, id) is that parent again. |
| AddressTree.ChildIsDescendant | lib/system/index.d.ts:90-103 | A child made with a valid, non-empty id lies strictly below its parent. |
| AddressTree.AncestorMeasure | lib/system/index.d.ts:90-96 | An ancestor is strictly closer to the root, so no address is its own ancestor. |
| AddressTree.RootIsAncestor | lib/system/index.d.ts:90-96 | The root is an ancestor of every other address. |
| AddressTree.AncestorTransitive | lib/system/index.d.ts:90-96 | Ancestry is transitive. |
| AddressTree.LastSep | lib/system/index.d.ts:90-96 | The index found holds a separator and no separator follows it. None means the string has no separator at all. |
| Flags.FlagsAreDistinctBits | lib/actor/flags.js:4-7 | The four flags are the single bits 0, 1, 2 and 3, and they are pairwise disjoint. |
| Flags.SetFlagHolds | lib/actor/flags.js:11-25 | ORing in a flag makes its test hold, for each of the four flags. The temporary test has no named counterpart in the source; it is the same mask test. |
| Flags.SetImmutableKeepsOthers | lib/actor/flags.js:4-25 | ORing in IMMUTABLE leaves the buffered, temporary and router tests unchanged. |
| Flags.SetBufferedKeepsOthers | lib/actor/flags.js:4-25 | ORing in BUFFERED leaves the other three tests unchanged. |
| Flags.SetTemporaryKeepsOthers | lib/actor/flags.js:4-25 | ORing in TEMPORARY leaves the other three tests unchanged. The temporary test itself is the model's own mask test, since the source names none. |
| Flags.SetRouterKeepsOthers | lib/actor/flags.js:4-25 | ORing in ROUTER leaves the other three tests unchanged. |
| ActorContext.Context.NewContext | src/actor/index.ts:27-40 | A new context has no mailbox, an empty behaviour stack, flags (false, false), and the given actor and template. It satisfies "mailbox present iff buffered". |
| Cases.Match | src/actor/resident.ts:66-79 | The handler runs on the message, and the result is true, exactly when the pattern test passes. Otherwise no handler runs and the result is false. |
| Cases.SomeMatch | src/actor/resident.ts:276-277 | There is a match iff some case's pattern passes. Then exactly the first matching case's handler runs, and no later one. With no match, nothing runs. |
| Resident.ApplyCases | src/actor/resident.ts:276-285 | A behaviour gives Left(m) with no handler run iff no case matches. Otherwise it gives Right, and only the first matching handler has run. |
| Discard.DiscardHead | src/actor/system/vm/op/discard.ts:7-17 | The old mailbox is the removed head followed by the result. An empty mailbox stays empty, and an absent one stays absent. |
| Discard.DiscardKeepsOrder | src/actor/system/vm/op/discard.ts:17 | After a discard, the k-th remaining message is the (k+1)-th old one. |
| Discard.Discard | src/actor/system/vm/op/discard.ts:15-19 | The context's mailbox is shifted in place, and every other field is unchanged. "Mailbox iff buffered" is preserved. |
| Supervision.ExecRaise | lib/actor/system/op/raise.ts:51-89 | With no template at dest nothing happens. An escalation always re-raises the same error and source at getParent(dest). Restart and stop always target the source, never dest. |
| Supervision.ExecRaiseCases | lib/actor/system/op/raise.ts:56-84 | This is the full decision table. No trap means escalate. RAISE means escalate. IGNORE or an unknown result means nothing. RESTART means restart src. STOP means stop src. |
| Supervision.NoTemplateDoesNothing | lib/actor/system/op/raise.ts:51-89 | A raise at an address without a template emits no op, and supervision ends there. |
| Supervision.SupervisionKeepsErrorAndSource | lib/actor/system/op/raise.ts:49-84 | However far an error escalates, a restart or stop targets the original raiser, and an unhandled error is the original error. The deciding address is dest or one of its ancestors, and its trap was applied to the original error with the result the outcome names. |
| Supervision.RootReraises | lib/actor/system/op/raise.ts:56-84 | The root is its own parent, so at a root without a trap, or whose trap answers RAISE, execRaise hands back the very same raise at the root. |
| Supervision.TraplessChainIsUnhandled | lib/actor/system/op/raise.ts:49-84 | When dest and all its ancestors have templates without traps, the error climbs through every one of them to the root. There the walk stops and the error is unhandled. |
| Supervision.EscalationReachesRootTrap | test/actor/system/vm/runtime/this_test.ts:75-170 | With RAISE traps at /foo/bar and /foo, the root's trap receives the very error raised at /foo/bar. |
| Supervision.UnhandledAtRoot | test/actor/system/vm/runtime/this_test.ts:44-73 | An error raised at the root whose template has no trap is thrown back to the caller. |
| Transfer.ExecTransfer | lib/actor/system/op/transfer.ts:40-46 | The router's instance accepts iff the router is known, and otherwise the message is dropped. Exactly one of the two happens. The envelope carries the original to and from, not the router. |
| Transfer.TransferKeepsPayload | lib/actor/system/op/transfer.ts:43-44 | Payload, destination and sender reach the effect unchanged in both branches. |
| Transfer.TransferDependsOnlyOnRouter | lib/actor/system/op/transfer.ts:42 | Only the router's entry in the instance table decides the effect. |
| Script.Lookup | lib/actor/system/vm/script.ts:18-33 | A constant is found iff the type index names one of the six tables of the pool (numbers, strings, functions, templates, messages, foreigns, in that order) and the inner index lies within that table. It is then exactly that table's entry. |
| Script.DefaultScript | lib/actor/system/vm/script.ts:57-61 | The default script has no code, and no constant can be looked up in it. |
| Scripts.AcceptScript | src/actor/resident/scripts.ts:48-55 | The message is at messages[0] and is the only constant. The code is acceptCode, and its jumps are in bounds. |
| Scripts.TellScript | src/actor/resident/scripts.ts:65-74 | The address is at strings[0] and the message at messages[0], matching PushStr(0) and PushMsg(0). There are no other constants. The code is tellcode, and its jump target 6 is within the 7 ops. |
| Scripts.ReceiveScript | src/actor/resident/scripts.ts:81-88 | The receiver is at foreigns[0] and is the only constant. The code is receivecode. |
| Scripts.NotifyScript | src/actor/resident/scripts.ts:95-102 | There are no constants. The code is notifyCode, and its jump target 3 is within the 4 ops. |
| Machine.MailHead | src/actor/resident/scripts.ts:36-43 | The oldest message exists iff the mailbox is present and non-empty, and it is then its first element. |
| Machine.Flag | test/actor/system/vm/runtime/op/actor_test.ts:85-118 | The pushed value is the number 1 exactly on success and 0 exactly on failure. |
| Machine.Push | lib/actor/system/vm/script.ts:18-33 | A constant present in the pool is pushed onto the stack and the ip advances. A missing constant fails the run and leaves the stack and ip alone. Either way the mailbox, receivers, log and trace are untouched. |
| Machine.Step | test/actor/system/vm/runtime/this_test.ts:176-220 | Past the end of the code the run halts and nothing else changes. Otherwise the op at ip is executed and recorded in the trace. |
| Machine.Execute | lib/actor/system/vm/runtime/index.ts:60-66 | The ip loop over the code ends in exactly the state of Run for the same fuel. It is still running only when every step of the fuel was used. The run starts from Init: the first op, an empty stack, and the actor's mailbox and receivers. |
| Machine.RunMore | lib/actor/system/vm/script.ts:51-56 | Once a run has stopped, more fuel changes nothing. |
| Machine.TraceInBounds | src/actor/resident/scripts.ts:17-43 | Every op a run executes is an index of the code. |
| Machine.StepKeepsMailbox | src/actor/system/vm/op/discard.ts:17 | No single op creates or removes the mailbox. |
| Machine.MailboxStaysPresent | src/actor/system/vm/op/discard.ts:17 | A run never creates or removes the mailbox. |
| Programs.RunThen | lib/actor/system/vm/script.ts:51-56 | Running a + b steps is running a steps, then b more. |
| Programs.TellPrefix | src/actor/resident/scripts.ts:19-21 | After the first three ops of tellcode, the stack holds only the send flag, 1 or 0. |
| Programs.TellSucceeds | src/actor/resident/scripts.ts:17-27 | A successful tell runs ops 0, 1, 2, 3, then 6, and halts. The mailbox is untouched and the stack is empty, so Discard at 5 never runs. |
| Programs.TellFailsTail | src/actor/resident/scripts.ts:22-27 | From a failed send's flag, the tell script re-pushes the message, discards the oldest mailbox message, runs the final Noop and halts. |
| Programs.TellFails | src/actor/resident/scripts.ts:22-25 | A failed tell runs ops 0 to 6 in order. The message is pushed back, and the oldest mailbox message is discarded exactly once. |
| Programs.NotifyPrefix | src/actor/resident/scripts.ts:38-39 | The read pushes its flag, and the conditional jump consumes it. |
| Programs.NotifyReads | src/actor/resident/scripts.ts:36-43 | A successful read jumps from 1 to the Noop at 3, skipping Discard, and leaves the mailbox alone. |
| Programs.NotifyDiscards | src/actor/resident/scripts.ts:36-43 | A failed read runs ops 0, 1, 2, 3 and discards the oldest message exactly once. |
| Programs.AcceptRuns | src/actor/resident/scripts.ts:48-55 | The accept script pushes its message, discards the oldest mailbox message and halts. |
| Programs.ReceiveRuns | src/actor/resident/scripts.ts:29-34 | The receive script appends its function to the pending receivers and halts with an empty stack. |
| Programs.JumpIsAbsolute | test/actor/system/vm/runtime/this_test.ts:176-220 | For [Int, Int, Jump(4), Int, Int], the ops at 0, 1, 2 and 4 run. The target op executes, and exactly three Ints are recorded. |
| Programs.CountOpsPush | test/actor/system/vm/runtime/op/actor_test.ts:141-171 | The mailcount op pushes the mailbox length (0 when there is no mailbox), and the recvcount op pushes the number of pending receivers. |
| RuntimeWord.Opcode | lib/actor/system/vm/runtime/index.ts:46 | The opcode part has no operand bit. |
| RuntimeWord.Operand | lib/actor/system/vm/runtime/index.ts:48-56 | The operand part never exceeds the operand range end. |
| RuntimeWord.MasksPartitionWord | lib/actor/system/vm/runtime/index.ts:46-58 | The two masks are disjoint, and together they cover MAX_INSTRUCTION. |
| RuntimeWord.SplitJoin | lib/actor/system/vm/runtime/index.ts:46-58 | ORing the opcode and operand parts gives the instruction back. |
| RuntimeWord.RangesMatchMasks | lib/actor/system/vm/runtime/index.ts:48-56 | The operand range is 0 to the operand mask. The opcode range starts just above it and ends at the opcode mask. |
| RuntimeWord.OpcodeInRange | lib/actor/system/vm/runtime/index.ts:46-52 | Every non-zero opcode lies in the opcode range. |
| RuntimeContext.Context.constructor | lib/actor/system/vm/index.d.ts:28-33 | A runtime context holds the given actor, template and flags, with an empty mailbox, receivers and behaviour stack. |
| Vm.PVM.constructor | test/actor/system/vm/fixtures/vm.ts:17 | The state table starts empty: no runtimes, routers or groups, empty queues, and not running. |
| Vm.PVM.Allocate | lib/actor/system/vm/index.d.ts:28-33 | It fails, changing nothing, when a runtime is already at make(parent, id). Otherwise it adds exactly one fresh runtime there, with a fresh context for the actor and template, and leaves every other entry as it was. |
| Vm.PVM.RunActor | lib/actor/system/vm/index.d.ts:34-39 | It is an error exactly when the target does not exist. |
| Vm.PVM.SendMessage | lib/actor/system/vm/index.d.ts:40-46 | The result is true iff the target is in the system. A buffered target gets the message at the end of its mailbox. The target's flags, receivers and behaviour stay as they were. |
| Vm.PVM.GetRuntime | lib/actor/system/vm/index.d.ts:47-50 | It finds a runtime iff one is stored at the address, and then it is that runtime. |
| Vm.PVM.GetRouter | lib/actor/system/vm/index.d.ts:51-54 | It finds the allocated router of the nearest route at or above the address. |
| Vm.PVM.GetGroup | lib/actor/system/vm/index.d.ts:55-58 | It finds the members iff the group exists. |
| Vm.PVM.GetChildren | lib/actor/system/vm/index.d.ts:59-62 | It returns exactly the runtimes strictly under the address, with their entries. |
| Vm.PVM.PutRuntime | lib/actor/system/vm/index.d.ts:63-66 | It stores the runtime at the address and changes no other entry. |
| Vm.PVM.PutRoute | lib/actor/system/vm/index.d.ts:67-71 | It records the route and changes nothing else. |
| Vm.PVM.PutMember | lib/actor/system/vm/index.d.ts:72-75 | The address is appended to the group, which is created when missing. Nothing else changes. |
| Vm.PVM.Remove | lib/actor/system/vm/index.d.ts:76-79 | It drops exactly that runtime and leaves the other entries. |
| Vm.PVM.RemoveRoute | lib/actor/system/vm/index.d.ts:80-83 | It drops exactly that route. |
| Vm.RouteFound | lib/actor/system/vm/index.d.ts:67-71 | After putRoute(target, router), every address at or under target is routed to that router, unless a nearer route lies between them. |
| Vm.RouteRemoved | lib/actor/system/vm/index.d.ts:80-83 | After removeRoute(target), the target is routed by the nearest route above it. |
| Vm.RemoveRouteElsewhere | lib/actor/system/vm/index.d.ts:80-83 | Removing a route changes nothing for addresses not under it. |
| Vm.KillStep | lib/actor/system/vm/index.d.ts:84-87 | Removing the deepest address still pending keeps the kill bookkeeping: nothing removed lies above a runtime still in the table or removed later. |
| Vm.KillDone | lib/actor/system/vm/index.d.ts:84-87 | When nothing is pending, exactly the subtree has left the table and the order lists each of its addresses once. |
| Vm.PVM.Kill | lib/actor/system/vm/index.d.ts:84-87 | The address and every runtime under it leave the table, and all others stay. The removal order lists each of them once, and never a runtime before one below it. |
| Vm.PVM.Spawn | lib/actor/system/vm/index.d.ts:154-159 | Success allocates make("/", id). For a valid id its parent is the root, so it is a direct child of the root. It fails iff that address is taken. |
| Vm.PVM.Exec | lib/actor/system/vm/index.d.ts:160 | The script is queued at the end of the run queue. |
| Vm.PVM.RunTask | lib/actor/system/vm/index.d.ts:139 | The address becomes blocked. |
| Vm.PVM.Next | lib/actor/system/vm/index.d.ts:118-130 | The oldest ready slot is taken. A slot of a blocked runtime is parked on the wait queue, so a handed-out slot is never blocked. |
| Vm.PVM.Settle | lib/actor/system/vm/index.d.ts:122-130 | The runtime is unblocked, and its parked slots move in order to the run queue. No slot is lost or invented. |
| Vm.SplitKeepsSlots | lib/actor/system/vm/index.d.ts:118-126 | Splitting a queue by address keeps every slot (as a multiset). |
| Vm.PVM.Start | lib/actor/system/vm/index.d.ts:134 | The loop runs, and the queues are unchanged. |
| Vm.PVM.Stop | lib/actor/system/vm/index.d.ts:136 | The loop halts, and no pending slot is discarded. |
| Vm.Runtime.Terminate | lib/actor/system/vm/runtime/index.ts:104-109 | The runtime and all its children leave the platform, each once and children first. Surviving runtimes keep their entries, and routes, groups and queues are unchanged. |
| Vm.Runtime.Kill | lib/actor/system/vm/runtime/index.ts:111-117 | It fails iff the target is outside this actor's tree, and then the runtime table is unchanged. Otherwise exactly the target's subtree is removed. Either way surviving runtimes keep their entries, and routes, groups and queues are unchanged. |
| Vm.Runtime.RunTask | lib/actor/system/vm/runtime/index.ts:119-127 | The runtime becomes blocked, and no other address joins the blocked set. The queues and the runtime, route and group tables are unchanged. |
| Vm.Runtime.Exec | lib/actor/system/vm/runtime/index.ts:119-132 | While a task is pending, no script runs and nothing changes. Otherwise the mailbox and receivers are those the run leaves, and the result is the top of the stack. |
| Resident.Resident.Init | src/actor/resident.ts:225-260 | Both kinds get an empty mailbox and become buffered, so "mailbox iff buffered" holds. Immutable sets (true, true) and pushes one behaviour of its cases. Mutable sets (false, true) and leaves the stack. |
| Resident.Resident.Spawn | src/actor/resident.ts:167-175 | It submits the Spawn op. The result is ADDRESS_DISCARD for a restricted id and make(self, id) otherwise. |
| Resident.Resident.Tell | src/actor/resident.ts:177-182 | It submits a Tell from the actor's own address. |
| Resident.Resident.Kill | src/actor/resident.ts:186-191 | It submits a Kill of the target. |
| Resident.Resident.Exit | src/actor/resident.ts:193-197 | It submits a Kill of the actor's own address. |
| Resident.Resident.Stop | src/actor/resident.ts:199-203 | The system becomes the detached one, and no op is submitted. |
| Resident.Resident.Accept | src/actor/resident.ts:160-165 | It submits a Discard with the envelope's addressing and payload. |
| Resident.Resident.Select | src/actor/resident.ts:238-272 | Immutable does nothing. Mutable submits a Receive for its own address with the cases' behaviour. |
| Resident.HandledInOrder | test/actor/resident/fixtures/actors.ts:199-215 | When every message matches a case, a re-selecting actor handles each message exactly once, in arrival order. |
| ResidentIndex.Resident.Init | src/actor/resident/index.ts:138-192 | Immutable ORs in IMMUTABLE and BUFFERED, and Temp ORs in TEMPORARY and BUFFERED; each pushes exactly one behaviour. Mutable ORs in BUFFERED only and pushes nothing. Other bits are kept. |
| ResidentIndex.InitFlagTests | src/actor/resident/index.ts:140-188 | After init, the flag tests read as intended. Temp does not gain IMMUTABLE, and the router bit is never touched. |
| ResidentIndex.Resident.Select | src/actor/resident/index.ts:151-204 | Immutable and Temp do nothing. Mutable submits a Receive with the cases. |
| ResidentIndex.Resident.Self | src/actor/resident/index.ts:55-63 | The system's answer is returned, or ADDRESS_DISCARD when it answers nothing. |
| ResidentIndex.Resident.Spawn | src/actor/resident/index.ts:219-229 | The spawn answer is returned, or ADDRESS_DISCARD when there is none. |
| ResidentIndex.Resident.Notify | src/actor/resident/index.ts:49-53 | It submits the Notify script. |
| ResidentIndex.Resident.Tell | src/actor/resident/index.ts:82-87 | It submits the Tell script. |
| ResidentIndex.Resident.Raise | src/actor/resident/index.ts:89-94 | It submits a Raise of the error's message. |
| ResidentIndex.Resident.Kill | src/actor/resident/index.ts:96-101 | It submits a Kill of the target. |
| ResidentIndex.Resident.Exit | src/actor/resident/index.ts:103-107 | It asks for its own address, then submits a Kill of that address. |
| Wrappers.FromBoolean | src/actor/resident.ts:277 | The result is Right exactly for true. |
| Util.MergeGet | src/util.js:5 | In merge(o1, o2), a key of o2 reads as in o2, and any other key reads as in o1. |
| Util.PutGet | src/util.js:5 | Reading after writing a key gives the new value for that key and the old value for every other key. |
| Util.AssignGet | src/util.js:5 | After Object.assign, keys of the source read as in the source, and other keys read as in the target. |
| Util.Fling | src/util.js:34-37 | It throws TypeError exactly when the input is not a plain object. |
| Util.FlingRemovesOnlyKey | src/util.js:39-41 | fling yields the entries without key s, in their original order, and s is absent. |
| Util.FlingKeepsOthers | src/util.js:39-41 | Every other key keeps its value. |
| Util.FlingIdempotent | src/util.js:39-41 | Flinging the same key twice equals flinging it once. |
| Util.Head | src/util.js:51 | The result is the element at index 0, or none for an empty list. |
| Util.Tail | src/util.js:59 | The result is the last element, or none for an empty list. |
| Util.Pipe | src/util.js:17-22 | The decrementing loop copies every argument into the array at its own index. |
| Util.ApplyAllOrder | src/util.js:23 | The piped function applies f1 first and fn last. |
| Util.OReduceOrder | src/util.js:11 | oreduce starts from i. It combines the values in key order, the last one last, and passes the whole object every time. |

## Left out
- Vm.PVM.Exec: takes the address of the actor rather than its instance, and a slot holds that address and the script. The source's slot also carries the runtime; here the runtime is found through the table when it is needed.
- Vm.PVM.GetRouter: returns the router's runtime rather than its context. The context is that runtime's `context` field.
- Supervision.Supervise: the walk stops at the root and reports the error unhandled. This stop follows the runtime's own tests (this_test.ts:44-73), where such an error is thrown back to the caller. execRaise as written escalates from the root to getParent of the root, which is the root again, so it would repeat the same raise there without end (Supervision.RootReraises states this).
- Supervision.TraplessChainIsUnhandled: ends in Unhandled because Supervise stops at the root. execRaise as written would re-raise at the root instead (see Supervision.Supervise above).
- AddressTree.GetParent, AddressTree.Make, AddressTree.IsRestricted and AddressTree.ADDRESS_DISCARD: the address module they come from is not part of this model. They are reconstructed from mkChildPath and validateId and from how the other files use them. GetParent assumes the root is its own parent and that an address with no inner separator belongs to the root. IsRestricted assumes an id is restricted exactly when validateId rejects it. ADDRESS_DISCARD assumes the value "?".
- Vm.Runtime.Exec: a Tell op is answered by the oracle only. Delivery to the target is not modelled, so a buffered actor that tells its own address does not see the message appended to its own mailbox during the run.

- I/O, the event log (`trigger`, `logOp`) and asynchrony are not modelled. Futures, timers, process forking and IPC (src/actor/process) are left out too. A task that is pending is a `blocked` flag only.
- The results of telling a message and of reading a mailbox are oracle parameters. So are the answers the system gives to `self` and `spawn` scripts. They are all computed by code outside this model.
- Machine.Execute and Machine.Run: a run is bounded by a `fuel` count. Every resident program halts within its stated fuel.
- Machine.Step: the Read op pushes the oracle's verdict and does not itself change the mailbox. The read handler is not part of this model.
- The dispatch loop of the runtime is not part of this model. Its jump semantics are fixed by the runtime's jump test, and the interpreter follows them.
- Vm.PVM.SendMessage: routing and delivery to unbuffered instances are not modelled. An unbuffered target accepts the message and its mailbox is unchanged.
- Vm.PVM.Allocate: it does not validate the id, and a restricted id is allocated under `make` like any other. The declaration says nothing about validation.
- Vm.PVM.GetChildren: returns a map where the declaration returns a Maybe of one.
- Vm.PVM.Spawn: returns the allocation result where the declaration returns a bare address.
- Vm.PVM.Kill: returns the removal order so that "children first" can be stated. The platform's raise and the per-op executor wiring are not part of this model.
- Resident.Resident.Stop: what the detached system does afterwards is not part of this model.
- The `tellcode` failure path pushes the message back and then runs `Discard`. That op shifts the mailbox, not the stack, so it drops the actor's oldest mailbox message and leaves the message on the stack. This is modelled as written (Programs.TellFails).
- JavaScript objects are ordered lists of entries in insertion order. `Object.keys` puts integer-like keys first, and that reordering is not modelled.
- Util.Fling and Util.MergeGet are stated for well-formed objects, which have no duplicate keys. Every JavaScript object is one.
- `util.partial` is left out: it relies on reflecting `Function.length`.
- The `Case` pattern test is the foreign `test` function of another library, so it is a parameter.
- `Void`, the local `Receive` wrapper and superseded declaration files are left out. They carry no logic beyond what is modelled here.
