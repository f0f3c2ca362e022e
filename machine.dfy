/** The script interpreter: an instruction pointer walks the code of a
    script, one op at a time, over a data stack and the running actor's
    mailbox and receivers. Jump targets are absolute and the op at the
    target is the next to run. What a `Tell` or a `Read` achieves is
    decided outside the runtime, so both are answered by oracles. */
module Machine {
  import opened Wrappers
  import opened Values
  import opened Script
  import Discard

  /** Whether the machine may take another step. */
  datatype Status = Running | Halted | Failed(error: Err)

  /** The state of one script run. The top of `stack` is its last element;
      `trace` lists the indices of the ops executed, in order, and `log`
      what the `Int` op recorded. */
  datatype Machine = Machine(
    ip: nat,
    stack: seq<Value>,
    mailbox: Option<seq<Message>>,
    receivers: seq<ForeignRef>,
    log: seq<int>,
    trace: seq<nat>,
    status: Status)

  /** The answers from outside: whether sending a message to an address
      succeeded, and whether reading the mailbox (given its oldest message)
      succeeded. */
  datatype Oracles = Oracles(tell: (string, Message) -> bool, read: Option<Message> -> bool)

  /** A fresh run over an actor's mailbox and receivers. */
  function Init(mailbox: Option<seq<Message>>, receivers: seq<ForeignRef>): (m: Machine)
    ensures m.ip == 0 && m.stack == [] && m.log == [] && m.trace == [] && m.status == Running
    ensures m.mailbox == mailbox && m.receivers == receivers
  {
    Machine(0, [], mailbox, receivers, [], [], Running)
  }

  /** The number of messages waiting: none when there is no mailbox. */
  function MailboxSize(mailbox: Option<seq<Message>>): (n: nat)
    ensures mailbox.Some? ==> n == |mailbox.value|
    ensures mailbox.None? ==> n == 0
  {
    match mailbox
    case None => 0
    case Some(b) => |b|
  }

  /** The oldest waiting message, if any. */
  function MailHead(mailbox: Option<seq<Message>>): (h: Option<Message>)
    ensures h.Some? <==> mailbox.Some? && mailbox.value != []
    ensures h.Some? ==> h.value == mailbox.value[0]
  {
    if mailbox.Some? && mailbox.value != [] then Some(mailbox.value[0]) else None
  }

  /** 1 for a success, 0 for a failure, as the send op pushes them. */
  function Flag(b: bool): (v: Value)
    ensures v.Num? && (v.n == 1 <==> b) && (v.n == 0 <==> !b)
  {
    if b then Num(1) else Num(0)
  }

  /** Pushes constant `i` of table `t`; a missing constant fails the run. */
  function Push(sc: Script, m: Machine, t: nat, i: nat): (r: Machine)
    ensures r.mailbox == m.mailbox && r.receivers == m.receivers && r.log == m.log && r.trace == m.trace
    ensures t < 6 && i < |Table(sc.constants, t)| ==>
              r.stack == m.stack + [Table(sc.constants, t)[i]] && r.ip == m.ip + 1 && r.status == m.status
    ensures !(t < 6 && i < |Table(sc.constants, t)|) ==>
              r.status.Failed? && r.stack == m.stack && r.ip == m.ip
  {
    match Lookup(sc.constants, t, i)
    case Some(v) => m.(stack := m.stack + [v], ip := m.ip + 1)
    case None => m.(status := Failed(Err("no such constant")))
  }

  /** One step: past the end of the code the run halts; otherwise the op at
      `ip` runs and its index is appended to the trace. */
  function Step(sc: Script, o: Oracles, m: Machine): (r: Machine)
    requires m.status == Running
    ensures m.ip >= |sc.code| ==> r == m.(status := Halted)
    ensures m.ip < |sc.code| ==> r.trace == m.trace + [m.ip]
  {
    if m.ip >= |sc.code| then m.(status := Halted)
    else
      var n := m.(trace := m.trace + [m.ip]);
      var st := m.stack;
      match sc.code[m.ip]
      case PushNum(i) => Push(sc, n, TABLE_NUMBERS, i)
      case PushStr(i) => Push(sc, n, TABLE_STRINGS, i)
      case PushMsg(i) => Push(sc, n, TABLE_MESSAGES, i)
      case PushForeign(i) => Push(sc, n, TABLE_FOREIGNS, i)
      case Tell =>
        // pops the address, then the message; pushes whether it was sent
        if |st| >= 2 && st[|st| - 1].Str? && st[|st| - 2].Msg? then
          var ok := o.tell(st[|st| - 1].s, st[|st| - 2].m);
          n.(stack := st[..|st| - 2] + [Flag(ok)], ip := m.ip + 1)
        else n.(status := Failed(Err("tell: expected an address and a message")))
      case Read =>
        n.(stack := st + [Flag(o.read(MailHead(m.mailbox)))], ip := m.ip + 1)
      case Receive =>
        if |st| >= 1 && st[|st| - 1].Foreign? then
          n.(stack := st[..|st| - 1], receivers := m.receivers + [st[|st| - 1].g], ip := m.ip + 1)
        else n.(status := Failed(Err("receive: expected a function")))
      case Discard => n.(mailbox := Discard.DiscardHead(m.mailbox), ip := m.ip + 1)
      case JumpIfOne(t) =>
        if |st| >= 1 then
          var top := st[|st| - 1];
          n.(stack := st[..|st| - 1], ip := if top.Num? && top.n == 1 then t else m.ip + 1)
        else n.(status := Failed(Err("jump: empty stack")))
      case Jump(t) => n.(ip := t)
      case MailCount => n.(stack := st + [Num(MailboxSize(m.mailbox))], ip := m.ip + 1)
      case RecvCount => n.(stack := st + [Num(|m.receivers|)], ip := m.ip + 1)
      case Int => n.(log := m.log + [1], ip := m.ip + 1)
      case Noop => n.(ip := m.ip + 1)
  }

  /** At most `fuel` steps, stopping as soon as the run is no longer running. */
  function Run(sc: Script, o: Oracles, m: Machine, fuel: nat): Machine
    decreases fuel
  {
    if fuel == 0 || m.status != Running then m else Run(sc, o, Step(sc, o, m), fuel - 1)
  }

  /** Executes the ops one by one, in sequence, from the first, for at most
      `fuel` steps; the final machine is the one `Run` describes. */
  method Execute(sc: Script, o: Oracles, mailbox: Option<seq<Message>>, receivers: seq<ForeignRef>, fuel: nat)
    returns (m: Machine)
    ensures m == Run(sc, o, Init(mailbox, receivers), fuel)
    ensures m.status == Running ==> |m.trace| == fuel
  {
    m := Init(mailbox, receivers);
    var left := fuel;
    while left > 0 && m.status == Running
      invariant Run(sc, o, m, left) == Run(sc, o, Init(mailbox, receivers), fuel)
      invariant m.status == Running ==> |m.trace| + left == fuel
      decreases left
    {
      var n := Step(sc, o, m);
      assert Run(sc, o, m, left) == Run(sc, o, n, left - 1);
      m, left := n, left - 1;
    }
  }

  /** Once a run stops it stays stopped: more fuel changes nothing. */
  lemma {:induction false} RunMore(sc: Script, o: Oracles, m: Machine, fuel: nat, extra: nat)
    requires Run(sc, o, m, fuel).status != Running
    ensures Run(sc, o, m, fuel + extra) == Run(sc, o, m, fuel)
    decreases fuel
  {
    if m.status == Running {
      if fuel == 0 {
        assert false;
      }
      var n := Step(sc, o, m);
      assert Run(sc, o, m, fuel) == Run(sc, o, n, fuel - 1);
      assert Run(sc, o, m, fuel + extra) == Run(sc, o, n, fuel - 1 + extra);
      RunMore(sc, o, n, fuel - 1, extra);
    }
  }

  /** Every index in the trace is an index of the code. */
  predicate TraceInCode(sc: Script, m: Machine) {
    forall k :: 0 <= k < |m.trace| ==> m.trace[k] < |sc.code|
  }

  /** Every op a run executes lies within the code: the trace only holds
      valid indices. */
  lemma {:induction false} TraceInBounds(sc: Script, o: Oracles, m: Machine, fuel: nat)
    requires TraceInCode(sc, m)
    ensures TraceInCode(sc, Run(sc, o, m, fuel))
    decreases fuel
  {
    if fuel > 0 && m.status == Running {
      var s := Step(sc, o, m);
      if m.ip < |sc.code| {
        forall k | 0 <= k < |s.trace|
          ensures s.trace[k] < |sc.code|
        {
          if k < |m.trace| {
            assert s.trace[k] == m.trace[k];
          }
        }
      }
      TraceInBounds(sc, o, s, fuel - 1);
    }
  }

  /** One step keeps the mailbox present or absent. */
  lemma StepKeepsMailbox(sc: Script, o: Oracles, m: Machine)
    requires m.status == Running
    ensures Step(sc, o, m).mailbox.Some? == m.mailbox.Some?
  {
  }

  /** A run never creates or removes the mailbox: it only changes what is
      in it. */
  lemma {:induction false} MailboxStaysPresent(sc: Script, o: Oracles, m: Machine, fuel: nat)
    ensures Run(sc, o, m, fuel).mailbox.Some? == m.mailbox.Some?
    decreases fuel
  {
    if fuel > 0 && m.status == Running {
      StepKeepsMailbox(sc, o, m);
      MailboxStaysPresent(sc, o, Step(sc, o, m), fuel - 1);
    }
  }
}
