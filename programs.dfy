/** What each resident script does when run, for every message, address,
    mailbox and oracle answer: the ops it executes, in order, and the
    stack, mailbox and receivers it leaves behind. */
module Programs {
  import opened Wrappers
  import opened Values
  import opened Script
  import opened Scripts
  import opened Machine
  import Discard

  /** Running `a + b` steps is running `a` steps, then `b` more. */
  lemma {:induction false} RunThen(sc: Script, o: Oracles, m: Machine, a: nat, b: nat)
    ensures Run(sc, o, m, a + b) == Run(sc, o, Run(sc, o, m, a), b)
    decreases a
  {
    if a > 0 && m.status == Running {
      var n := Step(sc, o, m);
      RunOne(sc, o, m, n, a + b);
      RunOne(sc, o, m, n, a);
      RunThen(sc, o, n, a - 1, b);
      assert a - 1 + b == a + b - 1;
    } else if m.status != Running {
      RunStopped(sc, o, m, a + b);
      RunStopped(sc, o, m, b);
    }
  }

  /** A machine that is not running stays as it is. */
  lemma RunStopped(sc: Script, o: Oracles, m: Machine, fuel: nat)
    requires m.status != Running
    ensures Run(sc, o, m, fuel) == m
  {
  }

  /** A running machine whose step is `n` runs on as `n` does, with one
      unit of fuel less. */
  lemma RunOne(sc: Script, o: Oracles, m: Machine, n: Machine, fuel: nat)
    requires m.status == Running && Step(sc, o, m) == n && fuel > 0
    ensures Run(sc, o, m, fuel) == Run(sc, o, n, fuel - 1)
  {
  }

  /** The ops `TellPrefix` runs, one step at a time. */
  lemma TellPrefixSteps(to: string, msg: Message, o: Oracles, box: Option<seq<Message>>, recv: seq<ForeignRef>)
    ensures var sc := TellScript(to, msg);
            var m0 := Init(box, recv);
            var m1 := Machine(1, [Msg(msg)], box, recv, [], [0], Running);
            var m2 := Machine(2, [Msg(msg), Str(to)], box, recv, [], [0, 1], Running);
            var m3 := Machine(3, [Flag(o.tell(to, msg))], box, recv, [], [0, 1, 2], Running);
            Step(sc, o, m0) == m1 &&
            Step(sc, o, m1) == m2 &&
            Step(sc, o, m2) == m3
  {
  }

  /** The first three ops of the tell script push the message and the
      address and tell: the stack then holds only the send's result. */
  lemma TellPrefix(to: string, msg: Message, o: Oracles, box: Option<seq<Message>>, recv: seq<ForeignRef>)
    ensures Run(TellScript(to, msg), o, Init(box, recv), 3)
            == Machine(3, [Flag(o.tell(to, msg))], box, recv, [], [0, 1, 2], Running)
  {
    var sc := TellScript(to, msg);
    var m0 := Init(box, recv);
    var m1 := Machine(1, [Msg(msg)], box, recv, [], [0], Running);
    var m2 := Machine(2, [Msg(msg), Str(to)], box, recv, [], [0, 1], Running);
    var m3 := Machine(3, [Flag(o.tell(to, msg))], box, recv, [], [0, 1, 2], Running);
    TellPrefixSteps(to, msg, o, box, recv);
    RunOne(sc, o, m0, m1, 3);
    RunOne(sc, o, m1, m2, 2);
    RunOne(sc, o, m2, m3, 1);
  }

  /** The ops `TellSucceeds` runs, one step at a time. */
  lemma TellSuccessSteps(to: string, msg: Message, o: Oracles, box: Option<seq<Message>>, recv: seq<ForeignRef>)
    ensures var sc := TellScript(to, msg);
            var m3 := Machine(3, [Num(1)], box, recv, [], [0, 1, 2], Running);
            var m4 := Machine(6, [], box, recv, [], [0, 1, 2, 3], Running);
            var m5 := Machine(7, [], box, recv, [], [0, 1, 2, 3, 6], Running);
            var m6 := m5.(status := Halted);
            Step(sc, o, m3) == m4 &&
            Step(sc, o, m4) == m5 &&
            Step(sc, o, m5) == m6
  {
  }

  /** A successful tell jumps from index 3 straight to the `Noop` at 6:
      the ops at 4 and 5 never run, and the mailbox is untouched. */
  lemma TellSucceeds(to: string, msg: Message, o: Oracles, box: Option<seq<Message>>,
                     recv: seq<ForeignRef>, fuel: nat)
    requires o.tell(to, msg) && fuel >= 6
    ensures Run(TellScript(to, msg), o, Init(box, recv), fuel)
            == Machine(7, [], box, recv, [], [0, 1, 2, 3, 6], Halted)
  {
    var sc := TellScript(to, msg);
    var m3 := Machine(3, [Num(1)], box, recv, [], [0, 1, 2], Running);
    var m4 := Machine(6, [], box, recv, [], [0, 1, 2, 3], Running);
    var m5 := Machine(7, [], box, recv, [], [0, 1, 2, 3, 6], Running);
    var m6 := m5.(status := Halted);
    TellSuccessSteps(to, msg, o, box, recv);
    TellPrefix(to, msg, o, box, recv);
    assert Flag(true) == Num(1);
    RunOne(sc, o, m3, m4, fuel - 3);
    RunOne(sc, o, m4, m5, fuel - 4);
    RunOne(sc, o, m5, m6, fuel - 5);
    RunStopped(sc, o, m6, fuel - 6);
    RunThen(sc, o, Init(box, recv), 3, fuel - 3);
  }

  /** The ops `TellFailsTail` runs, one step at a time. */
  lemma TellFailsSteps(to: string, msg: Message, o: Oracles, box: Option<seq<Message>>, recv: seq<ForeignRef>)
    ensures var sc := TellScript(to, msg);
            var m3 := Machine(3, [Num(0)], box, recv, [], [0, 1, 2], Running);
            var m4 := Machine(4, [], box, recv, [], [0, 1, 2, 3], Running);
            var m5 := Machine(5, [Msg(msg)], box, recv, [], [0, 1, 2, 3, 4], Running);
            var m6 := Machine(6, [Msg(msg)], Discard.DiscardHead(box), recv, [], [0, 1, 2, 3, 4, 5], Running);
            var m7 := m6.(ip := 7, trace := [0, 1, 2, 3, 4, 5, 6]);
            var m8 := m7.(status := Halted);
            Step(sc, o, m3) == m4 &&
            Step(sc, o, m4) == m5 &&
            Step(sc, o, m5) == m6 &&
            Step(sc, o, m6) == m7 &&
            Step(sc, o, m7) == m8
  {
  }

  /** After a failed send the tell script pushes the message back, runs
      `Discard` and the final `Noop`, and halts. */
  lemma TellFailsTail(to: string, msg: Message, o: Oracles, box: Option<seq<Message>>,
                      recv: seq<ForeignRef>, fuel: nat)
    requires fuel >= 5
    ensures Run(TellScript(to, msg), o, Machine(3, [Num(0)], box, recv, [], [0, 1, 2], Running), fuel)
            == Machine(7, [Msg(msg)], Discard.DiscardHead(box), recv, [], [0, 1, 2, 3, 4, 5, 6], Halted)
  {
    var sc := TellScript(to, msg);
    var m3 := Machine(3, [Num(0)], box, recv, [], [0, 1, 2], Running);
    var m4 := Machine(4, [], box, recv, [], [0, 1, 2, 3], Running);
    var m5 := Machine(5, [Msg(msg)], box, recv, [], [0, 1, 2, 3, 4], Running);
    var m6 := Machine(6, [Msg(msg)], Discard.DiscardHead(box), recv, [], [0, 1, 2, 3, 4, 5], Running);
    var m7 := m6.(ip := 7, trace := [0, 1, 2, 3, 4, 5, 6]);
    var m8 := m7.(status := Halted);
    TellFailsSteps(to, msg, o, box, recv);
    RunOne(sc, o, m3, m4, fuel);
    RunOne(sc, o, m4, m5, fuel - 1);
    RunOne(sc, o, m5, m6, fuel - 2);
    RunOne(sc, o, m6, m7, fuel - 3);
    RunOne(sc, o, m7, m8, fuel - 4);
    RunStopped(sc, o, m8, fuel - 5);
  }

  /** A failed tell falls through: the message is pushed back and the
      `Discard` at 5 runs exactly once, shifting the sender's own mailbox;
      the re-pushed message stays on the stack. */
  lemma TellFails(to: string, msg: Message, o: Oracles, box: Option<seq<Message>>,
                  recv: seq<ForeignRef>, fuel: nat)
    requires !o.tell(to, msg) && fuel >= 8
    ensures Run(TellScript(to, msg), o, Init(box, recv), fuel)
            == Machine(7, [Msg(msg)], Discard.DiscardHead(box), recv, [], [0, 1, 2, 3, 4, 5, 6], Halted)
  {
    TellPrefix(to, msg, o, box, recv);
    assert Flag(false) == Num(0);
    TellFailsTail(to, msg, o, box, recv, fuel - 3);
    RunThen(TellScript(to, msg), o, Init(box, recv), 3, fuel - 3);
  }

  /** The ops `NotifyPrefix` runs, one step at a time. */
  lemma NotifyPrefixSteps(o: Oracles, box: Option<seq<Message>>, recv: seq<ForeignRef>)
    ensures var sc := NotifyScript();
            var m0 := Init(box, recv);
            var m1 := Machine(1, [Flag(o.read(MailHead(box)))], box, recv, [], [0], Running);
            var m2 := Machine(if o.read(MailHead(box)) then 3 else 2, [], box, recv, [], [0, 1], Running);
            Step(sc, o, m0) == m1 &&
            Step(sc, o, m1) == m2
  {
  }

  /** The read of the notify script pushes its result and the conditional
      jump pops it again. */
  lemma NotifyPrefix(o: Oracles, box: Option<seq<Message>>, recv: seq<ForeignRef>)
    ensures Run(NotifyScript(), o, Init(box, recv), 2)
            == Machine(if o.read(MailHead(box)) then 3 else 2, [], box, recv, [], [0, 1], Running)
  {
    var sc := NotifyScript();
    var m0 := Init(box, recv);
    var m1 := Machine(1, [Flag(o.read(MailHead(box)))], box, recv, [], [0], Running);
    var m2 := Machine(if o.read(MailHead(box)) then 3 else 2, [], box, recv, [], [0, 1], Running);
    NotifyPrefixSteps(o, box, recv);
    RunOne(sc, o, m0, m1, 2);
    RunOne(sc, o, m1, m2, 1);
  }

  /** The ops `NotifyReads` runs, one step at a time. */
  lemma NotifyReadSteps(o: Oracles, box: Option<seq<Message>>, recv: seq<ForeignRef>)
    ensures var sc := NotifyScript();
            var m2 := Machine(3, [], box, recv, [], [0, 1], Running);
            var m3 := Machine(4, [], box, recv, [], [0, 1, 3], Running);
            var m4 := m3.(status := Halted);
            Step(sc, o, m2) == m3 &&
            Step(sc, o, m3) == m4
  {
  }

  /** A successful read jumps from index 1 to the `Noop` at 3, skipping the
      `Discard`: the mailbox is untouched. */
  lemma NotifyReads(o: Oracles, box: Option<seq<Message>>, recv: seq<ForeignRef>, fuel: nat)
    requires o.read(MailHead(box)) && fuel >= 4
    ensures Run(NotifyScript(), o, Init(box, recv), fuel)
            == Machine(4, [], box, recv, [], [0, 1, 3], Halted)
  {
    var sc := NotifyScript();
    var m2 := Machine(3, [], box, recv, [], [0, 1], Running);
    var m3 := Machine(4, [], box, recv, [], [0, 1, 3], Running);
    var m4 := m3.(status := Halted);
    NotifyReadSteps(o, box, recv);
    NotifyPrefix(o, box, recv);
    RunOne(sc, o, m2, m3, fuel - 2);
    RunOne(sc, o, m3, m4, fuel - 3);
    RunStopped(sc, o, m4, fuel - 4);
    RunThen(sc, o, Init(box, recv), 2, fuel - 2);
  }

  /** The ops `NotifyDiscards` runs, one step at a time. */
  lemma NotifyDiscardSteps(o: Oracles, box: Option<seq<Message>>, recv: seq<ForeignRef>)
    ensures var sc := NotifyScript();
            var m2 := Machine(2, [], box, recv, [], [0, 1], Running);
            var m3 := Machine(3, [], Discard.DiscardHead(box), recv, [], [0, 1, 2], Running);
            var m4 := m3.(ip := 4, trace := [0, 1, 2, 3]);
            var m5 := m4.(status := Halted);
            Step(sc, o, m2) == m3 &&
            Step(sc, o, m3) == m4 &&
            Step(sc, o, m4) == m5
  {
  }

  /** A failed read discards the oldest message, once. */
  lemma NotifyDiscards(o: Oracles, box: Option<seq<Message>>, recv: seq<ForeignRef>, fuel: nat)
    requires !o.read(MailHead(box)) && fuel >= 5
    ensures Run(NotifyScript(), o, Init(box, recv), fuel)
            == Machine(4, [], Discard.DiscardHead(box), recv, [], [0, 1, 2, 3], Halted)
  {
    var sc := NotifyScript();
    var m2 := Machine(2, [], box, recv, [], [0, 1], Running);
    var m3 := Machine(3, [], Discard.DiscardHead(box), recv, [], [0, 1, 2], Running);
    var m4 := m3.(ip := 4, trace := [0, 1, 2, 3]);
    var m5 := m4.(status := Halted);
    NotifyDiscardSteps(o, box, recv);
    NotifyPrefix(o, box, recv);
    RunOne(sc, o, m2, m3, fuel - 2);
    RunOne(sc, o, m3, m4, fuel - 3);
    RunOne(sc, o, m4, m5, fuel - 4);
    RunStopped(sc, o, m5, fuel - 5);
    RunThen(sc, o, Init(box, recv), 2, fuel - 2);
  }

  /** The ops `AcceptRuns` runs, one step at a time. */
  lemma AcceptSteps(msg: Message, o: Oracles, box: Option<seq<Message>>, recv: seq<ForeignRef>)
    ensures var sc := AcceptScript(msg);
            var m0 := Init(box, recv);
            var m1 := Machine(1, [Msg(msg)], box, recv, [], [0], Running);
            var m2 := Machine(2, [Msg(msg)], Discard.DiscardHead(box), recv, [], [0, 1], Running);
            var m3 := m2.(status := Halted);
            Step(sc, o, m0) == m1 &&
            Step(sc, o, m1) == m2 &&
            Step(sc, o, m2) == m3
  {
  }

  /** The accept script pushes its message and discards the oldest message
      of the mailbox. */
  lemma AcceptRuns(msg: Message, o: Oracles, box: Option<seq<Message>>, recv: seq<ForeignRef>, fuel: nat)
    requires fuel >= 3
    ensures Run(AcceptScript(msg), o, Init(box, recv), fuel)
            == Machine(2, [Msg(msg)], Discard.DiscardHead(box), recv, [], [0, 1], Halted)
  {
    var sc := AcceptScript(msg);
    var m0 := Init(box, recv);
    var m1 := Machine(1, [Msg(msg)], box, recv, [], [0], Running);
    var m2 := Machine(2, [Msg(msg)], Discard.DiscardHead(box), recv, [], [0, 1], Running);
    var m3 := m2.(status := Halted);
    AcceptSteps(msg, o, box, recv);
    RunOne(sc, o, m0, m1, fuel);
    RunOne(sc, o, m1, m2, fuel - 1);
    RunOne(sc, o, m2, m3, fuel - 2);
    RunStopped(sc, o, m3, fuel - 3);
  }

  /** The receive script, op by op: push the function, then register it. */
  lemma ReceiveSteps(func: ForeignRef, o: Oracles, box: Option<seq<Message>>, recv: seq<ForeignRef>)
    ensures Step(ReceiveScript(func), o, Init(box, recv)) == Machine(1, [Foreign(func)], box, recv, [], [0], Running)
    ensures Step(ReceiveScript(func), o, Machine(1, [Foreign(func)], box, recv, [], [0], Running))
            == Machine(2, [], box, recv + [func], [], [0, 1], Running)
    ensures Step(ReceiveScript(func), o, Machine(2, [], box, recv + [func], [], [0, 1], Running))
            == Machine(2, [], box, recv + [func], [], [0, 1], Halted)
  {
  }

  /** The receive script appends its function to the pending receivers and
      leaves the stack empty. */
  lemma ReceiveRuns(func: ForeignRef, o: Oracles, box: Option<seq<Message>>, recv: seq<ForeignRef>, fuel: nat)
    requires fuel >= 3
    ensures Run(ReceiveScript(func), o, Init(box, recv), fuel)
            == Machine(2, [], box, recv + [func], [], [0, 1], Halted)
  {
    var sc := ReceiveScript(func);
    var m0 := Init(box, recv);
    var m1 := Machine(1, [Foreign(func)], box, recv, [], [0], Running);
    var m2 := Machine(2, [], box, recv + [func], [], [0, 1], Running);
    var m3 := m2.(status := Halted);
    ReceiveSteps(func, o, box, recv);
    RunOne(sc, o, m0, m1, fuel);
    RunOne(sc, o, m1, m2, fuel - 1);
    RunOne(sc, o, m2, m3, fuel - 2);
    RunStopped(sc, o, m3, fuel - 3);
  }

  /** The script of the runtime's jump test. */
  function JumpScript(): Script {
    Script(DefaultScript().constants, [Int, Int, Jump(4), Int, Int])
  }

  /** The ops `JumpPrefix` runs, one step at a time. */
  lemma JumpPrefixSteps(o: Oracles, box: Option<seq<Message>>, recv: seq<ForeignRef>)
    ensures var sc := JumpScript();
            var m0 := Init(box, recv);
            var m1 := Machine(1, [], box, recv, [1], [0], Running);
            var m2 := Machine(2, [], box, recv, [1, 1], [0, 1], Running);
            var m3 := Machine(4, [], box, recv, [1, 1], [0, 1, 2], Running);
            Step(sc, o, m0) == m1 &&
            Step(sc, o, m1) == m2 &&
            Step(sc, o, m2) == m3
  {
  }

  /** The first three ops of the jump test: two values recorded, then the
      jump lands on index 4. */
  lemma JumpPrefix(o: Oracles, box: Option<seq<Message>>, recv: seq<ForeignRef>)
    ensures Run(JumpScript(), o, Init(box, recv), 3)
            == Machine(4, [], box, recv, [1, 1], [0, 1, 2], Running)
  {
    var sc := JumpScript();
    var m0 := Init(box, recv);
    var m1 := Machine(1, [], box, recv, [1], [0], Running);
    var m2 := Machine(2, [], box, recv, [1, 1], [0, 1], Running);
    var m3 := Machine(4, [], box, recv, [1, 1], [0, 1, 2], Running);
    JumpPrefixSteps(o, box, recv);
    RunOne(sc, o, m0, m1, 3);
    RunOne(sc, o, m1, m2, 2);
    RunOne(sc, o, m2, m3, 1);
  }

  /** The ops `JumpIsAbsolute` runs, one step at a time. */
  lemma JumpTailSteps(o: Oracles, box: Option<seq<Message>>, recv: seq<ForeignRef>)
    ensures var sc := JumpScript();
            var m3 := Machine(4, [], box, recv, [1, 1], [0, 1, 2], Running);
            var m4 := Machine(5, [], box, recv, [1, 1, 1], [0, 1, 2, 4], Running);
            var m5 := m4.(status := Halted);
            Step(sc, o, m3) == m4 &&
            Step(sc, o, m4) == m5
  {
  }

  /** The runtime's jump test: `[Int, Int, Jump(4), Int, Int]` runs the ops
      at 0, 1, 2 and 4; the jump skips index 3 and the target runs, so
      exactly three values are recorded. */
  lemma JumpIsAbsolute(o: Oracles, box: Option<seq<Message>>, recv: seq<ForeignRef>, fuel: nat)
    requires fuel >= 5
    ensures var r := Run(JumpScript(), o, Init(box, recv), fuel);
            r.log == [1, 1, 1] && r.trace == [0, 1, 2, 4] && r.status == Halted
  {
    var sc := JumpScript();
    var m3 := Machine(4, [], box, recv, [1, 1], [0, 1, 2], Running);
    var m4 := Machine(5, [], box, recv, [1, 1, 1], [0, 1, 2, 4], Running);
    var m5 := m4.(status := Halted);
    JumpTailSteps(o, box, recv);
    JumpPrefix(o, box, recv);
    RunOne(sc, o, m3, m4, fuel - 3);
    RunOne(sc, o, m4, m5, fuel - 4);
    RunStopped(sc, o, m5, fuel - 5);
    RunThen(sc, o, Init(box, recv), 3, fuel - 3);
  }

  /** The ops `CountOpsPush` runs, one step at a time. */
  lemma CountOpsSteps(o: Oracles, box: Option<seq<Message>>, recv: seq<ForeignRef>)
    ensures var sc := Script(DefaultScript().constants, [MailCount, RecvCount]);
            var m0 := Init(box, recv);
            var m1 := Machine(1, [Num(MailboxSize(box))], box, recv, [], [0], Running);
            var m2 := Machine(2, [Num(MailboxSize(box)), Num(|recv|)], box, recv, [], [0, 1], Running);
            var m3 := m2.(status := Halted);
            Step(sc, o, m0) == m1 &&
            Step(sc, o, m1) == m2 &&
            Step(sc, o, m2) == m3
  {
  }

  /** The counting ops push the number of waiting messages and the number
      of pending receivers. */
  lemma CountOpsPush(o: Oracles, box: Option<seq<Message>>, recv: seq<ForeignRef>)
    ensures Run(Script(DefaultScript().constants, [MailCount, RecvCount]), o, Init(box, recv), 3).stack
            == [Num(MailboxSize(box)), Num(|recv|)]
  {
    var sc := Script(DefaultScript().constants, [MailCount, RecvCount]);
    var m0 := Init(box, recv);
    var m1 := Machine(1, [Num(MailboxSize(box))], box, recv, [], [0], Running);
    var m2 := Machine(2, [Num(MailboxSize(box)), Num(|recv|)], box, recv, [], [0, 1], Running);
    var m3 := m2.(status := Halted);
    CountOpsSteps(o, box, recv);
    RunOne(sc, o, m0, m1, 3);
    RunOne(sc, o, m1, m2, 2);
    RunOne(sc, o, m2, m3, 1);
  }
}
