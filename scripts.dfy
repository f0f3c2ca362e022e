/** The hand-written scripts residents submit to the VM: accepting
    (dropping) a message, telling a message to an address, registering a
    receiver and notifying the actor of new mail. */
module Scripts {
  import opened Wrappers
  import opened Values
  import opened Script

  /** `acceptCode`: push the message, then discard. */
  const ACCEPT_CODE: seq<Op> := [PushMsg(0), Discard]

  /** `tellcode`: push the message and the address, tell, and on success
      jump to the final `Noop`; on failure push the message again and
      discard. */
  const TELL_CODE: seq<Op> := [
    PushMsg(0),     // 0: the message
    PushStr(0),     // 1: the address
    Tell,           // 2: tell the message to the address
    JumpIfOne(6),   // 3: to the end when the send succeeded
    PushMsg(0),     // 4: the message again
    Discard,        // 5: discard
    Noop            // 6: the end
  ]

  /** `receivecode`: push the receiver function and register it. */
  const RECEIVE_CODE: seq<Op> := [PushForeign(0), Receive]

  /** `notifyCode`: read; on success jump to the final `Noop`, otherwise
      discard first. */
  const NOTIFY_CODE: seq<Op> := [Read, JumpIfOne(3), Discard, Noop]

  /** Every jump in `code` lands on an index of `code`. */
  predicate JumpsInBounds(code: seq<Op>) {
    forall i :: 0 <= i < |code| ==>
      (code[i].JumpIfOne? ==> code[i].target < |code|) &&
      (code[i].Jump? ==> code[i].target < |code|)
  }

  /** `AcceptScript` (also exported as `DropScript`): the message is the
      only constant, at messages[0], which is what `PushMsg(0)` reads. */
  function AcceptScript(msg: Message): (s: Script)
    ensures Lookup(s.constants, TABLE_MESSAGES, 0) == Some(Msg(msg))
    ensures forall t: nat, i: nat :: (t, i) != (TABLE_MESSAGES, 0) ==> Lookup(s.constants, t, i).None?
    ensures s.code == ACCEPT_CODE && JumpsInBounds(s.code)
  {
    Script(Constants([], [], [], [], [msg], []), ACCEPT_CODE)
  }

  /** `TellScript`: the address at strings[0] and the message at
      messages[0], where `PushStr(0)` and `PushMsg(0)` read them. */
  function TellScript(to: string, msg: Message): (s: Script)
    ensures Lookup(s.constants, TABLE_STRINGS, 0) == Some(Str(to))
    ensures Lookup(s.constants, TABLE_MESSAGES, 0) == Some(Msg(msg))
    ensures forall t: nat, i: nat :: (t, i) != (TABLE_STRINGS, 0) && (t, i) != (TABLE_MESSAGES, 0) ==>
              Lookup(s.constants, t, i).None?
    ensures s.code == TELL_CODE && JumpsInBounds(s.code)
  {
    Script(Constants([], [to], [], [], [msg], []), TELL_CODE)
  }

  /** `ReceiveScript`: the receiver at foreigns[0], where `PushForeign(0)`
      reads it. */
  function ReceiveScript(func: ForeignRef): (s: Script)
    ensures Lookup(s.constants, TABLE_FOREIGNS, 0) == Some(Foreign(func))
    ensures forall t: nat, i: nat :: (t, i) != (TABLE_FOREIGNS, 0) ==> Lookup(s.constants, t, i).None?
    ensures s.code == RECEIVE_CODE && JumpsInBounds(s.code)
  {
    Script(Constants([], [], [], [], [], [func]), RECEIVE_CODE)
  }

  /** `NotifyScript`: no constants at all. */
  function NotifyScript(): (s: Script)
    ensures forall t: nat, i: nat :: Lookup(s.constants, t, i).None?
    ensures s.code == NOTIFY_CODE && JumpsInBounds(s.code)
  {
    Script(Constants([], [], [], [], [], []), NOTIFY_CODE)
  }
}
