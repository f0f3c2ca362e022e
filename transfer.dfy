/** The `Transfer` op: a message addressed to `to` is handed to the actor
    registered as the router for it, or dropped when the router has no
    running instance. */
module Transfer {
  import opened Values
  import opened AddressTree

  /** A message in transit, stamped with its destination and its sender. */
  datatype Envelope = Envelope(to: Address, from: Address, message: Message)

  /** The instruction: deliver `message` from `from` to `to` through `router`. */
  datatype Transfer = Transfer(to: Address, from: Address, router: Address, message: Message)

  /** The one effect a transfer has: the router's instance accepts an
      envelope, or a `Drop` of the message is executed. */
  datatype TransferEffect =
    | Accept(instance: Instance, envelope: Envelope)
    | Drop(to: Address, from: Address, message: Message)

  /** `execTransfer`: looks up the router's instance. When there is one it
      accepts an envelope addressed to the original `to` (not the router)
      and from the original sender; otherwise the message is dropped. The
      payload is passed through unchanged either way. */
  function ExecTransfer(instances: map<Address, Instance>, t: Transfer): (e: TransferEffect)
    ensures e.Accept? <==> t.router in instances
    ensures e.Drop? <==> t.router !in instances
    ensures e.Accept? ==> e.instance == instances[t.router]
                          && e.envelope == Envelope(t.to, t.from, t.message)
    ensures e.Drop? ==> e == Drop(t.to, t.from, t.message)
  {
    if t.router in instances then
      Accept(instances[t.router], Envelope(t.to, t.from, t.message))
    else
      Drop(t.to, t.from, t.message)
  }

  /** The payload, destination and sender reach the effect unchanged,
      whichever branch is taken. */
  lemma TransferKeepsPayload(instances: map<Address, Instance>, t: Transfer)
    ensures var e := ExecTransfer(instances, t);
            (if e.Accept? then e.envelope.message else e.message) == t.message
    ensures var e := ExecTransfer(instances, t);
            (if e.Accept? then e.envelope.to else e.to) == t.to
    ensures var e := ExecTransfer(instances, t);
            (if e.Accept? then e.envelope.from else e.from) == t.from
  {
  }

  /** Only the router's entry decides the outcome: changing the instance
      table anywhere else gives the same effect. */
  lemma TransferDependsOnlyOnRouter(i1: map<Address, Instance>, i2: map<Address, Instance>, t: Transfer)
    requires (t.router in i1) == (t.router in i2)
    requires t.router in i1 ==> i1[t.router] == i2[t.router]
    ensures ExecTransfer(i1, t) == ExecTransfer(i2, t)
  {
  }
}
