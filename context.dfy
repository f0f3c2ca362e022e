/** The per-actor context of the record-flag evolution: mailbox, instance,
    behaviour stack, the `{immutable, buffered}` flag record and the
    template. Actor `init` methods update a context in place, so it is a
    class. */
module ActorContext {
  import opened Wrappers
  import opened Values
  import opened Cases
  import opened Template

  /** The flag record `{immutable, buffered}`. */
  datatype ContextFlags = ContextFlags(immutable: bool, buffered: bool)

  /** A behaviour built from an ordered list of cases; applying it to a
      message gives `Left(m)` to reject the message and `Right` to report
      it processed. */
  datatype Behaviour = CaseBehaviour(cases: seq<Case<Pattern>>)

  /** Outcome of a behaviour on one message, with the handler runs. */
  datatype BehaviourResult = BehaviourResult(result: Either<Message, Unit>, ran: seq<Invocation<Message>>)

  class Context {
    var mailbox: Option<seq<Message>>
    var actor: Instance
    var behaviour: seq<Behaviour>
    var flags: ContextFlags
    var template: Template

    /** A context has a mailbox exactly when it is buffered. */
    ghost predicate Valid()
      reads this
    {
      mailbox.Some? <==> flags.buffered
    }

    /** `newContext`: no mailbox, an empty behaviour stack, neither
        immutable nor buffered, and the given actor and template. */
    constructor NewContext(actor: Instance, template: Template)
      ensures Valid()
      ensures mailbox == None && behaviour == []
      ensures flags == ContextFlags(false, false)
      ensures this.actor == actor && this.template == template
    {
      this.mailbox := None;
      this.actor := actor;
      this.behaviour := [];
      this.flags := ContextFlags(false, false);
      this.template := template;
    }
  }
}
