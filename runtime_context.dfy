/** The per-actor context of the runtime evolution: a mailbox that always
    exists, the pending receivers, the behaviour stack and a flag word. */
module RuntimeContext {
  import opened Values
  import opened Script
  import ActorContext
  import Template

  class Context {
    var mailbox: seq<Message>
    var receivers: seq<ForeignRef>
    var behaviour: seq<ActorContext.Behaviour>
    var flags: bv32
    const actor: Instance
    const template: Template.Template

    /** A context holding exactly the given values. */
    constructor (actor: Instance, template: Template.Template, flags: bv32)
      ensures this.actor == actor && this.template == template && this.flags == flags
      ensures mailbox == [] && receivers == [] && behaviour == []
    {
      this.actor := actor;
      this.template := template;
      this.flags := flags;
      mailbox := [];
      receivers := [];
      behaviour := [];
    }
  }
}
