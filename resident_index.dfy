/** Resident actors of the bitmask evolution. `init` ORs flag bits into
    the context and pushes behaviours; everything else is a request handed
    to the system, whose answer (when there is one) comes from outside. */
module ResidentIndex {
  import opened Wrappers
  import opened Values
  import opened Cases
  import opened AddressTree
  import opened Flags
  import ActorContext
  import RuntimeContext
  import Template

  /** The scripts a resident asks its system to execute. */
  datatype Request =
    | NotifyReq
    | SelfReq
    | TellReq(to: Address, message: Message)
    | RaiseReq(text: string)
    | KillReq(target: Address)
    | SpawnReq(template: Template.Template)
    | ReceiveReq(cases: seq<Case<Pattern>>)

  /** `Immutable` and `Temp` actors carry fixed cases; `Mutable` ones
      select cases as they run. */
  datatype Kind =
    | Immutable(receive: seq<Case<Pattern>>)
    | Temp(receive: seq<Case<Pattern>>)
    | Mutable

  class Resident {
    const kind: Kind
    /** The requests handed to the system so far, oldest first. */
    var submitted: seq<Request>

    constructor (kind: Kind)
      ensures this.kind == kind && submitted == []
    {
      this.kind := kind;
      submitted := [];
    }

    /** `init`: an immutable actor ORs in IMMUTABLE and BUFFERED, a
        temporary one TEMPORARY and BUFFERED, and both push their cases as
        one behaviour; a mutable actor ORs in BUFFERED only and pushes
        nothing. Bits already set stay set. */
    method Init(c: RuntimeContext.Context)
      modifies c
      ensures kind.Immutable? ==> c.flags == old(c.flags) | FLAG_IMMUTABLE | FLAG_BUFFERED
      ensures kind.Temp? ==> c.flags == old(c.flags) | FLAG_TEMPORARY | FLAG_BUFFERED
      ensures kind.Mutable? ==> c.flags == old(c.flags) | FLAG_BUFFERED
      ensures !kind.Mutable? ==>
                c.behaviour == old(c.behaviour) + [ActorContext.CaseBehaviour(kind.receive)]
      ensures kind.Mutable? ==> c.behaviour == old(c.behaviour)
      ensures c.mailbox == old(c.mailbox) && c.receivers == old(c.receivers)
    {
      match kind {
        case Immutable(receive) =>
          c.flags := c.flags | FLAG_IMMUTABLE | FLAG_BUFFERED;
          c.behaviour := c.behaviour + [ActorContext.CaseBehaviour(receive)];
        case Temp(receive) =>
          c.flags := c.flags | FLAG_TEMPORARY | FLAG_BUFFERED;
          c.behaviour := c.behaviour + [ActorContext.CaseBehaviour(receive)];
        case Mutable =>
          c.flags := c.flags | FLAG_BUFFERED;
      }
    }

    /** `select`: a no-op for immutable and temporary actors; a mutable
        actor asks the system to register a receiver for the cases. */
    method Select(cases: seq<Case<Pattern>>)
      modifies this
      ensures !kind.Mutable? ==> submitted == old(submitted)
      ensures kind.Mutable? ==> submitted == old(submitted) + [ReceiveReq(cases)]
    {
      if kind.Mutable? {
        submitted := submitted + [ReceiveReq(cases)];
      }
    }

    /** `self`: asks the system for the actor's address; when the system
        answers nothing, the discard address. */
    method Self(answer: Option<Address>) returns (addr: Address)
      modifies this
      ensures submitted == old(submitted) + [SelfReq]
      ensures answer.Some? ==> addr == answer.value
      ensures answer.None? ==> addr == ADDRESS_DISCARD
    {
      submitted := submitted + [SelfReq];
      addr := answer.OrJust(ADDRESS_DISCARD);
    }

    /** `spawn`: asks the system to spawn `t`; when the system answers
        nothing, the discard address. */
    method Spawn(t: Template.Template, answer: Option<Address>) returns (addr: Address)
      modifies this
      ensures submitted == old(submitted) + [SpawnReq(t)]
      ensures answer.Some? ==> addr == answer.value
      ensures answer.None? ==> addr == ADDRESS_DISCARD
    {
      submitted := submitted + [SpawnReq(t)];
      addr := answer.OrJust(ADDRESS_DISCARD);
    }

    /** `notify`: asks the system to run the notify script. */
    method Notify()
      modifies this
      ensures submitted == old(submitted) + [NotifyReq]
    {
      submitted := submitted + [NotifyReq];
    }

    /** `tell`: asks the system to tell `m` to `to`. */
    method Tell(to: Address, m: Message)
      modifies this
      ensures submitted == old(submitted) + [TellReq(to, m)]
    {
      submitted := submitted + [TellReq(to, m)];
    }

    /** `raise`: asks the system to raise the error's message. */
    method Raise(e: Err)
      modifies this
      ensures submitted == old(submitted) + [RaiseReq(e.message)]
    {
      submitted := submitted + [RaiseReq(e.message)];
    }

    /** `kill`: asks the system to kill `target`. */
    method Kill(target: Address)
      modifies this
      ensures submitted == old(submitted) + [KillReq(target)]
    {
      submitted := submitted + [KillReq(target)];
    }

    /** `exit`: asks for the actor's own address, then to kill it. */
    method Exit(answer: Option<Address>)
      modifies this
      ensures submitted == old(submitted) + [SelfReq, KillReq(answer.OrJust(ADDRESS_DISCARD))]
    {
      var me := Self(answer);
      Kill(me);
    }
  }

  /** What `init` does to the flag tests: immutable actors end up
      immutable and buffered, temporary ones temporary and buffered with
      the immutable bit as it was, mutable ones buffered with the other
      bits as they were. The router bit is never touched. */
  lemma InitFlagTests(f: bv32)
    ensures IsImmutable(f | FLAG_IMMUTABLE | FLAG_BUFFERED) && IsBuffered(f | FLAG_IMMUTABLE | FLAG_BUFFERED)
    ensures IsRouter(f | FLAG_IMMUTABLE | FLAG_BUFFERED) == IsRouter(f)
    ensures IsTemporary(f | FLAG_TEMPORARY | FLAG_BUFFERED) && IsBuffered(f | FLAG_TEMPORARY | FLAG_BUFFERED)
    ensures IsImmutable(f | FLAG_TEMPORARY | FLAG_BUFFERED) == IsImmutable(f)
    ensures IsRouter(f | FLAG_TEMPORARY | FLAG_BUFFERED) == IsRouter(f)
    ensures IsBuffered(f | FLAG_BUFFERED) && IsImmutable(f | FLAG_BUFFERED) == IsImmutable(f)
    ensures IsTemporary(f | FLAG_BUFFERED) == IsTemporary(f) && IsRouter(f | FLAG_BUFFERED) == IsRouter(f)
  {
    SetImmutableKeepsOthers(f);
    SetFlagHolds(f);
    SetBufferedKeepsOthers(f | FLAG_IMMUTABLE);
    SetFlagHolds(f | FLAG_IMMUTABLE);
    SetTemporaryKeepsOthers(f);
    SetFlagHolds(f | FLAG_TEMPORARY);
    SetBufferedKeepsOthers(f | FLAG_TEMPORARY);
    SetBufferedKeepsOthers(f);
  }
}
