/** Resident actors of the record-flag evolution: actors living in the
    current runtime, which talk to their system by handing it ops. The
    system is outside this model: the ops handed to it are recorded in
    order, and the address it identifies the actor by is a field. */
module Resident {
  import opened Wrappers
  import opened Values
  import opened Cases
  import opened AddressTree
  import opened ActorContext
  import Template

  /** The ops a resident hands to its system. */
  datatype SystemOp =
    | SpawnOp(template: Template.Template)
    | TellOp(to: Address, from: Address, message: Message)
    | KillOp(target: Address)
    | DiscardOp(to: Address, from: Address, message: Message)
    | ReceiveOp(address: Address, immutable: bool, behaviour: Behaviour)

  /** The system an actor talks to: the live one, or the detached stand-in
      an actor gets once stopped. */
  datatype SystemRef = Attached | Detached

  /** `Immutable` actors keep the cases given at creation; `Mutable` ones
      select their next cases while running. */
  datatype Kind = Immutable(receive: seq<Case<Pattern>>) | Mutable

  /** A message handed straight to an actor, with its addressing. */
  datatype Envelope = Envelope(to: Address, from: Address, message: Message)

  /** `mbehaviour` / `ibehaviour`: tries the cases in order. The message is
      given back as `Left` when no case matches and reported processed as
      `Right` when one does; exactly the first matching case's handler
      runs. */
  function ApplyCases(test: (Message, Pattern) -> bool, cases: seq<Case<Pattern>>, m: Message): (r: BehaviourResult)
    ensures r.result.Left? <==> forall k :: 0 <= k < |cases| ==> !test(m, cases[k].pattern)
    ensures r.result.Left? ==> r.result.left == m && r.ran == []
    ensures r.result.Right? ==> exists k :: FirstMatch(test, cases, m, k)
                                            && r.ran == [Invocation(cases[k].handler, m)]
  {
    var s := SomeMatch(test, cases, m);
    var result := match FromBoolean(s.matched)
      case Left(_) => Left(m)
      case Right(_) => Right(Unit);
    BehaviourResult(result, s.ran)
  }

  class Resident {
    const kind: Kind
    /** What `system.identify(this)` answers: the actor's own address. */
    const identity: Address
    var system: SystemRef
    /** The ops handed to the system so far, oldest first. */
    var submitted: seq<SystemOp>

    constructor (kind: Kind, identity: Address)
      ensures this.kind == kind && this.identity == identity
      ensures system == Attached && submitted == []
    {
      this.kind := kind;
      this.identity := identity;
      system := Attached;
      submitted := [];
    }

    /** `init`: both kinds get an empty mailbox and become buffered; an
        immutable actor is marked immutable and its cases become its one
        behaviour, a mutable one is marked mutable and keeps its behaviour
        stack as it is. The actor and template are left alone. */
    method Init(c: Context)
      modifies c
      ensures c.mailbox == Some([]) && c.Valid()
      ensures kind.Immutable? ==> c.flags == ContextFlags(true, true)
                                  && c.behaviour == old(c.behaviour) + [CaseBehaviour(kind.receive)]
      ensures kind.Mutable? ==> c.flags == ContextFlags(false, true) && c.behaviour == old(c.behaviour)
      ensures c.actor == old(c.actor) && c.template == old(c.template)
    {
      if kind.Immutable? {
        c.behaviour := c.behaviour + [CaseBehaviour(kind.receive)];
      }
      c.mailbox := Some([]);
      c.flags := ContextFlags(kind.Immutable?, true);
    }

    /** `spawn`: hands a Spawn op to the system and predicts the child's
        address, which is the discard address for a restricted id. */
    method Spawn(t: Template.Template) returns (addr: Address)
      modifies this
      ensures submitted == old(submitted) + [SpawnOp(t)] && system == old(system)
      ensures IsRestricted(t.id) ==> addr == ADDRESS_DISCARD
      ensures !IsRestricted(t.id) ==> addr == Make(identity, t.id)
    {
      submitted := submitted + [SpawnOp(t)];
      addr := if IsRestricted(t.id) then ADDRESS_DISCARD else Make(identity, t.id);
    }

    /** `tell`: hands a Tell op from this actor's own address. */
    method Tell(to: Address, m: Message)
      modifies this
      ensures submitted == old(submitted) + [TellOp(to, identity, m)] && system == old(system)
    {
      submitted := submitted + [TellOp(to, identity, m)];
    }

    /** `kill`: hands a Kill op for `target`. */
    method Kill(target: Address)
      modifies this
      ensures submitted == old(submitted) + [KillOp(target)] && system == old(system)
    {
      submitted := submitted + [KillOp(target)];
    }

    /** `exit`: kills the actor's own address. */
    method Exit()
      modifies this
      ensures submitted == old(submitted) + [KillOp(identity)] && system == old(system)
    {
      Kill(identity);
    }

    /** `stop`: the actor's system is replaced by a detached one. */
    method Stop()
      modifies this
      ensures system == Detached && submitted == old(submitted)
    {
      system := Detached;
    }

    /** `accept`: an enveloped message handed straight to the actor is
        passed to the system's discard op, addressing and payload intact. */
    method Accept(e: Envelope)
      modifies this
      ensures submitted == old(submitted) + [DiscardOp(e.to, e.from, e.message)] && system == old(system)
    {
      submitted := submitted + [DiscardOp(e.to, e.from, e.message)];
    }

    /** `select`: a no-op for an immutable actor; a mutable actor hands a
        Receive op for its own address carrying the given cases. */
    method Select(cases: seq<Case<Pattern>>)
      modifies this
      ensures kind.Immutable? ==> submitted == old(submitted)
      ensures kind.Mutable? ==>
                submitted == old(submitted) + [ReceiveOp(identity, false, CaseBehaviour(cases))]
      ensures system == old(system)
    {
      if kind.Mutable? {
        submitted := submitted + [ReceiveOp(identity, false, CaseBehaviour(cases))];
      }
    }
  }

  /** A mutable actor that re-selects the same cases after every message
      handles its mailbox oldest first: the handler runs of the whole
      mailbox, one message at a time. */
  function HandleAll(test: (Message, Pattern) -> bool, cases: seq<Case<Pattern>>, box: seq<Message>)
    : (ran: seq<Invocation<Message>>)
    ensures |ran| <= |box|
  {
    if box == [] then []
    else ApplyCases(test, cases, box[0]).ran + HandleAll(test, cases, box[1..])
  }

  /** The messages of a run of handlers, in order. */
  function Handled(ran: seq<Invocation<Message>>): (ms: seq<Message>)
    ensures |ms| == |ran|
    ensures forall k :: 0 <= k < |ran| ==> ms[k] == ran[k].message
  {
    if ran == [] then [] else [ran[0].message] + Handled(ran[1..])
  }

  /** When every message matches some case, the messages are handled
      exactly once each and in the order they arrived. */
  lemma {:induction false} HandledInOrder(test: (Message, Pattern) -> bool, cases: seq<Case<Pattern>>, box: seq<Message>)
    requires forall i :: 0 <= i < |box| ==> exists k :: 0 <= k < |cases| && test(box[i], cases[k].pattern)
    ensures Handled(HandleAll(test, cases, box)) == box
  {
    if box != [] {
      var r := ApplyCases(test, cases, box[0]);
      assert r.result.Right?;
      HandledInOrder(test, cases, box[1..]);
      HandledAppend(r.ran, HandleAll(test, cases, box[1..]));
    }
  }

  /** `Handled` distributes over concatenation. */
  lemma {:induction false} HandledAppend(a: seq<Invocation<Message>>, b: seq<Invocation<Message>>)
    ensures Handled(a + b) == Handled(a) + Handled(b)
    decreases |a|
  {
    if a != [] {
      assert (a + b)[1..] == a[1..] + b;
      HandledAppend(a[1..], b);
    }
  }
}
