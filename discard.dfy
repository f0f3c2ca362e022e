/** The `Discard` operation: drop the oldest message of a context's mailbox. */
module Discard {
  import opened Wrappers
  import opened Values
  import ActorContext

  /** The mailbox with its first (oldest) message removed; an empty mailbox
      stays empty and an absent one stays absent. */
  function DiscardHead<M>(box: Option<seq<M>>): (r: Option<seq<M>>)
    ensures r.Some? <==> box.Some?
    ensures box.Some? && box.value == [] ==> r.value == []
    ensures box.Some? && box.value != [] ==> box.value == [box.value[0]] + r.value
  {
    match box
    case None => None
    case Some(b) => if b == [] then Some([]) else Some(b[1..])
  }

  /** Removing the head keeps the rest in order: the k-th remaining message
      is the (k+1)-th old one. */
  lemma DiscardKeepsOrder<M>(box: seq<M>, k: nat)
    requires k + 1 < |box|
    ensures DiscardHead(Some(box)).value[k] == box[k + 1]
  {
    var r := DiscardHead(Some(box)).value;
    assert box[k + 1] == ([box[0]] + r)[k + 1];
  }

  /** `Discard.exec`: shifts the current context's mailbox in place and
      changes nothing else. */
  method Discard(c: ActorContext.Context)
    modifies c
    ensures c.mailbox == DiscardHead(old(c.mailbox))
    ensures c.behaviour == old(c.behaviour) && c.flags == old(c.flags)
    ensures c.actor == old(c.actor) && c.template == old(c.template)
    ensures old(c.Valid()) ==> c.Valid()
  {
    match c.mailbox {
      case None =>
      case Some(box) =>
        if box != [] {
          c.mailbox := Some(box[1..]);
        }
    }
  }
}
