/** The one-shot guard of a message: it reports at most one verdict, and a nack if it is dropped unused. */
module MessageGuard {
  import opened PullTypes

  datatype GuardState = Unacked(ackId: AckId) | Acked

  /** The sending half of the manager's channel. */
  class Sender {
    var sent: seq<AckOrNack<AckId>>

    constructor ()
      ensures sent == []
    {
      sent := [];
    }

    method Send(verdict: AckOrNack<AckId>)
      modifies this
      ensures sent == old(sent) + [verdict]
    {
      sent := sent + [verdict];
    }
  }

  class MessageAckGuard {
    var state: GuardState
    const sender: Sender

    constructor (sender: Sender, ackId: AckId)
      ensures this.sender == sender && state == Unacked(ackId)
    {
      this.sender := sender;
      state := Unacked(ackId);
    }

    /** Sends a verdict unless one was sent before. */
    method DoSend(ack: bool)
      modifies this`state, sender
      ensures state == Acked
      ensures sender.sent == match old(state)
        case Unacked(id) => old(sender.sent) + [if ack then Ack(id) else Nack(id)]
        case Acked => old(sender.sent)
    {
      var before := state;
      state := Acked;
      match before {
        case Unacked(id) => sender.Send(if ack then Ack(id) else Nack(id));
        case Acked =>
      }
    }

    method Drop()
      modifies this`state, sender
      ensures state == Acked
      ensures old(state).Acked? ==> sender.sent == old(sender.sent)
      ensures old(state).Unacked? ==> sender.sent == old(sender.sent) + [Nack(old(state).ackId)]
    {
      DoSend(false);
    }

    /** Acking consumes the guard, which is then dropped: still exactly one verdict, the ack. */
    method AckAndDrop()
      modifies this`state, sender
      ensures old(state).Unacked? ==> sender.sent == old(sender.sent) + [Ack(old(state).ackId)]
      ensures old(state).Acked? ==> sender.sent == old(sender.sent)
      ensures state == Acked
    {
      DoSend(true);
      Drop();
    }

    method NackAndDrop()
      modifies this`state, sender
      ensures old(state).Unacked? ==> sender.sent == old(sender.sent) + [Nack(old(state).ackId)]
      ensures old(state).Acked? ==> sender.sent == old(sender.sent)
      ensures state == Acked
    {
      DoSend(false);
      Drop();
    }

    /** A message settled by the manager itself is dropped without a verdict. */
    method MarkAckedElsewhereAndDrop() returns (ackId: AckId)
      requires state.Unacked?
      modifies this`state, sender
      ensures ackId == old(state).ackId && state == Acked
      ensures sender.sent == old(sender.sent)
    {
      ackId := state.ackId;
      state := Acked;
      Drop();
    }
  }
}
