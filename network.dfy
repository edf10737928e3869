/** The sending side of all sockets, kept as one ordered log of sends. */
module Network {
  import opened Messages

  class Outbox {
    /** Every message sent so far, in the order `socket.send` was called. */
    var sent: seq<Envelope>

    constructor ()
      ensures sent == []
    {
      sent := [];
    }

    /** `to.send(JSON.stringify(msg))` */
    method Send(to: Socket, msg: Outbound)
      modifies this
      ensures sent == old(sent) + [Envelope(to, msg)]
    {
      sent := sent + [Envelope(to, msg)];
    }
  }
}
