/** What accept hands a handler: the socket, the reservation and the wait-group
    registration as one obligation, spent exactly once
    (frontdoor/accept_token.go:53-131). */
module AcceptTokens {
  import opened Admission

  datatype Duty = Untrack | HangUp | Announce | ReleaseTicket | HandlerDone

  class Connection {
    var open: bool
    var listed: bool

    constructor ()
      ensures open && !listed
    {
      open, listed := true, false;
    }
  }

  class WaitGroup {
    var count: nat

    constructor ()
      ensures count == 0
    {
      count := 0;
    }
  }

  class AcceptToken {
    const conn: Connection
    const tkt: Ticket
    const group: WaitGroup
    var tracked: bool
    var spent: bool
    ghost var trail: seq<Duty>  // what has been given back, in order

    ghost predicate Valid()
      reads this, conn, tkt, tkt.admitter, tkt.admitter.issued, tkt.admitter.gate
    {
      && tkt.admitter.Valid() && tkt in tkt.admitter.issued
      && (spent ==> !conn.open && !conn.listed && tkt.released)
      && (conn.listed ==> tracked)
    }

    constructor (conn: Connection, tkt: Ticket, group: WaitGroup)
      requires conn.open && !conn.listed && tkt.admitter.Valid() && tkt in tkt.admitter.issued
      ensures Valid() && !spent && trail == [] && this.conn == conn && this.tkt == tkt && this.group == group
    {
      this.conn, this.tkt, this.group := conn, tkt, group;
      tracked, spent, trail := false, false, [];
    }

    /** Lists the connection and extends the token to own its removal. */
    method Track()
      requires Valid() && !spent
      modifies this`tracked, conn`listed
      ensures Valid() && tracked && conn.listed
    {
      conn.listed := true;
      tracked := true;
    }

    /** The part of a discharge that touches the connection alone. */
    method Unwind()
      requires conn.listed ==> tracked
      modifies this`trail, conn`open, conn`listed
      ensures !conn.open && !conn.listed
      ensures trail == old(trail) + (if tracked then [Untrack] else []) + [HangUp, Announce]
    {
      if tracked {
        conn.listed := false;
        trail := trail + [Untrack];
      }
      conn.open := false;
      trail := trail + [HangUp];
      trail := trail + [Announce];
    }

    /** The part that touches the reservation alone. */
    method GiveTicketBack()
      requires tkt.admitter.Valid() && tkt in tkt.admitter.issued
      modifies this`trail, tkt, tkt.admitter, tkt.admitter.gate`count
      ensures tkt.admitter.Valid() && tkt in tkt.admitter.issued && tkt.released
      ensures tkt.admitter.live == old(tkt.admitter.live) - {tkt}
      ensures trail == old(trail) + [ReleaseTicket]
    {
      tkt.Release();
      trail := trail + [ReleaseTicket];
    }

    /** The registration, last. */
    method Finish()
      requires group.count > 0
      modifies this`trail, group`count
      ensures group.count == old(group.count) - 1 && trail == old(trail) + [HandlerDone]
    {
      group.count := group.count - 1;
      trail := trail + [HandlerDone];
    }

    /** What one discharge gives back, in order. */
    ghost function Duties(): seq<Duty>
      reads this`tracked
    {
      (if tracked then [Untrack] else []) + [HangUp, Announce] + [ReleaseTicket] + [HandlerDone]
    }

    /** Gives everything back, last acquired first, however often it is asked:
        the ticket is released before the registration, and a second discharge
        changes nothing. */
    method Discharge()
      requires Valid() && (!spent ==> group.count > 0)
      modifies this`spent, this`trail, conn`open, conn`listed, group`count
      modifies tkt, tkt.admitter, tkt.admitter.gate`count
      ensures Valid() && spent
      ensures old(spent) ==> trail == old(trail) && group.count == old(group.count) && unchanged(tkt.admitter)
      ensures !old(spent) ==> group.count == old(group.count) - 1 && trail == old(trail) + Duties()
      ensures !old(spent) ==> tkt.admitter.live == old(tkt.admitter.live) - {tkt}
    {
      if spent {
        return;
      }
      spent := true;
      Unwind();
      GiveTicketBack();
      Finish();
    }
  }
}
