/** The customer's digital pass: which ticket is "mine", whether it is
    finished, my place in the waiting queue, how many people are ahead, and
    the counter I am called to. */
module Pass {
  import opened Types
  import opened Seqs
  import opened Selection
  import opened Queue
  import opened Admin

  /** `tickets.find(t => t.id === myTicketId)`; no id finds nothing. */
  function MyTicket(ts: seq<Ticket>, myTicketId: Option<string>): (r: Option<Ticket>)
    ensures myTicketId.None? ==> r.None?
    ensures myTicketId.Some? ==> r == TicketById(ts, myTicketId.value)
    ensures r.Some? ==> myTicketId.Some? && r.value.id == myTicketId.value && r.value in ts
  {
    if myTicketId.None? then None else TicketById(ts, myTicketId.value)
  }

  /** My ticket exists and has been served or cancelled. */
  function IsFinished(ts: seq<Ticket>, myTicketId: Option<string>): (r: bool)
    ensures r <==> MyTicket(ts, myTicketId).Some? && !IsLive(MyTicket(ts, myTicketId).value)
  {
    match MyTicket(ts, myTicketId)
    case None => false
    case Some(t) => t.status == Served || t.status == Cancelled
  }

  function HasId(t: Ticket, id: string): bool {
    t.id == id
  }

  /** `w.findIndex(t => t.id === id) + 1`. */
  function Place(w: seq<Ticket>, id: string): (r: int)
    ensures 0 <= r <= |w|
    ensures r == 0 <==> forall i :: 0 <= i < |w| ==> w[i].id != id
    ensures r > 0 ==> (w[r - 1].id == id && forall j :: 0 <= j < r - 1 ==> w[j].id != id)
  {
    FindIndex(w, (x: Ticket) => HasId(x, id)) + 1
  }

  /** My 1-based place in the waiting queue: one more than the index of the
      first waiting ticket with my ticket's id, and 0 when I have no ticket
      or no waiting ticket carries its id. */
  function MyPosition(ts: seq<Ticket>, myTicketId: Option<string>): (r: int)
    ensures 0 <= r <= |WaitingTickets(ts)|
    ensures r == 0 <==> (MyTicket(ts, myTicketId).None? ||
      forall i :: 0 <= i < |WaitingTickets(ts)| ==> WaitingTickets(ts)[i].id != myTicketId.value)
    ensures r > 0 ==> (WaitingTickets(ts)[r - 1].id == myTicketId.value &&
      forall j :: 0 <= j < r - 1 ==> WaitingTickets(ts)[j].id != myTicketId.value)
  {
    var m := MyTicket(ts, myTicketId);
    if m.None? then 0
    else
      assert m.value.id == myTicketId.value;
      Place(WaitingTickets(ts), m.value.id)
  }

  /** A WAITING ticket always has a place between 1 and the queue length. */
  lemma {:induction false} WaitingTicketHasPlace(ts: seq<Ticket>, myTicketId: Option<string>)
    requires MyTicket(ts, myTicketId).Some? && MyTicket(ts, myTicketId).value.status == Waiting
    ensures 1 <= MyPosition(ts, myTicketId) <= |WithStatus(ts, Waiting)|
  {
    var t := MyTicket(ts, myTicketId).value;
    assert t in WaitingTickets(ts);
    var i :| 0 <= i < |WaitingTickets(ts)| && WaitingTickets(ts)[i] == t;
    assert multiset(WaitingTickets(ts)) == multiset(WithStatus(ts, Waiting));
    assert |WaitingTickets(ts)| == |WithStatus(ts, Waiting)| by {
      assert |multiset(WaitingTickets(ts))| == |multiset(WithStatus(ts, Waiting))|;
    }
  }

  /** With unique ticket ids, a ticket that is not WAITING has place 0. */
  lemma {:induction false} OnlyWaitingTicketsHavePlace(ts: seq<Ticket>, myTicketId: Option<string>)
    requires forall i, j :: 0 <= i < j < |ts| ==> ts[i].id != ts[j].id
    requires MyTicket(ts, myTicketId).Some? && MyTicket(ts, myTicketId).value.status != Waiting
    ensures MyPosition(ts, myTicketId) == 0
  {
    var t := MyTicket(ts, myTicketId).value;
    var k :| 0 <= k < |ts| && ts[k] == t;
    forall i | 0 <= i < |WaitingTickets(ts)| ensures WaitingTickets(ts)[i].id != myTicketId.value {
      var w := WaitingTickets(ts)[i];
      assert w in WaitingTickets(ts);
      var m :| 0 <= m < |ts| && ts[m] == w;
      assert m != k;
    }
  }

  /** The "people ahead" figure, `Math.max(0, myPosition - 1)`. */
  function PeopleAhead(ts: seq<Ticket>, myTicketId: Option<string>): (r: int)
    ensures r >= 0
    ensures MyPosition(ts, myTicketId) > 0 ==> r == MyPosition(ts, myTicketId) - 1
    ensures MyPosition(ts, myTicketId) == 0 ==> r == 0
    ensures r < |WaitingTickets(ts)| || r == 0
  {
    var p := MyPosition(ts, myTicketId);
    if p - 1 > 0 then p - 1 else 0
  }

  /** The people ahead of a waiting ticket are waiting tickets created no
      later than it. */
  lemma {:induction false} AheadAreEarlier(ts: seq<Ticket>, myTicketId: Option<string>)
    requires MyPosition(ts, myTicketId) > 0
    ensures forall j :: 0 <= j < PeopleAhead(ts, myTicketId) ==>
      WaitingTickets(ts)[j].status == Waiting &&
      WaitingTickets(ts)[j].createdAt <= WaitingTickets(ts)[MyPosition(ts, myTicketId) - 1].createdAt
  {
  }

  /** The counter my ticket was called to: looked up by id, and only when
      the ticket carries a (non-empty) counter id. */
  function MyCounter(ts: seq<Ticket>, cs: seq<Counter>, myTicketId: Option<string>): (r: Option<Counter>)
    ensures (MyTicket(ts, myTicketId).None? || !Truthy(MyTicket(ts, myTicketId).value.counterId)) ==> r.None?
    ensures r.Some? ==> r.value in cs && Some(r.value.id) == MyTicket(ts, myTicketId).value.counterId
    ensures r.Some? ==> exists j :: 0 <= j < |cs| && cs[j] == r.value &&
                                    (forall k :: 0 <= k < j ==> Some(cs[k].id) != MyTicket(ts, myTicketId).value.counterId)
    ensures MyTicket(ts, myTicketId).Some? && Truthy(MyTicket(ts, myTicketId).value.counterId) ==>
      (r.None? <==> forall j :: 0 <= j < |cs| ==> Some(cs[j].id) != MyTicket(ts, myTicketId).value.counterId)
  {
    match MyTicket(ts, myTicketId)
    case None => None
    case Some(t) =>
      if Truthy(t.counterId) then Find(cs, (c: Counter) => c.id == t.counterId.value) else None
  }

  /** The join screen replaces the pass when I have no ticket or it is finished. */
  function ShowJoinScreen(ts: seq<Ticket>, myTicketId: Option<string>): (r: bool)
    ensures r <==> MyTicket(ts, myTicketId).None? || IsFinished(ts, myTicketId)
    ensures !r ==> IsLive(MyTicket(ts, myTicketId).value)
  {
    MyTicket(ts, myTicketId).None? || IsFinished(ts, myTicketId)
  }

  /** The header's "ACTIVE TICKET" badge is lit exactly when the pass view
      would show a pass rather than the join screen (for a non-empty id). */
  lemma BadgeMatchesPass(q: QueueState, myTicketId: Option<string>)
    ensures HasActiveTicket(q, myTicketId) <==> Truthy(myTicketId) && !ShowJoinScreen(q.tickets, myTicketId)
  {
    if Truthy(myTicketId) {
      var m := MyTicket(q.tickets, myTicketId);
      if m.Some? {
        var i :| 0 <= i < |q.tickets| && q.tickets[i] == m.value && m.value.id == myTicketId.value &&
                 forall j :: 0 <= j < i ==> q.tickets[j].id != myTicketId.value;
        if HasActiveTicket(q, myTicketId) {
          var i' :| 0 <= i' < |q.tickets| && q.tickets[i'].id == myTicketId.value && IsLive(q.tickets[i']) &&
                    forall j :: 0 <= j < i' ==> q.tickets[j].id != myTicketId.value;
          assert i == i';
        }
      }
    }
  }
}
