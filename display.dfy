/** The public "now serving" display: the tickets being called (newest call
    first), the last eight served, the number waiting and the day's total. */
module Display {
  import opened Types
  import opened Seqs
  import opened Selection
  import opened Queue
  import opened Admin

  /** `t.calledAt || 0`. */
  function CalledAtOrZero(t: Ticket): int {
    if t.calledAt.Some? then t.calledAt.value else 0
  }

  /** `t.servedAt || 0`. */
  function ServedAtOrZero(t: Ticket): int {
    if t.servedAt.Some? then t.servedAt.value else 0
  }

  /** The comparator `(b.calledAt || 0) - (a.calledAt || 0)` sorts ascending on this key. */
  function CallingKey(t: Ticket): int {
    -CalledAtOrZero(t)
  }

  /** The comparator `(b.servedAt || 0) - (a.servedAt || 0)` sorts ascending on this key. */
  function ServedKey(t: Ticket): int {
    -ServedAtOrZero(t)
  }

  /** Ascending on the negated key is descending on the time. */
  lemma CallingOrder(r: seq<Ticket>)
    requires SortedBy(r, CallingKey)
    ensures forall i, j :: 0 <= i < j < |r| ==> CalledAtOrZero(r[i]) >= CalledAtOrZero(r[j])
  {
    forall i, j | 0 <= i < j < |r| ensures CalledAtOrZero(r[i]) >= CalledAtOrZero(r[j]) {
      assert CallingKey(r[i]) <= CallingKey(r[j]);
    }
  }

  lemma ServedOrder(r: seq<Ticket>)
    requires SortedBy(r, ServedKey)
    ensures forall i, j :: 0 <= i < j < |r| ==> ServedAtOrZero(r[i]) >= ServedAtOrZero(r[j])
  {
    forall i, j | 0 <= i < j < |r| ensures ServedAtOrZero(r[i]) >= ServedAtOrZero(r[j]) {
      assert ServedKey(r[i]) <= ServedKey(r[j]);
    }
  }

  /** The board of called tickets: the CALLING tickets, latest call first,
      ties in list order. */
  function CallingTickets(ts: seq<Ticket>): (r: seq<Ticket>)
    ensures forall i :: 0 <= i < |r| ==> r[i].status == Calling
    ensures forall t :: t in r <==> t in ts && t.status == Calling
    ensures multiset(r) == multiset(WithStatus(ts, Calling))
    ensures forall i, j :: 0 <= i < j < |r| ==> CalledAtOrZero(r[i]) >= CalledAtOrZero(r[j])
    ensures IsStableSortOf(r, WithStatus(ts, Calling), CallingKey)
  {
    var c := WithStatus(ts, Calling);
    SortByIsStable(c, CallingKey);
    SortByMembers(c, CallingKey);
    var r := SortBy(c, CallingKey);
    CallingOrder(r);
    r
  }

  /** The counter shown on a ticket's card: the first counter whose id is
      the ticket's counter id; none when the ticket has no counter id. */
  function CounterFor(cs: seq<Counter>, t: Ticket): (r: Option<Counter>)
    ensures t.counterId.None? ==> r.None?
    ensures r.Some? ==> r.value in cs && Some(r.value.id) == t.counterId
    ensures r.Some? ==> exists j :: 0 <= j < |cs| && cs[j] == r.value &&
                                    (forall k :: 0 <= k < j ==> Some(cs[k].id) != t.counterId)
    ensures t.counterId.Some? ==>
      (r.None? <==> forall j :: 0 <= j < |cs| ==> cs[j].id != t.counterId.value)
  {
    if t.counterId.None? then None
    else Find(cs, (c: Counter) => c.id == t.counterId.value)
  }

  /** The ticket flagged "NEW CALL" (the first card) was called no earlier
      than any other ticket being called. */
  lemma {:induction false} NewCallIsLatest(ts: seq<Ticket>)
    requires CallingTickets(ts) != []
    ensures forall t :: t in ts && t.status == Calling ==>
      CalledAtOrZero(CallingTickets(ts)[0]) >= CalledAtOrZero(t)
  {
    var r := CallingTickets(ts);
    forall t | t in ts && t.status == Calling ensures CalledAtOrZero(r[0]) >= CalledAtOrZero(t) {
      var i :| 0 <= i < |r| && r[i] == t;
      if i > 0 { assert CalledAtOrZero(r[0]) >= CalledAtOrZero(r[i]); }
    }
  }

  /** All SERVED tickets, latest service first, ties in list order. */
  function ServedNewestFirst(ts: seq<Ticket>): (r: seq<Ticket>)
    ensures forall t :: t in r <==> t in ts && t.status == Served
    ensures multiset(r) == multiset(WithStatus(ts, Served))
    ensures |r| == |WithStatus(ts, Served)|
    ensures forall i, j :: 0 <= i < j < |r| ==> ServedAtOrZero(r[i]) >= ServedAtOrZero(r[j])
    ensures IsStableSortOf(r, WithStatus(ts, Served), ServedKey)
  {
    var s := WithStatus(ts, Served);
    SortByIsStable(s, ServedKey);
    SortByMembers(s, ServedKey);
    var r := SortBy(s, ServedKey);
    ServedOrder(r);
    r
  }

  /** The first `n` tickets of a list sorted by descending served time
      (`slice(0, n)`, which takes the whole list when it is shorter). */
  function Top(s: seq<Ticket>, n: nat): (r: seq<Ticket>)
    requires forall i, j :: 0 <= i < j < |s| ==> ServedAtOrZero(s[i]) >= ServedAtOrZero(s[j])
    ensures |r| == if |s| < n then |s| else n
    ensures StartsWith(s, r)
    ensures forall i :: 0 <= i < |r| ==> r[i] in s
    ensures forall i, j :: 0 <= i < j < |r| ==> ServedAtOrZero(r[i]) >= ServedAtOrZero(r[j])
    ensures forall t, x :: t in s && t !in r && x in r ==> ServedAtOrZero(t) <= ServedAtOrZero(x)
    ensures multiset(r) <= multiset(s)
  {
    var m := if |s| < n then |s| else n;
    var r := s[..m];
    assert forall i :: 0 <= i < m ==> r[i] == s[i];
    assert s == r + s[m..];
    assert multiset(s) == multiset(r) + multiset(s[m..]);
    forall t, x | t in s && t !in r && x in r
      ensures ServedAtOrZero(t) <= ServedAtOrZero(x)
    {
      PrefixDominates(s, m, t, x);
    }
    r
  }

  /** The "recently served" column: the eight latest SERVED tickets, latest
      first; a SERVED ticket left out was served no later than every ticket
      shown. */
  function RecentlyServed(ts: seq<Ticket>): (r: seq<Ticket>)
    ensures |r| == if |WithStatus(ts, Served)| < 8 then |WithStatus(ts, Served)| else 8
    ensures StartsWith(ServedNewestFirst(ts), r)
    ensures forall i :: 0 <= i < |r| ==> r[i].status == Served && r[i] in ts
    ensures forall i, j :: 0 <= i < j < |r| ==> ServedAtOrZero(r[i]) >= ServedAtOrZero(r[j])
    ensures forall t, x :: t in ts && t.status == Served && t !in r && x in r ==>
      ServedAtOrZero(t) <= ServedAtOrZero(x)
    ensures multiset(r) <= multiset(WithStatus(ts, Served))
  {
    Top(ServedNewestFirst(ts), 8)
  }

  /** In a sequence sorted by descending served time, anything outside a
      prefix was served no later than anything inside it. */
  lemma PrefixDominates(s: seq<Ticket>, n: int, t: Ticket, x: Ticket)
    requires 0 <= n <= |s|
    requires forall i, j :: 0 <= i < j < |s| ==> ServedAtOrZero(s[i]) >= ServedAtOrZero(s[j])
    requires t in s && t !in s[..n] && x in s[..n]
    ensures ServedAtOrZero(t) <= ServedAtOrZero(x)
  {
    var a :| 0 <= a < |s| && s[a] == t;
    var b :| 0 <= b < n && s[..n][b] == x;
    assert s[b] == x;
  }

  /** The daily total is the number of SERVED tickets, which is at least
      the length of the recently-served column. */
  function DailyTotal(ts: seq<Ticket>): (r: nat)
    ensures r >= |RecentlyServed(ts)|
    ensures r == |ServedNewestFirst(ts)|
  {
    |WithStatus(ts, Served)|
  }

  /** The number of WAITING tickets: the length of the console's waiting queue. */
  function WaitingCount(ts: seq<Ticket>): (r: nat)
    ensures r == |WaitingTickets(ts)|
    ensures r <= |ts|
  {
    var w := WaitingTickets(ts);
    assert |multiset(w)| == |multiset(WithStatus(ts, Waiting))|;
    |WithStatus(ts, Waiting)|
  }

  /** The waiting count is zero exactly when no ticket is WAITING. */
  lemma NoneWaiting(ts: seq<Ticket>)
    ensures WaitingCount(ts) == 0 <==> forall i :: 0 <= i < |ts| ==> ts[i].status != Waiting
  {
    if WaitingCount(ts) != 0 {
      var t := WithStatus(ts, Waiting)[0];
      assert t in WithStatus(ts, Waiting);
    }
  }

  /** Issuing a ticket adds exactly one to the waiting count. */
  lemma IssueAddsOneWaiting(q: QueueState, ticketId: string, now: int)
    ensures WaitingCount(CreateTicket(q, ticketId, now).tickets) == WaitingCount(q.tickets) + 1
  {
    var r := CreateTicket(q, ticketId, now);
    assert r.tickets == q.tickets + [r.tickets[|q.tickets|]] by {
      assert r.tickets == r.tickets[..|q.tickets|] + [r.tickets[|q.tickets|]];
    }
    WithStatusAppend(q.tickets, r.tickets[|q.tickets|], Waiting);
  }

  /** The number of tickets with status `st`, counted from the back. */
  function CountWith(ts: seq<Ticket>, st: TicketStatus): nat
    decreases |ts|
  {
    if ts == [] then 0
    else CountWith(ts[..|ts| - 1], st) + (if ts[|ts| - 1].status == st then 1 else 0)
  }

  /** The count is the length of the status filter. */
  lemma {:induction false} CountWithIsLength(ts: seq<Ticket>, st: TicketStatus)
    ensures CountWith(ts, st) == |WithStatus(ts, st)|
    decreases |ts|
  {
    if ts != [] {
      var n := |ts| - 1;
      assert ts == ts[..n] + [ts[n]];
      WithStatusAppend(ts[..n], ts[n], st);
      CountWithIsLength(ts[..n], st);
    }
  }

  /** Calling the head of a non-empty queue takes at least one ticket out
      of the waiting count (exactly the waiting tickets sharing its id). */
  lemma {:induction false} CallNextShrinksQueue(q: QueueState, counterId: string, now: int)
    requires WaitingTickets(q.tickets) != []
    ensures WaitingCount(CallNext(q, counterId, now).tickets) < WaitingCount(q.tickets)
  {
    var h := WaitingTickets(q.tickets)[0];
    var r := CallNext(q, counterId, now);
    assert h in WaitingTickets(q.tickets);
    var k :| 0 <= k < |q.tickets| && q.tickets[k] == h;
    FewerWaiting(q.tickets, r.tickets, k);
    CountWithIsLength(q.tickets, Waiting);
    CountWithIsLength(r.tickets, Waiting);
  }

  /** When one ticket leaves WAITING and no ticket enters it, the count drops. */
  lemma {:induction false} FewerWaiting(a: seq<Ticket>, b: seq<Ticket>, k: int)
    requires |a| == |b| && 0 <= k < |a|
    requires a[k].status == Waiting && b[k].status != Waiting
    requires forall i :: 0 <= i < |a| && b[i].status == Waiting ==> a[i].status == Waiting
    ensures CountWith(b, Waiting) < CountWith(a, Waiting)
    decreases |a|
  {
    var n := |a| - 1;
    if k == n {
      AtMostAsManyWaiting(a[..n], b[..n]);
    } else {
      FewerWaiting(a[..n], b[..n], k);
    }
  }

  /** No ticket enters WAITING: the count does not grow. */
  lemma {:induction false} AtMostAsManyWaiting(a: seq<Ticket>, b: seq<Ticket>)
    requires |a| == |b|
    requires forall i :: 0 <= i < |a| && b[i].status == Waiting ==> a[i].status == Waiting
    ensures CountWith(b, Waiting) <= CountWith(a, Waiting)
    decreases |a|
  {
    if |a| > 0 {
      var n := |a| - 1;
      AtMostAsManyWaiting(a[..n], b[..n]);
    }
  }
}
