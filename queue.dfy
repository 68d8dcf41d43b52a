/** The update rules of the queue: every operation the console, the kiosk
    and the pass view can ask for, each a function from the old queue state
    to the new one. Random ids and `Date.now()` are parameters. */
module Queue {
  import opened Types
  import opened Seqs

  /** The seed administrator, the one account that cannot be deleted. */
  const AdminId: string := "admin-1"

  const InitialCounters: seq<Counter> := [
    Counter("1", "Counter 1", None, true, None),
    Counter("2", "Counter 2", None, true, None),
    Counter("3", "Counter 3", None, false, None),
    Counter("4", "Counter 4", None, false, None)
  ]

  const InitialUsers: seq<User> := [
    User(AdminId, "admin", Some("123"), FullAdmin, None, None)
  ]

  /** The state a fresh browser starts from (nothing in local storage). */
  const InitialState: QueueState := QueueState([], InitialCounters, InitialUsers, 100)

  /** The factory state installed by the reset button; the old state is discarded. */
  function ResetQueue(q: QueueState): (r: QueueState)
    ensures r == InitialState
  {
    QueueState([], InitialCounters, InitialUsers, 100)
  }

  /** What the factory (and initial) state consists of. */
  lemma FactoryStateShape(q: QueueState)
    ensures var r := ResetQueue(q);
      && r.tickets == [] && r.lastNumber == 100
      && |r.counters| == 4
      && (forall i :: 0 <= i < 4 ==> r.counters[i].currentTicketId == None)
      && (forall i :: 0 <= i < 4 ==> (r.counters[i].isActive <==> i < 2))
      && r.counters[0].id == "1" && r.counters[1].id == "2"
      && r.counters[2].id == "3" && r.counters[3].id == "4"
      && |r.users| == 1 && r.users[0].id == AdminId && r.users[0].role == FullAdmin
  {
  }

  // ---------------------------------------------------------------- tickets

  /** The id a new ticket gets: the forced id when one is given (and not
      empty), otherwise the random one. */
  function TicketIdFor(forcedId: Option<string>, randomId: string): string {
    if Truthy(forcedId) then forcedId.value else randomId
  }

  /** The ticket `CreateTicket` appends. */
  function IssuedTicket(q: QueueState, ticketId: string, now: int): Ticket {
    Ticket(ticketId, q.lastNumber + 1, Waiting, None, now, None, None)
  }

  /** Issue a ticket: append one WAITING ticket numbered after the last
      number handed out, and remember that number. */
  function CreateTicket(q: QueueState, ticketId: string, now: int): (r: QueueState)
    ensures |r.tickets| == |q.tickets| + 1
    ensures r.tickets[..|q.tickets|] == q.tickets
    ensures var t := r.tickets[|q.tickets|];
      t.id == ticketId && t.number == q.lastNumber + 1 && t.status == Waiting &&
      t.counterId == None && t.createdAt == now && t.calledAt == None && t.servedAt == None
    ensures r.lastNumber == q.lastNumber + 1
    ensures r.counters == q.counters && r.users == q.users
  {
    var t := IssuedTicket(q, ticketId, now);
    assert (q.tickets + [t])[..|q.tickets|] == q.tickets;
    q.(tickets := q.tickets + [t], lastNumber := t.number)
  }

  /** One ticket after `updateTicketStatus` has matched it. */
  function Restamped(t: Ticket, status: TicketStatus, counterId: Option<string>, now: int): Ticket {
    t.(status := status,
       counterId := if Truthy(counterId) then counterId else t.counterId,
       calledAt := if status == Calling then Some(now) else t.calledAt,
       servedAt := if status == Served then Some(now) else t.servedAt)
  }

  function RestampTickets(ts: seq<Ticket>, ticketId: string, status: TicketStatus,
                          counterId: Option<string>, now: int): (r: seq<Ticket>)
    ensures |r| == |ts|
    ensures forall i :: 0 <= i < |ts| && ts[i].id != ticketId ==> r[i] == ts[i]
    ensures forall i :: 0 <= i < |ts| && ts[i].id == ticketId ==>
      r[i] == Restamped(ts[i], status, counterId, now)
  {
    if ts == [] then []
    else
      var t := if ts[0].id == ticketId then Restamped(ts[0], status, counterId, now) else ts[0];
      [t] + RestampTickets(ts[1..], ticketId, status, counterId, now)
  }

  /** The counter's current ticket after a status change made at it. */
  function CurrentAfter(c: Counter, ticketId: string, status: TicketStatus): Option<string> {
    if status == Calling then Some(ticketId)
    else if status == Served || status == Cancelled then None
    else c.currentTicketId
  }

  function RestampCounters(cs: seq<Counter>, ticketId: string, status: TicketStatus,
                           counterId: Option<string>): (r: seq<Counter>)
    ensures |r| == |cs|
    ensures forall j :: 0 <= j < |cs| && counterId != Some(cs[j].id) ==> r[j] == cs[j]
    ensures forall j :: 0 <= j < |cs| && counterId == Some(cs[j].id) ==>
      r[j] == cs[j].(currentTicketId := CurrentAfter(cs[j], ticketId, status))
  {
    if cs == [] then []
    else
      var c := if counterId == Some(cs[0].id)
               then cs[0].(currentTicketId := CurrentAfter(cs[0], ticketId, status))
               else cs[0];
      [c] + RestampCounters(cs[1..], ticketId, status, counterId)
  }

  /** Set the status of every ticket whose id is `ticketId` (any status may
      follow any other), and update the counter whose id is `counterId`. */
  function UpdateTicketStatus(q: QueueState, ticketId: string, status: TicketStatus,
                              counterId: Option<string>, now: int): (r: QueueState)
    ensures |r.tickets| == |q.tickets| && |r.counters| == |q.counters|
    ensures r.users == q.users && r.lastNumber == q.lastNumber
    ensures forall i :: 0 <= i < |q.tickets| && q.tickets[i].id != ticketId ==>
      r.tickets[i] == q.tickets[i]
    ensures forall i :: 0 <= i < |q.tickets| && q.tickets[i].id == ticketId ==>
      && r.tickets[i].id == q.tickets[i].id
      && r.tickets[i].number == q.tickets[i].number
      && r.tickets[i].createdAt == q.tickets[i].createdAt
      && r.tickets[i].status == status
      && r.tickets[i].counterId == (if Truthy(counterId) then counterId else q.tickets[i].counterId)
      && r.tickets[i].calledAt == (if status == Calling then Some(now) else q.tickets[i].calledAt)
      && r.tickets[i].servedAt == (if status == Served then Some(now) else q.tickets[i].servedAt)
    ensures forall j :: 0 <= j < |q.counters| && counterId != Some(q.counters[j].id) ==>
      r.counters[j] == q.counters[j]
    ensures forall j :: 0 <= j < |q.counters| && counterId == Some(q.counters[j].id) ==>
      && r.counters[j].id == q.counters[j].id
      && r.counters[j].name == q.counters[j].name
      && r.counters[j].isActive == q.counters[j].isActive
      && r.counters[j].assignedStaffId == q.counters[j].assignedStaffId
      && (status == Calling ==> r.counters[j].currentTicketId == Some(ticketId))
      && (status == Served || status == Cancelled ==> r.counters[j].currentTicketId == None)
      && (status == Waiting ==> r.counters[j].currentTicketId == q.counters[j].currentTicketId)
    ensures counterId.None? ==> r.counters == q.counters
  {
    q.(tickets := RestampTickets(q.tickets, ticketId, status, counterId, now),
       counters := RestampCounters(q.counters, ticketId, status, counterId))
  }

  // --------------------------------------------------------------- counters

  function FlipMatching(cs: seq<Counter>, counterId: string): (r: seq<Counter>)
    ensures |r| == |cs|
    ensures forall j :: 0 <= j < |cs| && cs[j].id != counterId ==> r[j] == cs[j]
    ensures forall j :: 0 <= j < |cs| && cs[j].id == counterId ==>
      r[j] == cs[j].(isActive := !cs[j].isActive)
  {
    if cs == [] then []
    else
      var c := if cs[0].id == counterId then cs[0].(isActive := !cs[0].isActive) else cs[0];
      [c] + FlipMatching(cs[1..], counterId)
  }

  /** Open or close the counter(s) whose id is `counterId`. */
  function ToggleCounter(q: QueueState, counterId: string): (r: QueueState)
    ensures |r.counters| == |q.counters|
    ensures forall j :: 0 <= j < |q.counters| ==>
      && r.counters[j].id == q.counters[j].id
      && r.counters[j].name == q.counters[j].name
      && r.counters[j].currentTicketId == q.counters[j].currentTicketId
      && r.counters[j].assignedStaffId == q.counters[j].assignedStaffId
      && (r.counters[j].isActive <==> (q.counters[j].isActive != (q.counters[j].id == counterId)))
    ensures r.tickets == q.tickets && r.users == q.users && r.lastNumber == q.lastNumber
  {
    q.(counters := FlipMatching(q.counters, counterId))
  }

  /** Toggling the same counter twice gives back the state it started from. */
  lemma ToggleTwice(q: QueueState, counterId: string)
    ensures ToggleCounter(ToggleCounter(q, counterId), counterId) == q
  {
    var r := ToggleCounter(ToggleCounter(q, counterId), counterId);
    assert forall j :: 0 <= j < |q.counters| ==> r.counters[j] == q.counters[j];
    assert r.counters == q.counters;
  }

  /** Append one open counter named `name`; its id is "counter-" and a random suffix. */
  function AddCounter(q: QueueState, name: string, suffix: string): (r: QueueState)
    ensures |r.counters| == |q.counters| + 1
    ensures r.counters[..|q.counters|] == q.counters
    ensures var c := r.counters[|q.counters|];
      c.id == "counter-" + suffix && c.name == name && c.isActive &&
      c.currentTicketId == None && c.assignedStaffId == None
    ensures r.tickets == q.tickets && r.users == q.users && r.lastNumber == q.lastNumber
  {
    var c := Counter("counter-" + suffix, name, None, true, None);
    assert (q.counters + [c])[..|q.counters|] == q.counters;
    q.(counters := q.counters + [c])
  }

  // ------------------------------------------------------------------ staff

  /** The registration form's data: a user record without its id. */
  datatype NewUser = NewUser(
    username: string,
    password: Option<string>,
    role: UserRole,
    assignedCounterId: Option<string>,
    voicePreference: Option<Voice>)

  /** Append one account built from `data`; its id is "staff-" and a random
      suffix, and a missing voice preference becomes MAN. */
  function RegisterStaff(q: QueueState, data: NewUser, suffix: string): (r: QueueState)
    ensures |r.users| == |q.users| + 1
    ensures r.users[..|q.users|] == q.users
    ensures var u := r.users[|q.users|];
      && u.id == "staff-" + suffix
      && u.username == data.username && u.password == data.password
      && u.role == data.role && u.assignedCounterId == data.assignedCounterId
      && u.voicePreference == (if data.voicePreference.Some? then data.voicePreference else Some(Man))
    ensures r.tickets == q.tickets && r.counters == q.counters && r.lastNumber == q.lastNumber
  {
    var u := User("staff-" + suffix, data.username, data.password, data.role,
                  data.assignedCounterId,
                  if data.voicePreference.Some? then data.voicePreference else Some(Man));
    assert (q.users + [u])[..|q.users|] == q.users;
    q.(users := q.users + [u])
  }

  /** Remove every account whose id is `userId`, except the seed administrator. */
  function DeleteStaff(q: QueueState, userId: string): (r: QueueState)
    ensures userId == AdminId ==> r == q
    ensures userId != AdminId ==>
      && (forall u :: u in r.users <==> u in q.users && u.id != userId)
      && (forall u: User :: u.id != userId ==> multiset(r.users)[u] == multiset(q.users)[u])
      && Subsequence(r.users, q.users)
    ensures r.tickets == q.tickets && r.counters == q.counters && r.lastNumber == q.lastNumber
  {
    if userId == AdminId then q
    else q.(users := Filter(q.users, (u: User) => u.id != userId))
  }

  /** Deleting an account twice is deleting it once. */
  lemma DeleteStaffIdempotent(q: QueueState, userId: string)
    ensures DeleteStaff(DeleteStaff(q, userId), userId) == DeleteStaff(q, userId)
  {
    if userId != AdminId {
      FilterIdempotent(q.users, (u: User) => u.id != userId);
    }
  }

  /** An account registered through `RegisterStaff` can always be deleted
      again: its id never collides with the protected one. */
  lemma {:induction false} RegisteredStaffDeletable(q: QueueState, data: NewUser, suffix: string)
    ensures var r := RegisterStaff(q, data, suffix);
      r.users[|q.users|].id != AdminId &&
      r.users[|q.users|] !in DeleteStaff(r, r.users[|q.users|].id).users
  {
    var r := RegisterStaff(q, data, suffix);
    assert r.users[|q.users|].id[0] == 's';
    assert AdminId[0] == 'a';
  }

  function SetVoice(us: seq<User>, userId: string, voice: Voice): (r: seq<User>)
    ensures |r| == |us|
    ensures forall i :: 0 <= i < |us| && us[i].id != userId ==> r[i] == us[i]
    ensures forall i :: 0 <= i < |us| && us[i].id == userId ==>
      r[i] == us[i].(voicePreference := Some(voice))
  {
    if us == [] then []
    else
      var u := if us[0].id == userId then us[0].(voicePreference := Some(voice)) else us[0];
      [u] + SetVoice(us[1..], userId, voice)
  }

  /** Change the voice preference of the account(s) whose id is `userId`. */
  function UpdateStaffVoice(q: QueueState, userId: string, voice: Voice): (r: QueueState)
    ensures |r.users| == |q.users|
    ensures forall i :: 0 <= i < |q.users| ==>
      && r.users[i].id == q.users[i].id
      && r.users[i].username == q.users[i].username
      && r.users[i].password == q.users[i].password
      && r.users[i].role == q.users[i].role
      && r.users[i].assignedCounterId == q.users[i].assignedCounterId
      && r.users[i].voicePreference ==
           (if q.users[i].id == userId then Some(voice) else q.users[i].voicePreference)
    ensures r.tickets == q.tickets && r.counters == q.counters && r.lastNumber == q.lastNumber
  {
    q.(users := SetVoice(q.users, userId, voice))
  }

  // ---------------------------------------------------------------- queries

  /** The first ticket whose id is `id`, as `tickets.find` returns it. */
  function TicketById(ts: seq<Ticket>, id: string): (r: Option<Ticket>)
    ensures r.None? <==> forall i :: 0 <= i < |ts| ==> ts[i].id != id
    ensures r.Some? ==> exists i :: 0 <= i < |ts| && ts[i] == r.value && r.value.id == id &&
                                    forall j :: 0 <= j < i ==> ts[j].id != id
  {
    Find(ts, (t: Ticket) => t.id == id)
  }

  /** Whether the header shows the "ACTIVE TICKET" badge. */
  function HasActiveTicket(q: QueueState, myTicketId: Option<string>): (r: bool)
    ensures r <==> (Truthy(myTicketId) &&
      exists i :: 0 <= i < |q.tickets| && q.tickets[i].id == myTicketId.value &&
                  IsLive(q.tickets[i]) &&
                  forall j :: 0 <= j < i ==> q.tickets[j].id != myTicketId.value)
  {
    if !Truthy(myTicketId) then false
    else match TicketById(q.tickets, myTicketId.value)
      case None => false
      case Some(t) => IsLive(t)
  }

  /** Joining the queue with a fresh id turns the badge on. */
  lemma JoinShowsActiveTicket(q: QueueState, ticketId: string, now: int)
    requires ticketId != ""
    requires forall i :: 0 <= i < |q.tickets| ==> q.tickets[i].id != ticketId
    ensures HasActiveTicket(CreateTicket(q, ticketId, now), Some(ticketId))
  {
    var r := CreateTicket(q, ticketId, now);
    assert r.tickets[|q.tickets|].id == ticketId;
    assert forall j :: 0 <= j < |q.tickets| ==> r.tickets[j].id != ticketId by {
      forall j | 0 <= j < |q.tickets| ensures r.tickets[j].id != ticketId {
        assert r.tickets[j] == r.tickets[..|q.tickets|][j];
      }
    }
  }

  /** The badge is not lit after a factory reset, whatever id is remembered. */
  lemma NoActiveTicketAfterReset(q: QueueState, myTicketId: Option<string>)
    ensures !HasActiveTicket(ResetQueue(q), myTicketId)
  {
  }

  // -------------------------------------------------- the numbering invariant

  /** Ticket numbers strictly increase along the list and none exceeds the
      last number handed out. */
  predicate NumbersOk(q: QueueState) {
    && (forall i, j :: 0 <= i < j < |q.tickets| ==> q.tickets[i].number < q.tickets[j].number)
    && (forall i :: 0 <= i < |q.tickets| ==> q.tickets[i].number <= q.lastNumber)
  }

  /** Every update the application can apply to its queue state. */
  datatype Action =
    | Issue(ticketId: string, now: int)
    | SetStatus(ticketId: string, status: TicketStatus, counterId: Option<string>, now: int)
    | Toggle(toggledId: string)
    | OpenCounter(name: string, suffix: string)
    | Register(data: NewUser, suffix: string)
    | Delete(userId: string)
    | ChangeVoice(userId: string, voice: Voice)
    | Reset

  function Apply(q: QueueState, a: Action): QueueState {
    match a
    case Issue(id, now) => CreateTicket(q, id, now)
    case SetStatus(id, st, cid, now) => UpdateTicketStatus(q, id, st, cid, now)
    case Toggle(cid) => ToggleCounter(q, cid)
    case OpenCounter(name, suffix) => AddCounter(q, name, suffix)
    case Register(data, suffix) => RegisterStaff(q, data, suffix)
    case Delete(uid) => DeleteStaff(q, uid)
    case ChangeVoice(uid, v) => UpdateStaffVoice(q, uid, v)
    case Reset => ResetQueue(q)
  }

  function Run(q: QueueState, actions: seq<Action>): QueueState
    decreases |actions|
  {
    if actions == [] then q else Run(Apply(q, actions[0]), actions[1..])
  }

  /** Every single update keeps the numbering invariant. */
  lemma ApplyKeepsNumbering(q: QueueState, a: Action)
    requires NumbersOk(q)
    ensures NumbersOk(Apply(q, a))
  {
    match a
    case Issue(id, now) =>
      var r := CreateTicket(q, id, now);
      forall i | 0 <= i < |q.tickets|
        ensures r.tickets[i] == q.tickets[i]
      {
        assert r.tickets[i] == r.tickets[..|q.tickets|][i];
      }
    case _ =>
  }

  /** Any sequence of updates keeps the numbering invariant. */
  lemma {:induction false} RunKeepsNumbering(q: QueueState, actions: seq<Action>)
    requires NumbersOk(q)
    ensures NumbersOk(Run(q, actions))
    decreases |actions|
  {
    if actions != [] {
      ApplyKeepsNumbering(q, actions[0]);
      RunKeepsNumbering(Apply(q, actions[0]), actions[1..]);
    }
  }

  /** Running one more action applies it to the state reached so far. */
  lemma {:induction false} RunSnoc(q: QueueState, actions: seq<Action>, a: Action)
    ensures Run(q, actions + [a]) == Apply(Run(q, actions), a)
    decreases |actions|
  {
    if actions == [] {
      assert [] + [a] == [a];
    } else {
      assert (actions + [a])[1..] == actions[1..] + [a];
      RunSnoc(Apply(q, actions[0]), actions[1..], a);
    }
  }

  /** In every state reachable from the initial (or reset) state, ticket
      numbers strictly increase and stay at or below the last number. */
  lemma ReachableNumbering(actions: seq<Action>)
    ensures NumbersOk(Run(InitialState, actions))
  {
    RunKeepsNumbering(InitialState, actions);
  }

  // ------------------------------------ where the code departs from the design

  /** A served ticket can be put back to WAITING: nothing makes the status
      transitions one-directional. */
  lemma ServedTicketCanWaitAgain()
    ensures var q := QueueState([Ticket("t", 101, Served, Some("1"), 0, Some(1), Some(2))],
                                InitialCounters, InitialUsers, 101);
      UpdateTicketStatus(q, "t", Waiting, None, 3).tickets[0].status == Waiting
  {
  }
}
