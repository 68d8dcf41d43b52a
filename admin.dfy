/** The staff console's selection rules: the waiting queue, sign-in, which
    ticket a call or a scan picks, which counters an account may see or be
    given, the registration and counter forms, and the announcement voice. */
module Admin {
  import opened Types
  import opened Seqs
  import opened Selection
  import opened Queue

  function CreatedKey(t: Ticket): int {
    t.createdAt
  }

  /** The waiting queue: the WAITING tickets, earliest `createdAt` first,
      ties in list order (the comparator is `a.createdAt - b.createdAt`). */
  function WaitingTickets(ts: seq<Ticket>): (r: seq<Ticket>)
    ensures forall i :: 0 <= i < |r| ==> r[i].status == Waiting
    ensures forall t :: t in r <==> t in ts && t.status == Waiting
    ensures multiset(r) == multiset(WithStatus(ts, Waiting))
    ensures forall i, j :: 0 <= i < j < |r| ==> r[i].createdAt <= r[j].createdAt
    ensures IsStableSortOf(r, WithStatus(ts, Waiting), CreatedKey)
  {
    var w := WithStatus(ts, Waiting);
    SortByIsStable(w, CreatedKey);
    SortByMembers(w, CreatedKey);
    SortBy(w, CreatedKey)
  }

  /** The head of the waiting queue has the earliest creation time of all
      waiting tickets. */
  lemma {:induction false} HeadIsEarliest(ts: seq<Ticket>)
    requires WaitingTickets(ts) != []
    ensures forall t :: t in ts && t.status == Waiting ==>
      WaitingTickets(ts)[0].createdAt <= t.createdAt
  {
    var r := WaitingTickets(ts);
    forall t | t in ts && t.status == Waiting ensures r[0].createdAt <= t.createdAt {
      var i :| 0 <= i < |r| && r[i] == t;
      if i > 0 { assert r[0].createdAt <= r[i].createdAt; }
    }
  }

  // ---------------------------------------------------------------- sign-in

  predicate Matches(u: User, username: string, password: string) {
    u.username == username && u.password == Some(password)
  }

  /** The sign-in form: the first account whose username and password both
      match, or the message shown under the form. */
  function Login(users: seq<User>, username: string, password: string): (r: Result<User>)
    ensures r.Ok? <==> exists i :: 0 <= i < |users| && Matches(users[i], username, password)
    ensures r.Ok? ==> exists i :: 0 <= i < |users| && users[i] == r.value &&
                                  Matches(users[i], username, password) &&
                                  forall j :: 0 <= j < i ==> !Matches(users[j], username, password)
    ensures r.Err? ==> r.error == "Invalid credentials"
  {
    match Find(users, (u: User) => Matches(u, username, password))
    case Some(u) => Ok(u)
    case None => Err("Invalid credentials")
  }

  /** The seed account signs in with its seed credentials. */
  lemma SeedAdminSignsIn()
    ensures Login(InitialState.users, "admin", "123") == Ok(InitialUsers[0])
  {
    assert Matches(InitialState.users[0], "admin", "123");
  }

  // ---------------------------------------------------------------- calling

  /** "Call next" at `counterId`: nothing when no ticket waits, otherwise
      the head of the waiting queue becomes CALLING there. */
  function CallNext(q: QueueState, counterId: string, now: int): (r: QueueState)
    ensures WaitingTickets(q.tickets) == [] ==> r == q
    ensures WaitingTickets(q.tickets) != [] ==>
      var h := WaitingTickets(q.tickets)[0];
      && h in q.tickets && h.status == Waiting
      && (forall t :: t in q.tickets && t.status == Waiting ==> h.createdAt <= t.createdAt)
      && r == UpdateTicketStatus(q, h.id, Calling, Some(counterId), now)
  {
    var w := WaitingTickets(q.tickets);
    if w == [] then q
    else
      HeadIsEarliest(q.tickets);
      UpdateTicketStatus(q, w[0].id, Calling, Some(counterId), now)
  }

  /** After "call next", the chosen ticket is CALLING and, when the counter
      id is not empty, it is that counter's current ticket. */
  lemma {:induction false} CallNextEffect(q: QueueState, counterId: string, now: int, j: int)
    requires WaitingTickets(q.tickets) != []
    requires 0 <= j < |q.counters| && q.counters[j].id == counterId
    ensures var h := WaitingTickets(q.tickets)[0];
      var r := CallNext(q, counterId, now);
      && r.counters[j].currentTicketId == Some(h.id)
      && forall i :: 0 <= i < |q.tickets| && q.tickets[i].id == h.id ==>
           r.tickets[i].status == Calling && r.tickets[i].calledAt == Some(now) &&
           (counterId != "" ==> r.tickets[i].counterId == Some(counterId))
  {
  }

  /** The QR scanner at the console: a decoded `code` calls the first WAITING
      ticket whose id it is, provided a counter is selected; otherwise
      scanning goes on (`None`). */
  function ScanCall(q: QueueState, code: string, activeCounter: Option<string>, now: int): (r: Option<QueueState>)
    ensures r.Some? <==> (Truthy(activeCounter) &&
      exists i :: 0 <= i < |q.tickets| && q.tickets[i].id == code && q.tickets[i].status == Waiting)
    ensures r.Some? ==> r.value == UpdateTicketStatus(q, code, Calling, activeCounter, now)
  {
    match Find(q.tickets, (t: Ticket) => t.id == code && t.status == Waiting)
    case Some(t) =>
      if Truthy(activeCounter) then Some(UpdateTicketStatus(q, t.id, Calling, activeCounter, now))
      else None
    case None => None
  }

  /** A scan at a counter that is already calling a ticket replaces the
      counter's current ticket and leaves the earlier ticket CALLING: two
      tickets are then live at one counter. */
  lemma {:induction false} ScanLeavesEarlierCallLive(q: QueueState, code: string, counterId: string,
                                                     now: int, i: int, j: int)
    requires 0 <= j < |q.counters| && q.counters[j].id == counterId && counterId != ""
    requires 0 <= i < |q.tickets| && q.tickets[i].status == Calling && q.tickets[i].id != code
    requires q.counters[j].currentTicketId == Some(q.tickets[i].id)
    requires exists k :: 0 <= k < |q.tickets| && q.tickets[k].id == code && q.tickets[k].status == Waiting
    ensures var r := ScanCall(q, code, Some(counterId), now);
      && r.Some?
      && r.value.tickets[i] == q.tickets[i]
      && r.value.counters[j].currentTicketId == Some(code)
      && exists k :: 0 <= k < |r.value.tickets| && r.value.tickets[k].id == code &&
                     r.value.tickets[k].status == Calling
  {
    var k :| 0 <= k < |q.tickets| && q.tickets[k].id == code && q.tickets[k].status == Waiting;
    var r := ScanCall(q, code, Some(counterId), now);
    assert r.value.tickets[k].status == Calling;
  }

  /** The DONE and SKIP buttons of a counter card: when the counter's current
      ticket is in the list, it is closed (SERVED or CANCELLED) at that
      counter; otherwise the buttons are not shown and nothing changes. */
  function CloseCurrent(q: QueueState, c: Counter, served: bool, now: int): (r: QueueState)
    ensures (c.currentTicketId.None? || TicketById(q.tickets, c.currentTicketId.value).None?) ==> r == q
    ensures c.currentTicketId.Some? && TicketById(q.tickets, c.currentTicketId.value).Some? ==>
      r == UpdateTicketStatus(q, c.currentTicketId.value, if served then Served else Cancelled, Some(c.id), now)
  {
    if c.currentTicketId.None? then q
    else match TicketById(q.tickets, c.currentTicketId.value)
      case None => q
      case Some(t) => UpdateTicketStatus(q, t.id, if served then Served else Cancelled, Some(c.id), now)
  }

  /** Closing a counter's current ticket frees the counter. */
  lemma {:induction false} CloseCurrentFreesCounter(q: QueueState, j: int, served: bool, now: int)
    requires 0 <= j < |q.counters|
    requires q.counters[j].currentTicketId.Some?
    requires TicketById(q.tickets, q.counters[j].currentTicketId.value).Some?
    ensures CloseCurrent(q, q.counters[j], served, now).counters[j].currentTicketId == None
  {
  }

  // ------------------------------------------------- counters and accounts

  /** The counter ids held by STAFF accounts, one entry per staff account
      (absent when the account has none). */
  function AssignedCounterIds(users: seq<User>): (r: seq<Option<string>>)
    ensures forall o :: o in r <==> exists i :: 0 <= i < |users| && users[i].role == Staff &&
                                               users[i].assignedCounterId == o
  {
    if users == [] then []
    else
      var rest := AssignedCounterIds(users[1..]);
      assert forall i :: 1 <= i < |users| ==> users[i] == users[1..][i - 1];
      if users[0].role == Staff then [users[0].assignedCounterId] + rest else rest
  }

  predicate Unassigned(c: Counter, heldIds: seq<Option<string>>) {
    Some(c.id) !in heldIds
  }

  /** No STAFF account is assigned to counter `c`. */
  predicate NoStaffHolds(users: seq<User>, c: Counter) {
    forall i :: 0 <= i < |users| && users[i].role == Staff ==> users[i].assignedCounterId != Some(c.id)
  }

  /** The counters the registration form offers: those no STAFF account holds. */
  function AvailableCountersForRegistration(q: QueueState): (r: seq<Counter>)
    ensures forall c :: c in r <==> c in q.counters && NoStaffHolds(q.users, c)
    ensures forall c :: multiset(r)[c] == if NoStaffHolds(q.users, c) then multiset(q.counters)[c] else 0
    ensures Subsequence(r, q.counters)
  {
    var heldIds := AssignedCounterIds(q.users);
    Filter(q.counters, (c: Counter) => Unassigned(c, heldIds))
  }

  /** Registering a staff account for a counter takes that counter off the
      registration list. */
  lemma RegisteredCounterTaken(q: QueueState, username: string, password: string,
                               counterId: string, suffix: string)
    ensures var r := RegisterStaff(q, NewUser(username, Some(password), Staff, Some(counterId), Some(Man)), suffix);
      forall c :: c in AvailableCountersForRegistration(r) ==> c.id != counterId
  {
    var r := RegisterStaff(q, NewUser(username, Some(password), Staff, Some(counterId), Some(Man)), suffix);
    assert r.users[|q.users|].role == Staff && r.users[|q.users|].assignedCounterId == Some(counterId);
  }

  /** The registration button: refused unless username, password and
      counter are all filled in; otherwise a STAFF account with the MAN
      voice is registered for that counter. */
  function SubmitRegistration(q: QueueState, regUser: string, regPass: string, regCounter: string,
                              suffix: string): (r: Result<QueueState>)
    ensures r.Ok? <==> regUser != "" && regPass != "" && regCounter != ""
    ensures r.Err? ==> r.error == "Fill all fields"
    ensures r.Ok? ==>
      && |r.value.users| == |q.users| + 1
      && r.value.users[..|q.users|] == q.users
      && r.value.users[|q.users|].username == regUser
      && r.value.users[|q.users|].password == Some(regPass)
      && r.value.users[|q.users|].role == Staff
      && r.value.users[|q.users|].assignedCounterId == Some(regCounter)
      && r.value.users[|q.users|].voicePreference == Some(Man)
      && r.value.users[|q.users|].id == "staff-" + suffix
      && r.value.tickets == q.tickets && r.value.counters == q.counters
      && r.value.lastNumber == q.lastNumber
  {
    if regUser == "" || regPass == "" || regCounter == "" then Err("Fill all fields")
    else Ok(RegisterStaff(q, NewUser(regUser, Some(regPass), Staff, Some(regCounter), Some(Man)), suffix))
  }

  /** The add-counter button: refused for an empty name. */
  function SubmitNewCounter(q: QueueState, name: string, suffix: string): (r: Result<QueueState>)
    ensures r.Ok? <==> name != ""
    ensures r.Err? ==> r.error == "Please enter a counter name"
    ensures r.Ok? ==>
      && |r.value.counters| == |q.counters| + 1
      && r.value.counters[..|q.counters|] == q.counters
      && r.value.counters[|q.counters|].id == "counter-" + suffix
      && r.value.counters[|q.counters|].name == name
      && r.value.counters[|q.counters|].isActive
      && r.value.counters[|q.counters|].currentTicketId == None
      && r.value.counters[|q.counters|].assignedStaffId == None
      && r.value.tickets == q.tickets && r.value.users == q.users
      && r.value.lastNumber == q.lastNumber
  {
    if name == "" then Err("Please enter a counter name") else Ok(AddCounter(q, name, suffix))
  }

  function HeldBy(c: Counter, assignedCounterId: Option<string>): bool {
    Some(c.id) == assignedCounterId
  }

  /** The counter cards an account sees: every counter for the full
      administrator, only its own counter for a staff account. */
  function FilteredCounters(q: QueueState, user: User): (r: seq<Counter>)
    ensures user.role == FullAdmin ==> r == q.counters
    ensures user.role == Staff ==>
      (forall c :: c in r <==> c in q.counters && user.assignedCounterId == Some(c.id)) &&
      (forall c :: multiset(r)[c] == if user.assignedCounterId == Some(c.id) then multiset(q.counters)[c] else 0) &&
      Subsequence(r, q.counters)
  {
    if user.role == FullAdmin then q.counters
    else Filter(q.counters, (c: Counter) => HeldBy(c, user.assignedCounterId))
  }

  /** A staff account without a counter sees no counter cards. */
  lemma UnassignedStaffSeesNothing(q: QueueState, user: User)
    requires user.role == Staff && user.assignedCounterId.None?
    ensures FilteredCounters(q, user) == []
  {
  }

  // ------------------------------------------------------------ announcing

  function AssignedTo(u: User, counterId: string): bool {
    u.assignedCounterId == Some(counterId)
  }

  /** The announcement voice for a call at `counterId`: the signed-in
      account's preference, else the preference of the first account
      assigned to that counter, else MAN. */
  function AnnouncementVoice(currentUser: Option<User>, users: seq<User>, counterId: string): (r: Voice)
    ensures currentUser.Some? && currentUser.value.voicePreference.Some? ==>
      r == currentUser.value.voicePreference.value
    ensures !(currentUser.Some? && currentUser.value.voicePreference.Some?) ==>
      ((exists i :: 0 <= i < |users| && AssignedTo(users[i], counterId) &&
                    (forall j :: 0 <= j < i ==> !AssignedTo(users[j], counterId)) &&
                    users[i].voicePreference == Some(r))
       || (r == Man &&
           forall i :: 0 <= i < |users| && AssignedTo(users[i], counterId) &&
                       (forall j :: 0 <= j < i ==> !AssignedTo(users[j], counterId)) ==>
                       users[i].voicePreference.None?))
  {
    var mine := if currentUser.Some? then currentUser.value.voicePreference else None;
    var theirs := match Find(users, (u: User) => AssignedTo(u, counterId))
                  case Some(u) => u.voicePreference
                  case None => None;
    if mine.Some? then mine.value
    else if theirs.Some? then theirs.value
    else Man
  }

  /** A preference set by the signed-in account is the voice it hears. */
  lemma OwnVoiceWins(u: User, users: seq<User>, counterId: string, voice: Voice)
    ensures AnnouncementVoice(Some(u.(voicePreference := Some(voice))), users, counterId) == voice
  {
  }
}
