/** The records of the queue system: tickets, counters, staff accounts and
    the aggregate queue state that every view reads and every updater
    rewrites in full. */
module Types {

  /** An optional field (`field?: T` in the source). */
  datatype Option<T> = None | Some(value: T)

  /** The outcome of a handler that can refuse with a message. */
  datatype Result<T> = Ok(value: T) | Err(error: string)

  /** A ticket is in exactly one of these four states. */
  datatype TicketStatus = Waiting | Calling | Served | Cancelled

  /** An account is either the full administrator or a staff member. */
  datatype UserRole = FullAdmin | Staff

  /** The two announcement voices an account may prefer. */
  datatype Voice = Man | Woman

  datatype User = User(
    id: string,
    username: string,
    password: Option<string>,
    role: UserRole,
    assignedCounterId: Option<string>,
    voicePreference: Option<Voice>)

  /** Timestamps are milliseconds since the epoch, passed in by the caller. */
  datatype Ticket = Ticket(
    id: string,
    number: int,
    status: TicketStatus,
    counterId: Option<string>,
    createdAt: int,
    calledAt: Option<int>,
    servedAt: Option<int>)

  datatype Counter = Counter(
    id: string,
    name: string,
    currentTicketId: Option<string>,
    isActive: bool,
    assignedStaffId: Option<string>)

  datatype QueueState = QueueState(
    tickets: seq<Ticket>,
    counters: seq<Counter>,
    users: seq<User>,
    lastNumber: int)

  /** The four screens of the application. */
  datatype ViewMode = Customer | AdminView | Kiosk | MyPass

  /** JavaScript truthiness of an optional string: absent and "" are both false. */
  predicate Truthy(s: Option<string>) {
    s.Some? && s.value != ""
  }

  /** A ticket that is still in the queue or being called. */
  predicate IsLive(t: Ticket) {
    t.status != Served && t.status != Cancelled
  }
}
