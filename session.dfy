/** The application shell: the one piece of state that owns the queue, the
    ticket this device follows, the signed-in account and the screen shown.
    Every queue update goes through it; the ghost `history` records the
    updates, so the numbering invariant holds in every reachable state. */
module Session {
  import opened Types
  import opened Queue
  import opened Admin
  import opened Pass

  class App {
    var queue: QueueState
    var myTicketId: Option<string>
    var currentUser: Option<User>
    var viewMode: ViewMode
    ghost var history: seq<Action>

    /** The queue is the initial state with the recorded updates applied,
        and its ticket numbers are therefore in order. */
    ghost predicate Valid()
      reads this
    {
      queue == Run(InitialState, history) && NumbersOk(queue)
    }

    /** A fresh start: the seed queue, no followed ticket, nobody signed in,
        the kiosk screen. */
    constructor ()
      ensures Valid()
      ensures queue == InitialState && myTicketId == None && currentUser == None
      ensures viewMode == Kiosk && history == []
    {
      queue := InitialState;
      myTicketId := None;
      currentUser := None;
      viewMode := Kiosk;
      history := [];
    }

    /** The header badge: lit, off the pass screen, exactly when the pass
        screen would show a pass for the followed (non-empty) id rather than
        the join screen. */
    function ShowsActiveBadge(): (r: bool)
      reads this
      ensures r <==> viewMode != MyPass && Truthy(myTicketId) && !ShowJoinScreen(queue.tickets, myTicketId)
      ensures r ==> IsLive(MyTicket(queue.tickets, myTicketId).value)
    {
      BadgeMatchesPass(queue, myTicketId);
      HasActiveTicket(queue, myTicketId) && viewMode != MyPass
    }

    /** Issues the next ticket under the forced id when it is non-empty, else
        under `randomId`, and returns it. */
    method CreateTicket(forcedId: Option<string>, randomId: string, now: int) returns (t: Ticket)
      requires Valid()
      modifies this
      ensures Valid()
      ensures queue == Queue.CreateTicket(old(queue), TicketIdFor(forcedId, randomId), now)
      ensures t == queue.tickets[|queue.tickets| - 1]
      ensures Truthy(forcedId) ==> t.id == forcedId.value
      ensures !Truthy(forcedId) ==> t.id == randomId
      ensures t.number == old(queue.lastNumber) + 1
      ensures t.status == Waiting && t.createdAt == now
      ensures myTicketId == old(myTicketId) && currentUser == old(currentUser) && viewMode == old(viewMode)
    {
      var id := TicketIdFor(forcedId, randomId);
      var a := Issue(id, now);
      RunSnoc(InitialState, history, a);
      ApplyKeepsNumbering(queue, a);
      t := IssuedTicket(queue, id, now);
      queue := Queue.CreateTicket(queue, id, now);
      history := history + [a];
    }

    /** "Join the queue" on the pass screen: a ticket under a random id that
        this device then follows, and the pass screen. */
    method JoinQueue(randomId: string, now: int) returns (t: Ticket)
      requires Valid()
      modifies this
      ensures Valid()
      ensures queue == Queue.CreateTicket(old(queue), randomId, now)
      ensures t == queue.tickets[|queue.tickets| - 1] && t.id == randomId
      ensures myTicketId == Some(randomId) && viewMode == MyPass
      ensures currentUser == old(currentUser)
      ensures randomId != "" && (forall i :: 0 <= i < |old(queue).tickets| ==> old(queue).tickets[i].id != randomId)
        ==> HasActiveTicket(queue, myTicketId)
    {
      if randomId != "" && forall i :: 0 <= i < |queue.tickets| ==> queue.tickets[i].id != randomId {
        JoinShowsActiveTicket(queue, randomId, now);
      }
      t := CreateTicket(None, randomId, now);
      myTicketId := Some(t.id);
      viewMode := MyPass;
    }

    /** The kiosk's `setMyId`: follow the given ticket. */
    method SetMyTicketId(id: string)
      modifies this
      ensures myTicketId == Some(id)
      ensures queue == old(queue) && history == old(history)
      ensures currentUser == old(currentUser) && viewMode == old(viewMode)
    {
      myTicketId := Some(id);
    }

    /** The pass screen's `onClear`: stop following a ticket. The ticket
        itself stays in the queue with its status. */
    method ClearMyTicket()
      modifies this
      ensures myTicketId == None
      ensures queue == old(queue) && history == old(history)
      ensures currentUser == old(currentUser) && viewMode == old(viewMode)
    {
      myTicketId := None;
    }

    /** The navigation buttons and the badge switch the screen. */
    method SetViewMode(v: ViewMode)
      modifies this
      ensures viewMode == v
      ensures queue == old(queue) && history == old(history)
      ensures myTicketId == old(myTicketId) && currentUser == old(currentUser)
    {
      viewMode := v;
    }

    /** The sign-in form: on a match the account is signed in and no error is
        shown; otherwise the error message is returned and nothing changes. */
    method SignIn(username: string, password: string) returns (loginError: string)
      modifies this
      ensures Login(queue.users, username, password).Ok? ==>
        currentUser == Some(Login(queue.users, username, password).value) && loginError == ""
      ensures Login(queue.users, username, password).Err? ==>
        currentUser == old(currentUser) && loginError == "Invalid credentials"
      ensures queue == old(queue) && history == old(history)
      ensures myTicketId == old(myTicketId) && viewMode == old(viewMode)
    {
      match Login(queue.users, username, password)
      case Ok(u) =>
        currentUser := Some(u);
        loginError := "";
      case Err(e) =>
        loginError := e;
    }

    /** The logout button. */
    method SignOut()
      modifies this
      ensures currentUser == None
      ensures queue == old(queue) && history == old(history)
      ensures myTicketId == old(myTicketId) && viewMode == old(viewMode)
    {
      currentUser := None;
    }

    method UpdateTicketStatus(ticketId: string, status: TicketStatus, counterId: Option<string>, now: int)
      requires Valid()
      modifies this
      ensures Valid()
      ensures queue == Queue.UpdateTicketStatus(old(queue), ticketId, status, counterId, now)
      ensures myTicketId == old(myTicketId) && currentUser == old(currentUser) && viewMode == old(viewMode)
    {
      var a := SetStatus(ticketId, status, counterId, now);
      RunSnoc(InitialState, history, a);
      ApplyKeepsNumbering(queue, a);
      queue := Queue.UpdateTicketStatus(queue, ticketId, status, counterId, now);
      history := history + [a];
    }

    method ToggleCounter(counterId: string)
      requires Valid()
      modifies this
      ensures Valid()
      ensures queue == Queue.ToggleCounter(old(queue), counterId)
      ensures myTicketId == old(myTicketId) && currentUser == old(currentUser) && viewMode == old(viewMode)
    {
      var a := Toggle(counterId);
      RunSnoc(InitialState, history, a);
      ApplyKeepsNumbering(queue, a);
      queue := Queue.ToggleCounter(queue, counterId);
      history := history + [a];
    }

    method AddCounter(name: string, suffix: string)
      requires Valid()
      modifies this
      ensures Valid()
      ensures queue == Queue.AddCounter(old(queue), name, suffix)
      ensures myTicketId == old(myTicketId) && currentUser == old(currentUser) && viewMode == old(viewMode)
    {
      var a := OpenCounter(name, suffix);
      RunSnoc(InitialState, history, a);
      ApplyKeepsNumbering(queue, a);
      queue := Queue.AddCounter(queue, name, suffix);
      history := history + [a];
    }

    method RegisterStaff(data: NewUser, suffix: string)
      requires Valid()
      modifies this
      ensures Valid()
      ensures queue == Queue.RegisterStaff(old(queue), data, suffix)
      ensures myTicketId == old(myTicketId) && currentUser == old(currentUser) && viewMode == old(viewMode)
    {
      var a := Register(data, suffix);
      RunSnoc(InitialState, history, a);
      ApplyKeepsNumbering(queue, a);
      queue := Queue.RegisterStaff(queue, data, suffix);
      history := history + [a];
    }

    /** Deletes an account (never the seed administrator). A signed-in
        account that is deleted stays signed in. */
    method DeleteStaff(userId: string)
      requires Valid()
      modifies this
      ensures Valid()
      ensures queue == Queue.DeleteStaff(old(queue), userId)
      ensures myTicketId == old(myTicketId) && currentUser == old(currentUser) && viewMode == old(viewMode)
    {
      var a := Delete(userId);
      RunSnoc(InitialState, history, a);
      ApplyKeepsNumbering(queue, a);
      queue := Queue.DeleteStaff(queue, userId);
      history := history + [a];
    }

    /** Sets an account's voice; the signed-in copy follows when it is that
        account. */
    method UpdateStaffVoice(userId: string, voice: Voice)
      requires Valid()
      modifies this
      ensures Valid()
      ensures queue == Queue.UpdateStaffVoice(old(queue), userId, voice)
      ensures old(currentUser).Some? && old(currentUser).value.id == userId ==>
        currentUser == Some(old(currentUser).value.(voicePreference := Some(voice)))
      ensures !(old(currentUser).Some? && old(currentUser).value.id == userId) ==>
        currentUser == old(currentUser)
      ensures myTicketId == old(myTicketId) && viewMode == old(viewMode)
    {
      var a := ChangeVoice(userId, voice);
      RunSnoc(InitialState, history, a);
      ApplyKeepsNumbering(queue, a);
      queue := Queue.UpdateStaffVoice(queue, userId, voice);
      history := history + [a];
      if currentUser.Some? && currentUser.value.id == userId {
        currentUser := Some(currentUser.value.(voicePreference := Some(voice)));
      }
    }

    /** Factory reset: the seed queue, no followed ticket, nobody signed in;
        the screen stays where it is. */
    method ResetQueue()
      requires Valid()
      modifies this
      ensures Valid()
      ensures queue == InitialState && myTicketId == None && currentUser == None
      ensures viewMode == old(viewMode)
      ensures !ShowsActiveBadge()
    {
      var a := Reset;
      RunSnoc(InitialState, history, a);
      ApplyKeepsNumbering(queue, a);
      queue := Queue.ResetQueue(queue);
      history := history + [a];
      myTicketId := None;
      currentUser := None;
    }
  }
}
