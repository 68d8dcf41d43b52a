# Q-Master Pro queue core in Dafny

Q-Master Pro is a browser-based queue system. A kiosk issues numbered
tickets. Customers follow their ticket on a digital pass. A public display
shows the tickets being called and the ones recently served. Staff at a
console call, finish or skip tickets and manage counters and staff accounts.
All of this shares one queue state (tickets, counters, users, last number).
This project models that state and every rule that reads or rewrites it,
and proves what the rules guarantee.

Modules, in dependency order:

- `Types`: the records (`Ticket`, `Counter`, `User`, `QueueState`), the
  enumerations, and JavaScript truthiness of an optional string (`Truthy`:
  absent and `""` are both false).
- `Seqs`: `filter`, `findIndex` and `find`, each with a full contract, and
  the `startsWith` test.
- `Selection`: status filters and the stable sort every list in the system
  uses. The sort is modelled as insertion sort. It is proved stable, and any
  stable sort by the same key is proved equal to it, so the model fixes the
  browser's `Array.prototype.sort` result exactly.
- `Queue`: the state updaters of the App component. Each is a pure function
  from the old state to the new one. Ids and `Date.now()` are parameters.
  The numbering invariant is proved for every sequence of updates from the
  initial or reset state.
- `Admin`: the staff console. It covers the waiting queue, sign-in, call
  next, the QR call, DONE/SKIP, the two forms, which counters an account
  sees or can be given, and the announcement voice.
- `Pass`: the digital pass. It covers my ticket, finished or not, my place,
  the people ahead, my counter, and when the join screen shows.
- `Display`: the public display. It covers the called tickets (newest call
  first), the last eight served, the waiting count and the daily total.
- `Session`: class `App`, the application state. It holds the queue, the
  followed ticket id, the signed-in account and the screen. Its ghost
  history shows that the queue is always reachable from the initial state.
- `Kiosk`: the kiosk's wait estimate and class `KioskScreen` (scanning →
  issuing → ticket shown).

Where the code departs from the intended design, the model follows the code,
and a lemma shows the difference:

- Status changes are not one-directional. `updateTicketStatus` accepts any
  status for any ticket. `Queue.ServedTicketCanWaitAgain` shows a SERVED
  ticket going back to WAITING.
- "At most one live ticket per counter" is not an invariant. A QR call at a
  counter that is already calling replaces the counter's current ticket and
  leaves the earlier ticket CALLING (`Admin.ScanLeavesEarlierCallLive`).
- Ticket ids are not assumed unique. They come from `Math.random` or a
  forced id. Lemmas that need unique ids say so in their `requires`.

## Model

| member | source | states |
|---|---|---|
| `Selection.WithStatus` | components/AdminDashboard.tsx:116 | the tickets of one status, in list order: exactly the members of that status, with their multiplicities, as a subsequence |
| `Selection.WithStatusAppend` | App.tsx:74 | filtering a list with one ticket appended adds that ticket at the end exactly when it has the status |
| `Selection.SortBy` | components/AdminDashboard.tsx:116 | the comparator sort's output is ordered by the key and is a permutation of its input |
| `Selection.SortByIsStable` | components/AdminDashboard.tsx:116 | the sort is stable: for every key value, the elements with that key keep their input order |
| `Selection.StableSortIsSortBy` | components/CustomerView.tsx:13 | any ordered, stable rearrangement equals `SortBy`, so the engine's stable `sort` gives this exact list |
| `Queue.ResetQueue` | App.tsx:166-179 | reset discards the old state and yields the start state |
| `Queue.FactoryStateShape` | App.tsx:10-19 | the factory state has no tickets, last number 100, counters "1" to "4" with only 1 and 2 open and none calling, and the single admin account |
| `Queue.CreateTicket` | App.tsx:60-77 | appends one WAITING ticket numbered last number + 1 with no counter and no call or service time; earlier tickets, counters and users are unchanged; the last number advances by one |
| `Queue.UpdateTicketStatus` | App.tsx:93-117 | every ticket with the id gets the status, the counter id if a non-empty one is given, a call time only on CALLING and a service time only on SERVED; other tickets are untouched; the counter with that id is set to the ticket on CALLING, cleared on SERVED or CANCELLED, kept on WAITING; other counters are untouched |
| `Queue.ToggleCounter` | App.tsx:119-124 | flips `isActive` of the counters with the id and changes nothing else |
| `Queue.ToggleTwice` | App.tsx:119-124 | toggling twice restores the state |
| `Queue.AddCounter` | App.tsx:126-135 | appends one open, idle counter named as given with id "counter-" + suffix |
| `Queue.RegisterStaff` | App.tsx:137-146 | appends one account with id "staff-" + suffix and the form's fields; a missing voice becomes MAN |
| `Queue.DeleteStaff` | App.tsx:148-154 | "admin-1" is never removed (state unchanged); otherwise exactly the accounts with the id go and the rest keep their order and multiplicity |
| `Queue.DeleteStaffIdempotent` | App.tsx:148-154 | deleting twice equals deleting once |
| `Queue.RegisteredStaffDeletable` | App.tsx:142-152 | a registered account never has the protected id, and deleting its id removes it |
| `Queue.UpdateStaffVoice` | App.tsx:156-160 | accounts with the id get the voice; every other field and account is unchanged |
| `Queue.TicketById` | App.tsx:56 | the first ticket with the id, or none exactly when no ticket has it |
| `Queue.HasActiveTicket` | App.tsx:54-58 | true exactly when the id is non-empty and the first ticket with it is WAITING or CALLING |
| `Queue.JoinShowsActiveTicket` | App.tsx:87-91 | after issuing under a fresh non-empty id, following that id lights the active-ticket indicator |
| `Queue.NoActiveTicketAfterReset` | App.tsx:166-175 | after a reset no id has an active ticket |
| `Queue.ApplyKeepsNumbering` | App.tsx:64-76 | each update keeps ticket numbers strictly increasing in list order and at most the last number |
| `Queue.RunKeepsNumbering` | App.tsx:64-76 | any sequence of updates keeps that numbering invariant |
| `Queue.ReachableNumbering` | App.tsx:42 | every state reached from the initial state satisfies the numbering invariant |
| `Queue.ServedTicketCanWaitAgain` | App.tsx:93-106 | the updater puts a SERVED ticket back to WAITING: transitions are not restricted |
| `Admin.WaitingTickets` | components/AdminDashboard.tsx:115-118 | the WAITING tickets (all of them, with multiplicity) ordered by creation time, ties in list order |
| `Admin.HeadIsEarliest` | components/AdminDashboard.tsx:209-211 | the head of the waiting queue was created no later than any waiting ticket |
| `Admin.Login` | components/AdminDashboard.tsx:120-131 | succeeds exactly when some account has that username and password, returning the first such account; otherwise "Invalid credentials" |
| `Admin.SeedAdminSignsIn` | App.tsx:17-19 | admin / 123 signs in as the seed account |
| `Admin.CallNext` | components/AdminDashboard.tsx:209-216 | with no waiting ticket nothing changes; otherwise the earliest waiting ticket is set to CALLING at the counter |
| `Admin.CallNextEffect` | components/AdminDashboard.tsx:209-216 | after call next, the counter's current ticket is the called one and that ticket is CALLING with the call time and (for a non-empty id) the counter |
| `Admin.ScanCall` | components/AdminDashboard.tsx:160-166 | a scan calls the code's ticket exactly when a counter is selected and some ticket with that id is WAITING |
| `Admin.ScanLeavesEarlierCallLive` | components/AdminDashboard.tsx:160-166 | a scan at a counter already calling another ticket replaces the counter's ticket and leaves the earlier one CALLING |
| `Admin.CloseCurrent` | components/AdminDashboard.tsx:396-432 | DONE/SKIP set the counter's current ticket to SERVED/CANCELLED at that counter; with no such ticket nothing changes |
| `Admin.CloseCurrentFreesCounter` | components/AdminDashboard.tsx:428-432 | after DONE/SKIP the counter has no current ticket |
| `Admin.AssignedCounterIds` | components/AdminDashboard.tsx:242-247 | the counter ids held by STAFF accounts, and only those |
| `Admin.AvailableCountersForRegistration` | components/AdminDashboard.tsx:249-252 | exactly the counters no STAFF account holds, every copy of each, in list order |
| `Admin.RegisteredCounterTaken` | components/AdminDashboard.tsx:508-511 | once a staff account is registered for a counter, that counter is no longer offered |
| `Admin.SubmitRegistration` | components/AdminDashboard.tsx:508-512 | refused with "Fill all fields" exactly when a field is empty; otherwise one STAFF account with id "staff-" + suffix, the MAN voice and the counter is appended, earlier accounts, tickets, counters and the last number unchanged |
| `Admin.SubmitNewCounter` | components/AdminDashboard.tsx:536-539 | refused with "Please enter a counter name" exactly when the name is empty; otherwise one open, idle counter with that name and id "counter-" + suffix is appended, earlier counters, tickets, users and the last number unchanged |
| `Admin.FilteredCounters` | components/AdminDashboard.tsx:309-311 | the full admin sees every counter; a staff account sees exactly the counters with its own counter id, every copy, in list order |
| `Admin.UnassignedStaffSeesNothing` | components/AdminDashboard.tsx:309-311 | a staff account without a counter sees none |
| `Admin.AnnouncementVoice` | components/AdminDashboard.tsx:179-184 | the signed-in account's voice, else the first account assigned to the counter's voice, else MAN |
| `Admin.OwnVoiceWins` | components/AdminDashboard.tsx:182-184 | a voice the signed-in account set is the voice announced |
| `Pass.MyTicket` | components/DigitalPassView.tsx:38 | the first ticket with my id; none without an id |
| `Pass.IsFinished` | components/DigitalPassView.tsx:39 | my ticket exists and is SERVED or CANCELLED |
| `Pass.Place` | components/DigitalPassView.tsx:42 | one more than the first index with the id, 0 when absent |
| `Pass.MyPosition` | components/DigitalPassView.tsx:41-42 | my 1-based place in the waiting queue; 0 exactly when I have no ticket or no waiting ticket carries my id |
| `Pass.WaitingTicketHasPlace` | components/DigitalPassView.tsx:41-42 | a WAITING ticket's place lies between 1 and the number waiting |
| `Pass.OnlyWaitingTicketsHavePlace` | components/DigitalPassView.tsx:41-42 | with unique ids, a ticket that is not WAITING has place 0 |
| `Pass.PeopleAhead` | components/DigitalPassView.tsx:213 | place − 1 when placed, else 0; never negative and below the queue length when non-zero |
| `Pass.AheadAreEarlier` | components/DigitalPassView.tsx:211-213 | everyone ahead of me is WAITING and was created no later than my ticket |
| `Pass.MyCounter` | components/DigitalPassView.tsx:44 | looked up only when my ticket has a non-empty counter id; the first counter with that id, none exactly when no counter has it |
| `Pass.ShowJoinScreen` | components/DigitalPassView.tsx:56 | the join screen shows exactly when I have no ticket or it is finished; otherwise my ticket is live |
| `Pass.BadgeMatchesPass` | App.tsx:54-58 | the active-ticket indicator is lit exactly when the id is non-empty and the pass screen would show a pass |
| `Display.CallingTickets` | components/CustomerView.tsx:12-15 | all CALLING tickets, latest call first (missing time as 0), ties in list order |
| `Display.CounterFor` | components/CustomerView.tsx:84 | the first counter with the ticket's counter id; none exactly when no counter has it or the ticket has none |
| `Display.NewCallIsLatest` | components/CustomerView.tsx:83-85 | the first card, flagged as the new call, was called no earlier than any CALLING ticket |
| `Display.ServedNewestFirst` | components/CustomerView.tsx:18 | all SERVED tickets, latest service first, ties in list order |
| `Display.Top` | components/CustomerView.tsx:18 | `slice(0, n)` of a list sorted by service time: up to n leading items, and nothing left out was served later than anything kept |
| `Display.RecentlyServed` | components/CustomerView.tsx:17-20 | at most eight SERVED tickets, latest first, and any SERVED ticket left out was served no later than every one shown |
| `Display.DailyTotal` | components/CustomerView.tsx:170 | the number of SERVED tickets, at least the length of the recent column |
| `Display.WaitingCount` | components/CustomerView.tsx:22-25 | the number of WAITING tickets, equal to the console's waiting-queue length |
| `Display.NoneWaiting` | components/CustomerView.tsx:22-25 | the count is 0 exactly when no ticket is WAITING |
| `Display.IssueAddsOneWaiting` | App.tsx:64-76 | issuing a ticket adds one to the waiting count |
| `Display.CallNextShrinksQueue` | components/AdminDashboard.tsx:209-216 | call next on a non-empty queue lowers the waiting count |
| `Session.App.constructor` | App.tsx:21-43 | starts on the kiosk screen with the initial state, no followed ticket and nobody signed in |
| `Session.App.ShowsActiveBadge` | App.tsx:215 | lit exactly off the pass screen when the pass screen would show a pass; the followed ticket is then live |
| `Session.App.CreateTicket` | App.tsx:60-85 | the ticket gets the forced id when it is non-empty, else the random id; the queue becomes `CreateTicket` of the old one and the issued ticket is returned; the invariant holds |
| `Session.App.JoinQueue` | App.tsx:87-91 | issues a ticket under the random id, follows it and opens the pass screen; with a fresh non-empty id the indicator's condition holds |
| `Session.App.SetMyTicketId` | App.tsx:228 | follows the given id; nothing else changes |
| `Session.App.ClearMyTicket` | App.tsx:255 | stops following; the ticket stays in the queue |
| `Session.App.SetViewMode` | App.tsx:192-217 | switches the screen only |
| `Session.App.SignIn` | components/AdminDashboard.tsx:120-131 | signs in the matching account with no error, or leaves the account and returns "Invalid credentials" |
| `Session.App.SignOut` | App.tsx:240 | nobody is signed in afterwards |
| `Session.App.UpdateTicketStatus` | App.tsx:93-117 | the queue becomes `UpdateTicketStatus` of the old one; the invariant holds |
| `Session.App.ToggleCounter` | App.tsx:119-124 | the queue becomes `ToggleCounter` of the old one; the invariant holds |
| `Session.App.AddCounter` | App.tsx:126-135 | the queue becomes `AddCounter` of the old one; the invariant holds |
| `Session.App.RegisterStaff` | App.tsx:137-146 | the queue becomes `RegisterStaff` of the old one; the invariant holds |
| `Session.App.DeleteStaff` | App.tsx:148-154 | the queue becomes `DeleteStaff` of the old one; the signed-in account is kept |
| `Session.App.UpdateStaffVoice` | App.tsx:156-164 | the queue's accounts get the voice, and so does the signed-in copy exactly when it has that id |
| `Session.App.ResetQueue` | App.tsx:166-179 | the start state, no followed ticket, nobody signed in, the same screen, and no indicator |
| `Kiosk.EstimatedWaitMinutes` | components/KioskView.tsx:121 | five minutes per ticket in the console's waiting queue: 0 exactly when nobody waits, at least five minutes otherwise |
| `Kiosk.IssueAddsFiveMinutes` | components/KioskView.tsx:96-121 | issuing a ticket raises the estimate by five minutes |
| `Kiosk.MemberCodesLink` | components/KioskView.tsx:84-86 | a "MEM_" code links the ticket to the pass; the screen tap does not |
| `Kiosk.KioskScreen.constructor` | components/KioskView.tsx:14-16 | not scanning, not issuing, no ticket shown |
| `Kiosk.KioskScreen.StartScan` | components/KioskView.tsx:159 | the camera view opens |
| `Kiosk.KioskScreen.StopScanner` | components/KioskView.tsx:92-94 | the camera view closes |
| `Kiosk.KioskScreen.BeginIssue` | components/KioskView.tsx:76-78 | scanning stops and the issuing panel shows |
| `Kiosk.KioskScreen.FinishIssue` | components/KioskView.tsx:81-89 | one ticket is issued under a random id, followed when the data is a member code, and shown; the issuing panel closes |
| `Kiosk.KioskScreen.HandleSuccessScan` | components/KioskView.tsx:76-90 | both steps together: one ticket issued and shown, and neither scanning nor issuing afterwards; the signed-in account and the screen are unchanged |
| `Kiosk.KioskScreen.DismissTicket` | components/KioskView.tsx:208 | the shown ticket is cleared |

## Left out

- Persistence. Loading the state and the followed id from local storage
  (App.tsx:25-43) and saving them on every change (App.tsx:45-52) are not
  modelled. The model starts from the initial state, as a fresh browser does.
  The fallbacks for a stored state with no counters or no users are not
  modelled.
- Randomness and time. `Math.random()` ids and `Date.now()` become
  parameters (`randomId`, `suffix`, `now`). One update uses a single `now`.
  The source reads the clock separately for the call and service times.
- Session.App.CreateTicket: the returned ticket is the appended ticket. The
  source returns a separate object (App.tsx:79-84). That object uses the
  render-time `queue.lastNumber` and a second `Date.now()`, so it agrees with
  the appended ticket only when no other update comes in between.
- The camera, QR decoding (jsQR), animation frames and the scanning effect
  loops. They are modelled only by their outcome: a decoded `data` string
  (kiosk) or `code` (console).
- Timers. The 1500 ms kiosk delay is the split between `BeginIssue` and
  `FinishIssue`. The 600 ms join delay on the pass screen and its
  `isJoining` spinner are not modelled.
- Audio. Speech generation (services/geminiService.ts), base64 and PCM
  decoding and playback are not part of this model. Only the choice of voice
  is.
- The AI report (services/geminiService.ts) is not part of this model.
- Confirmation dialogs and alerts (`window.confirm`, `alert`). Each guarded
  action is modelled as if confirmed. An unconfirmed one changes nothing.
- The CALL NEXT button is offered only at a counter with no current ticket,
  and it is disabled while nobody waits or an announcement plays
  (components/AdminDashboard.tsx:427-452). `Admin.CallNext` models the
  handler, which also runs at a busy counter; the model does not restrict
  when it is called.
- The disabled state of the registration button when no counter is free,
  and the UI's hiding of the admin's delete button. The protection of the
  admin itself is modelled, in `DeleteStaff`.
- Rendering, styling, clock display (`toLocaleTimeString`) and React update
  batching. Updates are applied in the order they are issued.
- Number width. JavaScript numbers are doubles. Ticket numbers and
  timestamps are unbounded integers here. They agree below 2^53.
- Pass.OnlyWaitingTicketsHavePlace: requires unique ticket ids. With
  repeated ids, a finished ticket can share its id with a waiting one and
  still get a place.
