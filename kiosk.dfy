/** The self-service kiosk: the waiting count and time estimate it shows,
    and the screen that scans a member pass (or takes a tap) and issues a
    ticket. */
module Kiosk {
  import opened Types
  import opened Seqs
  import opened Queue
  import opened Admin
  import opened Display
  import opened Session

  /** Minutes a waiting ticket adds to the estimate. */
  const MinutesPerTicket: int := 5

  /** The "Est. Time" figure: five minutes per waiting ticket. */
  function EstimatedWaitMinutes(ts: seq<Ticket>): (r: int)
    ensures r == MinutesPerTicket * |WaitingTickets(ts)|
    ensures r >= 0
    ensures r == 0 <==> forall i :: 0 <= i < |ts| ==> ts[i].status != Waiting
    ensures r > 0 ==> r >= MinutesPerTicket
  {
    var w := WaitingCount(ts);
    NoneWaiting(ts);
    w * MinutesPerTicket
  }

  /** Issuing a ticket adds five minutes to the estimate. */
  lemma IssueAddsFiveMinutes(q: QueueState, ticketId: string, now: int)
    ensures EstimatedWaitMinutes(CreateTicket(q, ticketId, now).tickets) ==
            EstimatedWaitMinutes(q.tickets) + MinutesPerTicket
  {
    IssueAddsOneWaiting(q, ticketId, now);
  }

  /** Scanned data that links the issued ticket to this device's pass. */
  predicate LinksPass(data: string) {
    StartsWith(data, "MEM_")
  }

  /** A member pass code links; the "no pass" tap does not. */
  lemma MemberCodesLink(x: string)
    ensures LinksPass("MEM_" + x)
    ensures !LinksPass("SCREEN_TAP")
  {
    assert ("MEM_" + x)[..4] == "MEM_";
    assert "SCREEN_TAP"[0] != "MEM_"[0];
  }

  class KioskScreen {
    var isScanning: bool
    var isIssuing: bool
    var lastGenerated: Option<Ticket>

    constructor ()
      ensures !isScanning && !isIssuing && lastGenerated == None
    {
      isScanning := false;
      isIssuing := false;
      lastGenerated := None;
    }

    /** "Scan member pass": the camera view opens. */
    method StartScan()
      modifies this
      ensures isScanning
      ensures isIssuing == old(isIssuing) && lastGenerated == old(lastGenerated)
    {
      isScanning := true;
    }

    /** The close button on the camera view, or a camera that cannot be opened. */
    method StopScanner()
      modifies this
      ensures !isScanning
      ensures isIssuing == old(isIssuing) && lastGenerated == old(lastGenerated)
    {
      isScanning := false;
    }

    /** A decoded code (or the tap, which passes "SCREEN_TAP"): the camera
        closes and the "issuing" panel shows. */
    method BeginIssue()
      modifies this
      ensures !isScanning && isIssuing
      ensures lastGenerated == old(lastGenerated)
    {
      isScanning := false;
      isIssuing := true;
    }

    /** The delayed step of a scan: a ticket under a random id is issued,
        linked to this device when the data is a member pass, and shown. */
    method FinishIssue(app: App, data: string, randomId: string, now: int) returns (t: Ticket)
      requires app.Valid()
      modifies this, app
      ensures app.Valid()
      ensures app.queue == CreateTicket(old(app.queue), randomId, now)
      ensures t == app.queue.tickets[|app.queue.tickets| - 1] && t.id == randomId
      ensures t.number == old(app.queue.lastNumber) + 1 && t.status == Waiting
      ensures LinksPass(data) ==> app.myTicketId == Some(randomId)
      ensures !LinksPass(data) ==> app.myTicketId == old(app.myTicketId)
      ensures app.currentUser == old(app.currentUser) && app.viewMode == old(app.viewMode)
      ensures lastGenerated == Some(t) && !isIssuing && isScanning == old(isScanning)
    {
      t := app.CreateTicket(None, randomId, now);
      if LinksPass(data) {
        app.SetMyTicketId(t.id);
      }
      lastGenerated := Some(t);
      isIssuing := false;
    }

    /** The whole scan handler with the delay collapsed: begin, then finish. */
    method HandleSuccessScan(app: App, data: string, randomId: string, now: int) returns (t: Ticket)
      requires app.Valid()
      modifies this, app
      ensures app.Valid()
      ensures app.queue == CreateTicket(old(app.queue), randomId, now)
      ensures t == app.queue.tickets[|app.queue.tickets| - 1] && t.id == randomId
      ensures LinksPass(data) ==> app.myTicketId == Some(randomId)
      ensures !LinksPass(data) ==> app.myTicketId == old(app.myTicketId)
      ensures app.currentUser == old(app.currentUser) && app.viewMode == old(app.viewMode)
      ensures t.number == old(app.queue.lastNumber) + 1 && t.status == Waiting
      ensures lastGenerated == Some(t) && !isIssuing && !isScanning
    {
      BeginIssue();
      t := FinishIssue(app, data, randomId, now);
    }

    /** "Return to home": the issued ticket is no longer shown. */
    method DismissTicket()
      modifies this
      ensures lastGenerated == None
      ensures isScanning == old(isScanning) && isIssuing == old(isIssuing)
    {
      lastGenerated := None;
    }
  }
}
