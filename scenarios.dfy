/**
 * Client runs of the workflow, proved from the handlers' contracts and the
 * token lemmas of `Records`.
 */
module Scenarios {
  import opened Wrappers
  import opened Records
  import opened Handlers

  function AdaForm(): Application
  {
    Application("Ada", "S-001", "Engineer", "Drilling", "Annual", "2024-01-08", "2024-01-15", "Bob", "Lagos", "m@x.com")
  }

  /** Ada submits and her line manager approves, naming h@x.com as HR. */
  method SubmitAndApprove(t1: string, t2: string)
    returns (sys: LeaveSystem, submitted: Response, managed: Response)
    requires t1 != "" && t2 != "" && t1 != t2
    ensures fresh(sys) && sys.Valid()
    ensures sys.lastId == 1 && sys.issued == {t1, t2}
    ensures submitted == Ok(Submitted(t1, StatusPending))
    ensures managed == Ok(Recorded(StatusPendingHRReview))
    ensures sys.requests == map[1 := Blank(1, AdaForm(), 0).(
      requestToken := t1, managerDecision := StatusApproved, managerApproved := true,
      hrEmail := "h@x.com", status := StatusPendingHRReview, hrToken := t2)]
  {
    sys := new LeaveSystem();
    submitted := sys.SubmitLeaveRequest(MethodPost, Some(AdaForm()), t1, 0, false);
    TokenResolvesOnlyThroughItsColumn(sys.requests, sys.lastId, 1, RequestTokenColumn, RequestTokenColumn);
    managed := sys.HandleLineManagerAction(MethodPost, Some(ManagerActionRequest(t1, StatusApproved, "h@x.com")), t2, false);
  }

  /** Continuing `SubmitAndApprove`, HR rejects and names d@x.com as MD. */
  method ThroughHR(t1: string, t2: string, t3: string)
    returns (sys: LeaveSystem, submitted: Response, managed: Response, forwarded: Response)
    requires t1 != "" && t2 != "" && t3 != ""
    requires t1 != t2 && t1 != t3 && t2 != t3
    ensures fresh(sys) && sys.Valid()
    ensures sys.lastId == 1 && sys.issued == {t1, t2, t3}
    ensures submitted == Ok(Submitted(t1, StatusPending))
    ensures managed == Ok(Recorded(StatusPendingHRReview))
    ensures forwarded == Ok(Forwarded)
    ensures sys.requests == map[1 := Blank(1, AdaForm(), 0).(
      requestToken := t1, managerDecision := StatusApproved, managerApproved := true,
      hrEmail := "h@x.com", status := StatusPendingHRReview, hrToken := t2).(
      hrDecision := StatusRejected, hrApproved := false, mdEmail := "d@x.com",
      status := StatusRejectedByHR, mdToken := t3)]
  {
    assert StatusRejected[0] != StatusApproved[0];
    sys, submitted, managed := SubmitAndApprove(t1, t2);
    TokenResolvesOnlyThroughItsColumn(sys.requests, sys.lastId, 1, HRTokenColumn, HRTokenColumn);
    forwarded := sys.HandleHRManagerAction(MethodPost, Some(HRActionRequest(t2, StatusRejected, "d@x.com")), t3, false);
  }

  /**
   * Submit, manager approves, HR rejects, MD approves: the MD's approval alone
   * decides the final status, every stage gets its own token, and the archive
   * view shows the whole chain of decisions.
   */
  method FullChain(t1: string, t2: string, t3: string, t4: string)
    returns (submitted: Response, managed: Response, forwarded: Response, finalized: Response, archive: LeaveRequest)
    requires t1 != "" && t2 != "" && t3 != "" && t4 != ""
    requires t1 != t2 && t1 != t3 && t1 != t4 && t2 != t3 && t2 != t4 && t3 != t4
    ensures submitted == Ok(Submitted(t1, StatusPending))
    ensures managed == Ok(Recorded(StatusPendingHRReview))
    ensures forwarded == Ok(Forwarded)
    ensures finalized == Ok(Recorded(StatusFullyApproved))
    ensures archive.status == StatusFullyApproved && archive.form == AdaForm()
    ensures archive.managerDecision == StatusApproved && archive.managerApproved
    ensures archive.hrDecision == StatusRejected && !archive.hrApproved
    ensures archive.mdDecision == StatusApproved && archive.mdApproved
    ensures archive.hrEmail == "h@x.com" && archive.mdEmail == "d@x.com"
    ensures archive.requestToken == t1 && archive.hrToken == t2 && archive.mdToken == t3 && archive.finalHRToken == t4
  {
    var sys;
    sys, submitted, managed, forwarded := ThroughHR(t1, t2, t3);
    TokenResolvesOnlyThroughItsColumn(sys.requests, sys.lastId, 1, MDTokenColumn, MDTokenColumn);
    finalized := sys.HandleMDAction(MethodPost, Some(MDActionRequest(t3, StatusApproved)), t4, false);
    TokenResolvesOnlyThroughItsColumn(sys.requests, sys.lastId, 1, FinalHRTokenColumn, FinalHRTokenColumn);
    var view := sys.GetFinalArchiveDetails(MethodGet, t4);
    archive := view.reply.request;
  }

  /**
   * The action handlers skip the empty-token check the views make: an MD action
   * carrying "" finds a freshly submitted row (its md_token is still "") and
   * finalizes it as "Fully Approved" although neither the manager nor HR ever
   * acted, while the MD view refuses the same token.
   */
  method EmptyTokenScenario(t1: string, t4: string)
    returns (finalized: Response, mdView: Response, archive: LeaveRequest)
    requires t1 != "" && t4 != "" && t1 != t4
    ensures finalized == Ok(Recorded(StatusFullyApproved))
    ensures mdView == Fail(MissingToken)
    ensures archive.status == StatusFullyApproved && archive.mdApproved
    ensures archive.managerDecision == "" && archive.hrDecision == ""
    ensures archive.hrToken == "" && archive.mdToken == "" && archive.finalHRToken == t4
  {
    var sys := new LeaveSystem();
    var _ := sys.SubmitLeaveRequest(MethodPost, Some(AdaForm()), t1, 0, false);
    EmptyTokenResolvesUnissued(sys.requests, sys.lastId, MDTokenColumn, 1);
    mdView := sys.GetLeaveRequestByMDToken(MethodGet, "");
    finalized := sys.HandleMDAction(MethodPost, Some(MDActionRequest("", StatusApproved)), t4, false);
    TokenResolvesOnlyThroughItsColumn(sys.requests, sys.lastId, 1, FinalHRTokenColumn, FinalHRTokenColumn);
    var view := sys.GetFinalArchiveDetails(MethodGet, t4);
    archive := view.reply.request;
  }

  /**
   * Nothing stops a second manager action with the same request token: it
   * overwrites the first decision and replaces the HR token, after which the
   * first HR token no longer opens the HR view.
   */
  method ReissueScenario(t1: string, t2: string, t3: string)
    returns (firstHRView: Response, secondHRView: Response)
    requires t1 != "" && t2 != "" && t3 != ""
    requires t1 != t2 && t1 != t3 && t2 != t3
    ensures firstHRView == Fail(TokenNotFound)
    ensures secondHRView.Ok? && secondHRView.reply.Details?
    ensures secondHRView.reply.request.managerDecision == StatusRejected
    ensures secondHRView.reply.request.status == StatusRejectedByManager
    ensures secondHRView.reply.request.hrToken == t3
  {
    assert StatusRejected[0] != StatusApproved[0];
    var sys, _, _ := SubmitAndApprove(t1, t2);
    TokenResolvesOnlyThroughItsColumn(sys.requests, sys.lastId, 1, RequestTokenColumn, RequestTokenColumn);
    var _ := sys.HandleLineManagerAction(MethodPost, Some(ManagerActionRequest(t1, StatusRejected, "h@x.com")), t3, false);
    TokenResolvesOnlyThroughItsColumn(sys.requests, sys.lastId, 1, HRTokenColumn, HRTokenColumn);
    firstHRView := sys.GetLeaveRequestByHRToken(MethodGet, t2);
    secondHRView := sys.GetLeaveRequestByHRToken(MethodGet, t3);
  }
}
