/**
 * The HTTP handlers of the leave workflow, modelled as the methods of one object
 * that owns the database tables (users and leave requests) and the outbox of
 * e-mail notifications the handlers dispatch.
 *
 * Foreign calls become parameters: the UUID a handler would generate is passed
 * in as `newToken`, the clock as `now`, a failing database write as a boolean,
 * a request body that fails to decode as `None`, and bcrypt as the hash result
 * or a comparison function.
 */
module Handlers {
  import opened Wrappers
  import opened Records

  const MethodGet := "GET"
  const MethodPost := "POST"

  /** The errors a handler answers with; each comment is the message sent. */
  datatype Error =
    | MethodNotAllowed    // "method not allowed"
    | InvalidJSON         // "invalid JSON format"
    | MissingToken        // "token is required"
    | TokenNotFound       // "invalid or expired token"
    | UserExists          // "user with this email already exists"
    | HashPassword        // "failed to hash password"
    | CreateUser          // "failed to create user"
    | MalformedRequest    // "malformed request data"
    | PersistRequest      // "failed to persist request"
    | SaveAction          // "failed to save action"
    | FinalizeRequest     // "failed to finalize request"
    | InvalidCredentials  // "invalid email or password"
    | RequestNotFound     // "request not found"

  /** The data part of a successful answer. */
  datatype Reply =
    | Registered(userId: nat, email: string)
    | LoggedIn(fullName: string)
    | Submitted(requestToken: string, status: string)
    | Recorded(status: string)
    | Forwarded
    | Details(request: LeaveRequest)

  datatype Response = Ok(reply: Reply) | Fail(error: Error)

  datatype SignupRequest = SignupRequest(fullName: string, email: string, password: string, phoneNumber: string)
  datatype LoginRequest = LoginRequest(email: string, password: string)
  datatype ManagerActionRequest = ManagerActionRequest(token: string, status: string, hrEmail: string)
  datatype HRActionRequest = HRActionRequest(token: string, status: string, mdEmail: string)
  datatype MDActionRequest = MDActionRequest(token: string, status: string)

  datatype User = User(id: nat, fullName: string, email: string, passwordHash: string, phoneNumber: string, createdAt: int)

  /**
   * The page each notification links to: approve.html, approve_hr.html,
   * approve_md.html and final_archive.html.
   */
  datatype Page = ApprovePage | ApproveHRPage | ApproveMDPage | FinalArchivePage

  /** An e-mail handed to the dispatcher: who gets it, about whom, and the token its link carries. */
  datatype Notification = Notification(page: Page, recipient: string, staffName: string, token: string)

  /** The row a freshly decoded submission becomes before the handler fills in its defaults. */
  function Blank(id: nat, form: Application, createdAt: int): LeaveRequest
  {
    LeaveRequest(id, form, createdAt, "", "", false, "", "", false, "", "", false, "", "", "", "")
  }

  class LeaveSystem {
    var users: map<string, User>
    var lastUserId: nat
    var requests: map<nat, LeaveRequest>
    var lastId: nat
    var outbox: seq<Notification>
    /** Every token ever issued, including those a later action overwrote. */
    ghost var issued: set<string>

    ghost predicate Valid()
      reads this`users, this`requests, this`lastId, this`issued
    {
      && Keyed(requests, lastId)
      && (forall id :: id in requests ==> Consistent(requests[id]))
      && (forall id {:trigger StageAgrees(requests[id])} :: id in requests ==> StageAgrees(requests[id]))
      && TokensUnique(requests)
      && HeldWithin(requests, issued)
      && (forall e :: e in users ==> users[e].email == e)
    }

    /** A token the UUID generator may hand out: non-empty and never issued before. */
    ghost predicate FreshToken(t: string)
      reads this`issued
    {
      t != "" && t !in issued
    }

    /** The row the handler for column `c` loads for `token`, if any. */
    function Resolve(c: Column, token: string): (r: Option<nat>)
      reads this
      requires Valid()
      ensures r.Some? ==> r.value in requests && TokenAt(requests[r.value], c) == token
      ensures r.None? <==> forall j :: j in requests ==> TokenAt(requests[j], c) != token
    {
      Lookup(requests, lastId, c, token)
    }

    constructor ()
      ensures Valid()
      ensures users == map[] && requests == map[] && outbox == [] && issued == {}
      ensures lastId == 0 && lastUserId == 0
    {
      users, lastUserId := map[], 0;
      requests, lastId := map[], 0;
      outbox := [];
      issued := {};
    }

    /** Registration: rejects an e-mail address that already has an account. */
    method Signup(verb: string, body: Option<SignupRequest>, hashed: Option<string>, now: int, createFails: bool)
      returns (resp: Response)
      requires Valid()
      modifies this`users, this`lastUserId
      ensures Valid()
      ensures verb != MethodPost ==> resp == Fail(MethodNotAllowed) && unchanged(this)
      ensures verb == MethodPost && body.None? ==> resp == Fail(InvalidJSON) && unchanged(this)
      ensures verb == MethodPost && body.Some? && body.value.email in old(users) ==>
        resp == Fail(UserExists) && unchanged(this)
      ensures verb == MethodPost && body.Some? && body.value.email !in old(users) && hashed.None? ==>
        resp == Fail(HashPassword) && unchanged(this)
      ensures verb == MethodPost && body.Some? && body.value.email !in old(users) && hashed.Some? && createFails ==>
        resp == Fail(CreateUser) && unchanged(this)
      ensures verb == MethodPost && body.Some? && body.value.email !in old(users) && hashed.Some? && !createFails ==>
        var b := body.value;
        && lastUserId == old(lastUserId) + 1
        && users == old(users)[b.email := User(lastUserId, b.fullName, b.email, hashed.value, b.phoneNumber, now)]
        && resp == Ok(Registered(lastUserId, b.email))
    {
      if verb != MethodPost {
        return Fail(MethodNotAllowed);
      }
      if body.None? {
        return Fail(InvalidJSON);
      }
      var req := body.value;
      if req.email in users {
        return Fail(UserExists);
      }
      if hashed.None? {
        return Fail(HashPassword);
      }
      if createFails {
        return Fail(CreateUser);
      }
      var user := User(lastUserId + 1, req.fullName, req.email, hashed.value, req.phoneNumber, now);
      users := users[req.email := user];
      lastUserId := lastUserId + 1;
      resp := Ok(Registered(user.id, user.email));
    }

    /**
     * Login: succeeds exactly when an account has this e-mail address and the
     * bcrypt comparison of its stored hash with the given password succeeds.
     */
    function Login(verb: string, body: Option<LoginRequest>, compare: (string, string) -> bool): (resp: Response)
      reads this
      requires Valid()
      ensures verb != MethodPost ==> resp == Fail(MethodNotAllowed)
      ensures verb == MethodPost && body.None? ==> resp == Fail(InvalidJSON)
      ensures verb == MethodPost && body.Some? ==>
        (resp.Ok? <==> body.value.email in users && compare(users[body.value.email].passwordHash, body.value.password))
      ensures verb == MethodPost && body.Some? && resp.Fail? ==> resp.error == InvalidCredentials
      ensures resp.Ok? ==> body.Some? && body.value.email in users && resp == Ok(LoggedIn(users[body.value.email].fullName))
    {
      if verb != MethodPost then Fail(MethodNotAllowed)
      else if body.None? then Fail(InvalidJSON)
      else if body.value.email !in users then Fail(InvalidCredentials)
      else if !compare(users[body.value.email].passwordHash, body.value.password) then Fail(InvalidCredentials)
      else Ok(LoggedIn(users[body.value.email].fullName))
    }

    /**
     * Submission: stores a new row with status "Pending", all approval flags
     * false and a new request token, answers with that token and status, and
     * notifies the line manager.
     */
    method SubmitLeaveRequest(verb: string, body: Option<Application>, newToken: string, now: int, createFails: bool)
      returns (resp: Response)
      requires Valid() && FreshToken(newToken)
      modifies this`requests, this`lastId, this`outbox, this`issued
      ensures Valid()
      ensures verb != MethodPost ==> resp == Fail(MethodNotAllowed) && unchanged(this)
      ensures verb == MethodPost && body.None? ==> resp == Fail(MalformedRequest) && unchanged(this)
      ensures verb == MethodPost && body.Some? && createFails ==> resp == Fail(PersistRequest) && unchanged(this)
      ensures verb == MethodPost && body.Some? && !createFails ==>
        lastId == old(lastId) + 1 && lastId in requests
      ensures verb == MethodPost && body.Some? && !createFails ==>
        var r := requests[lastId];
        && requests == old(requests)[lastId := r]
        && r == Blank(lastId, body.value, now).(requestToken := newToken, status := StatusPending)
        && r.status == StatusPending && !r.managerApproved && !r.hrApproved && !r.mdApproved
        && resp == Ok(Submitted(newToken, StatusPending))
        && outbox == old(outbox) + [Notification(ApprovePage, body.value.managerEmail, body.value.staffName, newToken)]
        && issued == old(issued) + {newToken}
    {
      if verb != MethodPost {
        return Fail(MethodNotAllowed);
      }
      if body.None? {
        return Fail(MalformedRequest);
      }
      var leaveReq := Blank(lastId + 1, body.value, now);
      leaveReq := leaveReq.(requestToken := newToken);
      leaveReq := leaveReq.(status := StatusPending);
      leaveReq := leaveReq.(managerApproved := false, hrApproved := false, mdApproved := false);
      if createFails {
        return Fail(PersistRequest);
      }
      assert Absent(requests, newToken);
      InsertKeepsUnique(requests, leaveReq.id, newToken, leaveReq);
      requests := requests[leaveReq.id := leaveReq];
      lastId := lastId + 1;
      issued := issued + {newToken};
      outbox := outbox + [Notification(ApprovePage, leaveReq.form.managerEmail, leaveReq.form.staffName, newToken)];
      resp := Ok(Submitted(newToken, leaveReq.status));
    }

    /** Looks a row up through column `c`, rejecting the empty token before the lookup. */
    function FetchBy(c: Column, verb: string, token: string): (resp: Response)
      reads this
      requires Valid()
      ensures verb != MethodGet ==> resp == Fail(MethodNotAllowed)
      ensures verb == MethodGet && token == "" ==> resp == Fail(MissingToken)
      ensures verb == MethodGet && token != "" ==>
        (resp.Ok? <==> exists id :: id in requests && TokenAt(requests[id], c) == token)
      ensures verb == MethodGet && token != "" && resp.Fail? ==> resp.error == TokenNotFound
      ensures resp.Ok? ==>
        && resp.reply.Details? && resp.reply.request.id in requests
        && requests[resp.reply.request.id] == resp.reply.request
        && TokenAt(resp.reply.request, c) == token != ""
    {
      if verb != MethodGet then Fail(MethodNotAllowed)
      else if token == "" then Fail(MissingToken)
      else match Resolve(c, token)
        case None => Fail(TokenNotFound)
        case Some(id) => Ok(Details(requests[id]))
    }

    /** The manager's view: resolves only through request_token. */
    function GetLeaveRequestByToken(verb: string, token: string): (resp: Response)
      reads this
      requires Valid()
      ensures verb != MethodGet ==> resp == Fail(MethodNotAllowed)
      ensures verb == MethodGet && token == "" ==> resp == Fail(MissingToken)
      ensures verb == MethodGet && token != "" ==>
        (resp.Ok? <==> exists id :: id in requests && requests[id].requestToken == token)
      ensures resp.Ok? ==> resp.reply.Details? && resp.reply.request in requests.Values && resp.reply.request.requestToken == token
      ensures resp.Fail? ==> resp.error == (if verb != MethodGet then MethodNotAllowed else if token == "" then MissingToken else TokenNotFound)
    {
      FetchBy(RequestTokenColumn, verb, token)
    }

    /** HR's view: resolves only through hr_token. */
    function GetLeaveRequestByHRToken(verb: string, token: string): (resp: Response)
      reads this
      requires Valid()
      ensures verb != MethodGet ==> resp == Fail(MethodNotAllowed)
      ensures verb == MethodGet && token == "" ==> resp == Fail(MissingToken)
      ensures verb == MethodGet && token != "" ==>
        (resp.Ok? <==> exists id :: id in requests && requests[id].hrToken == token)
      ensures resp.Ok? ==> resp.reply.Details? && resp.reply.request in requests.Values && resp.reply.request.hrToken == token
      ensures resp.Fail? ==> resp.error == (if verb != MethodGet then MethodNotAllowed else if token == "" then MissingToken else TokenNotFound)
    {
      FetchBy(HRTokenColumn, verb, token)
    }

    /** The MD's view: resolves only through md_token. */
    function GetLeaveRequestByMDToken(verb: string, token: string): (resp: Response)
      reads this
      requires Valid()
      ensures verb != MethodGet ==> resp == Fail(MethodNotAllowed)
      ensures verb == MethodGet && token == "" ==> resp == Fail(MissingToken)
      ensures verb == MethodGet && token != "" ==>
        (resp.Ok? <==> exists id :: id in requests && requests[id].mdToken == token)
      ensures resp.Ok? ==> resp.reply.Details? && resp.reply.request in requests.Values && resp.reply.request.mdToken == token
      ensures resp.Fail? ==> resp.error == (if verb != MethodGet then MethodNotAllowed else if token == "" then MissingToken else TokenNotFound)
    {
      FetchBy(MDTokenColumn, verb, token)
    }

    /** The archive view: resolves only through final_hr_token. */
    function GetFinalArchiveDetails(verb: string, token: string): (resp: Response)
      reads this
      requires Valid()
      ensures verb != MethodGet ==> resp == Fail(MethodNotAllowed)
      ensures verb == MethodGet && token == "" ==> resp == Fail(MissingToken)
      ensures verb == MethodGet && token != "" ==>
        (resp.Ok? <==> exists id :: id in requests && requests[id].finalHRToken == token)
      ensures resp.Ok? ==> resp.reply.Details? && resp.reply.request in requests.Values && resp.reply.request.finalHRToken == token
      ensures resp.Fail? ==> resp.error == (if verb != MethodGet then MethodNotAllowed else if token == "" then MissingToken else TokenNotFound)
    {
      FetchBy(FinalHRTokenColumn, verb, token)
    }

    /** `DB.Save`: writes back a loaded row whose column `c` now holds the fresh token `tok`. */
    method Save(r: LeaveRequest, c: Column, tok: string)
      requires Valid() && FreshToken(tok)
      requires r.id in requests && Consistent(r) && StageAgrees(r) && TokenAt(r, c) == tok
      requires forall d :: d != c ==> TokenAt(r, d) == TokenAt(requests[r.id], d)
      modifies this`requests, this`issued
      ensures Valid()
      ensures requests == old(requests)[r.id := r] && issued == old(issued) + {tok}
    {
      assert Absent(requests, tok);
      IssueKeepsUnique(requests, r.id, c, tok, r);
      requests := requests[r.id := r];
      issued := issued + {tok};
    }

    /**
     * The line manager's decision, found by request token: records the decision
     * verbatim, approves exactly when it is "Approved", sets the HR e-mail and
     * the status, and issues an HR token whatever the decision.
     */
    method HandleLineManagerAction(verb: string, body: Option<ManagerActionRequest>, newToken: string, saveFails: bool)
      returns (resp: Response)
      requires Valid() && FreshToken(newToken)
      modifies this`requests, this`outbox, this`issued
      ensures Valid()
      ensures verb != MethodPost ==> resp == Fail(MethodNotAllowed) && unchanged(this)
      ensures verb == MethodPost && body.None? ==> resp == Fail(InvalidJSON) && unchanged(this)
      ensures verb == MethodPost && body.Some? && old(Resolve(RequestTokenColumn, body.value.token)).None? ==>
        resp == Fail(RequestNotFound) && unchanged(this)
      ensures verb == MethodPost && body.Some? && old(Resolve(RequestTokenColumn, body.value.token)).Some? && saveFails ==>
        resp == Fail(SaveAction) && unchanged(this)
      ensures verb == MethodPost && body.Some? && old(Resolve(RequestTokenColumn, body.value.token)).Some? && !saveFails ==>
        var id := old(Resolve(RequestTokenColumn, body.value.token)).value;
        var decision := body.value.status;
        var r := requests[id];
        && requests == old(requests)[id := r]
        && r == old(requests)[id].(managerDecision := decision, managerApproved := decision == StatusApproved,
                                   hrEmail := body.value.hrEmail,
                                   status := if decision == StatusApproved then StatusPendingHRReview else StatusRejectedByManager,
                                   hrToken := newToken)
        && resp == Ok(Recorded(r.status))
        && outbox == old(outbox) + [Notification(ApproveHRPage, body.value.hrEmail, r.form.staffName, newToken)]
        && issued == old(issued) + {newToken}
    {
      if verb != MethodPost {
        return Fail(MethodNotAllowed);
      }
      if body.None? {
        return Fail(InvalidJSON);
      }
      var req := body.value;
      var found := Resolve(RequestTokenColumn, req.token);
      if found.None? {
        return Fail(RequestNotFound);
      }
      var leaveReq := requests[found.value];
      leaveReq := leaveReq.(managerDecision := req.status);
      leaveReq := leaveReq.(managerApproved := req.status == StatusApproved);
      leaveReq := leaveReq.(hrEmail := req.hrEmail);
      if leaveReq.managerApproved {
        leaveReq := leaveReq.(status := StatusPendingHRReview);
      } else {
        leaveReq := leaveReq.(status := StatusRejectedByManager);
      }
      leaveReq := leaveReq.(hrToken := newToken);
      if saveFails {
        return Fail(SaveAction);
      }
      Save(leaveReq, HRTokenColumn, newToken);
      outbox := outbox + [Notification(ApproveHRPage, leaveReq.hrEmail, leaveReq.form.staffName, leaveReq.hrToken)];
      resp := Ok(Recorded(leaveReq.status));
    }

    /**
     * HR's decision, found by HR token: records the decision verbatim, approves
     * exactly when it is "Approved", sets the MD e-mail and the status, and
     * issues an MD token whatever the decision.
     */
    method HandleHRManagerAction(verb: string, body: Option<HRActionRequest>, newToken: string, saveFails: bool)
      returns (resp: Response)
      requires Valid() && FreshToken(newToken)
      modifies this`requests, this`outbox, this`issued
      ensures Valid()
      ensures verb != MethodPost ==> resp == Fail(MethodNotAllowed) && unchanged(this)
      ensures verb == MethodPost && body.None? ==> resp == Fail(InvalidJSON) && unchanged(this)
      ensures verb == MethodPost && body.Some? && old(Resolve(HRTokenColumn, body.value.token)).None? ==>
        resp == Fail(RequestNotFound) && unchanged(this)
      ensures verb == MethodPost && body.Some? && old(Resolve(HRTokenColumn, body.value.token)).Some? && saveFails ==>
        resp == Fail(SaveAction) && unchanged(this)
      ensures verb == MethodPost && body.Some? && old(Resolve(HRTokenColumn, body.value.token)).Some? && !saveFails ==>
        var id := old(Resolve(HRTokenColumn, body.value.token)).value;
        var decision := body.value.status;
        var r := requests[id];
        && requests == old(requests)[id := r]
        && r == old(requests)[id].(hrDecision := decision, hrApproved := decision == StatusApproved,
                                   mdEmail := body.value.mdEmail,
                                   status := if decision == StatusApproved then StatusPendingMDApproval else StatusRejectedByHR,
                                   mdToken := newToken)
        && resp == Ok(Forwarded)
        && outbox == old(outbox) + [Notification(ApproveMDPage, body.value.mdEmail, r.form.staffName, newToken)]
        && issued == old(issued) + {newToken}
    {
      if verb != MethodPost {
        return Fail(MethodNotAllowed);
      }
      if body.None? {
        return Fail(InvalidJSON);
      }
      var req := body.value;
      var found := Resolve(HRTokenColumn, req.token);
      if found.None? {
        return Fail(RequestNotFound);
      }
      var leaveReq := requests[found.value];
      leaveReq := leaveReq.(hrDecision := req.status);
      leaveReq := leaveReq.(hrApproved := req.status == StatusApproved);
      leaveReq := leaveReq.(mdEmail := req.mdEmail);
      if leaveReq.hrApproved {
        leaveReq := leaveReq.(status := StatusPendingMDApproval);
      } else {
        leaveReq := leaveReq.(status := StatusRejectedByHR);
      }
      leaveReq := leaveReq.(mdToken := newToken);
      if saveFails {
        return Fail(SaveAction);
      }
      Save(leaveReq, MDTokenColumn, newToken);
      outbox := outbox + [Notification(ApproveMDPage, leaveReq.mdEmail, leaveReq.form.staffName, leaveReq.mdToken)];
      resp := Ok(Forwarded);
    }

    /**
     * The MD's final decision, found by MD token: records the decision verbatim,
     * sets the terminal status ("Fully Approved" exactly when the decision is
     * "Approved"), issues the final archive token whatever the decision, and
     * notifies the HR address stored on the row.
     */
    method HandleMDAction(verb: string, body: Option<MDActionRequest>, newToken: string, saveFails: bool)
      returns (resp: Response)
      requires Valid() && FreshToken(newToken)
      modifies this`requests, this`outbox, this`issued
      ensures Valid()
      ensures verb != MethodPost ==> resp == Fail(MethodNotAllowed) && unchanged(this)
      ensures verb == MethodPost && body.None? ==> resp == Fail(InvalidJSON) && unchanged(this)
      ensures verb == MethodPost && body.Some? && old(Resolve(MDTokenColumn, body.value.token)).None? ==>
        resp == Fail(RequestNotFound) && unchanged(this)
      ensures verb == MethodPost && body.Some? && old(Resolve(MDTokenColumn, body.value.token)).Some? && saveFails ==>
        resp == Fail(FinalizeRequest) && unchanged(this)
      ensures verb == MethodPost && body.Some? && old(Resolve(MDTokenColumn, body.value.token)).Some? && !saveFails ==>
        var id := old(Resolve(MDTokenColumn, body.value.token)).value;
        var decision := body.value.status;
        var r := requests[id];
        && requests == old(requests)[id := r]
        && r == old(requests)[id].(mdDecision := decision, mdApproved := decision == StatusApproved,
                                   status := if decision == StatusApproved then StatusFullyApproved else StatusRejectedByMD,
                                   finalHRToken := newToken)
        && resp == Ok(Recorded(r.status))
        && outbox == old(outbox) + [Notification(FinalArchivePage, r.hrEmail, r.form.staffName, newToken)]
        && issued == old(issued) + {newToken}
    {
      if verb != MethodPost {
        return Fail(MethodNotAllowed);
      }
      if body.None? {
        return Fail(InvalidJSON);
      }
      var req := body.value;
      var found := Resolve(MDTokenColumn, req.token);
      if found.None? {
        return Fail(RequestNotFound);
      }
      var leaveReq := requests[found.value];
      leaveReq := leaveReq.(mdDecision := req.status);
      leaveReq := leaveReq.(mdApproved := req.status == StatusApproved);
      if leaveReq.mdApproved {
        leaveReq := leaveReq.(status := StatusFullyApproved);
      } else {
        leaveReq := leaveReq.(status := StatusRejectedByMD);
      }
      leaveReq := leaveReq.(finalHRToken := newToken);
      if saveFails {
        return Fail(FinalizeRequest);
      }
      Save(leaveReq, FinalHRTokenColumn, newToken);
      outbox := outbox + [Notification(FinalArchivePage, leaveReq.hrEmail, leaveReq.form.staffName, leaveReq.finalHRToken)];
      resp := Ok(Recorded(leaveReq.status));
    }
  }
}
