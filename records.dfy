/**
 * The leave-request row as the approval handlers read and write it, the status
 * labels they assign, the four stage-token columns, and the database's
 * "first row whose column equals the token" lookup.
 */
module Records {
  import opened Wrappers

  // Status labels of the workflow.
  const StatusPending := "Pending"
  const StatusApproved := "Approved"
  const StatusRejected := "Rejected"
  const StatusPendingMDReview := "Pending MD Review"
  const StatusPendingHRReview := "Pending HR Review"
  const StatusPendingMDApproval := "Pending MD Final Approval"
  const StatusRejectedByManager := "Rejected by Manager - Pending HR Filing"
  const StatusRejectedByHR := "Rejected by HR - Pending MD Review"
  const StatusRejectedByMD := "Rejected by MD"
  const StatusFullyApproved := "Fully Approved"

  /** The labels the handlers ever store in a row's status column. */
  const WorkflowStatuses: set<string> :=
    {StatusPending, StatusPendingHRReview, StatusRejectedByManager, StatusPendingMDApproval,
     StatusRejectedByHR, StatusFullyApproved, StatusRejectedByMD}

  /** The fields the staff member fills in; the handlers carry them verbatim. */
  datatype Application = Application(
    staffName: string, staffNo: string, designation: string, department: string,
    leaveType: string, startDate: string, resumptionDate: string,
    reliefStaff: string, contactAddress: string, managerEmail: string)

  /** One leave-request row. Strings the handlers have not assigned yet hold "". */
  datatype LeaveRequest = LeaveRequest(
    id: nat,
    form: Application,
    createdAt: int,
    status: string,
    managerDecision: string, managerApproved: bool, hrEmail: string,
    hrDecision: string, hrApproved: bool, mdEmail: string,
    mdDecision: string, mdApproved: bool,
    requestToken: string, hrToken: string, mdToken: string, finalHRToken: string)

  /** The columns request_token, hr_token, md_token and final_hr_token. */
  datatype Column = RequestTokenColumn | HRTokenColumn | MDTokenColumn | FinalHRTokenColumn

  function TokenAt(r: LeaveRequest, c: Column): string
  {
    match c
    case RequestTokenColumn => r.requestToken
    case HRTokenColumn => r.hrToken
    case MDTokenColumn => r.mdToken
    case FinalHRTokenColumn => r.finalHRToken
  }

  /** Every token the table holds belongs to `s`. */
  ghost predicate HeldWithin(m: map<nat, LeaveRequest>, s: set<string>)
  {
    forall id, c {:trigger TokenAt(m[id], c)} :: id in m && TokenAt(m[id], c) != "" ==> TokenAt(m[id], c) in s
  }

  /** No row holds `tok` in any column. */
  ghost predicate Absent(m: map<nat, LeaveRequest>, tok: string)
  {
    forall id, c {:trigger TokenAt(m[id], c)} :: id in m ==> TokenAt(m[id], c) != tok
  }

  /** No issued token appears twice, neither in two rows nor in two columns of one row. */
  ghost predicate TokensUnique(m: map<nat, LeaveRequest>)
  {
    forall i, c, j, d {:trigger TokenAt(m[i], c), TokenAt(m[j], d)} ::
      i in m && j in m && TokenAt(m[i], c) != "" && TokenAt(m[i], c) == TokenAt(m[j], d) ==>
        i == j && c == d
  }

  /**
   * The approval flags mirror the decisions by exact string equality with
   * "Approved", the status is one of the workflow labels, and the request token
   * has been issued.
   */
  ghost predicate Consistent(r: LeaveRequest)
  {
    && r.managerApproved == (r.managerDecision == StatusApproved)
    && r.hrApproved == (r.hrDecision == StatusApproved)
    && r.mdApproved == (r.mdDecision == StatusApproved)
    && r.status in WorkflowStatuses
    && r.requestToken != ""
  }

  /**
   * The status agrees with the stages: a pending row has no decision and no
   * later token, and every other label goes with the flag and the next-stage
   * token of the stage that wrote it.
   */
  ghost predicate StageAgrees(r: LeaveRequest)
  {
    && (r.status == StatusPending ==>
          && r.managerDecision == "" && r.hrDecision == "" && r.mdDecision == ""
          && r.hrToken == "" && r.mdToken == "" && r.finalHRToken == "")
    && (r.status == StatusPendingHRReview ==> r.managerApproved && r.hrToken != "")
    && (r.status == StatusRejectedByManager ==> !r.managerApproved && r.hrToken != "")
    && (r.status == StatusPendingMDApproval ==> r.hrApproved && r.mdToken != "")
    && (r.status == StatusRejectedByHR ==> !r.hrApproved && r.mdToken != "")
    && (r.status == StatusFullyApproved ==> r.mdApproved && r.finalHRToken != "")
    && (r.status == StatusRejectedByMD ==> !r.mdApproved && r.finalHRToken != "")
  }

  /** The table holds exactly the ids 1..lastId, each row under its own id. */
  ghost predicate Keyed(m: map<nat, LeaveRequest>, lastId: nat)
  {
    && (forall id :: id in m <==> 1 <= id <= lastId)
    && (forall id :: id in m ==> m[id].id == id)
  }

  /** The smallest id in from..to whose row holds exactly `token` in column `c`. */
  function FirstMatch(m: map<nat, LeaveRequest>, c: Column, token: string, from: nat, to: nat): (r: Option<nat>)
    decreases to - from
    ensures r.Some? ==> from <= r.value <= to && r.value in m && TokenAt(m[r.value], c) == token
    ensures r.Some? ==> forall j :: from <= j < r.value && j in m ==> TokenAt(m[j], c) != token
    ensures r.None? ==> forall j :: from <= j <= to && j in m ==> TokenAt(m[j], c) != token
  {
    if from > to then None
    else if from in m && TokenAt(m[from], c) == token then Some(from)
    else FirstMatch(m, c, token, from + 1, to)
  }

  /**
   * `Where("<column> = ?", token).First(...)`: the row with the smallest primary
   * key whose column equals `token` exactly, or nothing when no row does.
   */
  function Lookup(m: map<nat, LeaveRequest>, lastId: nat, c: Column, token: string): (r: Option<nat>)
    requires Keyed(m, lastId)
    ensures r.Some? ==> r.value in m && TokenAt(m[r.value], c) == token
    ensures r.Some? ==> forall j :: j in m && j < r.value ==> TokenAt(m[j], c) != token
    ensures r.None? <==> forall j :: j in m ==> TokenAt(m[j], c) != token
  {
    FirstMatch(m, c, token, 1, lastId)
  }

  /**
   * Writing a token no row holds into one column of an existing row, leaving its
   * other token columns alone, keeps every token unique.
   */
  lemma IssueKeepsUnique(m: map<nat, LeaveRequest>, id: nat, c: Column, tok: string, r: LeaveRequest)
    requires TokensUnique(m) && id in m
    requires tok != "" && Absent(m, tok)
    requires TokenAt(r, c) == tok
    requires forall d :: d != c ==> TokenAt(r, d) == TokenAt(m[id], d)
    ensures TokensUnique(m[id := r])
  {
  }

  /**
   * Inserting a new row whose only token is a request token no row holds keeps
   * every token unique.
   */
  lemma InsertKeepsUnique(m: map<nat, LeaveRequest>, id: nat, tok: string, r: LeaveRequest)
    requires TokensUnique(m) && id !in m
    requires tok != "" && Absent(m, tok)
    requires r.requestToken == tok && r.hrToken == "" && r.mdToken == "" && r.finalHRToken == ""
    ensures TokensUnique(m[id := r])
  {
  }

  /**
   * Under token uniqueness an issued token resolves through its own column, to
   * the row that holds it, and through no other column: an HR token is not found
   * by the manager's lookup, and so on.
   */
  lemma TokenResolvesOnlyThroughItsColumn(m: map<nat, LeaveRequest>, lastId: nat, i: nat, c: Column, d: Column)
    requires Keyed(m, lastId) && TokensUnique(m)
    requires i in m && TokenAt(m[i], c) != ""
    ensures Lookup(m, lastId, d, TokenAt(m[i], c)) == if d == c then Some(i) else None
  {
  }

  /**
   * The lookup is by literal equality, so the empty token finds a row whenever
   * some row's column is still unassigned: the lowest such id.
   */
  lemma EmptyTokenResolvesUnissued(m: map<nat, LeaveRequest>, lastId: nat, c: Column, i: nat)
    requires Keyed(m, lastId) && i in m && TokenAt(m[i], c) == ""
    ensures Lookup(m, lastId, c, "").Some?
    ensures Lookup(m, lastId, c, "").value <= i
    ensures TokenAt(m[Lookup(m, lastId, c, "").value], c) == ""
  {
  }

  /** Every row's request token is issued, so the empty token never resolves through request_token. */
  lemma EmptyRequestTokenNeverResolves(m: map<nat, LeaveRequest>, lastId: nat)
    requires Keyed(m, lastId)
    requires forall id :: id in m ==> Consistent(m[id])
    ensures Lookup(m, lastId, RequestTokenColumn, "") == None
  {
  }
}
