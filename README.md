# Leave-approval workflow, modelled in Dafny

PetroData's leave system routes a staff member's leave request through three
approvers in a fixed order: the line manager, HR and the managing director
(MD). Each stage is opened by its own access token. The token arrives in an
e-mail link, and the stage's action handler issues the next stage's token:

| stage | looked up by | records | issues | notifies |
|---|---|---|---|---|
| submit | — | the application, status `Pending`, all three approval flags false | `request_token` | the manager (`approve.html`) |
| manager action | `request_token` | `ManagerDecision`, `ManagerApproved`, `HREmail`, status | `hr_token` | HR (`approve_hr.html`) |
| HR action | `hr_token` | `HRDecision`, `HRApproved`, `MDEmail`, status | `md_token` | the MD (`approve_md.html`) |
| MD action | `md_token` | `MDDecision`, `MDApproved`, final status | `final_hr_token` | HR again (`final_archive.html`) |

Four read-only views return a whole row, one per token column.

The model is one class, `Handlers.LeaveSystem`. It owns the two database
tables: users keyed by e-mail, and leave requests keyed by id. It also owns
the outbox of notifications the handlers hand to the mailer. Each HTTP handler
is a method of that class, or a function when the handler only reads.

- `records.dfy` (module `Records`) holds the row shape, the status labels and
  the four token columns. It also holds the database lookup
  `Where("<column> = ?", token).First(...)`: the row with the smallest id whose
  column equals the token exactly. The module ends with the lemmas about token
  uniqueness and resolution.
- `handlers.dfy` (module `Handlers`) holds the error messages, the replies, the
  request bodies, and the `LeaveSystem` class with every handler.
- `scenarios.dfy` (module `Scenarios`) holds client runs of the workflow. Each
  is proved from the handlers' contracts and the token lemmas of `Records`.
- `wrappers.dfy` holds `Option`.

The class invariant `Valid()` says six things:
- the table holds exactly the ids `1..lastId`;
- every row's approval flags equal "its decision is exactly `Approved`";
- every row's status is one of the seven workflow labels, and its request token is set;
- every row's status agrees with its stages: a `Pending` row has no decision and no HR, MD or final token; `Pending HR Review` and `Rejected by Manager - Pending HR Filing` go with `ManagerApproved` true and false respectively and an HR token; the two HR labels likewise with `HRApproved` and an MD token; `Fully Approved` and `Rejected by MD` with `MDApproved` and a final archive token;
- no non-empty token appears twice anywhere in the table, and every stored token is in the ghost history `issued` of all tokens ever handed out;
- every user is stored under their own e-mail address.

Every state-changing handler preserves `Valid()`. The new token a handler
needs is supplied by the caller. It must be non-empty and absent from
`issued`, which is what a random UUID gives in practice. Token uniqueness is
then a proved invariant rather than an assumption. This depends on the
submission body being modelled as the application fields only. In the code,
`SubmitLeaveRequest` decodes the whole record (handlers.go:261-262) and then
resets only the request token, creation time, status and the three flags
(handlers.go:268-274). A body that carries another row's `hr_token`, or a
`manager_decision` of `Approved` next to a reset `ManagerApproved`, would be
stored as given. That would break token uniqueness, the flag/decision
agreement and the status/stage agreement of `Valid()`.

Behaviour of the code that the model keeps as written:
- **Actions skip the empty-token check.** The three action handlers never call
  `validateToken`. So an action whose token is `""` resolves to the
  lowest-id row whose column for that stage is still unassigned.
  `EmptyTokenScenario` shows an MD action with `""` taking a freshly submitted
  request straight to `Fully Approved`, with no manager or HR decision.
- **Decisions can be overwritten.** Re-running a stage's action with the same
  token replaces the decision and issues a new next-stage token. The old token
  then stops working (`ReissueScenario`). Decisions are therefore not
  write-once.
- **Submissions are not validated.** `SubmitLeaveRequest` checks nothing but
  the HTTP method and the JSON decoding: an empty staff name or manager e-mail
  is stored as given. The action handlers do not check for an empty HR or MD
  e-mail either.
- **Each action treats a rejection like an approval.** Status strings are
  compared by exact equality with `"Approved"`. Any other decision string,
  including a misspelling, counts as a rejection. The next-stage token is
  issued either way, so only the MD's decision is terminal.
- **The HR action's reply carries no status.** The manager and MD actions
  return the new status; the HR action returns only a message (`Forwarded`).

## Model

| member | source | states |
|---|---|---|
| `Records.FirstMatch` | pkg/handlers/handlers.go:448-452 | the result is the smallest id in the range whose column holds exactly the token; no result means no row in the range holds it |
| `Records.Lookup` | pkg/handlers/handlers.go:322-327 | `Where(col = token).First`: a found row holds the token in that column and every smaller id does not; nothing is found exactly when no row holds the token |
| `Records.IssueKeepsUnique` | pkg/handlers/handlers.go:466-470 | writing a token no row holds into one stage column of a row keeps every token in the table unique |
| `Records.InsertKeepsUnique` | pkg/handlers/handlers.go:268-283 | inserting a row whose only token is a new request token keeps every token unique |
| `Records.TokenResolvesOnlyThroughItsColumn` | pkg/handlers/handlers.go:312-411 | with unique tokens, an issued token resolves through its own column to the row that holds it, and through every other column to nothing (an HR token is not found by the manager's lookup) |
| `Records.EmptyTokenResolvesUnissued` | pkg/handlers/handlers.go:520-526 | because the lookup is literal, `""` finds a row whenever some row's column is still unassigned (the lowest such id) |
| `Records.EmptyRequestTokenNeverResolves` | pkg/handlers/handlers.go:446-452 | every row has a request token, so `""` never resolves through `request_token` |
| `Handlers.LeaveSystem.Signup` | pkg/handlers/handlers.go:146-196 | wrong method, undecodable body, existing e-mail (409), hash failure and insert failure each give their error and change nothing; otherwise exactly one user is added under the next id |
| `Handlers.LeaveSystem.Login` | pkg/handlers/handlers.go:206-239 | succeeds exactly when an account has the e-mail and the bcrypt comparison accepts the password, and returns that account's full name; every other decoded request gets "invalid email or password" |
| `Handlers.LeaveSystem.SubmitLeaveRequest` | pkg/handlers/handlers.go:256-299 | on success one new row with the application verbatim, status `Pending`, all flags false, the new request token and nothing else set; returns that token and status; queues the manager notification; the error paths change nothing |
| `Handlers.LeaveSystem.FetchBy` | pkg/handlers/handlers.go:113-129 | wrong method is rejected first, then an empty token ("token is required"); otherwise a row is returned exactly when some row holds the token in the given column, and the returned row is the stored row |
| `Handlers.LeaveSystem.GetLeaveRequestByToken` | pkg/handlers/handlers.go:312-330 | read-only; a method other than GET is rejected first, then an empty token ("token is required"); otherwise finds a row exactly when a row's `request_token` equals the token, and that row is returned, else "invalid or expired token" |
| `Handlers.LeaveSystem.GetLeaveRequestByHRToken` | pkg/handlers/handlers.go:339-357 | the same through `hr_token` only |
| `Handlers.LeaveSystem.GetLeaveRequestByMDToken` | pkg/handlers/handlers.go:366-384 | the same through `md_token` only |
| `Handlers.LeaveSystem.GetFinalArchiveDetails` | pkg/handlers/handlers.go:393-411 | the same through `final_hr_token` only |
| `Handlers.LeaveSystem.Save` | pkg/handlers/handlers.go:469-474 | writes back one row whose changed token column holds a fresh token; the invariant, token uniqueness included, still holds |
| `Handlers.LeaveSystem.HandleLineManagerAction` | pkg/handlers/handlers.go:434-489 | wrong method, bad JSON, unknown token ("request not found") or failed save change nothing; otherwise only the found row changes, and in it only the decision (verbatim), `ManagerApproved` (true iff the decision is exactly `Approved`), `HREmail`, the status (`Pending HR Review` / `Rejected by Manager - Pending HR Filing`) and a new HR token, issued either way; the reply is the new status and HR is notified |
| `Handlers.LeaveSystem.HandleHRManagerAction` | pkg/handlers/handlers.go:508-562 | the same through `hr_token`: only `HRDecision`, `HRApproved`, `MDEmail`, the status (`Pending MD Final Approval` / `Rejected by HR - Pending MD Review`) and a new MD token change; manager fields and the request token stay; the MD is notified |
| `Handlers.LeaveSystem.HandleMDAction` | pkg/handlers/handlers.go:581-635 | the same through `md_token`: only `MDDecision`, `MDApproved`, the status (`Fully Approved` iff the decision is exactly `Approved`, else `Rejected by MD`) and a new final archive token change; the archive link goes to the row's HR e-mail; a failed save answers "failed to finalize request" |
| `Scenarios.FullChain` | pkg/handlers/handlers.go:601-613 | submit, manager approves, HR rejects, MD approves: status `Fully Approved` despite HR's rejection; four distinct tokens, one per stage; the archive view shows every decision and e-mail |
| `Scenarios.EmptyTokenScenario` | pkg/handlers/handlers.go:593-599 | an MD action with token `""` finalizes a just-submitted request as `Fully Approved` with no manager or HR decision, while the MD view refuses `""` |
| `Scenarios.ReissueScenario` | pkg/handlers/handlers.go:446-467 | a second manager action with the same request token overwrites the decision and replaces the HR token; the first HR token then gets "invalid or expired token" |

## Left out

- HTTP plumbing is not modelled: request parsing, JSON encoding, status codes and the success message texts. A body that fails to decode is `None`. Outcomes are the `Response` datatype, and the message each `Handlers.Error` stands for is noted beside it.
- The HTTP method is a plain string parameter compared against `"GET"` and `"POST"`.
- GORM and PostgreSQL are replaced by maps inside the class. `First` is modelled as "smallest id whose column matches". A failed write is a boolean parameter. Read failures are not modelled: the code treats any error from `First` as "not found", and in `Signup` a failed existence check lets a duplicate e-mail through (handlers.go:160), which the e-mail-keyed map cannot hold. Id gaps left by a failed insert, which still uses up a serial id, are not modelled: ids are always `1..lastId`. Logging is not modelled.
- `uuid.New()` becomes a caller-supplied token that must be fresh. `time.Now()` becomes a `now` parameter.
- bcrypt is foreign code. Signup receives the hash result, with `None` meaning hashing failed. Login receives the comparison as a function.
- Notification delivery is out of scope: goroutines, SMTP, HTML templates (`pkg/service/emailer.go`) and the console mock (`pkg/emailer/emailer.go`). The outbox records only what each handler hands to the mailer: page, recipient, staff name and token. It does not model delivery failures or delivery order.
- Concurrency is not modelled. The handlers run one at a time, so the lost-update race between two concurrent actions on the same token is not represented. The same holds for two concurrent signups with the same e-mail.
- The request body of a submission is modelled as the application fields only. The JSON tags of the record struct that the handlers use are not part of this model, since `pkg/models/model.go` is an older revision without the token, e-mail and decision fields. A client that presets those columns through the body is therefore not captured. In the code such a body could store a token another row already holds, or a decision that disagrees with its reset flag, or a later-stage token on a `Pending` row, so token uniqueness, flag/decision agreement and the status/stage agreement hold in the model only. The total-days field is not in that struct and is not modelled.
- `main.go` is not modelled: routing, static files and shutdown. Neither is `pkg/database/database.go` (connection set-up) or the `ApprovalAction` struct, which no handler uses.
