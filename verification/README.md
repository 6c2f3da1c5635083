# VeriSettle: the money path, modelled and proved

VeriSettle reads an invoice, scores its risk, lets a model or a person approve it, and pays it through a double-entry
ledger, under a policy decision point, a kill switch and a hash-chained audit log. This project models that path and
proves what it keeps, over every input, every run and every interleaving.

| file | what it models |
|---|---|
| `Common.dfy` | optional values, sums over finite maps |
| `Ledger.dfy` | accounts, journal, validation, dry run and post, as a class and as functions |
| `AccountingRules.dfy` | the ledger's verdicts and movements by the rules of bookkeeping, kind by kind |
| `LedgerConcurrency.dfy` | many posts and dry runs, statement by statement, under READ COMMITTED with row and key locks |
| `CanonicalJson.dfy` | the canonical text of a JSON value and what it identifies (RFC 8259, sections 4, 5 and 7) |
| `CanonicalShape.dfy` | that text written out: literals, numbers, strings, arrays, objects |
| `AuditChain.dfy` | serial append and verification of the hash chain; tamper evidence |
| `AuditInterleaving.dfy` | appends that are not serialized |
| `Watchdog.dfy` | the watchdog that writes into the chain it checks |
| `AuditHistories.dfy` | histories in terms of the clock alone; what each tampering is reported as |
| `CedarPolicies.dfy` | the Cedar policies, the rounding of amounts, the capability manifests |
| `PolicyDecision.dfy` | the decision point: Cedar, rate limit over the decision log, kill switch, record; alone and overlapping |
| `ControlPlane.dfy` | the kill switch and the canary watermark |
| `VendorHistory.dfy` | vendor summary rows against itemized rows, and the name lookup |
| `InvoiceRun.dfy` | one run: the nodes, the routes, payment execution call by call |
| `PaymentSystem.dfy` | many runs over one ledger, one set of vendor books and one switch |
| `Approvals.dfy` | who decides a payment, and what the approval policies say of what is settled |
| `PipelineRefinement.dfy` | the pipeline over interleaved ledger sessions, refined to `PaymentSystem` |
| `AuditTrails.dfy` | what the trail in a run's state says about the run |

Money is in whole cents and time in whole seconds. A class holds what the program updates in place; each of its methods
is proved equal to a specification function, and the theorems are about those functions. Model answers, people's
decisions, lost replies and unreachable services are arbitrary parameters. The hash is an arbitrary function: a result
that needs it to be good ends in two exhibited texts with one hash, or an entry that hashes to the all-zero start value.

## What the code does that its documentation does not say

The model follows the code in each of these.

- **A lost race for a key is not reported as a duplicate.** `flush` stands outside the `try` in `post_transaction`
  (services/ledger/app/ledger.py:104, 110-114), so a key committed after the lookup surfaces as an unhandled integrity
  error (500), not as 409. `LedgerConcurrency.RaceCanBeLost` is a run where it happens; `RaceIsLostExactly` says that it
  happens if and only if the lookup found the key free and the flush, with every row granted, found it used;
  `UsedKeyAnswers` says what a used key is answered at each statement; `LoneKeyIsDuplicateExactly` says that a key no
  other post in flight shares is always answered as a duplicate when it is used.
- **A repeated (account, direction) pair under a new key is reported as a duplicate transaction.**
  `Ledger.DryRunPredictsPost` has the exact condition, `Ledger.RepeatedPairPassesDryRun` an input.
- **One account on both sides.** All balances are computed before any is written, and the last write wins
  (services/ledger/app/ledger.py:58-73, 106-108). `Ledger.PostKeepsCacheIff`: the cached balances stay equal to the
  journal if and only if no overwritten entry carries an amount; `Ledger.OverwrittenAmountIsAccepted` is an accepted
  transaction that does.
- **Lock order matters.** Payments take their rows in one order and never deadlock; two requests in opposite orders can
  (`LedgerConcurrency.OppositeOrdersDeadlock`).
- **The rate limit is three per window only when calls do not overlap.** With k in flight it is 2 + k, and that is
  reached (`PolicyDecision.WindowsAreBounded`, `PolicyDecision.BoundIsReached`).
- **Removing the newest audit rows is not reported.** What is left is a prefix, and every prefix verifies clean. The
  object key is not hashed either; only the object it points to is compared.
- **Cedar does not mirror the capability manifests on approvals.** policies/05 says the two agree; for `ApprovePayment`
  the policies look at the payment only. `CedarPolicies.CedarMirrorsManifests` gives the exact condition,
  `CedarPolicies.CedarIsWiderThanManifests` an agent and a payment.
- **A person's word passes over policies/01 and policies/02.** The prior approval count is never set
  (services/backend/app/schemas.py:44-59 has no such field), so a first-seen vendor is never paid without one. What a person
  approves goes straight to payment execution (services/backend/app/graph.py:46-51), where Cedar checks the ledger write
  and not the approval, so neither the authority tier above 5000 nor the dual approval of a first-seen vendor is ever
  asked for. `Approvals.OneWordSettlesWhatPolicyForbids` settles such payments for every vendor never seen and every
  amount; `ApprovedByPersonSettlesExactly` says that only the four conditions of the payment itself count;
  `SettledMeetsPolicyExactly` says which settled payments meet the policies.
- **The vendor lookup is not insensitive to all whitespace.** Python's strip drops every blank, the database's trim only
  spaces, so a vendor stored with a tab in front is never found (`VendorHistory.BlankInFrontHidesVendor`).
- **A high-risk invoice whose flag is refused** goes on to approval like any other
  (`Approvals.ScoringSendsToHumanExactly`).
- **Frozen tools do not stop an authorization of a payment**, since payments carry no tool name; only the read after
  the settlement hold looks at them (`PolicyDecision.AllowedExactly`, `PaymentSystem.TrippedRunNeverPays`).

## Model

| member | source | states |
|---|---|---|
| Ledger.LedgerService.constructor | services/ledger/app/models.py:64-87 | the ledger opens with the given accounts and an empty journal |
| Ledger.LedgerService.ValidateAndCompute | services/ledger/app/ledger.py:52-73 | the loop returns the first refusal in entry order, after the balance check, or every resulting balance |
| Ledger.LedgerService.DryRunEntries | services/ledger/app/ledger.py:76-89 | reports what validation says and leaves accounts and journal as they were |
| Ledger.LedgerService.PostTransaction | services/ledger/app/ledger.py:92-117 | key lookup, validation, then all writes or none; accounts, journal and answer together are those of the specification |
| Ledger.LedgerService.WriteBack | services/ledger/app/ledger.py:106-108 | balances are stored in entry order, each over what is there |
| Ledger.FirstFault | services/ledger/app/ledger.py:58-72 | the position found is refused and every earlier one accepted |
| Ledger.PostMovesCache | services/ledger/app/ledger.py:68-73 | an accepted post moves each account by its last entry only |
| Ledger.PostKeepsCacheIff | services/ledger/app/ledger.py:58-73 | on correct books, a post leaves every cached balance equal to opening balance plus journal if and only if no overwritten entry carries an amount |
| Ledger.OverwrittenAmountIsAccepted | services/ledger/app/ledger.py:58-73 | one account debited and credited five: accepted, and the cached balance leaves the journal behind |
| Ledger.WrittenNetPosition | services/ledger/app/ledger.py:10-15 | written entries move assets plus expenses minus the rest by debits minus credits |
| Ledger.WrittenSolvent | services/ledger/app/ledger.py:70-71 | no account that forbids it is left below zero |
| Ledger.PostKeepsBooks | services/ledger/app/ledger.py:92-117 | one call, accepted or not, keeps solvency, unique keys, balanced transactions, the net position and the cache |
| Ledger.BooksAfterAnyRun | services/ledger/app/ledger.py:92-117 | the same over any sequence of posts: cache equals journal, debits equal credits, the accounting equation keeps its opening value |
| Ledger.DryRunPredictsPost | services/ledger/app/ledger.py:76-114 | dry run and post agree exactly when the key is fresh and no (account, direction) pair repeats, and then on every resulting balance |
| Ledger.RepeatedPairPassesDryRun | services/ledger/app/models.py:92 | a request with a repeated pair passes the dry run and is refused as a duplicate though its key is new |
| AccountingRules.PostAnswersExactly | services/ledger/app/ledger.py:92-114 | the whole verdict, spelled out: accepted exactly for a new key, equal sides, existing accounts that stay covered, and no repeated pair; and which refusal comes first |
| AccountingRules.AcceptsIfAllowed | services/ledger/app/ledger.py:52-73 | validation accepts exactly balanced entries that are each allowed, and reports both sides when they differ |
| AccountingRules.RefusesAtFirst | services/ledger/app/ledger.py:58-72 | the first entry that is not allowed is the one reported, as missing account or with the balance it would leave |
| AccountingRules.PostMovesByKind | services/ledger/app/ledger.py:10-15 | an accepted post raises an account it names once exactly when an asset or expense is debited or a liability, equity or revenue account credited, and lowers it otherwise, by the amount |
| AccountingRules.PostSparesOthers | services/ledger/app/ledger.py:106-108 | an account that a post does not name keeps its balance |
| AccountingRules.EquationIsKept | services/ledger/app/ledger.py:10-15 | assets plus expenses less liabilities, equity and revenue keep their opening value over any run that overwrites no amount |
| LedgerConcurrency.ApplyKeepsInv | services/ledger/app/ledger.py:59-72 | every statement of every call keeps: under a held row lock the computed balance is the committed one plus the delta; a held key is unused |
| LedgerConcurrency.EndedAnswerIsSerial | services/ledger/app/ledger.py:92-117 | whatever ran beside it, a call's answer and effect are those of running alone when it ended, or one of the answers that a key used by then can get |
| LedgerConcurrency.UsedKeyAnswers | services/ledger/app/ledger.py:94-114 | a used key that ends a post is a duplicate exactly at the lookup, an integrity failure exactly at the flush, and in between the row's own refusal |
| LedgerConcurrency.RaceIsLostExactly | services/ledger/app/ledger.py:94-104 | over any run, a post is answered with an integrity failure if and only if its lookup found the key free and its flush, every row granted, found it used |
| LedgerConcurrency.RaceCanBeLost | services/ledger/app/ledger.py:94-104 | a run of two posts with one key in which the second loses the race |
| LedgerConcurrency.LoneKeyIsDuplicateExactly | services/ledger/app/ledger.py:94-114 | while no other post in flight has its key, a post never loses a race, and a key used at its last statement is always a duplicate |
| LedgerConcurrency.ApplyIsSerial | services/ledger/app/ledger.py:92-117 | a statement changes the tables only by one whole serial post |
| LedgerConcurrency.Serializable | services/ledger/app/ledger.py:52-117 | in every interleaving the committed state is that of the committed transactions run one at a time in commit order; none goes below zero, no key commits twice |
| LedgerConcurrency.WaitingRises | services/ledger/app/ledger.py:59-64 | with locks taken in one order, whoever is waited for waits for a higher row or for none |
| LedgerConcurrency.NoDeadlock | services/ledger/app/ledger.py:59-64 | with locks taken in one order, no chain of waits on rows or keys closes |
| LedgerConcurrency.OppositeOrdersDeadlock | services/ledger/app/ledger.py:59-64 | two requests that name two accounts in opposite orders reach a closed chain of waits |
| LedgerConcurrency.SchedulesAreBounded | services/ledger/app/ledger.py:92-117 | however calls are scheduled, the statements that run are bounded by the work they arrived with |
| LedgerConcurrency.SomeCallCanMove | services/ledger/app/ledger.py:59-64 | while a call is unfinished, some call is not waiting |
| LedgerConcurrency.AllCallsFinish | services/ledger/app/ledger.py:92-117 | any interleaving can be carried on until every call has finished |
| CanonicalJson.TextSplits | services/audit-log/app/main.py:94-95 | a canonical text followed by anything that may follow determines the value up to key order, and what follows |
| CanonicalJson.SortedInOrder | services/audit-log/app/main.py:95 | sorting by key puts the members in strictly increasing order |
| CanonicalJson.MeaningFixesText | services/audit-log/app/main.py:94-95 | values that are equal up to key order have one text |
| CanonicalJson.CanonicalIdentifies | services/audit-log/app/main.py:94-95 | two values have the same canonical text exactly when they are equal up to key order |
| CanonicalShape.Literals | services/audit-log/app/main.py:94-95 | null, true and false are written as RFC 8259 has them |
| CanonicalShape.NumberShape | services/audit-log/app/main.py:94-95 | an integer is its decimal digits, which are worth it, with no leading zero and a minus if negative |
| CanonicalShape.StringShape | services/audit-log/app/main.py:94-95 | a string is its characters, one by one, between quotes |
| CanonicalShape.CharacterShape | services/audit-log/app/main.py:94-95 | printable ASCII stands for itself, seven characters have a two-character escape, all others are hexadecimal groups worth the code point, in surrogate pairs beyond the first plane |
| CanonicalShape.ArrayShape | services/audit-log/app/main.py:95 | an array is its members' texts between brackets, with commas and no spaces |
| CanonicalShape.ObjectShape | services/audit-log/app/main.py:95 | an object is its fields, each once, between braces, in strictly rising order of their keys by code point |
| AuditChain.TextsIdentify | services/audit-log/app/main.py:109-117 | the hashed text identifies the hashed columns, the stored text the whole entry |
| AuditChain.HashedTextSays | services/audit-log/app/main.py:109-116 | the hash covers exactly the five members of the entry, by name |
| AuditChain.FullTextSays | services/audit-log/app/main.py:117-126 | the stored copy says the same five members and the hash |
| AuditChain.AuditLog.constructor | services/audit-log/app/main.py:65-82 | an empty table and an empty store |
| AuditChain.AuditLog.Append | services/audit-log/app/main.py:98-138 | object first, then a row with the event's own columns, the tail's hash before it, the digest of its text as its hash and its copy in the store; a repeated hash is refused and leaves the table as it was |
| AuditChain.AuditLog.ComputeBreaks | services/audit-log/app/main.py:141-191 | the loop over the carried previous hash reports, row by row, the first of hash, link and object that fails |
| AuditChain.BreaksReport | services/audit-log/app/main.py:141-191 | the reported ids are those of the broken rows, and an empty report means there are none |
| AuditChain.SerialHistoryIsHonest | services/audit-log/app/main.py:98-138 | serial appends that got through under distinct object keys form a linked, mirrored history |
| AuditChain.CleanIffPrefix | services/audit-log/app/main.py:141-191 | against an untouched store an arbitrary table verifies clean exactly when it is a prefix of what was appended, or else an appended entry hashes to the start value |
| AuditChain.HeadPinsHistory | services/audit-log/app/main.py:103-116 | even without the store, one last hash behind two linked tables means equal entries, or a collision or start-value entry is exhibited |
| AuditChain.AppendKeepsBreaks | services/audit-log/app/main.py:103-136 | a serial append under an unused object key, even on a broken chain, changes no verdict and is itself clean |
| AuditHistories.KeysDiffer | services/audit-log/app/main.py:108-118 | entries written at different times, written out at one length, have different object keys |
| AuditHistories.SerialAppendsAreClean | services/audit-log/app/main.py:98-138 | events appended one after the other, each at its own time, all get through in order and verify clean, or two different entries with one hash are exhibited |
| AuditHistories.AppendsAtNewTimesKeepBreaks | services/audit-log/app/main.py:103-136 | serial appends at new times change no verdict, whatever log they find |
| AuditChain.EditReported | services/audit-log/app/main.py:164-167 | editing a row without rehashing breaks exactly that row, or exhibits a collision |
| AuditChain.RehashedEditReported | services/audit-log/app/main.py:164-189 | editing and rehashing a row breaks exactly it and the next one, or exhibits a collision |
| AuditChain.DeletionReported | services/audit-log/app/main.py:168-170 | deleting a row that is not the last breaks exactly the one after it, unless an entry hashes to the start value |
| AuditHistories.EditIsHashMismatch | services/audit-log/app/main.py:164-167 | an edit without rehashing is reported once, as a hash mismatch, or a collision is exhibited |
| AuditHistories.RehashedEditShowsTwice | services/audit-log/app/main.py:164-189 | an edit with rehashing is reported for the row, by its stored copy or its link, and for the next row, by its link, or a collision is exhibited |
| AuditHistories.DeletionIsLinkMismatch | services/audit-log/app/main.py:168-170 | a row taken out is reported once, as a broken link of the next, unless an entry hashes to the start value |
| AuditHistories.ObjectTakenAway | services/audit-log/app/main.py:179-186 | an object taken away is reported once, as gone |
| AuditHistories.ObjectOverwritten | services/audit-log/app/main.py:174-178 | an object written over is reported once, as changed |
| AuditInterleaving.ApplyKeepsInv | services/audit-log/app/main.py:103-136 | in every interleaving each row is chained to the hash its append had read, and its object is stored |
| AuditInterleaving.StaleAppendsAreReported | services/audit-log/app/main.py:103-136 | untampered, with object keys distinct and no entry hashing to the start value, exactly the rows inserted behind a stale tail are reported, as broken links; the chain is clean exactly when appends were serial |
| AuditHistories.StaleAppendsAreReportedByTime | services/audit-log/app/main.py:103-136 | the same for appends that read the tail at different times, with no hypothesis on object keys |
| Watchdog.IntegrityWatchdog.RunTick | services/audit-log/app/main.py:203-226 | a tick sets the known ids to the broken ones found and appends to the same chain exactly a detected entry for each new id and a resolved entry for each recovered one, or breaks off at a refused append |
| Watchdog.IntegrityWatchdog.Write | services/audit-log/app/main.py:98-138 | one more event through the same append as any other |
| Watchdog.IntegrityWatchdog.ReportBroken | services/audit-log/app/main.py:216-221 | the entries appended are the detected entries of breaks found, one for each newly broken id, each with its id, reason and clock reading |
| Watchdog.IntegrityWatchdog.ReportRecovered | services/audit-log/app/main.py:222-226 | the entries appended are the resolved entries of the recovered ids, in the order walked |
| Watchdog.TickStaysFaithful | services/audit-log/app/main.py:208-226 | read off the entries this process has appended, detected and resolved alternate for every id after a tick, and known are exactly the ids whose last entry is detected |
| Watchdog.EveryRunIsFaithful | services/audit-log/app/main.py:203-226 | the same after any run of ticks, with any change to the log in between: appends, edits, deletions, repairs |
| Watchdog.ReportReadsBack | services/audit-log/app/main.py:216-226 | what a tick appends reads back, by source, type and entry id, as its detections and then its recoveries |
| Watchdog.EntriesSay | services/audit-log/app/main.py:216-226 | a detected entry says id, reason and time, a resolved one id and time |
| Watchdog.ReasonTextsDiffer | services/audit-log/app/main.py:166-186 | the four reasons are four texts |
| Watchdog.TickWritesFindings | services/audit-log/app/main.py:213-226 | a tick's findings are rows at the end of the chain it verified, and nothing else is |
| Watchdog.TableIsFaithful | services/audit-log/app/main.py:203-226 | in a table nobody tampers with meanwhile, the findings read off its rows alternate and tell which ids are known |
| Watchdog.QuietTick | services/audit-log/app/main.py:208-226 | after a tick and any serial appends under unused object keys, the next tick appends nothing and leaves known ids and log as they are |
| AuditHistories.QuietTickByTime | services/audit-log/app/main.py:208-226 | the same for appends at new times, with no hypothesis on object keys |
| CedarPolicies.RoundToDollars | services/policy-service/app/cedar_engine.py:33-37 | within half a dollar, ties to the even one |
| CedarPolicies.AgentApprovesExactly | policies/01-agent-approval-threshold.cedar:5-32 | an agent may approve exactly up to 5000.50, and no first-seen vendor with fewer than two approvals |
| CedarPolicies.UserApprovesExactly | policies/01-agent-approval-threshold.cedar:14-22 | a person may approve exactly above 5000.50 with tier two or more, and no first-seen vendor with fewer than two approvals |
| CedarPolicies.LedgerWriteExactly | policies/03-payment-execution-exclusive-ledger-write.cedar:6-22 | a ledger write is permitted exactly to agents of the write tier |
| CedarPolicies.FlaggingExactly | policies/05-flagging-and-documentation-actions.cedar:9-25 | flagging is permitted exactly to risk-scoring, approval and payment-execution, as their manifests list it |
| CedarPolicies.DocumentationExactly | policies/05-flagging-and-documentation-actions.cedar:27-43 | asking for documents is permitted exactly to extraction, risk-scoring and approval, as their manifests list it |
| CedarPolicies.VendorUpdateExactly | policies/05-flagging-and-documentation-actions.cedar:45-49 | updating a vendor is permitted exactly to approval, as its manifest lists it |
| CedarPolicies.ToolsExactly | policies/04-tool-allowlist.cedar:7-41 | which agent may invoke which tool, all of them and no other |
| CedarPolicies.NothingElsePermitted | policies/05-flagging-and-documentation-actions.cedar:9-49 | persons may only approve, and a tool may only be invoked or written to the ledger |
| CedarPolicies.CedarMirrorsManifests | services/backend/app/capability.py:18-29 | policies and manifests agree on every action on payments but approval, and on approval exactly when the payment is approvable just for the approval agent |
| CedarPolicies.CedarIsWiderThanManifests | policies/01-agent-approval-threshold.cedar:25-32 | the policies let the extraction agent approve a routine payment, its manifest does not |
| PolicyDecision.PolicyService.constructor | services/policy-service/app/temporal.py:28-46 | an empty decision log |
| PolicyDecision.PolicyService.CheckVendorRateLimit | services/policy-service/app/temporal.py:65-88 | refuses exactly when three or more logged positions are allowed approvals of payments to this named vendor in the last 24 hours, whatever their amounts |
| PolicyDecision.CountsArePositions | services/policy-service/app/temporal.py:74-82 | the counts are of exactly the positions with this action, vendor, verdict and time |
| PolicyDecision.RateLimitExactly | services/policy-service/app/temporal.py:65-88 | of the requests that Cedar permits, exactly approvals of a named vendor with three or more recent ones are refused by the limit |
| PolicyDecision.PolicyService.Authorize | services/policy-service/app/main.py:86-120 | Cedar, then the rate limit, then the kill switch decide, and one row with the decision is logged |
| PolicyDecision.AllowedExactly | services/policy-service/app/main.py:91-106 | allowed exactly when Cedar permits, the vendor is under its limit, and nothing readable is tripped for this principal or tool |
| PolicyDecision.DeniedExactly | services/policy-service/app/main.py:59-74 | which reason is given: exactly when each of the five refusals is the first that applies |
| PolicyDecision.ApprovalNeeds | services/policy-service/app/main.py:91-100 | whatever log and switch it finds, an agent's approval implies the amount and first-seen conditions |
| PolicyDecision.DecisionTableGrows | services/policy-service/app/temporal.py:49-62 | each recorded decision is one more row, with a rising id, of the table the canary check reads |
| PolicyDecision.CanaryRequestStopsAll | services/control-plane/app/main.py:168-186 | after a request that names the canary vendor, refused or not, and a tick, no request is allowed under the switch that is left |
| PolicyDecision.UninterruptedCallAuthorizes | services/policy-service/app/main.py:91-108 | check and record with nothing between them are one authorize |
| PolicyDecision.LoadIsBounded | services/policy-service/app/temporal.py:71-85 | approvals in a window plus the calls that can still land in it never exceed 2 + k |
| PolicyDecision.WindowsAreBounded | services/policy-service/app/temporal.py:65-88 | with at most k approvals of a vendor in flight, every closed 24-hour window holds at most 2 + k positions with its approvals |
| PolicyDecision.SerialWindowsKeepLimit | services/policy-service/app/temporal.py:65-88 | serial calls keep every window at three or fewer |
| PolicyDecision.BoundIsReached | services/policy-service/app/main.py:95-108 | for every k a run with at most k in flight reaches 2 + k in one window |
| ControlPlane.ControlPlaneService.constructor | services/control-plane/app/main.py:77-90 | starts all clear, the watermark at the highest id recorded |
| ControlPlane.ControlPlaneService.Status | services/control-plane/app/main.py:201-209 | reports all four scopes as they are |
| ControlPlane.ControlPlaneService.TripScope | services/control-plane/app/main.py:212-229 | sets the one scope and target named; unknown scopes are refused |
| ControlPlane.ControlPlaneService.ResetScope | services/control-plane/app/main.py:238-250 | clears the one scope and target named |
| ControlPlane.ControlPlaneService.CheckCanaryVendor | services/control-plane/app/main.py:168-186 | trips the global stop once for each canary row past the watermark, and moves the watermark to the last of them |
| ControlPlane.TripAndReset | services/control-plane/app/main.py:212-250 | a trip or reset touches its own target only, and a reset undoes a trip |
| ControlPlane.TickTripsPending | services/control-plane/app/main.py:168-186 | a tick trips exactly the canary rows past the watermark and leaves none |
| ControlPlane.TickStopsExactly | services/control-plane/app/main.py:168-186 | a tick stops everything exactly when something did before or a row past the watermark names the canary vendor, and touches no other scope |
| ControlPlane.RunInv | services/control-plane/app/main.py:168-186 | over any run of inserts, ticks, trips and resets, a due row has tripped once or is still pending, never both |
| ControlPlane.EachDueRowTripsOnce | services/control-plane/app/main.py:168-186 | after a tick the trips so far are exactly the due rows, each once |
| ControlPlane.InOrderRowsAreDue | services/control-plane/app/main.py:77-90 | with ids visible in order, the due rows are exactly the canary rows recorded since startup |
| ControlPlane.ResetLasts | services/control-plane/app/main.py:238-250 | a reset with nothing pending lasts until a new canary row or a trip by hand |
| VendorHistory.StoredAsAsked | services/ledger/app/main.py:157-164 | a name the service stores is found again under every spelling it came from |
| VendorHistory.LowerForgetsCase | services/ledger/app/main.py:108-111 | two names are equal in lower case exactly when they are equal letter by letter but for ASCII case |
| VendorHistory.AskedForgetsCaseAndBlanks | services/ledger/app/main.py:108-111 | a name is asked for the same in any case and with any spaces, tabs and line ends around it |
| VendorHistory.BlankInFrontHidesVendor | services/ledger/app/main.py:108-111 | a vendor stored with a blank other than a space in front is found under no name |
| VendorHistory.VendorBook.constructor | services/ledger/app/models.py:15-48 | the books start as the two tables given |
| VendorHistory.VendorBook.LookupVendor | services/ledger/app/main.py:100-135 | unknown, known with its count, or failing when several vendors share the name |
| VendorHistory.VendorBook.RecordVendorPayment | services/ledger/app/main.py:144-195 | both tables change together, or neither when the award id is taken |
| VendorHistory.RecordCreditsVendorAsked | services/ledger/app/main.py:157-189 | an accepted call adds one item under the vendor stored by the name asked for, moves that vendor's row alone by the amount and by one, and makes a new row exactly for a name nobody had |
| VendorHistory.RecordKeepsConsistent | services/ledger/app/main.py:157-189 | one call keeps totals and counts equal to the items, names and award ids distinct |
| VendorHistory.LookupTellsTheTruth | services/ledger/app/main.py:108-135 | the lookup says known exactly when such a vendor exists, and gives the number of its items |
| VendorHistory.RecordMakesKnown | services/ledger/app/main.py:157-189 | only a used award id is refused; an accepted payment makes its vendor known and no vendor is forgotten |
| VendorHistory.RepeatIsRejected | services/ledger/app/models.py:43 | the same key again changes neither table, whatever else the call says |
| VendorHistory.AnyRunStaysConsistent | services/ledger/app/main.py:144-195 | all of this after any sequence of calls, refused ones included |
| InvoiceRun.InvoiceRunner.constructor | services/backend/app/main.py:51-70 | a run starts submitted, with nothing a caller could assert about the vendor |
| InvoiceRun.InvoiceRunner.RunExtraction | services/backend/app/nodes/extraction.py:57-99 | the run ends exactly when the content is flagged, with nothing read off it; otherwise the amount and vendor of all later steps are those extracted, a missing total nothing and a missing or empty vendor none |
| InvoiceRun.InvoiceRunner.Ask | services/backend/app/policy_client.py:14-30 | granted exactly when the decision point is reached, allows, and its answer comes back; one row is logged whenever it is reached |
| InvoiceRun.InvoiceRunner.LookUp | services/backend/app/vendor_lookup.py:17-32 | known exactly when the vendor has a name, can be looked up and is listed |
| InvoiceRun.InvoiceRunner.RunRiskScoring | services/backend/app/nodes/risk_scoring.py:32-100 | against real books a vendor counts as known exactly when it can be looked up and the books list it, whatever the model says; a person is asked exactly for high risk with the flag taken by the decision point |
| InvoiceRun.InvoiceRunner.RunApproval | services/backend/app/nodes/approval.py:28-108 | against the real decision point a payment goes on exactly when the model is confident, the critic agrees, the amount is at most 5000.50, the vendor is known, fewer than three of its approvals are recent and nothing is tripped; it ends exactly on a confident rejection |
| InvoiceRun.InvoiceRunner.Review | services/backend/app/graph.py:14-51 | exactly the word "approve" leads to payment, every other word ends the run rejected, and the word is on the trail |
| InvoiceRun.InvoiceRunner.Authorize | services/backend/app/nodes/payment_execution.py:25-42 | against the real decision point payment execution goes on exactly when an answer comes back and neither the global stop nor its own pause is read; amount, vendor and approver make no difference |
| InvoiceRun.InvoiceRunner.DryRun | services/backend/app/nodes/payment_execution.py:44-58 | an invalid dry run blocks the run, a valid one starts the hold |
| InvoiceRun.InvoiceRunner.ReadStatus | services/backend/app/nodes/payment_execution.py:61-73 | the run goes on exactly when the switch cannot be read or none of the four scopes that concern it is tripped |
| InvoiceRun.InvoiceRunner.CommitPayment | services/backend/app/nodes/payment_execution.py:82-91 | the ledger gains exactly this payment, with its key, payee, payer and two entries, and the run its id, or neither changes; the run ends as a duplicate exactly when its key is used |
| InvoiceRun.InvoiceRunner.RecordPayment | services/backend/app/nodes/payment_execution.py:93-107 | settles whatever becomes of the vendor record; in consistent books the vendor that the invoice names, or "unknown", gains the item and is known, unless this invoice is itemized already |
| InvoiceRun.InvoiceRunner.RunPaymentExecution | services/backend/app/nodes/payment_execution.py:18-107 | the node as a whole against real ledger, books, switch and decision point: it settles exactly when the ledger gains this payment's transaction, then credits the vendor the invoice names, and otherwise ledger and books are as before |
| InvoiceRun.FlagAllowedExactly | services/backend/app/nodes/risk_scoring.py:83-92 | the decision point takes a flag exactly when neither a global stop nor a pause of the agent is read |
| InvoiceRun.ApprovalAllowedExactly | services/backend/app/nodes/approval.py:87-98 | the decision point lets an approval through exactly under the conditions on amount, vendor, recent approvals and switch |
| InvoiceRun.PaymentAllowedExactly | services/backend/app/nodes/payment_execution.py:35-37 | the decision point refuses a ledger write exactly when it reads a global stop or a pause of the agent |
| InvoiceRun.RequestsTellTheRun | services/backend/app/nodes/payment_execution.py:26-34 | every request names this invoice, its amount, its vendor and no prior approvals, from the agent with its tier |
| InvoiceRun.PaymentPosts | services/ledger/app/main.py:204-211 | a payment's post adds its one transaction at the end of the journal or changes nothing, and is a conflict exactly when its key is used |
| PaymentSystem.JudgementIsGood | services/backend/app/nodes/approval.py:48-108 | whatever the decision point finds, what approval lets through has passed every machine gate |
| PaymentSystem.MovesVouch | services/backend/app/nodes/risk_scoring.py:48-52 | a vendor scored as known is one the ledger lists, in every later state |
| PaymentSystem.CommittingKeepsLedgerInv | services/backend/app/nodes/payment_execution.py:82-91 | a commit, also one whose answer is lost, keeps every transaction tied to the one run that made it |
| PaymentSystem.EveryWorldIsSound | services/backend/app/graph.py:54-80 | every world that interleaved runs, trips and lost replies can reach satisfies the invariant |
| PaymentSystem.SettledPaidOnce | services/ledger/app/ledger.py:94-114 | a settled run made the transaction it names, the only one with its key, and no other run of its invoice is settled |
| PaymentSystem.KeyUsedIsPaidBefore | services/backend/app/nodes/payment_execution.py:44 | in every reachable world a key is used exactly when a run of its own invoice has made a transaction |
| Approvals.UnattendedPaymentPassedEveryGate | services/backend/app/graph.py:32-68 | settled with no person's approval implies auto-approve, confidence of 0.75 or more, an agreeing critic, at most 5000.50, and a vendor the ledger listed when the run was scored, before the run had made any transaction |
| Approvals.KnownWhenScored | services/backend/app/nodes/risk_scoring.py:48-79 | a run that carries a known vendor was scored, with the same invoice, against books that listed the vendor and before it had made a transaction |
| Approvals.ApprovedByPersonSettlesExactly | services/backend/app/graph.py:46-51 | from any reachable review, after "approve" an uninterrupted payment settles exactly under the four conditions of the payment, whatever amount, vendor or approver |
| Approvals.OneWordSettlesWhatPolicyForbids | services/backend/app/graph.py:46-51 | for every vendor never seen and every amount above 5000.50 within the cash, a run that one word settles and that neither an agent nor any person was permitted to approve |
| Approvals.SettledMeetsPolicyExactly | policies/02-first-seen-vendor-dual-approval.cedar:9-17 | a settled payment meets the policies on agents exactly when no person decided it or it was approvable anyway, and those on persons exactly by amount, tier and known vendor |
| PaymentSystem.MoneyIsConserved | services/ledger/app/main.py:47-57 | in every reachable world opening cash minus cash equals vendor expense equals the invoices committed, each by its own run; cash is never negative; the accounts keep their kinds |
| PaymentSystem.HistoryMatchesLedger | services/ledger/app/main.py:177-189 | every history row written by a payment itemizes exactly one transaction, with its key and amount, under the vendor that the run which made it paid, and no transaction has two rows |
| PaymentSystem.TrippedRunNeverPays | services/backend/app/nodes/payment_execution.py:61-73 | if a scope that concerns it is tripped when the switch is read after the hold, a run never changes the ledger, whatever follows; it goes on to commit exactly otherwise |
| PaymentSystem.StoppedRunNeverPays | services/backend/app/graph.py:32-51 | flagged content, a confident rejection, or any word of a person but "approve" ends a run for good: it never makes a transaction, whatever follows |
| PaymentSystem.HaltedStandsStill | services/backend/app/main.py:51-58 | a halted session that can be read is neither started nor resumed |
| PaymentSystem.TripFreezes | services/control-plane/app/main.py:212-229 | a trip freezes a payment exactly when its scope and target concern that payment |
| PaymentSystem.EveryEndIsADelivery | services/ledger/app/main.py:204-211 | every end of a post that ran among others, heard or not, is one of the ways a commit can end here: the same ledger, reply and world |
| PipelineRefinement.PipelineRefinesPayments | services/backend/app/nodes/payment_execution.py:51-91 | every run of the pipeline over ledger sessions that interleave statement by statement, die or go unheard is a run of the payment system with the same runs, replies and journal |
| PipelineRefinement.InterleavedMoneyIsConserved | services/ledger/app/ledger.py:52-117 | money is conserved in the committed tables of every such interleaving |
| PipelineRefinement.InterleavedSettledPaidOnce | services/ledger/app/ledger.py:94-114 | in every such interleaving a settled run made the one transaction with its key |
| PaymentSystem.PaymentsNeverDeadlock | services/backend/app/nodes/payment_execution.py:44-48 | concurrent payments close no chain of waits and can always be carried on to the end |
| PaymentSystem.PaymentIsJudgedByCash | services/ledger/app/ledger.py:52-114 | for a payment the dry run is valid exactly when cash suffices, and the post is a conflict exactly when its key is used |
| PaymentSystem.UninterruptedPaymentIsPaid | services/backend/app/nodes/payment_execution.py:18-107 | the five steps with nothing between them are the node run as a whole |
| PaymentSystem.PaymentSettlesExactly | services/backend/app/nodes/payment_execution.py:18-107 | in every reachable world an uninterrupted payment settles exactly when it is let through, cash suffices, nothing is tripped after the hold and no run of the invoice has paid; then ledger and vendor gain it, otherwise nothing changes |
| Approvals.ScoringSendsToHumanExactly | services/backend/app/nodes/risk_scoring.py:83-100 | scoring asks for a person exactly for high risk with the flag taken |
| Approvals.ApprovalPassesExactly | services/backend/app/nodes/approval.py:48-108 | approval pays, rejects, or asks a person, each under exactly its condition on model, critic, amount, vendor, log and switch |
| AuditTrails.EveryTrailIsTruthful | services/backend/app/nodes/payment_execution.py:58-106 | in every reachable world a settled run's trail ends with its dry run, hold, cleared switch, own commit and vendor record, and shows exactly who decided |

## Left out

- Ledger: amounts are whole cents; `Numeric(18,2)` rounds longer decimals on storage, and that rounding is not modelled.
- Ledger: deadlock detection appears only as the death of a session, which any call may suffer at any time.
- LedgerConcurrency: READ COMMITTED is modelled by its effect on these statements: granted row locks read committed
  balances, and an insert of a key waits for another holder of it.
- AuditChain: payloads are null, booleans, integers, strings, arrays and objects; floats, values outside JSON and the
  number normalization of JSONB are not covered. Object-store failures other than a missing object end a check.
- AuditInterleaving: ids become visible in the order in which rows are inserted.
- Watchdog: one process lifetime; a tick whose append is refused breaks off with the known ids already replaced, so its
  missing findings are never written, and `Watchdog.EveryRunIsFaithful` speaks of ticks whose appends get through.
- CedarPolicies: Cedar is taken as "some permit matches and no forbid does"; parsing, the schema and requests that lack
  an attribute are not modelled, nor is the float behind an amount.
- PolicyDecision: a call is recorded no earlier than the time it looked back from; clocks are not compared otherwise.
- ControlPlane: heartbeats, stalled threads and repeated denials; restarts other than the first start.
- StoredAsAsked: covers lower-casing of ASCII letters, because Python and the database's locale may fold others differently.
- LookupVendor: leaves out the first-seen date, the recent amounts and their average, which only the risk prompt reads.
- VendorHistory: concurrent calls of `record_vendor_payment`, which reads and writes without a row lock; dates; the data
  loader, so books start consistent.
- InvoiceRun: prompts, model clients, guardrail, redaction, tracing, heartbeats and credentials; an exception before the
  commit is a run that takes no further step.
- PaymentSystem: graph checkpoints and interrupt replay; each run starts fresh, and a router's assignment is kept. A
  post is one step, which `PipelineRefinement.PipelineRefinesPayments` justifies.
- PipelineRefinement: a run whose call has timed out keeps waiting until its session has ended; it does nothing meanwhile.
- LedgerConcurrency: a transaction's id is its position in commit order; the database hands ids out at the flush, and
  nothing uses more of them than that they differ.
- PaymentSystem: ledger clients other than the pipeline.
- The sandbox runner, OCR, evaluation gate, provisioning, console and deployment files.
