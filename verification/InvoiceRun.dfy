/**
 One invoice's run through the pipeline: extraction, risk scoring, approval, human
 review and payment, with the routes between them. What the models, the policy
 decision point and the kill switch answer are parameters. Money is in whole cents.
 */
module InvoiceRun {
  import opened Common
  import CedarPolicies
  import ControlPlane
  import Ledger
  import PolicyDecision
  import VendorHistory

  // ------------------------------------------------------------------- the state

  datatype Invoice = Invoice(vendor: Option<string>, total: Option<int>)
  datatype RiskLevel = Low | Medium | High
  datatype RiskScore = RiskScore(level: RiskLevel, vendorFirstSeen: bool)
  datatype Decision = AutoApprove | EscalateToHuman | Reject
  datatype Approval = Approval(decision: Decision, confidence: real)
  datatype Payment = Settled(transaction: nat) | Blocked(reason: Reason)
  datatype Reason = PolicyDenied | DryRunFailed | KillSwitch | Duplicate

  datatype TaskState =
    | TaskSubmitted | TaskExtracted | TaskFailed | TaskRiskScored | TaskPendingHuman
    | TaskApproved | TaskRejected | TaskBlocked | TaskSettled

  // Where the run goes on. Payment execution is one node with several calls out
  // of it, so it has a place before each of them. A run that raised goes nowhere.
  datatype Place =
    | AtExtraction | AtRiskScoring | AtApproval | AtHumanReview
    | AtPayment | AtDryRun | AtHold | AtCommit | AtVendorRecord(transaction: nat)
    | Ended | Raised

  datatype AuditStep =
    | GuardrailCheck(safe: bool) | PiiScan | ExtractionBlocked | Extraction(invoice: Invoice)
    | VendorLookup(known: bool) | RiskScoring(score: RiskScore) | FlagForReview | FlagDenied
    | ApprovalDecision(approval: Approval) | LowConfidence | CriticReview(agrees: bool) | CriticDisagreed | ApprovalDenied
    | HumanDecision(decision: string)
    | PaymentDenied | LedgerDryRun(valid: bool) | HoldStart | HoldBlocked | HoldCleared
    | LedgerCommit(transaction: nat) | CommitDuplicate | VendorRecorded | VendorRecordFailed

  datatype Run = Run(
    invoiceId: string,
    place: Place,
    taskState: TaskState,
    invoice: Option<Invoice>,
    risk: Option<RiskScore>,
    approval: Option<Approval>,
    criticAgrees: Option<bool>,
    requiresHuman: bool,
    humanDecision: Option<string>,
    payment: Option<Payment>,
    trail: seq<AuditStep>)

  function Submitted(invoiceId: string): Run {
    Run(invoiceId, AtExtraction, TaskSubmitted, None, None, None, None, false, None, None, [])
  }

  const CONFIDENCE_THRESHOLD: real := 0.75

  // A missing total counts as nothing, a missing or empty vendor as "unknown".
  function Amount(r: Run): int {
    if r.invoice.Some? && r.invoice.value.total.Some? then r.invoice.value.total.value else 0
  }

  predicate HasVendor(r: Run) {
    r.invoice.Some? && r.invoice.value.vendor.Some? && r.invoice.value.vendor.value != ""
  }

  function VendorName(r: Run): string {
    if HasVendor(r) then r.invoice.value.vendor.value else "unknown"
  }

  // -------------------------------------------------------------------- the routes

  function AfterExtraction(r: Run): Place { if r.taskState.TaskFailed? then Ended else AtRiskScoring }

  function AfterRisk(r: Run): Place { if r.requiresHuman then AtHumanReview else AtApproval }

  function AfterApproval(r: Run): Place {
    if r.taskState.TaskRejected? then Ended else if r.requiresHuman then AtHumanReview else AtPayment
  }

  // --------------------------------------------------------------------- the nodes

  function Extracted(r: Run, safe: bool, invoice: Invoice): Run {
    var trail := r.trail + [GuardrailCheck(safe), PiiScan];
    var after :=
      if safe then r.(invoice := Some(invoice), taskState := TaskExtracted, trail := trail + [Extraction(invoice)])
      else r.(taskState := TaskFailed, requiresHuman := true, trail := trail + [ExtractionBlocked]);
    after.(place := AfterExtraction(after))
  }

  // A high risk asks for a person, if the decision point takes the flag.
  function Flagged(r: Run, high: bool, flagAllowed: bool): Run {
    if !high then r
    else if flagAllowed then r.(requiresHuman := true, trail := r.trail + [FlagForReview])
    else r.(trail := r.trail + [FlagDenied])
  }

  // What the model says about the vendor is replaced by what the ledger says.
  function Scored(r: Run, known: bool, score: RiskScore, flagAllowed: bool): Run {
    var own := score.(vendorFirstSeen := !known);
    var scored := r.(risk := Some(own), trail := r.trail + [VendorLookup(known), RiskScoring(own)]);
    var after := Flagged(scored, own.level.High?, flagAllowed).(taskState := TaskRiskScored);
    after.(place := AfterRisk(after))
  }

  // The gates a confident auto-approval still has to pass.
  function Countersigned(r: Run, approval: Approval, criticAgrees: bool, authorized: bool): Run {
    if !criticAgrees then
      r.(requiresHuman := true, approval := Some(approval), criticAgrees := Some(false), taskState := TaskPendingHuman,
         trail := r.trail + [CriticReview(false), CriticDisagreed])
    else if !authorized then
      r.(requiresHuman := true, taskState := TaskPendingHuman, trail := r.trail + [CriticReview(true), ApprovalDenied])
    else
      r.(approval := Some(approval), criticAgrees := Some(true), taskState := TaskApproved, trail := r.trail + [CriticReview(true)])
  }

  function Judged(r: Run, approval: Approval, criticAgrees: bool, authorized: bool): Run {
    var judged := r.(trail := r.trail + [ApprovalDecision(approval)]);
    var after :=
      if approval.confidence < CONFIDENCE_THRESHOLD then
        judged.(requiresHuman := true, approval := Some(approval), taskState := TaskPendingHuman, trail := judged.trail + [LowConfidence])
      else if !approval.decision.AutoApprove? then
        var escalate := approval.decision.EscalateToHuman?;
        judged.(requiresHuman := escalate, approval := Some(approval),
                taskState := if escalate then TaskPendingHuman else TaskRejected)
      else Countersigned(judged, approval, criticAgrees, authorized);
    after.(place := AfterApproval(after))
  }

  function Reviewed(r: Run, decision: string): Run {
    var after := r.(humanDecision := Some(decision), trail := r.trail + [HumanDecision(decision)]);
    if decision == "approve" then after.(taskState := TaskApproved, place := AtPayment)
    else after.(taskState := TaskRejected, place := Ended)
  }

  // ----------------------------------------------------- payment, call by call

  function Blocking(r: Run, reason: Reason, step: AuditStep): Run {
    r.(payment := Some(Blocked(reason)), taskState := TaskBlocked, place := Ended, trail := r.trail + [step])
  }

  function Authorized(r: Run, allowed: bool): Run {
    if allowed then r.(place := AtDryRun) else Blocking(r, PolicyDenied, PaymentDenied)
  }

  function DryRan(r: Run, valid: bool): Run {
    if valid then r.(place := AtHold, trail := r.trail + [LedgerDryRun(true), HoldStart])
    else Blocking(r, DryRunFailed, LedgerDryRun(false))
  }

  // Any of the four scopes that concern this payment.
  predicate Frozen(sw: ControlPlane.Switch, invoiceId: string) {
    || sw.globalStop || "payment-execution" in sw.pausedAgents
    || invoiceId in sw.haltedSessions || "create-ledger-entry" in sw.frozenTools
  }

  // The switch as read after the hold; a switch that cannot be read is clear.
  function StatusRead(r: Run, status: Option<ControlPlane.Switch>): Run {
    var sw := if status.Some? then status.value else ControlPlane.AllClear;
    if Frozen(sw, r.invoiceId) then Blocking(r, KillSwitch, HoldBlocked)
    else r.(place := AtCommit, trail := r.trail + [HoldCleared])
  }

  // What the ledger's HTTP layer makes of a post: 200, 409, or any other failure.
  datatype Reply = Created(transaction: nat) | Conflict | Failure

  function ReplyTo(result: Ledger.Result<nat>): Reply {
    match result
    case Ok(id) => Created(id)
    case Err(DuplicateTransaction(_)) => Conflict
    case Err(_) => Failure
  }

  function Committed(r: Run, reply: Reply): Run {
    match reply
    case Created(id) => r.(place := AtVendorRecord(id), trail := r.trail + [LedgerCommit(id)])
    case Conflict => Blocking(r, Duplicate, CommitDuplicate)
    case Failure => r.(place := Raised)
  }

  function Finished(r: Run, recorded: bool): Run
    requires r.place.AtVendorRecord?
  {
    r.(payment := Some(Settled(r.place.transaction)), taskState := TaskSettled, place := Ended,
       trail := r.trail + [if recorded then VendorRecorded else VendorRecordFailed])
  }

  // ------------------------------------------------------- what is sent to whom

  function PaymentKey(invoiceId: string): string { "invoice-" + invoiceId }

  function PaymentEntries(amount: int): seq<Ledger.EntryRequest> {
    [Ledger.EntryRequest("vendor-expense", Ledger.Debit, amount), Ledger.EntryRequest("operating-cash", Ledger.Credit, amount)]
  }

  function PaymentTransaction(r: Run): Ledger.Transaction {
    Ledger.Transaction(PaymentKey(r.invoiceId), "Payment to " + VendorName(r), "payment-execution", PaymentEntries(Amount(r)))
  }

  function VendorCall(r: Run): VendorHistory.Call {
    VendorHistory.Call(VendorName(r), Amount(r), PaymentKey(r.invoiceId))
  }

  // The prior approval count is never set, so policies always see none.
  function PaymentResource(r: Run): CedarPolicies.Resource {
    CedarPolicies.Payment(r.invoiceId, Amount(r), r.risk.Some? && r.risk.value.vendorFirstSeen, Some(VendorName(r)), 0)
  }

  function FlagRequest(r: Run, known: bool): CedarPolicies.Request {
    CedarPolicies.Request(CedarPolicies.Agent("risk-scoring", "read-and-flag"), CedarPolicies.FlagForReview,
                          CedarPolicies.Payment(r.invoiceId, Amount(r), !known, Some(VendorName(r)), 0))
  }

  function ApprovalRequest(r: Run): CedarPolicies.Request {
    CedarPolicies.Request(CedarPolicies.Agent("approval", "read-and-flag"), CedarPolicies.ApprovePayment, PaymentResource(r))
  }

  function PaymentRequest(r: Run): CedarPolicies.Request {
    CedarPolicies.Request(CedarPolicies.Agent("payment-execution", "write-ledger"), CedarPolicies.CreateLedgerEntry, PaymentResource(r))
  }

  // ------------------------------------------------------ what the requests meet

  predicate SwitchLets(status: Option<ControlPlane.Switch>, agent: string) {
    status.Some? ==> !status.value.globalStop && agent !in status.value.pausedAgents
  }

  // Flagging is always permitted to the scoring agent, and never rate limited.
  lemma FlagAllowedExactly(log: seq<PolicyDecision.Row>, r: Run, known: bool, at: int, status: Option<ControlPlane.Switch>)
    ensures PolicyDecision.Decided(log, FlagRequest(r, known), at, status) == PolicyDecision.Allow <==> SwitchLets(status, "risk-scoring")
  {
    CedarPolicies.FlaggingExactly(FlagRequest(r, known));
    PolicyDecision.AllowedExactly(log, FlagRequest(r, known), at, status);
    hide PolicyDecision.Decided, CedarPolicies.Permitted;
  }

  lemma ApprovalAllowedExactly(log: seq<PolicyDecision.Row>, r: Run, at: int, status: Option<ControlPlane.Switch>)
    ensures PolicyDecision.Decided(log, ApprovalRequest(r), at, status) == PolicyDecision.Allow <==>
            && Amount(r) <= 500050 && !(r.risk.Some? && r.risk.value.vendorFirstSeen) && SwitchLets(status, "approval")
            && PolicyDecision.CountSince(log, VendorName(r), at - 24 * 3600) < 3
  {
    CedarPolicies.AgentApprovesExactly(ApprovalRequest(r));
    PolicyDecision.AllowedExactly(log, ApprovalRequest(r), at, status);
    hide PolicyDecision.Decided, CedarPolicies.Permitted, PolicyDecision.CountSince;
  }

  // Only the kill switch keeps payment execution from the ledger: Cedar always
  // permits it, and the rate limit does not concern it.
  lemma PaymentAllowedExactly(log: seq<PolicyDecision.Row>, r: Run, at: int, status: Option<ControlPlane.Switch>)
    ensures PolicyDecision.Decided(log, PaymentRequest(r), at, status) == PolicyDecision.Allow <==> SwitchLets(status, "payment-execution")
  {
    CedarPolicies.LedgerWriteExactly(PaymentRequest(r));
    PolicyDecision.AllowedExactly(log, PaymentRequest(r), at, status);
    hide PolicyDecision.Decided, CedarPolicies.Permitted;
  }

  lemma PaymentEntriesAreSimple(amount: int)
    ensures Ledger.ShadowFree(PaymentEntries(amount)) && !Ledger.RepeatsPair(PaymentEntries(amount))
  {
    assert "vendor-expense"[0] != "operating-cash"[0];
  }

  lemma ValidationNeverSaysDuplicate(accounts: map<string, Ledger.Account>, entries: seq<Ledger.EntryRequest>)
    ensures Ledger.Validate(accounts, entries).Err? ==> !Ledger.Validate(accounts, entries).error.DuplicateTransaction?
  {}

  // What becomes of a payment's post: a new transaction at the end of the journal,
  // a conflict exactly when its key is used, and nothing changed otherwise.
  lemma PaymentPosts(t: Ledger.Tables, r: Run)
    ensures var (t', result) := Ledger.Post(t, PaymentTransaction(r));
            && (result.Ok? ==> t'.journal == t.journal + [PaymentTransaction(r)] && result.value == |t.journal|)
            && (result.Err? ==> t' == t)
            && (ReplyTo(result).Conflict? <==> Ledger.KeyUsed(t.journal, PaymentKey(r.invoiceId)))
  {
    PaymentEntriesAreSimple(Amount(r));
    ValidationNeverSaysDuplicate(t.accounts, PaymentEntries(Amount(r)));
    hide Ledger.Validate, Ledger.KeyUsed, PaymentEntries, PaymentKey;
  }

  // ---------------------------------------- payment execution with nothing between

  function Commit(r: Run, t: Ledger.Tables): (Run, Ledger.Tables) {
    var (t', result) := Ledger.Post(t, PaymentTransaction(r));
    (Committed(r, ReplyTo(result)), t')
  }

  function RecordVendor(r: Run, b: VendorHistory.Books): (Run, VendorHistory.Books)
    requires r.place.AtVendorRecord?
  {
    var (b', outcome) := VendorHistory.Record(b, VendorCall(r));
    (Finished(r, outcome.Recorded?), b')
  }

  // Up to the commit: the run is at its commit only if nothing stopped it.
  function Gated(r: Run, t: Ledger.Tables, allowed: bool, status: Option<ControlPlane.Switch>): Run {
    var r1 := Authorized(r, allowed);
    if r1.place.Ended? then r1
    else
      var r2 := DryRan(r1, Ledger.DryRun(t, PaymentEntries(Amount(r))).Valid?);
      if r2.place.Ended? then r2 else StatusRead(r2, status)
  }

  // The whole node, with the ledger and the vendor books it leaves.
  function Paid(r: Run, t: Ledger.Tables, b: VendorHistory.Books, allowed: bool, status: Option<ControlPlane.Switch>):
    (Run, Ledger.Tables, VendorHistory.Books)
  {
    var r3 := Gated(r, t, allowed, status);
    if r3.place.Ended? then (r3, t, b)
    else
      var (r4, t') := Commit(r3, t);
      if !r4.place.AtVendorRecord? then (r4, t', b)
      else
        var (r5, b') := RecordVendor(r4, b);
        (r5, t', b')
  }

  // How a call to the decision point goes: whether it gets there, whether its
  // answer gets back, and the clocks and the switch it finds.
  datatype Circumstances = Circumstances(
    reached: bool, answered: bool, at: int, status: Option<ControlPlane.Switch>, decidedAt: int)

  predicate Gets(c: Circumstances) { c.reached && c.answered }

  // Anything but an answer that allows is a denial.
  predicate Grants(log: seq<PolicyDecision.Row>, request: CedarPolicies.Request, c: Circumstances) {
    Gets(c) && PolicyDecision.Decided(log, request, c.at, c.status) == PolicyDecision.Allow
  }

  predicate Knows(b: VendorHistory.Books, r: Run, reachable: bool) {
    HasVendor(r) && reachable && VendorHistory.LookedUp(b, VendorName(r)).Known?
  }

  lemma FlagGrantedExactly(log: seq<PolicyDecision.Row>, r: Run, known: bool, c: Circumstances)
    ensures Grants(log, FlagRequest(r, known), c) <==> Gets(c) && SwitchLets(c.status, "risk-scoring")
  {
    FlagAllowedExactly(log, r, known, c.at, c.status);
    hide PolicyDecision.Decided, SwitchLets, FlagRequest;
  }

  // Where scoring leads.
  lemma ScoredExactly(log: seq<PolicyDecision.Row>, r: Run, known: bool, score: RiskScore, c: Circumstances)
    ensures var r' := Scored(r, known, score, Grants(log, FlagRequest(r, known), c));
            && r'.risk.Some? && r'.risk.value.vendorFirstSeen == !known
            && (r'.place.AtHumanReview? <==>
                  r.requiresHuman || (score.level.High? && Gets(c) && SwitchLets(c.status, "risk-scoring")))
            && (r'.place.AtApproval? <==> !r'.place.AtHumanReview?)
  {
    FlagGrantedExactly(log, r, known, c);
    hide Grants, Gets, SwitchLets, FlagRequest;
  }

  // Where the approval node leads, in terms of the payment and of what is asked.
  lemma JudgedExactly(log: seq<PolicyDecision.Row>, r: Run, approval: Approval, agrees: bool, c: Circumstances)
    ensures var r' := Judged(r, approval, agrees, Grants(log, ApprovalRequest(r), c));
            && (r'.place.AtPayment? <==>
                  && !r.requiresHuman
                  && approval.confidence >= 0.75 && approval.decision.AutoApprove? && agrees
                  && Amount(r) <= 500050 && !(r.risk.Some? && r.risk.value.vendorFirstSeen)
                  && Gets(c) && SwitchLets(c.status, "approval")
                  && PolicyDecision.CountSince(log, VendorName(r), c.at - 24 * 3600) < 3)
            && (r'.place.Ended? <==> approval.confidence >= 0.75 && approval.decision.Reject?)
            && (r'.place.Ended? || r'.place.AtHumanReview? || r'.place.AtPayment?)
  {
    ApprovalAllowedExactly(log, r, c.at, c.status);
    hide PolicyDecision.Decided, SwitchLets, ApprovalRequest, Amount, VendorName, PolicyDecision.CountSince;
  }

  lemma SameInvoiceSameFlag(r: Run, r': Run, known: bool)
    requires r'.invoice == r.invoice && r'.invoiceId == r.invoiceId
    ensures FlagRequest(r', known) == FlagRequest(r, known)
  {}

  lemma SameInvoiceSameApproval(r: Run, r': Run)
    requires r'.invoice == r.invoice && r'.invoiceId == r.invoiceId && r'.risk == r.risk
    ensures ApprovalRequest(r') == ApprovalRequest(r)
  {}

  // One item more, of this amount and award id, under a vendor of this name, who is
  // known from now on; no other vendor's row has changed.
  predicate Credited(b: VendorHistory.Books, b': VendorHistory.Books, name: string, amount: int, award: string) {
    && |b'.history| == |b.history| + 1 && b'.history[..|b.history|] == b.history
    && var p := b'.history[|b.history|];
       && p.amount == amount && p.award == award
       && p.vendor < |b'.vendors| && VendorHistory.Stored(b'.vendors[p.vendor].name) == VendorHistory.Asked(name)
       && VendorHistory.Listed(b', name)
       && |b.vendors| <= |b'.vendors|
       && forall i | 0 <= i < |b.vendors| && i != p.vendor :: b'.vendors[i] == b.vendors[i]
  }

  lemma AwardOfInvoice(invoiceId: string)
    ensures VendorHistory.AwardId(PaymentKey(invoiceId)) == "verisettle-invoice-" + invoiceId
  {
    assert "verisettle-" + ("invoice-" + invoiceId) == "verisettle-invoice-" + invoiceId;
  }

  // What the record of a payment does to consistent books: the vendor the invoice
  // names is credited, unless this invoice is itemized already.
  lemma RecordCredits(r: Run, b: VendorHistory.Books)
    ensures VendorHistory.Consistent(b) ==>
              var ((b', outcome), award) := (VendorHistory.Record(b, VendorCall(r)), "verisettle-invoice-" + r.invoiceId);
              if VendorHistory.AwardUsed(b.history, award) then b' == b && !outcome.Recorded?
              else outcome.Recorded? && Credited(b, b', VendorName(r), Amount(r), award)
  {
    AwardOfInvoice(r.invoiceId);
    assert "verisettle-" + ("invoice-" + r.invoiceId) == "verisettle-invoice-" + r.invoiceId;
    if VendorHistory.Consistent(b) {
      VendorHistory.RecordCreditsVendorAsked(b, VendorCall(r));
      VendorHistory.RecordMakesKnown(b, VendorCall(r), VendorName(r));
      assert VendorCall(r).name == VendorName(r) && VendorCall(r).amount == Amount(r) && VendorCall(r).key == "invoice-" + r.invoiceId;
      hide VendorHistory.Record, VendorHistory.Consistent, VendorHistory.Stored, VendorHistory.Asked, VendorHistory.Listed,
        VendorHistory.AwardUsed, VendorName, Amount, VendorCall;
    }
  }

  // What the three requests say of the run.
  lemma RequestsTellTheRun(r: Run, known: bool)
    ensures forall q | q in [FlagRequest(r, known), ApprovalRequest(r), PaymentRequest(r)] ::
              && q.principal.Agent? && q.resource.Payment?
              && q.resource.id == r.invoiceId && q.resource.amount == Amount(r)
              && q.resource.vendor == Some(VendorName(r)) && q.resource.approvalCount == 0
    ensures FlagRequest(r, known).principal == CedarPolicies.Agent("risk-scoring", "read-and-flag")
    ensures ApprovalRequest(r).principal == CedarPolicies.Agent("approval", "read-and-flag")
    ensures PaymentRequest(r).principal == CedarPolicies.Agent("payment-execution", "write-ledger")
  {}

  class InvoiceRunner {
    const invoiceId: string
    var place: Place
    var taskState: TaskState
    var invoice: Option<Invoice>
    var risk: Option<RiskScore>
    var approval: Option<Approval>
    var criticAgrees: Option<bool>
    var requiresHuman: bool
    var humanDecision: Option<string>
    var payment: Option<Payment>
    var trail: seq<AuditStep>

    ghost function Contents(): Run
      reads this
    {
      Run(invoiceId, place, taskState, invoice, risk, approval, criticAgrees, requiresHuman, humanDecision, payment, trail)
    }

    constructor (invoiceId: string)
      ensures Contents() == Submitted(invoiceId)
    {
      this.invoiceId := invoiceId;
      place, taskState, requiresHuman, trail := AtExtraction, TaskSubmitted, false, [];
      invoice, risk, approval, criticAgrees, humanDecision, payment := None, None, None, None, None, None;
    }

    // Ask the decision point; an outage on either way is a denial.
    method Ask(policy: PolicyDecision.PolicyService, request: CedarPolicies.Request, c: Circumstances) returns (allowed: bool)
      modifies policy
      ensures allowed <==> Grants(old(policy.log), request, c)
      ensures c.reached ==> exists v :: policy.log == old(policy.log) + [PolicyDecision.Row(request, v, c.decidedAt)]
      ensures !c.reached ==> policy.log == old(policy.log)
    {
      allowed := false;
      if c.reached {
        var decision := policy.Authorize(request, c.at, c.status, c.decidedAt);
        allowed := c.answered && decision == PolicyDecision.Allow;
      }
    }

    // Flagged content ends the run before anything is read off it; otherwise the
    // amount and the vendor of every later step are the ones extracted here.
    method RunExtraction(safe: bool, result: Invoice)
      modifies this
      ensures Contents() == Extracted(old(Contents()), safe, result)
      ensures place.Ended? <==> !safe
      ensures !safe ==> taskState.TaskFailed? && invoice == old(invoice)
      ensures safe ==> Amount(Contents()) == (if result.total.Some? then result.total.value else 0)
      ensures safe ==> (HasVendor(Contents()) <==> result.vendor.Some? && result.vendor.value != "")
      ensures safe && HasVendor(Contents()) ==> VendorName(Contents()) == result.vendor.value
      ensures safe && !HasVendor(Contents()) ==> VendorName(Contents()) == "unknown"
      ensures risk == old(risk) && approval == old(approval) && humanDecision == old(humanDecision) && payment == old(payment)
    {
      trail := trail + [GuardrailCheck(safe), PiiScan];
      if !safe {
        taskState, requiresHuman := TaskFailed, true;
        trail := trail + [ExtractionBlocked];
      } else {
        invoice, taskState := Some(result), TaskExtracted;
        trail := trail + [Extraction(result)];
      }
      place := if taskState.TaskFailed? then Ended else AtRiskScoring;
    }

    // A vendor counts as known exactly when it can be looked up and the books list it.
    method LookUp(book: VendorHistory.VendorBook, reachable: bool) returns (known: bool)
      ensures known == Knows(book.Contents(), Contents(), reachable)
      ensures VendorHistory.Consistent(book.Contents()) ==>
                (known <==> HasVendor(Contents()) && reachable && VendorHistory.Listed(book.Contents(), VendorName(Contents())))
    {
      hide VendorHistory.LookedUp, VendorHistory.Consistent, VendorHistory.Listed;
      var named := invoice.Some? && invoice.value.vendor.Some? && invoice.value.vendor.value != "";
      known := false;
      if named && reachable {
        var lookup := book.LookupVendor(invoice.value.vendor.value);
        known := lookup.Known?;
      }
      if VendorHistory.Consistent(book.Contents()) {
        VendorHistory.LookupTellsTheTruth(book.Contents(), VendorName(Contents()));
      }
    }

    method AskToFlag(policy: PolicyDecision.PolicyService, known: bool, c: Circumstances) returns (allowed: bool)
      modifies policy
      ensures allowed == Grants(old(policy.log), FlagRequest(Contents(), known), c)
      ensures allowed <==> Gets(c) && SwitchLets(c.status, "risk-scoring")
    {
      hide PolicyDecision.Decided, SwitchLets;
      FlagAllowedExactly(policy.log, Contents(), known, c.at, c.status);
      var named := invoice.Some? && invoice.value.vendor.Some? && invoice.value.vendor.value != "";
      var vendor := if named then invoice.value.vendor.value else "unknown";
      var amount := if invoice.Some? && invoice.value.total.Some? then invoice.value.total.value else 0;
      allowed := Ask(policy,
        CedarPolicies.Request(CedarPolicies.Agent("risk-scoring", "read-and-flag"), CedarPolicies.FlagForReview,
                              CedarPolicies.Payment(invoiceId, amount, !known, Some(vendor), 0)), c);
    }

    method FlagIfHigh(policy: PolicyDecision.PolicyService, high: bool, known: bool, c: Circumstances)
      modifies this, policy
      ensures Contents() == Flagged(old(Contents()), high, Grants(old(policy.log), FlagRequest(old(Contents()), known), c))
    {
      hide Grants, FlagRequest;
      if high {
        var flagAllowed := AskToFlag(policy, known, c);
        if flagAllowed {
          trail := trail + [FlagForReview];
          requiresHuman := true;
        } else {
          trail := trail + [FlagDenied];
        }
      }
    }

    method AskToApprove(policy: PolicyDecision.PolicyService, c: Circumstances) returns (allowed: bool)
      modifies policy
      ensures allowed == Grants(old(policy.log), ApprovalRequest(Contents()), c)
    {
      hide PolicyDecision.Decided;
      var named := invoice.Some? && invoice.value.vendor.Some? && invoice.value.vendor.value != "";
      var vendor := if named then invoice.value.vendor.value else "unknown";
      var amount := if invoice.Some? && invoice.value.total.Some? then invoice.value.total.value else 0;
      var firstSeen := risk.Some? && risk.value.vendorFirstSeen;
      allowed := Ask(policy,
        CedarPolicies.Request(CedarPolicies.Agent("approval", "read-and-flag"), CedarPolicies.ApprovePayment,
                              CedarPolicies.Payment(invoiceId, amount, firstSeen, Some(vendor), 0)), c);
    }

    method Countersign(decision: Approval, agrees: bool, policy: PolicyDecision.PolicyService, c: Circumstances)
      modifies this, policy
      ensures Contents() == Countersigned(old(Contents()), decision, agrees, Grants(old(policy.log), ApprovalRequest(old(Contents())), c))
    {
      hide Grants, ApprovalRequest;
      ghost var before := Contents();
      trail := trail + [CriticReview(agrees)];
      if !agrees {
        requiresHuman, approval, criticAgrees := true, Some(decision), Some(false);
        trail := trail + [CriticDisagreed];
        taskState := TaskPendingHuman;
        return;
      }
      SameInvoiceSameApproval(before, Contents());
      var allowed := AskToApprove(policy, c);
      if !allowed {
        requiresHuman := true;
        trail := trail + [ApprovalDenied];
        taskState := TaskPendingHuman;
      } else {
        approval, criticAgrees, taskState := Some(decision), Some(true), TaskApproved;
      }
    }

    // What the model says of the vendor is overruled by the books; a person is
    // asked exactly for high risk with the flag taken.
    method RunRiskScoring(book: VendorHistory.VendorBook, reachable: bool, result: RiskScore,
                          policy: PolicyDecision.PolicyService, c: Circumstances)
      modifies this, policy
      ensures var known := Knows(book.Contents(), old(Contents()), reachable);
              Contents() == Scored(old(Contents()), known, result, Grants(old(policy.log), FlagRequest(old(Contents()), known), c))
      ensures risk.Some? && (VendorHistory.Consistent(book.Contents()) ==>
                (!risk.value.vendorFirstSeen <==>
                   HasVendor(old(Contents())) && reachable && VendorHistory.Listed(book.Contents(), VendorName(old(Contents())))))
      ensures place.AtHumanReview? <==>
              old(requiresHuman) || (result.level.High? && Gets(c) && SwitchLets(c.status, "risk-scoring"))
      ensures place.AtApproval? <==> !place.AtHumanReview?
    {
      hide Grants, Gets, SwitchLets, FlagRequest, Knows, HasVendor, VendorName, VendorHistory.Consistent, VendorHistory.Listed, Flagged;
      ghost var before := Contents();
      var known := LookUp(book, reachable);
      ScoredExactly(policy.log, before, known, result, c);
      var own := result.(vendorFirstSeen := !known);
      risk := Some(own);
      trail := trail + [VendorLookup(known), RiskScoring(own)];
      SameInvoiceSameFlag(before, Contents(), known);
      FlagIfHigh(policy, result.level == High, known, c);
      taskState := TaskRiskScored;
      place := if requiresHuman then AtHumanReview else AtApproval;
    }

    // A payment is let through exactly when every gate agrees; it is rejected
    // exactly when the model is confident in rejecting; a person gets the rest.
    method RunApproval(decision: Approval, agrees: bool, policy: PolicyDecision.PolicyService, c: Circumstances)
      modifies this, policy
      ensures Contents() == Judged(old(Contents()), decision, agrees, Grants(old(policy.log), ApprovalRequest(old(Contents())), c))
      ensures place.AtPayment? <==>
              && !old(requiresHuman)
              && decision.confidence >= 0.75 && decision.decision.AutoApprove? && agrees
              && Amount(old(Contents())) <= 500050 && !(old(risk).Some? && old(risk).value.vendorFirstSeen)
              && Gets(c) && SwitchLets(c.status, "approval")
              && PolicyDecision.CountSince(old(policy.log), VendorName(old(Contents())), c.at - 24 * 3600) < 3
      ensures place.Ended? <==> decision.confidence >= 0.75 && decision.decision.Reject?
      ensures place.Ended? || place.AtHumanReview? || place.AtPayment?
    {
      hide Grants, Gets, SwitchLets, ApprovalRequest, Amount, VendorName, PolicyDecision.CountSince, Countersigned;
      JudgedExactly(policy.log, Contents(), decision, agrees, c);
      ghost var before := Contents();
      trail := trail + [ApprovalDecision(decision)];
      if decision.confidence < CONFIDENCE_THRESHOLD {
        requiresHuman, approval := true, Some(decision);
        trail := trail + [LowConfidence];
        taskState := TaskPendingHuman;
      } else if decision.decision != AutoApprove {
        requiresHuman, approval := decision.decision == EscalateToHuman, Some(decision);
        taskState := if requiresHuman then TaskPendingHuman else TaskRejected;
      } else {
        SameInvoiceSameApproval(before, Contents());
        Countersign(decision, agrees, policy, c);
      }
      place := if taskState.TaskRejected? then Ended else if requiresHuman then AtHumanReview else AtPayment;
    }

    // One word of a person leads to payment, past every gate of the approval node;
    // every other word ends the run.
    method Review(decision: string)
      modifies this
      ensures Contents() == Reviewed(old(Contents()), decision)
      ensures place.AtPayment? <==> decision == "approve"
      ensures place.Ended? && taskState.TaskRejected? <==> decision != "approve"
      ensures humanDecision == Some(decision) && HumanDecision(decision) in trail
      ensures invoice == old(invoice) && risk == old(risk) && payment == old(payment)
    {
      humanDecision := Some(decision);
      trail := trail + [HumanDecision(decision)];
      if decision == "approve" {
        taskState, place := TaskApproved, AtPayment;
      } else {
        taskState, place := TaskRejected, Ended;
      }
    }

    method Block(reason: Reason, step: AuditStep)
      modifies this
      ensures Contents() == Blocking(old(Contents()), reason, step)
    {
      payment, taskState, place := Some(Blocked(reason)), TaskBlocked, Ended;
      trail := trail + [step];
    }

    // The parts of payment execution, one for each place where others can get in between.

    // The decision point lets payment execution through for any amount, vendor and
    // approver, unless it is out of reach, stopped, or the agent is paused.
    method Authorize(policy: PolicyDecision.PolicyService, c: Circumstances)
      modifies this, policy
      ensures Contents() == Authorized(old(Contents()), Grants(old(policy.log), PaymentRequest(old(Contents())), c))
      ensures place.AtDryRun? <==> Gets(c) && SwitchLets(c.status, "payment-execution")
      ensures !place.AtDryRun? ==> place.Ended? && payment == Some(Blocked(PolicyDenied))
      ensures c.reached <==> |policy.log| == |old(policy.log)| + 1
    {
      hide PolicyDecision.Decided;
      PaymentAllowedExactly(policy.log, Contents(), c.at, c.status);
      var vendor := if invoice.Some? && invoice.value.vendor.Some? && invoice.value.vendor.value != "" then invoice.value.vendor.value else "unknown";
      var amount := if invoice.Some? && invoice.value.total.Some? then invoice.value.total.value else 0;
      var firstSeen := risk.Some? && risk.value.vendorFirstSeen;
      var allowed := Ask(policy,
        CedarPolicies.Request(CedarPolicies.Agent("payment-execution", "write-ledger"), CedarPolicies.CreateLedgerEntry,
                              CedarPolicies.Payment(invoiceId, amount, firstSeen, Some(vendor), 0)), c);
      if allowed {
        place := AtDryRun;
      } else {
        Block(PolicyDenied, PaymentDenied);
      }
    }

    method DryRun(ledger: Ledger.LedgerService)
      modifies this
      ensures Contents() == DryRan(old(Contents()), Ledger.DryRun(ledger.Contents(), PaymentEntries(Amount(old(Contents())))).Valid?)
      ensures place.AtHold? || (place.Ended? && payment == Some(Blocked(DryRunFailed)))
    {
      var amount := if invoice.Some? && invoice.value.total.Some? then invoice.value.total.value else 0;
      var report := ledger.DryRunEntries([
        Ledger.EntryRequest("vendor-expense", Ledger.Debit, amount), Ledger.EntryRequest("operating-cash", Ledger.Credit, amount)]);
      if report.Valid? {
        place, trail := AtHold, trail + [LedgerDryRun(true), HoldStart];
      } else {
        Block(DryRunFailed, LedgerDryRun(false));
      }
    }

    // The run goes on exactly when the switch cannot be read or none of the four
    // scopes that concern it is tripped.
    method ReadStatus(plane: ControlPlane.ControlPlaneService, readable: bool)
      modifies this
      ensures Contents() == StatusRead(old(Contents()), if readable then Some(plane.Contents().switch) else None)
      ensures place.AtCommit? <==>
              !readable || !(plane.globalStop || "payment-execution" in plane.pausedAgents ||
                             invoiceId in plane.haltedSessions || "create-ledger-entry" in plane.frozenTools)
      ensures !place.AtCommit? ==> place.Ended? && payment == Some(Blocked(KillSwitch))
    {
      var sw := ControlPlane.AllClear;
      if readable {
        sw := plane.Status();
      }
      var frozen :=
        || sw.globalStop || "payment-execution" in sw.pausedAgents
        || invoiceId in sw.haltedSessions || "create-ledger-entry" in sw.frozenTools;
      if frozen {
        Block(KillSwitch, HoldBlocked);
      } else {
        place, trail := AtCommit, trail + [HoldCleared];
      }
    }

    // The ledger gains this payment's transaction, and the run its id, or neither;
    // a used key, and nothing else, is a duplicate.
    method CommitPayment(ledger: Ledger.LedgerService)
      modifies this, ledger
      ensures (Contents(), ledger.Contents()) == Commit(old(Contents()), old(ledger.Contents()))
      ensures place.AtVendorRecord? ==>
                ledger.journal == old(ledger.journal) + [PaymentTransaction(old(Contents()))] && place.transaction == |old(ledger.journal)|
      ensures place.AtVendorRecord? ==>
                ledger.journal[|old(ledger.journal)|] ==
                Ledger.Transaction("invoice-" + invoiceId, "Payment to " + VendorName(old(Contents())), "payment-execution",
                                   [Ledger.EntryRequest("vendor-expense", Ledger.Debit, Amount(old(Contents()))),
                                    Ledger.EntryRequest("operating-cash", Ledger.Credit, Amount(old(Contents())))])
      ensures !place.AtVendorRecord? ==> ledger.Contents() == old(ledger.Contents())
      ensures place.Ended? <==> Ledger.KeyUsed(old(ledger.journal), PaymentKey(invoiceId))
      ensures place.Ended? ==> payment == Some(Blocked(Duplicate))
      ensures !place.Ended? ==> payment == old(payment)
      ensures invoice == old(invoice)
    {
      hide Ledger.Post, Ledger.KeyUsed;
      PaymentPosts(ledger.Contents(), Contents());
      var amount := if invoice.Some? && invoice.value.total.Some? then invoice.value.total.value else 0;
      var named := invoice.Some? && invoice.value.vendor.Some? && invoice.value.vendor.value != "";
      var vendor := if named then invoice.value.vendor.value else "unknown";
      var result := ledger.PostTransaction(
        Ledger.Transaction("invoice-" + invoiceId, "Payment to " + vendor, "payment-execution", PaymentEntries(amount)));
      if result.Ok? {
        place, trail := AtVendorRecord(result.value), trail + [LedgerCommit(result.value)];
      } else if result.error.DuplicateTransaction? {
        Block(Duplicate, CommitDuplicate);
      } else {
        place := Raised;
      }
    }

    method RecordPayment(book: VendorHistory.VendorBook)
      requires place.AtVendorRecord?
      modifies this, book
      ensures (Contents(), book.Contents()) == RecordVendor(old(Contents()), old(book.Contents()))
      ensures place.Ended? && payment == Some(Settled(old(place).transaction))
      ensures VendorHistory.Consistent(old(book.Contents())) ==>
                if VendorHistory.AwardUsed(old(book.history), "verisettle-invoice-" + invoiceId) then
                  book.Contents() == old(book.Contents()) && trail == old(trail) + [VendorRecordFailed]
                else
                  Credited(old(book.Contents()), book.Contents(), VendorName(old(Contents())), Amount(old(Contents())),
                           "verisettle-invoice-" + invoiceId) &&
                  trail == old(trail) + [VendorRecorded]
    {
      RecordCredits(Contents(), book.Contents());
      hide VendorHistory.Record, VendorHistory.Consistent, Credited, VendorHistory.AwardUsed;
      hide VendorHistory.AwardId, VendorHistory.Listed, VendorHistory.Stored, VendorHistory.Asked;
      var amount := if invoice.Some? && invoice.value.total.Some? then invoice.value.total.value else 0;
      var named := invoice.Some? && invoice.value.vendor.Some? && invoice.value.vendor.value != "";
      var vendor := if named then invoice.value.vendor.value else "unknown";
      assert VendorHistory.Call(vendor, amount, "invoice-" + invoiceId) == VendorCall(Contents());
      hide VendorCall, Amount, VendorName, HasVendor;
      var outcome := book.RecordVendorPayment(VendorHistory.Call(vendor, amount, "invoice-" + invoiceId));
      trail := trail + [if outcome.Recorded? then VendorRecorded else VendorRecordFailed];
      payment, taskState, place := Some(Settled(place.transaction)), TaskSettled, Ended;
    }

    // The whole of payment execution, with nothing else running: it settles exactly
    // when the ledger gains this payment, and otherwise leaves ledger and books alone.
    method RunPaymentExecution(policy: PolicyDecision.PolicyService, c: Circumstances, ledger: Ledger.LedgerService,
                               plane: ControlPlane.ControlPlaneService, readable: bool, book: VendorHistory.VendorBook)
      requires !(payment.Some? && payment.value.Settled?)
      modifies this, policy, ledger, book
      ensures (Contents(), ledger.Contents(), book.Contents()) ==
              Paid(old(Contents()), old(ledger.Contents()), old(book.Contents()),
                   Grants(old(policy.log), PaymentRequest(old(Contents())), c),
                   if readable then Some(plane.Contents().switch) else None)
      ensures if payment.Some? && payment.value.Settled? then
                ledger.journal == old(ledger.journal) + [PaymentTransaction(old(Contents()))] &&
                payment.value.transaction == |old(ledger.journal)|
              else ledger.Contents() == old(ledger.Contents()) && book.Contents() == old(book.Contents())
      ensures payment.Some? && payment.value.Settled? && VendorHistory.Consistent(old(book.Contents()))
              && !VendorHistory.AwardUsed(old(book.history), "verisettle-invoice-" + invoiceId) ==>
                Credited(old(book.Contents()), book.Contents(), VendorName(old(Contents())), Amount(old(Contents())),
                         "verisettle-invoice-" + invoiceId)
    {
      hide Credited, VendorHistory.Consistent, VendorHistory.AwardUsed, Amount, VendorName;
      hide Commit, RecordVendor, Ledger.DryRun, Frozen, Grants, PaymentRequest, SwitchLets, PaymentTransaction, Ledger.KeyUsed, PaymentKey;
      ghost var before := Contents();
      Authorize(policy, c);
      if place.Ended? { return; }
      SameInvoiceSameCalls(before, Contents());
      DryRun(ledger);
      if place.Ended? { return; }
      ReadStatus(plane, readable);
      if place.Ended? { return; }
      SameInvoiceSameCalls(before, Contents());
      CommitPayment(ledger);
      SameInvoiceSameCalls(before, Contents());
      if !place.AtVendorRecord? { return; }
      RecordPayment(book);
    }
  }

  lemma SameInvoiceSameCalls(r: Run, r': Run)
    requires r'.invoice == r.invoice && r'.invoiceId == r.invoiceId
    ensures PaymentTransaction(r') == PaymentTransaction(r) && VendorCall(r') == VendorCall(r)
    ensures Amount(r') == Amount(r) && VendorName(r') == VendorName(r)
  {}
}
