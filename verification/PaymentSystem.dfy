/**
 Many invoice runs at once over one ledger, one set of vendor books and one kill
 switch, with trips and resets in between. What models, people and the policy
 decision point say is arbitrary; replies can be lost. A post and a vendor record
 are single steps here: each is one database transaction.
 */
module PaymentSystem {
  import opened Common
  import opened InvoiceRun
  import CedarPolicies
  import ControlPlane
  import Ledger
  import LedgerConcurrency
  import PolicyDecision
  import VendorHistory

  // Position i of `creators` is the run whose commit made transaction i.
  datatype World = World(
    runs: map<nat, Run>, ledger: Ledger.Tables, creators: seq<nat>, books: VendorHistory.Books, switch: ControlPlane.Switch)

  const SEED_ACCOUNTS: map<string, Ledger.Account> := map[
    "operating-cash" := Ledger.Account(Ledger.Asset, 50000000, false),
    "accounts-payable" := Ledger.Account(Ledger.Liability, 0, true),
    "vendor-expense" := Ledger.Account(Ledger.Expense, 0, true)
  ]

  function Opening(books: VendorHistory.Books, switch: ControlPlane.Switch): World {
    World(map[], Ledger.Tables(SEED_ACCOUNTS, []), [], books, switch)
  }

  // A call to the policy decision point: it may fail, or find any log and any switch.
  datatype Pdp = Unreachable | Reached(log: seq<PolicyDecision.Row>, at: int, status: Option<ControlPlane.Switch>)

  predicate Allows(pdp: Pdp, request: CedarPolicies.Request) {
    pdp.Reached? && PolicyDecision.Decided(pdp.log, request, pdp.at, pdp.status) == PolicyDecision.Allow
  }

  // A write may be applied and answered, applied though its caller sees a failure,
  // or not be applied and fail, as when it never arrives or loses a race for its key.
  datatype Delivery = Answered | AnswerLost | NotApplied

  datatype Action =
    | Start(run: nat, invoiceId: string, readable: bool)
    | Extract(run: nat, safe: bool, invoice: Invoice)
    | Score(run: nat, reachable: bool, score: RiskScore, pdp: Pdp)
    | Judge(run: nat, approval: Approval, agrees: bool, pdp: Pdp)
    | Review(run: nat, decision: string, readable: bool)
    | Authorize(run: nat, pdp: Pdp)
    | DryRun(run: nat)
    | ReadStatus(run: nat, readable: bool)
    | Commit(run: nat, delivery: Delivery)
    | RecordVendor(run: nat, delivery: Delivery)
    | Trip(scope: ControlPlane.Scope, target: string)
    | Reset(scope: ControlPlane.Scope, target: string)

  function Reading(w: World, readable: bool): Option<ControlPlane.Switch> {
    if readable then Some(w.switch) else None
  }

  // A session that is halted cannot be started or resumed, if that can be read.
  predicate Halted(w: World, invoiceId: string, readable: bool) { readable && invoiceId in w.switch.haltedSessions }

  // A lookup that fails makes the vendor unknown.
  predicate KnownVendor(w: World, r: Run, reachable: bool) { Knows(w.books, r, reachable) }

  // The steps of a run that write to no one else.
  function Moved(w: World, r: Run, a: Action): Option<Run> {
    match a
    case Extract(_, safe, invoice) => if r.place.AtExtraction? then Some(Extracted(r, safe, invoice)) else None
    case Score(_, reachable, score, pdp) =>
      if r.place.AtRiskScoring? then
        var known := KnownVendor(w, r, reachable);
        Some(Scored(r, known, score, Allows(pdp, FlagRequest(r, known))))
      else None
    case Judge(_, approval, agrees, pdp) =>
      if r.place.AtApproval? then Some(Judged(r, approval, agrees, Allows(pdp, ApprovalRequest(r)))) else None
    case Review(_, decision, readable) =>
      if r.place.AtHumanReview? && !Halted(w, r.invoiceId, readable) then Some(Reviewed(r, decision)) else None
    case Authorize(_, pdp) => if r.place.AtPayment? then Some(Authorized(r, Allows(pdp, PaymentRequest(r)))) else None
    case DryRun(_) =>
      if r.place.AtDryRun? then Some(DryRan(r, Ledger.DryRun(w.ledger, PaymentEntries(Amount(r))).Valid?)) else None
    case ReadStatus(_, readable) => if r.place.AtHold? then Some(StatusRead(r, Reading(w, readable))) else None
    case _ => None
  }

  function Committing(w: World, id: nat, delivery: Delivery): World
    requires id in w.runs
  {
    var r := w.runs[id];
    if delivery.NotApplied? then w.(runs := w.runs[id := Committed(r, Failure)])
    else
      var (t, result) := Ledger.Post(w.ledger, PaymentTransaction(r));
      w.(runs := w.runs[id := Committed(r, if delivery.Answered? then ReplyTo(result) else Failure)],
         ledger := t,
         creators := if result.Ok? then w.creators + [id] else w.creators)
  }

  function Recording(w: World, id: nat, delivery: Delivery): World
    requires id in w.runs && w.runs[id].place.AtVendorRecord?
  {
    var r := w.runs[id];
    if delivery.NotApplied? then w.(runs := w.runs[id := Finished(r, false)])
    else
      var (b, outcome) := VendorHistory.Record(w.books, VendorCall(r));
      w.(runs := w.runs[id := Finished(r, delivery.Answered? && outcome.Recorded?)], books := b)
  }

  function Apply(w: World, a: Action): World {
    if a.Trip? then w.(switch := ControlPlane.Trip(w.switch, a.scope, a.target))
    else if a.Reset? then w.(switch := ControlPlane.Reset(w.switch, a.scope, a.target))
    else if a.Start? then
      if a.run in w.runs || Halted(w, a.invoiceId, a.readable) then w
      else w.(runs := w.runs[a.run := Submitted(a.invoiceId)])
    else if a.run !in w.runs then w
    else if a.Commit? then
      if w.runs[a.run].place.AtCommit? then Committing(w, a.run, a.delivery) else w
    else if a.RecordVendor? then
      if w.runs[a.run].place.AtVendorRecord? then Recording(w, a.run, a.delivery) else w
    else
      var moved := Moved(w, w.runs[a.run], a);
      if moved.Some? then w.(runs := w.runs[a.run := moved.value]) else w
  }

  function RunFrom(w: World, actions: seq<Action>): World
    decreases |actions|
  {
    if actions == [] then w else Apply(RunFrom(w, actions[..|actions| - 1]), actions[|actions| - 1])
  }

  // --------------------------------------------------- what each run carries with it

  predicate Early(r: Run) {
    r.place.AtExtraction? || r.place.AtRiskScoring? || r.place.AtApproval? || r.place.AtHumanReview?
  }

  predicate IsSettled(r: Run) { r.payment.Some? && r.payment.value.Settled? }

  predicate Paying(r: Run) {
    || r.place.AtPayment? || r.place.AtDryRun? || r.place.AtHold? || r.place.AtCommit? || r.place.AtVendorRecord?
    || r.place.Raised? || IsSettled(r)
  }

  // Every gate that stands in for a person agreed.
  predicate MachineApproved(r: Run) {
    && r.approval.Some? && r.approval.value.decision.AutoApprove? && r.approval.value.confidence >= CONFIDENCE_THRESHOLD
    && r.criticAgrees == Some(true)
    && r.risk.Some? && !r.risk.value.vendorFirstSeen
    && Amount(r) <= 500050
  }

  predicate Cleared(r: Run) {
    if r.humanDecision.Some? then r.humanDecision == Some("approve") else MachineApproved(r)
  }

  predicate RunSound(r: Run) {
    && (Early(r) ==> r.humanDecision.None? && r.payment.None?)
    && (r.place.AtExtraction? || r.place.AtRiskScoring? ==> r.risk.None? && !r.requiresHuman)
    && (r.place.AtApproval? ==> r.risk.Some? && !r.requiresHuman)
    && (Paying(r) ==> Cleared(r))
    && (IsSettled(r) ==> r.place.Ended?)
  }

  // A vendor scored as known is known to the ledger.
  predicate VendorVouched(b: VendorHistory.Books, r: Run) {
    r.risk.Some? && !r.risk.value.vendorFirstSeen ==> HasVendor(r) && VendorHistory.Listed(b, VendorName(r))
  }

  predicate BeforeCommit(r: Run) { !r.place.AtVendorRecord? && !r.place.Ended? && !r.place.Raised? }

  // What a step of r that commits nothing may lead to.
  predicate GoodMove(r: Run, r': Run) {
    && RunSound(r') && r'.invoiceId == r.invoiceId
    && !r'.place.AtVendorRecord? && !IsSettled(r')
    && (r.risk.Some? ==> r'.risk == r.risk && r'.invoice == r.invoice)
  }

  lemma EarlyMovesAreGood(r: Run, safe: bool, invoice: Invoice, known: bool, score: RiskScore, flagAllowed: bool, decision: string)
    requires RunSound(r)
    ensures r.place.AtExtraction? ==> GoodMove(r, Extracted(r, safe, invoice))
    ensures r.place.AtRiskScoring? ==> GoodMove(r, Scored(r, known, score, flagAllowed))
    ensures r.place.AtHumanReview? ==> GoodMove(r, Reviewed(r, decision))
  {}

  lemma JudgementIsGood(r: Run, approval: Approval, agrees: bool, pdp: Pdp)
    requires RunSound(r) && r.place.AtApproval?
    ensures GoodMove(r, Judged(r, approval, agrees, Allows(pdp, ApprovalRequest(r))))
  {
    if Allows(pdp, ApprovalRequest(r)) {
      PolicyDecision.ApprovalNeeds(pdp.log, ApprovalRequest(r), pdp.at, pdp.status);
    }
    hide PolicyDecision.Decided;
  }

  lemma PaymentMovesAreGood(r: Run, ok: bool, status: Option<ControlPlane.Switch>)
    requires RunSound(r)
    ensures r.place.AtPayment? ==> GoodMove(r, Authorized(r, ok))
    ensures r.place.AtDryRun? ==> GoodMove(r, DryRan(r, ok))
    ensures r.place.AtHold? ==> GoodMove(r, StatusRead(r, status))
  {
    hide Frozen;
  }

  lemma MovesAreGood(w: World, r: Run, a: Action)
    requires RunSound(r) && Moved(w, r, a).Some?
    ensures BeforeCommit(r) && GoodMove(r, Moved(w, r, a).value)
  {
    hide RunSound, GoodMove, Allows, KnownVendor, Ledger.DryRun, Halted, Extracted, Scored, Reviewed, Judged, Authorized, DryRan, StatusRead;
    match a
    case Extract(_, safe, invoice) => EarlyMovesAreGood(r, safe, invoice, false, RiskScore(Low, true), false, "");
    case Score(_, reachable, score, pdp) =>
      var known := KnownVendor(w, r, reachable);
      EarlyMovesAreGood(r, true, Invoice(None, None), known, score, Allows(pdp, FlagRequest(r, known)), "");
    case Review(_, decision, _) => EarlyMovesAreGood(r, true, Invoice(None, None), false, RiskScore(Low, true), false, decision);
    case Judge(_, approval, agrees, pdp) => JudgementIsGood(r, approval, agrees, pdp);
    case Authorize(_, pdp) => PaymentMovesAreGood(r, Allows(pdp, PaymentRequest(r)), None);
    case DryRun(_) => PaymentMovesAreGood(r, Ledger.DryRun(w.ledger, PaymentEntries(Amount(r))).Valid?, None);
    case ReadStatus(_, readable) => PaymentMovesAreGood(r, true, Reading(w, readable));
    case _ =>
  }

  lemma MovesVouch(w: World, r: Run, a: Action)
    requires RunSound(r) && VendorVouched(w.books, r) && VendorHistory.Consistent(w.books) && Moved(w, r, a).Some?
    ensures VendorVouched(w.books, Moved(w, r, a).value)
  {
    if a.Score? {
      VendorHistory.LookupTellsTheTruth(w.books, VendorName(r));
    } else {
      MovesAreGood(w, r, a);
    }
    hide Allows, Ledger.DryRun, Halted, Frozen, VendorHistory.Consistent, VendorHistory.Listed, VendorHistory.LookedUp, RunSound;
  }

  // ------------------------------------------------------ who made which transaction

  // r is a run that may have made transaction i.
  predicate PastCommit(r: Run, i: nat) {
    r.place == AtVendorRecord(i) || (r.place.Ended? && r.payment == Some(Settled(i))) || r.place.Raised?
  }

  predicate Claims(r: Run, i: nat) { r.place == AtVendorRecord(i) || r.payment == Some(Settled(i)) }

  predicate Made(w: World, i: nat)
    requires i < |w.creators| == |w.ledger.journal|
  {
    && w.creators[i] in w.runs
    && w.ledger.journal[i] == PaymentTransaction(w.runs[w.creators[i]])
    && PastCommit(w.runs[w.creators[i]], i)
  }

  // What a run claims to have made, it made.
  ghost predicate ClaimsHold(w: World, r: Run, id: nat) {
    forall i: nat | Claims(r, i) :: i < |w.creators| && w.creators[i] == id
  }

  predicate Distinct(ids: seq<nat>) { forall i, j | 0 <= i < j < |ids| :: ids[i] != ids[j] }

  ghost predicate MakersInv(w: World) {
    && |w.creators| == |w.ledger.journal|
    && (forall i | 0 <= i < |w.creators| :: Made(w, i))
    && (forall id | id in w.runs :: ClaimsHold(w, w.runs[id], id))
    && Distinct(w.creators)
  }

  ghost predicate TablesInv(t: Ledger.Tables) {
    Ledger.KeysUnique(t.journal) && Ledger.Cached(SEED_ACCOUNTS, t) && Ledger.Solvent(t.accounts)
  }

  ghost predicate LedgerInv(w: World) { MakersInv(w) && TablesInv(w.ledger) }

  lemma QuietMoveKeepsMakers(w: World, id: nat, r': Run)
    requires MakersInv(w) && (id in w.runs ==> BeforeCommit(w.runs[id]))
    requires !r'.place.AtVendorRecord? && !IsSettled(r')
    ensures MakersInv(w.(runs := w.runs[id := r']))
  {
    hide PaymentTransaction;
    var w' := w.(runs := w.runs[id := r']);
    forall i | 0 <= i < |w.creators| ensures Made(w', i) {
      assert Made(w, i);
    }
    forall j | j in w'.runs ensures ClaimsHold(w', w'.runs[j], j) {
      if j != id { assert ClaimsHold(w, w.runs[j], j); }
    }
  }

  // A payment that the ledger takes leaves books that are still right.
  lemma PostedPaymentKeepsTables(t: Ledger.Tables, r: Run)
    requires TablesInv(t)
    ensures TablesInv(Ledger.Post(t, PaymentTransaction(r)).0)
  {
    PaymentEntriesAreSimple(Amount(r));
    Ledger.PostKeepsBooks(SEED_ACCOUNTS, t, PaymentTransaction(r));
  }

  lemma PostAppendsOrRefuses(t: Ledger.Tables, txn: Ledger.Transaction)
    ensures var (t', result) := Ledger.Post(t, txn);
            if result.Ok? then t'.journal == t.journal + [txn] && result.value == |t.journal| else t' == t
  {}

  // The run that committed is now the maker of the last transaction.
  lemma CommitMakes(w: World, id: nat, ledger: Ledger.Tables, r': Run)
    requires MakersInv(w) && id in w.runs && w.runs[id].place.AtCommit?
    requires ledger.journal == w.ledger.journal + [PaymentTransaction(w.runs[id])]
    requires PaymentTransaction(r') == PaymentTransaction(w.runs[id]) && PastCommit(r', |w.creators|) && !IsSettled(r')
    ensures var w' := w.(runs := w.runs[id := r'], ledger := ledger, creators := w.creators + [id]);
            MakersInv(w')
  {
    hide PaymentTransaction;
    var w' := w.(runs := w.runs[id := r'], ledger := ledger, creators := w.creators + [id]);
    forall i | 0 <= i < |w.creators| ensures w.creators[i] != id && Made(w', i) {
      assert Made(w, i);
    }
    forall j | j in w'.runs ensures ClaimsHold(w', w'.runs[j], j) {
      if j != id { assert ClaimsHold(w, w.runs[j], j); }
    }
  }

  lemma AfterReply(r: Run, reply: Reply)
    requires RunSound(r) && r.place.AtCommit?
    ensures var r' := Committed(r, reply);
            && PaymentTransaction(r') == PaymentTransaction(r) && !IsSettled(r')
            && match reply
               case Created(i) => r'.place == AtVendorRecord(i)
               case Conflict => r'.place == Ended
               case Failure => r'.place == Raised
  {}

  lemma CommittingKeepsLedgerInv(w: World, id: nat, delivery: Delivery)
    requires LedgerInv(w) && id in w.runs && RunSound(w.runs[id]) && w.runs[id].place.AtCommit?
    ensures LedgerInv(Committing(w, id, delivery))
  {
    hide Ledger.Post, PaymentTransaction, TablesInv, RunSound, Committed, IsSettled;
    var r, w' := w.runs[id], Committing(w, id, delivery);
    var result := Ledger.Post(w.ledger, PaymentTransaction(r)).1;
    var reply := if delivery.Answered? then ReplyTo(result) else Failure;
    AfterReply(r, reply);
    PostedPaymentKeepsTables(w.ledger, r);
    PostAppendsOrRefuses(w.ledger, PaymentTransaction(r));
    assert |w.creators| == |w.ledger.journal|;
    hide MakersInv;
    if delivery.NotApplied? || result.Err? {
      QuietMoveKeepsMakers(w, id, Committed(r, reply));
    } else {
      CommitMakes(w, id, w'.ledger, Committed(r, reply));
    }
  }

  lemma RecordingKeepsMakers(w: World, id: nat, r': Run, books: VendorHistory.Books)
    requires MakersInv(w) && id in w.runs && w.runs[id].place.AtVendorRecord?
    requires exists recorded :: r' == Finished(w.runs[id], recorded)
    ensures MakersInv(w.(runs := w.runs[id := r'], books := books))
  {
    var r, w' := w.runs[id], w.(runs := w.runs[id := r'], books := books);
    assert Claims(r, r.place.transaction) && ClaimsHold(w, r, id);
    assert PaymentTransaction(r') == PaymentTransaction(r);
    hide PaymentTransaction;
    forall i | 0 <= i < |w'.creators| ensures Made(w', i) {
      assert Made(w, i);
    }
    forall j | j in w'.runs ensures ClaimsHold(w', w'.runs[j], j) {
      assert ClaimsHold(w, w.runs[j], j);
    }
  }

  lemma RecordingKeepsLedgerInv(w: World, id: nat, delivery: Delivery)
    requires LedgerInv(w) && id in w.runs && w.runs[id].place.AtVendorRecord?
    ensures LedgerInv(Recording(w, id, delivery))
  {
    hide TablesInv, MakersInv, VendorHistory.Record, Finished;
    var w' := Recording(w, id, delivery);
    RecordingKeepsMakers(w, id, w'.runs[id], w'.books);
  }

  // ------------------------------------------------------------- the vendor books

  // A history row that is the itemized record of this transaction.
  predicate Itemizes(p: VendorHistory.Payment, txn: Ledger.Transaction) {
    p.award == VendorHistory.AwardId(txn.key) && txn.entries == PaymentEntries(p.amount)
  }

  // Whom a payment's description names.
  function Payee(txn: Ledger.Transaction): string {
    if |txn.description| >= |"Payment to "| then txn.description[|"Payment to "|..] else ""
  }

  // The row is under a vendor of the payee's name.
  predicate UnderPayee(vendors: seq<VendorHistory.Vendor>, p: VendorHistory.Payment, txn: Ledger.Transaction) {
    p.vendor < |vendors| && VendorHistory.Stored(vendors[p.vendor].name) == VendorHistory.Asked(Payee(txn))
  }

  predicate HasTransaction(journal: seq<Ledger.Transaction>, vendors: seq<VendorHistory.Vendor>, p: VendorHistory.Payment) {
    exists i | 0 <= i < |journal| :: Itemizes(p, journal[i]) && UnderPayee(vendors, p, journal[i])
  }

  // Rows past the first n were written by payments, each for a transaction.
  predicate BooksInv(w: World, n: nat) {
    && VendorHistory.Consistent(w.books) && n <= |w.books.history|
    && forall k | n <= k < |w.books.history| :: HasTransaction(w.ledger.journal, w.books.vendors, w.books.history[k])
  }

  ghost predicate RunsInv(w: World) {
    forall id | id in w.runs :: RunSound(w.runs[id]) && VendorVouched(w.books, w.runs[id])
  }

  ghost predicate Inv(w: World, n: nat) { LedgerInv(w) && RunsInv(w) && BooksInv(w, n) }

  lemma LongerJournalKeepsBooks(w: World, w': World, n: nat)
    requires BooksInv(w, n) && w'.books == w.books && w.ledger.journal <= w'.ledger.journal
    ensures BooksInv(w', n)
  {
    hide Itemizes, UnderPayee, VendorHistory.Consistent;
    forall k | n <= k < |w.books.history| ensures HasTransaction(w'.ledger.journal, w.books.vendors, w.books.history[k]) {
      assert HasTransaction(w.ledger.journal, w.books.vendors, w.books.history[k]);
      var i :| 0 <= i < |w.ledger.journal| && Itemizes(w.books.history[k], w.ledger.journal[i])
               && UnderPayee(w.books.vendors, w.books.history[k], w.ledger.journal[i]);
      assert w'.ledger.journal[i] == w.ledger.journal[i];
    }
  }

  lemma QuietMoveKeepsRunsInv(w: World, id: nat, r': Run)
    requires RunsInv(w) && RunSound(r') && VendorVouched(w.books, r')
    ensures RunsInv(w.(runs := w.runs[id := r']))
  {
    hide RunSound, VendorVouched;
  }

  lemma CommittedIsSound(b: VendorHistory.Books, r: Run, reply: Reply)
    requires RunSound(r) && VendorVouched(b, r) && r.place.AtCommit?
    ensures RunSound(Committed(r, reply)) && VendorVouched(b, Committed(r, reply))
  {}

  lemma CommittingKeepsRest(w: World, id: nat, delivery: Delivery, n: nat)
    requires RunsInv(w) && BooksInv(w, n) && id in w.runs && w.runs[id].place.AtCommit?
    ensures RunsInv(Committing(w, id, delivery)) && BooksInv(Committing(w, id, delivery), n)
  {
    var r, w' := w.runs[id], Committing(w, id, delivery);
    assert RunSound(r) && VendorVouched(w.books, r);
    hide BooksInv, RunsInv, RunSound, VendorVouched;
    PostAppendsOrRefuses(w.ledger, PaymentTransaction(r));
    var reply := if delivery.Answered? then ReplyTo(Ledger.Post(w.ledger, PaymentTransaction(r)).1) else Failure;
    hide Ledger.Post, PaymentTransaction;
    CommittedIsSound(w.books, r, reply);
    QuietMoveKeepsRunsInv(w, id, Committed(r, reply));
    LongerJournalKeepsBooks(w, w', n);
    RunsInvLooksAtRuns(w.(runs := w'.runs), w');
  }

  lemma RunsInvLooksAtRuns(w: World, w': World)
    requires RunsInv(w) && w'.runs == w.runs && w'.books == w.books
    ensures RunsInv(w')
  {
    hide RunSound, VendorVouched;
  }

  lemma NewRunIsSound(b: VendorHistory.Books, invoiceId: string)
    ensures RunSound(Submitted(invoiceId)) && VendorVouched(b, Submitted(invoiceId))
  {}

  lemma PayeeOfPayment(r: Run)
    ensures Payee(PaymentTransaction(r)) == VendorName(r)
  {
    assert ("Payment to " + VendorName(r))[|"Payment to "|..] == VendorName(r);
    hide VendorName;
  }

  // The recorded row is the one for the transaction this run made.
  lemma RecordedRowItemizes(w: World, id: nat, p: VendorHistory.Payment)
    requires LedgerInv(w) && id in w.runs && w.runs[id].place.AtVendorRecord?
    requires p.award == VendorHistory.AwardId(PaymentKey(w.runs[id].invoiceId)) && p.amount == Amount(w.runs[id])
    ensures var i := w.runs[id].place.transaction;
            i < |w.ledger.journal| && Itemizes(p, w.ledger.journal[i]) && Payee(w.ledger.journal[i]) == VendorName(w.runs[id])
  {
    hide TablesInv, VendorName;
    var r := w.runs[id];
    assert Claims(r, r.place.transaction) && ClaimsHold(w, r, id);
    assert Made(w, r.place.transaction);
    PayeeOfPayment(r);
  }

  // A later record leaves every row under the name it was under.
  lemma RowsKeepTheirVendors(b: VendorHistory.Books, c: VendorHistory.Call, p: VendorHistory.Payment, txn: Ledger.Transaction)
    requires UnderPayee(b.vendors, p, txn)
    ensures UnderPayee(VendorHistory.Record(b, c).0.vendors, p, txn)
  {
    VendorHistory.RecordCreditsVendorAsked(b, c);
    hide VendorHistory.Record, VendorHistory.Stored, VendorHistory.Asked, Payee;
  }

  lemma RowKeepsTransaction(w: World, c: VendorHistory.Call, p: VendorHistory.Payment)
    requires HasTransaction(w.ledger.journal, w.books.vendors, p)
    ensures HasTransaction(w.ledger.journal, VendorHistory.Record(w.books, c).0.vendors, p)
  {
    hide Itemizes, UnderPayee, VendorHistory.Record;
    var i :| 0 <= i < |w.ledger.journal| && Itemizes(p, w.ledger.journal[i]) && UnderPayee(w.books.vendors, p, w.ledger.journal[i]);
    RowsKeepTheirVendors(w.books, c, p, w.ledger.journal[i]);
  }

  // The row that a record adds has its transaction, and is under the payee.
  lemma NewRowHasTransaction(w: World, id: nat)
    requires LedgerInv(w) && id in w.runs && w.runs[id].place.AtVendorRecord?
    ensures var (b, outcome) := VendorHistory.Record(w.books, VendorCall(w.runs[id]));
            if outcome.Recorded? then
              && |b.history| == |w.books.history| + 1 && b.history[..|w.books.history|] == w.books.history
              && HasTransaction(w.ledger.journal, b.vendors, b.history[|w.books.history|])
            else b == w.books
  {
    var r := w.runs[id];
    var (b, outcome) := VendorHistory.Record(w.books, VendorCall(r));
    VendorHistory.RecordCreditsVendorAsked(w.books, VendorCall(r));
    hide LedgerInv, VendorHistory.Record, VendorHistory.Stored, VendorHistory.Asked, Itemizes, Payee, VendorName, Amount, PaymentKey;
    if outcome.Recorded? {
      var p := b.history[|w.books.history|];
      RecordedRowItemizes(w, id, p);
      assert UnderPayee(b.vendors, p, w.ledger.journal[r.place.transaction]);
    }
  }

  lemma RecordingKeepsBooks(w: World, id: nat, delivery: Delivery, n: nat)
    requires Inv(w, n) && id in w.runs && w.runs[id].place.AtVendorRecord?
    ensures BooksInv(Recording(w, id, delivery), n)
  {
    var r, w' := w.runs[id], Recording(w, id, delivery);
    VendorHistory.RecordKeepsConsistent(w.books, VendorCall(r));
    NewRowHasTransaction(w, id);
    hide VendorHistory.Record, VendorHistory.Consistent, VendorCall, HasTransaction, LedgerInv, RunsInv;
    if !delivery.NotApplied? {
      forall k | n <= k < |w'.books.history| ensures HasTransaction(w'.ledger.journal, w'.books.vendors, w'.books.history[k]) {
        if k < |w.books.history| {
          assert w'.books.history[k] == w.books.history[k];
          RowKeepsTransaction(w, VendorCall(r), w.books.history[k]);
        }
      }
    }
  }

  lemma RecordingKeepsRunsInv(w: World, id: nat, delivery: Delivery)
    requires RunsInv(w) && VendorHistory.Consistent(w.books) && id in w.runs && w.runs[id].place.AtVendorRecord?
    ensures RunsInv(Recording(w, id, delivery))
  {
    var r, w' := w.runs[id], Recording(w, id, delivery);
    hide VendorHistory.Record, VendorHistory.Consistent, VendorHistory.Listed, VendorCall;
    forall j | j in w'.runs ensures RunSound(w'.runs[j]) && VendorVouched(w'.books, w'.runs[j]) {
      assert RunSound(w.runs[j]) && VendorVouched(w.books, w.runs[j]);
      VendorHistory.RecordMakesKnown(w.books, VendorCall(r), VendorName(w.runs[j]));
    }
  }

  lemma InvOfRun(w: World, id: nat, n: nat)
    requires Inv(w, n) && id in w.runs
    ensures RunSound(w.runs[id]) && VendorVouched(w.books, w.runs[id]) && VendorHistory.Consistent(w.books)
  {
    hide RunSound, VendorVouched, VendorHistory.Consistent, LedgerInv;
  }

  lemma ApplyKeepsInv(w: World, a: Action, n: nat)
    requires Inv(w, n)
    ensures Inv(Apply(w, a), n)
  {
    hide LedgerInv, RunsInv, BooksInv, Moved, Committing, Recording, RunSound, VendorVouched, Halted;
    if a.Trip? || a.Reset? {
      SwitchIsApart(w, Apply(w, a).switch, n);
    } else if a.Start? {
      if a.run !in w.runs {
        NewRunIsSound(w.books, a.invoiceId);
        QuietStep(w, a.run, Submitted(a.invoiceId), n);
      }
    } else if a.run in w.runs {
      var r := w.runs[a.run];
      InvOfRun(w, a.run, n);
      if a.Commit? {
        if r.place.AtCommit? {
          CommittingKeepsLedgerInv(w, a.run, a.delivery);
          CommittingKeepsRest(w, a.run, a.delivery, n);
        }
      } else if a.RecordVendor? {
        if r.place.AtVendorRecord? {
          RecordingKeepsLedgerInv(w, a.run, a.delivery);
          RecordingKeepsRunsInv(w, a.run, a.delivery);
          RecordingKeepsBooks(w, a.run, a.delivery, n);
        }
      } else if Moved(w, r, a).Some? {
        MovesAreGood(w, r, a);
        MovesVouch(w, r, a);
        QuietStep(w, a.run, Moved(w, r, a).value, n);
      }
    }
  }

  lemma SwitchIsApart(w: World, switch: ControlPlane.Switch, n: nat)
    requires Inv(w, n)
    ensures Inv(w.(switch := switch), n)
  {
    hide TablesInv, PaymentTransaction, RunSound, VendorVouched;
    var w' := w.(switch := switch);
    forall i | 0 <= i < |w.creators| ensures Made(w', i) { assert Made(w, i); }
    forall j | j in w.runs ensures ClaimsHold(w', w.runs[j], j) { assert ClaimsHold(w, w.runs[j], j); }
  }

  lemma QuietStep(w: World, id: nat, r': Run, n: nat)
    requires Inv(w, n)
    requires (id in w.runs ==> BeforeCommit(w.runs[id]))
    requires !r'.place.AtVendorRecord? && !IsSettled(r') && RunSound(r') && VendorVouched(w.books, r')
    ensures Inv(w.(runs := w.runs[id := r']), n)
  {
    hide TablesInv, MakersInv, RunsInv, BooksInv;
    QuietMoveKeepsMakers(w, id, r');
    QuietMoveKeepsRunsInv(w, id, r');
    LongerJournalKeepsBooks(w, w.(runs := w.runs[id := r']), n);
  }

  // Every world that can be reached from consistent vendor books.
  lemma {:induction false} EveryWorldIsSound(books: VendorHistory.Books, switch: ControlPlane.Switch, actions: seq<Action>)
    requires VendorHistory.Consistent(books)
    ensures Inv(RunFrom(Opening(books, switch), actions), |books.history|)
  {
    if actions == [] {
      assert Ledger.Cached(SEED_ACCOUNTS, Ledger.Tables(SEED_ACCOUNTS, []));
    } else {
      var init := actions[..|actions| - 1];
      EveryWorldIsSound(books, switch, init);
      ApplyKeepsInv(RunFrom(Opening(books, switch), init), actions[|actions| - 1], |books.history|);
    }
  }

  // ---------------------------------------------------------------- one payment only

  // A settled run made the transaction it names; no other transaction has its
  // key, and no other run of the same invoice is settled.
  lemma SettledPaidOnce(books: VendorHistory.Books, switch: ControlPlane.Switch, actions: seq<Action>, id: nat)
    requires VendorHistory.Consistent(books)
    requires var w := RunFrom(Opening(books, switch), actions); id in w.runs && IsSettled(w.runs[id])
    ensures var w := RunFrom(Opening(books, switch), actions);
            var i, journal := w.runs[id].payment.value.transaction, w.ledger.journal;
            && i < |journal| == |w.creators| && w.creators[i] == id && journal[i] == PaymentTransaction(w.runs[id])
            && (forall j | 0 <= j < |journal| && journal[j].key == PaymentKey(w.runs[id].invoiceId) :: j == i)
            && (forall other | other in w.runs && w.runs[other].invoiceId == w.runs[id].invoiceId && IsSettled(w.runs[other]) :: other == id)
  {
    var w := RunFrom(Opening(books, switch), actions);
    EveryWorldIsSound(books, switch, actions);
    hide RunFrom, RunsInv, BooksInv, Ledger.Cached, Ledger.Solvent;
    SettledMade(w, id);
    forall other | other in w.runs && w.runs[other].invoiceId == w.runs[id].invoiceId && IsSettled(w.runs[other])
      ensures other == id
    {
      SettledMade(w, other);
    }
  }

  lemma SettledMade(w: World, id: nat)
    requires LedgerInv(w) && id in w.runs && IsSettled(w.runs[id])
    ensures var i, journal := w.runs[id].payment.value.transaction, w.ledger.journal;
            && i < |journal| == |w.creators| && w.creators[i] == id && journal[i] == PaymentTransaction(w.runs[id])
            && forall j | 0 <= j < |journal| && journal[j].key == PaymentKey(w.runs[id].invoiceId) :: j == i
  {
    hide Ledger.Cached, Ledger.Solvent;
    var r := w.runs[id];
    var i := r.payment.value.transaction;
    assert Claims(r, i) && ClaimsHold(w, r, id);
    assert Made(w, i);
  }

  // ------------------------------------------------------------- where the money went

  // The invoice amounts of the runs that made the transactions.
  function PaidOut(runs: map<nat, Run>, creators: seq<nat>): int {
    if creators == [] then 0
    else
      var last := creators[|creators| - 1];
      PaidOut(runs, creators[..|creators| - 1]) + if last in runs then Amount(runs[last]) else 0
  }

  lemma PaymentSums(amount: int)
    ensures Ledger.EntrySum(PaymentEntries(amount), 2, Ledger.Asset, "operating-cash") == -amount
    ensures Ledger.EntrySum(PaymentEntries(amount), 2, Ledger.Expense, "vendor-expense") == amount
    ensures Ledger.EntrySum(PaymentEntries(amount), 2, Ledger.Liability, "accounts-payable") == 0
  {
    assert "vendor-expense"[0] == 'v' && "operating-cash"[0] == 'o' && "accounts-payable"[0] == 'a';
    var e := PaymentEntries(amount);
    assert Ledger.EntrySum(e, 0, Ledger.Asset, "operating-cash") == 0 && Ledger.EntrySum(e, 0, Ledger.Expense, "vendor-expense") == 0
      && Ledger.EntrySum(e, 0, Ledger.Liability, "accounts-payable") == 0;
    assert Ledger.EntrySum(e, 1, Ledger.Asset, "operating-cash") == 0;
    assert Ledger.EntrySum(e, 1, Ledger.Expense, "vendor-expense") == amount;
    assert Ledger.EntrySum(e, 1, Ledger.Liability, "accounts-payable") == 0;
  }

  lemma {:induction false} JournalSumsToPaidOut(runs: map<nat, Run>, creators: seq<nat>, journal: seq<Ledger.Transaction>)
    requires |creators| == |journal|
    requires forall i | 0 <= i < |creators| :: creators[i] in runs && journal[i] == PaymentTransaction(runs[creators[i]])
    ensures Ledger.JournalSum(journal, Ledger.Asset, "operating-cash") == -PaidOut(runs, creators)
    ensures Ledger.JournalSum(journal, Ledger.Expense, "vendor-expense") == PaidOut(runs, creators)
    ensures Ledger.JournalSum(journal, Ledger.Liability, "accounts-payable") == 0
  {
    hide Ledger.EntrySum;
    if journal != [] {
      JournalSumsToPaidOut(runs, creators[..|creators| - 1], journal[..|journal| - 1]);
      PaymentSums(Amount(runs[creators[|creators| - 1]]));
    }
  }

  // In every reachable world the cash that left equals the expense booked equals
  // the invoice amounts committed, each by a different run, and cash never runs out.
  lemma MoneyIsConserved(books: VendorHistory.Books, switch: ControlPlane.Switch, actions: seq<Action>)
    requires VendorHistory.Consistent(books)
    ensures var w := RunFrom(Opening(books, switch), actions);
            var accounts := w.ledger.accounts;
            && accounts.Keys == {"operating-cash", "accounts-payable", "vendor-expense"}
            && 50000000 - accounts["operating-cash"].balance == accounts["vendor-expense"].balance == PaidOut(w.runs, w.creators)
            && accounts["accounts-payable"].balance == 0
            && accounts["operating-cash"].balance >= 0
            && accounts["operating-cash"].kind == Ledger.Asset && !accounts["operating-cash"].allowNegative
            && accounts["accounts-payable"].kind == Ledger.Liability && accounts["accounts-payable"].allowNegative
            && accounts["vendor-expense"].kind == Ledger.Expense && accounts["vendor-expense"].allowNegative
            && Distinct(w.creators)
  {
    var w := RunFrom(Opening(books, switch), actions);
    EveryWorldIsSound(books, switch, actions);
    hide RunFrom, RunsInv, BooksInv, Ledger.KeysUnique;
    forall i | 0 <= i < |w.creators|
      ensures w.creators[i] in w.runs && w.ledger.journal[i] == PaymentTransaction(w.runs[w.creators[i]])
    {
      assert Made(w, i);
    }
    JournalSumsToPaidOut(w.runs, w.creators, w.ledger.journal);
  }

  lemma SameAwardSameKey(a: string, b: string)
    requires VendorHistory.AwardId(a) == VendorHistory.AwardId(b)
    ensures a == b
  {
    assert VendorHistory.AwardId(a)[|"verisettle-"|..] == a && VendorHistory.AwardId(b)[|"verisettle-"|..] == b;
  }

  // Every row written by a payment records exactly one transaction, with its key
  // and its amount, under the vendor that the run which made the transaction paid;
  // and no transaction is recorded by two rows.
  lemma HistoryMatchesLedger(books: VendorHistory.Books, switch: ControlPlane.Switch, actions: seq<Action>, k: nat)
    requires VendorHistory.Consistent(books)
    requires |books.history| <= k < |RunFrom(Opening(books, switch), actions).books.history|
    ensures var w := RunFrom(Opening(books, switch), actions);
            var journal, row := w.ledger.journal, w.books.history[k];
            exists i | 0 <= i < |journal| ::
              && Itemizes(row, journal[i])
              && (forall j | 0 <= j < |journal| && Itemizes(row, journal[j]) :: j == i)
              && (forall l | 0 <= l < |w.books.history| && Itemizes(w.books.history[l], journal[i]) :: l == k)
              && i < |w.creators| && w.creators[i] in w.runs && journal[i] == PaymentTransaction(w.runs[w.creators[i]])
              && row.amount == Amount(w.runs[w.creators[i]])
              && row.vendor < |w.books.vendors|
              && VendorHistory.Stored(w.books.vendors[row.vendor].name) == VendorHistory.Asked(VendorName(w.runs[w.creators[i]]))
  {
    var w := RunFrom(Opening(books, switch), actions);
    EveryWorldIsSound(books, switch, actions);
    hide RunFrom, RunsInv;
    var journal, row := w.ledger.journal, w.books.history[k];
    assert HasTransaction(journal, w.books.vendors, row);
    var i :| 0 <= i < |journal| && Itemizes(row, journal[i]) && UnderPayee(w.books.vendors, row, journal[i]);
    RowIsOneTransaction(w, |books.history|, k, i);
    MadeBy(w, i);
    hide Inv, VendorHistory.Stored, VendorHistory.Asked, VendorName, PaymentTransaction;
    PayeeOfPayment(w.runs[w.creators[i]]);
    AmountOfPayment(w.runs[w.creators[i]], row);
  }

  lemma MadeBy(w: World, i: nat)
    requires LedgerInv(w) && i < |w.ledger.journal|
    ensures i < |w.creators| && w.creators[i] in w.runs && w.ledger.journal[i] == PaymentTransaction(w.runs[w.creators[i]])
  {
    hide TablesInv;
    assert Made(w, i);
  }

  lemma AmountOfPayment(r: Run, p: VendorHistory.Payment)
    requires Itemizes(p, PaymentTransaction(r))
    ensures p.amount == Amount(r)
  {
    assert PaymentEntries(p.amount)[0] == PaymentEntries(Amount(r))[0];
  }

  lemma RowIsOneTransaction(w: World, n: nat, k: nat, i: nat)
    requires Inv(w, n) && k < |w.books.history| && i < |w.ledger.journal| && Itemizes(w.books.history[k], w.ledger.journal[i])
    ensures forall j | 0 <= j < |w.ledger.journal| && Itemizes(w.books.history[k], w.ledger.journal[j]) :: j == i
    ensures forall l | 0 <= l < |w.books.history| && Itemizes(w.books.history[l], w.ledger.journal[i]) :: l == k
  {
    hide RunsInv, MakersInv, HasTransaction;
    forall j | 0 <= j < |w.ledger.journal| && Itemizes(w.books.history[k], w.ledger.journal[j]) ensures j == i {
      SameAwardSameKey(w.ledger.journal[i].key, w.ledger.journal[j].key);
    }
  }

  // ---------------------------------------------------------------- the kill switch

  // A run that has ended, and made no transaction, never makes one.
  lemma {:induction false} EndedStaysEnded(w: World, id: nat, rest: seq<Action>)
    requires id in w.runs && w.runs[id].place.Ended? && id !in w.creators
    ensures var w' := RunFrom(w, rest); id in w'.runs && w'.runs[id] == w.runs[id] && id !in w'.creators
  {
    if rest != [] {
      EndedStaysEnded(w, id, rest[..|rest| - 1]);
      hide Ledger.Post, VendorHistory.Record;
    }
  }

  // If any of the scopes that concern the payment is tripped when the switch is
  // read after the hold, the run ends blocked and never touches the ledger,
  // whatever the earlier gates said and whatever is tripped or reset afterwards.
  // It goes on to its commit exactly when the read fails or finds nothing tripped.
  lemma TrippedRunNeverPays(books: VendorHistory.Books, switch: ControlPlane.Switch, actions: seq<Action>,
                            id: nat, readable: bool, rest: seq<Action>)
    requires VendorHistory.Consistent(books)
    requires var w := RunFrom(Opening(books, switch), actions); id in w.runs && w.runs[id].place.AtHold?
    ensures var w := RunFrom(Opening(books, switch), actions);
            var next := Apply(w, ReadStatus(id, readable));
            var later := RunFrom(next, rest);
            && (next.runs[id].place.AtCommit? <==> !(readable && Frozen(w.switch, w.runs[id].invoiceId)))
            && (readable && Frozen(w.switch, w.runs[id].invoiceId) ==>
                  id in later.runs && later.runs[id].taskState.TaskBlocked? && id !in later.creators)
  {
    var w := RunFrom(Opening(books, switch), actions);
    EveryWorldIsSound(books, switch, actions);
    var next := Apply(w, ReadStatus(id, readable));
    assert id !in w.creators by { BeforeCommitMadeNothing(w, id); }
    assert !Frozen(ControlPlane.AllClear, w.runs[id].invoiceId);
    hide Frozen, Inv;
    if readable && Frozen(w.switch, w.runs[id].invoiceId) {
      EndedStaysEnded(next, id, rest);
    }
  }

  // The steps that end a run short of payment: flagged content, a confident
  // rejection, and any word of a person but "approve".
  predicate Stops(w: World, id: nat, a: Action)
    requires id in w.runs
  {
    var r := w.runs[id];
    match a
    case Extract(run, safe, _) => run == id && r.place.AtExtraction? && !safe
    case Judge(run, approval, _, _) =>
      run == id && r.place.AtApproval? && approval.decision.Reject? && approval.confidence >= CONFIDENCE_THRESHOLD
    case Review(run, decision, readable) =>
      run == id && r.place.AtHumanReview? && decision != "approve" && !Halted(w, r.invoiceId, readable)
    case _ => false
  }

  lemma StoppedRunNeverPays(books: VendorHistory.Books, switch: ControlPlane.Switch, actions: seq<Action>,
                            id: nat, a: Action, rest: seq<Action>)
    requires VendorHistory.Consistent(books)
    requires var w := RunFrom(Opening(books, switch), actions); id in w.runs && Stops(w, id, a)
    ensures var later := RunFrom(Apply(RunFrom(Opening(books, switch), actions), a), rest);
            && id in later.runs && id !in later.creators && later.runs[id].payment.None?
            && (later.runs[id].taskState.TaskFailed? || later.runs[id].taskState.TaskRejected?)
  {
    var w := RunFrom(Opening(books, switch), actions);
    EveryWorldIsSound(books, switch, actions);
    InvOfRun(w, id, |books.history|);
    BeforeCommitMadeNothing(w, id);
    hide Inv, RunFrom, Allows;
    EndedStaysEnded(Apply(w, a), id, rest);
  }

  // A session that is halted, if that can be read, is neither started nor resumed.
  lemma HaltedStandsStill(w: World, id: nat, invoiceId: string, decision: string)
    requires invoiceId in w.switch.haltedSessions
    ensures Apply(w, Start(id, invoiceId, true)) == w
    ensures id in w.runs && w.runs[id].invoiceId == invoiceId ==> Apply(w, Review(id, decision, true)) == w
  {}

  lemma BeforeCommitMadeNothing(w: World, id: nat)
    requires LedgerInv(w) && id in w.runs && BeforeCommit(w.runs[id])
    ensures id !in w.creators
  {
    hide TablesInv;
    forall i | 0 <= i < |w.creators| ensures w.creators[i] != id {
      assert Made(w, i);
    }
  }

  // --------------------------------------------------- payments and the real ledger

  // What the backend makes of the answer of a ledger call that ran among others.
  function ReplyFor(answer: LedgerConcurrency.Answer): Reply {
    match answer
    case Posted(i) => Created(i)
    case Refused(DuplicateTransaction(_)) => Conflict
    case _ => Failure
  }

  // A run whose post has ended with this answer, leaving these tables; a reply
  // that is not heard is a failure to the run.
  function Told(w: World, id: nat, after: Ledger.Tables, answer: LedgerConcurrency.Answer, heard: bool): World
    requires id in w.runs
  {
    w.(runs := w.runs[id := Committed(w.runs[id], if heard then ReplyFor(answer) else Failure)],
       ledger := after,
       creators := if answer.Posted? then w.creators + [id] else w.creators)
  }

  // A post that runs statement by statement among others ends in one of the ways
  // that a commit can end here: the same ledger, the same reply, the same world.
  lemma EveryEndIsADelivery(w: World, id: nat, after: Ledger.Tables, answer: LedgerConcurrency.Answer, heard: bool) returns (d: Delivery)
    requires id in w.runs
    requires LedgerConcurrency.SerialAnswer(
      w.ledger, after, LedgerConcurrency.PostRequest(PaymentTransaction(w.runs[id])), answer)
    ensures Committing(w, id, d) == Told(w, id, after, answer, heard)
  {
    hide PaymentTransaction, Committed;
    var txn := PaymentTransaction(w.runs[id]);
    PostAppendsOrRefuses(w.ledger, txn);
    var asPosted := answer.Posted? || (answer.Refused? && Ledger.Post(w.ledger, txn).1 == Ledger.Err(answer.error));
    d := if !asPosted then NotApplied else if heard then Answered else AnswerLost;
    if answer.Refused? && !asPosted {
      ValidationNeverSaysDuplicate(w.ledger.accounts, txn.entries);
    }
    hide Ledger.Post;
  }

  // Every payment locks the expense account first.
  function LockRank(name: string): int { if name == "vendor-expense" then 0 else 1 }

  predicate AllPayments(s: LedgerConcurrency.System) {
    forall t | t in s.calls :: var e := s.calls[t].request.Entries(); |e| == 2 && e == PaymentEntries(e[0].amount)
  }

  lemma PaymentsAreInOrder(s: LedgerConcurrency.System)
    requires AllPayments(s)
    ensures LedgerConcurrency.AllInOrder(LockRank, s)
  {
    assert "vendor-expense"[0] != "operating-cash"[0];
  }

  // Payments never wait for each other in a circle, and any state of theirs can
  // be carried on until every one of them has finished.
  lemma PaymentsNeverDeadlock(s: LedgerConcurrency.System, c: seq<nat>) returns (schedule: seq<LedgerConcurrency.Action>)
    requires LedgerConcurrency.Inv(s) && AllPayments(s)
    ensures |c| >= 2 && LedgerConcurrency.WaitChain(s, c) ==> c[0] != c[|c| - 1]
    ensures LedgerConcurrency.AllFinished(LedgerConcurrency.Run(s, schedule))
    ensures LedgerConcurrency.Run(s, schedule).calls.Keys == s.calls.Keys
  {
    PaymentsAreInOrder(s);
    if |c| >= 2 && LedgerConcurrency.WaitChain(s, c) {
      LedgerConcurrency.NoDeadlock(s, LockRank, c);
    }
    assert LedgerConcurrency.Run(s, []) == s;
    schedule := LedgerConcurrency.AllCallsFinish(s, LockRank, []);
  }

  // How the ledger judges a payment: the amount must be there, the key be new.
  lemma PaymentIsJudgedByCash(w: World, r: Run)
    requires LedgerInv(w)
    ensures var cash := w.ledger.accounts["operating-cash"].balance;
            var result := Ledger.Post(w.ledger, PaymentTransaction(r)).1;
            && (Ledger.DryRun(w.ledger, PaymentEntries(Amount(r))).Valid? <==> Amount(r) <= cash)
            && (ReplyTo(result).Conflict? <==> Ledger.KeyUsed(w.ledger.journal, PaymentKey(r.invoiceId)))
            && (ReplyTo(result).Created? <==>
                  !Ledger.KeyUsed(w.ledger.journal, PaymentKey(r.invoiceId)) && Amount(r) <= cash)
  {
    hide MakersInv, Ledger.KeyUsed, Ledger.KeysUnique, Ledger.JournalSum, PaymentKey;
    var accounts, entries := w.ledger.accounts, PaymentEntries(Amount(r));
    PaymentEntriesAreSimple(Amount(r));
    PaymentBalances(Amount(r));
    ValidationNeverSaysDuplicate(accounts, entries);
    assert accounts["vendor-expense"].allowNegative && accounts["vendor-expense"].kind == Ledger.Expense;
    assert accounts["operating-cash"].kind == Ledger.Asset && !accounts["operating-cash"].allowNegative;
    assert Ledger.EntryOutcome(accounts, entries[0]).Ok?;
    assert Ledger.EntryOutcome(accounts, entries[1]).Ok? <==> Amount(r) <= accounts["operating-cash"].balance;
    assert Ledger.FirstFault(accounts, entries, 0) == Ledger.FirstFault(accounts, entries, 1);
  }

  lemma PaymentBalances(amount: int)
    ensures Ledger.Balances(PaymentEntries(amount))
  {
    var e := PaymentEntries(amount);
    assert Ledger.Total(e, 0, Ledger.Debit) == 0 && Ledger.Total(e, 0, Ledger.Credit) == 0;
    assert Ledger.Total(e, 1, Ledger.Debit) == amount && Ledger.Total(e, 1, Ledger.Credit) == 0;
    assert Ledger.Total(e, 2, Ledger.Debit) == amount && Ledger.Total(e, 2, Ledger.Credit) == amount;
  }

  // The steps of one payment, one after the other.
  function PassGates(w: World, id: nat, pdp: Pdp, readable: bool): World {
    Apply(Apply(Apply(w, Authorize(id, pdp)), DryRun(id)), ReadStatus(id, readable))
  }

  function PayWithoutPause(w: World, id: nat, pdp: Pdp, readable: bool): World {
    Apply(Apply(PassGates(w, id, pdp, readable), Commit(id, Answered)), RecordVendor(id, Answered))
  }

  lemma GatesAreSteps(w: World, id: nat, pdp: Pdp, readable: bool)
    requires id in w.runs && w.runs[id].place.AtPayment?
    ensures var w' := PassGates(w, id, pdp, readable);
            var r' := Gated(w.runs[id], w.ledger, Allows(pdp, PaymentRequest(w.runs[id])), Reading(w, readable));
            w' == w.(runs := w.runs[id := r']) && (r'.place.AtCommit? || r'.place.Ended?)
  {
    hide Ledger.DryRun, Allows, Frozen, PaymentEntries;
    var w1 := Apply(w, Authorize(id, pdp));
    var w2 := Apply(w1, DryRun(id));
    assert Amount(w1.runs[id]) == Amount(w.runs[id]);
    assert Reading(w2, readable) == Reading(w, readable);
  }

  lemma CommitAndRecordAreSteps(w: World, id: nat)
    requires id in w.runs && (w.runs[id].place.AtCommit? || w.runs[id].place.Ended?)
    ensures var w' := Apply(Apply(w, Commit(id, Answered)), RecordVendor(id, Answered));
            && w'.runs == w.runs[id := w'.runs[id]] && w'.switch == w.switch
            && if w.runs[id].place.Ended? then w'.runs[id] == w.runs[id] && w'.ledger == w.ledger && w'.books == w.books
               else
                 var (r, t) := InvoiceRun.Commit(w.runs[id], w.ledger);
                 && w'.ledger == t
                 && (w'.runs[id], w'.books) == if r.place.AtVendorRecord? then InvoiceRun.RecordVendor(r, w.books) else (r, w.books)
  {
    hide Ledger.Post, VendorHistory.Record, PaymentTransaction, VendorCall;
  }

  // Payment execution that nothing interrupts is the node run as a whole.
  lemma UninterruptedPaymentIsPaid(w: World, id: nat, pdp: Pdp, readable: bool)
    requires id in w.runs && w.runs[id].place.AtPayment?
    ensures var w' := PayWithoutPause(w, id, pdp, readable);
            && w'.runs == w.runs[id := w'.runs[id]] && w'.switch == w.switch
            && (w'.runs[id], w'.ledger, w'.books) ==
               Paid(w.runs[id], w.ledger, w.books, Allows(pdp, PaymentRequest(w.runs[id])), Reading(w, readable))
  {
    GatesAreSteps(w, id, pdp, readable);
    hide Apply, PassGates, Gated, InvoiceRun.Commit, InvoiceRun.RecordVendor, Allows, PaymentRequest, Reading;
    CommitAndRecordAreSteps(PassGates(w, id, pdp, readable), id);
  }

  lemma LedgerRequestAllowed(r: Run, pdp: Pdp)
    ensures Allows(pdp, PaymentRequest(r)) <==> pdp.Reached? && SwitchLets(pdp.status, "payment-execution")
  {
    if pdp.Reached? { PaymentAllowedExactly(pdp.log, r, pdp.at, pdp.status); }
    hide PolicyDecision.Decided, SwitchLets;
  }

  // The four conditions under which a payment that nothing interrupts settles.
  predicate WillSettle(w: World, r: Run, pdp: Pdp, readable: bool)
    requires "operating-cash" in w.ledger.accounts
  {
    && pdp.Reached? && SwitchLets(pdp.status, "payment-execution")
    && Amount(r) <= w.ledger.accounts["operating-cash"].balance
    && !(readable && Frozen(w.switch, r.invoiceId))
    && !PaidBefore(w, r.invoiceId)
  }

  // Some run of this invoice has made a transaction.
  predicate PaidBefore(w: World, invoiceId: string) {
    exists i | 0 <= i < |w.creators| :: w.creators[i] in w.runs && w.runs[w.creators[i]].invoiceId == invoiceId
  }

  lemma SameKeySameInvoice(a: string, b: string)
    requires PaymentKey(a) == PaymentKey(b)
    ensures a == b
  {
    assert PaymentKey(a)[|"invoice-"|..] == a && PaymentKey(b)[|"invoice-"|..] == b;
  }

  // A key is used exactly when its invoice has been paid: the ledger refuses a
  // second payment of an invoice, and no payment of another one.
  lemma KeyUsedIsPaidBefore(w: World, invoiceId: string)
    requires LedgerInv(w)
    ensures Ledger.KeyUsed(w.ledger.journal, PaymentKey(invoiceId)) <==> PaidBefore(w, invoiceId)
  {
    hide TablesInv;
    if Ledger.KeyUsed(w.ledger.journal, PaymentKey(invoiceId)) {
      var i :| 0 <= i < |w.ledger.journal| && w.ledger.journal[i].key == PaymentKey(invoiceId);
      assert Made(w, i);
      SameKeySameInvoice(w.runs[w.creators[i]].invoiceId, invoiceId);
    }
    if PaidBefore(w, invoiceId) {
      var i :| 0 <= i < |w.creators| && w.creators[i] in w.runs && w.runs[w.creators[i]].invoiceId == invoiceId;
      assert Made(w, i);
    }
  }

  lemma CommitExactly(w: World, r: Run)
    requires LedgerInv(w)
    ensures var (r', t) := InvoiceRun.Commit(r, w.ledger);
            var unused := !Ledger.KeyUsed(w.ledger.journal, PaymentKey(r.invoiceId));
            if unused && Amount(r) <= w.ledger.accounts["operating-cash"].balance then
              r'.place.AtVendorRecord? && t.journal == w.ledger.journal + [PaymentTransaction(r)]
            else t == w.ledger && (r'.place.Ended? || r'.place.Raised?) && (IsSettled(r') ==> IsSettled(r))
  {
    PaymentIsJudgedByCash(w, r);
    PostAppendsOrRefuses(w.ledger, PaymentTransaction(r));
    hide Ledger.Post, Ledger.DryRun, PaymentTransaction, LedgerInv;
  }

  lemma GatedExactly(r: Run, t: Ledger.Tables, allowed: bool, status: Option<ControlPlane.Switch>)
    requires r.place.AtPayment? && !IsSettled(r)
    ensures var r' := Gated(r, t, allowed, status);
            && (r'.place.AtCommit? <==> && allowed && Ledger.DryRun(t, PaymentEntries(Amount(r))).Valid?
                                        && !(status.Some? && Frozen(status.value, r.invoiceId)))
            && (r'.place.AtCommit? || r'.place.Ended?) && !IsSettled(r')
            && r'.invoice == r.invoice && r'.invoiceId == r.invoiceId
  {
    assert !Frozen(ControlPlane.AllClear, r.invoiceId);
    hide Ledger.DryRun, Frozen, PaymentEntries;
  }

  lemma PaidExactly(w: World, r: Run, pdp: Pdp, readable: bool)
    requires LedgerInv(w) && r.place.AtPayment? && !IsSettled(r)
    ensures var (r', t, b) := Paid(r, w.ledger, w.books, Allows(pdp, PaymentRequest(r)), Reading(w, readable));
            if WillSettle(w, r, pdp, readable) then
              && IsSettled(r')
              && t.journal == w.ledger.journal + [PaymentTransaction(r)]
              && b == VendorHistory.Record(w.books, VendorCall(r)).0
            else !IsSettled(r') && t == w.ledger && b == w.books
  {
    hide Ledger.Post, Ledger.DryRun, Allows, PaymentRequest, Frozen, Ledger.KeyUsed, PaymentTransaction, VendorCall, Gated,
      VendorHistory.Record, PaidBefore;
    assert "operating-cash" in w.ledger.accounts;
    hide LedgerInv;
    var r3 := Gated(r, w.ledger, Allows(pdp, PaymentRequest(r)), Reading(w, readable));
    LedgerRequestAllowed(r, pdp);
    PaymentIsJudgedByCash(w, r);
    GatedExactly(r, w.ledger, Allows(pdp, PaymentRequest(r)), Reading(w, readable));
    SameInvoiceSameCalls(r, r3);
    KeyUsedIsPaidBefore(w, r.invoiceId);
    CommitExactly(w, r3);
    SameInvoiceSameCalls(r3, InvoiceRun.Commit(r3, w.ledger).0);
    hide InvoiceRun.Commit, Amount, PaymentKey, PaidBefore;
  }

  // In every reachable world, a payment that nothing interrupts settles exactly
  // when the decision point is there and lets it, the cash suffices, nothing that
  // concerns it is tripped after the hold, and its invoice was not paid before.
  // Then the ledger gains its one transaction; otherwise nothing changes at all.
  lemma PaymentSettlesExactly(books: VendorHistory.Books, switch: ControlPlane.Switch, actions: seq<Action>,
                              id: nat, pdp: Pdp, readable: bool)
    requires VendorHistory.Consistent(books)
    requires var w := RunFrom(Opening(books, switch), actions); id in w.runs && w.runs[id].place.AtPayment?
    ensures var w := RunFrom(Opening(books, switch), actions);
            var r := w.runs[id];
            var w' := PayWithoutPause(w, id, pdp, readable);
            && "operating-cash" in w.ledger.accounts
            && id in w'.runs && (IsSettled(w'.runs[id]) <==> WillSettle(w, r, pdp, readable))
            && if IsSettled(w'.runs[id]) then
                 && w'.ledger.journal == w.ledger.journal + [PaymentTransaction(r)]
                 && (if VendorHistory.AwardUsed(w.books.history, "verisettle-invoice-" + r.invoiceId) then w'.books == w.books
                     else Credited(w.books, w'.books, VendorName(r), Amount(r), "verisettle-invoice-" + r.invoiceId))
               else w'.ledger == w.ledger && w'.books == w.books
  {
    var w := RunFrom(Opening(books, switch), actions);
    EveryWorldIsSound(books, switch, actions);
    hide RunFrom;
    var r := w.runs[id];
    assert RunSound(r) && VendorHistory.Consistent(w.books) && "operating-cash" in w.ledger.accounts;
    hide LedgerInv, RunsInv, BooksInv;
    UninterruptedPaymentIsPaid(w, id, pdp, readable);
    PaidExactly(w, r, pdp, readable);
    RecordCredits(r, w.books);
    hide PayWithoutPause, Paid, WillSettle, VendorHistory.Consistent, VendorHistory.AwardUsed, Credited, PaymentTransaction, VendorCall,
      VendorHistory.Record, VendorName, Amount;
  }

  // Tripping a scope freezes a payment exactly when it concerns that payment.
  lemma TripFreezes(sw: ControlPlane.Switch, scope: ControlPlane.Scope, target: string, invoiceId: string)
    ensures Frozen(ControlPlane.Trip(sw, scope, target), invoiceId) <==>
            || Frozen(sw, invoiceId) || scope.GlobalScope?
            || (scope.AgentScope? && target == "payment-execution")
            || (scope.SessionScope? && target == invoiceId)
            || (scope.ToolScope? && target == "create-ledger-entry")
  {}
}
