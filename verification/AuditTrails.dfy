/**
 What the audit trail kept in a run's own state says about the run, in every
 world that many interleaved runs can reach.
 */
module AuditTrails {
  import opened Common
  import opened InvoiceRun
  import opened PaymentSystem
  import ControlPlane
  import Ledger
  import VendorHistory

  predicate Ends(trail: seq<AuditStep>, suffix: seq<AuditStep>) {
    |suffix| <= |trail| && trail[|trail| - |suffix|..] == suffix
  }

  // The steps of a payment that was committed.
  function CommitSteps(transaction: nat): seq<AuditStep> {
    [LedgerDryRun(true), HoldStart, HoldCleared, LedgerCommit(transaction)]
  }

  predicate StepsTold(r: Run) {
    && (r.place.AtHold? ==> Ends(r.trail, [LedgerDryRun(true), HoldStart]))
    && (r.place.AtCommit? ==> Ends(r.trail, [LedgerDryRun(true), HoldStart, HoldCleared]))
    && (r.place.AtVendorRecord? ==> Ends(r.trail, CommitSteps(r.place.transaction)))
    && (IsSettled(r) ==>
          || Ends(r.trail, CommitSteps(r.payment.value.transaction) + [VendorRecorded])
          || Ends(r.trail, CommitSteps(r.payment.value.transaction) + [VendorRecordFailed]))
  }

  // A person's decision is on the trail exactly when one was made, word for word;
  // without one, the approval and the critic's agreement are.
  ghost predicate DecisionsTold(r: Run) {
    && (forall d :: HumanDecision(d) in r.trail <==> r.humanDecision == Some(d))
    && (Paying(r) && r.humanDecision.None? ==>
          r.approval.Some? && ApprovalDecision(r.approval.value) in r.trail && CriticReview(true) in r.trail)
  }

  ghost predicate Truthful(r: Run) { StepsTold(r) && DecisionsTold(r) }

  lemma EarlyMovesTell(r: Run, safe: bool, invoice: Invoice, known: bool, score: RiskScore, flagAllowed: bool, decision: string)
    requires RunSound(r) && Truthful(r)
    ensures r.place.AtExtraction? ==> Truthful(Extracted(r, safe, invoice))
    ensures r.place.AtRiskScoring? ==> Truthful(Scored(r, known, score, flagAllowed))
    ensures r.place.AtHumanReview? ==> Truthful(Reviewed(r, decision))
  {
    hide Ends;
  }

  lemma JudgementTells(r: Run, approval: Approval, agrees: bool, authorized: bool)
    requires RunSound(r) && Truthful(r) && r.place.AtApproval?
    ensures Truthful(Judged(r, approval, agrees, authorized))
  {
    hide Ends;
  }

  lemma MoreSteps(trail: seq<AuditStep>, suffix: seq<AuditStep>, more: seq<AuditStep>)
    requires Ends(trail, suffix)
    ensures Ends(trail + more, suffix + more)
  {}

  lemma DryRunTells(r: Run, valid: bool)
    requires RunSound(r) && Truthful(r) && r.place.AtDryRun?
    ensures Truthful(DryRan(r, valid))
  {
    var r' := DryRan(r, valid);
    assert DecisionsTold(r') by { hide Ends; }
    if valid {
      MoreSteps(r.trail, [], [LedgerDryRun(true), HoldStart]);
      assert [] + [LedgerDryRun(true), HoldStart] == [LedgerDryRun(true), HoldStart];
    }
    hide Ends, DecisionsTold;
  }

  lemma StatusReadTells(r: Run, status: Option<ControlPlane.Switch>)
    requires RunSound(r) && Truthful(r) && r.place.AtHold?
    ensures Truthful(StatusRead(r, status))
  {
    hide Frozen, Ends;
    var r' := StatusRead(r, status);
    assert DecisionsTold(r');
    MoreSteps(r.trail, [LedgerDryRun(true), HoldStart], [HoldCleared]);
    assert [LedgerDryRun(true), HoldStart] + [HoldCleared] == [LedgerDryRun(true), HoldStart, HoldCleared];
    hide DecisionsTold;
  }

  lemma PaymentMovesTell(r: Run, ok: bool, status: Option<ControlPlane.Switch>)
    requires RunSound(r) && Truthful(r)
    ensures r.place.AtPayment? ==> Truthful(Authorized(r, ok))
    ensures r.place.AtDryRun? ==> Truthful(DryRan(r, ok))
    ensures r.place.AtHold? ==> Truthful(StatusRead(r, status))
  {
    if r.place.AtPayment? {
      hide Ends;
    } else if r.place.AtDryRun? {
      hide RunSound, Truthful, DryRan;
      DryRunTells(r, ok);
    } else if r.place.AtHold? {
      hide RunSound, Truthful, StatusRead;
      StatusReadTells(r, status);
    }
  }

  lemma MovesTell(w: World, r: Run, a: Action)
    requires RunSound(r) && Truthful(r) && Moved(w, r, a).Some?
    ensures Truthful(Moved(w, r, a).value)
  {
    hide RunSound, Truthful, Allows, KnownVendor, Ledger.DryRun, Halted, Extracted, Scored, Reviewed, Judged, Authorized, DryRan, StatusRead;
    match a
    case Extract(_, safe, invoice) => EarlyMovesTell(r, safe, invoice, false, RiskScore(Low, true), false, "");
    case Score(_, reachable, score, pdp) =>
      var known := KnownVendor(w, r, reachable);
      EarlyMovesTell(r, true, Invoice(None, None), known, score, Allows(pdp, FlagRequest(r, known)), "");
    case Review(_, decision, _) => EarlyMovesTell(r, true, Invoice(None, None), false, RiskScore(Low, true), false, decision);
    case Judge(_, approval, agrees, pdp) => JudgementTells(r, approval, agrees, Allows(pdp, ApprovalRequest(r)));
    case Authorize(_, pdp) => PaymentMovesTell(r, Allows(pdp, PaymentRequest(r)), None);
    case DryRun(_) => PaymentMovesTell(r, Ledger.DryRun(w.ledger, PaymentEntries(Amount(r))).Valid?, None);
    case ReadStatus(_, readable) => PaymentMovesTell(r, true, Reading(w, readable));
    case _ =>
  }

  lemma CommitTells(r: Run, reply: Reply)
    requires RunSound(r) && Truthful(r) && r.place.AtCommit?
    ensures Truthful(Committed(r, reply))
  {}

  lemma RecordTells(r: Run, recorded: bool)
    requires RunSound(r) && Truthful(r) && r.place.AtVendorRecord?
    ensures Truthful(Finished(r, recorded))
  {}

  ghost predicate AllTruthful(w: World) { forall id | id in w.runs :: Truthful(w.runs[id]) }

  lemma NewRunTells(invoiceId: string)
    ensures Truthful(Submitted(invoiceId))
  {}

  lemma ApplyKeepsTruth(w: World, a: Action)
    requires RunsInv(w) && AllTruthful(w)
    ensures AllTruthful(Apply(w, a))
  {
    hide RunSound, VendorVouched, Truthful, Moved, Committed, Finished, Ledger.Post, VendorHistory.Record, PaymentTransaction, VendorCall, Halted;
    if a.Trip? || a.Reset? {
    } else if a.Start? {
      NewRunTells(a.invoiceId);
    } else if a.run in w.runs {
      var r := w.runs[a.run];
      assert RunSound(r) && Truthful(r);
      if a.Commit? {
        if r.place.AtCommit? {
          CommitTells(r, if a.delivery.Answered? then ReplyTo(Ledger.Post(w.ledger, PaymentTransaction(r)).1) else Failure);
        }
      } else if a.RecordVendor? {
        if r.place.AtVendorRecord? {
          RecordTells(r, true);
          RecordTells(r, false);
        }
      } else if Moved(w, r, a).Some? {
        MovesTell(w, r, a);
      }
    }
  }

  // Every trail tells the truth: a settled run's ends with its valid dry run, its
  // hold, the cleared switch, its own commit and the outcome of the vendor record,
  // and it shows who decided.
  lemma {:induction false} EveryTrailIsTruthful(books: VendorHistory.Books, switch: ControlPlane.Switch, actions: seq<Action>)
    requires VendorHistory.Consistent(books)
    ensures AllTruthful(RunFrom(Opening(books, switch), actions))
  {
    if actions != [] {
      var init := actions[..|actions| - 1];
      EveryTrailIsTruthful(books, switch, init);
      EveryWorldIsSound(books, switch, init);
      hide LedgerInv, RunsInv, BooksInv, AllTruthful, Apply;
      ApplyKeepsTruth(RunFrom(Opening(books, switch), init), actions[|actions| - 1]);
    }
  }
}
