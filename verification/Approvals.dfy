/**
 Who decides a payment: what a payment that no person approved has passed, what a
 person's one word passes over, and when a settled payment meets the approval
 policies.
 */
module Approvals {
  import opened Common
  import opened InvoiceRun
  import opened PaymentSystem
  import CedarPolicies
  import ControlPlane
  import Ledger
  import PolicyDecision
  import VendorHistory

  // ---------------------------------------------------------- who decides a payment

  // Scoring hands an invoice to a person exactly when the model calls it high risk
  // and the decision point can be reached and takes the flag; a high-risk invoice
  // whose flag is refused goes on to approval like any other.
  lemma ScoringSendsToHumanExactly(w: World, id: nat, reachable: bool, score: RiskScore, pdp: Pdp)
    requires RunsInv(w) && id in w.runs && w.runs[id].place.AtRiskScoring?
    ensures var r' := Apply(w, Score(id, reachable, score, pdp)).runs[id];
            && (r'.place.AtHumanReview? <==> score.level.High? && pdp.Reached? && SwitchLets(pdp.status, "risk-scoring"))
            && (r'.place.AtApproval? <==> !r'.place.AtHumanReview?)
            && (r'.risk.Some? && (!r'.risk.value.vendorFirstSeen <==> KnownVendor(w, w.runs[id], reachable)))
  {
    var r := w.runs[id];
    assert RunSound(r);
    var known := KnownVendor(w, r, reachable);
    if pdp.Reached? { FlagAllowedExactly(pdp.log, r, known, pdp.at, pdp.status); }
    hide PolicyDecision.Decided, KnownVendor, FlagRequest, SwitchLets;
  }

  // Approval lets a payment through exactly when the model is confident, the critic
  // agrees, the amount is at most 5000.50, the vendor is known, fewer than three of
  // the vendor's approvals are recent, and nothing is tripped; it rejects exactly
  // when the model is confident in rejecting; everything else goes to a person.
  lemma ApprovalPassesExactly(r: Run, approval: Approval, agrees: bool, pdp: Pdp)
    requires RunSound(r) && r.place.AtApproval?
    ensures var r' := Judged(r, approval, agrees, Allows(pdp, ApprovalRequest(r)));
            && (r'.place.AtPayment? <==>
                  && approval.confidence >= 0.75 && approval.decision.AutoApprove? && agrees
                  && Amount(r) <= 500050 && !r.risk.value.vendorFirstSeen
                  && pdp.Reached? && SwitchLets(pdp.status, "approval")
                  && PolicyDecision.CountSince(pdp.log, VendorName(r), pdp.at - 24 * 3600) < 3)
            && (r'.place.Ended? <==> approval.confidence >= 0.75 && approval.decision.Reject?)
            && (r'.place.AtHumanReview? <==> !r'.place.AtPayment? && !r'.place.Ended?)
  {
    if pdp.Reached? { ApprovalAllowedExactly(pdp.log, r, pdp.at, pdp.status); }
    hide PolicyDecision.Decided, PolicyDecision.CountSince, ApprovalRequest, Amount, VendorName, SwitchLets;
  }

  // ------------------------------------------------------ payments no person approved

  // Action n scored this run: its invoice was the one given, the ledger knew its
  // vendor in the books of that moment, and the run had made no transaction yet.
  ghost predicate ScoredAsKnown(start: World, actions: seq<Action>, id: nat, invoice: Option<Invoice>, n: nat) {
    && n < |actions| && actions[n].Score? && actions[n].run == id
    && var w := RunFrom(start, actions[..n]);
       && id in w.runs && w.runs[id].place.AtRiskScoring? && w.runs[id].invoice == invoice && id !in w.creators
       && KnownVendor(w, w.runs[id], actions[n].reachable)
       && VendorHistory.Listed(w.books, VendorName(w.runs[id]))
  }

  lemma ScoredEarlier(start: World, actions: seq<Action>, id: nat, invoice: Option<Invoice>, n: nat)
    requires actions != [] && ScoredAsKnown(start, actions[..|actions| - 1], id, invoice, n)
    ensures ScoredAsKnown(start, actions, id, invoice, n)
  {
    assert actions[..|actions| - 1][..n] == actions[..n];
  }

  predicate ScoredKnown(r: Run) { r.risk.Some? && !r.risk.value.vendorFirstSeen }

  // A step either leaves risk and invoice alone or is the scoring of a known vendor.
  lemma StepScores(w: World, a: Action, id: nat, n: nat)
    requires Inv(w, n) && id in Apply(w, a).runs && ScoredKnown(Apply(w, a).runs[id])
    ensures id in w.runs
    ensures || (ScoredKnown(w.runs[id]) && Apply(w, a).runs[id].invoice == w.runs[id].invoice)
            || (&& a.Score? && a.run == id && w.runs[id].place.AtRiskScoring? && KnownVendor(w, w.runs[id], a.reachable)
                && Apply(w, a).runs[id].invoice == w.runs[id].invoice)
  {
    hide Inv, Ledger.Post, VendorHistory.Record, PaymentTransaction, VendorCall, Halted, Frozen, Allows, KnownVendor, Ledger.DryRun;
    if id in w.runs && !a.Trip? && !a.Reset? && !a.Start? && a.run == id {
      InvOfRun(w, id, n);
      var moved := Moved(w, w.runs[id], a);
      if moved.Some? {
        MovesAreGood(w, w.runs[id], a);
      }
    }
  }

  lemma {:induction false} KnownWhenScored(books: VendorHistory.Books, switch: ControlPlane.Switch, actions: seq<Action>, id: nat)
    requires VendorHistory.Consistent(books)
    requires var w := RunFrom(Opening(books, switch), actions); id in w.runs && ScoredKnown(w.runs[id])
    ensures exists n :: ScoredAsKnown(Opening(books, switch), actions, id, RunFrom(Opening(books, switch), actions).runs[id].invoice, n)
    decreases |actions|
  {
    hide Apply, Inv, KnownVendor, VendorHistory.Consistent, VendorHistory.Listed;
    if actions != [] {
      var start, init, last := Opening(books, switch), actions[..|actions| - 1], actions[|actions| - 1];
      var w := RunFrom(start, init);
      var invoice := RunFrom(start, actions).runs[id].invoice;
      EveryWorldIsSound(books, switch, init);
      StepScores(w, last, id, |books.history|);
      if ScoredKnown(w.runs[id]) && invoice == w.runs[id].invoice {
        KnownWhenScored(books, switch, init, id);
        var n :| ScoredAsKnown(start, init, id, invoice, n);
        ScoredEarlier(start, actions, id, invoice, n);
      } else {
        KnownIsListed(w, id, last.reachable, |books.history|);
        assert actions[..|actions| - 1] == init;
        assert ScoredAsKnown(start, actions, id, invoice, |actions| - 1);
      }
    }
  }

  lemma KnownIsListed(w: World, id: nat, reachable: bool, n: nat)
    requires Inv(w, n) && id in w.runs && w.runs[id].place.AtRiskScoring? && KnownVendor(w, w.runs[id], reachable)
    ensures VendorHistory.Listed(w.books, VendorName(w.runs[id])) && id !in w.creators
  {
    InvOfRun(w, id, n);
    BeforeCommitMadeNothing(w, id);
    VendorHistory.LookupTellsTheTruth(w.books, VendorName(w.runs[id]));
    hide Inv, VendorHistory.LookedUp, VendorHistory.Listed, VendorHistory.Consistent;
  }

  // A payment that settled without a person's approval passed every gate: the model
  // approved with enough confidence, the critic agreed, the amount is at most
  // 5000.50, and the vendor is one that the ledger already knew when the run was
  // scored, before the run had made any transaction or written to any book.
  lemma UnattendedPaymentPassedEveryGate(books: VendorHistory.Books, switch: ControlPlane.Switch, actions: seq<Action>, id: nat)
    requires VendorHistory.Consistent(books)
    requires var w := RunFrom(Opening(books, switch), actions);
             id in w.runs && IsSettled(w.runs[id]) && w.runs[id].humanDecision != Some("approve")
    ensures var r := RunFrom(Opening(books, switch), actions).runs[id];
            && r.humanDecision.None?
            && r.approval.Some? && r.approval.value.decision == AutoApprove && r.approval.value.confidence >= 0.75
            && r.criticAgrees == Some(true)
            && Amount(r) <= 500050
            && r.risk.Some? && !r.risk.value.vendorFirstSeen && HasVendor(r)
            && exists n :: ScoredAsKnown(Opening(books, switch), actions, id, r.invoice, n)
  {
    var w := RunFrom(Opening(books, switch), actions);
    EveryWorldIsSound(books, switch, actions);
    InvOfRun(w, id, |books.history|);
    KnownWhenScored(books, switch, actions, id);
    hide RunFrom, Inv, ScoredAsKnown, VendorHistory.Listed;
  }

  // ------------------------------------------------------- payments a person approved

  // One word of a person leads from any review to payment, and from there only the
  // four conditions of the payment itself count: no amount, no vendor and no
  // authority of the approver makes a difference.
  lemma ApprovedByPersonSettlesExactly(books: VendorHistory.Books, switch: ControlPlane.Switch, actions: seq<Action>,
                                       id: nat, readable: bool, pdp: Pdp, readableAfterHold: bool)
    requires VendorHistory.Consistent(books)
    requires var w := RunFrom(Opening(books, switch), actions);
             id in w.runs && w.runs[id].place.AtHumanReview? && !Halted(w, w.runs[id].invoiceId, readable)
    ensures var w := RunFrom(Opening(books, switch), actions);
            var w' := PayWithoutPause(Apply(w, Review(id, "approve", readable)), id, pdp, readableAfterHold);
            && "operating-cash" in w.ledger.accounts && id in w'.runs
            && w'.runs[id].risk == w.runs[id].risk && w'.runs[id].invoice == w.runs[id].invoice
            && w'.runs[id].humanDecision == Some("approve")
            && (IsSettled(w'.runs[id]) <==> WillSettle(w, w.runs[id], pdp, readableAfterHold))
  {
    var more := actions + [Review(id, "approve", readable)];
    assert more[..|actions|] == actions;
    var w, w1 := RunFrom(Opening(books, switch), actions), RunFrom(Opening(books, switch), more);
    assert w1 == Apply(w, Review(id, "approve", readable));
    hide RunFrom, Halted;
    assert w1 == w.(runs := w.runs[id := Reviewed(w.runs[id], "approve")]);
    PaymentSettlesExactly(books, switch, more, id, pdp, readableAfterHold);
    PaymentKeepsDecision(w1, id, pdp, readableAfterHold);
    hide PayWithoutPause, Apply, SwitchLets, Frozen, PaidBefore;
  }

  predicate SameDecision(r: Run, r': Run) {
    r'.risk == r.risk && r'.invoice == r.invoice && r'.humanDecision == r.humanDecision
  }

  lemma GatesKeepDecision(r: Run, t: Ledger.Tables, allowed: bool, status: Option<ControlPlane.Switch>)
    ensures SameDecision(r, Gated(r, t, allowed, status))
  {
    hide Ledger.DryRun, Frozen, PaymentEntries;
  }

  lemma PaidKeepsDecision(r: Run, t: Ledger.Tables, b: VendorHistory.Books, allowed: bool, status: Option<ControlPlane.Switch>)
    ensures SameDecision(r, Paid(r, t, b, allowed, status).0)
  {
    GatesKeepDecision(r, t, allowed, status);
    hide Gated, Ledger.Post, VendorHistory.Record, PaymentTransaction, VendorCall;
  }

  lemma PaymentKeepsDecision(w: World, id: nat, pdp: Pdp, readable: bool)
    requires id in w.runs && w.runs[id].place.AtPayment?
    ensures id in PayWithoutPause(w, id, pdp, readable).runs &&
            SameDecision(w.runs[id], PayWithoutPause(w, id, pdp, readable).runs[id])
  {
    hide SameDecision, PayWithoutPause, Paid;
    UninterruptedPaymentIsPaid(w, id, pdp, readable);
    PaidKeepsDecision(w.runs[id], w.ledger, w.books, Allows(pdp, PaymentRequest(w.runs[id])), Reading(w, readable));
  }

  // The steps that bring a first-seen vendor's high-risk invoice to a person.
  function ToReview(invoiceId: string, vendor: string, amount: int): seq<Action> {
    [] + [Start(0, invoiceId, true)] + [Extract(0, true, Invoice(Some(vendor), Some(amount)))]
       + [Score(0, true, RiskScore(High, false), Reached([], 0, None))]
  }

  lemma OneMoreAction(start: World, actions: seq<Action>, a: Action)
    ensures RunFrom(start, actions + [a]) == Apply(RunFrom(start, actions), a)
  {
    assert (actions + [a])[..|actions|] == actions;
  }

  const NO_BOOKS: VendorHistory.Books := VendorHistory.Books([], [])

  lemma ReviewIsReached(invoiceId: string, vendor: string, amount: int)
    ensures var w := RunFrom(Opening(NO_BOOKS, ControlPlane.AllClear), ToReview(invoiceId, vendor, amount));
            && 0 in w.runs && w.runs[0].place.AtHumanReview? && w.runs[0].invoiceId == invoiceId
            && Amount(w.runs[0]) == amount && w.runs[0].risk == Some(RiskScore(High, true))
            && w.ledger == Opening(NO_BOOKS, ControlPlane.AllClear).ledger && w.switch == ControlPlane.AllClear && w.creators == []
  {
    var start := Opening(NO_BOOKS, ControlPlane.AllClear);
    var a1 := [] + [Start(0, invoiceId, true)];
    var a2 := a1 + [Extract(0, true, Invoice(Some(vendor), Some(amount)))];
    OneMoreAction(start, [], Start(0, invoiceId, true));
    OneMoreAction(start, a1, Extract(0, true, Invoice(Some(vendor), Some(amount))));
    OneMoreAction(start, a2, Score(0, true, RiskScore(High, false), Reached([], 0, None)));
    var w2 := RunFrom(start, a2);
    assert RunFrom(start, []) == start;
    hide RunFrom;
    assert w2.runs[0] == Extracted(Submitted(invoiceId), true, Invoice(Some(vendor), Some(amount)));
    FlagAllowedExactly([], w2.runs[0], false, 0, None);
    hide PolicyDecision.Decided, FlagRequest;
  }

  // It happens: for every vendor the ledger has never seen and every amount from
  // above the threshold up to all the cash there is, one word of one person
  // settles a payment that no policy lets any agent, or any person, approve.
  lemma OneWordSettlesWhatPolicyForbids(invoiceId: string, vendor: string, amount: int, approver: string, tier: int)
    requires 500050 < amount <= 50000000
    ensures var w := RunFrom(Opening(NO_BOOKS, ControlPlane.AllClear), ToReview(invoiceId, vendor, amount));
            var w' := PayWithoutPause(Apply(w, Review(0, "approve", true)), 0, Reached([], 0, None), true);
            && 0 in w'.runs && IsSettled(w'.runs[0])
            && Amount(w'.runs[0]) == amount && w'.runs[0].risk.Some? && w'.runs[0].risk.value.vendorFirstSeen
            && !CedarPolicies.Permitted(ApprovalRequest(w'.runs[0]))
            && !CedarPolicies.Permitted(PersonalApproval(w'.runs[0], approver, tier))
  {
    var start := Opening(NO_BOOKS, ControlPlane.AllClear);
    var actions := ToReview(invoiceId, vendor, amount);
    ReviewIsReached(invoiceId, vendor, amount);
    hide RunFrom, ToReview;
    var w := RunFrom(start, actions);
    assert start.ledger.accounts["operating-cash"].balance == 50000000;
    assert WillSettle(w, w.runs[0], Reached([], 0, None), true);
    ApprovedByPersonSettlesExactly(NO_BOOKS, ControlPlane.AllClear, actions, 0, true, Reached([], 0, None), true);
    var w' := PayWithoutPause(Apply(w, Review(0, "approve", true)), 0, Reached([], 0, None), true);
    hide PayWithoutPause, Apply, WillSettle;
    CedarPolicies.AgentApprovesExactly(ApprovalRequest(w'.runs[0]));
    CedarPolicies.UserApprovesExactly(PersonalApproval(w'.runs[0], approver, tier));
    hide CedarPolicies.Permitted;
  }

  // The same payment, put to the policies as a person's approval.
  function PersonalApproval(r: Run, approver: string, tier: int): CedarPolicies.Request {
    CedarPolicies.Request(CedarPolicies.User(approver, tier), CedarPolicies.ApprovePayment, PaymentResource(r))
  }

  // A settled payment meets the policies on agents exactly when no person decided
  // it, or the person decided a payment that an agent could have approved; it meets
  // those on persons exactly when it is above the threshold, the vendor was known
  // and the approver has the authority, which nothing in the run asks for.
  lemma SettledMeetsPolicyExactly(books: VendorHistory.Books, switch: ControlPlane.Switch, actions: seq<Action>,
                                  id: nat, approver: string, tier: int)
    requires VendorHistory.Consistent(books)
    requires var w := RunFrom(Opening(books, switch), actions); id in w.runs && IsSettled(w.runs[id])
    ensures var r := RunFrom(Opening(books, switch), actions).runs[id];
            var firstSeen := r.risk.Some? && r.risk.value.vendorFirstSeen;
            && (CedarPolicies.Permitted(ApprovalRequest(r)) <==> r.humanDecision.None? || (Amount(r) <= 500050 && !firstSeen))
            && (CedarPolicies.Permitted(PersonalApproval(r, approver, tier)) <==> Amount(r) > 500050 && tier >= 2 && !firstSeen)
  {
    var w := RunFrom(Opening(books, switch), actions);
    EveryWorldIsSound(books, switch, actions);
    InvOfRun(w, id, |books.history|);
    hide RunFrom, Inv;
    CedarPolicies.AgentApprovesExactly(ApprovalRequest(w.runs[id]));
    CedarPolicies.UserApprovesExactly(PersonalApproval(w.runs[id], approver, tier));
    hide CedarPolicies.Permitted;
  }
}
