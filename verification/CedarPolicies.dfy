/**
 The static rules of the policy decision point: the Cedar policies over payments
 and tools, the rounding of amounts before they are evaluated, and the capability
 manifests that gate the same actions a second time. Money is in whole cents.
 */
module CedarPolicies {
  import opened Common

  datatype Principal = Agent(id: string, trustTier: string) | User(id: string, approvalAuthorityTier: int)

  datatype Resource =
    | Payment(id: string, amount: int, vendorFirstSeen: bool, vendor: Option<string>, approvalCount: int)
    | Tool(id: string, name: string)

  datatype PolicyAction =
    | ApprovePayment | CreateLedgerEntry | FlagForReview | RequestAdditionalDocumentation | UpdateVendorRecord | InvokeTool

  datatype Request = Request(principal: Principal, action: PolicyAction, resource: Resource)

  // ------------------------------------------------------------------ rounding

  // Whole dollars, ties to the even neighbour.
  function RoundToDollars(cents: int): (dollars: int)
    ensures -50 <= 100 * dollars - cents <= 50
    ensures -50 < 100 * dollars - cents < 50 || dollars % 2 == 0
  {
    var below, rest := cents / 100, cents % 100;
    if rest < 50 || (rest == 50 && below % 2 == 0) then below else below + 1
  }

  // ------------------------------------------------------------------ policies

  datatype Effect = Permit | Forbid

  datatype Policy =
    | ForbidAgentsAboveThreshold
    | PermitSeniorUsersAboveThreshold
    | PermitAgentsRoutine
    | ForbidFirstSeenVendor
    | ForbidLedgerOutsideWriteTier
    | PermitLedgerInWriteTier
    | PermitTools(agent: string, names: seq<string>)
    | PermitAction(agent: string, action: PolicyAction)

  const THRESHOLD_DOLLARS := 5000
  const WRITE_TIER := "write-ledger"

  const POLICIES: seq<Policy> := [
    ForbidAgentsAboveThreshold,
    PermitSeniorUsersAboveThreshold,
    PermitAgentsRoutine,
    ForbidFirstSeenVendor,
    ForbidLedgerOutsideWriteTier,
    PermitLedgerInWriteTier,
    PermitTools("extraction", ["request-additional-documentation", "sandbox-ocr"]),
    PermitTools("risk-scoring", ["flag-for-review", "request-additional-documentation"]),
    PermitTools("approval", ["flag-for-review", "request-additional-documentation", "update-vendor-record"]),
    PermitTools("payment-execution", ["create-ledger-entry", "flag-for-review"]),
    PermitAction("risk-scoring", FlagForReview),
    PermitAction("approval", FlagForReview),
    PermitAction("payment-execution", FlagForReview),
    PermitAction("extraction", RequestAdditionalDocumentation),
    PermitAction("risk-scoring", RequestAdditionalDocumentation),
    PermitAction("approval", RequestAdditionalDocumentation),
    PermitAction("approval", UpdateVendorRecord)
  ]

  function EffectOf(p: Policy): Effect {
    if p.ForbidAgentsAboveThreshold? || p.ForbidFirstSeenVendor? || p.ForbidLedgerOutsideWriteTier? then Forbid else Permit
  }

  predicate Matches(p: Policy, r: Request) {
    match p
    case ForbidAgentsAboveThreshold =>
      r.principal.Agent? && r.action.ApprovePayment? && r.resource.Payment? &&
      RoundToDollars(r.resource.amount) > THRESHOLD_DOLLARS
    case PermitSeniorUsersAboveThreshold =>
      r.principal.User? && r.action.ApprovePayment? && r.resource.Payment? &&
      RoundToDollars(r.resource.amount) > THRESHOLD_DOLLARS && r.principal.approvalAuthorityTier >= 2
    case PermitAgentsRoutine =>
      r.principal.Agent? && r.action.ApprovePayment? && r.resource.Payment? &&
      RoundToDollars(r.resource.amount) <= THRESHOLD_DOLLARS
    case ForbidFirstSeenVendor =>
      r.action.ApprovePayment? && r.resource.Payment? && r.resource.vendorFirstSeen && r.resource.approvalCount < 2
    case ForbidLedgerOutsideWriteTier =>
      r.principal.Agent? && r.action.CreateLedgerEntry? && r.principal.trustTier != WRITE_TIER
    case PermitLedgerInWriteTier =>
      r.principal.Agent? && r.action.CreateLedgerEntry? && r.principal.trustTier == WRITE_TIER
    case PermitTools(agent, names) =>
      r.principal.Agent? && r.principal.id == agent && r.action.InvokeTool? && r.resource.Tool? && r.resource.name in names
    case PermitAction(agent, action) =>
      r.principal.Agent? && r.principal.id == agent && r.action == action && r.resource.Payment?
  }

  predicate Applies(effect: Effect, r: Request) {
    exists i :: 0 <= i < |POLICIES| && EffectOf(POLICIES[i]) == effect && Matches(POLICIES[i], r)
  }

  // Some permit matches and no forbid does; with no match at all, deny.
  predicate Permitted(r: Request) { Applies(Permit, r) && !Applies(Forbid, r) }

  // ------------------------------------------------- what the policies amount to

  // An agent approves a payment exactly when it is at most 5000.50 and the vendor
  // is known or has two approvals already, whatever the agent is called.
  lemma AgentApprovesExactly(r: Request)
    requires r.principal.Agent? && r.action.ApprovePayment? && r.resource.Payment?
    ensures Permitted(r) <==>
            r.resource.amount <= 500050 && !(r.resource.vendorFirstSeen && r.resource.approvalCount < 2)
  {
    assert POLICIES[0] == ForbidAgentsAboveThreshold && POLICIES[2] == PermitAgentsRoutine && POLICIES[3] == ForbidFirstSeenVendor;
    assert RoundToDollars(r.resource.amount) <= 5000 <==> r.resource.amount <= 500050;
  }

  // A person approves only above the threshold, with enough authority, and not a
  // first-seen vendor's payment that lacks two approvals.
  lemma UserApprovesExactly(r: Request)
    requires r.principal.User? && r.action.ApprovePayment? && r.resource.Payment?
    ensures Permitted(r) <==>
            && r.resource.amount > 500050 && r.principal.approvalAuthorityTier >= 2
            && !(r.resource.vendorFirstSeen && r.resource.approvalCount < 2)
  {
    assert POLICIES[1] == PermitSeniorUsersAboveThreshold && POLICIES[3] == ForbidFirstSeenVendor;
    assert RoundToDollars(r.resource.amount) <= 5000 <==> r.resource.amount <= 500050;
  }

  lemma LedgerWriteExactly(r: Request)
    requires r.action.CreateLedgerEntry?
    ensures Permitted(r) <==> r.principal.Agent? && r.principal.trustTier == WRITE_TIER
  {
    assert POLICIES[4] == ForbidLedgerOutsideWriteTier && POLICIES[5] == PermitLedgerInWriteTier;
  }

  // Which agent may call which tool; no person may, and nothing else may be called.
  lemma ToolsExactly(r: Request)
    requires r.action.InvokeTool?
    ensures Permitted(r) <==>
            && r.principal.Agent? && r.resource.Tool?
            && var (agent, tool) := (r.principal.id, r.resource.name);
               || (agent == "extraction" && (tool == "request-additional-documentation" || tool == "sandbox-ocr"))
               || (agent == "risk-scoring" && (tool == "flag-for-review" || tool == "request-additional-documentation"))
               || (agent == "approval" &&
                     (tool == "flag-for-review" || tool == "request-additional-documentation" || tool == "update-vendor-record"))
               || (agent == "payment-execution" && (tool == "create-ledger-entry" || tool == "flag-for-review"))
  {
    assert POLICIES[6] == PermitTools("extraction", ["request-additional-documentation", "sandbox-ocr"]);
    assert POLICIES[7] == PermitTools("risk-scoring", ["flag-for-review", "request-additional-documentation"]);
    assert POLICIES[8] == PermitTools("approval", ["flag-for-review", "request-additional-documentation", "update-vendor-record"]);
    assert POLICIES[9] == PermitTools("payment-execution", ["create-ledger-entry", "flag-for-review"]);
  }

  // The remaining actions are for agents, and on payments only; approvals too are
  // of payments only.
  lemma NothingElsePermitted(r: Request)
    ensures r.principal.User? && Permitted(r) ==> r.action.ApprovePayment?
    ensures r.resource.Tool? && Permitted(r) ==> r.action.InvokeTool? || r.action.CreateLedgerEntry?
  {}

  // ------------------------------------------------------- capability manifests

  datatype Manifest = Manifest(trustTier: string, allowedActions: set<PolicyAction>)

  function ManifestOf(agent: string): Option<Manifest> {
    if agent == "extraction" then Some(Manifest("read-only", {RequestAdditionalDocumentation}))
    else if agent == "risk-scoring" then Some(Manifest("read-and-flag", {FlagForReview, RequestAdditionalDocumentation}))
    else if agent == "approval" then
      Some(Manifest("read-and-flag", {ApprovePayment, FlagForReview, RequestAdditionalDocumentation, UpdateVendorRecord}))
    else if agent == "payment-execution" then Some(Manifest(WRITE_TIER, {CreateLedgerEntry, FlagForReview}))
    else None
  }

  predicate Capable(agent: string, action: PolicyAction) {
    ManifestOf(agent).Some? && action in ManifestOf(agent).value.allowedActions
  }

  // An agent that presents the trust tier of its own manifest.
  predicate Genuine(p: Principal) {
    p.Agent? && ManifestOf(p.id).Some? && p.trustTier == ManifestOf(p.id).value.trustTier
  }

  // The grants of one action on payments are those of the manifests.
  lemma FlaggingExactly(r: Request)
    requires r.principal.Agent? && r.resource.Payment? && r.action.FlagForReview?
    ensures Permitted(r) <==> Capable(r.principal.id, FlagForReview)
    ensures Permitted(r) <==> r.principal.id in ["risk-scoring", "approval", "payment-execution"]
  {
    assert POLICIES[10] == PermitAction("risk-scoring", FlagForReview);
    assert POLICIES[11] == PermitAction("approval", FlagForReview);
    assert POLICIES[12] == PermitAction("payment-execution", FlagForReview);
  }

  lemma DocumentationExactly(r: Request)
    requires r.principal.Agent? && r.resource.Payment? && r.action.RequestAdditionalDocumentation?
    ensures Permitted(r) <==> Capable(r.principal.id, RequestAdditionalDocumentation)
    ensures Permitted(r) <==> r.principal.id in ["extraction", "risk-scoring", "approval"]
  {
    assert POLICIES[13] == PermitAction("extraction", RequestAdditionalDocumentation);
    assert POLICIES[14] == PermitAction("risk-scoring", RequestAdditionalDocumentation);
    assert POLICIES[15] == PermitAction("approval", RequestAdditionalDocumentation);
  }

  lemma VendorUpdateExactly(r: Request)
    requires r.principal.Agent? && r.resource.Payment? && r.action.UpdateVendorRecord?
    ensures Permitted(r) <==> Capable(r.principal.id, UpdateVendorRecord)
    ensures Permitted(r) <==> r.principal.id == "approval"
  {
    assert POLICIES[16] == PermitAction("approval", UpdateVendorRecord);
  }

  // The policies and the manifests grant the same agents the same actions on
  // payments, except for approvals: there the policies look at the payment only,
  // so they agree with the manifest exactly when the agent is the approval agent
  // and the payment is approvable, or is another agent and it is not.
  lemma CedarMirrorsManifests(r: Request)
    requires Genuine(r.principal) && r.resource.Payment? && !r.action.InvokeTool?
    ensures !r.action.ApprovePayment? ==> (Permitted(r) <==> Capable(r.principal.id, r.action))
    ensures r.action.ApprovePayment? ==>
              var approvable := r.resource.amount <= 500050 && !(r.resource.vendorFirstSeen && r.resource.approvalCount < 2);
              (Permitted(r) <==> Capable(r.principal.id, r.action)) <==> (approvable <==> r.principal.id == "approval")
  {
    hide Permitted;
    match r.action
    case ApprovePayment => AgentApprovesExactly(r);
    case CreateLedgerEntry => LedgerWriteExactly(r);
    case FlagForReview => FlaggingExactly(r);
    case RequestAdditionalDocumentation => DocumentationExactly(r);
    case UpdateVendorRecord => VendorUpdateExactly(r);
  }

  // They do disagree: Cedar lets the extraction agent approve a routine payment.
  lemma CedarIsWiderThanManifests(id: string, vendor: string)
    ensures var r := Request(Agent("extraction", "read-only"), ApprovePayment, Payment(id, 10000, false, Some(vendor), 0));
            Genuine(r.principal) && Permitted(r) && !Capable(r.principal.id, r.action)
  {
    AgentApprovesExactly(Request(Agent("extraction", "read-only"), ApprovePayment, Payment(id, 10000, false, Some(vendor), 0)));
    hide Permitted;
  }
}
