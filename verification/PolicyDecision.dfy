/**
 The policy decision point: Cedar first, then the vendor rate limit read off the
 decision log, then the kill switch, then a row in the log. The log check and the
 insert are separate statements, so calls that overlap are modelled as well.
 */
module PolicyDecision {
  import opened Common
  import opened CedarPolicies
  import opened ControlPlane

  // Seconds, like the timestamps below.
  const WINDOW: int := 24 * 3600
  const MAX_APPROVALS: nat := 3

  datatype Reason = NoPermit | VendorLimit(count: nat) | GlobalStop | AgentPaused(agent: string) | ToolFrozen(tool: string)
  datatype Verdict = Allow | Deny(reason: Reason)
  datatype Row = Row(request: Request, verdict: Verdict, decidedAt: int)

  function VendorOf(r: Resource): Option<string> {
    if r.Payment? then r.vendor else None
  }

  // A missing or empty vendor is never counted against.
  predicate Limited(r: Request) {
    r.action.ApprovePayment? && VendorOf(r.resource).Some? && VendorOf(r.resource).value != ""
  }

  // ------------------------------------------------------------- the decision log

  predicate IsApproval(row: Row, vendor: string) {
    row.request.action.ApprovePayment? && VendorOf(row.request.resource) == Some(vendor) && row.verdict == Allow
  }

  function CountSince(log: seq<Row>, vendor: string, since: int): nat {
    if log == [] then 0
    else
      var last := log[|log| - 1];
      CountSince(log[..|log| - 1], vendor, since) + if IsApproval(last, vendor) && last.decidedAt >= since then 1 else 0
  }

  // Approvals in the closed window [from, from + WINDOW].
  function CountWindow(log: seq<Row>, vendor: string, from: int): nat {
    if log == [] then 0
    else
      var last := log[|log| - 1];
      CountWindow(log[..|log| - 1], vendor, from) +
      if IsApproval(last, vendor) && from <= last.decidedAt <= from + WINDOW then 1 else 0
  }

  // The positions of a vendor's approvals from one time to another, both included.
  ghost function ApprovalsBetween(log: seq<Row>, vendor: string, from: int, to: int): set<nat> {
    set i: nat | i < |log|
      && log[i].request.action.ApprovePayment?
      && log[i].request.resource.Payment? && log[i].request.resource.vendor == Some(vendor)
      && log[i].verdict == Allow
      && from <= log[i].decidedAt <= to
  }

  ghost function ApprovalsSince(log: seq<Row>, vendor: string, since: int): set<nat> {
    set i: nat | i < |log|
      && log[i].request.action.ApprovePayment?
      && log[i].request.resource.Payment? && log[i].request.resource.vendor == Some(vendor)
      && log[i].verdict == Allow
      && log[i].decidedAt >= since
  }

  // The counts are of exactly these positions: action, vendor, verdict and time
  // decide, and nothing else about the request.
  lemma {:induction false} CountsArePositions(log: seq<Row>, vendor: string, since: int)
    ensures CountSince(log, vendor, since) == |ApprovalsSince(log, vendor, since)|
    ensures CountWindow(log, vendor, since) == |ApprovalsBetween(log, vendor, since, since + 24 * 3600)|
  {
    if log != [] {
      var k := |log| - 1;
      var init := log[..k];
      CountsArePositions(init, vendor, since);
      OneMorePosition(log, vendor, since);
    }
  }

  lemma OneMorePosition(log: seq<Row>, vendor: string, since: int)
    requires log != []
    ensures var (k, init) := (|log| - 1, log[..|log| - 1]);
            && k !in ApprovalsSince(init, vendor, since) && k !in ApprovalsBetween(init, vendor, since, since + WINDOW)
            && ApprovalsSince(log, vendor, since) ==
               ApprovalsSince(init, vendor, since) +
               (if IsApproval(log[k], vendor) && log[k].decidedAt >= since then {k} else {})
            && ApprovalsBetween(log, vendor, since, since + WINDOW) ==
               ApprovalsBetween(init, vendor, since, since + WINDOW) +
               (if IsApproval(log[k], vendor) && since <= log[k].decidedAt <= since + WINDOW then {k} else {})
  {
    var init := log[..|log| - 1];
    assert forall i | 0 <= i < |init| :: init[i] == log[i];
  }

  // ------------------------------------------------------------------ one request

  // What Cedar and the rate limit say at time `at`.
  function Checked(log: seq<Row>, r: Request, at: int): Verdict {
    if !Permitted(r) then Deny(NoPermit)
    else if Limited(r) then
      var count := CountSince(log, VendorOf(r.resource).value, at - WINDOW);
      if count >= MAX_APPROVALS then Deny(VendorLimit(count)) else Allow
    else Allow
  }

  // The switch as read from the control plane; None when it cannot be reached,
  // which denies nothing. Only tools carry a name that can be frozen.
  function SwitchDenial(r: Request, status: Option<Switch>): Option<Reason> {
    if status.None? then None
    else if status.value.globalStop then Some(GlobalStop)
    else if r.principal.id in status.value.pausedAgents then Some(AgentPaused(r.principal.id))
    else if r.resource.Tool? && r.resource.name != "" && r.resource.name in status.value.frozenTools then Some(ToolFrozen(r.resource.name))
    else None
  }

  function Final(r: Request, checked: Verdict, status: Option<Switch>): Verdict {
    if checked.Deny? then checked
    else if SwitchDenial(r, status).Some? then Deny(SwitchDenial(r, status).value)
    else Allow
  }

  function Decided(log: seq<Row>, r: Request, at: int, status: Option<Switch>): Verdict {
    Final(r, Checked(log, r, at), status)
  }

  class PolicyService {
    var log: seq<Row>

    constructor ()
      ensures log == []
    {
      log := [];
    }

    // Returns a reason to refuse, if there is one.
    method CheckVendorRateLimit(vendor: Option<string>, at: int) returns (refusal: Option<Reason>)
      ensures vendor.None? || vendor.value == "" ==> refusal == None
      ensures vendor.Some? && vendor.value != "" ==>
                var count := |ApprovalsSince(log, vendor.value, at - 24 * 3600)|;
                refusal == if count < 3 then None else Some(VendorLimit(count))
    {
      hide CountSince, ApprovalsSince;
      if vendor.None? || vendor.value == "" {
        return None;
      }
      var count := CountSince(log, vendor.value, at - WINDOW);
      CountsArePositions(log, vendor.value, at - WINDOW);
      return if count >= MAX_APPROVALS then Some(VendorLimit(count)) else None;
    }

    method Authorize(r: Request, at: int, status: Option<Switch>, decidedAt: int) returns (decision: Verdict)
      modifies this
      ensures decision == Decided(old(log), r, at, status)
      ensures log == old(log) + [Row(r, decision, decidedAt)]
    {
      hide Permitted, CountSince, ApprovalsSince;
      decision := if Permitted(r) then Allow else Deny(NoPermit);
      if decision.Allow? && r.action.ApprovePayment? {
        var vendor := VendorOf(r.resource);
        var refusal := CheckVendorRateLimit(vendor, at);
        if vendor.Some? { CountsArePositions(log, vendor.value, at - WINDOW); }
        if refusal.Some? {
          decision := Deny(refusal.value);
        }
      }
      if decision.Allow? {
        var denial := SwitchDenial(r, status);
        if denial.Some? {
          decision := Deny(denial.value);
        }
      }
      log := log + [Row(r, decision, decidedAt)];
    }
  }

  // Every gate must let a request through, and nothing else can stop it.
  lemma AllowedExactly(log: seq<Row>, r: Request, at: int, status: Option<Switch>)
    ensures Decided(log, r, at, status) == Allow <==>
            && Permitted(r)
            && (Limited(r) ==> CountSince(log, VendorOf(r.resource).value, at - WINDOW) < MAX_APPROVALS)
            && (status.Some? ==>
                  && !status.value.globalStop && r.principal.id !in status.value.pausedAgents
                  && !(r.resource.Tool? && r.resource.name != "" && r.resource.name in status.value.frozenTools))
  {
    hide Permitted, CountSince;
  }

  // Cedar and the rate limit let the request through.
  predicate Passes(log: seq<Row>, r: Request, at: int) {
    Permitted(r) && (Limited(r) ==> CountSince(log, VendorOf(r.resource).value, at - WINDOW) < MAX_APPROVALS)
  }

  // Which gate a refusal names: the first that refused, in the order Cedar, rate
  // limit, global stop, paused agent, frozen tool.
  lemma DeniedExactly(log: seq<Row>, r: Request, at: int, status: Option<Switch>, count: nat, agent: string, tool: string)
    ensures var d := Decided(log, r, at, status);
            && (d == Deny(NoPermit) <==> !Permitted(r))
            && (d == Deny(VendorLimit(count)) <==>
                  && Permitted(r) && Limited(r) && count >= MAX_APPROVALS
                  && count == CountSince(log, VendorOf(r.resource).value, at - WINDOW))
            && (d == Deny(GlobalStop) <==> Passes(log, r, at) && status.Some? && status.value.globalStop)
            && (d == Deny(AgentPaused(agent)) <==>
                  && Passes(log, r, at) && status.Some? && !status.value.globalStop
                  && agent == r.principal.id && agent in status.value.pausedAgents)
            && (d == Deny(ToolFrozen(tool)) <==>
                  && Passes(log, r, at) && status.Some? && !status.value.globalStop && r.principal.id !in status.value.pausedAgents
                  && r.resource.Tool? && tool == r.resource.name && tool != "" && tool in status.value.frozenTools)
  {
    hide Permitted, CountSince;
  }

  // The rate limit in full: among approvals that Cedar permits, exactly those of a
  // named vendor with three or more approvals in the last 24 hours are refused by it,
  // whatever the amounts.
  lemma RateLimitExactly(log: seq<Row>, r: Request, at: int, status: Option<Switch>)
    requires Permitted(r)
    ensures (exists n :: Decided(log, r, at, status) == Deny(VendorLimit(n))) <==>
            && r.action.ApprovePayment? && r.resource.Payment?
            && r.resource.vendor.Some? && r.resource.vendor.value != ""
            && |ApprovalsSince(log, r.resource.vendor.value, at - 24 * 3600)| >= 3
  {
    hide Permitted, CountSince, ApprovalsSince;
    if Limited(r) {
      var vendor := VendorOf(r.resource).value;
      CountsArePositions(log, vendor, at - WINDOW);
      assert CountSince(log, vendor, at - WINDOW) >= 3 ==>
               Decided(log, r, at, status) == Deny(VendorLimit(CountSince(log, vendor, at - WINDOW)));
    }
  }

  // An agent's approval, in terms of the payment itself.
  lemma ApprovalNeeds(log: seq<Row>, r: Request, at: int, status: Option<Switch>)
    requires r.principal.Agent? && r.action.ApprovePayment? && r.resource.Payment?
    requires Decided(log, r, at, status) == Allow
    ensures r.resource.amount <= 500050
    ensures r.resource.vendorFirstSeen ==> r.resource.approvalCount >= 2
  {
    AgentApprovesExactly(r);
  }

  // --------------------------------------------------- the log as the canary check reads it

  // The decision table: ids count the inserts.
  function DecisionTable(log: seq<Row>): seq<DecisionRow> {
    seq(|log|, i requires 0 <= i < |log| => DecisionRow(i + 1, VendorOf(log[i].request.resource)))
  }

  lemma DecisionTableGrows(log: seq<Row>, row: Row)
    ensures DecisionTable(log + [row]) == DecisionTable(log) + [DecisionRow(|log| + 1, VendorOf(row.request.resource))]
    ensures Rising(DecisionTable(log + [row])) && IdsDistinct(DecisionTable(log + [row]))
  {
  }

  // Any request that names the canary vendor, refused ones included, stops
  // everything: after the next tick no request at all is allowed under the switch
  // it leaves, whatever the log has become.
  lemma CanaryRequestStopsAll(log: seq<Row>, p: Plane, row: Row, later: seq<Row>, r: Request, at: int)
    requires p.watermark <= |log|
    requires row.request.resource.Payment? && row.request.resource.vendor == Some("CANARY-DO-NOT-USE")
    ensures var p' := Ticked(p, DecisionTable(log + [row]));
            && p'.switch.globalStop && p'.watermark == |log| + 1
            && Decided(later, r, at, Some(p'.switch)) != Allow
            && (Passes(later, r, at) ==> Decided(later, r, at, Some(p'.switch)) == Deny(GlobalStop))
  {
    var table := DecisionTable(log + [row]);
    var hits := Hits(table, p.watermark, |table|);
    DecisionTableGrows(log, row);
    TickTripsPending(p, table);
    assert table[|log|].id in ControlPlane.Pending(table, p.watermark);
    assert hits != [];
    MaxOfBounds(p.watermark, hits);
    assert forall id | id in hits :: id <= |log| + 1 by {
      assert forall id | id in ControlPlane.Pending(table, p.watermark) :: id <= |log| + 1;
    }
    hide Permitted, CountSince, Hits, MaxOf;
  }

  // -------------------------------------------------------------- calls that overlap

  // A call between its check, made at time `at`, and its insert.
  datatype Pending = Pending(request: Request, checked: Verdict, at: int)

  datatype Point = Point(log: seq<Row>, calls: map<nat, Pending>)

  datatype Action =
    | Check(call: nat, request: Request, at: int)
    | Record(call: nat, status: Option<Switch>, decidedAt: int)
    | Abandon(call: nat)

  // A call is recorded no earlier than it was checked; no two clocks are compared otherwise.
  predicate Enabled(p: Point, a: Action) {
    match a
    case Check(call, _, _) => call !in p.calls
    case Record(call, _, decidedAt) => call in p.calls && decidedAt >= p.calls[call].at
    case Abandon(call) => call in p.calls
  }

  function Apply(p: Point, a: Action): Point {
    if !Enabled(p, a) then p
    else match a
      case Check(call, r, at) => p.(calls := p.calls[call := Pending(r, Checked(p.log, r, at), at)])
      case Record(call, status, decidedAt) =>
        var c := p.calls[call];
        Point(p.log + [Row(c.request, Final(c.request, c.checked, status), decidedAt)], p.calls - {call})
      case Abandon(call) => p.(calls := p.calls - {call})
  }

  function Run(actions: seq<Action>): Point {
    if actions == [] then Point([], map[]) else Apply(Run(actions[..|actions| - 1]), actions[|actions| - 1])
  }

  predicate Approving(c: Pending, vendor: string) {
    c.request.action.ApprovePayment? && VendorOf(c.request.resource) == Some(vendor) && c.checked == Allow
  }

  // The calls for this vendor that passed the check and are not yet recorded.
  function InFlight(p: Point, vendor: string): set<nat> {
    set call | call in p.calls && Approving(p.calls[call], vendor)
  }

  // Those of them whose row can still fall inside the window.
  function CanStillLand(p: Point, vendor: string, from: int): set<nat> {
    set call | call in p.calls && Approving(p.calls[call], vendor) && p.calls[call].at <= from + WINDOW
  }

  // At no moment of the run are more than k such calls in flight.
  ghost predicate AtMostInFlight(actions: seq<Action>, vendor: string, k: nat) {
    |InFlight(Run(actions), vendor)| <= k && (actions != [] ==> AtMostInFlight(actions[..|actions| - 1], vendor, k))
  }

  lemma {:induction false} WindowWithinRecent(log: seq<Row>, vendor: string, from: int, since: int)
    requires since <= from
    ensures CountWindow(log, vendor, from) <= CountSince(log, vendor, since)
  {
    if log != [] { WindowWithinRecent(log[..|log| - 1], vendor, from, since); }
  }

  lemma SubsetSize(a: set<nat>, b: set<nat>)
    requires a <= b
    ensures |a| <= |b|
  {
    assert b == a + (b - a);
  }

  // A window's approvals together with the calls that can still land in it.
  ghost function Load(p: Point, vendor: string, from: int): nat {
    CountWindow(p.log, vendor, from) + |CanStillLand(p, vendor, from)|
  }

  lemma CheckKeepsLoad(p: Point, a: Action, vendor: string, from: int, k: nat)
    requires vendor != "" && Load(p, vendor, from) <= 2 + k
    requires a.Check? && Enabled(p, a) && |InFlight(Apply(p, a), vendor)| <= k
    ensures Load(Apply(p, a), vendor, from) <= 2 + k
  {
    hide Permitted;
    var p' := Apply(p, a);
    var c := p'.calls[a.call];
    if Approving(c, vendor) && c.at <= from + WINDOW {
      WindowWithinRecent(p.log, vendor, from, a.at - WINDOW);
      SubsetSize(CanStillLand(p', vendor, from), InFlight(p', vendor));
    } else {
      assert CanStillLand(p', vendor, from) == CanStillLand(p, vendor, from);
    }
  }

  lemma CountWindowStep(log: seq<Row>, row: Row, vendor: string, from: int)
    ensures CountWindow(log + [row], vendor, from) ==
            CountWindow(log, vendor, from) + if IsApproval(row, vendor) && from <= row.decidedAt <= from + WINDOW then 1 else 0
  {
    assert (log + [row])[..|log|] == log;
  }

  lemma LeavingStopsLanding(p: Point, log: seq<Row>, call: nat, vendor: string, from: int)
    requires call in p.calls
    ensures var here, there := CanStillLand(p, vendor, from), CanStillLand(Point(log, p.calls - {call}), vendor, from);
            |there| == |here| - if call in here then 1 else 0
  {
    hide Approving;
    var here, there := CanStillLand(p, vendor, from), CanStillLand(Point(log, p.calls - {call}), vendor, from);
    assert there == here - {call};
  }

  lemma LeavingKeepsLoad(p: Point, a: Action, vendor: string, from: int)
    requires !a.Check? && Enabled(p, a)
    ensures Load(Apply(p, a), vendor, from) <= Load(p, vendor, from)
  {
    hide Permitted, CountWindow, Checked, SwitchDenial;
    var c := p.calls[a.call];
    LeavingStopsLanding(p, Apply(p, a).log, a.call, vendor, from);
    if a.Record? {
      CountWindowStep(p.log, Row(c.request, Final(c.request, c.checked, a.status), a.decidedAt), vendor, from);
    }
  }

  lemma {:induction false} LoadIsBounded(actions: seq<Action>, vendor: string, from: int, k: nat)
    requires vendor != "" && AtMostInFlight(actions, vendor, k)
    ensures Load(Run(actions), vendor, from) <= 2 + k
  {
    if actions == [] {
      assert CanStillLand(Run(actions), vendor, from) == {};
    } else {
      var init, last := actions[..|actions| - 1], actions[|actions| - 1];
      LoadIsBounded(init, vendor, from, k);
      if Enabled(Run(init), last) {
        if last.Check? {
          CheckKeepsLoad(Run(init), last, vendor, from, k);
        } else {
          LeavingKeepsLoad(Run(init), last, vendor, from);
        }
      }
    }
  }

  // With at most k approvals of one vendor in flight at any moment, no closed
  // window of 24 hours holds more than 2 + k of them, wherever it starts, though
  // every call only looked back from its own check.
  lemma WindowsAreBounded(actions: seq<Action>, vendor: string, from: int, k: nat)
    requires vendor != "" && AtMostInFlight(actions, vendor, k)
    ensures |ApprovalsBetween(Run(actions).log, vendor, from, from + 24 * 3600)| <= 2 + k
  {
    LoadIsBounded(actions, vendor, from, k);
    CountsArePositions(Run(actions).log, vendor, from);
  }

  // A call that nothing interrupts is one Authorize.
  lemma UninterruptedCallAuthorizes(p: Point, call: nat, r: Request, at: int, status: Option<Switch>, decidedAt: int)
    requires call !in p.calls && decidedAt >= at
    ensures Apply(Apply(p, Check(call, r, at)), Record(call, status, decidedAt)) ==
            Point(p.log + [Row(r, Decided(p.log, r, at, status), decidedAt)], p.calls)
  {
    hide Permitted, CountSince, SwitchDenial;
    var c := Pending(r, Checked(p.log, r, at), at);
    assert p.calls[call := c] - {call} == p.calls;
  }

  // -------------------------------------------------------------------- serial calls

  datatype Call = Call(request: Request, at: int, status: Option<Switch>, decidedAt: int)

  // The log after calls made one after the other.
  function AuthorizeAll(calls: seq<Call>): seq<Row> {
    if calls == [] then []
    else
      var log, c := AuthorizeAll(calls[..|calls| - 1]), calls[|calls| - 1];
      log + [Row(c.request, Decided(log, c.request, c.at, c.status), c.decidedAt)]
  }

  // Serial calls keep the documented limit in every window.
  lemma {:induction false} SerialWindowsKeepLimit(calls: seq<Call>, vendor: string, from: int)
    requires vendor != "" && forall i | 0 <= i < |calls| :: calls[i].decidedAt >= calls[i].at
    ensures |ApprovalsBetween(AuthorizeAll(calls), vendor, from, from + 24 * 3600)| <= 3
  {
    SerialCountsKeepLimit(calls, vendor, from);
    CountsArePositions(AuthorizeAll(calls), vendor, from);
  }

  lemma {:induction false} SerialCountsKeepLimit(calls: seq<Call>, vendor: string, from: int)
    requires vendor != "" && forall i | 0 <= i < |calls| :: calls[i].decidedAt >= calls[i].at
    ensures CountWindow(AuthorizeAll(calls), vendor, from) <= MAX_APPROVALS
  {
    assert CountWindow([], vendor, from) == 0;
    hide Permitted, CountWindow, CountSince, SwitchDenial;
    if calls != [] {
      var init, c := calls[..|calls| - 1], calls[|calls| - 1];
      var log := AuthorizeAll(init);
      var row := Row(c.request, Decided(log, c.request, c.at, c.status), c.decidedAt);
      SerialCountsKeepLimit(init, vendor, from);
      CountWindowStep(log, row, vendor, from);
      WindowWithinRecent(log, vendor, from, if c.at - WINDOW <= from then c.at - WINDOW else from);
    }
  }

  // ------------------------------------------------------------ the bound is reached

  function Sample(vendor: string): Request {
    Request(Agent("approval", "read-and-flag"), ApprovePayment, Payment("invoice", 100, false, Some(vendor), 0))
  }

  // Two calls run on their own, then n calls are checked before any of them records.
  function OneCall(actions: seq<Action>, vendor: string, call: nat): seq<Action> {
    actions + [Check(call, Sample(vendor), 0)] + [Record(call, None, 0)]
  }

  function Checks(vendor: string, n: nat): seq<Action> {
    if n == 0 then OneCall(OneCall([], vendor, 0), vendor, 1)
    else Checks(vendor, n - 1) + [Check(n + 1, Sample(vendor), 0)]
  }

  function Records(vendor: string, k: nat, n: nat): seq<Action> {
    if n == 0 then Checks(vendor, k) else Records(vendor, k, n - 1) + [Record(n + 1, None, 0)]
  }

  function Approvals(vendor: string, n: nat): seq<Row> {
    if n == 0 then [] else Approvals(vendor, n - 1) + [Row(Sample(vendor), Allow, 0)]
  }

  lemma {:induction false} ApprovalsCount(vendor: string, n: nat)
    ensures CountWindow(Approvals(vendor, n), vendor, 0) == n == CountSince(Approvals(vendor, n), vendor, -WINDOW)
  {
    if n > 0 {
      ApprovalsCount(vendor, n - 1);
      assert Approvals(vendor, n)[..|Approvals(vendor, n)| - 1] == Approvals(vendor, n - 1);
    }
  }

  // Calls lo to hi - 1 have passed the check.
  function Waiting(vendor: string, lo: nat, hi: nat): (w: map<nat, Pending>)
    ensures forall call: nat :: call in w <==> lo <= call < hi
    ensures forall call | call in w :: w[call] == Pending(Sample(vendor), Allow, 0)
  {
    if lo >= hi then map[] else Waiting(vendor, lo, hi - 1)[hi - 1 := Pending(Sample(vendor), Allow, 0)]
  }

  lemma {:induction false} WaitingKeys(vendor: string, lo: nat, hi: nat)
    requires lo <= hi
    ensures |Waiting(vendor, lo, hi).Keys| == hi - lo
  {
    if lo < hi {
      WaitingKeys(vendor, lo, hi - 1);
      assert Waiting(vendor, lo, hi).Keys == Waiting(vendor, lo, hi - 1).Keys + {hi - 1};
    }
  }

  lemma WaitingSize(log: seq<Row>, vendor: string, lo: nat, hi: nat)
    requires lo <= hi
    ensures |InFlight(Point(log, Waiting(vendor, lo, hi)), vendor)| == hi - lo
  {
    assert Approving(Pending(Sample(vendor), Allow, 0), vendor);
    hide Approving, Sample;
    WaitingKeys(vendor, lo, hi);
    assert InFlight(Point(log, Waiting(vendor, lo, hi)), vendor) == Waiting(vendor, lo, hi).Keys;
  }

  lemma SampleCheck(vendor: string, n: nat)
    requires vendor != "" && n < MAX_APPROVALS
    ensures Checked(Approvals(vendor, n), Sample(vendor), 0) == Allow
  {
    AgentApprovesExactly(Sample(vendor));
    ApprovalsCount(vendor, n);
    hide Permitted, CountSince;
  }

  // From n approvals and calls lo to hi - 1 waiting, one more call is checked.
  lemma CheckMore(actions: seq<Action>, vendor: string, n: nat, lo: nat, hi: nat, k: nat)
    requires vendor != "" && n < MAX_APPROVALS && lo <= hi < lo + k
    requires Run(actions) == Point(Approvals(vendor, n), Waiting(vendor, lo, hi)) && AtMostInFlight(actions, vendor, k)
    ensures var more := actions + [Check(hi, Sample(vendor), 0)];
            Run(more) == Point(Approvals(vendor, n), Waiting(vendor, lo, hi + 1)) && AtMostInFlight(more, vendor, k)
  {
    hide Permitted, CountSince, Checked, InFlight;
    var more := actions + [Check(hi, Sample(vendor), 0)];
    assert more[..|more| - 1] == actions;
    SampleCheck(vendor, n);
    WaitingSize(Approvals(vendor, n), vendor, lo, hi + 1);
  }

  // The first of the waiting calls is recorded.
  lemma RecordOne(actions: seq<Action>, vendor: string, n: nat, lo: nat, hi: nat, k: nat)
    requires lo < hi <= lo + k
    requires Run(actions) == Point(Approvals(vendor, n), Waiting(vendor, lo, hi)) && AtMostInFlight(actions, vendor, k)
    ensures var more := actions + [Record(lo, None, 0)];
            Run(more) == Point(Approvals(vendor, n + 1), Waiting(vendor, lo + 1, hi)) && AtMostInFlight(more, vendor, k)
  {
    hide Permitted, CountSince, InFlight;
    var more := actions + [Record(lo, None, 0)];
    assert more[..|more| - 1] == actions;
    assert Waiting(vendor, lo, hi) - {lo} == Waiting(vendor, lo + 1, hi);
    WaitingSize(Approvals(vendor, n + 1), vendor, lo + 1, hi);
  }

  lemma AfterOneCall(actions: seq<Action>, vendor: string, n: nat, k: nat)
    requires vendor != "" && n < MAX_APPROVALS && k >= 1
    requires Run(actions) == Point(Approvals(vendor, n), Waiting(vendor, n, n)) && AtMostInFlight(actions, vendor, k)
    ensures var more := OneCall(actions, vendor, n);
            Run(more) == Point(Approvals(vendor, n + 1), Waiting(vendor, n + 1, n + 1)) && AtMostInFlight(more, vendor, k)
  {
    hide InFlight, Apply, Approvals, Waiting, Sample;
    CheckMore(actions, vendor, n, n, n, k);
    RecordOne(actions + [Check(n, Sample(vendor), 0)], vendor, n, n, n + 1, k);
  }

  lemma NothingChecked(vendor: string, k: nat)
    ensures Run([]) == Point(Approvals(vendor, 0), Waiting(vendor, 0, 0)) && AtMostInFlight([], vendor, k)
  {
    WaitingSize([], vendor, 0, 0);
    assert Waiting(vendor, 0, 0) == map[];
    hide InFlight;
  }

  lemma {:induction false} AfterChecks(vendor: string, n: nat, k: nat)
    requires vendor != "" && n <= k && k >= 1
    ensures Run(Checks(vendor, n)) == Point(Approvals(vendor, 2), Waiting(vendor, 2, n + 2))
    ensures AtMostInFlight(Checks(vendor, n), vendor, k)
  {
    hide InFlight, Apply, Approvals, Waiting, Sample;
    if n == 0 {
      NothingChecked(vendor, k);
      AfterOneCall([], vendor, 0, k);
      AfterOneCall(OneCall([], vendor, 0), vendor, 1, k);
    } else {
      AfterChecks(vendor, n - 1, k);
      CheckMore(Checks(vendor, n - 1), vendor, 2, 2, n + 1, k);
    }
  }

  lemma {:induction false} AfterRecords(vendor: string, k: nat, n: nat)
    requires vendor != "" && n <= k && k >= 1
    ensures Run(Records(vendor, k, n)) == Point(Approvals(vendor, n + 2), Waiting(vendor, n + 2, k + 2))
    ensures AtMostInFlight(Records(vendor, k, n), vendor, k)
  {
    hide InFlight, Apply, Approvals, Waiting, Sample;
    if n == 0 {
      AfterChecks(vendor, k, k);
    } else {
      AfterRecords(vendor, k, n - 1);
      RecordOne(Records(vendor, k, n - 1), vendor, n + 1, n + 1, k + 2, k);
    }
  }

  // The bound is tight: for every k there is a run with at most k in flight
  // whose first window holds 2 + k approvals, so the documented limit of three
  // is kept in every run exactly when calls do not overlap.
  lemma BoundIsReached(vendor: string, k: nat)
    requires vendor != "" && k >= 1
    ensures AtMostInFlight(Records(vendor, k, k), vendor, k)
    ensures |ApprovalsBetween(Run(Records(vendor, k, k)).log, vendor, 0, 24 * 3600)| == 2 + k
  {
    CountsArePositions(Run(Records(vendor, k, k)).log, vendor, 0);
    hide AtMostInFlight, Run, Records, Approvals, CountWindow, CountSince, Waiting, Sample;
    AfterRecords(vendor, k, k);
    ApprovalsCount(vendor, k + 2);
  }
}
