/**
 The kill switch: four graduated scopes, tripped and reset by hand, and the
 canary check, which trips the global stop for every new decision row that
 names the canary vendor.
 */
module ControlPlane {
  import opened Common

  datatype Switch = Switch(globalStop: bool, pausedAgents: set<string>, haltedSessions: set<string>, frozenTools: set<string>)

  datatype Scope = GlobalScope | AgentScope | SessionScope | ToolScope | UnknownScope

  const AllClear := Switch(false, {}, {}, {})

  function Trip(sw: Switch, scope: Scope, target: string): Switch {
    match scope
    case GlobalScope => sw.(globalStop := true)
    case AgentScope => sw.(pausedAgents := sw.pausedAgents + {target})
    case SessionScope => sw.(haltedSessions := sw.haltedSessions + {target})
    case ToolScope => sw.(frozenTools := sw.frozenTools + {target})
    case UnknownScope => sw
  }

  function Reset(sw: Switch, scope: Scope, target: string): Switch {
    match scope
    case GlobalScope => sw.(globalStop := false)
    case AgentScope => sw.(pausedAgents := sw.pausedAgents - {target})
    case SessionScope => sw.(haltedSessions := sw.haltedSessions - {target})
    case ToolScope => sw.(frozenTools := sw.frozenTools - {target})
    case UnknownScope => sw
  }

  predicate Tripped(sw: Switch, scope: Scope, target: string) {
    match scope
    case GlobalScope => sw.globalStop
    case AgentScope => target in sw.pausedAgents
    case SessionScope => target in sw.haltedSessions
    case ToolScope => target in sw.frozenTools
    case UnknownScope => false
  }

  // A trip or reset changes its own scope and target and nothing else, and a
  // reset undoes the trip of anything that was not tripped before.
  lemma TripAndReset(sw: Switch, scope: Scope, target: string, other: Scope, elsewhere: string)
    ensures Tripped(Trip(sw, scope, target), scope, target) <==> !scope.UnknownScope?
    ensures !Tripped(Reset(sw, scope, target), scope, target)
    ensures other != scope || (elsewhere != target && !scope.GlobalScope?) ==>
              && Tripped(Trip(sw, scope, target), other, elsewhere) == Tripped(sw, other, elsewhere)
              && Tripped(Reset(sw, scope, target), other, elsewhere) == Tripped(sw, other, elsewhere)
    ensures !Tripped(sw, scope, target) ==> Reset(Trip(sw, scope, target), scope, target) == sw
  {
    if scope.AgentScope? && target !in sw.pausedAgents {
      assert sw.pausedAgents + {target} - {target} == sw.pausedAgents;
    } else if scope.SessionScope? && target !in sw.haltedSessions {
      assert sw.haltedSessions + {target} - {target} == sw.haltedSessions;
    } else if scope.ToolScope? && target !in sw.frozenTools {
      assert sw.frozenTools + {target} - {target} == sw.frozenTools;
    }
  }

  // ------------------------------------------------------------ the canary check

  const CANARY_VENDOR := "CANARY-DO-NOT-USE"

  // A row of the decision table, in the order in which rows become visible.
  datatype DecisionRow = DecisionRow(id: nat, vendor: Option<string>)

  predicate IsCanary(r: DecisionRow) { r.vendor == Some(CANARY_VENDOR) }

  // The canary rows past the watermark among the first n.
  function Hits(table: seq<DecisionRow>, watermark: nat, n: nat): seq<nat>
    requires n <= |table|
  {
    if n == 0 then []
    else
      var earlier := Hits(table, watermark, n - 1);
      if IsCanary(table[n - 1]) && table[n - 1].id > watermark then earlier + [table[n - 1].id] else earlier
  }

  function MaxOf(start: nat, ids: seq<nat>): nat {
    if ids == [] then start
    else
      var m := MaxOf(start, ids[..|ids| - 1]);
      if ids[|ids| - 1] > m then ids[|ids| - 1] else m
  }

  function MaxId(table: seq<DecisionRow>): nat {
    if table == [] then 0
    else
      var m := MaxId(table[..|table| - 1]);
      if table[|table| - 1].id > m then table[|table| - 1].id else m
  }

  // The switch with its canary watermark, and the id behind each canary trip so far.
  datatype Plane = Plane(switch: Switch, watermark: nat, trips: seq<nat>)

  // A restart takes the watermark from the table, so old rows are not replayed.
  function Started(table: seq<DecisionRow>): Plane { Plane(AllClear, MaxId(table), []) }

  function Ticked(p: Plane, table: seq<DecisionRow>): Plane {
    var hits := Hits(table, p.watermark, |table|);
    Plane(if hits == [] then p.switch else p.switch.(globalStop := true), MaxOf(p.watermark, hits), p.trips + hits)
  }

  class ControlPlaneService {
    var globalStop: bool
    var pausedAgents: set<string>
    var haltedSessions: set<string>
    var frozenTools: set<string>
    var lastCanaryCheckId: nat
    ghost var trips: seq<nat>

    ghost function Contents(): Plane
      reads this
    {
      Plane(Switch(globalStop, pausedAgents, haltedSessions, frozenTools), lastCanaryCheckId, trips)
    }

    constructor (table: seq<DecisionRow>)
      ensures Contents() == Started(table)
    {
      globalStop, pausedAgents, haltedSessions, frozenTools := false, {}, {}, {};
      lastCanaryCheckId, trips := MaxId(table), [];
    }

    method Status() returns (sw: Switch)
      ensures sw == Contents().switch
    {
      sw := Switch(globalStop, pausedAgents, haltedSessions, frozenTools);
    }

    method TripScope(scope: Scope, target: string) returns (known: bool)
      modifies this
      ensures Contents() == old(Contents()).(switch := Trip(old(Contents()).switch, scope, target))
      ensures known <==> scope != UnknownScope
    {
      known := scope != UnknownScope;
      match scope
      case GlobalScope => globalStop := true;
      case AgentScope => pausedAgents := pausedAgents + {target};
      case SessionScope => haltedSessions := haltedSessions + {target};
      case ToolScope => frozenTools := frozenTools + {target};
      case UnknownScope =>
    }

    method ResetScope(scope: Scope, target: string)
      modifies this
      ensures Contents() == old(Contents()).(switch := Reset(old(Contents()).switch, scope, target))
    {
      match scope
      case GlobalScope => globalStop := false;
      case AgentScope => pausedAgents := pausedAgents - {target};
      case SessionScope => haltedSessions := haltedSessions - {target};
      case ToolScope => frozenTools := frozenTools - {target};
      case UnknownScope =>
    }

    method CheckCanaryVendor(table: seq<DecisionRow>)
      modifies this
      ensures Contents() == Ticked(old(Contents()), table)
    {
      var hits := Hits(table, lastCanaryCheckId, |table|);
      for i := 0 to |hits|
        invariant lastCanaryCheckId == MaxOf(old(lastCanaryCheckId), hits[..i])
        invariant globalStop == (old(globalStop) || i > 0)
        invariant unchanged(`pausedAgents) && unchanged(`haltedSessions) && unchanged(`frozenTools)
        invariant trips == old(trips) + hits[..i]
      {
        assert hits[..i + 1][..i] == hits[..i];
        lastCanaryCheckId := if hits[i] > lastCanaryCheckId then hits[i] else lastCanaryCheckId;
        globalStop := true;
        trips := trips + [hits[i]];
      }
      assert hits[..|hits|] == hits;
    }
  }

  // -------------------------------------------------------------- whole runs

  // `due` records the ids of canary rows that were past the watermark when they became visible.
  datatype World = World(plane: Plane, table: seq<DecisionRow>, due: set<nat>)

  datatype Action = Insert(row: DecisionRow) | Tick | TripBy(scope: Scope, target: string) | ResetBy(scope: Scope, target: string)

  predicate IdUsed(table: seq<DecisionRow>, id: nat) {
    exists i | 0 <= i < |table| :: table[i].id == id
  }

  function Apply(w: World, action: Action): World {
    match action
    case Insert(row) =>
      if IdUsed(w.table, row.id) then w
      else World(w.plane, w.table + [row], if IsCanary(row) && row.id > w.plane.watermark then w.due + {row.id} else w.due)
    case Tick => w.(plane := Ticked(w.plane, w.table))
    case TripBy(scope, target) => w.(plane := w.plane.(switch := Trip(w.plane.switch, scope, target)))
    case ResetBy(scope, target) => w.(plane := w.plane.(switch := Reset(w.plane.switch, scope, target)))
  }

  function RunFrom(w: World, actions: seq<Action>): World
    decreases |actions|
  {
    if actions == [] then w else Apply(RunFrom(w, actions[..|actions| - 1]), actions[|actions| - 1])
  }

  function Run(table: seq<DecisionRow>, actions: seq<Action>): World {
    RunFrom(World(Started(table), table, {}), actions)
  }

  function Pending(table: seq<DecisionRow>, watermark: nat): set<nat> {
    set i | 0 <= i < |table| && IsCanary(table[i]) && table[i].id > watermark :: table[i].id
  }

  predicate IdsDistinct(table: seq<DecisionRow>) {
    forall i, j | 0 <= i < j < |table| :: table[i].id != table[j].id
  }

  predicate OnceEach(ids: seq<nat>) {
    forall i, j | 0 <= i < j < |ids| :: ids[i] != ids[j]
  }

  ghost predicate Lists(ids: seq<nat>, members: set<nat>) {
    forall id: nat :: id in ids <==> id in members
  }

  // Every due id has tripped once or is still past the watermark, never both.
  ghost predicate Inv(w: World) {
    && IdsDistinct(w.table) && OnceEach(w.plane.trips)
    && (forall id | id in w.plane.trips :: id <= w.plane.watermark)
    && forall id: nat :: id in w.due <==> id in w.plane.trips || id in Pending(w.table, w.plane.watermark)
  }

  lemma PendingStep(table: seq<DecisionRow>, r: DecisionRow, watermark: nat)
    ensures Pending(table + [r], watermark) ==
            Pending(table, watermark) + if IsCanary(r) && r.id > watermark then {r.id} else {}
  {
    var table' := table + [r];
    assert table'[|table|] == r && forall i | 0 <= i < |table| :: table'[i] == table[i];
  }

  lemma {:induction false} HitsArePending(table: seq<DecisionRow>, watermark: nat, n: nat)
    requires n <= |table| && IdsDistinct(table)
    ensures Lists(Hits(table, watermark, n), Pending(table[..n], watermark))
    ensures OnceEach(Hits(table, watermark, n))
  {
    if n > 0 {
      HitsArePending(table, watermark, n - 1);
      var earlier, r := Hits(table, watermark, n - 1), table[n - 1];
      assert table[..n] == table[..n - 1] + [r];
      PendingStep(table[..n - 1], r, watermark);
      if IsCanary(r) && r.id > watermark {
        assert forall id :: id in earlier + [r.id] <==> id in earlier || id == r.id;
        assert r.id !in Pending(table[..n - 1], watermark);
        assert forall i | 0 <= i < |earlier| :: earlier[i] in earlier;
      }
    }
  }

  lemma {:induction false} MaxOfBounds(start: nat, ids: seq<nat>)
    ensures MaxOf(start, ids) >= start && (forall id | id in ids :: id <= MaxOf(start, ids))
    ensures MaxOf(start, ids) == start || MaxOf(start, ids) in ids
  {
    if ids != [] {
      MaxOfBounds(start, ids[..|ids| - 1]);
      assert ids == ids[..|ids| - 1] + [ids[|ids| - 1]];
    }
  }

  // A tick trips exactly the pending rows, and leaves none pending.
  lemma TickTripsPending(p: Plane, table: seq<DecisionRow>)
    requires IdsDistinct(table)
    ensures var (hits, p') := (Hits(table, p.watermark, |table|), Ticked(p, table));
            && Lists(hits, Pending(table, p.watermark)) && OnceEach(hits)
            && (hits == [] <==> Pending(table, p.watermark) == {})
            && Pending(table, p'.watermark) == {}
            && p'.watermark >= p.watermark && forall id | id in hits :: p.watermark < id <= p'.watermark
  {
    var hits, p' := Hits(table, p.watermark, |table|), Ticked(p, table);
    HitsArePending(table, p.watermark, |table|);
    assert table[..|table|] == table;
    MaxOfBounds(p.watermark, hits);
    forall i | 0 <= i < |table| && IsCanary(table[i]) && table[i].id > p.watermark ensures table[i].id <= p'.watermark {
      assert table[i].id in Pending(table, p.watermark);
      assert table[i].id in hits;
    }
    forall id | id in hits ensures id > p.watermark {
      assert id in Pending(table, p.watermark);
    }
    if hits != [] { assert hits[0] in hits; }
  }

  // A tick stops everything exactly when something did before or some row past the
  // watermark names the canary vendor; it touches no other scope.
  lemma TickStopsExactly(p: Plane, table: seq<DecisionRow>)
    requires IdsDistinct(table)
    ensures var sw := Ticked(p, table).switch;
            && (sw.globalStop <==>
                  (p.switch.globalStop ||
                   exists i :: 0 <= i < |table| && table[i].vendor == Some("CANARY-DO-NOT-USE") && table[i].id > p.watermark))
            && sw == p.switch.(globalStop := sw.globalStop)
  {
    TickTripsPending(p, table);
    if i :| 0 <= i < |table| && table[i].vendor == Some("CANARY-DO-NOT-USE") && table[i].id > p.watermark {
      assert table[i].id in Pending(table, p.watermark);
    } else {
      assert Pending(table, p.watermark) == {};
    }
    hide Hits, MaxOf, Pending;
  }

  lemma ApplyKeepsInv(w: World, action: Action)
    requires Inv(w)
    ensures Inv(Apply(w, action))
  {
    match action
    case Insert(row) => PendingStep(w.table, row, w.plane.watermark);
    case Tick =>
      var hits := Hits(w.table, w.plane.watermark, |w.table|);
      TickTripsPending(w.plane, w.table);
      assert forall id :: id in w.plane.trips + hits <==> id in w.plane.trips || id in hits;
      assert forall i | 0 <= i < |w.plane.trips| :: w.plane.trips[i] in w.plane.trips;
      assert forall i | 0 <= i < |hits| :: hits[i] in hits;
    case _ =>
  }

  lemma {:induction false} RunInv(table: seq<DecisionRow>, actions: seq<Action>)
    requires IdsDistinct(table)
    ensures Inv(Run(table, actions))
  {
    if actions == [] {
      MaxIdBounds(table);
    } else {
      RunInv(table, actions[..|actions| - 1]);
      ApplyKeepsInv(Run(table, actions[..|actions| - 1]), actions[|actions| - 1]);
    }
  }

  lemma {:induction false} MaxIdBounds(table: seq<DecisionRow>)
    ensures forall i | 0 <= i < |table| :: table[i].id <= MaxId(table)
    ensures table == [] || exists i :: 0 <= i < |table| && table[i].id == MaxId(table)
  {
    if table != [] {
      MaxIdBounds(table[..|table| - 1]);
      assert forall i | 0 <= i < |table| - 1 :: table[i] == table[..|table| - 1][i];
      assert table[|table| - 1].id <= MaxId(table);
    }
  }

  // After a tick, the trips so far are the due rows, each exactly once: a canary
  // row trips the global stop once if it became visible past the watermark, and
  // never otherwise.
  lemma EachDueRowTripsOnce(table: seq<DecisionRow>, actions: seq<Action>)
    requires IdsDistinct(table)
    ensures var w := Apply(Run(table, actions), Tick);
            OnceEach(w.plane.trips) && Lists(w.plane.trips, w.due)
  {
    var w := Run(table, actions);
    RunInv(table, actions);
    ApplyKeepsInv(w, Tick);
    TickTripsPending(w.plane, w.table);
  }

  predicate Rising(table: seq<DecisionRow>) {
    forall i, j | 0 <= i < j < |table| :: table[i].id < table[j].id
  }

  // The ids of the canary rows from position n on.
  function CanariesFrom(table: seq<DecisionRow>, n: nat): set<nat> {
    set i | n <= i < |table| && IsCanary(table[i]) :: table[i].id
  }

  // No row at all lies past every id the watermark can have reached.
  ghost predicate WatermarkSeen(w: World) {
    w.plane.watermark == 0 || exists i :: 0 <= i < |w.table| && w.table[i].id == w.plane.watermark
  }

  lemma ApplyKeepsWatermarkSeen(w: World, action: Action)
    requires IdsDistinct(w.table) && WatermarkSeen(w)
    ensures WatermarkSeen(Apply(w, action))
  {
    var w' := Apply(w, action);
    match action
    case Insert(row) =>
      if w.plane.watermark != 0 {
        var i :| 0 <= i < |w.table| && w.table[i].id == w.plane.watermark;
        assert w'.table[i] == w.table[i];
      }
    case Tick =>
      var hits := Hits(w.table, w.plane.watermark, |w.table|);
      MaxOfBounds(w.plane.watermark, hits);
      TickTripsPending(w.plane, w.table);
      if w'.plane.watermark != w.plane.watermark {
        assert w'.plane.watermark in Pending(w.table, w.plane.watermark);
      }
    case _ =>
  }

  lemma InOrderInsert(w: World, row: DecisionRow, n: nat)
    requires Rising(w.table + [row]) && WatermarkSeen(w) && row.id > 0 && n <= |w.table|
    ensures row.id > w.plane.watermark
    ensures CanariesFrom(w.table + [row], n) == CanariesFrom(w.table, n) + if IsCanary(row) then {row.id} else {}
  {
    var table' := w.table + [row];
    assert table'[|w.table|] == row && forall i | 0 <= i < |w.table| :: table'[i] == w.table[i] && table'[i].id < row.id;
  }

  // When ids become visible in order, the due rows are all the canary rows
  // recorded since startup; rows that were there at startup never trip.
  lemma {:induction false} InOrderRowsAreDue(table: seq<DecisionRow>, actions: seq<Action>)
    requires Rising(Run(table, actions).table) && forall a | a in actions && a.Insert? :: a.row.id > 0
    ensures var w := Run(table, actions);
            && table <= w.table && WatermarkSeen(w)
            && w.due == CanariesFrom(w.table, |table|)
  {
    if actions == [] {
      MaxIdBounds(table);
    } else {
      var init, last := actions[..|actions| - 1], actions[|actions| - 1];
      var w, w' := Run(table, init), Run(table, actions);
      assert last in actions && forall a | a in init :: a in actions;
      assert forall i | 0 <= i < |w.table| :: w'.table[i] == w.table[i];
      InOrderRowsAreDue(table, init);
      ApplyKeepsWatermarkSeen(w, last);
      if last.Insert? && !IdUsed(w.table, last.row.id) {
        InOrderInsert(w, last.row, |table|);
      }
    }
  }

  // A reset with nothing pending lasts until a new canary row or a trip by hand.
  lemma {:induction false} ResetLasts(w: World, actions: seq<Action>)
    requires Inv(w) && !w.plane.switch.globalStop && Pending(w.table, w.plane.watermark) == {}
    requires forall a | a in actions :: !(a.TripBy? && a.scope == GlobalScope) && !(a.Insert? && IsCanary(a.row))
    ensures var w' := RunFrom(w, actions);
            Inv(w') && !w'.plane.switch.globalStop && Pending(w'.table, w'.plane.watermark) == {}
    decreases |actions|
  {
    if actions != [] {
      var init, last := actions[..|actions| - 1], actions[|actions| - 1];
      assert last in actions && forall a | a in init :: a in actions;
      ResetLasts(w, init);
      var v := RunFrom(w, init);
      ApplyKeepsInv(v, last);
      match last
      case Insert(row) => PendingStep(v.table, row, v.plane.watermark);
      case Tick => TickTripsPending(v.plane, v.table);
      case _ =>
    }
  }
}
