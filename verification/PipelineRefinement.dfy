/**
 The pipeline over the ledger as it really runs: every dry run and every post is a
 session of its own, its statements interleave with those of all others, and it may
 die or its reply be lost. Each run of this pipeline is a run of the payment system,
 where a dry run and a post are one step each.
 */
module PipelineRefinement {
  import opened Common
  import opened InvoiceRun
  import opened PaymentSystem
  import ControlPlane
  import Ledger
  import L = LedgerConcurrency
  import VendorHistory

  // `senders` tells for each ledger call whose reply is outstanding which run made it.
  datatype Pipeline = Pipeline(world: World, system: L.System, senders: map<nat, nat>)

  datatype Event =
    | Elsewhere(action: Action)
    | Send(run: nat, call: nat)
    | Statement(call: nat, heard: bool)
    | Death(call: nat)

  predicate Waiting(r: Run) { r.place.AtDryRun? || r.place.AtCommit? }

  // What a run asks the ledger for where it stands.
  function Asking(r: Run): L.Request {
    if r.place.AtCommit? then L.PostRequest(PaymentTransaction(r)) else L.DryRunRequest(PaymentEntries(Amount(r)))
  }

  predicate Sending(p: Pipeline, run: nat) { exists c | c in p.senders :: p.senders[c] == run }

  // The call has just ended in system s.
  predicate Ends(p: Pipeline, s: L.System, call: nat) {
    L.InFlight(p.system, call) && call in s.calls && s.calls[call].phase.Finished?
    && call in p.senders && p.senders[call] in p.world.runs
  }

  // A dry run without a reply raises: its run keeps waiting and asks no more.
  function Replied(p: Pipeline, s: L.System, call: nat, heard: bool): Pipeline {
    if !Ends(p, s, call) then p.(system := s)
    else
      var run, answer := p.senders[call], s.calls[call].phase.answer;
      var r := p.world.runs[run];
      if r.place.AtCommit? then Pipeline(Told(p.world, run, s.tables, answer, heard), s, p.senders - {call})
      else if heard && answer.Dry? then
        Pipeline(p.world.(runs := p.world.runs[run := DryRan(r, answer.report.Valid?)]), s, p.senders - {call})
      else p.(system := s)
  }

  function Happens(p: Pipeline, e: Event): (p': Pipeline)
    requires L.Inv(p.system)
    ensures L.Inv(p'.system)
  {
    match e
    case Elsewhere(a) => if a.Commit? || a.DryRun? then p else p.(world := Apply(p.world, a))
    case Send(run, call) =>
      if run !in p.world.runs || !Waiting(p.world.runs[run]) || Sending(p, run) || call in p.system.calls then p
      else
        var arrive := L.Arrive(call, Asking(p.world.runs[run]));
        L.ApplyKeepsInv(p.system, arrive);
        p.(system := L.Apply(p.system, arrive), senders := p.senders[call := run])
    case Statement(call, heard) =>
      L.ApplyKeepsInv(p.system, L.Step(call));
      Replied(p, L.Apply(p.system, L.Step(call)), call, heard)
    case Death(call) =>
      L.ApplyKeepsInv(p.system, L.Abort(call));
      Replied(p, L.Apply(p.system, L.Abort(call)), call, false)
  }

  function Start(books: VendorHistory.Books, switch: ControlPlane.Switch): Pipeline {
    Pipeline(Opening(books, switch), L.Idle(Ledger.Tables(SEED_ACCOUNTS, [])), map[])
  }

  function Unfold(p: Pipeline, events: seq<Event>): (p': Pipeline)
    requires L.Inv(p.system)
    ensures L.Inv(p'.system)
    decreases |events|
  {
    if events == [] then p else Happens(Unfold(p, events[..|events| - 1]), events[|events| - 1])
  }

  // ------------------------------------------------------------------ the invariant

  // An outstanding call asks what its run waits for; a post is outstanding only
  // while its session lives.
  predicate Sent(p: Pipeline, c: nat)
    requires c in p.senders
  {
    && c in p.system.calls && p.senders[c] in p.world.runs
    && Waiting(p.world.runs[p.senders[c]])
    && p.system.calls[c].request == Asking(p.world.runs[p.senders[c]])
    && (p.world.runs[p.senders[c]].place.AtCommit? ==> L.InFlight(p.system, c))
  }

  predicate OneEach(senders: map<nat, nat>) {
    forall c, d | c in senders && d in senders && senders[c] == senders[d] :: c == d
  }

  predicate Agree(p: Pipeline) {
    && L.Inv(p.system) && p.world.ledger == p.system.tables
    && (forall c | c in p.senders :: Sent(p, c))
    && (forall c | c in p.system.calls && L.InFlight(p.system, c) :: c in p.senders)
    && OneEach(p.senders)
  }

  lemma ElsewhereLeavesLedger(w: World, a: Action, id: nat)
    requires !a.Commit? && !a.DryRun?
    ensures Apply(w, a).ledger == w.ledger
    ensures id in w.runs && Waiting(w.runs[id]) ==> id in Apply(w, a).runs && Apply(w, a).runs[id] == w.runs[id]
  {
    hide VendorHistory.Record, VendorCall, Allows, KnownVendor, Halted;
  }

  lemma ElsewhereAgrees(p: Pipeline, a: Action)
    requires Agree(p) && !a.Commit? && !a.DryRun?
    ensures Agree(p.(world := Apply(p.world, a)))
  {
    hide Apply, Asking, L.Inv;
    var p' := p.(world := Apply(p.world, a));
    ElsewhereLeavesLedger(p.world, a, 0);
    forall c | c in p'.senders ensures Sent(p', c) {
      assert Sent(p, c);
      ElsewhereLeavesLedger(p.world, a, p.senders[c]);
    }
  }

  lemma SendAgrees(p: Pipeline, run: nat, call: nat)
    requires Agree(p)
    ensures Agree(Happens(p, Send(run, call))) && Happens(p, Send(run, call)).world == p.world
  {
    hide Asking, L.Inv, Waiting;
    var p' := Happens(p, Send(run, call));
    if p' != p {
      forall c | c in p'.senders ensures Sent(p', c) {
        if c != call { assert Sent(p, c); }
      }
      forall c, d | c in p'.senders && d in p'.senders && p'.senders[c] == p'.senders[d] ensures c == d {
        assert c in p.senders ==> c != call && p'.senders[c] == p.senders[c];
        assert d in p.senders ==> d != call && p'.senders[d] == p.senders[d];
      }
    }
  }

  // ---------------------------------------------------------------- ledger statements

  // One statement or death of a session: others are left alone, the tables change
  // only when a post ends, and what an ending call is told is a serial answer.
  ghost predicate SessionMoves(s: L.System, s': L.System, call: nat) {
    && L.Inv(s')
    && s'.calls.Keys == s.calls.Keys
    && (forall c | c in s.calls :: s'.calls[c].request == s.calls[c].request && (c != call ==> s'.calls[c] == s.calls[c]))
    && (if L.InFlight(s, call) && s'.calls[call].phase.Finished? then
          L.SerialAnswer(s.tables, s'.tables, s.calls[call].request, s'.calls[call].phase.answer)
        else s'.tables == s.tables)
    && (call in s.calls && s.calls[call].phase.Finished? ==> s'.calls[call] == s.calls[call])
  }

  lemma StatementFrame(s: L.System, call: nat)
    requires L.Inv(s) && L.Ready(s, call)
    ensures var s' := L.Apply(s, L.Step(call));
            && s'.calls.Keys == s.calls.Keys && s'.calls[call].request == s.calls[call].request
            && forall c | c in s.calls && c != call :: s'.calls[c] == s.calls[c]
  {
    L.CallStays(s, call);
    var c := L.AdvanceReducesWork(s, call);
    hide L.Advance, L.Inv, L.CallSound, L.Ready;
  }

  lemma StatementAnswer(s: L.System, call: nat)
    requires L.Inv(s) && L.Ready(s, call)
    ensures var s' := L.Apply(s, L.Step(call));
            call in s'.calls &&
            if s'.calls[call].phase.Finished? then
              L.SerialAnswer(s.tables, s'.tables, s.calls[call].request, s'.calls[call].phase.answer)
            else s'.tables == s.tables
  {
    L.CallStays(s, call);
    L.EndedAnswerIsSerial(s, call);
    hide L.SerialAnswer, L.Advance, L.Inv, L.CallSound, L.Ready;
  }

  lemma StatementMoves(s: L.System, call: nat)
    requires L.Inv(s)
    ensures SessionMoves(s, L.Apply(s, L.Step(call)), call)
  {
    L.ApplyKeepsInv(s, L.Step(call));
    if L.Ready(s, call) {
      StatementFrame(s, call);
      StatementAnswer(s, call);
      hide L.Apply, L.SerialAnswer, L.Inv;
    } else {
      hide L.Inv, L.SerialAnswer;
    }
  }

  lemma DeathMoves(s: L.System, call: nat)
    requires L.Inv(s)
    ensures SessionMoves(s, L.Apply(s, L.Abort(call)), call)
  {
    L.ApplyKeepsInv(s, L.Abort(call));
    var s' := L.Apply(s, L.Abort(call));
    if call in s.calls { AbortedIsSerial(s.tables, s.calls[call].request); }
    hide L.Inv, L.SerialAnswer, L.Released;
  }

  lemma AbortedIsSerial(t: Ledger.Tables, request: L.Request)
    ensures L.SerialAnswer(t, t, request, L.Aborted)
  {}

  // The reply to a session that has moved is at most one step of the payment system.
  lemma ReplyRefines(p: Pipeline, s': L.System, call: nat, heard: bool) returns (step: seq<Action>)
    requires Agree(p) && SessionMoves(p.system, s', call)
    ensures |step| <= 1 && Replied(p, s', call, heard).world == RunFrom(p.world, step)
  {
    hide L.Inv, L.SerialAnswer, PaymentTransaction, PaymentEntries, DryRan, Committing, Told;
    step := [];
    if Ends(p, s', call) {
      var run, answer := p.senders[call], s'.calls[call].phase.answer;
      assert Sent(p, call);
      var r := p.world.runs[run];
      if r.place.AtCommit? {
        var d := EveryEndIsADelivery(p.world, run, s'.tables, answer, heard);
        step := [Commit(run, d)];
        OneStep(p.world, step[0]);
      } else if heard && answer.Dry? {
        DryReply(p.world, s'.tables, r, answer);
        step := [DryRun(run)];
        OneStep(p.world, step[0]);
      }
    } else {
      assert RunFrom(p.world, []) == p.world;
    }
  }

  lemma OneStep(w: World, a: Action)
    ensures RunFrom(w, [a]) == Apply(w, a)
  {
    assert RunFrom(w, []) == w;
    assert [a][..0] == [];
  }

  lemma DryReply(w: World, after: Ledger.Tables, r: Run, answer: L.Answer)
    requires L.SerialAnswer(w.ledger, after, L.DryRunRequest(PaymentEntries(Amount(r))), answer) && answer.Dry?
    ensures answer.report == Ledger.DryRun(w.ledger, PaymentEntries(Amount(r)))
  {}

  lemma ReplyKeepsSent(p: Pipeline, s': L.System, call: nat, heard: bool, c: nat)
    requires Agree(p) && SessionMoves(p.system, s', call)
    requires c in Replied(p, s', call, heard).senders
    ensures Sent(Replied(p, s', call, heard), c)
  {
    hide L.Inv, L.SerialAnswer, Asking, Committed, DryRan, Waiting;
    assert Sent(p, c);
    if Ends(p, s', call) {
      assert Sent(p, call);
      assert c != call ==> p.senders[c] != p.senders[call];
    }
  }

  lemma ReplyKeepsSenders(p: Pipeline, s': L.System, call: nat, heard: bool, c: nat)
    requires Agree(p) && SessionMoves(p.system, s', call)
    requires c in s'.calls && L.InFlight(s', c)
    ensures c in Replied(p, s', call, heard).senders
  {
    hide L.Inv, L.SerialAnswer, Asking, Committed, DryRan, Waiting, Sent, OneEach, Told;
    assert c in p.system.calls && L.InFlight(p.system, c);
  }

  lemma ReplyAgrees(p: Pipeline, s': L.System, call: nat, heard: bool)
    requires Agree(p) && SessionMoves(p.system, s', call)
    ensures Agree(Replied(p, s', call, heard))
  {
    hide L.Inv, L.SerialAnswer, Asking, Committed, DryRan, Sent, Told, Ends;
    var p' := Replied(p, s', call, heard);
    TablesFollow(p, s', call, heard);
    forall c | c in p'.senders ensures Sent(p', c) {
      ReplyKeepsSent(p, s', call, heard, c);
    }
    forall c | c in s'.calls && L.InFlight(s', c) ensures c in p'.senders {
      ReplyKeepsSenders(p, s', call, heard, c);
    }
  }

  // The world's ledger stays the committed tables.
  lemma TablesFollow(p: Pipeline, s': L.System, call: nat, heard: bool)
    requires Agree(p) && SessionMoves(p.system, s', call)
    ensures Replied(p, s', call, heard).world.ledger == s'.tables
  {
    hide L.Inv, PaymentTransaction, PaymentEntries, Committed, DryRan, Ledger.Post, Ledger.DryRun, Ledger.Validate, Ledger.KeyUsed;
    if L.InFlight(p.system, call) {
      assert call in p.senders && Sent(p, call);
    }
  }

  lemma HappensRefines(p: Pipeline, e: Event) returns (step: seq<Action>)
    requires Agree(p)
    ensures Agree(Happens(p, e)) && |step| <= 1 && Happens(p, e).world == RunFrom(p.world, step)
  {
    hide Agree, Apply, Replied, SessionMoves;
    assert L.Inv(p.system) by { AgreeHasInv(p); }
    step := [];
    assert RunFrom(p.world, []) == p.world;
    match e
    case Elsewhere(a) =>
      if !a.Commit? && !a.DryRun? {
        ElsewhereAgrees(p, a);
        step := [a];
        OneStep(p.world, a);
      }
    case Send(run, call) => SendAgrees(p, run, call);
    case Statement(call, heard) =>
      StatementMoves(p.system, call);
      step := ReplyRefines(p, L.Apply(p.system, L.Step(call)), call, heard);
      ReplyAgrees(p, L.Apply(p.system, L.Step(call)), call, heard);
    case Death(call) =>
      DeathMoves(p.system, call);
      step := ReplyRefines(p, L.Apply(p.system, L.Abort(call)), call, false);
      ReplyAgrees(p, L.Apply(p.system, L.Abort(call)), call, false);
  }

  lemma AgreeHasInv(p: Pipeline)
    requires Agree(p)
    ensures L.Inv(p.system)
  {}

  lemma {:induction false} RunFromConcat(w: World, a: seq<Action>, b: seq<Action>)
    requires |b| <= 1
    ensures RunFrom(w, a + b) == RunFrom(RunFrom(w, a), b)
  {
    if b == [] {
      assert a + b == a;
    } else {
      assert (a + b)[..|a|] == a;
      assert b == [b[0]];
      OneStep(RunFrom(w, a), b[0]);
    }
  }

  // Every run of the pipeline over interleaved ledger sessions is a run of the
  // payment system, with the same runs, replies and journal at every end.
  lemma {:induction false} PipelineRefinesPayments(books: VendorHistory.Books, switch: ControlPlane.Switch, events: seq<Event>)
    returns (actions: seq<Action>)
    ensures var p := Unfold(Start(books, switch), events);
            && Agree(p) && p.world == RunFrom(Opening(books, switch), actions)
            && p.system.tables == p.world.ledger && |actions| <= |events|
    decreases |events|
  {
    hide Happens, RunFrom;
    if events == [] {
      actions := [];
      assert RunFrom(Opening(books, switch), []) == Opening(books, switch) by { NoSteps(Opening(books, switch)); }
    } else {
      var init := events[..|events| - 1];
      var before := PipelineRefinesPayments(books, switch, init);
      var step := HappensRefines(Unfold(Start(books, switch), init), events[|events| - 1]);
      RunFromConcat(Opening(books, switch), before, step);
      actions := before + step;
    }
  }

  lemma NoSteps(w: World)
    ensures RunFrom(w, []) == w
  {}

  // So what holds of payments as single steps holds of them statement by
  // statement: money is conserved in the committed tables of every interleaving,
  // and a settled run made the one transaction with its key.
  lemma InterleavedMoneyIsConserved(books: VendorHistory.Books, switch: ControlPlane.Switch, events: seq<Event>)
    requires VendorHistory.Consistent(books)
    ensures var p := Unfold(Start(books, switch), events);
            var accounts := p.system.tables.accounts;
            && accounts.Keys == {"operating-cash", "accounts-payable", "vendor-expense"}
            && 50000000 - accounts["operating-cash"].balance == accounts["vendor-expense"].balance == PaidOut(p.world.runs, p.world.creators)
            && accounts["operating-cash"].balance >= 0 && Distinct(p.world.creators)
  {
    hide Unfold, RunFrom, Agree, PaidOut, VendorHistory.Consistent;
    var actions := PipelineRefinesPayments(books, switch, events);
    MoneyIsConserved(books, switch, actions);
  }

  lemma InterleavedSettledPaidOnce(books: VendorHistory.Books, switch: ControlPlane.Switch, events: seq<Event>, id: nat)
    requires VendorHistory.Consistent(books)
    requires var w := Unfold(Start(books, switch), events).world; id in w.runs && IsSettled(w.runs[id])
    ensures var p := Unfold(Start(books, switch), events);
            var (i, journal) := (p.world.runs[id].payment.value.transaction, p.system.tables.journal);
            && i < |journal| && journal[i] == PaymentTransaction(p.world.runs[id])
            && forall j | 0 <= j < |journal| && journal[j].key == PaymentKey(p.world.runs[id].invoiceId) :: j == i
  {
    hide Unfold, RunFrom, Agree, PaymentTransaction, PaymentKey, VendorHistory.Consistent;
    var actions := PipelineRefinesPayments(books, switch, events);
    SettledPaidOnce(books, switch, actions, id);
  }
}
