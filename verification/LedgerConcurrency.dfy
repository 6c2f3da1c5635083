/**
 Many ledger calls at once. Each call is a database session that goes through
 key lookup, one FOR UPDATE row read per entry, the flush that inserts its
 idempotency key, its writes and its commit, one statement at a time, in any
 interleaving with the others. Row and key locks are held to the end of the
 session, and a granted row lock reads the latest committed balance.
 */
module LedgerConcurrency {
  import opened Common
  import opened Ledger

  type CallId = nat

  datatype Request = PostRequest(txn: Transaction) | DryRunRequest(asked: seq<EntryRequest>)
  {
    function Entries(): seq<EntryRequest> {
      match this
      case PostRequest(txn) => txn.entries
      case DryRunRequest(asked) => asked
    }
  }

  datatype Answer =
    | Posted(id: nat)
    | Dry(report: DryRunReport)
    | Refused(error: LedgerError)
    | IntegrityFailure  // the flush met a key committed after the lookup
    | Aborted           // the session died; nothing was committed

  datatype Phase =
    | Arrived
    | Locking(results: seq<int>)
    | Writing(results: seq<int>, written: nat)
    | Finished(answer: Answer)

  datatype Call = Call(request: Request, phase: Phase)

  datatype System = System(
    tables: Tables,
    rowLocks: map<string, CallId>,
    keyLocks: map<string, CallId>,
    calls: map<CallId, Call>)

  datatype Action = Arrive(id: CallId, request: Request) | Step(id: CallId) | Abort(id: CallId)

  // -------------------------------------------------------------- transitions

  predicate InFlight(s: System, t: CallId) {
    t in s.calls && !s.calls[t].phase.Finished?
  }

  // The call that holds the lock on which t's next statement waits.
  function Blocker(s: System, t: CallId): Option<CallId>
    requires t in s.calls
  {
    var request, phase := s.calls[t].request, s.calls[t].phase;
    if !phase.Locking? then None
    else if |phase.results| < |request.Entries()| then
      var name := request.Entries()[|phase.results|].account;
      if name in s.tables.accounts && name in s.rowLocks && s.rowLocks[name] != t then Some(s.rowLocks[name]) else None
    else if request.PostRequest? && request.txn.key in s.keyLocks then Some(s.keyLocks[request.txn.key])
    else None
  }

  predicate Ready(s: System, t: CallId) {
    InFlight(s, t) && Blocker(s, t).None?
  }

  function Released(locks: map<string, CallId>, t: CallId): map<string, CallId> {
    map n | n in locks && locks[n] != t :: locks[n]
  }

  function InPhase(s: System, t: CallId, phase: Phase): System
    requires t in s.calls
  {
    s.(calls := s.calls[t := s.calls[t].(phase := phase)])
  }

  // The end of a session: commit or rollback, either way every lock is released.
  function Ended(s: System, t: CallId, answer: Answer): System
    requires t in s.calls
  {
    InPhase(s, t, Finished(answer)).(rowLocks := Released(s.rowLocks, t), keyLocks := Released(s.keyLocks, t))
  }

  function Refusal(request: Request, e: LedgerError): Answer {
    if request.PostRequest? then Refused(e) else Dry(Invalid(e))
  }

  function LookUpKey(s: System, t: CallId): System
    requires t in s.calls
  {
    var request := s.calls[t].request;
    var entries := request.Entries();
    if request.PostRequest? && KeyUsed(s.tables.journal, request.txn.key) then
      Ended(s, t, Refused(DuplicateTransaction(request.txn.key)))
    else if !Balances(entries) then
      Ended(s, t, Refusal(request, UnbalancedEntries(Debits(entries), Credits(entries))))
    else InPhase(s, t, Locking([]))
  }

  function LockRow(s: System, t: CallId, results: seq<int>): System
    requires t in s.calls && |results| < |s.calls[t].request.Entries()|
  {
    var request := s.calls[t].request;
    var e := request.Entries()[|results|];
    match EntryOutcome(s.tables.accounts, e)
    case Err(err) => Ended(s, t, Refusal(request, err))
    case Ok(b) => InPhase(s, t, Locking(results + [b])).(rowLocks := s.rowLocks[e.account := t])
  }

  function FlushKey(s: System, t: CallId, results: seq<int>): System
    requires t in s.calls && |results| == |s.calls[t].request.Entries()|
  {
    match s.calls[t].request
    case DryRunRequest(entries) => Ended(s, t, Dry(Valid(Reported(entries, results, |entries|))))
    case PostRequest(txn) =>
      if KeyUsed(s.tables.journal, txn.key) then Ended(s, t, IntegrityFailure)
      else InPhase(s, t, Writing(results, 0)).(keyLocks := s.keyLocks[txn.key := t])
  }

  // Insert one entry row, or commit when all are in.
  function WriteEntry(s: System, t: CallId, results: seq<int>, i: nat): System
    requires t in s.calls && s.calls[t].request.PostRequest?
    requires i <= |results| == |s.calls[t].request.txn.entries|
    requires forall j | 0 <= j < |results| :: s.calls[t].request.txn.entries[j].account in s.tables.accounts
  {
    var txn := s.calls[t].request.txn;
    if i == |results| then
      Ended(s, t, Posted(|s.tables.journal|)).(tables := Committed(s.tables, txn, results))
    else if RepeatsPair(txn.entries[..i + 1]) then
      Ended(s, t, Refused(DuplicateTransaction(txn.key)))
    else InPhase(s, t, Writing(results, i + 1))
  }

  function Advance(s: System, t: CallId): System
    requires InFlight(s, t) && CallSound(s, t)
  {
    match s.calls[t].phase
    case Arrived => LookUpKey(s, t)
    case Locking(results) =>
      if |results| < |s.calls[t].request.Entries()| then LockRow(s, t, results) else FlushKey(s, t, results)
    case Writing(results, i) => WriteEntry(s, t, results, i)
    case Finished(_) => s
  }

  // A statement that has to wait does nothing until it is scheduled again.
  function Apply(s: System, action: Action): System
    requires Inv(s)
  {
    match action
    case Arrive(t, request) => if t in s.calls then s else s.(calls := s.calls[t := Call(request, Arrived)])
    case Step(t) => if Ready(s, t) then Advance(s, t) else s
    case Abort(t) => if InFlight(s, t) then Ended(s, t, Aborted) else s
  }

  // ---------------------------------------------------------------- invariant

  predicate HoldsRow(call: Call, name: string) {
    && (call.phase.Locking? || call.phase.Writing?)
    && |call.phase.results| <= |call.request.Entries()|
    && exists j | 0 <= j < |call.phase.results| :: call.request.Entries()[j].account == name
  }

  // Under its row locks, every balance a call computed is still the committed
  // balance plus its delta.
  predicate Granted(s: System, t: CallId, entries: seq<EntryRequest>, results: seq<int>) {
    && |results| <= |entries|
    && forall j | 0 <= j < |results| ::
         && entries[j].account in s.rowLocks && s.rowLocks[entries[j].account] == t
         && entries[j].account in s.tables.accounts
         && EntryOutcome(s.tables.accounts, entries[j]) == Ok(results[j])
  }

  predicate CallSound(s: System, t: CallId)
    requires t in s.calls
  {
    var request := s.calls[t].request;
    match s.calls[t].phase
    case Locking(results) => Balances(request.Entries()) && Granted(s, t, request.Entries(), results)
    case Writing(results, i) =>
      && request.PostRequest?
      && i <= |results| == |request.txn.entries|
      && Balances(request.txn.entries) && Granted(s, t, request.txn.entries, results)
      && !RepeatsPair(request.txn.entries[..i])
      && request.txn.key in s.keyLocks && s.keyLocks[request.txn.key] == t
      && !KeyUsed(s.tables.journal, request.txn.key)
    case _ => true
  }

  predicate Inv(s: System) {
    && (forall t | t in s.calls :: CallSound(s, t))
    && (forall n | n in s.rowLocks :: s.rowLocks[n] in s.calls && HoldsRow(s.calls[s.rowLocks[n]], n))
    && (forall k | k in s.keyLocks ::
          && s.keyLocks[k] in s.calls
          && s.calls[s.keyLocks[k]].phase.Writing?
          && s.calls[s.keyLocks[k]].request.PostRequest?
          && s.calls[s.keyLocks[k]].request.txn.key == k)
  }

  lemma {:induction false} WrittenElsewhere(accounts: map<string, Account>, entries: seq<EntryRequest>, results: seq<int>, n: nat, name: string)
    requires n <= |entries| == |results|
    requires forall i | 0 <= i < |entries| :: entries[i].account in accounts && entries[i].account != name
    requires name in accounts
    ensures Written(accounts, entries, results, n)[name] == accounts[name]
  {
    if n > 0 { WrittenElsewhere(accounts, entries, results, n - 1, name); }
  }

  // A call that keeps its own locks is not disturbed by what others do short of a commit.
  lemma UndisturbedCall(s: System, s': System, u: CallId)
    requires u in s.calls && CallSound(s, u)
    requires u in s'.calls && s'.calls[u] == s.calls[u] && s'.tables == s.tables
    requires forall n | n in s.rowLocks && s.rowLocks[n] == u :: n in s'.rowLocks && s'.rowLocks[n] == u
    requires forall k | k in s.keyLocks && s.keyLocks[k] == u :: k in s'.keyLocks && s'.keyLocks[k] == u
    ensures CallSound(s', u)
  {
  }

  lemma EndedKeepsInv(s: System, t: CallId, answer: Answer)
    requires Inv(s) && InFlight(s, t)
    ensures Inv(Ended(s, t, answer))
  {
    var s' := Ended(s, t, answer);
    forall u | u in s'.calls ensures CallSound(s', u) {
      if u != t { UndisturbedCall(s, s', u); }
    }
  }

  // A commit only changes rows that no other call has locked.
  lemma CommittedElsewhere(s: System, t: CallId, u: CallId, results: seq<int>, name: string)
    requires t in s.calls && s.calls[t].request.PostRequest? && u != t
    requires Granted(s, t, s.calls[t].request.txn.entries, results) && |results| == |s.calls[t].request.txn.entries|
    requires name in s.rowLocks && s.rowLocks[name] == u && name in s.tables.accounts
    ensures Committed(s.tables, s.calls[t].request.txn, results).accounts[name] == s.tables.accounts[name]
  {
    WrittenElsewhere(s.tables.accounts, s.calls[t].request.txn.entries, results, |results|, name);
  }

  lemma GrantedUnchanged(s: System, s': System, u: CallId, entries: seq<EntryRequest>, results: seq<int>)
    requires Granted(s, u, entries, results)
    requires s'.tables.accounts.Keys == s.tables.accounts.Keys
    requires forall n | n in s.rowLocks && s.rowLocks[n] == u :: n in s'.rowLocks && s'.rowLocks[n] == u
    requires forall n | n in s.rowLocks && s.rowLocks[n] == u && n in s.tables.accounts :: s'.tables.accounts[n] == s.tables.accounts[n]
    ensures Granted(s', u, entries, results)
  {
    forall j | 0 <= j < |results| ensures EntryOutcome(s'.tables.accounts, entries[j]) == Ok(results[j]) {
      assert s.rowLocks[entries[j].account] == u;
    }
  }

  // A call keeps its grants, and its key stays unused, while another commits.
  lemma CommitKeepsGranted(s: System, s': System, t: CallId, u: CallId, results: seq<int>)
    requires u in s.calls && u != t && CallSound(s, u) && (s.calls[u].phase.Locking? || s.calls[u].phase.Writing?)
    requires t in s.calls && s.calls[t].request.PostRequest?
    requires Granted(s, t, s.calls[t].request.txn.entries, results) && |results| == |s.calls[t].request.txn.entries|
    requires s'.tables == Committed(s.tables, s.calls[t].request.txn, results) && s'.rowLocks == Released(s.rowLocks, t)
    ensures Granted(s', u, s.calls[u].request.Entries(), s.calls[u].phase.results)
  {
    hide EntryOutcome, Written;
    forall n | n in s.rowLocks && s.rowLocks[n] == u && n in s.tables.accounts
      ensures s'.tables.accounts[n] == s.tables.accounts[n]
    {
      CommittedElsewhere(s, t, u, results, n);
    }
    GrantedUnchanged(s, s', u, s.calls[u].request.Entries(), s.calls[u].phase.results);
  }

  lemma OtherKeyStaysUnused(journal: seq<Transaction>, txn: Transaction, key: string)
    requires !KeyUsed(journal, key) && txn.key != key
    ensures !KeyUsed(journal + [txn], key)
  {}

  lemma CommitKeepsCallSound(s: System, s': System, t: CallId, u: CallId, results: seq<int>)
    requires Inv(s) && InFlight(s, t) && u in s.calls && u != t
    requires s.calls[t].phase == Writing(results, |results|)
    requires CallSound(s, t)
    requires s' == Ended(s, t, Posted(|s.tables.journal|)).(tables := Committed(s.tables, s.calls[t].request.txn, results))
    ensures CallSound(s', u)
  {
    hide EntryOutcome, Written, KeyUsed, RepeatsPair, Balances, Inv;
    assert CallSound(s, u) by { InvOfCall(s, u); }
    var phase := s.calls[u].phase;
    if phase.Locking? || phase.Writing? {
      CommitKeepsGranted(s, s', t, u, results);
      if phase.Writing? {
        OtherKeyStaysUnused(s.tables.journal, s.calls[t].request.txn, s.calls[u].request.txn.key);
      }
    }
  }

  lemma InvOfCall(s: System, u: CallId)
    requires Inv(s) && u in s.calls
    ensures CallSound(s, u)
  {
    hide CallSound;
  }

  lemma CommitKeepsInv(s: System, t: CallId, results: seq<int>)
    requires Inv(s) && InFlight(s, t)
    requires s.calls[t].phase == Writing(results, |results|)
    ensures Inv(Advance(s, t))
  {
    assert CallSound(s, t);
    var s' := Advance(s, t);
    EndedKeepsInv(s, t, Posted(|s.tables.journal|));
    forall u | u in s'.calls ensures CallSound(s', u) {
      if u != t { CommitKeepsCallSound(s, s', t, u, results); }
    }
  }

  lemma RowGrantedKeepsCalls(s: System, s': System, t: CallId, results: seq<int>, u: CallId)
    requires t in s.calls && s.calls[t].phase == Locking(results) && CallSound(s, t)
    requires Ready(s, t) && |results| < |s.calls[t].request.Entries()|
    requires EntryOutcome(s.tables.accounts, s.calls[t].request.Entries()[|results|]).Ok?
    requires s' == LockRow(s, t, results)
    requires u in s.calls && CallSound(s, u)
    ensures CallSound(s', u)
  {
    var request, phase := s.calls[u].request, s.calls[u].phase;
    if phase.Locking? || phase.Writing? {
      GrantedUnchanged(s, s', u, request.Entries(), phase.results);
    }
  }

  lemma RowGrantedKeepsLocks(s: System, s': System, t: CallId, results: seq<int>, n: string)
    requires t in s.calls && s.calls[t].phase == Locking(results)
    requires |results| < |s.calls[t].request.Entries()|
    requires EntryOutcome(s.tables.accounts, s.calls[t].request.Entries()[|results|]).Ok?
    requires s' == LockRow(s, t, results)
    requires n in s.rowLocks ==> s.rowLocks[n] in s.calls && HoldsRow(s.calls[s.rowLocks[n]], n)
    requires n in s'.rowLocks
    ensures s'.rowLocks[n] in s'.calls && HoldsRow(s'.calls[s'.rowLocks[n]], n)
  {
    var entries := s.calls[t].request.Entries();
    if n == entries[|results|].account {
      assert entries[|results|].account == n;
    } else {
      var u := s.rowLocks[n];
      var j :| 0 <= j < |s.calls[u].phase.results| && s.calls[u].request.Entries()[j].account == n;
      assert s'.calls[u].request.Entries()[j].account == n;
    }
  }

  lemma LockRowKeepsInv(s: System, t: CallId, results: seq<int>)
    requires Inv(s) && Ready(s, t)
    requires s.calls[t].phase == Locking(results) && |results| < |s.calls[t].request.Entries()|
    ensures Inv(LockRow(s, t, results))
  {
    match EntryOutcome(s.tables.accounts, s.calls[t].request.Entries()[|results|])
    case Err(e) => EndedKeepsInv(s, t, Refusal(s.calls[t].request, e));
    case Ok(b) =>
      var s' := LockRow(s, t, results);
      forall u | u in s'.calls ensures CallSound(s', u) {
        RowGrantedKeepsCalls(s, s', t, results, u);
      }
      forall n | n in s'.rowLocks ensures s'.rowLocks[n] in s'.calls && HoldsRow(s'.calls[s'.rowLocks[n]], n) {
        RowGrantedKeepsLocks(s, s', t, results, n);
      }
  }

  // A call may move on under the locks it holds, taking a key when its flush finds it free.
  lemma InPhaseKeepsInv(s: System, s': System, t: CallId, phase: Phase)
    requires Inv(s) && InFlight(s, t) && !phase.Finished?
    requires s' == InPhase(s, t, phase).(keyLocks := s'.keyLocks)
    requires CallSound(s', t)
    requires forall n :: HoldsRow(s.calls[t], n) ==> HoldsRow(s'.calls[t], n)
    requires forall k | k in s.keyLocks && s.keyLocks[k] != t :: k in s'.keyLocks && s'.keyLocks[k] == s.keyLocks[k]
    requires forall k | k in s'.keyLocks && !(k in s.keyLocks && s'.keyLocks[k] == s.keyLocks[k] != t) ::
               s'.keyLocks[k] == t && phase.Writing? && s.calls[t].request.PostRequest? && s.calls[t].request.txn.key == k
    ensures Inv(s')
  {
    forall u | u in s'.calls ensures CallSound(s', u) {
      if u != t { UndisturbedCall(s, s', u); }
    }
    forall n | n in s'.rowLocks ensures s'.rowLocks[n] in s'.calls && HoldsRow(s'.calls[s'.rowLocks[n]], n) {
      assert HoldsRow(s.calls[s.rowLocks[n]], n);
    }
  }

  lemma LookUpKeepsInv(s: System, t: CallId)
    requires Inv(s) && Ready(s, t) && s.calls[t].phase == Arrived
    ensures Inv(LookUpKey(s, t))
  {
    var s' := LookUpKey(s, t);
    if s'.calls[t].phase.Finished? {
      EndedKeepsInv(s, t, s'.calls[t].phase.answer);
    } else {
      InPhaseKeepsInv(s, s', t, Locking([]));
    }
  }

  lemma FlushKeepsInv(s: System, t: CallId, results: seq<int>)
    requires Inv(s) && Ready(s, t)
    requires s.calls[t].phase == Locking(results) && |results| == |s.calls[t].request.Entries()|
    ensures Inv(FlushKey(s, t, results))
  {
    var s' := FlushKey(s, t, results);
    if s'.calls[t].phase.Finished? {
      EndedKeepsInv(s, t, s'.calls[t].phase.answer);
    } else {
      assert CallSound(s, t);
      InPhaseKeepsInv(s, s', t, Writing(results, 0));
    }
  }

  lemma WroteSound(s: System, s': System, t: CallId, results: seq<int>, i: nat)
    requires t in s.calls && CallSound(s, t) && s.calls[t].phase == Writing(results, i) && i < |results|
    requires !RepeatsPair(s.calls[t].request.txn.entries[..i + 1])
    requires s' == InPhase(s, t, Writing(results, i + 1))
    ensures CallSound(s', t)
    ensures forall n :: HoldsRow(s.calls[t], n) ==> HoldsRow(s'.calls[t], n)
  {
    assert Granted(s', t, s.calls[t].request.txn.entries, results);
  }

  lemma WriteKeepsInv(s: System, t: CallId, results: seq<int>, i: nat)
    requires Inv(s) && Ready(s, t) && CallSound(s, t)
    requires s.calls[t].phase == Writing(results, i) && i < |results|
    ensures Inv(WriteEntry(s, t, results, i))
  {
    var s' := WriteEntry(s, t, results, i);
    if s'.calls[t].phase.Finished? {
      EndedKeepsInv(s, t, s'.calls[t].phase.answer);
    } else {
      WroteSound(s, s', t, results, i);
      InPhaseKeepsInv(s, s', t, Writing(results, i + 1));
    }
  }

  lemma AdvanceKeepsInv(s: System, t: CallId)
    requires Inv(s) && Ready(s, t)
    ensures Inv(Advance(s, t))
  {
    assert CallSound(s, t);
    match s.calls[t].phase
    case Arrived => LookUpKeepsInv(s, t);
    case Locking(results) =>
      if |results| < |s.calls[t].request.Entries()| { LockRowKeepsInv(s, t, results); } else { FlushKeepsInv(s, t, results); }
    case Writing(results, i) =>
      if i < |results| { WriteKeepsInv(s, t, results, i); } else { CommitKeepsInv(s, t, results); }
  }

  lemma ApplyKeepsInv(s: System, action: Action)
    requires Inv(s)
    ensures Inv(Apply(s, action))
  {
    match action
    case Arrive(t, request) =>
      var s' := Apply(s, action);
      forall u | u in s'.calls ensures CallSound(s', u) {
        if u in s.calls { assert CallSound(s, u); }
      }
    case Step(t) => if Ready(s, t) { AdvanceKeepsInv(s, t); }
    case Abort(t) => if InFlight(s, t) { EndedKeepsInv(s, t, Aborted); }
  }

  // Any finite interleaving.
  function Run(s: System, actions: seq<Action>): (r: System)
    requires Inv(s)
    ensures Inv(r)
    decreases |actions|
  {
    if actions == [] then s
    else
      var before := Run(s, actions[..|actions| - 1]);
      ApplyKeepsInv(before, actions[|actions| - 1]);
      Apply(before, actions[|actions| - 1])
  }

  function Idle(tables: Tables): (s: System)
    ensures Inv(s)
  {
    System(tables, map[], map[], map[])
  }

  // --------------------------------------------------------- serializability

  // The answer is the one the call would have got running alone at the moment
  // it ended. Only a key committed by someone else after the lookup makes a
  // difference: alone, the call would have been refused as a duplicate.
  predicate SerialAnswer(before: Tables, after: Tables, request: Request, answer: Answer) {
    match answer
    case Posted(id) => request.PostRequest? && Post(before, request.txn) == (after, Ok(id))
    case Dry(report) => request.DryRunRequest? && after == before && report == DryRun(before, request.asked)
    case Refused(e) =>
      && request.PostRequest? && after == before
      && (Post(before, request.txn).1 == Err(e) ||
          (KeyUsed(before.journal, request.txn.key) && Validate(before.accounts, request.txn.entries) == Err(e)))
    case IntegrityFailure =>
      && request.PostRequest? && after == before
      && Post(before, request.txn).1 == Err(DuplicateTransaction(request.txn.key))
    case Aborted => after == before
  }

  lemma FaultDecides(accounts: map<string, Account>, entries: seq<EntryRequest>, results: seq<int>)
    requires Balances(entries) && |results| <= |entries|
    requires forall j | 0 <= j < |results| :: EntryOutcome(accounts, entries[j]) == Ok(results[j])
    ensures |results| == |entries| ==> Validate(accounts, entries) == Ok(results)
    ensures |results| < |entries| && EntryOutcome(accounts, entries[|results|]).Err? ==>
              Validate(accounts, entries) == Err(EntryOutcome(accounts, entries[|results|]).error)
  {
    var f := FirstFault(accounts, entries, 0);
    if |results| == |entries| {
      assert f == |entries|;
      assert Validate(accounts, entries).value == results;
    } else if EntryOutcome(accounts, entries[|results|]).Err? {
      assert f == |results|;
    }
  }

  lemma RepeatsPairInPrefix(entries: seq<EntryRequest>, n: nat)
    requires n <= |entries|
    ensures RepeatsPair(entries[..n]) ==> RepeatsPair(entries)
  {
    var prefix := entries[..n];
    if RepeatsPair(prefix) {
      var j, k :| 0 <= j < k < n && prefix[j].account == prefix[k].account && prefix[j].direction == prefix[k].direction;
      assert entries[j].account == entries[k].account && entries[j].direction == entries[k].direction;
    }
  }

  lemma FlushAnswerIsSerial(s: System, t: CallId, results: seq<int>)
    requires t in s.calls && CallSound(s, t) && s.calls[t].phase == Locking(results)
    requires |results| == |s.calls[t].request.Entries()|
    ensures var s' := FlushKey(s, t, results);
            if s'.calls[t].phase.Finished? then SerialAnswer(s.tables, s'.tables, s.calls[t].request, s'.calls[t].phase.answer)
            else s'.tables == s.tables
  {
    FaultDecides(s.tables.accounts, s.calls[t].request.Entries(), results);
  }

  lemma WriteAnswerIsSerial(s: System, t: CallId, results: seq<int>, i: nat)
    requires t in s.calls && CallSound(s, t) && s.calls[t].phase == Writing(results, i)
    ensures var s' := WriteEntry(s, t, results, i);
            if s'.calls[t].phase.Finished? then SerialAnswer(s.tables, s'.tables, s.calls[t].request, s'.calls[t].phase.answer)
            else s'.tables == s.tables
  {
    var entries := s.calls[t].request.txn.entries;
    FaultDecides(s.tables.accounts, entries, results);
    assert entries[..|entries|] == entries;
    if i < |results| { RepeatsPairInPrefix(entries, i + 1); }
  }

  lemma EndedAnswerIsSerial(s: System, t: CallId)
    requires InFlight(s, t) && CallSound(s, t)
    ensures var s' := Advance(s, t);
            if s'.calls[t].phase.Finished? then SerialAnswer(s.tables, s'.tables, s.calls[t].request, s'.calls[t].phase.answer)
            else s'.tables == s.tables
  {
    var request := s.calls[t].request;
    match s.calls[t].phase
    case Locking(results) =>
      if |results| < |request.Entries()| {
        FaultDecides(s.tables.accounts, request.Entries(), results);
      } else {
        FlushAnswerIsSerial(s, t, results);
      }
    case Writing(results, i) => WriteAnswerIsSerial(s, t, results, i);
    case _ =>
  }

  // The tables only change by one more transaction being posted.
  lemma ApplyIsSerial(s: System, action: Action)
    requires Inv(s)
    ensures var (before, after) := (s.tables, Apply(s, action).tables);
            after == before || exists txn :: after == Post(before, txn).0 && after.journal == before.journal + [txn]
  {
    if action.Step? && Ready(s, action.id) {
      assert CallSound(s, action.id);
      EndedAnswerIsSerial(s, action.id);
      var s' := Advance(s, action.id);
      if s'.tables != s.tables {
        assert s'.tables == Post(s.tables, s.calls[action.id].request.txn).0;
      }
    }
  }

  // Every committed state is reached by running the committed transactions one
  // at a time, in commit order; and so nothing goes below zero and no key
  // commits twice.
  lemma {:induction false} Serializable(opening: map<string, Account>, actions: seq<Action>)
    ensures var tables := Run(Idle(Tables(opening, [])), actions).tables;
            && tables == PostAll(Tables(opening, []), tables.journal)
            && (Solvent(opening) ==> Solvent(tables.accounts))
            && KeysUnique(tables.journal)
    decreases |actions|
  {
    var s0 := Idle(Tables(opening, []));
    if actions != [] {
      Serializable(opening, actions[..|actions| - 1]);
      var s := Run(s0, actions[..|actions| - 1]);
      var s' := Run(s0, actions);
      ApplyIsSerial(s, actions[|actions| - 1]);
      assert s'.tables != s.tables ==> s'.tables.journal[..|s.tables.journal|] == s.tables.journal;
    }
    BooksAfterAnyRun(opening, Run(s0, actions).tables.journal);
  }

  // ------------------------------------------------------------ races for one key

  // The state before action i of a run.
  function Before(s: System, actions: seq<Action>, i: nat): System
    requires Inv(s) && i <= |actions|
  {
    Run(s, actions[..i])
  }

  // Action i is the call's key lookup.
  predicate LooksUp(s: System, actions: seq<Action>, t: CallId, i: nat)
    requires Inv(s)
  {
    i < |actions| && actions[i] == Step(t) && t in Before(s, actions, i).calls && Before(s, actions, i).calls[t].phase.Arrived?
  }

  // Every row is granted, and nothing keeps the call from its flush.
  predicate AtFlush(s: System, t: CallId) {
    && t in s.calls && s.calls[t].request.PostRequest? && s.calls[t].phase.Locking?
    && |s.calls[t].phase.results| == |s.calls[t].request.Entries()| && Blocker(s, t).None?
  }

  predicate Flushes(s: System, actions: seq<Action>, t: CallId, e: nat)
    requires Inv(s)
  {
    e < |actions| && actions[e] == Step(t) && AtFlush(Before(s, actions, e), t)
  }

  predicate KeyUsedAt(s: System, actions: seq<Action>, i: nat, key: string)
    requires Inv(s) && i <= |actions|
  {
    KeyUsed(Before(s, actions, i).tables.journal, key)
  }

  // A run seen from one action earlier.
  lemma BeforeShorter(s: System, actions: seq<Action>, i: nat)
    requires Inv(s) && actions != [] && i <= |actions| - 1
    ensures Before(s, actions, i) == Before(s, actions[..|actions| - 1], i)
  {
    assert actions[..i] == actions[..|actions| - 1][..i];
  }

  // What a call asks does not change, and a call that has ended has ended.
  lemma StepKeepsCalls(s: System, a: Action, t: CallId)
    requires Inv(s) && t in s.calls
    ensures var s' := Apply(s, a);
            && t in s'.calls && s'.calls[t].request == s.calls[t].request
            && (s.calls[t].phase.Finished? ==> s'.calls[t] == s.calls[t])
            && (a != Step(t) && a != Abort(t) ==> s'.calls[t] == s.calls[t])
  {
    if a.Step? && Ready(s, a.id) {
      InvOfCall(s, a.id);
      var call := AdvanceReducesWork(s, a.id);
    }
    hide Inv, Advance;
  }

  lemma NewCallArrives(s: System, a: Action, t: CallId)
    requires Inv(s) && t !in s.calls && t in Apply(s, a).calls
    ensures Apply(s, a).calls[t].phase.Arrived?
  {
    if a.Step? && Ready(s, a.id) {
      InvOfCall(s, a.id);
      var call := AdvanceReducesWork(s, a.id);
    }
    hide Inv, Advance;
  }

  lemma CallStays(s: System, t: CallId)
    requires Inv(s) && InFlight(s, t)
    ensures CallSound(s, t) && t in Advance(s, t).calls
  {
    hide Advance;
    InvOfCall(s, t);
    var call := AdvanceReducesWork(s, t);
  }

  // Where a call's next statement leaves it.
  function Next(s: System, t: CallId): Phase
    requires Inv(s) && Ready(s, t)
  {
    CallStays(s, t);
    Advance(s, t).calls[t].phase
  }

  // The phases a post can go through in one statement.
  predicate PostMoves(s: System, t: CallId, phase': Phase)
    requires t in s.calls && s.calls[t].request.PostRequest?
  {
    var phase, key := s.calls[t].phase, s.calls[t].request.txn.key;
    && !phase'.Arrived?
    && (phase.Arrived? && PastLookup(phase') ==> !KeyUsed(s.tables.journal, key))
    && (phase.Arrived? && KeyUsed(s.tables.journal, key) ==> phase' == Finished(Refused(DuplicateTransaction(key))))
    && (phase' == Finished(IntegrityFailure) <==> AtFlush(s, t) && KeyUsed(s.tables.journal, key))
    && phase' != Finished(Aborted)
  }

  lemma LookupMoves(s: System, t: CallId)
    requires Inv(s) && Ready(s, t) && s.calls[t].request.PostRequest? && s.calls[t].phase.Arrived?
    ensures PostMoves(s, t, Next(s, t))
  {
    hide LockRow, FlushKey, WriteEntry, KeyUsed, Balances, Inv;
  }

  lemma LockingMoves(s: System, t: CallId)
    requires Inv(s) && Ready(s, t) && s.calls[t].request.PostRequest? && s.calls[t].phase.Locking?
    ensures PostMoves(s, t, Next(s, t))
  {
    CallStays(s, t);
    hide LookUpKey, WriteEntry, KeyUsed, Balances, EntryOutcome, Inv;
  }

  lemma WritingMoves(s: System, t: CallId)
    requires Inv(s) && Ready(s, t) && s.calls[t].request.PostRequest? && s.calls[t].phase.Writing?
    ensures PostMoves(s, t, Next(s, t))
  {
    CallStays(s, t);
    hide LookUpKey, LockRow, FlushKey, KeyUsed, Balances, EntryOutcome, RepeatsPair, Committed, Inv;
  }

  lemma OneStatement(s: System, t: CallId)
    requires Inv(s) && Ready(s, t) && s.calls[t].request.PostRequest?
    ensures t in Apply(s, Step(t)).calls && Apply(s, Step(t)).calls[t].phase == Next(s, t)
    ensures PostMoves(s, t, Next(s, t))
  {
    CallStays(s, t);
    match s.calls[t].phase {
      case Arrived => LookupMoves(s, t);
      case Locking(_) => LockingMoves(s, t);
      case Writing(_, _) => WritingMoves(s, t);
    }
    hide PostMoves, Advance, Inv;
  }

  predicate PastLookup(phase: Phase) { phase.Locking? || phase.Writing? }

  // Which answer a used key gets when it ends a post: a duplicate at the lookup, an
  // integrity failure at the flush, and in between whatever the next row says.
  lemma UsedKeyAnswers(s: System, t: CallId)
    requires Inv(s) && Ready(s, t) && s.calls[t].request.PostRequest? && Next(s, t).Finished?
    requires KeyUsed(s.tables.journal, s.calls[t].request.txn.key)
    ensures !s.calls[t].phase.Writing?
    ensures Next(s, t).answer == Refused(DuplicateTransaction(s.calls[t].request.txn.key)) <==> s.calls[t].phase.Arrived?
    ensures Next(s, t).answer == IntegrityFailure <==> AtFlush(s, t)
    ensures s.calls[t].phase.Locking? && !AtFlush(s, t) ==>
              var (entries, n) := (s.calls[t].request.txn.entries, |s.calls[t].phase.results|);
              && n < |entries| && EntryOutcome(s.tables.accounts, entries[n]).Err?
              && Next(s, t).answer == Refused(EntryOutcome(s.tables.accounts, entries[n]).error)
  {
    CallStays(s, t);
    OneStatement(s, t);
    hide KeyUsed, RepeatsPair, Balances, Inv;
  }

  // Whoever got past the lookup found the key free.
  ghost predicate LookupFoundFree(s: System, actions: seq<Action>, t: CallId, key: string)
    requires Inv(s)
  {
    exists i :: LooksUp(s, actions, t, i) && !KeyUsedAt(s, actions, i, key)
  }

  lemma FoundFreeEarlier(s: System, actions: seq<Action>, t: CallId, key: string)
    requires Inv(s) && actions != [] && LookupFoundFree(s, actions[..|actions| - 1], t, key)
    ensures LookupFoundFree(s, actions, t, key)
  {
    hide Run, Inv, KeyUsed;
    var init := actions[..|actions| - 1];
    var i :| LooksUp(s, init, t, i) && !KeyUsedAt(s, init, i, key);
    BeforeShorter(s, actions, i);
    assert LooksUp(s, actions, t, i) && !KeyUsedAt(s, actions, i, key);
  }

  lemma {:induction false} PastLookupFoundFree(s: System, actions: seq<Action>, t: CallId)
    requires Inv(s) && t !in s.calls
    requires var now := Run(s, actions);
             t in now.calls && now.calls[t].request.PostRequest? && PastLookup(now.calls[t].phase)
    ensures LookupFoundFree(s, actions, t, Run(s, actions).calls[t].request.txn.key)
    decreases |actions|
  {
    hide KeyUsed, Inv, Advance;
    if actions != [] {
      var init, last := actions[..|actions| - 1], actions[|actions| - 1];
      var before := Run(s, init);
      var key := Run(s, actions).calls[t].request.txn.key;
      if t in before.calls {
        StepKeepsCalls(before, last, t);
        if PastLookup(before.calls[t].phase) {
          PastLookupFoundFree(s, init, t);
          FoundFreeEarlier(s, actions, t, key);
        } else {
          assert last == Step(t) && Ready(before, t);
          OneStatement(before, t);
          assert actions[..|actions| - 1] == init;
          assert LooksUp(s, actions, t, |actions| - 1) && !KeyUsedAt(s, actions, |actions| - 1, key);
        }
      } else {
        NewCallArrives(before, last, t);
      }
    }
  }

  // How a post that lost the race came to its answer: its lookup found the key
  // free, and its flush, with every row granted, found it used.
  ghost predicate LostTheRace(s: System, actions: seq<Action>, t: CallId, key: string)
    requires Inv(s)
  {
    LookupFoundFree(s, actions, t, key) && exists e :: Flushes(s, actions, t, e) && KeyUsedAt(s, actions, e, key)
  }

  lemma LostEarlier(s: System, actions: seq<Action>, t: CallId, key: string)
    requires Inv(s) && actions != [] && LostTheRace(s, actions[..|actions| - 1], t, key)
    ensures LostTheRace(s, actions, t, key)
  {
    hide Run, Inv, KeyUsed, LookupFoundFree, AtFlush;
    var init := actions[..|actions| - 1];
    FoundFreeEarlier(s, actions, t, key);
    var e :| Flushes(s, init, t, e) && KeyUsedAt(s, init, e, key);
    BeforeShorter(s, actions, e);
    assert Flushes(s, actions, t, e) && KeyUsedAt(s, actions, e, key);
  }

  lemma {:induction false} FailureLostTheRace(s: System, actions: seq<Action>, t: CallId)
    requires Inv(s) && t !in s.calls
    requires var now := Run(s, actions);
             t in now.calls && now.calls[t].request.PostRequest? && now.calls[t].phase == Finished(IntegrityFailure)
    ensures LostTheRace(s, actions, t, Run(s, actions).calls[t].request.txn.key)
    decreases |actions|
  {
    hide KeyUsed, Inv, Advance, LostTheRace, AtFlush, LookupFoundFree;
    if actions != [] {
      var init, last := actions[..|actions| - 1], actions[|actions| - 1];
      var before := Run(s, init);
      var key := Run(s, actions).calls[t].request.txn.key;
      if t !in before.calls { NewCallArrives(before, last, t); }
      StepKeepsCalls(before, last, t);
      if before.calls[t].phase.Finished? {
        FailureLostTheRace(s, init, t);
        LostEarlier(s, actions, t, key);
      } else {
        assert last == Step(t) && Ready(before, t);
        OneStatement(before, t);
        FlushLostTheRace(s, actions, t);
      }
    }
  }

  lemma FlushLostTheRace(s: System, actions: seq<Action>, t: CallId)
    requires Inv(s) && t !in s.calls && actions != [] && actions[|actions| - 1] == Step(t)
    requires var before := Run(s, actions[..|actions| - 1]);
             AtFlush(before, t) && KeyUsed(before.tables.journal, before.calls[t].request.txn.key)
    ensures LostTheRace(s, actions, t, Run(s, actions[..|actions| - 1]).calls[t].request.txn.key)
  {
    hide KeyUsed, Inv, Advance, LookupFoundFree;
    var init, e := actions[..|actions| - 1], |actions| - 1;
    var key := Run(s, init).calls[t].request.txn.key;
    PastLookupFoundFree(s, init, t);
    FoundFreeEarlier(s, actions, t, key);
    assert actions[..e] == init;
    assert Flushes(s, actions, t, e) && KeyUsedAt(s, actions, e, key);
  }

  lemma {:induction false} FlushOnUsedKeyFails(s: System, actions: seq<Action>, t: CallId, e: nat)
    requires Inv(s) && Flushes(s, actions, t, e)
    requires KeyUsedAt(s, actions, e, Before(s, actions, e).calls[t].request.txn.key)
    ensures var now := Run(s, actions);
            t in now.calls && now.calls[t].phase == Finished(IntegrityFailure) && now.calls[t].request == Before(s, actions, e).calls[t].request
    decreases |actions|
  {
    hide KeyUsed, Inv, Advance, AtFlush;
    var init, last := actions[..|actions| - 1], actions[|actions| - 1];
    if e == |actions| - 1 {
      assert actions[..e] == init;
      FlushIsReady(Run(s, init), t);
      OneStatement(Run(s, init), t);
      StepKeepsCalls(Run(s, init), last, t);
    } else {
      BeforeShorter(s, actions, e);
      FlushOnUsedKeyFails(s, init, t, e);
      StepKeepsCalls(Run(s, init), last, t);
    }
  }

  lemma FlushIsReady(s: System, t: CallId)
    requires AtFlush(s, t)
    ensures Ready(s, t) && s.calls[t].request.PostRequest?
  {}

  // A post is answered with an integrity failure exactly when its lookup found
  // its key free and its flush, all its rows being granted, found it used.
  lemma RaceIsLostExactly(s: System, actions: seq<Action>, t: CallId)
    requires Inv(s) && t !in s.calls
    requires t in Run(s, actions).calls && Run(s, actions).calls[t].request.PostRequest?
    ensures var call := Run(s, actions).calls[t];
            call.phase == Finished(IntegrityFailure) <==> LostTheRace(s, actions, t, call.request.txn.key)
  {
    hide KeyUsed, Inv, Run, LookupFoundFree;
    var call := Run(s, actions).calls[t];
    if call.phase == Finished(IntegrityFailure) {
      FailureLostTheRace(s, actions, t);
    }
    if LostTheRace(s, actions, t, call.request.txn.key) {
      var e :| Flushes(s, actions, t, e) && KeyUsedAt(s, actions, e, call.request.txn.key);
      SameRequestThroughout(s, actions, t, e);
      FlushOnUsedKeyFails(s, actions, t, e);
    }
  }

  lemma {:induction false} SameRequestThroughout(s: System, actions: seq<Action>, t: CallId, e: nat)
    requires Inv(s) && e <= |actions| && t in Before(s, actions, e).calls
    ensures t in Run(s, actions).calls && Run(s, actions).calls[t].request == Before(s, actions, e).calls[t].request
    decreases |actions|
  {
    hide Inv, Apply;
    if e == |actions| {
      assert actions[..e] == actions;
    } else {
      var init := actions[..|actions| - 1];
      BeforeShorter(s, actions, e);
      SameRequestThroughout(s, init, t, e);
      StepKeepsCalls(Run(s, init), actions[|actions| - 1], t);
    }
  }

  lemma RunMore(s: System, actions: seq<Action>, a: Action)
    requires Inv(s)
    ensures Run(s, actions + [a]) == Apply(Run(s, actions), a)
  {
    assert (actions + [a])[..|actions|] == actions;
  }

  // Two posts without entries under one key, each in some phase.
  function TwoPosts(key: string, journal: seq<Transaction>, locks: map<string, CallId>, phase0: Phase, phase1: Phase): System {
    var post := PostRequest(Transaction(key, "", "", []));
    System(Tables(map[], journal), map[], locks, map[0 := Call(post, phase0), 1 := Call(post, phase1)])
  }

  lemma BothLookUp(key: string)
    ensures var start, one := TwoPosts(key, [], map[], Arrived, Arrived), TwoPosts(key, [], map[], Locking([]), Arrived);
            && Inv(start) && Apply(start, Step(0)) == one
            && Inv(one) && Apply(one, Step(1)) == TwoPosts(key, [], map[], Locking([]), Locking([]))
  {}

  lemma OneFlushes(key: string)
    ensures var middle := TwoPosts(key, [], map[], Locking([]), Locking([]));
            Inv(middle) && Apply(middle, Step(0)) == TwoPosts(key, [], map[key := 0], Writing([], 0), Locking([]))
  {
    assert Balances([]);
    hide Total;
  }

  lemma OneCommits(key: string)
    ensures var flushed := TwoPosts(key, [], map[key := 0], Writing([], 0), Locking([]));
            var txn := Transaction(key, "", "", []);
            Inv(flushed) && Apply(flushed, Step(0)) == TwoPosts(key, [txn], map[], Finished(Posted(0)), Locking([]))
  {
    OneFlushes(key);
    ApplyKeepsInv(TwoPosts(key, [], map[], Locking([]), Locking([])), Step(0));
    hide Total, EntryOutcome;
    assert Released(map[key := 0], 0) == map[];
  }

  lemma OtherFails(key: string)
    ensures var late := TwoPosts(key, [Transaction(key, "", "", [])], map[], Finished(Posted(0)), Locking([]));
            Inv(late) && 1 in Apply(late, Step(1)).calls && Apply(late, Step(1)).calls[1].phase == Finished(IntegrityFailure)
  {
    var late := TwoPosts(key, [Transaction(key, "", "", [])], map[], Finished(Posted(0)), Locking([]));
    assert late.tables.journal[0].key == key;
  }

  // It happens: two posts with one key look it up before either has committed.
  lemma RaceCanBeLost(key: string)
    ensures var post := PostRequest(Transaction(key, "", "", []));
            var actions := [] + [Arrive(0, post)] + [Arrive(1, post)] + [Step(0)] + [Step(1)] + [Step(0)] + [Step(0)] + [Step(1)];
            var now := Run(Idle(Tables(map[], [])), actions);
            && 1 in now.calls && now.calls[1] == Call(post, Finished(IntegrityFailure))
            && LostTheRace(Idle(Tables(map[], [])), actions, 1, key)
  {
    hide Inv, Run, Apply, LostTheRace;
    var post := PostRequest(Transaction(key, "", "", []));
    var s, a0 := Idle(Tables(map[], [])), [];
    var a1 := a0 + [Arrive(0, post)];
    var a2, a3 := a1 + [Arrive(1, post)], a1 + [Arrive(1, post)] + [Step(0)];
    var a4, a5 := a3 + [Step(1)], a3 + [Step(1)] + [Step(0)];
    var a6 := a5 + [Step(0)];
    BothArrive(post, key);
    BothLookUp(key);
    RunMore(s, a2, Step(0));
    RunMore(s, a3, Step(1));
    OneFlushes(key);
    RunMore(s, a4, Step(0));
    OneCommits(key);
    RunMore(s, a5, Step(0));
    OtherFails(key);
    RunMore(s, a6, Step(1));
    assert (a6 + [Step(1)])[..2] == a2;
    SameRequestThroughout(s, a6 + [Step(1)], 1, 2);
    RaceIsLostExactly(s, a6 + [Step(1)], 1);
  }

  lemma BothArrive(post: Request, key: string)
    requires post == PostRequest(Transaction(key, "", "", []))
    ensures Run(Idle(Tables(map[], [])), [] + [Arrive(0, post)] + [Arrive(1, post)]) == TwoPosts(key, [], map[], Arrived, Arrived)
  {
    var s := Idle(Tables(map[], []));
    RunMore(s, [], Arrive(0, post));
    RunMore(s, [] + [Arrive(0, post)], Arrive(1, post));
  }

  // While the call is unfinished, no other unfinished post has its key.
  predicate AloneWithKey(s: System, t: CallId) {
    InFlight(s, t) && s.calls[t].request.PostRequest? ==>
      forall u | u in s.calls && u != t && InFlight(s, u) && s.calls[u].request.PostRequest? ::
        s.calls[u].request.txn.key != s.calls[t].request.txn.key
  }

  ghost predicate AloneThroughout(s: System, actions: seq<Action>, t: CallId)
    requires Inv(s)
    decreases |actions|
  {
    AloneWithKey(Run(s, actions), t) && (actions != [] ==> AloneThroughout(s, actions[..|actions| - 1], t))
  }

  lemma TablesChangeByCommit(s: System, t: CallId)
    requires Inv(s) && Ready(s, t)
    ensures var s' := Apply(s, Step(t));
            || s'.tables == s.tables
            || (&& s.calls[t].request.PostRequest? && s'.tables.journal == s.tables.journal + [s.calls[t].request.txn]
                && Next(s, t).Finished?)
  {
    hide EntryOutcome, Written, KeyUsed, RepeatsPair, Balances;
    InvOfCall(s, t);
  }

  // A statement that commits a key is the last one of a call with that key.
  lemma OthersCommitTheirKeys(s: System, a: Action, key: string)
    requires Inv(s) && !KeyUsed(s.tables.journal, key) && KeyUsed(Apply(s, a).tables.journal, key)
    ensures a.Step? && Ready(s, a.id) && s.calls[a.id].request.PostRequest? && s.calls[a.id].request.txn.key == key
    ensures Next(s, a.id).Finished?
  {
    hide KeyUsed, Inv, Advance;
    if a.Step? && Ready(s, a.id) {
      TablesChangeByCommit(s, a.id);
      var txn := s.calls[a.id].request.txn;
      if txn.key != key { OtherKeyStaysUnused(s.tables.journal, txn, key); }
    }
  }

  lemma {:induction false} AloneKeyStaysFree(s: System, actions: seq<Action>, t: CallId)
    requires Inv(s) && t !in s.calls && AloneThroughout(s, actions, t)
    requires var now := Run(s, actions);
             t in now.calls && now.calls[t].request.PostRequest? && PastLookup(now.calls[t].phase)
    ensures !KeyUsed(Run(s, actions).tables.journal, Run(s, actions).calls[t].request.txn.key)
    decreases |actions|
  {
    hide KeyUsed, Inv, Advance;
    if actions != [] {
      var init, last := actions[..|actions| - 1], actions[|actions| - 1];
      var before, now := Run(s, init), Run(s, actions);
      var key := now.calls[t].request.txn.key;
      if t !in before.calls { NewCallArrives(before, last, t); }
      StepKeepsCalls(before, last, t);
      assert AloneWithKey(before, t);
      if PastLookup(before.calls[t].phase) {
        AloneKeyStaysFree(s, init, t);
      } else {
        OneStatement(before, t);
      }
      if KeyUsed(now.tables.journal, key) {
        OthersCommitTheirKeys(before, last, key);
        assert false;
      }
    }
  }

  // Without another post under its key in flight beside it, a call never loses a
  // race: whenever its last statement finds the key used, it is refused as a duplicate.
  lemma LoneKeyIsDuplicateExactly(s: System, actions: seq<Action>, t: CallId)
    requires Inv(s) && t !in s.calls && AloneThroughout(s, actions, t)
    requires var now := Run(s, actions); Ready(now, t) && now.calls[t].request.PostRequest? && Next(now, t).Finished?
    ensures var now := Run(s, actions);
            var key := now.calls[t].request.txn.key;
            && Next(now, t) != Finished(IntegrityFailure)
            && (KeyUsed(now.tables.journal, key) ==> Next(now, t) == Finished(Refused(DuplicateTransaction(key))))
  {
    hide KeyUsed, AloneThroughout, Run, Inv, Advance;
    var now := Run(s, actions);
    OneStatement(now, t);
    if PastLookup(now.calls[t].phase) {
      AloneKeyStaysFree(s, actions, t);
    }
  }

  // ------------------------------------------------------- freedom from deadlock

  // Each account, when first named, ranks above all accounts named before it.
  predicate InOrder(rank: string -> int, entries: seq<EntryRequest>) {
    forall i, j | 0 <= i < j < |entries| && (forall h | 0 <= h < j :: entries[h].account != entries[j].account) ::
      rank(entries[i].account) < rank(entries[j].account)
  }

  predicate AllInOrder(rank: string -> int, s: System) {
    forall t | t in s.calls :: InOrder(rank, s.calls[t].request.Entries())
  }

  predicate Waits(s: System, t: CallId) { t in s.calls && Blocker(s, t).Some? }

  predicate WaitsFor(s: System, t: CallId, u: CallId) { t in s.calls && Blocker(s, t) == Some(u) }

  predicate WaitsForRow(s: System, t: CallId) {
    Waits(s, t) && |s.calls[t].phase.results| < |s.calls[t].request.Entries()|
  }

  function Awaited(s: System, t: CallId): string
    requires WaitsForRow(s, t)
  {
    s.calls[t].request.Entries()[|s.calls[t].phase.results|].account
  }

  lemma WaitingRises(s: System, rank: string -> int, t: CallId, u: CallId)
    requires Inv(s) && AllInOrder(rank, s)
    requires WaitsFor(s, t, u)
    ensures InFlight(s, u)
    ensures Waits(s, u) ==> WaitsForRow(s, t)
    ensures WaitsForRow(s, t) && WaitsForRow(s, u) ==> rank(Awaited(s, t)) < rank(Awaited(s, u))
  {
    if WaitsForRow(s, t) {
      assert HoldsRow(s.calls[u], Awaited(s, t));
      if WaitsForRow(s, u) {
        assert CallSound(s, u);
        var entries, k := s.calls[u].request.Entries(), |s.calls[u].phase.results|;
        var i :| 0 <= i < k && entries[i].account == Awaited(s, t);
        forall h | 0 <= h < k ensures entries[h].account != entries[k].account {
          assert s.rowLocks[entries[h].account] == u;
        }
      }
    }
  }

  predicate WaitChain(s: System, c: seq<CallId>) {
    forall i | 0 <= i < |c| - 1 :: WaitsFor(s, c[i], c[i + 1])
  }

  lemma {:induction false} ChainRises(s: System, rank: string -> int, c: seq<CallId>)
    requires Inv(s) && AllInOrder(rank, s)
    requires |c| >= 2 && WaitChain(s, c) && WaitsForRow(s, c[|c| - 1])
    ensures WaitsForRow(s, c[0]) && rank(Awaited(s, c[0])) < rank(Awaited(s, c[|c| - 1]))
  {
    WaitingRises(s, rank, c[0], c[1]);
    if |c| > 2 {
      assert WaitsFor(s, c[1], c[2]);
      forall i | 0 <= i < |c[1..]| - 1 ensures WaitsFor(s, c[1..][i], c[1..][i + 1]) {
        assert WaitsFor(s, c[i + 1], c[i + 2]);
      }
      ChainRises(s, rank, c[1..]);
    }
  }

  // No chain of waits, on rows or on keys, comes back to where it started.
  lemma NoDeadlock(s: System, rank: string -> int, c: seq<CallId>)
    requires Inv(s) && AllInOrder(rank, s)
    requires |c| >= 2 && WaitChain(s, c)
    ensures c[0] != c[|c| - 1]
  {
    if c[0] == c[|c| - 1] {
      assert WaitsFor(s, c[0], c[1]);
      if |c| > 2 { assert WaitsFor(s, c[1], c[2]); }
      WaitingRises(s, rank, c[0], c[1]);
      ChainRises(s, rank, c);
    }
  }

  // Two posts that name two accounts the other way round, each in some phase.
  function Crossing(locks: map<string, CallId>, phase0: Phase, phase1: Phase): System {
    var opening := map["a" := Account(Asset, 0, true), "b" := Account(Asset, 0, true)];
    var there := PostRequest(Transaction("k", "", "", [EntryRequest("a", Debit, 5), EntryRequest("b", Credit, 5)]));
    var back := PostRequest(Transaction("l", "", "", [EntryRequest("b", Debit, 5), EntryRequest("a", Credit, 5)]));
    System(Tables(opening, []), locks, map[], map[0 := Call(there, phase0), 1 := Call(back, phase1)])
  }

  lemma CrossingBalances(x: string, y: string)
    ensures Balances([EntryRequest(x, Debit, 5), EntryRequest(y, Credit, 5)])
  {
    var e := [EntryRequest(x, Debit, 5), EntryRequest(y, Credit, 5)];
    assert Total(e, 0, Debit) == 0 && Total(e, 1, Debit) == 5 && Total(e, 2, Debit) == 5;
    assert Total(e, 0, Credit) == 0 && Total(e, 1, Credit) == 0 && Total(e, 2, Credit) == 5;
  }

  lemma CrossingLookUps()
    ensures var start, one := Crossing(map[], Arrived, Arrived), Crossing(map[], Locking([]), Arrived);
            && Inv(start) && Apply(start, Step(0)) == one
            && Inv(one) && Apply(one, Step(1)) == Crossing(map[], Locking([]), Locking([]))
  {
    CrossingBalances("a", "b");
    CrossingBalances("b", "a");
    hide Balances, LockRow, FlushKey, WriteEntry, EntryOutcome;
  }

  lemma CrossingLocksOne()
    ensures var middle := Crossing(map[], Locking([]), Locking([]));
            Inv(middle) && Apply(middle, Step(0)) == Crossing(map["a" := 0], Locking([5]), Locking([]))
  {
    CrossingBalances("a", "b");
    CrossingBalances("b", "a");
    hide Balances;
    assert [] + [5] == [5];
  }

  lemma CrossingLocksOther()
    ensures var held := Crossing(map["a" := 0], Locking([5]), Locking([]));
            Inv(held) && Apply(held, Step(1)) == Crossing(map["a" := 0, "b" := 1], Locking([5]), Locking([5]))
  {
    var held := Crossing(map["a" := 0], Locking([5]), Locking([]));
    assert Inv(held) by {
      CrossingLocksOne();
      ApplyKeepsInv(Crossing(map[], Locking([]), Locking([])), Step(0));
    }
    hide Inv, Balances, KeyUsed, RepeatsPair;
    CallStays(held, 1);
    var e := held.calls[1].request.Entries()[0];
    assert e == EntryRequest("b", Debit, 5) && e.account !in held.rowLocks && Ready(held, 1);
    assert Apply(held, Step(1)) == LockRow(held, 1, []);
    hide Apply, Advance, CallSound;
    assert [] + [5] == [5];
  }

  // Order is needed: two requests that name two accounts the other way round can
  // each come to hold what the other waits for.
  lemma OppositeOrdersDeadlock()
    ensures var start := Crossing(map[], Arrived, Arrived);
            && Inv(start)
            && WaitChain(Run(start, [] + [Step(0)] + [Step(1)] + [Step(0)] + [Step(1)]), [0, 1, 0])
            && start == Run(Idle(start.tables), [] + [Arrive(0, start.calls[0].request)] + [Arrive(1, start.calls[1].request)])
  {
    hide Inv, Run, Apply, Balances;
    var start := Crossing(map[], Arrived, Arrived);
    CrossingLookUps();
    CrossingLocksOne();
    CrossingLocksOther();
    RunMore(start, [], Step(0));
    RunMore(start, [] + [Step(0)], Step(1));
    RunMore(start, [] + [Step(0)] + [Step(1)], Step(0));
    RunMore(start, [] + [Step(0)] + [Step(1)] + [Step(0)], Step(1));
    assert Run(start, []) == start by { RunNothing(start); }
    CrossingWaits();
    CrossingArrives();
  }

  lemma RunNothing(s: System)
    requires Inv(s)
    ensures Run(s, []) == s
  {}

  lemma CrossingArrives()
    ensures var start := Crossing(map[], Arrived, Arrived);
            Run(Idle(start.tables), [] + [Arrive(0, start.calls[0].request)] + [Arrive(1, start.calls[1].request)]) == start
  {
    var start := Crossing(map[], Arrived, Arrived);
    var s := Idle(start.tables);
    RunMore(s, [], Arrive(0, start.calls[0].request));
    RunMore(s, [] + [Arrive(0, start.calls[0].request)], Arrive(1, start.calls[1].request));
  }

  lemma CrossingWaits()
    ensures WaitChain(Crossing(map["a" := 0, "b" := 1], Locking([5]), Locking([5])), [0, 1, 0])
  {
    var s := Crossing(map["a" := 0, "b" := 1], Locking([5]), Locking([5]));
    assert WaitsFor(s, 0, 1) && WaitsFor(s, 1, 0);
  }

  // ------------------------------------------------------------- all calls finish

  function Work(call: Call): nat {
    var n := |call.request.Entries()|;
    match call.phase
    case Arrived => 2 * n + 3
    case Locking(results) => if |results| <= n then 2 * n + 2 - |results| else n + 2
    case Writing(results, i) => if i <= n then n + 1 - i else 1
    case Finished(_) => 0
  }

  ghost function TotalWork(s: System): (w: int)
    ensures w >= 0
  {
    var works := map t | t in s.calls :: Work(s.calls[t]);
    SumNonNegative(works);
    Sum(works)
  }

  lemma WorkFalls(s: System, s': System, t: CallId, call: Call)
    requires t in s.calls && s'.calls == s.calls[t := call]
    requires Work(call) < Work(s.calls[t])
    ensures TotalWork(s') < TotalWork(s)
  {
    var m := map u | u in s.calls :: Work(s.calls[u]);
    SumUpdate(m, t, Work(call));
    assert (map u | u in s'.calls :: Work(s'.calls[u])) == m[t := Work(call)];
  }

  lemma AdvanceReducesWork(s: System, t: CallId) returns (call: Call)
    requires InFlight(s, t) && CallSound(s, t)
    ensures Advance(s, t).calls == s.calls[t := call] && call.request == s.calls[t].request
    ensures Work(call) < Work(s.calls[t])
  {
    var request := s.calls[t].request;
    call := Call(request, Advance(s, t).calls[t].phase);
    match s.calls[t].phase
    case Arrived => assert LookUpKey(s, t).calls == s.calls[t := call];
    case Locking(results) =>
      if |results| < |request.Entries()| {
        assert LockRow(s, t, results).calls == s.calls[t := call];
      } else {
        assert FlushKey(s, t, results).calls == s.calls[t := call];
      }
    case Writing(results, i) => assert WriteEntry(s, t, results, i).calls == s.calls[t := call];
  }

  lemma MoveReducesWork(s: System, action: Action)
    requires Inv(s) && !action.Arrive?
    ensures Apply(s, action) == s || TotalWork(Apply(s, action)) < TotalWork(s)
  {
    var t := action.id;
    if InFlight(s, t) {
      if action.Abort? {
        assert CallSound(s, t);
        WorkFalls(s, Apply(s, action), t, Call(s.calls[t].request, Finished(Aborted)));
      } else if Ready(s, t) {
        assert CallSound(s, t);
        var call := AdvanceReducesWork(s, t);
        WorkFalls(s, Advance(s, t), t, call);
      }
    }
  }

  // How many of the scheduled statements actually ran.
  function Moves(s: System, actions: seq<Action>): nat
    requires Inv(s)
    decreases |actions|
  {
    if actions == [] then 0
    else
      var before := Run(s, actions[..|actions| - 1]);
      Moves(s, actions[..|actions| - 1]) + if Apply(before, actions[|actions| - 1]) == before then 0 else 1
  }

  // However the calls are scheduled, only boundedly many statements run.
  lemma {:induction false} SchedulesAreBounded(s: System, actions: seq<Action>)
    requires Inv(s) && forall a | a in actions :: !a.Arrive?
    ensures Moves(s, actions) + TotalWork(Run(s, actions)) <= TotalWork(s)
    decreases |actions|
  {
    if actions != [] {
      var init := actions[..|actions| - 1];
      assert forall a | a in init :: a in actions;
      SchedulesAreBounded(s, init);
      assert actions[|actions| - 1] in actions;
      MoveReducesWork(Run(s, init), actions[|actions| - 1]);
    }
  }

  lemma FindRunnable(s: System, rank: string -> int, t: CallId, seen: set<CallId>) returns (r: CallId)
    requires Inv(s) && AllInOrder(rank, s) && WaitsForRow(s, t)
    requires forall x | x in seen :: WaitsForRow(s, x) && rank(Awaited(s, x)) < rank(Awaited(s, t))
    ensures Ready(s, r)
    decreases s.calls.Keys - seen
  {
    var u := Blocker(s, t).value;
    WaitingRises(s, rank, t, u);
    if Blocker(s, u).None? { return u; }
    var v := Blocker(s, u).value;
    WaitingRises(s, rank, u, v);
    if !WaitsForRow(s, u) { return v; }
    assert t in s.calls.Keys - seen;
    r := FindRunnable(s, rank, u, seen + {t});
  }

  // As long as a call is unfinished, some call is not waiting.
  lemma SomeCallCanMove(s: System, rank: string -> int, t: CallId) returns (r: CallId)
    requires Inv(s) && AllInOrder(rank, s) && InFlight(s, t)
    ensures Ready(s, r)
  {
    if Blocker(s, t).None? { return t; }
    var u := Blocker(s, t).value;
    WaitingRises(s, rank, t, u);
    if Blocker(s, u).None? { return u; }
    r := FindRunnable(s, rank, t, {});
  }

  predicate AllFinished(s: System) {
    forall t | t in s.calls :: s.calls[t].phase.Finished?
  }

  // A longer schedule in which only calls already present go on.
  predicate CarriesOn(longer: seq<Action>, actions: seq<Action>) {
    && |actions| <= |longer| && longer[..|actions|] == actions
    && forall i | |actions| <= i < |longer| :: longer[i].Step?
  }

  lemma CarriesOnTransitive(a: seq<Action>, b: seq<Action>, c: seq<Action>)
    requires CarriesOn(c, b) && CarriesOn(b, a)
    ensures CarriesOn(c, a)
  {
    assert c[..|a|] == c[..|b|][..|a|];
    forall i | |a| <= i < |c| ensures c[i].Step? {
      if i < |b| { assert c[i] == c[..|b|][i]; }
    }
  }

  lemma OneMoreMove(s: System, rank: string -> int, actions: seq<Action>) returns (longer: seq<Action>)
    requires Inv(s) && AllInOrder(rank, Run(s, actions)) && !AllFinished(Run(s, actions))
    ensures |longer| == |actions| + 1 && CarriesOn(longer, actions)
    ensures TotalWork(Run(s, longer)) < TotalWork(Run(s, actions))
    ensures Run(s, longer).calls.Keys == Run(s, actions).calls.Keys && AllInOrder(rank, Run(s, longer))
  {
    var now := Run(s, actions);
    var t :| t in now.calls && !now.calls[t].phase.Finished?;
    var r := SomeCallCanMove(now, rank, t);
    longer := actions + [Step(r)];
    assert longer[..|actions|] == actions;
    assert CallSound(now, r);
    var call := AdvanceReducesWork(now, r);
    WorkFalls(now, Run(s, longer), r, call);
  }

  // With every request in order, any interleaving can be carried on until all its calls have finished.
  lemma {:induction false} AllCallsFinish(s: System, rank: string -> int, actions: seq<Action>) returns (schedule: seq<Action>)
    requires Inv(s) && AllInOrder(rank, Run(s, actions))
    ensures CarriesOn(schedule, actions) && |schedule| <= |actions| + TotalWork(Run(s, actions))
    ensures Run(s, schedule).calls.Keys == Run(s, actions).calls.Keys && AllFinished(Run(s, schedule))
    decreases TotalWork(Run(s, actions))
  {
    if AllFinished(Run(s, actions)) {
      schedule := actions;
    } else {
      var longer := OneMoreMove(s, rank, actions);
      schedule := AllCallsFinish(s, rank, longer);
      CarriesOnTransitive(actions, longer, schedule);
    }
  }
}
