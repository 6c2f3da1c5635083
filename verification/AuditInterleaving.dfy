/**
 Appends that are not serialized: reading the tail, putting the object and
 inserting the row are separate steps, and the steps of many appends interleave.
 */
module AuditInterleaving {
  import opened Common
  import opened CanonicalJson
  import opened AuditChain

  type CallId = nat

  // An append that has read the tail, when the table had `seen` rows.
  datatype Pending = Pending(row: Row, seen: nat, put: bool)

  // `seen` records for each row how many rows its append had seen; `keys` every object key put so far.
  datatype System = System(log: Log, seen: seq<nat>, pending: map<CallId, Pending>, keys: seq<string>)

  datatype Action = ReadTail(call: CallId, ev: Event) | PutObject(call: CallId) | InsertRow(call: CallId) | Crash(call: CallId)

  function Apply(H: Hash, s: System, action: Action): System {
    var c := action.call;
    match action
    case ReadTail(_, ev) =>
      if c in s.pending then s
      else s.(pending := s.pending[c := Pending(NewRow(H, 0, ev, TailHash(H, s.log.rows)), |s.log.rows|, false)])
    case PutObject(_) =>
      if c !in s.pending || s.pending[c].put then s
      else
        var p := s.pending[c];
        s.(log := s.log.(store := s.log.store[p.row.objectKey := FullText(p.row)]),
           pending := s.pending[c := p.(put := true)],
           keys := s.keys + [p.row.objectKey])
    case InsertRow(_) =>
      if c !in s.pending || !s.pending[c].put then s
      else
        var p := s.pending[c];
        s.(log := Inserted(s.log, p.row.(id := s.log.nextId)),
           seen := if HashUsed(s.log.rows, p.row.entryHash) then s.seen else s.seen + [p.seen],
           pending := s.pending - {c})
    case Crash(_) => s.(pending := s.pending - {c})
  }

  function Run(H: Hash, actions: seq<Action>): System {
    if actions == [] then System(Log([], map[], 1), [], map[], [])
    else Apply(H, Run(H, actions[..|actions| - 1]), actions[|actions| - 1])
  }

  predicate Distinct(keys: seq<string>) {
    forall i, j | 0 <= i < j < |keys| :: keys[i] != keys[j]
  }

  predicate Stored(s: System, r: Row) {
    r.objectKey in s.keys && r.objectKey in s.log.store && s.log.store[r.objectKey] == FullText(r)
  }

  // A row is chained to the hash that was last when its append read the tail.
  predicate Chained(H: Hash, s: System, r: Row, seen: nat) {
    HashMatches(H, r) && seen <= |s.log.rows| && r.prevHash == ExpectedPrev(H, s.log.rows, seen)
  }

  predicate RowSound(H: Hash, s: System, i: nat)
    requires i < |s.log.rows| == |s.seen|
  {
    Chained(H, s, s.log.rows[i], s.seen[i]) && s.seen[i] <= i && Stored(s, s.log.rows[i])
  }

  predicate Inv(H: Hash, s: System) {
    && |s.seen| == |s.log.rows| && DistinctHashes(s.log.rows)
    && (forall i | 0 <= i < |s.log.rows| :: RowSound(H, s, i))
    && (forall c | c in s.pending ::
          Chained(H, s, s.pending[c].row, s.pending[c].seen) && (s.pending[c].put ==> Stored(s, s.pending[c].row)))
  }

  // Neither text depends on the id.
  lemma TextsIgnoreId(H: Hash, r: Row, id: int)
    ensures FullText(r.(id := id)) == FullText(r)
    ensures HashMatches(H, r.(id := id)) == HashMatches(H, r)
  {
    assert EntryFields(r.(id := id)) == EntryFields(r);
  }

  lemma PutKeepsInv(H: Hash, s: System, c: CallId)
    requires Inv(H, s) && Distinct(Apply(H, s, PutObject(c)).keys)
    ensures Inv(H, Apply(H, s, PutObject(c)))
  {
    hide HashedText, FullText;
    var s' := Apply(H, s, PutObject(c));
    if s' != s {
      var k := s.pending[c].row.objectKey;
      assert forall i | 0 <= i < |s.keys| :: s'.keys[i] == s.keys[i] && s'.keys[i] != s'.keys[|s.keys|];
      assert forall r: Row :: Stored(s, r) ==> Stored(s', r);
      forall i | 0 <= i < |s'.log.rows| ensures RowSound(H, s', i) {
        assert RowSound(H, s, i);
      }
      assert s'.keys[|s.keys|] == k;
    }
  }

  lemma InsertKeepsInv(H: Hash, s: System, c: CallId)
    requires Inv(H, s)
    ensures Inv(H, Apply(H, s, InsertRow(c)))
  {
    hide HashedText, FullText;
    var s' := Apply(H, s, InsertRow(c));
    if c in s.pending && s.pending[c].put {
      var p, n := s.pending[c], |s.log.rows|;
      TextsIgnoreId(H, p.row, s.log.nextId);
      assert forall i | 0 <= i <= n :: ExpectedPrev(H, s'.log.rows, i) == ExpectedPrev(H, s.log.rows, i);
      forall i | 0 <= i < |s'.log.rows| ensures RowSound(H, s', i) {
        if i < n { assert RowSound(H, s, i); }
      }
    }
  }

  lemma ApplyKeepsInv(H: Hash, s: System, action: Action)
    requires Inv(H, s) && Distinct(Apply(H, s, action).keys)
    ensures Inv(H, Apply(H, s, action))
  {
    hide HashedText, FullText;
    var s' := Apply(H, s, action);
    match action
    case PutObject(c) => PutKeepsInv(H, s, c);
    case InsertRow(c) => InsertKeepsInv(H, s, c);
    case _ =>
      forall i | 0 <= i < |s'.log.rows| ensures RowSound(H, s', i) {
        assert RowSound(H, s, i);
      }
  }

  lemma {:induction false} RunInv(H: Hash, actions: seq<Action>)
    requires Distinct(Run(H, actions).keys)
    ensures Inv(H, Run(H, actions))
  {
    if actions != [] {
      var s, last := Run(H, actions[..|actions| - 1]), actions[|actions| - 1];
      assert forall i | 0 <= i < |s.keys| :: Apply(H, s, last).keys[i] == s.keys[i];
      RunInv(H, actions[..|actions| - 1]);
      ApplyKeepsInv(H, s, last);
    }
  }

  // With no tampering, verification reports exactly the rows whose append had a
  // stale tail when they were inserted, always as a broken link.
  lemma StaleAppendsAreReported(H: Hash, actions: seq<Action>)
    requires var s := Run(H, actions);
             Distinct(s.keys) && !GenesisHash(H, s.log.rows)
    ensures var s := Run(H, actions);
            && |s.seen| == |s.log.rows|
            && (forall i | 0 <= i < |s.log.rows| ::
                  ReasonAt(H, s.log.rows, s.log.store, i) == if s.seen[i] == i then None else Some(LinkMismatch))
            && (Clean(H, s.log.rows, s.log.store) <==> forall i | 0 <= i < |s.log.rows| :: s.seen[i] == i)
  {
    hide HashedText, FullText;
    var s := Run(H, actions);
    RunInv(H, actions);
    forall i | 0 <= i < |s.log.rows|
      ensures ReasonAt(H, s.log.rows, s.log.store, i) == if s.seen[i] == i then None else Some(LinkMismatch)
    {
      assert RowSound(H, s, i);
    }
    if Clean(H, s.log.rows, s.log.store) {
      forall i | 0 <= i < |s.log.rows| ensures s.seen[i] == i {
        assert ReasonAt(H, s.log.rows, s.log.store, i).None?;
      }
    }
  }
}
