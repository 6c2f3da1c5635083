/**
 Histories of the audit log in terms of the clock alone, and what verification says
 of each single tampering, reason by reason.
 */
module AuditHistories {
  import opened Common
  import opened CanonicalJson
  import opened AuditChain
  import I = AuditInterleaving
  import W = Watchdog

  // ----------------------------------------------------------- object keys and clocks

  predicate Begins(text: string, start: string) { |start| <= |text| && text[..|start|] == start }

  // An object key begins with the timestamp of its entry, whatever else it holds.
  lemma KeyBeginsWithTime(H: Hash, id: int, ev: Event, prevHash: string)
    ensures var r := NewRow(H, id, ev, prevHash);
            r.timestamp == ev.timestamp && Begins(r.objectKey, ev.timestamp)
  {
    hide HashedText, FullText;
  }

  // Two entries written at different times, written out at one length, have
  // different object keys.
  lemma KeysDiffer(H: Hash, id: int, ev: Event, prevHash: string, id': int, ev': Event, prevHash': string)
    requires |ev.timestamp| == |ev'.timestamp| && ev.timestamp != ev'.timestamp
    ensures NewRow(H, id, ev, prevHash).objectKey != NewRow(H, id', ev', prevHash').objectKey
  {
    KeyBeginsWithTime(H, id, ev, prevHash);
    KeyBeginsWithTime(H, id', ev', prevHash');
    hide NewRow;
  }

  // ------------------------------------------------------------------- serial appends

  predicate TimesDiffer(events: seq<Event>) {
    forall i, j | 0 <= i < j < |events| ::
      |events[i].timestamp| == |events[j].timestamp| && events[i].timestamp != events[j].timestamp
  }

  predicate Carries(r: Row, ev: Event) {
    && r.eventType == ev.eventType && r.source == ev.source && r.payload == ev.payload && r.timestamp == ev.timestamp
    && Begins(r.objectKey, ev.timestamp)
  }

  predicate CarriesAll(rows: seq<Row>, events: seq<Event>) {
    |rows| == |events| && forall i | 0 <= i < |rows| :: Carries(rows[i], events[i])
  }

  const Empty: Log := Log([], map[], 1)

  // The next entry and an earlier one, with different texts, have one hash.
  predicate Collides(H: Hash, log: Log, ev: Event) {
    exists i | 0 <= i < |log.rows| :: CollisionAt(H, log.rows[i], NewRow(H, log.nextId, ev, TailHash(H, log.rows)))
  }

  // Event n does, after the events before it.
  predicate CollidesAt(H: Hash, events: seq<Event>, n: nat)
    requires n < |events|
  {
    Collides(H, AppendAll(H, Empty, events[..n]), events[n])
  }

  lemma RefusedCollides(H: Hash, log: Log, r: Row)
    requires Honest(H, log) && HashMatches(H, r) && IsDict(r.payload) && HashUsed(log.rows, r.entryHash)
    requires forall i | 0 <= i < |log.rows| :: log.rows[i].timestamp != r.timestamp
    ensures exists i | 0 <= i < |log.rows| :: CollisionAt(H, log.rows[i], r)
  {
    hide HashedText, FullText;
    var i :| 0 <= i < |log.rows| && log.rows[i].entryHash == r.entryHash;
    assert LinkedAt(H, log.rows, i);
    TextsIdentify(log.rows[i], r);
    assert CollisionAt(H, log.rows[i], r);
  }

  // What one append does to an honest log when its time is new.
  lemma OneMoreEvent(H: Hash, log: Log, events: seq<Event>, ev: Event)
    requires Honest(H, log) && CarriesAll(log.rows, events) && TimesDiffer(events + [ev]) && IsDict(ev.payload)
    ensures var log' := Appended(H, log, ev);
            || (Honest(H, log') && CarriesAll(log'.rows, events + [ev]))
            || Collides(H, log, ev)
  {
    hide HashedText, FullText, TailHash;
    var all, log' := events + [ev], Appended(H, log, ev);
    var r := NewRow(H, log.nextId, ev, TailHash(H, log.rows));
    KeyBeginsWithTime(H, log.nextId, ev, TailHash(H, log.rows));
    assert Carries(r, ev);
    forall i | 0 <= i < |log.rows|
      ensures log.rows[i].timestamp != r.timestamp && log.rows[i].objectKey != r.objectKey
    {
      assert Carries(log.rows[i], events[i]);
      assert all[i] == events[i] && all[|events|] == ev;
    }
    if HashUsed(log.rows, r.entryHash) {
      RefusedCollides(H, log, r);
    } else {
      assert log'.rows == log.rows + [r];
      hide Honest, Carries;
      assert DistinctKeys(log.rows) by { HonestHasKeys(H, log); }
      AppendStaysHonest(H, log, ev);
    }
  }

  lemma HonestHasKeys(H: Hash, log: Log)
    requires Honest(H, log)
    ensures DistinctKeys(log.rows)
  {}

  lemma EarlierCollision(H: Hash, events: seq<Event>, n: nat)
    requires n + 1 < |events| && CollidesAt(H, events[..|events| - 1], n)
    ensures CollidesAt(H, events, n)
  {
    hide Collides, AppendAll;
    assert events[..|events| - 1][..n] == events[..n];
  }

  lemma {:induction false} SerialAppendsAreHonest(H: Hash, events: seq<Event>)
    requires TimesDiffer(events) && forall i | 0 <= i < |events| :: IsDict(events[i].payload)
    ensures HonestSoFar(H, events) || exists n | 0 <= n < |events| :: CollidesAt(H, events, n)
    decreases |events|
  {
    hide CollidesAt, HonestSoFar, IsDict;
    if events == [] {
      EmptyIsHonest(H);
    } else {
      var init := events[..|events| - 1];
      SerialAppendsAreHonest(H, init);
      if HonestSoFar(H, init) {
        LastAppend(H, events);
      } else {
        var n :| 0 <= n < |init| && CollidesAt(H, init, n);
        EarlierCollision(H, events, n);
      }
    }
  }

  predicate HonestSoFar(H: Hash, events: seq<Event>) {
    Honest(H, AppendAll(H, Empty, events)) && CarriesAll(AppendAll(H, Empty, events).rows, events)
  }

  lemma LastAppend(H: Hash, events: seq<Event>)
    requires events != [] && TimesDiffer(events) && IsDict(events[|events| - 1].payload)
    requires HonestSoFar(H, events[..|events| - 1])
    ensures HonestSoFar(H, events) || CollidesAt(H, events, |events| - 1)
  {
    var n := |events| - 1;
    var init := events[..n];
    assert events == init + [events[n]];
    hide Honest, CarriesAll, Collides, Appended, TimesDiffer, IsDict;
    OneMoreEvent(H, AppendAll(H, Empty, init), init, events[n]);
  }

  lemma EmptyIsHonest(H: Hash)
    ensures HonestSoFar(H, [])
  {}

  // Events appended one after the other, each at its own time, all get through, in
  // order, and verify clean; or two different entries with one hash are exhibited.
  lemma SerialAppendsAreClean(H: Hash, events: seq<Event>)
    requires TimesDiffer(events) && forall i | 0 <= i < |events| :: IsDict(events[i].payload)
    ensures var log := AppendAll(H, Empty, events);
            || (CarriesAll(log.rows, events) && Verified(H, log) == [])
            || exists n | 0 <= n < |events| :: CollidesAt(H, events, n)
  {
    hide HashedText, FullText;
    SerialAppendsAreHonest(H, events);
    var log := AppendAll(H, Empty, events);
    if Honest(H, log) {
      HonestIsClean(H, log);
    }
  }

  lemma HonestIsClean(H: Hash, log: Log)
    requires Honest(H, log)
    ensures Verified(H, log) == []
  {
    hide HashedText, FullText;
    PrefixIsClean(H, log, log.rows);
    NoBreaks(H, log.rows, log.store, |log.rows|);
  }

  // -------------------------------------------------------------- interleaved appends

  // Every tail read is at its own time, all written out at length n.
  predicate ReadsDiffer(actions: seq<I.Action>, n: nat) {
    && (forall i | 0 <= i < |actions| && actions[i].ReadTail? :: |actions[i].ev.timestamp| == n)
    && (forall i, j | 0 <= i < j < |actions| && actions[i].ReadTail? && actions[j].ReadTail? ::
          actions[i].ev.timestamp != actions[j].ev.timestamp)
  }

  function ReadTimes(actions: seq<I.Action>): set<string> {
    set i | 0 <= i < |actions| && actions[i].ReadTail? :: actions[i].ev.timestamp
  }

  predicate KeyOfTime(key: string, times: set<string>, n: nat) { n <= |key| && key[..n] in times }

  predicate PendingOfTime(p: I.Pending, times: set<string>, n: nat) {
    |p.row.timestamp| == n && p.row.timestamp in times && Begins(p.row.objectKey, p.row.timestamp)
  }

  // Keys put so far and entries still to be put are all of different times.
  predicate TimesInv(s: I.System, times: set<string>, n: nat) {
    && (forall i | 0 <= i < |s.keys| :: KeyOfTime(s.keys[i], times, n))
    && (forall i, j | 0 <= i < j < |s.keys| :: s.keys[i][..n] != s.keys[j][..n])
    && (forall c | c in s.pending :: PendingOfTime(s.pending[c], times, n))
    && (forall c, d | c in s.pending && d in s.pending && c != d :: s.pending[c].row.timestamp != s.pending[d].row.timestamp)
    && (forall c, i | c in s.pending && !s.pending[c].put && 0 <= i < |s.keys| :: s.keys[i][..n] != s.pending[c].row.timestamp)
  }

  lemma ReadKeepsTimes(H: Hash, s: I.System, a: I.Action, times: set<string>, n: nat)
    requires TimesInv(s, times, n) && a.ReadTail? && |a.ev.timestamp| == n && a.ev.timestamp !in times
    ensures TimesInv(I.Apply(H, s, a), times + {a.ev.timestamp}, n)
  {
    hide HashedText, FullText, NewRow, TailHash;
    KeyBeginsWithTime(H, 0, a.ev, TailHash(H, s.log.rows));
    hide Begins;
    assert forall i | 0 <= i < |s.keys| :: KeyOfTime(s.keys[i], times, n);
  }

  lemma PutKeepsTimes(H: Hash, s: I.System, a: I.Action, times: set<string>, n: nat)
    requires TimesInv(s, times, n) && a.PutObject?
    ensures TimesInv(I.Apply(H, s, a), times, n)
  {
    hide HashedText, FullText, Begins;
    var s' := I.Apply(H, s, a);
    if s' != s {
      var key := s.pending[a.call].row.objectKey;
      assert PendingOfTime(s.pending[a.call], times, n);
      assert s'.keys == s.keys + [key];
      assert KeyOfTime(key, times, n) && key[..n] == s.pending[a.call].row.timestamp by { TimeOfKey(s.pending[a.call], times, n); }
    }
  }

  lemma TimeOfKey(p: I.Pending, times: set<string>, n: nat)
    requires PendingOfTime(p, times, n)
    ensures KeyOfTime(p.row.objectKey, times, n) && p.row.objectKey[..n] == p.row.timestamp
  {}

  lemma LeavingKeepsTimes(H: Hash, s: I.System, a: I.Action, times: set<string>, n: nat)
    requires TimesInv(s, times, n) && !a.ReadTail? && !a.PutObject?
    ensures TimesInv(I.Apply(H, s, a), times, n)
  {
    hide HashedText, FullText, KeyOfTime, PendingOfTime;
  }

  lemma ReadTimesStep(actions: seq<I.Action>)
    requires actions != []
    ensures var (init, last) := (actions[..|actions| - 1], actions[|actions| - 1]);
            ReadTimes(actions) == ReadTimes(init) + if last.ReadTail? then {last.ev.timestamp} else {}
  {
    var init := actions[..|actions| - 1];
    assert forall i | 0 <= i < |init| :: init[i] == actions[i];
  }

  lemma {:induction false} TimesStayApart(H: Hash, actions: seq<I.Action>, n: nat)
    requires ReadsDiffer(actions, n)
    ensures TimesInv(I.Run(H, actions), ReadTimes(actions), n)
    decreases |actions|
  {
    hide TimesInv, I.Apply;
    if actions == [] {
      NoTimes(H, n);
    } else {
      var init, last := actions[..|actions| - 1], actions[|actions| - 1];
      assert forall i | 0 <= i < |init| :: init[i] == actions[i];
      TimesStayApart(H, init, n);
      ReadTimesStep(actions);
      var s := I.Run(H, init);
      match last {
        case ReadTail(_, ev) =>
          assert ev.timestamp !in ReadTimes(init);
          ReadKeepsTimes(H, s, last, ReadTimes(init), n);
        case PutObject(_) =>
          assert ReadTimes(actions) == ReadTimes(init);
          PutKeepsTimes(H, s, last, ReadTimes(init), n);
        case _ =>
          assert ReadTimes(actions) == ReadTimes(init);
          LeavingKeepsTimes(H, s, last, ReadTimes(init), n);
      }
    }
  }

  lemma NoTimes(H: Hash, n: nat)
    ensures TimesInv(I.Run(H, []), ReadTimes([]), n)
  {
    assert ReadTimes([]) == {};
    assert I.Run(H, []) == I.System(Log([], map[], 1), [], map[], []);
  }

  // In every interleaving of appends that read the tail at different times, with no
  // tampering, exactly the rows behind a stale tail are reported, as broken links,
  // and the chain is clean exactly when every append was serial.
  lemma StaleAppendsAreReportedByTime(H: Hash, actions: seq<I.Action>, n: nat)
    requires ReadsDiffer(actions, n) && !GenesisHash(H, I.Run(H, actions).log.rows)
    ensures var s := I.Run(H, actions);
            && |s.seen| == |s.log.rows|
            && (forall i | 0 <= i < |s.log.rows| ::
                  ReasonAt(H, s.log.rows, s.log.store, i) == if s.seen[i] == i then None else Some(LinkMismatch))
            && (Clean(H, s.log.rows, s.log.store) <==> forall i | 0 <= i < |s.log.rows| :: s.seen[i] == i)
  {
    TimesStayApart(H, actions, n);
    KeysAreDistinct(I.Run(H, actions), ReadTimes(actions), n);
    hide I.Run, TimesInv, ReasonAt, Clean;
    I.StaleAppendsAreReported(H, actions);
  }

  lemma KeysAreDistinct(s: I.System, times: set<string>, n: nat)
    requires TimesInv(s, times, n)
    ensures I.Distinct(s.keys)
  {
    forall i, j | 0 <= i < j < |s.keys| ensures s.keys[i] != s.keys[j] {
      assert KeyOfTime(s.keys[i], times, n) && s.keys[i][..n] != s.keys[j][..n];
    }
  }

  // --------------------------------------------------------- appends to any log at all

  // No row's object key begins with the time of any of the events.
  predicate TimesUnused(rows: seq<Row>, events: seq<Event>) {
    forall i, k | 0 <= i < |rows| && 0 <= k < |events| :: !Begins(rows[i].objectKey, events[k].timestamp)
  }

  predicate OfSomeEvent(key: string, events: seq<Event>) {
    exists k | 0 <= k < |events| :: Begins(key, events[k].timestamp)
  }

  // Rows that appends add are keyed by the times of their events.
  lemma {:induction false} AddedRowsHaveTimes(H: Hash, log: Log, events: seq<Event>, i: nat)
    requires |log.rows| <= i < |AppendAll(H, log, events).rows|
    ensures OfSomeEvent(AppendAll(H, log, events).rows[i].objectKey, events)
    decreases |events|
  {
    hide HashedText, FullText, NewRow, Begins;
    var n := |events| - 1;
    var before := AppendAll(H, log, events[..n]);
    if i < |before.rows| {
      AddedRowsHaveTimes(H, log, events[..n], i);
      var k :| 0 <= k < n && Begins(before.rows[i].objectKey, events[..n][k].timestamp);
      assert events[..n][k] == events[k];
    } else {
      KeyBeginsWithTime(H, before.nextId, events[n], TailHash(H, before.rows));
    }
  }

  lemma BeginsOnce(key: string, a: string, b: string)
    requires Begins(key, a) && Begins(key, b) && |a| == |b|
    ensures a == b
  {}

  // Appends at new times take new object keys, whatever log they find.
  lemma {:induction false} NewTimesNewKeys(H: Hash, log: Log, events: seq<Event>)
    requires TimesDiffer(events) && TimesUnused(log.rows, events)
    ensures W.KeysFresh(H, log, events)
    decreases |events|
  {
    hide HashedText, FullText, NewRow, Begins, AppendAll;
    if events != [] {
      var n := |events| - 1;
      var init, ev := events[..n], events[n];
      var before := AppendAll(H, log, init);
      NewTimesNewKeys(H, log, init);
      W.AppendAllGrows(H, log, init);
      var r := NewRow(H, before.nextId, ev, TailHash(H, before.rows));
      KeyBeginsWithTime(H, before.nextId, ev, TailHash(H, before.rows));
      forall i | 0 <= i < |before.rows| ensures before.rows[i].objectKey != r.objectKey {
        if i < |log.rows| {
          assert before.rows[i] == log.rows[i] && !Begins(log.rows[i].objectKey, ev.timestamp);
        } else {
          AddedRowsHaveTimes(H, log, init, i);
          var k :| 0 <= k < n && Begins(before.rows[i].objectKey, init[k].timestamp);
          assert init[k] == events[k];
          if before.rows[i].objectKey == r.objectKey { BeginsOnce(r.objectKey, init[k].timestamp, ev.timestamp); }
        }
      }
    }
  }

  // Serial appends at new times, even to a broken chain, change no verdict and are
  // clean themselves.
  lemma AppendsAtNewTimesKeepBreaks(H: Hash, log: Log, events: seq<Event>)
    requires TimesDiffer(events) && TimesUnused(log.rows, events)
    ensures Verified(H, AppendAll(H, log, events)) == Verified(H, log)
  {
    NewTimesNewKeys(H, log, events);
    W.AppendsKeepBreaks(H, log, events);
  }

  // After a tick, with nothing done to the log but serial appends at new times, its
  // own and others', the next tick appends nothing and changes nothing.
  lemma QuietTickByTime(H: Hash, w: W.Watched, r: W.Report, w': W.Watched, others: seq<Event>, r': W.Report, w'': W.Watched)
    requires W.Tick(H, w, r, w')
    requires TimesDiffer(W.Events(r)) && TimesUnused(w.log.rows, W.Events(r))
    requires TimesDiffer(others) && TimesUnused(w'.log.rows, others)
    requires W.Tick(H, w'.(log := AppendAll(H, w'.log, others)), r', w'')
    ensures W.Events(r') == [] && w'' == w'.(log := AppendAll(H, w'.log, others))
  {
    NewTimesNewKeys(H, w.log, W.Events(r));
    NewTimesNewKeys(H, w'.log, others);
    hide W.Tick, W.KeysFresh, W.Events, TimesDiffer, TimesUnused, AppendAll;
    W.QuietTick(H, w, r, w', others, r', w'');
  }

  // -------------------------------------------------------- reasons, tamper by tamper

  lemma {:induction false} NoBreaks(H: Hash, rows: seq<Row>, store: map<string, string>, n: nat)
    requires n <= |rows| && forall j | 0 <= j < n :: ReasonAt(H, rows, store, j).None?
    ensures Breaks(H, rows, store, n) == []
  {
    hide ReasonAt;
    if n > 0 { NoBreaks(H, rows, store, n - 1); }
  }

  lemma {:induction false} OneBreak(H: Hash, rows: seq<Row>, store: map<string, string>, n: nat, i: nat, reason: Reason)
    requires i < n <= |rows| && ReasonAt(H, rows, store, i) == Some(reason)
    requires forall j | 0 <= j < n && j != i :: ReasonAt(H, rows, store, j).None?
    ensures Breaks(H, rows, store, n) == [Break(rows[i].id, reason)]
  {
    hide ReasonAt;
    if n == i + 1 { NoBreaks(H, rows, store, i); } else { OneBreak(H, rows, store, n - 1, i, reason); }
  }

  lemma {:induction false} TwoBreaks(H: Hash, rows: seq<Row>, store: map<string, string>, n: nat, i: nat, reason: Reason, next: Reason)
    requires i + 1 < n <= |rows| && ReasonAt(H, rows, store, i) == Some(reason) && ReasonAt(H, rows, store, i + 1) == Some(next)
    requires forall j | 0 <= j < n && j != i && j != i + 1 :: ReasonAt(H, rows, store, j).None?
    ensures Breaks(H, rows, store, n) == [Break(rows[i].id, reason), Break(rows[i + 1].id, next)]
  {
    hide ReasonAt;
    if n == i + 2 { OneBreak(H, rows, store, i + 1, i, reason); } else { TwoBreaks(H, rows, store, n - 1, i, reason, next); }
  }

  // Taking away the object of one row is reported as that, and nothing else is.
  lemma ObjectTakenAway(H: Hash, log: Log, i: nat)
    requires Honest(H, log) && i < |log.rows|
    ensures Breaks(H, log.rows, log.store - {log.rows[i].objectKey}, |log.rows|) == [Break(log.rows[i].id, ObjectGone)]
  {
    hide HashedText, FullText;
    var store := log.store - {log.rows[i].objectKey};
    forall j | 0 <= j < |log.rows| && j != i ensures ReasonAt(H, log.rows, store, j).None? {
      assert LinkedAt(H, log.rows, j) && log.rows[j].objectKey != log.rows[i].objectKey;
    }
    assert LinkedAt(H, log.rows, i);
    OneBreak(H, log.rows, store, |log.rows|, i, ObjectGone);
  }

  // Writing another text over the object of one row is reported as that.
  lemma ObjectOverwritten(H: Hash, log: Log, i: nat, text: string)
    requires Honest(H, log) && i < |log.rows| && text != FullText(log.rows[i])
    ensures Breaks(H, log.rows, log.store[log.rows[i].objectKey := text], |log.rows|) == [Break(log.rows[i].id, ObjectChanged)]
  {
    hide HashedText, FullText;
    var store := log.store[log.rows[i].objectKey := text];
    forall j | 0 <= j < |log.rows| && j != i ensures ReasonAt(H, log.rows, store, j).None? {
      assert LinkedAt(H, log.rows, j) && log.rows[j].objectKey != log.rows[i].objectKey;
    }
    assert LinkedAt(H, log.rows, i);
    OneBreak(H, log.rows, store, |log.rows|, i, ObjectChanged);
  }

  // An edit that leaves the hash alone is a mismatch of the hash.
  lemma EditIsHashMismatch(H: Hash, log: Log, i: nat, r: Row)
    requires Honest(H, log) && i < |log.rows| && IsDict(r.payload)
    requires r.id == log.rows[i].id && r.entryHash == log.rows[i].entryHash && !SameColumns(r, log.rows[i])
    ensures Breaks(H, log.rows[i := r], log.store, |log.rows|) == [Break(r.id, HashMismatch)] || CollisionAt(H, r, log.rows[i])
  {
    hide HashedText, FullText;
    var rows' := log.rows[i := r];
    EditedVerdict(H, log, i, r);
    if !CollisionAt(H, r, log.rows[i]) {
      forall j | 0 <= j < |rows'| && j != i ensures ReasonAt(H, rows', log.store, j).None? {
        SameVerdict(H, log, j, rows', j);
      }
      OneBreak(H, rows', log.store, |rows'|, i, HashMismatch);
    }
  }

  // The verdict on an edited row that was hashed again.
  lemma RehashedVerdict(H: Hash, log: Log, i: nat, r: Row)
    requires Honest(H, log) && i < |log.rows| && IsDict(r.payload)
    requires r.objectKey == log.rows[i].objectKey && HashMatches(H, r) && !SameColumns(r, log.rows[i])
    ensures ReasonAt(H, log.rows[i := r], log.store, i) ==
            Some(if r.prevHash != log.rows[i].prevHash then LinkMismatch else ObjectChanged)
  {
    TextsIdentify(r, log.rows[i]);
    assert LinkedAt(H, log.rows, i);
    hide HashedText, FullText;
    assert ExpectedPrev(H, log.rows[i := r], i) == ExpectedPrev(H, log.rows, i);
  }

  // An edit that is hashed again shows in the stored copy, or as a broken link if
  // the previous hash was edited too, and then as a broken link of the next row.
  lemma RehashedEditShowsTwice(H: Hash, log: Log, i: nat, r: Row)
    requires Honest(H, log) && i + 1 < |log.rows| && IsDict(r.payload)
    requires r.id == log.rows[i].id && r.objectKey == log.rows[i].objectKey
    requires HashMatches(H, r) && !SameColumns(r, log.rows[i])
    ensures || Breaks(H, log.rows[i := r], log.store, |log.rows|) ==
               [Break(r.id, if r.prevHash != log.rows[i].prevHash then LinkMismatch else ObjectChanged),
                Break(log.rows[i + 1].id, LinkMismatch)]
            || CollisionAt(H, r, log.rows[i])
  {
    hide HashedText, FullText;
    var rows' := log.rows[i := r];
    RehashedVerdict(H, log, i, r);
    if !CollisionAt(H, r, log.rows[i]) {
      EditedVerdict(H, log, i, r);
      NextVerdict(H, log, i, r);
      assert r.entryHash != log.rows[i].entryHash;
      forall j | 0 <= j < |rows'| && j != i && j != i + 1 ensures ReasonAt(H, rows', log.store, j).None? {
        EditSparesOthers(H, log, i, r, j);
      }
      hide ReasonAt;
      TwoBreaks(H, rows', log.store, |rows'|, i,
                if r.prevHash != log.rows[i].prevHash then LinkMismatch else ObjectChanged, LinkMismatch);
    }
  }

  // A row taken out is a broken link of the next one.
  lemma DeletionIsLinkMismatch(H: Hash, log: Log, i: nat)
    requires Honest(H, log) && i + 1 < |log.rows| && !GenesisHash(H, log.rows)
    ensures var rows' := log.rows[..i] + log.rows[i + 1..];
            Breaks(H, rows', log.store, |rows'|) == [Break(log.rows[i + 1].id, LinkMismatch)]
  {
    hide HashedText, FullText;
    var rows, rows' := log.rows, log.rows[..i] + log.rows[i + 1..];
    assert ReasonAt(H, rows', log.store, i) == Some(LinkMismatch) by {
      assert LinkedAt(H, rows, i + 1);
      assert rows'[i] == rows[i + 1] && ExpectedPrev(H, rows', i) == ExpectedPrev(H, rows, i);
    }
    hide ReasonAt, Honest;
    forall j | 0 <= j < |rows'| && j != i ensures ReasonAt(H, rows', log.store, j).None? {
      DeletionSparesOthers(H, log, i, j);
    }
    OneBreak(H, rows', log.store, |rows'|, i, LinkMismatch);
  }
}
