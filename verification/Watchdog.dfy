/**
 The integrity watchdog: it verifies the audit chain on a schedule and writes
 what it finds, and what has recovered, into the chain it verifies.
 */
module Watchdog {
  import opened Common
  import opened CanonicalJson
  import opened AuditChain

  datatype Kind = Detected | Resolved
  datatype Finding = Finding(kind: Kind, id: int)

  function Tagged(kind: Kind, ids: seq<int>): seq<Finding> {
    seq(|ids|, i requires 0 <= i < |ids| => Finding(kind, ids[i]))
  }

  // The ids of a set, each once, in some order.
  ghost predicate Lists(order: seq<int>, ids: set<int>) {
    && (forall id :: id in order <==> id in ids)
    && |order| == |ids|
    && forall i, j | 0 <= i < j < |order| :: order[i] != order[j]
  }

  // The findings about one id, oldest first.
  function About(findings: seq<Finding>, id: int): seq<Kind> {
    if findings == [] then []
    else
      var earlier, last := About(findings[..|findings| - 1], id), findings[|findings| - 1];
      if last.id == id then earlier + [last.kind] else earlier
  }

  predicate Alternates(kinds: seq<Kind>) {
    forall i | 0 <= i < |kinds| :: kinds[i] == if i % 2 == 0 then Detected else Resolved
  }

  // Findings about an id alternate from detected on, and an id is known to be
  // broken exactly when the last of them is detected.
  ghost predicate Faithful(known: set<int>, findings: seq<Finding>) {
    forall id :: Alternates(About(findings, id)) &&
                 (id in known <==> About(findings, id) != [] && About(findings, id)[|About(findings, id)| - 1] == Detected)
  }

  // ------------------------------------------------------- what the watchdog writes

  const WATCHDOG := "audit-log-watchdog"
  const DETECTED := "audit_log_tamper_detected"
  const RESOLVED := "audit_log_tamper_resolved"

  function ReasonText(reason: Reason): string {
    match reason
    case HashMismatch =>
      "entry_hash" + " does not match recomputed hash - payload or prev_hash was modified after the fact"
    case LinkMismatch =>
      "prev_hash" + " does not match the previous entry's entry_hash - an entry was inserted, deleted, or reordered"
    case ObjectGone =>
      "MinIO object is gone" + " (delete marker or removed) - the current version no longer serves the original entry"
    case ObjectChanged =>
      "MinIO object content" + " no longer matches this entry - a new version was written over the original"
  }

  // The time in the payload is read before the time of the entry.
  function DetectedEvent(b: Break, at: string, now: string): Event {
    Event(DETECTED, WATCHDOG,
          Obj([Field("entry_id", Int(b.id)), Field("reason", Str(ReasonText(b.reason))), Field("detected_at", Str(at))]), now)
  }

  function ResolvedEvent(id: int, at: string, now: string): Event {
    Event(RESOLVED, WATCHDOG, Obj([Field("entry_id", Int(id)), Field("resolved_at", Str(at))]), now)
  }

  function DetectedEvents(found: seq<Break>, clock: nat -> string): seq<Event> {
    seq(|found|, i requires 0 <= i < |found| => DetectedEvent(found[i], clock(2 * i), clock(2 * i + 1)))
  }

  // The clock has been read `start` times before.
  function ResolvedEvents(gone: seq<int>, clock: nat -> string, start: nat): seq<Event> {
    seq(|gone|, i requires 0 <= i < |gone| => ResolvedEvent(gone[i], clock(start + 2 * i), clock(start + 2 * i + 1)))
  }

  // What one tick has to say: the breaks it did not know, the ids that have
  // recovered, and the clock it reads.
  datatype Report = Report(found: seq<Break>, gone: seq<int>, clock: nat -> string)

  function Events(r: Report): seq<Event> {
    DetectedEvents(r.found, r.clock) + ResolvedEvents(r.gone, r.clock, 2 * |r.found|)
  }

  function Ids(found: seq<Break>): seq<int> {
    seq(|found|, i requires 0 <= i < |found| => found[i].id)
  }

  // ---------------------------------------------------- findings read off entries

  function EntryId(fields: seq<Field>): Option<int> {
    if fields == [] then None
    else if fields[0].name != "entry_id" then EntryId(fields[1..])
    else if fields[0].value.Int? then Some(fields[0].value.n)
    else None
  }

  // The finding that an entry of the log records, if it is one of the watchdog's.
  function AsFinding(eventType: string, source: string, payload: Json): seq<Finding> {
    if source != WATCHDOG || !payload.Obj? || EntryId(payload.fields).None? then []
    else if eventType == DETECTED then [Finding(Detected, EntryId(payload.fields).value)]
    else if eventType == RESOLVED then [Finding(Resolved, EntryId(payload.fields).value)]
    else []
  }

  function FindingsOf(events: seq<Event>): seq<Finding> {
    if events == [] then []
    else
      var last := events[|events| - 1];
      FindingsOf(events[..|events| - 1]) + AsFinding(last.eventType, last.source, last.payload)
  }

  function FindingsIn(rows: seq<Row>): seq<Finding> {
    if rows == [] then []
    else
      var last := rows[|rows| - 1];
      FindingsIn(rows[..|rows| - 1]) + AsFinding(last.eventType, last.source, last.payload)
  }

  lemma ReadBack(b: Break, id: int, at: string, now: string)
    ensures var d, r := DetectedEvent(b, at, now), ResolvedEvent(id, at, now);
            && d.eventType == "audit_log_tamper_detected" && r.eventType == "audit_log_tamper_resolved"
            && d.source == r.source == "audit-log-watchdog" && d.timestamp == r.timestamp == now
            && AsFinding(d.eventType, d.source, d.payload) == [Finding(Detected, b.id)]
            && AsFinding(r.eventType, r.source, r.payload) == [Finding(Resolved, id)]
  {
    hide ReasonText;
    assert DETECTED[17] == 'd' && RESOLVED[17] == 'r';
  }

  // Each reason is told apart in the entry, and the time of the finding is with it.
  lemma EntriesSay(b: Break, at: string, now: string)
    ensures FieldMap(DetectedEvent(b, at, now).payload.fields) ==
            map["entry_id" := Meaning(Int(b.id)), "reason" := StrValue(ReasonText(b.reason)), "detected_at" := StrValue(at)]
    ensures FieldMap(ResolvedEvent(b.id, at, now).payload.fields) ==
            map["entry_id" := Meaning(Int(b.id)), "resolved_at" := StrValue(at)]
  {
    hide ReasonText;
    var entry, reason := Field("entry_id", Int(b.id)), Field("reason", Str(ReasonText(b.reason)));
    FieldMapOfOne(entry);
    FieldMapOneMore([entry], reason);
    FieldMapOneMore([entry] + [reason], Field("detected_at", Str(at)));
    FieldMapOneMore([entry], Field("resolved_at", Str(at)));
    assert DetectedEvent(b, at, now).payload.fields == [entry] + [reason] + [Field("detected_at", Str(at))];
    assert ResolvedEvent(b.id, at, now).payload.fields == [entry] + [Field("resolved_at", Str(at))];
    hide FieldMap;
  }

  lemma FieldMapOfOne(f: Field)
    ensures FieldMap([f]) == map[f.name := Meaning(f.value)]
  {
    assert [f][..0] == [];
  }

  lemma FieldMapOneMore(fields: seq<Field>, f: Field)
    ensures FieldMap(fields + [f]) == FieldMap(fields)[f.name := Meaning(f.value)]
  {
    assert (fields + [f])[..|fields|] == fields;
  }

  // Where the texts can be told apart.
  lemma HashTextBegins()
    ensures |ReasonText(HashMismatch)| > 0 && ReasonText(HashMismatch)[0] == 'e'
  {}

  lemma LinkTextBegins()
    ensures |ReasonText(LinkMismatch)| > 0 && ReasonText(LinkMismatch)[0] == 'p'
  {}

  lemma GoneTextBegins()
    ensures |ReasonText(ObjectGone)| > 13 && ReasonText(ObjectGone)[0] == 'M' && ReasonText(ObjectGone)[13] == 'i'
  {}

  lemma ChangedTextBegins()
    ensures |ReasonText(ObjectChanged)| > 13 && ReasonText(ObjectChanged)[0] == 'M' && ReasonText(ObjectChanged)[13] == 'c'
  {}

  // A broken hash and a broken link, a gone object and a changed one are four texts.
  lemma ReasonTextsDiffer(a: Reason, b: Reason)
    ensures ReasonText(a) == ReasonText(b) <==> a == b
  {
    hide ReasonText;
    HashTextBegins();
    LinkTextBegins();
    GoneTextBegins();
    ChangedTextBegins();
  }

  predicate Tells(ev: Event, f: Finding) { AsFinding(ev.eventType, ev.source, ev.payload) == [f] }

  lemma {:induction false} AllReadBack(events: seq<Event>, kind: Kind, ids: seq<int>)
    requires |events| == |ids| && forall i | 0 <= i < |ids| :: Tells(events[i], Finding(kind, ids[i]))
    ensures FindingsOf(events) == Tagged(kind, ids)
  {
    hide AsFinding;
    if ids != [] {
      var k := |ids| - 1;
      AllReadBack(events[..k], kind, ids[..k]);
      assert Tells(events[k], Finding(kind, ids[k]));
      assert Tagged(kind, ids) == Tagged(kind, ids[..k]) + [Finding(kind, ids[k])];
    }
  }

  lemma DetectedReadBack(found: seq<Break>, clock: nat -> string)
    ensures FindingsOf(DetectedEvents(found, clock)) == Tagged(Detected, Ids(found))
  {
    hide AsFinding, DetectedEvent, Tagged, FindingsOf;
    var events := DetectedEvents(found, clock);
    forall i | 0 <= i < |found| ensures Tells(events[i], Finding(Detected, Ids(found)[i])) {
      ReadBack(found[i], 0, clock(2 * i), clock(2 * i + 1));
    }
    AllReadBack(events, Detected, Ids(found));
  }

  lemma ResolvedReadBack(gone: seq<int>, clock: nat -> string, start: nat)
    ensures FindingsOf(ResolvedEvents(gone, clock, start)) == Tagged(Resolved, gone)
  {
    hide AsFinding, ResolvedEvent, Tagged, FindingsOf;
    var events := ResolvedEvents(gone, clock, start);
    forall i | 0 <= i < |gone| ensures Tells(events[i], Finding(Resolved, gone[i])) {
      ReadBack(Break(0, HashMismatch), gone[i], clock(start + 2 * i), clock(start + 2 * i + 1));
    }
    AllReadBack(events, Resolved, gone);
  }

  lemma {:induction false} FindingsOfConcat(events: seq<Event>, more: seq<Event>)
    ensures FindingsOf(events + more) == FindingsOf(events) + FindingsOf(more)
    decreases |more|
  {
    hide AsFinding;
    if more == [] {
      assert events + more == events;
    } else {
      FindingsOfConcat(events, more[..|more| - 1]);
      assert (events + more)[..|events + more| - 1] == events + more[..|more| - 1];
    }
  }

  // What a tick writes reads back as its detections followed by its recoveries.
  lemma ReportReadsBack(r: Report)
    ensures FindingsOf(Events(r)) == Tagged(Detected, Ids(r.found)) + Tagged(Resolved, r.gone)
  {
    hide FindingsOf, DetectedEvents, ResolvedEvents;
    DetectedReadBack(r.found, r.clock);
    ResolvedReadBack(r.gone, r.clock, 2 * |r.found|);
    FindingsOfConcat(DetectedEvents(r.found, r.clock), ResolvedEvents(r.gone, r.clock, 2 * |r.found|));
  }

  // ------------------------------------------------------------------------- ticks

  // The known ids, the log, and every event that this process's ticks have appended to it.
  datatype Watched = Watched(known: set<int>, log: Log, written: seq<Event>)

  function BrokenNow(H: Hash, log: Log): set<int> { BrokenIds(H, log.rows, log.store, |log.rows|) }

  // A tick whose appends all get through. Python does not fix the order in
  // which a set is walked.
  ghost predicate Tick(H: Hash, w: Watched, r: Report, w': Watched) {
    && w'.known == BrokenNow(H, w.log)
    && Lists(Ids(r.found), w'.known - w.known) && (forall b | b in r.found :: b in Verified(H, w.log))
    && Lists(r.gone, w.known - w'.known)
    && w'.log == AppendAll(H, w.log, Events(r)) && |w'.log.rows| == |w.log.rows| + |Events(r)|
    && w'.written == w.written + Events(r)
  }

  lemma {:induction false} AboutTagged(findings: seq<Finding>, kind: Kind, ids: seq<int>, id: int)
    requires forall i, j | 0 <= i < j < |ids| :: ids[i] != ids[j]
    ensures About(findings + Tagged(kind, ids), id) == About(findings, id) + if id in ids then [kind] else []
  {
    var all := findings + Tagged(kind, ids);
    if ids == [] {
      assert all == findings;
    } else {
      var init, last := ids[..|ids| - 1], ids[|ids| - 1];
      assert all[..|all| - 1] == findings + Tagged(kind, init);
      AboutTagged(findings, kind, init, id);
      assert ids == init + [last];
    }
  }

  lemma ReportStaysFaithful(known: set<int>, findings: seq<Finding>, current: set<int>, newly: seq<int>, gone: seq<int>)
    requires Faithful(known, findings) && Lists(newly, current - known) && Lists(gone, known - current)
    ensures Faithful(current, findings + Tagged(Detected, newly) + Tagged(Resolved, gone))
  {
    var findings' := findings + Tagged(Detected, newly) + Tagged(Resolved, gone);
    forall id
      ensures var kinds := About(findings', id);
              Alternates(kinds) && (id in current <==> kinds != [] && kinds[|kinds| - 1] == Detected)
    {
      AboutTagged(findings, Detected, newly, id);
      AboutTagged(findings + Tagged(Detected, newly), Resolved, gone, id);
      assert id in newly <==> id in current - known;
      assert id in gone <==> id in known - current;
      hide About, Tagged, Lists;
    }
  }

  // A tick keeps what its process has written so far faithful.
  lemma TickStaysFaithful(H: Hash, w: Watched, r: Report, w': Watched)
    requires Faithful(w.known, FindingsOf(w.written)) && Tick(H, w, r, w')
    ensures Faithful(w'.known, FindingsOf(w'.written))
  {
    hide Faithful, Lists, BrokenNow, Verified, Events, AppendAll, FindingsOf;
    ReportReadsBack(r);
    FindingsOfConcat(w.written, Events(r));
    ReportStaysFaithful(w.known, FindingsOf(w.written), w'.known, Ids(r.found), r.gone);
    assert FindingsOf(w.written) + (Tagged(Detected, Ids(r.found)) + Tagged(Resolved, r.gone)) ==
           FindingsOf(w.written) + Tagged(Detected, Ids(r.found)) + Tagged(Resolved, r.gone);
  }

  // Between ticks anything may happen to the log: appends, edits, deletions, repairs.
  ghost predicate Step(H: Hash, w: Watched, w': Watched) {
    (w'.known == w.known && w'.written == w.written) || exists r :: Tick(H, w, r, w')
  }

  // A run from the start of the process, on a log in whatever state.
  ghost predicate WatchRun(H: Hash, ws: seq<Watched>) {
    && |ws| > 0 && ws[0].known == {} && ws[0].written == []
    && forall i, j | 0 <= i && j == i + 1 < |ws| :: Step(H, ws[i], ws[j])
  }

  // Over any run of ticks with any tampering in between, the entries the
  // watchdog has appended alternate for every id, and tell which ids are known.
  lemma {:induction false} EveryRunIsFaithful(H: Hash, ws: seq<Watched>)
    requires WatchRun(H, ws)
    ensures Faithful(ws[|ws| - 1].known, FindingsOf(ws[|ws| - 1].written))
  {
    hide Tick;
    if |ws| > 1 {
      var init, w, w' := ws[..|ws| - 1], ws[|ws| - 2], ws[|ws| - 1];
      assert init[|init| - 1] == w;
      EveryRunIsFaithful(H, init);
      assert Step(H, w, w');
      if !(w'.known == w.known && w'.written == w.written) {
        var r :| Tick(H, w, r, w');
        TickStaysFaithful(H, w, r, w');
      }
    }
  }

  // ------------------------------------------------------- findings in the table

  lemma {:induction false} AppendAllGrows(H: Hash, log: Log, events: seq<Event>)
    ensures log.rows <= AppendAll(H, log, events).rows && |AppendAll(H, log, events).rows| <= |log.rows| + |events|
    decreases |events|
  {
    hide HashedText, FullText;
    if events != [] { AppendAllGrows(H, log, events[..|events| - 1]); }
  }

  // When every append gets through, the table gains the findings of the events.
  lemma {:induction false} AppendedFindings(H: Hash, log: Log, events: seq<Event>)
    requires |AppendAll(H, log, events).rows| == |log.rows| + |events|
    ensures FindingsIn(AppendAll(H, log, events).rows) == FindingsIn(log.rows) + FindingsOf(events)
    decreases |events|
  {
    hide HashedText, FullText, AsFinding;
    if events != [] {
      var init := events[..|events| - 1];
      AppendAllGrows(H, log, init);
      AppendedFindings(H, log, init);
      var before, after := AppendAll(H, log, init), AppendAll(H, log, events);
      assert after.rows[..|after.rows| - 1] == before.rows;
    }
  }

  // A tick's findings are entries of the chain it verified.
  lemma TickWritesFindings(H: Hash, w: Watched, r: Report, w': Watched)
    requires Tick(H, w, r, w')
    ensures w.log.rows <= w'.log.rows && |w'.log.rows| == |w.log.rows| + |r.found| + |r.gone|
    ensures FindingsIn(w'.log.rows) == FindingsIn(w.log.rows) + Tagged(Detected, Ids(r.found)) + Tagged(Resolved, r.gone)
  {
    hide Lists, BrokenNow, Verified, AppendAll, FindingsOf, FindingsIn;
    AppendAllGrows(H, w.log, Events(r));
    AppendedFindings(H, w.log, Events(r));
    ReportReadsBack(r);
    assert FindingsIn(w.log.rows) + (Tagged(Detected, Ids(r.found)) + Tagged(Resolved, r.gone)) ==
           FindingsIn(w.log.rows) + Tagged(Detected, Ids(r.found)) + Tagged(Resolved, r.gone);
  }

  // Others append entries that do not pass for the watchdog's.
  ghost predicate OthersAppend(H: Hash, w: Watched, events: seq<Event>, w': Watched) {
    && w' == w.(log := AppendAll(H, w.log, events)) && |w'.log.rows| == |w.log.rows| + |events|
    && FindingsOf(events) == []
  }

  ghost predicate HonestStep(H: Hash, w: Watched, w': Watched) {
    (exists events :: OthersAppend(H, w, events, w')) || exists r :: Tick(H, w, r, w')
  }

  ghost predicate HonestRun(H: Hash, ws: seq<Watched>) {
    && |ws| > 0 && ws[0].known == {} && ws[0].written == [] && FindingsIn(ws[0].log.rows) == []
    && forall i, j | 0 <= i && j == i + 1 < |ws| :: HonestStep(H, ws[i], ws[j])
  }

  // In a table nobody tampers with while the process runs, the findings are
  // those its ticks wrote, so an auditor who reads the table reads the truth.
  lemma {:induction false} TableIsFaithful(H: Hash, ws: seq<Watched>)
    requires HonestRun(H, ws)
    ensures var w := ws[|ws| - 1];
            FindingsIn(w.log.rows) == FindingsOf(w.written) && Faithful(w.known, FindingsIn(w.log.rows))
  {
    hide Tick, OthersAppend, Faithful, FindingsIn, FindingsOf, AppendAll;
    if |ws| == 1 {
      NothingWritten();
    } else {
      var init, w, w' := ws[..|ws| - 1], ws[|ws| - 2], ws[|ws| - 1];
      assert init[|init| - 1] == w;
      TableIsFaithful(H, init);
      assert HonestStep(H, w, w');
      if r :| Tick(H, w, r, w') {
        TickStaysFaithful(H, w, r, w');
        TickTellsTable(H, w, r, w');
      } else {
        var events :| OthersAppend(H, w, events, w');
        OthersTellNothing(H, w, events, w');
      }
    }
  }

  lemma NothingWritten()
    ensures FindingsOf([]) == [] && Faithful({}, [])
  {}

  lemma TickTellsTable(H: Hash, w: Watched, r: Report, w': Watched)
    requires Tick(H, w, r, w') && FindingsIn(w.log.rows) == FindingsOf(w.written)
    ensures FindingsIn(w'.log.rows) == FindingsOf(w'.written)
  {
    hide Lists, BrokenNow, Verified, AppendAll, FindingsOf, FindingsIn, Events;
    AppendedFindings(H, w.log, Events(r));
    FindingsOfConcat(w.written, Events(r));
  }

  lemma OthersTellNothing(H: Hash, w: Watched, events: seq<Event>, w': Watched)
    requires OthersAppend(H, w, events, w')
    ensures FindingsIn(w'.log.rows) == FindingsIn(w.log.rows) && w'.written == w.written && w'.known == w.known
  {
    hide AppendAll, FindingsOf, FindingsIn;
    AppendedFindings(H, w.log, events);
  }

  // ------------------------------------------------------------------- quiet ticks

  // No append of the list takes an object key that a row already uses.
  predicate KeysFresh(H: Hash, log: Log, events: seq<Event>)
    decreases |events|
  {
    events == [] ||
    var before := AppendAll(H, log, events[..|events| - 1]);
    && KeysFresh(H, log, events[..|events| - 1])
    && forall i | 0 <= i < |before.rows| ::
         before.rows[i].objectKey != NewRow(H, before.nextId, events[|events| - 1], TailHash(H, before.rows)).objectKey
  }

  lemma {:induction false} AppendsKeepBreaks(H: Hash, log: Log, events: seq<Event>)
    requires KeysFresh(H, log, events)
    ensures Verified(H, AppendAll(H, log, events)) == Verified(H, log)
    ensures BrokenNow(H, AppendAll(H, log, events)) == BrokenNow(H, log)
    decreases |events|
  {
    hide HashedText, FullText;
    if events != [] {
      AppendsKeepBreaks(H, log, events[..|events| - 1]);
      AppendKeepsBreaks(H, AppendAll(H, log, events[..|events| - 1]), events[|events| - 1]);
    }
  }

  // After a tick, with nothing done to the log but serial appends, its own and
  // others', the next tick appends nothing and changes nothing.
  lemma QuietTick(H: Hash, w: Watched, r: Report, w': Watched, others: seq<Event>, r': Report, w'': Watched)
    requires Tick(H, w, r, w')
    requires KeysFresh(H, w.log, Events(r)) && KeysFresh(H, w'.log, others)
    requires var between := w'.(log := AppendAll(H, w'.log, others)); Tick(H, between, r', w'')
    ensures Events(r') == [] && w'' == w'.(log := AppendAll(H, w'.log, others))
  {
    hide KeysFresh, Verified, BrokenNow;
    AppendsKeepBreaks(H, w.log, Events(r));
    AppendsKeepBreaks(H, w'.log, others);
    assert |Ids(r'.found)| == 0 && |r'.gone| == 0;
    assert AppendAll(H, AppendAll(H, w'.log, others), []) == AppendAll(H, w'.log, others);
  }

  // ------------------------------------------------------------------ the service

  lemma OneMoreListed(order: seq<int>, ids: set<int>, id: int)
    requires Lists(order, ids) && id !in ids
    ensures Lists(order + [id], ids + {id})
  {
    forall i, j | 0 <= i < j < |order + [id]| ensures (order + [id])[i] != (order + [id])[j] {
      if j == |order| { assert order[i] in order; }
    }
  }

  lemma OneMoreDetected(found: seq<Break>, b: Break, clock: nat -> string)
    ensures DetectedEvents(found + [b], clock) ==
            DetectedEvents(found, clock) + [DetectedEvent(b, clock(2 * |found|), clock(2 * |found| + 1))]
  {
    hide DetectedEvent;
  }

  lemma OneMoreResolved(gone: seq<int>, i: nat, clock: nat -> string, start: nat)
    requires i < |gone|
    ensures ResolvedEvents(gone[..i + 1], clock, start) ==
            ResolvedEvents(gone[..i], clock, start) + [ResolvedEvent(gone[i], clock(start + 2 * i), clock(start + 2 * i + 1))]
  {
    hide ResolvedEvent;
  }

  lemma NothingReported(H: Hash, log: Log, clock: nat -> string)
    ensures AppendAll(H, log, []) == log && DetectedEvents([], clock) == [] && Lists(Ids([]), {})
  {}

  lemma NothingRecovered(H: Hash, log: Log, clock: nat -> string, start: nat)
    ensures AppendAll(H, log, []) == log && ResolvedEvents([], clock, start) == []
  {}

  lemma OneMoreId(found: seq<Break>, b: Break)
    ensures Ids(found + [b]) == Ids(found) + [b.id]
  {}

  class IntegrityWatchdog {
    const log: AuditLog
    var known: set<int>

    constructor (log: AuditLog)
      ensures this.log == log && known == {}
    {
      this.log, known := log, {};
    }

    // Append one more event to those appended since the log was `start`.
    method Write(ev: Event, ghost start: Log, ghost added: seq<Event>) returns (inserted: bool)
      requires log.Contents() == AppendAll(log.hash, start, added)
      modifies log
      ensures log.Contents() == AppendAll(log.hash, start, added + [ev])
      ensures inserted <==> |log.rows| == |old(log.rows)| + 1
    {
      hide HashedText, FullText;
      inserted := log.Append(ev);
      OneMoreAppended(log.hash, start, added, ev);
    }

    // Write the breaks not known before, in the order they were found.
    method ReportBroken(breaks: seq<Break>, unseen: set<int>, clock: nat -> string) returns (ok: bool, ghost found: seq<Break>, ghost added: seq<Event>)
      requires unseen <= set b | b in breaks :: b.id
      modifies log
      ensures log.Contents() == AppendAll(log.hash, old(log.Contents()), added)
      ensures ok ==> added == DetectedEvents(found, clock) && |log.rows| == |old(log.rows)| + |added|
      ensures ok ==> Lists(Ids(found), unseen) && forall b | b in found :: b in breaks
    {
      hide AppendAll, DetectedEvent, DetectedEvents, Lists, Ids;
      ghost var start := log.Contents();
      var reported: set<int> := {};
      found, added := [], [];
      NothingReported(log.hash, start, clock);
      for i := 0 to |breaks|
        invariant log.Contents() == AppendAll(log.hash, start, added)
        invariant |log.rows| == |start.rows| + |added| && added == DetectedEvents(found, clock)
        invariant Lists(Ids(found), reported) && reported <= unseen && |found| == |reported|
        invariant forall b | b in found :: b in breaks
        invariant forall j | 0 <= j < i :: breaks[j].id in unseen ==> breaks[j].id in reported
      {
        var b := breaks[i];
        if b.id in unseen && b.id !in reported {
          OneMoreDetected(found, b, clock);
          OneMoreId(found, b);
          OneMoreListed(Ids(found), reported, b.id);
          var ev := DetectedEvent(b, clock(2 * |reported|), clock(2 * |reported| + 1));
          ok := Write(ev, start, added);
          added := added + [ev];
          if !ok {
            return;
          }
          found, reported := found + [b], reported + {b.id};
        }
      }
      assert reported == unseen;
      ok := true;
    }

    // Write the recoveries, in the order in which the set is walked.
    method ReportRecovered(gone: seq<int>, clock: nat -> string, start: nat) returns (ok: bool, ghost added: seq<Event>)
      modifies log
      ensures log.Contents() == AppendAll(log.hash, old(log.Contents()), added)
      ensures ok ==> added == ResolvedEvents(gone, clock, start) && |log.rows| == |old(log.rows)| + |added|
    {
      hide AppendAll, ResolvedEvent, ResolvedEvents;
      ghost var before := log.Contents();
      added := [];
      NothingRecovered(log.hash, before, clock, start);
      assert gone[..0] == [];
      for i := 0 to |gone|
        invariant log.Contents() == AppendAll(log.hash, before, added)
        invariant |log.rows| == |before.rows| + |added| && added == ResolvedEvents(gone[..i], clock, start)
      {
        OneMoreResolved(gone, i, clock, start);
        var ev := ResolvedEvent(gone[i], clock(start + 2 * i), clock(start + 2 * i + 1));
        ok := Write(ev, before, added);
        added := added + [ev];
        if !ok {
          return;
        }
      }
      assert gone[..|gone|] == gone;
      ok := true;
    }

    // One tick; it breaks off when an append is refused.
    method RunTick(clock: nat -> string, walk: set<int> -> seq<int>, ghost written: seq<Event>) returns (ok: bool, ghost r: Report, ghost added: seq<Event>)
      requires forall ids :: Lists(walk(ids), ids)
      modifies this, log
      ensures known == BrokenNow(log.hash, old(log.Contents()))
      ensures log.Contents() == AppendAll(log.hash, old(log.Contents()), added)
      ensures ok ==> Tick(log.hash, Watched(old(known), old(log.Contents()), written), r,
                          Watched(known, log.Contents(), written + added))
    {
      hide HashedText, FullText, BrokenIds, AppendAll, DetectedEvents, ResolvedEvents;
      ghost var start := log.Contents();
      var breaks := log.ComputeBreaks();
      BreaksReport(log.hash, log.rows, log.store, |log.rows|);
      var current := set b | b in breaks :: b.id;
      var unseen, recovered := current - known, known - current;
      known := current;
      ghost var found;
      ok, found, added := ReportBroken(breaks, unseen, clock);
      r := Report(found, walk(recovered), clock);
      if ok {
        assert |found| == |unseen|;
        ghost var middle, more := log.Contents(), [];
        ok, more := ReportRecovered(walk(recovered), clock, 2 * |unseen|);
        AppendAllConcat(log.hash, start, added, more);
        added := added + more;
      }
    }
  }

  lemma OneMoreAppended(H: Hash, log: Log, events: seq<Event>, ev: Event)
    ensures AppendAll(H, log, events + [ev]) == Appended(H, AppendAll(H, log, events), ev)
  {
    hide HashedText, FullText;
    assert (events + [ev])[..|events|] == events;
  }

  lemma {:induction false} AppendAllConcat(H: Hash, log: Log, events: seq<Event>, more: seq<Event>)
    ensures AppendAll(H, log, events + more) == AppendAll(H, AppendAll(H, log, events), more)
    decreases |more|
  {
    hide HashedText, FullText, Appended;
    if more == [] {
      assert events + more == events;
    } else {
      AppendAllConcat(H, log, events, more[..|more| - 1]);
      assert (events + more)[..|events + more| - 1] == events + more[..|more| - 1];
    }
  }
}
