/**
 The hash-chained audit log: a table of rows, each embedding the hash of the one
 before, and a store of write-once objects holding a copy of every entry. The
 hash is any function from text to text; where a result could fail because two
 texts share a hash, those two texts are named.
 */
module AuditChain {
  import opened Common
  import opened CanonicalJson

  // The digest, and the all-zero value of its width that starts the chain.
  datatype Hash = Hash(digest: string -> string, genesis: string)

  // What a caller asks to have logged, and the clock reading it gets.
  datatype Event = Event(eventType: string, source: string, payload: Json, timestamp: string)

  datatype Row = Row(id: int, eventType: string, source: string, payload: Json, prevHash: string,
                     entryHash: string, objectKey: string, timestamp: string)

  datatype Log = Log(rows: seq<Row>, store: map<string, string>, nextId: int)

  datatype Reason = HashMismatch | LinkMismatch | ObjectGone | ObjectChanged
  datatype Break = Break(id: int, reason: Reason)

  // --------------------------------------------------------------- entry texts

  function EntryFields(r: Row): seq<Field> {
    [Field("event_type", Str(r.eventType)),
     Field("source_service", Str(r.source)),
     Field("payload", r.payload),
     Field("prev_hash", Str(r.prevHash)),
     Field("timestamp", Str(r.timestamp))]
  }

  // The text that is hashed, and the text that is stored.
  function HashedText(r: Row): string { Canonical(Obj(EntryFields(r))) }

  function FullText(r: Row): string {
    Canonical(Obj(EntryFields(r) + [Field("entry_hash", Str(r.entryHash))]))
  }

  // Equal hashed columns, payloads taken up to key order.
  predicate SameColumns(r: Row, e: Row) {
    && r.eventType == e.eventType && r.source == e.source && Meaning(r.payload) == Meaning(e.payload)
    && r.prevHash == e.prevHash && r.timestamp == e.timestamp
  }

  predicate SameEntry(r: Row, e: Row) { SameColumns(r, e) && r.entryHash == e.entryHash }

  lemma EntryFieldsDistinct(r: Row)
    ensures DistinctNames(EntryFields(r)) && forall f | f in EntryFields(r) :: f.name != "entry_hash"
  {
    assert "prev_hash"[0] != "timestamp"[0] && "event_type"[1] != "entry_hash"[1];
  }

  lemma EntryMap(r: Row)
    ensures var m := FieldMap(EntryFields(r));
            && m.Keys == {"event_type", "source_service", "payload", "prev_hash", "timestamp"}
            && m["event_type"] == StrValue(r.eventType) && m["source_service"] == StrValue(r.source)
            && m["payload"] == Meaning(r.payload) && m["prev_hash"] == StrValue(r.prevHash)
            && m["timestamp"] == StrValue(r.timestamp)
  {
    var fields := EntryFields(r);
    EntryFieldsDistinct(r);
    FieldMapHolds(fields);
    assert fields[0] in fields && fields[1] in fields && fields[2] in fields && fields[3] in fields && fields[4] in fields;
  }

  lemma EntryMapsEqual(r: Row, e: Row)
    ensures FieldMap(EntryFields(r)) == FieldMap(EntryFields(e)) <==> SameColumns(r, e)
  {
    EntryMap(r);
    EntryMap(e);
  }

  // One more field of a new name adds exactly its value to what a text says.
  lemma OneMoreField(f: seq<Field>, g: seq<Field>, name: string, v: Json, w: Json)
    requires IsDict(Obj(f)) && IsDict(Obj(g)) && IsDict(v) && IsDict(w)
    requires (forall x | x in f :: x.name != name) && (forall x | x in g :: x.name != name)
    ensures Canonical(Obj(f + [Field(name, v)])) == Canonical(Obj(g + [Field(name, w)])) <==>
            FieldMap(f) == FieldMap(g) && Meaning(v) == Meaning(w)
  {
    var f', g' := f + [Field(name, v)], g + [Field(name, w)];
    assert IsDict(Obj(f')) && IsDict(Obj(g'));
    CanonicalIdentifies(Obj(f'), Obj(g'));
    assert f'[..|f|] == f && g'[..|g|] == g;
    FieldMapHolds(f);
    FieldMapHolds(g);
    ExtendedMaps(FieldMap(f), FieldMap(g), name, Meaning(v), Meaning(w));
  }

  lemma ExtendedMaps<K, V>(m: map<K, V>, n: map<K, V>, k: K, a: V, b: V)
    requires k !in m && k !in n
    ensures m[k := a] == n[k := b] <==> m == n && a == b
  {
    if m[k := a] == n[k := b] {
      assert m[k := a][k] == a && n[k := b][k] == b;
      assert m == m[k := a] - {k} && n == n[k := b] - {k};
    }
  }

  lemma EntryIsDict(r: Row)
    requires IsDict(r.payload)
    ensures IsDict(Obj(EntryFields(r)))
  {
    EntryFieldsDistinct(r);
  }

  // The hashed text identifies the hashed columns, and the stored text the whole entry.
  lemma TextsIdentify(r: Row, e: Row)
    requires IsDict(r.payload) && IsDict(e.payload)
    ensures HashedText(r) == HashedText(e) <==> SameColumns(r, e)
    ensures FullText(r) == FullText(e) <==> SameEntry(r, e)
  {
    var f, g := EntryFields(r), EntryFields(e);
    EntryIsDict(r);
    EntryIsDict(e);
    EntryMapsEqual(r, e);
    CanonicalIdentifies(Obj(f), Obj(g));
    assert (forall x | x in f :: x.name != "entry_hash") && (forall x | x in g :: x.name != "entry_hash") by {
      EntryFieldsDistinct(r);
      EntryFieldsDistinct(e);
    }
    OneMoreField(f, g, "entry_hash", Str(r.entryHash), Str(e.entryHash));
  }

  // The text is the canonical text of an object with these members.
  ghost predicate Says(text: string, members: map<string, Value>) {
    exists fields :: IsDict(Obj(fields)) && text == Canonical(Obj(fields)) && FieldMap(fields) == members
  }

  lemma EntryMembers(r: Row)
    ensures FieldMap(EntryFields(r)) ==
            map["event_type" := StrValue(r.eventType), "source_service" := StrValue(r.source),
                "payload" := Meaning(r.payload), "prev_hash" := StrValue(r.prevHash), "timestamp" := StrValue(r.timestamp)]
  {
    EntryMap(r);
    hide EntryFields, FieldMap;
  }

  // What the hash of an entry covers, member by member.
  lemma HashedTextSays(r: Row)
    requires IsDict(r.payload)
    ensures Says(HashedText(r), map["event_type" := StrValue(r.eventType), "source_service" := StrValue(r.source),
                                    "payload" := Meaning(r.payload), "prev_hash" := StrValue(r.prevHash),
                                    "timestamp" := StrValue(r.timestamp)])
  {
    EntryIsDict(r);
    EntryMembers(r);
    assert HashedText(r) == Canonical(Obj(EntryFields(r)));
    hide EntryFields, HashedText, Canonical, IsDict, FieldMap;
  }

  lemma FullFields(r: Row)
    requires IsDict(r.payload)
    ensures var fields := EntryFields(r) + [Field("entry_hash", Str(r.entryHash))];
            && IsDict(Obj(fields)) && FullText(r) == Canonical(Obj(fields))
            && FieldMap(fields) == FieldMap(EntryFields(r))["entry_hash" := StrValue(r.entryHash)]
  {
    var fields, hash := EntryFields(r), Field("entry_hash", Str(r.entryHash));
    EntryIsDict(r);
    EntryFieldsDistinct(r);
    hide EntryFields, Canonical;
    assert (fields + [hash])[..|fields|] == fields;
  }

  // The stored copy says the same and the hash.
  lemma FullTextSays(r: Row)
    requires IsDict(r.payload)
    ensures Says(FullText(r), map["event_type" := StrValue(r.eventType), "source_service" := StrValue(r.source),
                                  "payload" := Meaning(r.payload), "prev_hash" := StrValue(r.prevHash),
                                  "timestamp" := StrValue(r.timestamp), "entry_hash" := StrValue(r.entryHash)])
  {
    EntryMembers(r);
    FullFields(r);
    hide EntryFields, FullText, Canonical, IsDict, FieldMap;
  }

  // -------------------------------------------------------- append and verify

  function TailHash(H: Hash, rows: seq<Row>): string {
    if rows == [] then H.genesis else rows[|rows| - 1].entryHash
  }

  function ObjectKey(timestamp: string, entryHash: string): string {
    timestamp + "-" + (if |entryHash| < 16 then entryHash else entryHash[..16]) + ".json"
  }

  function WithHash(id: int, ev: Event, prevHash: string, entryHash: string): Row {
    Row(id, ev.eventType, ev.source, ev.payload, prevHash, entryHash, ObjectKey(ev.timestamp, entryHash), ev.timestamp)
  }

  // The row for an event, chained to the given hash. The hashed text does not
  // depend on the hash itself.
  function NewRow(H: Hash, id: int, ev: Event, prevHash: string): (r: Row)
    ensures HashMatches(H, r)
  {
    assert EntryFields(WithHash(id, ev, prevHash, H.digest(HashedText(WithHash(id, ev, prevHash, ""))))) == EntryFields(WithHash(id, ev, prevHash, ""));
    WithHash(id, ev, prevHash, H.digest(HashedText(WithHash(id, ev, prevHash, ""))))
  }

  predicate HashUsed(rows: seq<Row>, entryHash: string) {
    exists i | 0 <= i < |rows| :: rows[i].entryHash == entryHash
  }

  // The object is put first; a hash that is already in the table is refused by
  // its unique constraint, which leaves the object behind and an id unused.
  function Inserted(log: Log, r: Row): Log {
    if HashUsed(log.rows, r.entryHash) then log.(nextId := log.nextId + 1)
    else log.(rows := log.rows + [r], nextId := log.nextId + 1)
  }

  function Appended(H: Hash, log: Log, ev: Event): Log {
    var r := NewRow(H, log.nextId, ev, TailHash(H, log.rows));
    Inserted(log.(store := log.store[r.objectKey := FullText(r)]), r)
  }

  function ExpectedPrev(H: Hash, rows: seq<Row>, i: nat): string
    requires i <= |rows|
  {
    if i == 0 then H.genesis else rows[i - 1].entryHash
  }

  predicate HashMatches(H: Hash, r: Row) { r.entryHash == H.digest(HashedText(r)) }

  function ReasonAt(H: Hash, rows: seq<Row>, store: map<string, string>, i: nat): Option<Reason>
    requires i < |rows|
  {
    if !HashMatches(H, rows[i]) then Some(HashMismatch)
    else if rows[i].prevHash != ExpectedPrev(H, rows, i) then Some(LinkMismatch)
    else if rows[i].objectKey !in store then Some(ObjectGone)
    else if store[rows[i].objectKey] != FullText(rows[i]) then Some(ObjectChanged)
    else None
  }

  function Breaks(H: Hash, rows: seq<Row>, store: map<string, string>, n: nat): seq<Break>
    requires n <= |rows|
  {
    if n == 0 then []
    else
      var earlier, reason := Breaks(H, rows, store, n - 1), ReasonAt(H, rows, store, n - 1);
      if reason.Some? then earlier + [Break(rows[n - 1].id, reason.value)] else earlier
  }

  function Verified(H: Hash, log: Log): seq<Break> { Breaks(H, log.rows, log.store, |log.rows|) }

  class AuditLog {
    const hash: Hash
    var rows: seq<Row>
    var store: map<string, string>
    var nextId: int

    ghost function Contents(): Log
      reads this
    {
      Log(rows, store, nextId)
    }

    constructor (digest: string -> string)
      ensures hash == Hash(digest, seq(64, i => '0')) && Contents() == Log([], map[], 1)
    {
      hash, rows, store, nextId := Hash(digest, seq(64, i => '0')), [], map[], 1;
    }

    method Append(ev: Event) returns (inserted: bool)
      modifies this
      ensures Contents() == Appended(hash, old(Contents()), ev)
      ensures inserted <==> |rows| == |old(rows)| + 1
      ensures !inserted ==> rows == old(rows)
      ensures inserted ==>
                var r := rows[|old(rows)|];
                && rows == old(rows) + [r]
                && r.eventType == ev.eventType && r.source == ev.source && r.payload == ev.payload && r.timestamp == ev.timestamp
                && r.prevHash == (if |old(rows)| == 0 then hash.genesis else old(rows)[|old(rows)| - 1].entryHash)
                && r.entryHash == hash.digest(HashedText(r))
                && r.objectKey in store && store[r.objectKey] == FullText(r)
    {
      hide HashedText, FullText;
      var prevHash := if |rows| > 0 then rows[|rows| - 1].entryHash else hash.genesis;
      var r := NewRow(hash, nextId, ev, prevHash);
      store := store[r.objectKey := FullText(r)];
      nextId := nextId + 1;
      inserted := !HashUsed(rows, r.entryHash);
      if inserted {
        rows := rows + [r];
      }
    }

    method ComputeBreaks() returns (breaks: seq<Break>)
      ensures breaks == Verified(hash, Contents())
    {
      var expectedPrev := hash.genesis;
      breaks := [];
      for i := 0 to |rows|
        invariant expectedPrev == ExpectedPrev(hash, rows, i)
        invariant breaks == Breaks(hash, rows, store, i)
      {
        var r := rows[i];
        if hash.digest(HashedText(r)) != r.entryHash {
          breaks := breaks + [Break(r.id, HashMismatch)];
        } else if r.prevHash != expectedPrev {
          breaks := breaks + [Break(r.id, LinkMismatch)];
        } else if r.objectKey !in store {
          breaks := breaks + [Break(r.id, ObjectGone)];
        } else if store[r.objectKey] != FullText(r) {
          breaks := breaks + [Break(r.id, ObjectChanged)];
        }
        expectedPrev := r.entryHash;
      }
    }
  }

  // -------------------------------------------------- what verification reports

  predicate Clean(H: Hash, rows: seq<Row>, store: map<string, string>) {
    forall i | 0 <= i < |rows| :: ReasonAt(H, rows, store, i).None?
  }

  // The ids of the first n rows that are broken.
  function BrokenIds(H: Hash, rows: seq<Row>, store: map<string, string>, n: nat): set<int>
    requires n <= |rows|
  {
    set i | 0 <= i < n && ReasonAt(H, rows, store, i).Some? :: rows[i].id
  }

  lemma BrokenIdsStep(H: Hash, rows: seq<Row>, store: map<string, string>, n: nat)
    requires n < |rows|
    ensures BrokenIds(H, rows, store, n + 1) ==
            BrokenIds(H, rows, store, n) + if ReasonAt(H, rows, store, n).Some? then {rows[n].id} else {}
  {
  }

  lemma OneMoreBreak(breaks: seq<Break>, b: Break)
    ensures (set c | c in breaks + [b] :: c.id) == (set c | c in breaks :: c.id) + {b.id}
  {
    assert forall c :: c in breaks + [b] <==> c in breaks || c == b;
  }

  // The reported ids are those of the broken rows, and no report means none is.
  lemma {:induction false} BreaksReport(H: Hash, rows: seq<Row>, store: map<string, string>, n: nat)
    requires n <= |rows|
    ensures (set b | b in Breaks(H, rows, store, n) :: b.id) == BrokenIds(H, rows, store, n)
    ensures Breaks(H, rows, store, n) == [] <==> BrokenIds(H, rows, store, n) == {}
  {
    hide ReasonAt;
    if n > 0 {
      BreaksReport(H, rows, store, n - 1);
      BrokenIdsStep(H, rows, store, n - 1);
      hide BrokenIds;
      var reason := ReasonAt(H, rows, store, n - 1);
      if reason.Some? {
        OneMoreBreak(Breaks(H, rows, store, n - 1), Break(rows[n - 1].id, reason.value));
      }
    }
  }

  // ------------------------------------------------------------ honest histories

  predicate LinkedAt(H: Hash, rows: seq<Row>, i: nat)
    requires i < |rows|
  {
    HashMatches(H, rows[i]) && rows[i].prevHash == ExpectedPrev(H, rows, i)
  }

  predicate Linked(H: Hash, rows: seq<Row>) {
    forall i | 0 <= i < |rows| :: LinkedAt(H, rows, i)
  }

  predicate DistinctHashes(rows: seq<Row>) {
    forall i, j | 0 <= i < j < |rows| :: rows[i].entryHash != rows[j].entryHash
  }

  predicate DistinctKeys(rows: seq<Row>) {
    forall i, j | 0 <= i < j < |rows| :: rows[i].objectKey != rows[j].objectKey
  }

  predicate RisingIds(rows: seq<Row>) {
    forall i, j | 0 <= i < j < |rows| :: rows[i].id < rows[j].id
  }

  predicate DictPayloads(rows: seq<Row>) {
    forall i | 0 <= i < |rows| :: IsDict(rows[i].payload)
  }

  // The store holds the copy of every row, and nothing else.
  predicate Mirrors(rows: seq<Row>, store: map<string, string>) {
    && (forall i | 0 <= i < |rows| :: rows[i].objectKey in store && store[rows[i].objectKey] == FullText(rows[i]))
    && (forall k | k in store :: exists i :: 0 <= i < |rows| && rows[i].objectKey == k)
  }

  predicate Honest(H: Hash, log: Log) {
    && Linked(H, log.rows) && DistinctHashes(log.rows) && DistinctKeys(log.rows)
    && RisingIds(log.rows) && (forall i | 0 <= i < |log.rows| :: log.rows[i].id < log.nextId)
    && DictPayloads(log.rows) && Mirrors(log.rows, log.store)
  }

  function AppendAll(H: Hash, log: Log, events: seq<Event>): Log
    decreases |events|
  {
    if events == [] then log else Appended(H, AppendAll(H, log, events[..|events| - 1]), events[|events| - 1])
  }

  lemma AppendStaysLinked(H: Hash, rows: seq<Row>, r: Row)
    requires Linked(H, rows) && HashMatches(H, r) && r.prevHash == TailHash(H, rows)
    ensures Linked(H, rows + [r])
  {
    var rows' := rows + [r];
    forall i | 0 <= i < |rows'| ensures LinkedAt(H, rows', i) {
      if i < |rows| {
        assert LinkedAt(H, rows, i);
        assert ExpectedPrev(H, rows', i) == ExpectedPrev(H, rows, i);
      }
    }
  }

  lemma AppendStaysMirrored(rows: seq<Row>, store: map<string, string>, r: Row)
    requires Mirrors(rows, store) && forall i | 0 <= i < |rows| :: rows[i].objectKey != r.objectKey
    ensures Mirrors(rows + [r], store[r.objectKey := FullText(r)])
  {
    var rows', store' := rows + [r], store[r.objectKey := FullText(r)];
    assert rows'[|rows|] == r;
    forall k | k in store' ensures exists i :: 0 <= i < |rows'| && rows'[i].objectKey == k {
      if k != r.objectKey {
        var i :| 0 <= i < |rows| && rows[i].objectKey == k;
        assert rows'[i] == rows[i];
      }
    }
  }

  lemma AppendStaysDistinct(rows: seq<Row>, r: Row)
    requires DistinctHashes(rows) && RisingIds(rows) && DictPayloads(rows)
    requires !HashUsed(rows, r.entryHash) && IsDict(r.payload) && forall i | 0 <= i < |rows| :: rows[i].id < r.id
    ensures DistinctHashes(rows + [r]) && RisingIds(rows + [r]) && DictPayloads(rows + [r])
  {
  }

  lemma AppendStaysHonest(H: Hash, log: Log, ev: Event)
    requires Honest(H, log) && IsDict(ev.payload)
    requires var log' := Appended(H, log, ev);
             |log'.rows| > |log.rows| && DistinctKeys(log'.rows)
    ensures Honest(H, Appended(H, log, ev))
  {
    var n, r, log' := |log.rows|, NewRow(H, log.nextId, ev, TailHash(H, log.rows)), Appended(H, log, ev);
    assert log'.rows == log.rows + [r];
    forall i | 0 <= i < n ensures log.rows[i].objectKey != r.objectKey {
      assert log'.rows[i] == log.rows[i] && log'.rows[n] == r;
    }
    AppendStaysLinked(H, log.rows, r);
    AppendStaysDistinct(log.rows, r);
    AppendStaysMirrored(log.rows, log.store, r);
  }

  // Serial appends that all get through, under distinct object keys, are an honest history.
  lemma {:induction false} SerialHistoryIsHonest(H: Hash, events: seq<Event>)
    requires forall i | 0 <= i < |events| :: IsDict(events[i].payload)
    requires |AppendAll(H, Log([], map[], 1), events).rows| == |events|
    requires DistinctKeys(AppendAll(H, Log([], map[], 1), events).rows)
    ensures Honest(H, AppendAll(H, Log([], map[], 1), events))
    decreases |events|
  {
    if events != [] {
      var init := events[..|events| - 1];
      RowsAtMostEvents(H, init);
      var before := AppendAll(H, Log([], map[], 1), init);
      var after := AppendAll(H, Log([], map[], 1), events);
      assert forall i | 0 <= i < |before.rows| :: after.rows[i] == before.rows[i];
      SerialHistoryIsHonest(H, init);
      AppendStaysHonest(H, before, events[|events| - 1]);
    }
  }

  lemma {:induction false} RowsAtMostEvents(H: Hash, events: seq<Event>)
    ensures |AppendAll(H, Log([], map[], 1), events).rows| <= |events|
    decreases |events|
  {
    if events != [] { RowsAtMostEvents(H, events[..|events| - 1]); }
  }

  // An entry whose hash is the all-zero value that starts the chain.
  predicate GenesisHash(H: Hash, rows: seq<Row>) {
    exists i | 0 <= i < |rows| :: rows[i].entryHash == H.genesis
  }

  // ------------------------------------------------------------ tamper evidence

  // The table agrees with the start of the history, object keys included.
  predicate IsPrefix(rows: seq<Row>, history: seq<Row>) {
    && |rows| <= |history|
    && forall i | 0 <= i < |rows| :: SameEntry(rows[i], history[i]) && rows[i].objectKey == history[i].objectKey
  }

  lemma PrefixIsClean(H: Hash, log: Log, rows: seq<Row>)
    requires Honest(H, log) && DictPayloads(rows) && IsPrefix(rows, log.rows)
    ensures Clean(H, rows, log.store)
  {
    forall i | 0 <= i < |rows| ensures ReasonAt(H, rows, log.store, i).None? {
      TextsIdentify(rows[i], log.rows[i]);
      assert LinkedAt(H, log.rows, i);
      assert ExpectedPrev(H, rows, i) == ExpectedPrev(H, log.rows, i);
    }
  }

  // A clean row is the copy of some entry of the history.
  lemma CleanRowIsCopy(H: Hash, log: Log, rows: seq<Row>, i: nat) returns (j: nat)
    requires Honest(H, log) && DictPayloads(rows) && i < |rows|
    requires ReasonAt(H, rows, log.store, i).None?
    ensures j < |log.rows| && SameEntry(rows[i], log.rows[j]) && rows[i].objectKey == log.rows[j].objectKey
    ensures log.rows[j].prevHash == ExpectedPrev(H, rows, i)
  {
    j :| 0 <= j < |log.rows| && log.rows[j].objectKey == rows[i].objectKey;
    TextsIdentify(rows[i], log.rows[j]);
  }

  // In a chain, the previous hash tells the position.
  lemma PrevHashPlaces(H: Hash, history: seq<Row>, i: nat, j: nat)
    requires Linked(H, history) && DistinctHashes(history) && !GenesisHash(H, history)
    requires i <= |history| && j < |history| && history[j].prevHash == ExpectedPrev(H, history, i)
    ensures i == j
  {
    assert LinkedAt(H, history, j);
  }

  lemma {:induction false} CleanRowsAlign(H: Hash, log: Log, rows: seq<Row>)
    requires Honest(H, log) && DictPayloads(rows)
    requires Clean(H, rows, log.store) && !GenesisHash(H, log.rows)
    ensures IsPrefix(rows, log.rows)
  {
    if rows != [] {
      var n := |rows| - 1;
      var init := rows[..n];
      forall i | 0 <= i < n ensures ReasonAt(H, init, log.store, i).None? {
        assert ReasonAt(H, rows, log.store, i).None?;
      }
      CleanRowsAlign(H, log, init);
      assert ExpectedPrev(H, rows, n) == ExpectedPrev(H, init, n) == ExpectedPrev(H, log.rows, n);
      var j := CleanRowIsCopy(H, log, rows, n);
      PrevHashPlaces(H, log.rows, n, j);
      OneMoreCopy(rows, log.rows, n);
    }
  }

  lemma OneMoreCopy(rows: seq<Row>, history: seq<Row>, n: nat)
    requires n == |rows| - 1 < |history| && IsPrefix(rows[..n], history)
    requires SameEntry(rows[n], history[n]) && rows[n].objectKey == history[n].objectKey
    ensures IsPrefix(rows, history)
  {
    forall i | 0 <= i < |rows| ensures SameEntry(rows[i], history[i]) && rows[i].objectKey == history[i].objectKey {
      assert i < n ==> rows[..n][i] == rows[i];
    }
  }

  // Against an untouched store, a table verifies clean exactly when it is a
  // prefix of what was appended - unless an appended entry hashes to the
  // genesis value.
  lemma CleanIffPrefix(H: Hash, log: Log, rows: seq<Row>)
    requires Honest(H, log) && DictPayloads(rows)
    ensures IsPrefix(rows, log.rows) ==> Clean(H, rows, log.store)
    ensures Clean(H, rows, log.store) ==> IsPrefix(rows, log.rows) || GenesisHash(H, log.rows)
  {
    if IsPrefix(rows, log.rows) { PrefixIsClean(H, log, rows); }
    if Clean(H, rows, log.store) && !GenesisHash(H, log.rows) { CleanRowsAlign(H, log, rows); }
  }

  // Two different hashed texts, one from each table, with the same hash.
  predicate CollisionAt(H: Hash, r: Row, e: Row) {
    HashedText(r) != HashedText(e) && H.digest(HashedText(r)) == H.digest(HashedText(e))
  }

  predicate Collide(H: Hash, rows: seq<Row>, others: seq<Row>) {
    exists i, j | 0 <= i < |rows| && 0 <= j < |others| :: CollisionAt(H, rows[i], others[j])
  }

  predicate SameEntries(rows: seq<Row>, others: seq<Row>, n: nat) {
    n <= |rows| && n <= |others| && forall i | 0 <= i < n :: SameEntry(rows[i], others[i])
  }

  lemma SameHashSameEntry(H: Hash, r: Row, e: Row)
    requires HashMatches(H, r) && HashMatches(H, e) && r.entryHash == e.entryHash
    requires IsDict(r.payload) && IsDict(e.payload)
    ensures SameEntry(r, e) || CollisionAt(H, r, e)
  {
    TextsIdentify(r, e);
  }

  lemma OneMoreSame(rows: seq<Row>, others: seq<Row>, n: nat)
    requires n < |rows| && n < |others| && SameEntries(rows, others, n) && SameEntry(rows[n], others[n])
    ensures SameEntries(rows, others, n + 1)
  {
  }

  // A shared hash behind different texts, or a row that hashes to the genesis value.
  predicate HashBroken(H: Hash, rows: seq<Row>, others: seq<Row>) {
    Collide(H, rows, others) || GenesisHash(H, rows) || GenesisHash(H, others)
  }

  lemma ReachedGenesis(H: Hash, rows: seq<Row>, others: seq<Row>, m: nat, n: nat)
    requires m <= |rows| && n <= |others| && (m == 0 || n == 0)
    requires ExpectedPrev(H, rows, m) == ExpectedPrev(H, others, n)
    ensures m == n || HashBroken(H, rows, others)
  {
    if m > 0 { assert rows[m - 1].entryHash == H.genesis; }
    if n > 0 { assert others[n - 1].entryHash == H.genesis; }
  }

  // Without the store: the last hash alone pins the whole history.
  lemma {:induction false} HeadPinsHistory(H: Hash, rows: seq<Row>, others: seq<Row>, m: nat, n: nat)
    requires Linked(H, rows) && Linked(H, others) && DictPayloads(rows) && DictPayloads(others)
    requires m <= |rows| && n <= |others|
    requires ExpectedPrev(H, rows, m) == ExpectedPrev(H, others, n)
    ensures (m == n && SameEntries(rows, others, n)) || HashBroken(H, rows, others)
    decreases m
  {
    hide HashedText, FullText;
    if m == 0 || n == 0 {
      ReachedGenesis(H, rows, others, m, n);
    } else {
      assert LinkedAt(H, rows, m - 1) && LinkedAt(H, others, n - 1);
      SameHashSameEntry(H, rows[m - 1], others[n - 1]);
      if CollisionAt(H, rows[m - 1], others[n - 1]) {
        assert Collide(H, rows, others);
      } else {
        HeadPinsHistory(H, rows, others, m - 1, n - 1);
        if m == n && SameEntries(rows, others, n - 1) { OneMoreSame(rows, others, n - 1); }
      }
    }
  }

  // ------------------------------------------------- appends and single tampers

  // A serial append, on a table in whatever state, changes no verdict, and the
  // new row is clean; its object key must not be one that a row already uses.
  lemma AppendKeepsBreaks(H: Hash, log: Log, ev: Event)
    requires forall i | 0 <= i < |log.rows| ::
               log.rows[i].objectKey != NewRow(H, log.nextId, ev, TailHash(H, log.rows)).objectKey
    ensures var log' := Appended(H, log, ev);
            Verified(H, log') == Verified(H, log) && BrokenIds(H, log'.rows, log'.store, |log'.rows|) == BrokenIds(H, log.rows, log.store, |log.rows|)
  {
    var log' := Appended(H, log, ev);
    SameVerdicts(H, log.rows, log.store, log'.rows, log'.store, |log.rows|);
    if |log'.rows| > |log.rows| {
      assert ReasonAt(H, log'.rows, log'.store, |log.rows|).None?;
    }
    BreaksReport(H, log.rows, log.store, |log.rows|);
    BreaksReport(H, log'.rows, log'.store, |log'.rows|);
  }

  lemma {:induction false} SameVerdicts(H: Hash, rows: seq<Row>, store: map<string, string>, rows': seq<Row>, store': map<string, string>, n: nat)
    requires n <= |rows| && rows <= rows'
    requires forall i | 0 <= i < |rows| ::
               var k := rows[i].objectKey; (k in store <==> k in store') && (k in store ==> store[k] == store'[k])
    ensures Breaks(H, rows', store', n) == Breaks(H, rows, store, n)
  {
    if n > 0 {
      SameVerdicts(H, rows, store, rows', store', n - 1);
      assert ExpectedPrev(H, rows', n - 1) == ExpectedPrev(H, rows, n - 1);
    }
  }

  // A verdict depends on the row and the hash before it only.
  lemma SameVerdict(H: Hash, log: Log, j: nat, rows': seq<Row>, k: nat)
    requires Honest(H, log) && j < |log.rows| && k < |rows'|
    requires rows'[k] == log.rows[j] && ExpectedPrev(H, rows', k) == ExpectedPrev(H, log.rows, j)
    ensures ReasonAt(H, rows', log.store, k).None?
  {
    assert LinkedAt(H, log.rows, j);
  }

  // Exactly the rows at the given positions are broken.
  predicate BrokenAt(H: Hash, rows: seq<Row>, store: map<string, string>, bad: set<int>) {
    && (forall j | 0 <= j < |rows| :: ReasonAt(H, rows, store, j).Some? <==> j in bad)
    && (forall j | j in bad :: 0 <= j < |rows|)
  }

  lemma BrokenIdsAre(H: Hash, rows: seq<Row>, store: map<string, string>, bad: set<int>)
    requires BrokenAt(H, rows, store, bad)
    ensures forall i | bad == {i} :: BrokenIds(H, rows, store, |rows|) == {rows[i].id}
    ensures forall i | bad == {i, i + 1} :: BrokenIds(H, rows, store, |rows|) == {rows[i].id, rows[i + 1].id}
  {
    hide HashedText, FullText;
    assert BrokenIds(H, rows, store, |rows|) == set j | j in bad :: rows[j].id;
  }

  // The verdict on an edited row whose object was left alone.
  lemma EditedVerdict(H: Hash, log: Log, i: nat, r: Row)
    requires Honest(H, log) && i < |log.rows| && IsDict(r.payload) && !SameColumns(r, log.rows[i])
    ensures r.entryHash == log.rows[i].entryHash && !CollisionAt(H, r, log.rows[i]) ==>
              ReasonAt(H, log.rows[i := r], log.store, i) == Some(HashMismatch)
    ensures r.objectKey == log.rows[i].objectKey ==> ReasonAt(H, log.rows[i := r], log.store, i).Some?
    ensures HashMatches(H, r) && r.entryHash == log.rows[i].entryHash ==> CollisionAt(H, r, log.rows[i])
  {
    TextsIdentify(r, log.rows[i]);
    assert LinkedAt(H, log.rows, i);
  }

  // Editing hashed columns of one row and leaving its hash alone.
  lemma EditReported(H: Hash, log: Log, i: nat, r: Row)
    requires Honest(H, log) && i < |log.rows| && IsDict(r.payload)
    requires r.id == log.rows[i].id && r.entryHash == log.rows[i].entryHash && !SameColumns(r, log.rows[i])
    ensures BrokenIds(H, log.rows[i := r], log.store, |log.rows|) == {r.id} || CollisionAt(H, r, log.rows[i])
  {
    hide HashedText, FullText;
    var rows' := log.rows[i := r];
    EditedVerdict(H, log, i, r);
    if !CollisionAt(H, r, log.rows[i]) {
      forall j | 0 <= j < |rows'| && j != i ensures ReasonAt(H, rows', log.store, j).None? {
        SameVerdict(H, log, j, rows', j);
      }
      BrokenIdsAre(H, rows', log.store, {i});
    }
  }

  // The verdict on the row after an edited and rehashed one.
  lemma NextVerdict(H: Hash, log: Log, i: nat, r: Row)
    requires Honest(H, log) && i + 1 < |log.rows| && r.entryHash != log.rows[i].entryHash
    ensures ReasonAt(H, log.rows[i := r], log.store, i + 1) == Some(LinkMismatch)
  {
    hide HashedText, FullText;
    assert LinkedAt(H, log.rows, i + 1);
  }

  lemma EditSparesOthers(H: Hash, log: Log, i: nat, r: Row, j: nat)
    requires Honest(H, log) && i < |log.rows| && j < |log.rows| && j != i && j != i + 1
    ensures ReasonAt(H, log.rows[i := r], log.store, j).None?
  {
    hide HashedText, FullText, Honest, ReasonAt;
    SameVerdict(H, log, j, log.rows[i := r], j);
  }

  lemma RehashedEditBreaks(H: Hash, log: Log, i: nat, r: Row)
    requires Honest(H, log) && i < |log.rows| && IsDict(r.payload)
    requires r.objectKey == log.rows[i].objectKey && HashMatches(H, r) && !SameColumns(r, log.rows[i])
    requires !CollisionAt(H, r, log.rows[i])
    ensures BrokenAt(H, log.rows[i := r], log.store, if i + 1 < |log.rows| then {i, i + 1} else {i})
  {
    hide HashedText, FullText, Honest, ReasonAt;
    var rows' := log.rows[i := r];
    EditedVerdict(H, log, i, r);
    forall j | 0 <= j < |rows'| && j != i && j != i + 1 ensures ReasonAt(H, rows', log.store, j).None? {
      EditSparesOthers(H, log, i, r, j);
    }
    if i + 1 < |log.rows| { NextVerdict(H, log, i, r); }
  }

  // Editing hashed columns of one row and recomputing its hash.
  lemma RehashedEditReported(H: Hash, log: Log, i: nat, r: Row)
    requires Honest(H, log) && i < |log.rows| && IsDict(r.payload)
    requires r.id == log.rows[i].id && r.objectKey == log.rows[i].objectKey
    requires HashMatches(H, r) && !SameColumns(r, log.rows[i])
    ensures || BrokenIds(H, log.rows[i := r], log.store, |log.rows|) ==
               (if i + 1 < |log.rows| then {r.id, log.rows[i + 1].id} else {r.id})
            || CollisionAt(H, r, log.rows[i])
  {
    hide HashedText, FullText, Honest, HashMatches, SameColumns;
    if !CollisionAt(H, r, log.rows[i]) {
      RehashedEditBreaks(H, log, i, r);
      BrokenIdsAre(H, log.rows[i := r], log.store, if i + 1 < |log.rows| then {i, i + 1} else {i});
    }
  }

  lemma DeletionSparesOthers(H: Hash, log: Log, i: nat, j: nat)
    requires Honest(H, log) && i + 1 < |log.rows| && j < |log.rows| - 1 && j != i
    ensures ReasonAt(H, log.rows[..i] + log.rows[i + 1..], log.store, j).None?
  {
    hide HashedText, FullText, Honest, ReasonAt;
    SameVerdict(H, log, if j < i then j else j + 1, log.rows[..i] + log.rows[i + 1..], j);
  }

  lemma DeletionBreaks(H: Hash, log: Log, i: nat)
    requires Honest(H, log) && i + 1 < |log.rows| && !GenesisHash(H, log.rows)
    ensures BrokenAt(H, log.rows[..i] + log.rows[i + 1..], log.store, {i})
  {
    hide HashedText, FullText;
    var rows, rows' := log.rows, log.rows[..i] + log.rows[i + 1..];
    assert ReasonAt(H, rows', log.store, i) == Some(LinkMismatch) by {
      assert LinkedAt(H, rows, i + 1);
      assert rows'[i] == rows[i + 1] && ExpectedPrev(H, rows', i) == ExpectedPrev(H, rows, i);
    }
    hide ReasonAt, Honest;
    forall j | 0 <= j < |rows'| && j != i ensures ReasonAt(H, rows', log.store, j).None? {
      DeletionSparesOthers(H, log, i, j);
    }
  }

  // Deleting a row that is not the last. (Deleting the last one leaves a prefix, which is clean.)
  lemma DeletionReported(H: Hash, log: Log, i: nat)
    requires Honest(H, log) && i + 1 < |log.rows| && !GenesisHash(H, log.rows)
    ensures var rows' := log.rows[..i] + log.rows[i + 1..];
            BrokenIds(H, rows', log.store, |rows'|) == {log.rows[i + 1].id}
  {
    hide HashedText, FullText, Honest, GenesisHash;
    DeletionBreaks(H, log, i);
    BrokenIdsAre(H, log.rows[..i] + log.rows[i + 1..], log.store, {i});
  }
}
