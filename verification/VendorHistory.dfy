/**
 Vendor history: a summary row per vendor beside an itemized row per payment,
 looked up by a normalized name. A service call normalizes with Python's strip and
 lower, the stored names are normalized by SQL, which trims spaces only. Amounts
 are in whole cents.
 */
module VendorHistory {
  import opened Common

  datatype Vendor = Vendor(name: string, total: int, count: int)
  datatype Payment = Payment(vendor: nat, award: string, amount: int)

  // The id of a vendor is its position.
  datatype Books = Books(vendors: seq<Vendor>, history: seq<Payment>)

  datatype Call = Call(name: string, amount: int, key: string)
  datatype Outcome = Recorded(vendor: nat, created: bool) | SeveralVendors | DuplicateAward

  datatype Lookup = Unknown | Known(awardCount: int) | LookupFails

  // -------------------------------------------------------------- normalization

  predicate IsPythonSpace(c: char) {
    var n := c as int;
    || 9 <= n <= 13 || 28 <= n <= 32 || n == 0x85 || n == 0xA0 || n == 0x1680 || 0x2000 <= n <= 0x200A
    || n == 0x2028 || n == 0x2029 || n == 0x202F || n == 0x205F || n == 0x3000
  }

  predicate IsSpace(c: char) { c == ' ' }

  function StripBy(s: string, drop: char -> bool): (r: string)
    ensures r == "" || (!drop(r[0]) && !drop(r[|r| - 1]))
    decreases |s|
  {
    if s == "" then s
    else if drop(s[0]) then StripBy(s[1..], drop)
    else if drop(s[|s| - 1]) then StripBy(s[..|s| - 1], drop)
    else s
  }

  function Strip(s: string): string { StripBy(s, IsPythonSpace) }

  function LowerChar(c: char): char {
    if 'A' <= c <= 'Z' then c - 'A' + 'a' else c
  }

  function Lower(s: string): string { seq(|s|, i requires 0 <= i < |s| => LowerChar(s[i])) }

  // What a caller's name is compared as, and what a stored name is compared as.
  function Asked(name: string): string { Lower(Strip(name)) }

  function Stored(name: string): string { Lower(StripBy(name, IsSpace)) }

  // A name stored by the service is found again under every spelling it came from.
  lemma StoredAsAsked(name: string)
    ensures Stored(Strip(name)) == Asked(name)
  {
    var s := Strip(name);
    assert s == "" || (!IsPythonSpace(s[0]) && !IsPythonSpace(s[|s| - 1]));
    assert StripBy(s, IsSpace) == s;
  }

  // Two characters are one letter in either case, or the same.
  predicate SameLetter(a: char, b: char) {
    || a == b
    || ('A' <= a <= 'Z' && b as int == a as int + 32)
    || ('A' <= b <= 'Z' && a as int == b as int + 32)
  }

  // Lower-casing forgets the case of letters and nothing else.
  lemma LowerForgetsCase(a: string, b: string)
    ensures Lower(a) == Lower(b) <==> |a| == |b| && forall i | 0 <= i < |a| :: SameLetter(a[i], b[i])
  {
    assert forall x: char, y: char :: LowerChar(x) == LowerChar(y) <==> SameLetter(x, y);
    if Lower(a) == Lower(b) {
      assert |a| == |Lower(a)| == |b|;
      forall i | 0 <= i < |a| ensures SameLetter(a[i], b[i]) {
        assert Lower(a)[i] == Lower(b)[i];
      }
    }
  }

  predicate Blank(s: string) { forall i | 0 <= i < |s| :: IsPythonSpace(s[i]) }

  lemma {:induction false} BlankIsStripped(s: string)
    requires Blank(s)
    ensures Strip(s) == ""
  {
    if s != "" { BlankIsStripped(s[1..]); }
  }

  lemma {:induction false} StripForgetsBlanks(before: string, s: string, after: string)
    requires Blank(before) && Blank(after)
    requires s != "" && !IsPythonSpace(s[0]) && !IsPythonSpace(s[|s| - 1])
    ensures Strip(before + s + after) == s
    decreases |before| + |after|
  {
    var all := before + s + after;
    if before != "" {
      assert all[1..] == before[1..] + s + after;
      StripForgetsBlanks(before[1..], s, after);
    } else if after != "" {
      assert all == s + after && all[0] == s[0];
      assert all[|all| - 1] == after[|after| - 1];
      assert all[..|all| - 1] == "" + s + after[..|after| - 1];
      StripForgetsBlanks("", s, after[..|after| - 1]);
    } else {
      assert all == s;
    }
  }

  // A name that begins and ends in print is asked for the same with any blanks
  // around it, spaces, tabs and line ends among them, and in any case.
  lemma AskedForgetsCaseAndBlanks(before: string, s: string, after: string, t: string)
    requires forall c | c in before + after :: c in [' ', '\t', '\n', '\r']
    requires s != "" && 0x21 <= s[0] as int <= 0x7e && 0x21 <= s[|s| - 1] as int <= 0x7e
    requires |t| == |s| && forall i | 0 <= i < |s| :: SameLetter(s[i], t[i])
    ensures Asked(before + t + after) == Asked(s) == Stored(s)
  {
    forall i | 0 <= i < |before| ensures IsPythonSpace(before[i]) { assert before[i] in before + after; }
    forall i | 0 <= i < |after| ensures IsPythonSpace(after[i]) { assert after[i] in before + after; }
    assert SameLetter(s[0], t[0]) && SameLetter(s[|s| - 1], t[|t| - 1]);
    StripForgetsBlanks(before, t, after);
    StripForgetsBlanks("", s, "");
    assert "" + s + "" == s;
    LowerForgetsCase(s, t);
    StoredAsAsked(s);
  }

  lemma {:induction false} StripByKeepsFirst(s: string, drop: char -> bool)
    requires s != "" && !drop(s[0])
    ensures StripBy(s, drop) != "" && StripBy(s, drop)[0] == s[0]
    decreases |s|
  {
    if |s| > 1 && drop(s[|s| - 1]) { StripByKeepsFirst(s[..|s| - 1], drop); }
  }

  // The two normalizations are not the same: a vendor stored with a tab, a line
  // end or any blank but a space in front is found under no name at all.
  lemma BlankInFrontHidesVendor(stored: string, asked: string)
    requires stored != "" && stored[0] != ' ' && IsPythonSpace(stored[0])
    ensures Stored(stored) != Asked(asked)
  {
    StripByKeepsFirst(stored, IsSpace);
    assert Stored(stored)[0] == stored[0];
    var s := Strip(asked);
    if s != "" {
      assert !IsPythonSpace(s[0]) && Asked(asked)[0] == LowerChar(s[0]);
    }
  }

  // ------------------------------------------------------------ lookup and record

  datatype Found = Nobody | One(vendor: nat) | Several

  // The vendors among the first n with this normalized name.
  function Find(vendors: seq<Vendor>, name: string, n: nat): (f: Found)
    requires n <= |vendors|
    ensures f.One? ==> f.vendor < n
  {
    if n == 0 then Nobody
    else
      var earlier := Find(vendors, name, n - 1);
      if Stored(vendors[n - 1].name) != name then earlier
      else if earlier.Nobody? then One(n - 1)
      else Several
  }

  function LookedUp(b: Books, name: string): Lookup {
    match Find(b.vendors, Asked(name), |b.vendors|)
    case Nobody => Unknown
    case One(i) => Known(b.vendors[i].count)
    case Several => LookupFails
  }

  predicate AwardUsed(history: seq<Payment>, award: string) {
    exists i | 0 <= i < |history| :: history[i].award == award
  }

  function AwardId(key: string): string { "verisettle-" + key }

  // The whole request is one database transaction: if the award id is taken,
  // the change to the summary row is undone with it.
  function Record(b: Books, c: Call): (Books, Outcome) {
    var found := Find(b.vendors, Asked(c.name), |b.vendors|);
    if found.Several? then (b, SeveralVendors)
    else if AwardUsed(b.history, AwardId(c.key)) then (b, DuplicateAward)
    else if found.One? then
      var v := b.vendors[found.vendor];
      (Books(b.vendors[found.vendor := Vendor(v.name, v.total + c.amount, v.count + 1)],
             b.history + [Payment(found.vendor, AwardId(c.key), c.amount)]),
       Recorded(found.vendor, false))
    else
      (Books(b.vendors + [Vendor(Strip(c.name), c.amount, 1)],
             b.history + [Payment(|b.vendors|, AwardId(c.key), c.amount)]),
       Recorded(|b.vendors|, true))
  }

  function RecordAll(b: Books, calls: seq<Call>): Books {
    if calls == [] then b else Record(RecordAll(b, calls[..|calls| - 1]), calls[|calls| - 1]).0
  }

  lemma {:induction false} FindIsSound(vendors: seq<Vendor>, name: string, n: nat)
    requires n <= |vendors|
    ensures var f := Find(vendors, name, n);
            && (f.Nobody? <==> forall i | 0 <= i < n :: Stored(vendors[i].name) != name)
            && (f.One? ==> f.vendor < n && Stored(vendors[f.vendor].name) == name)
            && (f.Several? ==> exists i, j :: 0 <= i < j < n && Stored(vendors[i].name) == name == Stored(vendors[j].name))
  {
    hide Stored;
    if n > 0 { FindIsSound(vendors, name, n - 1); }
  }

  class VendorBook {
    var vendors: seq<Vendor>
    var history: seq<Payment>

    ghost function Contents(): Books
      reads this
    {
      Books(vendors, history)
    }

    constructor (b: Books)
      ensures Contents() == b
    {
      vendors, history := b.vendors, b.history;
    }

    method LookupVendor(name: string) returns (r: Lookup)
      ensures r == LookedUp(Contents(), name)
    {
      var found := Find(vendors, Asked(name), |vendors|);
      FindIsSound(vendors, Asked(name), |vendors|);
      match found
      case Nobody => r := Unknown;
      case One(i) => r := Known(vendors[i].count);
      case Several => r := LookupFails;
    }

    method RecordVendorPayment(c: Call) returns (r: Outcome)
      modifies this
      ensures (Contents(), r) == Record(old(Contents()), c)
    {
      var found := Find(vendors, Asked(c.name), |vendors|);
      FindIsSound(vendors, Asked(c.name), |vendors|);
      if found.Several? {
        return SeveralVendors;
      }
      var before := vendors;
      var i: nat;
      if found.Nobody? {
        i := |vendors|;
        vendors := vendors + [Vendor(Strip(c.name), c.amount, 1)];
        r := Recorded(i, true);
      } else {
        i := found.vendor;
        vendors := vendors[i := vendors[i].(total := vendors[i].total + c.amount, count := vendors[i].count + 1)];
        r := Recorded(i, false);
      }
      if exists k | 0 <= k < |history| :: history[k].award == AwardId(c.key) {
        vendors := before;
        return DuplicateAward;
      }
      history := history + [Payment(i, AwardId(c.key), c.amount)];
    }
  }

  // ----------------------------------------------------------- summary and items

  function HistoryTotal(history: seq<Payment>, vendor: nat): int {
    if history == [] then 0
    else
      var last := history[|history| - 1];
      HistoryTotal(history[..|history| - 1], vendor) + if last.vendor == vendor then last.amount else 0
  }

  function HistoryCount(history: seq<Payment>, vendor: nat): nat {
    if history == [] then 0
    else HistoryCount(history[..|history| - 1], vendor) + if history[|history| - 1].vendor == vendor then 1 else 0
  }

  predicate Summarized(b: Books, i: nat)
    requires i < |b.vendors|
  {
    b.vendors[i].total == HistoryTotal(b.history, i) && b.vendors[i].count == HistoryCount(b.history, i)
  }

  predicate NamesDiffer(vendors: seq<Vendor>) {
    forall i, j | 0 <= i < j < |vendors| :: Stored(vendors[i].name) != Stored(vendors[j].name)
  }

  predicate AwardsDiffer(history: seq<Payment>) {
    forall i, j | 0 <= i < j < |history| :: history[i].award != history[j].award
  }

  predicate Consistent(b: Books) {
    && (forall i | 0 <= i < |b.vendors| :: Summarized(b, i))
    && (forall k | 0 <= k < |b.history| :: b.history[k].vendor < |b.vendors|)
    && NamesDiffer(b.vendors) && AwardsDiffer(b.history)
  }

  lemma HistoryStep(history: seq<Payment>, p: Payment, vendor: nat)
    ensures HistoryTotal(history + [p], vendor) == HistoryTotal(history, vendor) + if p.vendor == vendor then p.amount else 0
    ensures HistoryCount(history + [p], vendor) == HistoryCount(history, vendor) + if p.vendor == vendor then 1 else 0
  {
    assert (history + [p])[..|history|] == history;
  }

  lemma {:induction false} NoHistory(history: seq<Payment>, vendor: nat)
    requires forall k | 0 <= k < |history| :: history[k].vendor < vendor
    ensures HistoryTotal(history, vendor) == 0 && HistoryCount(history, vendor) == 0
  {
    if history != [] { NoHistory(history[..|history| - 1], vendor); }
  }

  lemma RecordKeepsSummaries(b: Books, c: Call)
    requires Consistent(b)
    ensures var b' := Record(b, c).0; forall i | 0 <= i < |b'.vendors| :: Summarized(b', i)
  {
    hide Asked, Stored, AwardId, Strip;
    var (b', r) := Record(b, c);
    if r.Recorded? {
      NoHistory(b.history, |b.vendors|);
      forall i | 0 <= i < |b'.vendors| ensures Summarized(b', i) {
        HistoryStep(b.history, b'.history[|b.history|], i);
        if i < |b.vendors| { assert Summarized(b, i); }
      }
    }
  }

  lemma RecordKeepsNames(b: Books, c: Call)
    requires Consistent(b)
    ensures NamesDiffer(Record(b, c).0.vendors)
  {
    hide Asked, Stored, AwardId, Strip;
    FindIsSound(b.vendors, Asked(c.name), |b.vendors|);
    StoredAsAsked(c.name);
  }

  // One call keeps the books consistent, accepted or not.
  lemma RecordKeepsConsistent(b: Books, c: Call)
    requires Consistent(b)
    ensures Consistent(Record(b, c).0)
  {
    hide Asked, Stored, AwardId, Strip, Summarized, NamesDiffer;
    RecordKeepsSummaries(b, c);
    RecordKeepsNames(b, c);
  }

  // Some vendor has the name asked for.
  predicate Listed(b: Books, name: string) {
    exists i | 0 <= i < |b.vendors| :: Stored(b.vendors[i].name) == Asked(name)
  }

  // In consistent books the lookup always answers, says "known" exactly when some
  // vendor has that normalized name, and the count it gives is the number of items.
  lemma LookupTellsTheTruth(b: Books, name: string)
    requires Consistent(b)
    ensures !LookedUp(b, name).LookupFails?
    ensures LookedUp(b, name).Known? <==> Listed(b, name)
    ensures forall i | 0 <= i < |b.vendors| && Stored(b.vendors[i].name) == Asked(name) ::
              LookedUp(b, name) == Known(HistoryCount(b.history, i))
  {
    hide Asked, Stored;
    FindIsSound(b.vendors, Asked(name), |b.vendors|);
    forall i | 0 <= i < |b.vendors| && Stored(b.vendors[i].name) == Asked(name)
      ensures LookedUp(b, name) == Known(HistoryCount(b.history, i))
    {
      assert Summarized(b, i);
    }
  }

  // A call is refused only for an award id already recorded; an accepted one makes
  // its vendor known, and nothing ever makes a vendor unknown again.
  lemma RecordMakesKnown(b: Books, c: Call, name: string)
    requires Consistent(b)
    ensures Record(b, c).1.Recorded? <==> !AwardUsed(b.history, AwardId(c.key))
    ensures Record(b, c).1.Recorded? ==> Listed(Record(b, c).0, c.name)
    ensures Listed(b, name) ==> Listed(Record(b, c).0, name)
  {
    hide Asked, Stored, AwardId, Strip;
    var (b', r) := Record(b, c);
    FindIsSound(b.vendors, Asked(c.name), |b.vendors|);
    StoredAsAsked(c.name);
    if r.Recorded? {
      assert Stored(b'.vendors[r.vendor].name) == Asked(c.name);
    }
    if Listed(b, name) {
      var i :| 0 <= i < |b.vendors| && Stored(b.vendors[i].name) == Asked(name);
      assert b'.vendors[i].name == b.vendors[i].name;
    }
  }

  // From consistent books, any sequence of calls leaves consistent books, adds
  // items only, and forgets no vendor.
  lemma {:induction false} AnyRunStaysConsistent(b: Books, calls: seq<Call>, name: string)
    requires Consistent(b)
    ensures var b' := RecordAll(b, calls);
            && Consistent(b') && b.history <= b'.history
            && (Listed(b, name) ==> Listed(b', name))
            && (LookedUp(b', name).Known? <==> Listed(b', name))
  {
    hide Consistent, LookedUp, Listed, AwardId;
    if calls != [] {
      var init, last := calls[..|calls| - 1], calls[|calls| - 1];
      AnyRunStaysConsistent(b, init, name);
      RecordKeepsConsistent(RecordAll(b, init), last);
      RecordMakesKnown(RecordAll(b, init), last, name);
    }
    LookupTellsTheTruth(RecordAll(b, calls), name);
  }

  // An accepted call adds one item, which belongs to a vendor stored under the name
  // asked for; the outcome names that vendor, its summary row alone moves, by the
  // amount and by one, and only a name that nobody had makes a new row.
  lemma RecordCreditsVendorAsked(b: Books, c: Call)
    ensures var (b', r) := Record(b, c);
            if r.Recorded? then
              var v := r.vendor;
              && v < |b'.vendors| && Stored(b'.vendors[v].name) == Asked(c.name)
              && b'.history == b.history + [Payment(v, "verisettle-" + c.key, c.amount)]
              && |b'.vendors| == |b.vendors| + (if r.created then 1 else 0)
              && (forall i | 0 <= i < |b.vendors| && i != v :: b'.vendors[i] == b.vendors[i])
              && (r.created <==> !Listed(b, c.name))
              && (if r.created then v == |b.vendors| && b'.vendors[v] == Vendor(Strip(c.name), c.amount, 1)
                  else v < |b.vendors| &&
                       b'.vendors[v] == Vendor(b.vendors[v].name, b.vendors[v].total + c.amount, b.vendors[v].count + 1))
            else b' == b
  {
    hide Asked, Stored, Strip;
    FindIsSound(b.vendors, Asked(c.name), |b.vendors|);
    StoredAsAsked(c.name);
  }

  // A repeated key changes nothing, whatever else the call says.
  lemma RepeatIsRejected(b: Books, c: Call, again: Call)
    requires Consistent(b) && again.key == c.key
    ensures var b' := Record(b, c).0;
            Record(b', again) == (b', DuplicateAward)
  {
    hide Asked, Stored, Strip;
    var (b', r) := Record(b, c);
    RecordKeepsConsistent(b, c);
    RecordMakesKnown(b, c, c.name);
    LookupTellsTheTruth(b', again.name);
    if r.Recorded? {
      assert b'.history[|b.history|].award == AwardId(c.key);
    }
  }
}
