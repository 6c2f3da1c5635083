/**
 The canonical text of a JSON value: keys sorted by code point, no spaces, and
 every character outside printable ASCII escaped. An object keeps its fields in
 insertion order, as a Python dict does. Each writer puts out its text in front
 of a given rest.
 */
module CanonicalJson {

  datatype Json = Null | Bool(b: bool) | Int(n: int) | Str(s: string) | Arr(items: seq<Json>) | Obj(fields: seq<Field>)
  datatype Field = Field(name: string, value: Json)

  // ------------------------------------------------------------------ the text

  function Digit(d: nat): char
    requires d < 10
  {
    ('0' as int + d) as char
  }

  function Digits(n: nat, rest: string): string
    decreases n
  {
    if n < 10 then [Digit(n)] + rest else Digits(n / 10, [Digit(n % 10)] + rest)
  }

  function IntText(n: int, rest: string): string {
    if n < 0 then ['-'] + Digits(-n, rest) else Digits(n, rest)
  }

  function HexDigit(d: nat): char
    requires d < 16
  {
    if d < 10 then Digit(d) else ('a' as int + d - 10) as char
  }

  // One UTF-16 code unit.
  function Unit(u: nat, rest: string): string
    requires u < 0x1_0000
  {
    ['\\', 'u', HexDigit(u / 16 / 16 / 16), HexDigit(u / 16 / 16 % 16), HexDigit(u / 16 % 16), HexDigit(u % 16)] + rest
  }

  // The letter after the backslash in an escape.
  function EscapeLetter(c: char): char {
    match c as int
    case 0x22 => '"'
    case 0x5c => '\\'
    case 0x0a => 'n'
    case 0x0d => 'r'
    case 0x09 => 't'
    case 0x08 => 'b'
    case 0x0c => 'f'
    case _ => 'u'
  }

  function Escape(c: char, rest: string): string {
    var n := c as int;
    if EscapeLetter(c) != 'u' then ['\\', EscapeLetter(c)] + rest
    else if 0x20 <= n <= 0x7e then [c] + rest
    else if n < 0x1_0000 then Unit(n, rest)
    else Unit(0xd800 + (n - 0x1_0000) / 1024, Unit(0xdc00 + (n - 0x1_0000) % 1024, rest))
  }

  function Escaped(s: string, rest: string): string {
    if s == [] then rest else Escape(s[0], Escaped(s[1..], rest))
  }

  function Quoted(s: string, rest: string): string {
    ['"'] + Escaped(s, ['"'] + rest)
  }

  function Comma(i: nat, rest: string): string {
    if i > 0 then [','] + rest else rest
  }

  function Text(v: Json, rest: string): string
    decreases v, 0
  {
    match v
    case Null => "null" + rest
    case Bool(b) => (if b then "true" else "false") + rest
    case Int(n) => IntText(n, rest)
    case Str(s) => Quoted(s, rest)
    case Arr(items) => ['['] + Items(items, 0, [']'] + rest)
    case Obj(fields) => ['{'] + Fields(fields, 0, ['}'] + rest)
  }

  // The array members from index i on.
  function Items(items: seq<Json>, i: nat, rest: string): string
    requires i <= |items|
    decreases items, |items| - i
  {
    if i == |items| then rest else Comma(i, Text(items[i], Items(items, i + 1, rest)))
  }

  // The object members from index i on, in key order.
  function Fields(fields: seq<Field>, i: nat, rest: string): string
    requires i <= |fields|
    decreases fields, |fields| - i
  {
    if i == |fields| then rest
    else
      var f := Sorted(fields)[i];
      assert f in fields;
      Comma(i, Quoted(f.name, [':'] + Text(f.value, Fields(fields, i + 1, rest))))
  }

  function Canonical(v: Json): string { Text(v, "") }

  predicate Less(a: string, b: string) {
    b != [] && (a == [] || a[0] < b[0] || (a[0] == b[0] && Less(a[1..], b[1..])))
  }

  function Insert(f: Field, sorted: seq<Field>): (r: seq<Field>)
    ensures |r| == |sorted| + 1
    ensures forall g :: g in r <==> g == f || g in sorted
  {
    if sorted == [] || Less(f.name, sorted[0].name) then [f] + sorted
    else
      assert sorted == [sorted[0]] + sorted[1..];
      [sorted[0]] + Insert(f, sorted[1..])
  }

  function Sorted(fields: seq<Field>): (r: seq<Field>)
    ensures |r| == |fields|
    ensures forall i | 0 <= i < |r| :: r[i] in fields
  {
    if fields == [] then []
    else
      assert fields == fields[..|fields| - 1] + [fields[|fields| - 1]];
      var r := Insert(fields[|fields| - 1], Sorted(fields[..|fields| - 1]));
      assert forall i | 0 <= i < |r| :: r[i] in r;
      r
  }

  // --------------------------------------------------------------- the meaning

  // A JSON value up to the order of keys.
  datatype Value = NullValue | BoolValue(b: bool) | IntValue(n: int) | StrValue(s: string)
                 | ArrValue(items: seq<Value>) | ObjValue(fields: map<string, Value>)

  function Meaning(v: Json): Value {
    match v
    case Null => NullValue
    case Bool(b) => BoolValue(b)
    case Int(n) => IntValue(n)
    case Str(s) => StrValue(s)
    case Arr(items) => ArrValue(seq(|items|, i requires 0 <= i < |items| => Meaning(items[i])))
    case Obj(fields) => ObjValue(FieldMap(fields))
  }

  function FieldMap(fields: seq<Field>): map<string, Value> {
    if fields == [] then map[]
    else FieldMap(fields[..|fields| - 1])[fields[|fields| - 1].name := Meaning(fields[|fields| - 1].value)]
  }

  predicate DistinctNames(fields: seq<Field>) {
    forall i, j | 0 <= i < j < |fields| :: fields[i].name != fields[j].name
  }

  // No object has two fields of the same name, as no dict has.
  predicate IsDict(v: Json) {
    match v
    case Arr(items) => forall i | 0 <= i < |items| :: IsDict(items[i])
    case Obj(fields) => DistinctNames(fields) && forall f | f in fields :: IsDict(f.value)
    case _ => true
  }

  // ------------------------------------------------------- reading strings back

  lemma Cancel(p: string, r: string, s: string)
    requires p + r == p + s
    ensures r == s
  {
    assert (p + r)[|p|..] == r && (p + s)[|p|..] == s;
  }

  lemma HexDigitInjective(a: nat, b: nat)
    requires a < 16 && b < 16 && HexDigit(a) == HexDigit(b)
    ensures a == b
  {
  }

  lemma DivModInjective(n: nat, m: nat, d: nat)
    requires d > 0 && n / d == m / d && n % d == m % d
    ensures n == m
  {
    assert n == n / d * d + n % d && m == m / d * d + m % d;
  }

  lemma UnitSplits(u: nat, v: nat, r: string, s: string)
    requires u < 0x1_0000 && v < 0x1_0000
    requires Unit(u, r) == Unit(v, s)
    ensures u == v && r == s
  {
    var x, y := Unit(u, r), Unit(v, s);
    assert x[2] == y[2] && x[3] == y[3] && x[4] == y[4] && x[5] == y[5];
    assert x[6..] == r && y[6..] == s;
    HexDigitInjective(u / 16 / 16 / 16, v / 16 / 16 / 16);
    HexDigitInjective(u / 16 / 16 % 16, v / 16 / 16 % 16);
    HexDigitInjective(u / 16 % 16, v / 16 % 16);
    HexDigitInjective(u % 16, v % 16);
    DivModInjective(u / 16 / 16, v / 16 / 16, 16);
    DivModInjective(u / 16, v / 16, 16);
    DivModInjective(u, v, 16);
  }

  // How many characters of the text stand for one character of the string.
  function Width(c: char): nat {
    if EscapeLetter(c) != 'u' then 2
    else if 0x20 <= c as int <= 0x7e then 1
    else if c as int < 0x1_0000 then 6 else 12
  }

  // A long escape is one code unit, and for characters past the first plane another.
  function FirstUnit(c: char): (u: nat)
    ensures u < 0x1_0000
  {
    if c as int < 0x1_0000 then c as int else 0xd800 + (c as int - 0x1_0000) / 1024
  }

  function SecondUnit(c: char, rest: string): string {
    if c as int < 0x1_0000 then rest else Unit(0xdc00 + (c as int - 0x1_0000) % 1024, rest)
  }

  lemma SecondUnitSplits(c: char, d: char, r: string, s: string)
    requires FirstUnit(c) == FirstUnit(d) && SecondUnit(c, r) == SecondUnit(d, s)
    ensures c == d && r == s
  {
    if c as int >= 0x1_0000 {
      var n, m := c as int - 0x1_0000, d as int - 0x1_0000;
      UnitSplits(0xdc00 + n % 1024, 0xdc00 + m % 1024, r, s);
      DivModInjective(n, m, 1024);
    }
  }

  lemma LongEscapeSplits(c: char, d: char, r: string, s: string)
    requires Width(c) >= 6 && Width(d) >= 6
    requires Escape(c, r) == Escape(d, s)
    ensures c == d && r == s
  {
    assert Escape(c, r) == Unit(FirstUnit(c), SecondUnit(c, r));
    assert Escape(d, s) == Unit(FirstUnit(d), SecondUnit(d, s));
    UnitSplits(FirstUnit(c), FirstUnit(d), SecondUnit(c, r), SecondUnit(d, s));
    SecondUnitSplits(c, d, r, s);
  }

  lemma EscapeSplits(c: char, d: char, r: string, s: string)
    requires Escape(c, r) == Escape(d, s)
    ensures c == d && r == s
  {
    var x, y := Escape(c, r), Escape(d, s);
    assert x[0] == y[0];
    if Width(c) == 1 {
      Cancel([c], r, s);
    } else {
      assert x[1] == y[1];
      if Width(c) == 2 { Cancel(['\\', EscapeLetter(c)], r, s); } else { LongEscapeSplits(c, d, r, s); }
    }
  }

  lemma {:induction false} EscapedSplits(a: string, b: string, r: string, s: string)
    requires Escaped(a, ['"'] + r) == Escaped(b, ['"'] + s)
    ensures a == b && r == s
  {
    var x, y := Escaped(a, ['"'] + r), Escaped(b, ['"'] + s);
    assert x[0] == y[0];
    assert x[0] == '"' <==> a == [];
    assert y[0] == '"' <==> b == [];
    if a == [] {
      Cancel(['"'], r, s);
    } else {
      EscapeSplits(a[0], b[0], Escaped(a[1..], ['"'] + r), Escaped(b[1..], ['"'] + s));
      EscapedSplits(a[1..], b[1..], r, s);
      assert a == [a[0]] + a[1..] && b == [b[0]] + b[1..];
    }
  }

  lemma QuotedSplits(a: string, b: string, r: string, s: string)
    requires Quoted(a, r) == Quoted(b, s)
    ensures a == b && r == s
  {
    Cancel(['"'], Escaped(a, ['"'] + r), Escaped(b, ['"'] + s));
    EscapedSplits(a, b, r, s);
  }

  // ------------------------------------------------------- reading numbers back

  predicate IsDigit(c: char) { '0' <= c <= '9' }

  // What may follow a value inside an array or an object, or at the end.
  predicate Closed(r: string) {
    r == [] || r[0] in {',', ']', '}'}
  }

  function LeadingDigits(x: string): nat {
    if x == [] || !IsDigit(x[0]) then 0 else 1 + LeadingDigits(x[1..])
  }

  function DigitCount(n: nat): nat { if n < 10 then 1 else DigitCount(n / 10) + 1 }

  lemma {:induction false} DigitsLead(n: nat, r: string)
    ensures LeadingDigits(Digits(n, r)) == DigitCount(n) + LeadingDigits(r)
    decreases n
  {
    var d := Digit(n % 10);
    assert ([d] + r)[1..] == r;
    if n >= 10 { DigitsLead(n / 10, [d] + r); }
  }

  lemma {:induction false} SameWidthDigitsSplit(n: nat, m: nat, r: string, s: string)
    requires DigitCount(n) == DigitCount(m)
    requires Digits(n, r) == Digits(m, s)
    ensures n == m && r == s
    decreases n
  {
    var x, y := [Digit(n % 10)] + r, [Digit(m % 10)] + s;
    if n >= 10 { SameWidthDigitsSplit(n / 10, m / 10, x, y); }
    assert x[0] == y[0] && x[1..] == r && y[1..] == s;
  }

  lemma IntSplits(n: int, m: int, r: string, s: string)
    requires Closed(r) && Closed(s)
    requires IntText(n, r) == IntText(m, s)
    ensures n == m && r == s
  {
    var k, l := if n < 0 then -n else n, if m < 0 then -m else m;
    DigitsLead(k, r);
    DigitsLead(l, s);
    assert IntText(n, r)[0] == '-' <==> n < 0;
    assert IntText(m, s)[0] == '-' <==> m < 0;
    if n < 0 { Cancel(['-'], Digits(k, r), Digits(l, s)); }
    SameWidthDigitsSplit(k, l, r, s);
  }

  // -------------------------------------------------------- reading values back

  // The constructor a text must come from, told from its first character.
  function Kind(v: Json): nat {
    match v case Null => 0 case Bool(_) => 1 case Int(_) => 2 case Str(_) => 3 case Arr(_) => 4 case Obj(_) => 5
  }

  function KindOf(c: char): nat {
    if c == 'n' then 0 else if c == 't' || c == 'f' then 1
    else if c == '-' || IsDigit(c) then 2
    else if c == '"' then 3 else if c == '[' then 4 else if c == '{' then 5 else 6
  }

  lemma TextBegins(v: Json, r: string)
    ensures |Text(v, r)| > 0 && KindOf(Text(v, r)[0]) == Kind(v)
    ensures v.Bool? ==> (Text(v, r)[0] == 't' <==> v.b)
  {
    if v.Int? && v.n >= 0 { DigitsLead(v.n, r); }
  }

  // Where the members end, and what follows a member.
  lemma ItemsContinue(items: seq<Json>, i: nat, r: string)
    requires i <= |items| && r != [] && r[0] == ']'
    ensures Closed(Items(items, i, r)) || i == 0
    ensures Items(items, i, r) != [] && (Items(items, i, r)[0] == ']' <==> i == |items|)
  {
    if i < |items| { TextBegins(items[i], Items(items, i + 1, r)); }
  }

  lemma FieldsContinue(fields: seq<Field>, i: nat, r: string)
    requires i <= |fields| && r != [] && r[0] == '}'
    ensures Closed(Fields(fields, i, r)) || i == 0
    ensures Fields(fields, i, r) != [] && (Fields(fields, i, r)[0] == '}' <==> i == |fields|)
  {
  }

  lemma CommaSplits(i: nat, r: string, s: string)
    requires Comma(i, r) == Comma(i, s)
    ensures r == s
  {
    if i > 0 { Cancel([','], r, s); }
  }

  // The text of a value, followed by what may follow it, determines the value
  // up to key order, and what follows.
  lemma {:induction false} TextSplits(v: Json, w: Json, r: string, s: string)
    requires IsDict(v) && IsDict(w) && Closed(r) && Closed(s)
    requires Text(v, r) == Text(w, s)
    ensures Meaning(v) == Meaning(w) && r == s
    decreases v, 0
  {
    TextBegins(v, r);
    TextBegins(w, s);
    match v
    case Null => Cancel("null", r, s);
    case Bool(b) => Cancel(if b then "true" else "false", r, s);
    case Int(n) => IntSplits(n, w.n, r, s);
    case Str(a) => QuotedSplits(a, w.s, r, s);
    case Arr(items) =>
      Cancel(['['], Items(items, 0, [']'] + r), Items(w.items, 0, [']'] + s));
      ItemsSplit(items, w.items, 0, [']'] + r, [']'] + s);
      Cancel([']'], r, s);
    case Obj(fields) =>
      Cancel(['{'], Fields(fields, 0, ['}'] + r), Fields(w.fields, 0, ['}'] + s));
      FieldsSplit(fields, w.fields, 0, ['}'] + r, ['}'] + s);
      Cancel(['}'], r, s);
      SameFieldsSameMap(fields, w.fields);
  }

  lemma {:induction false} ItemsSplit(items: seq<Json>, others: seq<Json>, i: nat, r: string, s: string)
    requires i <= |items| && i <= |others|
    requires forall j | 0 <= j < |items| :: IsDict(items[j])
    requires forall j | 0 <= j < |others| :: IsDict(others[j])
    requires r != [] && s != [] && r[0] == s[0] == ']'
    requires Items(items, i, r) == Items(others, i, s)
    ensures |items| == |others| && r == s
    ensures forall j | i <= j < |items| :: Meaning(items[j]) == Meaning(others[j])
    decreases items, |items| - i
  {
    ItemsContinue(items, i, r);
    ItemsContinue(others, i, s);
    if i < |items| {
      var x, y := Items(items, i + 1, r), Items(others, i + 1, s);
      ItemsContinue(items, i + 1, r);
      ItemsContinue(others, i + 1, s);
      CommaSplits(i, Text(items[i], x), Text(others[i], y));
      TextSplits(items[i], others[i], x, y);
      ItemsSplit(items, others, i + 1, r, s);
    }
  }

  predicate AllDicts(fields: seq<Field>) {
    DistinctNames(fields) && forall f | f in fields :: IsDict(f.value)
  }

  predicate Counterpart(f: Field, g: Field) {
    f.name == g.name && Meaning(f.value) == Meaning(g.value)
  }

  predicate Aligned(p: seq<Field>, q: seq<Field>, i: nat) {
    |p| == |q| && forall j | i <= j < |p| :: Counterpart(p[j], q[j])
  }

  lemma AlignedOneMore(p: seq<Field>, q: seq<Field>, i: nat)
    requires i < |p| && Aligned(p, q, i + 1) && Counterpart(p[i], q[i])
    ensures Aligned(p, q, i)
  {
  }

  lemma FieldSplits(f: Field, g: Field, i: nat, r: string, s: string)
    requires Comma(i, Quoted(f.name, [':'] + Text(f.value, r))) == Comma(i, Quoted(g.name, [':'] + Text(g.value, s)))
    ensures f.name == g.name && Text(f.value, r) == Text(g.value, s)
  {
    CommaSplits(i, Quoted(f.name, [':'] + Text(f.value, r)), Quoted(g.name, [':'] + Text(g.value, s)));
    QuotedSplits(f.name, g.name, [':'] + Text(f.value, r), [':'] + Text(g.value, s));
    Cancel([':'], Text(f.value, r), Text(g.value, s));
  }

  lemma NextFieldSplits(fields: seq<Field>, others: seq<Field>, i: nat, r: string, s: string)
    requires i <= |fields| && i <= |others|
    requires r != [] && s != [] && r[0] == s[0] == '}'
    requires Fields(fields, i, r) == Fields(others, i, s)
    ensures i == |fields| <==> i == |others|
    ensures i == |fields| ==> r == s
    ensures i < |fields| ==>
              var (f, g, x, y) := (Sorted(fields)[i], Sorted(others)[i], Fields(fields, i + 1, r), Fields(others, i + 1, s));
              f.name == g.name && Text(f.value, x) == Text(g.value, y) && Closed(x) && Closed(y)
  {
    FieldsContinue(fields, i, r);
    FieldsContinue(others, i, s);
    if i < |fields| {
      FieldsContinue(fields, i + 1, r);
      FieldsContinue(others, i + 1, s);
      FieldSplits(Sorted(fields)[i], Sorted(others)[i], i, Fields(fields, i + 1, r), Fields(others, i + 1, s));
    }
  }

  lemma {:induction false} FieldsSplit(fields: seq<Field>, others: seq<Field>, i: nat, r: string, s: string)
    requires i <= |fields| && i <= |others|
    requires AllDicts(fields) && AllDicts(others)
    requires r != [] && s != [] && r[0] == s[0] == '}'
    requires Fields(fields, i, r) == Fields(others, i, s)
    ensures |fields| == |others| && r == s
    ensures Aligned(Sorted(fields), Sorted(others), i)
    decreases fields, |fields| - i
  {
    NextFieldSplits(fields, others, i, r, s);
    if i < |fields| {
      var f, g := Sorted(fields)[i], Sorted(others)[i];
      assert f in fields && g in others;
      TextSplits(f.value, g.value, Fields(fields, i + 1, r), Fields(others, i + 1, s));
      FieldsSplit(fields, others, i + 1, r, s);
      AlignedOneMore(Sorted(fields), Sorted(others), i);
    }
  }

  // ------------------------------------------------------------- fields and maps

  lemma {:induction false} FieldMapHolds(fields: seq<Field>)
    requires DistinctNames(fields)
    ensures forall f | f in fields :: f.name in FieldMap(fields) && FieldMap(fields)[f.name] == Meaning(f.value)
    ensures forall name | name in FieldMap(fields) :: exists f :: f in fields && f.name == name
  {
    if fields != [] {
      var init, last := fields[..|fields| - 1], fields[|fields| - 1];
      FieldMapHolds(init);
      assert fields == init + [last];
    }
  }

  predicate Includes(p: seq<Field>, fields: seq<Field>) {
    forall f | f in fields :: f in p
  }

  // Every field has a counterpart among the others.
  ghost predicate Covers(others: seq<Field>, fields: seq<Field>) {
    forall f | f in fields :: exists g :: g in others && Counterpart(f, g)
  }

  lemma CoveredMap(fields: seq<Field>, others: seq<Field>)
    requires DistinctNames(fields) && DistinctNames(others) && Covers(others, fields)
    ensures forall name | name in FieldMap(fields) :: name in FieldMap(others) && FieldMap(others)[name] == FieldMap(fields)[name]
  {
    FieldMapHolds(fields);
    FieldMapHolds(others);
    forall name | name in FieldMap(fields)
      ensures name in FieldMap(others) && FieldMap(others)[name] == FieldMap(fields)[name]
    {
      var f :| f in fields && f.name == name;
      var g :| g in others && Counterpart(f, g);
    }
  }

  lemma {:induction false} SortedKeepsAll(fields: seq<Field>)
    ensures Includes(Sorted(fields), fields) && Includes(fields, Sorted(fields))
  {
    if fields != [] {
      SortedKeepsAll(fields[..|fields| - 1]);
      assert fields == fields[..|fields| - 1] + [fields[|fields| - 1]];
    }
  }

  lemma CoveredBySorted(fields: seq<Field>, others: seq<Field>, p: seq<Field>, q: seq<Field>)
    requires Aligned(p, q, 0) && Includes(p, fields) && Includes(others, q)
    ensures Covers(others, fields)
  {
    forall f | f in fields ensures exists g :: g in others && Counterpart(f, g) {
      var j :| 0 <= j < |p| && p[j] == f;
      assert q[j] in q && Counterpart(f, q[j]);
    }
  }

  lemma SameFieldsSameMap(fields: seq<Field>, others: seq<Field>)
    requires DistinctNames(fields) && DistinctNames(others)
    requires Aligned(Sorted(fields), Sorted(others), 0)
    ensures FieldMap(fields) == FieldMap(others)
  {
    var p, q := Sorted(fields), Sorted(others);
    SortedKeepsAll(fields);
    SortedKeepsAll(others);
    CoveredBySorted(fields, others, p, q);
    assert Aligned(q, p, 0) by { assert forall j | 0 <= j < |p| :: Counterpart(p[j], q[j]); }
    CoveredBySorted(others, fields, q, p);
    CoveredMap(fields, others);
    CoveredMap(others, fields);
  }

  // ------------------------------------------------------- sorting forgets order

  predicate Before(a: seq<string>) {
    forall i, j | 0 <= i < j < |a| :: Less(a[i], a[j])
  }

  lemma {:induction false} LessTransitive(a: string, b: string, c: string)
    requires Less(a, b) && Less(b, c)
    ensures Less(a, c)
  {
    if a != [] && a[0] == b[0] && b[0] == c[0] { LessTransitive(a[1..], b[1..], c[1..]); }
  }

  lemma {:induction false} LessTotal(a: string, b: string)
    ensures !Less(a, a)
    ensures a != b ==> Less(a, b) || Less(b, a)
    ensures !(Less(a, b) && Less(b, a))
    decreases |a| + |b|
  {
    if a != [] { LessTotal(a[1..], if b == [] then [] else b[1..]); }
    if a != [] && b != [] && a[1..] == b[1..] && a[0] == b[0] {
      assert a == [a[0]] + a[1..] == b;
    }
  }

  function Names(fields: seq<Field>): seq<string> {
    seq(|fields|, i requires 0 <= i < |fields| => fields[i].name)
  }

  lemma InsertFirst(f: Field, sorted: seq<Field>)
    requires Before(Names(sorted)) && sorted != [] && Less(f.name, sorted[0].name)
    ensures Before(Names([f] + sorted))
  {
    var a, b := Names(sorted), Names([f] + sorted);
    forall i, j | 0 <= i < j < |b| ensures Less(b[i], b[j]) {
      assert b[j] == a[j - 1];
      if i > 0 {
        assert b[i] == a[i - 1];
      } else if j > 1 {
        LessTransitive(f.name, a[0], a[j - 1]);
      }
    }
  }

  lemma PrependLeast(head: Field, rest: seq<Field>)
    requires Before(Names(rest)) && forall g | g in rest :: Less(head.name, g.name)
    ensures Before(Names([head] + rest))
  {
    var a, b := Names(rest), Names([head] + rest);
    forall i, j | 0 <= i < j < |b| ensures Less(b[i], b[j]) {
      assert rest[j - 1] in rest && b[j] == a[j - 1];
      if i > 0 { assert b[i] == a[i - 1]; }
    }
  }

  lemma {:induction false} InsertKeepsOrder(f: Field, sorted: seq<Field>)
    requires Before(Names(sorted)) && forall g | g in sorted :: g.name != f.name
    ensures Before(Names(Insert(f, sorted)))
  {
    if sorted != [] {
      var head, tail, a := sorted[0], sorted[1..], Names(sorted);
      LessTotal(f.name, head.name);
      assert head in sorted;
      if Less(f.name, head.name) {
        InsertFirst(f, sorted);
      } else {
        assert Names(tail) == a[1..] && a[0] == head.name;
        InsertKeepsOrder(f, tail);
        forall g | g in Insert(f, tail) ensures Less(head.name, g.name) {
          if g != f {
            var k :| 0 <= k < |tail| && tail[k] == g;
            assert sorted[k + 1] == g && a[k + 1] == g.name;
          }
        }
        PrependLeast(head, Insert(f, tail));
      }
    }
  }

  lemma {:induction false} SortedInOrder(fields: seq<Field>)
    requires DistinctNames(fields)
    ensures Before(Names(Sorted(fields)))
  {
    if fields != [] {
      var init, last := fields[..|fields| - 1], fields[|fields| - 1];
      SortedInOrder(init);
      SortedKeepsAll(init);
      InsertKeepsOrder(last, Sorted(init));
    }
  }

  lemma HasMember(a: seq<string>)
    requires a != []
    ensures a[0] in a
  {
  }

  lemma {:induction false} OrderedUnique(a: seq<string>, b: seq<string>)
    requires Before(a) && Before(b) && forall x :: x in a <==> x in b
    ensures a == b
  {
    if a != [] {
      assert a[0] in b && b[0] in a;
      var i :| 0 <= i < |a| && a[i] == b[0];
      var j :| 0 <= j < |b| && b[j] == a[0];
      LessTotal(a[0], b[0]);
      assert i == 0 || j == 0;
      forall x ensures x in a[1..] <==> x in b[1..] {
        LessTotal(a[0], a[0]);
        assert x in a[1..] <==> x in a && x != a[0];
        assert x in b[1..] <==> x in b && x != b[0];
      }
      OrderedUnique(a[1..], b[1..]);
      assert a == [a[0]] + a[1..] && b == [b[0]] + b[1..];
    } else if b != [] {
      HasMember(b);
      assert false;
    }
  }

  lemma SameMapAligned(fields: seq<Field>, others: seq<Field>)
    requires DistinctNames(fields) && DistinctNames(others)
    requires FieldMap(fields) == FieldMap(others)
    ensures Aligned(Sorted(fields), Sorted(others), 0)
  {
    var p, q := Sorted(fields), Sorted(others);
    FieldMapHolds(fields);
    FieldMapHolds(others);
    SortedKeepsAll(fields);
    SortedKeepsAll(others);
    SortedInOrder(fields);
    SortedInOrder(others);
    NamesAreKeys(fields);
    NamesAreKeys(others);
    OrderedUnique(Names(p), Names(q));
    assert |p| == |Names(p)| == |Names(q)| == |q|;
    forall j | 0 <= j < |p| ensures Counterpart(p[j], q[j]) {
      assert Names(p)[j] == Names(q)[j];
      assert p[j] in fields && q[j] in others;
    }
  }

  lemma NameOf(fields: seq<Field>, j: nat)
    requires j < |fields|
    ensures Names(fields)[j] == fields[j].name && Names(fields)[j] in Names(fields)
  {
  }

  lemma NamesAreKeys(fields: seq<Field>)
    requires DistinctNames(fields)
    ensures forall x :: x in Names(Sorted(fields)) <==> x in FieldMap(fields)
  {
    var p, names := Sorted(fields), Names(Sorted(fields));
    FieldMapHolds(fields);
    SortedKeepsAll(fields);
    forall x | x in FieldMap(fields) ensures x in names {
      var f :| f in fields && f.name == x;
      var j :| 0 <= j < |p| && p[j] == f;
      NameOf(p, j);
    }
    forall x | x in names ensures x in FieldMap(fields) {
      var j :| 0 <= j < |names| && names[j] == x;
      assert p[j] in fields;
    }
  }

  // ------------------------------------------------- same meaning, same text

  lemma SameItemMeanings(items: seq<Json>, others: seq<Json>)
    requires Meaning(Arr(items)) == Meaning(Arr(others))
    ensures |items| == |others| && forall j | 0 <= j < |items| :: Meaning(items[j]) == Meaning(others[j])
  {
    var x, y := Meaning(Arr(items)).items, Meaning(Arr(others)).items;
    assert |x| == |items| && |y| == |others|;
    forall j | 0 <= j < |items| ensures Meaning(items[j]) == Meaning(others[j]) {
      assert x[j] == Meaning(items[j]) && y[j] == Meaning(others[j]);
    }
  }

  lemma {:induction false} MeaningFixesText(v: Json, w: Json, r: string)
    requires IsDict(v) && IsDict(w) && Meaning(v) == Meaning(w)
    ensures Text(v, r) == Text(w, r)
    decreases v, 0
  {
    match v
    case Arr(items) =>
      SameItemMeanings(items, w.items);
      MeaningFixesItems(items, w.items, 0, [']'] + r);
    case Obj(fields) =>
      SameMapAligned(fields, w.fields);
      assert |fields| == |Sorted(fields)| == |Sorted(w.fields)| == |w.fields|;
      MeaningFixesFields(fields, w.fields, 0, ['}'] + r);
    case _ =>
  }

  lemma {:induction false} MeaningFixesItems(items: seq<Json>, others: seq<Json>, i: nat, r: string)
    requires i <= |items| == |others|
    requires forall j | 0 <= j < |items| :: IsDict(items[j]) && IsDict(others[j]) && Meaning(items[j]) == Meaning(others[j])
    ensures Items(items, i, r) == Items(others, i, r)
    decreases items, |items| - i
  {
    if i < |items| {
      MeaningFixesItems(items, others, i + 1, r);
      MeaningFixesText(items[i], others[i], Items(items, i + 1, r));
    }
  }

  lemma {:induction false} MeaningFixesFields(fields: seq<Field>, others: seq<Field>, i: nat, r: string)
    requires i <= |fields| == |others| && AllDicts(fields) && AllDicts(others)
    requires Aligned(Sorted(fields), Sorted(others), 0)
    ensures Fields(fields, i, r) == Fields(others, i, r)
    decreases fields, |fields| - i
  {
    if i < |fields| {
      var f, g := Sorted(fields)[i], Sorted(others)[i];
      assert f in fields && g in others && Counterpart(f, g);
      MeaningFixesFields(fields, others, i + 1, r);
      MeaningFixesText(f.value, g.value, Fields(fields, i + 1, r));
    }
  }

  // Two values have the same canonical text exactly when they are equal up to key order.
  lemma CanonicalIdentifies(v: Json, w: Json)
    requires IsDict(v) && IsDict(w)
    ensures Canonical(v) == Canonical(w) <==> Meaning(v) == Meaning(w)
  {
    if Canonical(v) == Canonical(w) { TextSplits(v, w, "", ""); }
    if Meaning(v) == Meaning(w) { MeaningFixesText(v, w, ""); }
  }
}
