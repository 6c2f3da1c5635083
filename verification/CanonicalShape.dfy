/**
 The canonical text written out: literals, numbers, strings, arrays and objects as
 RFC 8259 has them, with no space anywhere and the members of an object by key.
 */
module CanonicalShape {
  import opened CanonicalJson

  // ------------------------------------------------------- text in front of a rest

  lemma EscapeInFront(c: char, r: string)
    ensures Escape(c, r) == Escape(c, "") + r
  {
    hide HexDigit;
    if EscapeLetter(c) == 'u' && c as int >= 0x1_0000 {
      var high, low := 0xd800 + (c as int - 0x1_0000) / 1024, 0xdc00 + (c as int - 0x1_0000) % 1024;
      assert Unit(high, Unit(low, "") + r) == Unit(high, Unit(low, "")) + r;
    }
  }

  lemma {:induction false} EscapedInFront(s: string, r: string)
    ensures Escaped(s, r) == Escaped(s, "") + r
  {
    hide Escape;
    if s != "" {
      EscapedInFront(s[1..], r);
      EscapeInFront(s[0], Escaped(s[1..], r));
      EscapeInFront(s[0], Escaped(s[1..], ""));
      assert Escape(s[0], "") + (Escaped(s[1..], "") + r) == Escape(s[0], "") + Escaped(s[1..], "") + r;
    }
  }

  lemma QuotedInFront(s: string, r: string)
    ensures Quoted(s, r) == Quoted(s, "") + r
  {
    EscapedInFront(s, ['"'] + r);
    EscapedInFront(s, ['"'] + "");
    hide Escaped;
    assert ['"'] + (Escaped(s, "") + (['"'] + r)) == ['"'] + (Escaped(s, "") + (['"'] + "")) + r;
  }

  lemma {:induction false} DigitsInFront(n: nat, r: string)
    ensures Digits(n, r) == Digits(n, "") + r
    decreases n
  {
    if n >= 10 {
      DigitsInFront(n / 10, [Digit(n % 10)] + r);
      DigitsInFront(n / 10, [Digit(n % 10)] + "");
      assert Digits(n / 10, "") + ([Digit(n % 10)] + r) == Digits(n / 10, "") + ([Digit(n % 10)] + "") + r;
    }
  }

  lemma Enclosed(open: char, body: string, close: char, r: string)
    ensures [open] + (body + ([close] + r)) == [open] + (body + ([close] + "")) + r
  {}

  lemma {:induction false} TextInFront(v: Json, r: string)
    ensures Text(v, r) == Canonical(v) + r
    decreases v, 0
  {
    hide Digits, Quoted, Items, Fields;
    match v
    case Null =>
    case Bool(_) =>
    case Int(n) => DigitsInFront(if n < 0 then -n else n, r);
    case Str(s) => QuotedInFront(s, r);
    case Arr(items) =>
      ItemsInFront(items, 0, [']'] + r);
      ItemsInFront(items, 0, [']'] + "");
      Enclosed('[', Items(items, 0, ""), ']', r);
    case Obj(fields) =>
      FieldsInFront(fields, 0, ['}'] + r);
      FieldsInFront(fields, 0, ['}'] + "");
      Enclosed('{', Fields(fields, 0, ""), '}', r);
  }

  lemma {:induction false} ItemsInFront(items: seq<Json>, i: nat, r: string)
    requires i <= |items|
    ensures Items(items, i, r) == Items(items, i, "") + r
    decreases items, |items| - i
  {
    if i < |items| {
      ItemsInFront(items, i + 1, r);
      TextInFront(items[i], Items(items, i + 1, r));
      TextInFront(items[i], Items(items, i + 1, ""));
      hide Text;
      assert Canonical(items[i]) + (Items(items, i + 1, "") + r) == Canonical(items[i]) + Items(items, i + 1, "") + r;
    }
  }

  lemma MemberInFront(name: string, value: string, r: string)
    ensures Quoted(name, [':'] + (value + r)) == Quoted(name, "") + ":" + value + r
  {
    QuotedInFront(name, [':'] + (value + r));
    hide Quoted;
    assert Quoted(name, "") + ([':'] + (value + r)) == Quoted(name, "") + ":" + value + r;
  }

  lemma {:induction false} FieldInFront(f: Field, rest: string, r: string)
    ensures Quoted(f.name, [':'] + Text(f.value, rest + r)) == Quoted(f.name, [':'] + Text(f.value, rest)) + r
    decreases f, 1
  {
    TextInFront(f.value, rest + r);
    TextInFront(f.value, rest);
    hide Text, Quoted, Canonical;
    assert Canonical(f.value) + (rest + r) == Canonical(f.value) + rest + r;
    MemberInFront(f.name, Canonical(f.value) + rest, r);
    MemberInFront(f.name, Canonical(f.value) + rest, "");
    assert Quoted(f.name, [':'] + (Canonical(f.value) + rest)) == Quoted(f.name, "") + ":" + (Canonical(f.value) + rest) by {
      assert Canonical(f.value) + rest + "" == Canonical(f.value) + rest;
    }
  }

  lemma {:induction false} FieldsInFront(fields: seq<Field>, i: nat, r: string)
    requires i <= |fields|
    ensures Fields(fields, i, r) == Fields(fields, i, "") + r
    decreases fields, |fields| - i
  {
    if i < |fields| {
      var f := Sorted(fields)[i];
      assert f in fields;
      FieldsInFront(fields, i + 1, r);
      FieldInFront(f, Fields(fields, i + 1, ""), r);
      hide Text, Quoted;
    }
  }

  // ------------------------------------------------------------------------- shapes

  // The texts from position i on, with a comma before each but the first of all.
  function CommaList(texts: seq<string>, i: nat): string
    requires i <= |texts|
    decreases |texts| - i
  {
    if i == |texts| then "" else (if i > 0 then "," else "") + texts[i] + CommaList(texts, i + 1)
  }

  lemma Literals()
    ensures Canonical(Null) == "null" && Canonical(Bool(true)) == "true" && Canonical(Bool(false)) == "false"
  {}

  function ItemTexts(items: seq<Json>): seq<string> { seq(|items|, i requires 0 <= i < |items| => Canonical(items[i])) }

  lemma {:induction false} ItemsAreListed(items: seq<Json>, i: nat)
    requires i <= |items|
    ensures Items(items, i, "") == CommaList(ItemTexts(items), i)
    decreases |items| - i
  {
    if i < |items| {
      ItemsAreListed(items, i + 1);
      TextInFront(items[i], Items(items, i + 1, ""));
      hide Text, Canonical;
    }
  }

  lemma ArrayShape(items: seq<Json>)
    ensures Canonical(Arr(items)) == "[" + CommaList(ItemTexts(items), 0) + "]"
  {
    ItemsInFront(items, 0, [']'] + "");
    ItemsAreListed(items, 0);
    hide Items, CommaList;
    assert ['['] + (CommaList(ItemTexts(items), 0) + ([']'] + "")) == "[" + CommaList(ItemTexts(items), 0) + "]";
  }

  function MemberTexts(sorted: seq<Field>): seq<string> {
    seq(|sorted|, i requires 0 <= i < |sorted| => Canonical(Str(sorted[i].name)) + ":" + Canonical(sorted[i].value))
  }

  lemma MemberIsWritten(f: Field, rest: string)
    ensures Quoted(f.name, [':'] + Text(f.value, rest)) == Canonical(Str(f.name)) + ":" + Canonical(f.value) + rest
  {
    TextInFront(f.value, rest);
    MemberInFront(f.name, Canonical(f.value), rest);
    assert Canonical(Str(f.name)) == Quoted(f.name, "");
    hide Text, Canonical, Quoted;
  }

  lemma {:induction false} FieldsAreListed(fields: seq<Field>, i: nat)
    requires i <= |fields|
    ensures |Sorted(fields)| == |fields|
    ensures Fields(fields, i, "") == CommaList(MemberTexts(Sorted(fields)), i)
    decreases |fields| - i
  {
    hide Text, Canonical, Quoted, Sorted;
    if i < |fields| {
      FieldsAreListed(fields, i + 1);
      MemberIsWritten(Sorted(fields)[i], Fields(fields, i + 1, ""));
      var member := MemberTexts(Sorted(fields))[i];
      assert [','] + (member + Fields(fields, i + 1, "")) == "," + member + Fields(fields, i + 1, "");
    }
  }

  // Key a comes before key b: where they first differ it has ended, or has the
  // character of the lower code point.
  predicate ComesBefore(a: string, b: string) {
    exists k | 0 <= k <= |a| && k <= |b| ::
      a[..k] == b[..k] && k < |b| && (k == |a| || a[k] as int < b[k] as int)
  }

  lemma {:induction false} LessComesBefore(a: string, b: string)
    requires Less(a, b)
    ensures ComesBefore(a, b)
  {
    if a == "" || a[0] != b[0] {
      assert a[..0] == b[..0];
    } else {
      LessComesBefore(a[1..], b[1..]);
      var k :| 0 <= k <= |a[1..]| && k <= |b[1..]| && a[1..][..k] == b[1..][..k] && k < |b[1..]|
               && (k == |a[1..]| || a[1..][k] as int < b[1..][k] as int);
      assert a[..k + 1] == [a[0]] + a[1..][..k] && b[..k + 1] == [b[0]] + b[1..][..k];
    }
  }

  // An object's members are its fields, in strictly rising order of their keys.
  lemma ObjectShape(fields: seq<Field>)
    requires DistinctNames(fields)
    ensures Canonical(Obj(fields)) == "{" + CommaList(MemberTexts(Sorted(fields)), 0) + "}"
    ensures |Sorted(fields)| == |fields| && forall f :: f in fields <==> f in Sorted(fields)
    ensures forall i, j | 0 <= i < j < |Sorted(fields)| :: ComesBefore(Sorted(fields)[i].name, Sorted(fields)[j].name)
  {
    FieldsInFront(fields, 0, ['}'] + "");
    FieldsAreListed(fields, 0);
    SortedInOrder(fields);
    SortedKeepsAll(fields);
    hide Fields, CommaList, Sorted, ComesBefore;
    forall i, j | 0 <= i < j < |Sorted(fields)| ensures ComesBefore(Sorted(fields)[i].name, Sorted(fields)[j].name) {
      assert Less(Names(Sorted(fields))[i], Names(Sorted(fields))[j]);
      LessComesBefore(Sorted(fields)[i].name, Sorted(fields)[j].name);
    }
    assert ['{'] + (CommaList(MemberTexts(Sorted(fields)), 0) + (['}'] + "")) == "{" + CommaList(MemberTexts(Sorted(fields)), 0) + "}";
  }

  // ------------------------------------------------------------------------ numbers

  // What a string of decimal digits is worth.
  function Worth(digits: string): int {
    if digits == "" then 0 else 10 * Worth(digits[..|digits| - 1]) + (digits[|digits| - 1] as int - '0' as int)
  }

  predicate AllDigits(s: string) { forall i | 0 <= i < |s| :: '0' <= s[i] <= '9' }

  lemma {:induction false} DigitsAreWorth(n: nat)
    ensures var d := Digits(n, ""); d != "" && AllDigits(d) && Worth(d) == n && (d[0] == '0' ==> d == "0")
    decreases n
  {
    if n >= 10 {
      var d := Digits(n / 10, "");
      DigitsAreWorth(n / 10);
      DigitsInFront(n / 10, [Digit(n % 10)] + "");
      var all := Digits(n, "");
      assert all == d + [Digit(n % 10)];
      assert all[..|all| - 1] == d;
      assert d == "0" ==> Worth(d) == 0 by { assert "0"[..0] == ""; }
    } else {
      assert Digits(n, "") == [Digit(n)];
      assert [Digit(n)][..0] == "";
    }
  }

  // A number is its decimal digits, with no zero in front and a minus if it is negative.
  lemma NumberShape(n: int)
    ensures var t := Canonical(Int(n));
            var digits := if n < 0 then t[1..] else t;
            && (n < 0 ==> t[0] == '-') && digits != "" && AllDigits(digits) && (digits[0] == '0' ==> digits == "0")
            && Worth(digits) == if n < 0 then -n else n
  {
    DigitsAreWorth(if n < 0 then -n else n);
    hide Worth, Digits;
    if n < 0 { assert (['-'] + Digits(-n, ""))[1..] == Digits(-n, ""); }
  }

  // ------------------------------------------------------------------------ strings

  // A string is its characters one by one between quotes.
  lemma StringShape(s: string, c: char)
    ensures Canonical(Str("")) == "\"\""
    ensures Canonical(Str([c] + s)) == "\"" + Escape(c, "") + Canonical(Str(s))[1..]
  {
    EscapeInFront(c, Escaped(s, ['"'] + ""));
    hide Escape;
    assert ([c] + s)[1..] == s;
    assert Canonical(Str(s)) == ['"'] + Escaped(s, ['"'] + "");
    assert Canonical(Str(s))[1..] == Escaped(s, ['"'] + "");
    assert ['"'] + (Escape(c, "") + Escaped(s, ['"'] + "")) == "\"" + Escape(c, "") + Escaped(s, ['"'] + "");
  }

  // What a group of backslash, u and four hexadecimal digits stands for.
  function Group(e: string, i: nat): int
    requires i + 6 <= |e|
  {
    HexValue(e[i + 2]) * 0x1000 + HexValue(e[i + 3]) * 0x100 + HexValue(e[i + 4]) * 0x10 + HexValue(e[i + 5])
  }

  predicate IsGroup(e: string, i: nat)
    requires i + 6 <= |e|
  {
    e[i] == '\\' && e[i + 1] == 'u'
  }

  // Printable ASCII stands for itself and seven characters have an escape of two;
  // all others are one group, or a surrogate pair of groups beyond the first plane.
  lemma CharacterShape(c: char)
    ensures Escape('"', "") == "\\\"" && Escape('\\', "") == "\\\\"
    ensures Escape('\n', "") == "\\n" && Escape('\r', "") == "\\r" && Escape('\t', "") == "\\t"
    ensures Escape(8 as char, "") == "\\b" && Escape(12 as char, "") == "\\f"
    ensures 0x20 <= c as int <= 0x7e && c != '"' && c != '\\' ==> Escape(c, "") == [c]
    ensures (c as int < 0x20 && c as int !in {8, 9, 10, 12, 13}) || 0x7f <= c as int < 0x1_0000 ==>
              var e := Escape(c, ""); |e| == 6 && IsGroup(e, 0) && Group(e, 0) == c as int
    ensures c as int >= 0x1_0000 ==>
              var e := Escape(c, "");
              && |e| == 12 && IsGroup(e, 0) && IsGroup(e, 6)
              && 0xd800 <= Group(e, 0) <= 0xdbff && 0xdc00 <= Group(e, 6) <= 0xdfff
              && 0x1_0000 + (Group(e, 0) - 0xd800) * 1024 + Group(e, 6) - 0xdc00 == c as int
  {
    var n := c as int;
    if n < 0x1_0000 {
      UnitShape(n, "");
    } else {
      AstralShape(c);
    }
    hide HexDigit, HexValue, Unit;
  }

  lemma AstralShape(c: char)
    requires c as int >= 0x1_0000
    ensures var e := Escape(c, "");
            && |e| == 12 && IsGroup(e, 0) && IsGroup(e, 6)
            && 0xd800 <= Group(e, 0) <= 0xdbff && 0xdc00 <= Group(e, 6) <= 0xdfff
            && 0x1_0000 + (Group(e, 0) - 0xd800) * 1024 + Group(e, 6) - 0xdc00 == c as int
  {
    var n := c as int - 0x1_0000;
    Surrogates(n);
    var high, low := 0xd800 + n / 1024, 0xdc00 + n % 1024;
    assert Escape(c, "") == Unit(high, Unit(low, ""));
    TwoUnits(high, low);
    hide Group, IsGroup, Unit, Escape;
  }

  lemma Surrogates(n: int)
    requires 0 <= n < 0x10_0000
    ensures 0 <= n / 1024 < 1024 && 0 <= n % 1024 < 1024 && (n / 1024) * 1024 + n % 1024 == n
  {}

  lemma TwoUnits(high: nat, low: nat)
    requires high < 0x1_0000 && low < 0x1_0000
    ensures var e := Unit(high, Unit(low, ""));
            |e| == 12 && IsGroup(e, 0) && IsGroup(e, 6) && Group(e, 0) == high && Group(e, 6) == low
  {
    UnitShape(low, "");
    UnitShape(high, Unit(low, ""));
    hide Unit, HexValue;
    var inner, e := Unit(low, ""), Unit(high, Unit(low, ""));
    assert e[6] == inner[0] && e[7] == inner[1] && e[8] == inner[2] && e[9] == inner[3] && e[10] == inner[4] && e[11] == inner[5];
  }

  lemma UnitShape(u: nat, r: string)
    requires u < 0x1_0000
    ensures var e := Unit(u, r);
            && |e| == 6 + |r| && IsGroup(e, 0) && Group(e, 0) == u
            && forall k | 0 <= k < |r| :: e[k + 6] == r[k]
  {
    HexReadsBack(u);
    hide HexDigit, HexValue;
  }

  function HexValue(c: char): int {
    if '0' <= c <= '9' then c as int - '0' as int else c as int - 'a' as int + 10
  }

  lemma HexDigitReadsBack(d: nat)
    requires d < 16
    ensures HexValue(HexDigit(d)) == d
  {}

  lemma HexReadsBack(u: nat)
    requires u < 0x1_0000
    ensures HexValue(HexDigit(u / 16 / 16 / 16)) * 0x1000 + HexValue(HexDigit(u / 16 / 16 % 16)) * 0x100 +
            HexValue(HexDigit(u / 16 % 16)) * 0x10 + HexValue(HexDigit(u % 16)) == u
  {
    HexDigitReadsBack(u / 16 / 16 / 16);
    HexDigitReadsBack(u / 16 / 16 % 16);
    HexDigitReadsBack(u / 16 % 16);
    HexDigitReadsBack(u % 16);
    hide HexValue, HexDigit;
  }
}
