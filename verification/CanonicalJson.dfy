/**
  `canonicalJson` of packages/receipt-schema/src/index.ts: the text under every idempotency key,
  certificate digest and projection comparison.
 */
module CanonicalJson {
  import opened Wrappers
  import opened Text

  /**
    A JavaScript value as `JSON.stringify` sees it. A finite number is given by its shortest decimal
    text; `Absent` is `undefined`, NaN or an infinity, which are all written as `null`. An object keeps
    its properties in insertion order.
   */
  datatype Json =
    | Null
    | Absent
    | Bool(b: bool)
    | Number(digits: Text)
    | String(chars: Text)
    | Array(items: seq<Json>)
    | Object(entries: seq<(Text, Json)>)

  const QUOTE: Unit := 0x22
  const COMMA: Unit := 0x2C
  const COLON: Unit := 0x3A
  const BACKSLASH: Unit := 0x5C
  const OPEN_ARRAY: Unit := 0x5B
  const CLOSE_ARRAY: Unit := 0x5D
  const OPEN_OBJECT: Unit := 0x7B
  const CLOSE_OBJECT: Unit := 0x7D

  /** Units of a number: digits, sign, point and exponent mark. */
  predicate NumberUnit(u: Unit)
  {
    0x30 <= u <= 0x39 || u in {0x2B, 0x2D, 0x2E, 0x65}
  }

  predicate NumberText(digits: Text)
  {
    digits != [] && (0x30 <= digits[0] <= 0x39 || digits[0] == 0x2D) && forall u :: u in digits ==> NumberUnit(u)
  }

  function Keys(entries: seq<(Text, Json)>): seq<Text>
  {
    seq(|entries|, i requires 0 <= i < |entries| => entries[i].0)
  }

  /** What a JavaScript value satisfies by construction. */
  ghost predicate WellFormed(v: Json)
  {
    match v
    case Number(digits) => NumberText(digits)
    case Array(items) => forall i :: 0 <= i < |items| ==> WellFormed(items[i])
    case Object(entries) => Distinct(Keys(entries)) && forall i :: 0 <= i < |entries| ==> WellFormed(entries[i].1)
    case _ => true
  }

  // ----- what the source writes

  predicate High(u: Unit) { 0xD800 <= u < 0xDC00 }

  predicate Low(u: Unit) { 0xDC00 <= u < 0xE000 }

  function HexDigit(n: int): Unit
    requires 0 <= n < 16
  {
    if n < 10 then 0x30 + n else 0x57 + n
  }

  /** One code unit inside quotes, by section 7 of RFC 8259; a lone surrogate is written in hex. */
  function EscapeUnit(u: Unit): Text
  {
    if u == QUOTE || u == BACKSLASH then [BACKSLASH, u]
    else if u == 0x08 then [BACKSLASH, 0x62]
    else if u == 0x09 then [BACKSLASH, 0x74]
    else if u == 0x0A then [BACKSLASH, 0x6E]
    else if u == 0x0C then [BACKSLASH, 0x66]
    else if u == 0x0D then [BACKSLASH, 0x72]
    else if u < 0x20 || High(u) || Low(u) then
      [BACKSLASH, 0x75, HexDigit(u / 0x1000), HexDigit(u / 0x100 % 0x10), HexDigit(u / 0x10 % 0x10), HexDigit(u % 0x10)]
    else [u]
  }

  function EscapeChars(s: Text): Text
  {
    if s == [] then []
    else if High(s[0]) && |s| > 1 && Low(s[1]) then [s[0], s[1]] + EscapeChars(s[2..])
    else EscapeUnit(s[0]) + EscapeChars(s[1..])
  }

  /** `JSON.stringify` of a string. */
  function Quoted(s: Text): Text
  {
    [QUOTE] + (EscapeChars(s) + [QUOTE])
  }

  predicate HasKey(v: Json, key: Text)
  {
    v.Object? && key in Keys(v.entries)
  }

  function IndexOf(v: Json, key: Text): (i: nat)
    requires HasKey(v, key)
    ensures i < |v.entries| && v.entries[i].0 == key
  {
    FirstIndex(v.entries, key)
  }

  function FirstIndex(entries: seq<(Text, Json)>, key: Text): (i: nat)
    requires key in Keys(entries)
    ensures i < |entries| && entries[i].0 == key
  {
    if entries[0].0 == key then 0
    else
      assert key in Keys(entries[1..]) by {
        var j :| 0 <= j < |Keys(entries)| && Keys(entries)[j] == key;
        assert Keys(entries[1..])[j - 1] == key;
      }
      1 + FirstIndex(entries[1..], key)
  }

  /** `object[key]` */
  function Get(v: Json, key: Text): (child: Json)
    requires HasKey(v, key)
    ensures child < v
  {
    v.entries[IndexOf(v, key)].1
  }

  function SortedKeys(v: Json): (keys: seq<Text>)
    requires v.Object?
    ensures forall k :: k in keys <==> HasKey(v, k)
  {
    SortMembers(Keys(v.entries));
    Sort(Keys(v.entries))
  }

  function Canonical(v: Json): Text
    decreases v, 1, 0
  {
    match v
    case Null => [0x6E, 0x75, 0x6C, 0x6C]
    case Absent => [0x6E, 0x75, 0x6C, 0x6C]
    case Bool(b) => if b then [0x74, 0x72, 0x75, 0x65] else [0x66, 0x61, 0x6C, 0x73, 0x65]
    case Number(digits) => digits
    case String(chars) => Quoted(chars)
    case Array(items) => [OPEN_ARRAY] + (Items(v, 0) + [CLOSE_ARRAY])
    case Object(entries) => [OPEN_OBJECT] + (Members(v, SortedKeys(v)) + [CLOSE_OBJECT])
  }

  /** `value.map(canonicalJson).join(",")`, from index `i` on. */
  function Items(v: Json, i: nat): Text
    requires v.Array? && i <= |v.items|
    decreases v, 0, |v.items| - i
  {
    if i == |v.items| then []
    else Canonical(v.items[i]) + (if i + 1 == |v.items| then [] else [COMMA] + Items(v, i + 1))
  }

  function Members(v: Json, keys: seq<Text>): Text
    requires forall k :: k in keys ==> HasKey(v, k)
    decreases v, 0, |keys|
  {
    if keys == [] then []
    else
      var member := Quoted(keys[0]) + ([COLON] + Canonical(Get(v, keys[0])));
      member + (if |keys| == 1 then [] else [COMMA] + Members(v, keys[1..]))
  }

  // ----- equality of values up to the order of keys, at every depth

  ghost predicate Same(a: Json, b: Json)
    decreases a
  {
    match a
    case Null => b.Null? || b.Absent?
    case Absent => b.Null? || b.Absent?
    case Bool(_) => a == b
    case Number(_) => a == b
    case String(_) => a == b
    case Array(items) =>
      b.Array? && |items| == |b.items| && forall i :: 0 <= i < |items| ==> Same(items[i], b.items[i])
    case Object(entries) =>
      b.Object? && (forall k :: HasKey(b, k) ==> HasKey(a, k))
      && forall i :: 0 <= i < |entries| ==> HasKey(b, entries[i].0) && Same(entries[i].1, Get(b, entries[i].0))
  }

  // ----- reading a string back

  function HexValue(u: Unit): Option<int>
  {
    if 0x30 <= u <= 0x39 then Some(u - 0x30)
    else if 0x61 <= u <= 0x66 then Some(u - 0x57)
    else if 0x41 <= u <= 0x46 then Some(u - 0x37)
    else None
  }

  /** The unit named by the escape at the front of `t`, and how many units it takes. */
  function ReadEscape(t: Text): (r: Option<(Unit, nat)>)
    ensures r.Some? ==> 2 <= r.value.1 <= |t|
  {
    if |t| < 2 || t[0] != 0x5C then None
    else if t[1] == 0x22 || t[1] == 0x5C || t[1] == 0x2F then Some((t[1], 2))
    else if t[1] == 0x62 then Some((0x08, 2))
    else if t[1] == 0x74 then Some((0x09, 2))
    else if t[1] == 0x6E then Some((0x0A, 2))
    else if t[1] == 0x66 then Some((0x0C, 2))
    else if t[1] == 0x72 then Some((0x0D, 2))
    else if t[1] == 0x75 && |t| >= 6 then
      var a, b, c, d := HexValue(t[2]), HexValue(t[3]), HexValue(t[4]), HexValue(t[5]);
      if a.Some? && b.Some? && c.Some? && d.Some? then
        Some((a.value * 0x1000 + b.value * 0x100 + c.value * 0x10 + d.value, 6))
      else None
    else None
  }

  /** Reads up to the closing quote: the string and what follows it. */
  function ReadChars(t: Text): (r: Option<(Text, Text)>)
    ensures r.Some? ==> |r.value.1| < |t|
    decreases |t|
  {
    if t == [] then None
    else if t[0] == 0x22 then Some(([], t[1..]))
    else if t[0] == 0x5C then
      var e := ReadEscape(t);
      if e.None? then None else Push(e.value.0, ReadChars(t[e.value.1..]))
    else Push(t[0], ReadChars(t[1..]))
  }

  function Push(u: Unit, r: Option<(Text, Text)>): Option<(Text, Text)>
  {
    if r.None? then None else Some(([u] + r.value.0, r.value.1))
  }

  lemma HexRoundTrip(n: int)
    requires 0 <= n < 16
    ensures HexValue(HexDigit(n)) == Some(n)
  {
  }

  lemma ReadsHex(a: int, b: int, c: int, d: int, rest: Text)
    requires 0 <= a < 16 && 0 <= b < 16 && 0 <= c < 16 && 0 <= d < 16
    ensures var t := [BACKSLASH, 0x75, HexDigit(a), HexDigit(b), HexDigit(c), HexDigit(d)] + rest;
            ReadEscape(t) == Some((a * 0x1000 + b * 0x100 + c * 0x10 + d, 6)) && t[6..] == rest
  {
    HexRoundTrip(a);
    HexRoundTrip(b);
    HexRoundTrip(c);
    HexRoundTrip(d);
  }

  lemma FourDigits(u: Unit)
    ensures 0 <= u / 0x1000 < 16
    ensures u / 0x1000 * 0x1000 + u / 0x100 % 0x10 * 0x100 + u / 0x10 % 0x10 * 0x10 + u % 0x10 == u
  {
  }

  lemma HexEscapeIsRead(u: Unit, rest: Text)
    requires |EscapeUnit(u)| == 6
    ensures ReadEscape(EscapeUnit(u) + rest) == Some((u, 6)) && (EscapeUnit(u) + rest)[6..] == rest
  {
    FourDigits(u);
    var a, b, c, d := u / 0x1000, u / 0x100 % 0x10, u / 0x10 % 0x10, u % 0x10;
    assert EscapeUnit(u) == [BACKSLASH, 0x75, HexDigit(a), HexDigit(b), HexDigit(c), HexDigit(d)];
    ReadsHex(a, b, c, d, rest);
  }

  lemma ShortEscapeIsRead(u: Unit, rest: Text)
    requires |EscapeUnit(u)| == 2
    ensures ReadEscape(EscapeUnit(u) + rest) == Some((u, 2)) && (EscapeUnit(u) + rest)[2..] == rest
  {
  }

  lemma ReadsEscaped(u: Unit, rest: Text)
    ensures ReadChars(EscapeUnit(u) + rest) == Push(u, ReadChars(rest))
  {
    if |EscapeUnit(u)| == 6 {
      HexEscapeIsRead(u, rest);
    } else if |EscapeUnit(u)| == 2 {
      ShortEscapeIsRead(u, rest);
    } else {
      assert EscapeUnit(u) == [u];
      ReadsRaw(u, rest);
    }
  }

  lemma ReadsRaw(u: Unit, rest: Text)
    requires u != QUOTE && u != BACKSLASH
    ensures ReadChars([u] + rest) == Push(u, ReadChars(rest))
  {
    assert ([u] + rest)[1..] == rest;
  }

  lemma PairThen(a: Unit, b: Unit, more: Text, t: Text)
    ensures ([a, b] + more) + t == [a] + ([b] + (more + t))
  {
  }

  lemma Then(e: Text, more: Text, t: Text)
    ensures (e + more) + t == e + (more + t)
  {
  }

  lemma {:induction false} ReadsChars(s: Text, rest: Text)
    ensures ReadChars(EscapeChars(s) + ([QUOTE] + rest)) == Some((s, rest))
    decreases |s|
  {
    var t := [QUOTE] + rest;
    if s == [] {
      assert EscapeChars(s) + t == t && t[1..] == rest;
    } else if High(s[0]) && |s| > 1 && Low(s[1]) {
      ReadsPair(s, rest);
    } else {
      ReadsSingle(s, rest);
    }
  }

  lemma {:induction false} ReadsSingle(s: Text, rest: Text)
    requires s != [] && !(High(s[0]) && |s| > 1 && Low(s[1]))
    ensures ReadChars(EscapeChars(s) + ([QUOTE] + rest)) == Some((s, rest))
    decreases |s|, 0
  {
    var u, tail := s[0], s[1..];
    var t := [QUOTE] + rest;
    var more := EscapeChars(tail);
    assert EscapeChars(s) == EscapeUnit(u) + more;
    ReadsChars(tail, rest);
    Then(EscapeUnit(u), more, t);
    ReadsEscaped(u, more + t);
    assert s == [u] + tail;
  }

  lemma {:induction false} ReadsPair(s: Text, rest: Text)
    requires |s| > 1 && High(s[0]) && Low(s[1])
    ensures ReadChars(EscapeChars(s) + ([QUOTE] + rest)) == Some((s, rest))
    decreases |s|, 0
  {
    ReadsChars(s[2..], rest);
    var more := EscapeChars(s[2..]);
    var t := [QUOTE] + rest;
    PairThen(s[0], s[1], more, t);
    ReadsRaw(s[1], more + t);
    ReadsRaw(s[0], [s[1]] + (more + t));
    assert s == [s[0]] + ([s[1]] + s[2..]);
  }

  lemma QuotedThen(s: Text, x: Text)
    ensures (Quoted(s) + x)[1..] == EscapeChars(s) + ([QUOTE] + x)
  {
    var e := EscapeChars(s);
    assert Quoted(s) + x == [QUOTE] + (e + ([QUOTE] + x));
  }

  /** A quoted string ends where it says it ends. */
  lemma QuotedIsPrefixFree(a: Text, b: Text, x: Text, y: Text)
    requires Quoted(a) + x == Quoted(b) + y
    ensures a == b && x == y
  {
    QuotedThen(a, x);
    QuotedThen(b, y);
    ReadsChars(a, x);
    ReadsChars(b, y);
  }

  // ----- equal values give equal text

  lemma {:induction false} SameGivesText(a: Json, b: Json)
    requires WellFormed(a) && WellFormed(b) && Same(a, b)
    ensures Canonical(a) == Canonical(b)
    decreases a, 1, 0
  {
    match a
    case Array(items) =>
      ItemsSame(a, b, 0);
    case Object(entries) =>
      forall k ensures HasKey(a, k) <==> HasKey(b, k) {
        if HasKey(a, k) { assert HasKey(b, entries[IndexOf(a, k)].0); }
      }
      assert forall k :: k in Keys(a.entries) <==> HasKey(a, k);
      assert forall k :: k in Keys(b.entries) <==> HasKey(b, k);
      SameMembersPermute(Keys(a.entries), Keys(b.entries));
      SortOfPermutation(Keys(a.entries), Keys(b.entries));
      MembersSame(a, b, SortedKeys(a));
    case _ =>
  }

  lemma {:induction false} ItemsSame(a: Json, b: Json, i: nat)
    requires WellFormed(a) && WellFormed(b) && Same(a, b) && a.Array? && i <= |a.items|
    ensures Items(a, i) == Items(b, i)
    decreases a, 0, |a.items| - i
  {
    if i < |a.items| {
      SameGivesText(a.items[i], b.items[i]);
      ItemsSame(a, b, i + 1);
    }
  }

  lemma {:induction false} MembersSame(a: Json, b: Json, keys: seq<Text>)
    requires WellFormed(a) && WellFormed(b) && Same(a, b)
    requires forall k :: k in keys ==> HasKey(a, k) && HasKey(b, k)
    ensures Members(a, keys) == Members(b, keys)
    decreases a, 0, |keys|
  {
    if keys != [] {
      assert HasKey(a, keys[0]);
      SameGivesText(Get(a, keys[0]), Get(b, keys[0]));
      MembersSame(a, b, keys[1..]);
    }
  }

  // ----- equal text comes from equal values

  /** What can follow a value inside a text. */
  predicate Follows(x: Text)
  {
    x == [] || x[0] == COMMA || x[0] == CLOSE_ARRAY || x[0] == CLOSE_OBJECT
  }

  lemma AfterPrefix(p: Text, x: Text, y: Text)
    requires p + x == p + y
    ensures x == y
  {
    assert (p + x)[|p|..] == x && (p + y)[|p|..] == y;
  }

  lemma NumberIsNotCutShort(a: Text, b: Text, x: Text, y: Text)
    requires NumberText(b) && Follows(x) && a + x == b + y
    ensures |a| >= |b|
  {
    assert forall i :: 0 <= i < |b| ==> (b + y)[i] == b[i] && b[i] in b;
    assert x != [] ==> (a + x)[|a|] == x[0];
  }

  lemma NumberIsPrefixFree(a: Text, b: Text, x: Text, y: Text)
    requires NumberText(a) && NumberText(b) && Follows(x) && Follows(y) && a + x == b + y
    ensures a == b && x == y
  {
    NumberIsNotCutShort(a, b, x, y);
    NumberIsNotCutShort(b, a, y, x);
    assert a == (a + x)[..|a|] && b == (b + y)[..|b|];
    AfterPrefix(a, x, y);
  }

  /** The first unit tells the kind of the value. */
  function Lead(v: Json): Unit
    requires WellFormed(v)
  {
    match v
    case Null => 0x6E
    case Absent => 0x6E
    case Bool(b) => if b then 0x74 else 0x66
    case Number(digits) => digits[0]
    case String(_) => QUOTE
    case Array(_) => OPEN_ARRAY
    case Object(_) => OPEN_OBJECT
  }

  lemma LeadIsFirst(v: Json, x: Text)
    requires WellFormed(v)
    ensures Canonical(v) != [] && Canonical(v)[0] == Lead(v) && (Canonical(v) + x)[0] == Lead(v)
  {
  }

  lemma {:induction false} TextGivesSame(a: Json, b: Json, x: Text, y: Text)
    requires WellFormed(a) && WellFormed(b) && Follows(x) && Follows(y)
    requires Canonical(a) + x == Canonical(b) + y
    ensures Same(a, b) && x == y
    decreases a, 1, 0
  {
    LeadIsFirst(a, x);
    LeadIsFirst(b, y);
    match a
    case Null => AfterPrefix(Canonical(a), x, y);
    case Absent => AfterPrefix(Canonical(a), x, y);
    case Bool(_) => AfterPrefix(Canonical(a), x, y);
    case Number(digits) => NumberIsPrefixFree(digits, b.digits, x, y);
    case String(chars) => QuotedIsPrefixFree(chars, b.chars, x, y);
    case Array(items) =>
      Inside(OPEN_ARRAY, CLOSE_ARRAY, Items(a, 0), x);
      Inside(OPEN_ARRAY, CLOSE_ARRAY, Items(b, 0), y);
      ItemsGiveSame(a, b, 0, x, y);
    case Object(entries) =>
      Inside(OPEN_OBJECT, CLOSE_OBJECT, Members(a, SortedKeys(a)), x);
      Inside(OPEN_OBJECT, CLOSE_OBJECT, Members(b, SortedKeys(b)), y);
      MembersGiveSame(a, b, SortedKeys(a), SortedKeys(b), x, y);
      SameByKeys(a, b);
  }

  lemma SameByKeys(a: Json, b: Json)
    requires WellFormed(a) && a.Object? && b.Object?
    requires forall k :: HasKey(b, k) ==> HasKey(a, k)
    requires forall k :: HasKey(a, k) ==> HasKey(b, k) && Same(Get(a, k), Get(b, k))
    ensures Same(a, b)
  {
    forall i | 0 <= i < |a.entries| ensures HasKey(b, a.entries[i].0) && Same(a.entries[i].1, Get(b, a.entries[i].0)) {
      var key := a.entries[i].0;
      assert Keys(a.entries)[i] == key;
      var j := IndexOf(a, key);
      assert Keys(a.entries)[j] == Keys(a.entries)[i];
      assert Same(Get(a, key), Get(b, key));
    }
  }

  lemma Inside(open: Unit, close: Unit, body: Text, x: Text)
    ensures (([open] + (body + [close])) + x)[1..] == body + ([close] + x)
  {
  }

  lemma ItemsEndTogether(a: Json, b: Json, i: nat, s: Text, t: Text)
    requires WellFormed(a) && WellFormed(b) && a.Array? && b.Array? && i <= |a.items| && i <= |b.items|
    requires s != [] && t != [] && s[0] == t[0] == CLOSE_ARRAY
    requires Items(a, i) + s == Items(b, i) + t
    ensures i == |a.items| <==> i == |b.items|
    ensures i == |a.items| ==> s == t
  {
    ItemsLead(a, i, s);
    ItemsLead(b, i, t);
    if i == |a.items| {
      assert Items(a, i) + s == s && Items(b, i) + t == t;
    }
  }

  /** What follows item `i` in the text. */
  function AfterItem(v: Json, i: nat, s: Text): (x: Text)
    requires v.Array? && i < |v.items|
  {
    if i + 1 == |v.items| then s else [COMMA] + (Items(v, i + 1) + s)
  }

  lemma LastItem(v: Json, i: nat, s: Text)
    requires v.Array? && i < |v.items| && s != [] && s[0] == CLOSE_ARRAY
    ensures AfterItem(v, i, s)[0] == CLOSE_ARRAY <==> i + 1 == |v.items|
    ensures i + 1 == |v.items| ==> Items(v, i + 1) + s == AfterItem(v, i, s)
  {
    if i + 1 == |v.items| {
      assert Items(v, i + 1) + s == s;
    }
  }

  lemma {:induction false} ItemsGiveSame(a: Json, b: Json, i: nat, x: Text, y: Text)
    requires WellFormed(a) && WellFormed(b) && a.Array? && b.Array? && i <= |a.items| && i <= |b.items|
    requires Items(a, i) + ([CLOSE_ARRAY] + x) == Items(b, i) + ([CLOSE_ARRAY] + y)
    ensures |a.items| == |b.items| && x == y
    ensures forall j :: i <= j < |a.items| ==> Same(a.items[j], b.items[j])
    decreases a, 0, |a.items| - i
  {
    var s, t := [CLOSE_ARRAY] + x, [CLOSE_ARRAY] + y;
    ItemsEndTogether(a, b, i, s, t);
    if i == |a.items| {
      AfterPrefix([CLOSE_ARRAY], x, y);
    } else {
      var more, less := AfterItem(a, i, s), AfterItem(b, i, t);
      ItemShape(a, i, s);
      ItemShape(b, i, t);
      TextGivesSame(a.items[i], b.items[i], more, less);
      if i + 1 == |a.items| {
        ItemsEndTogether(a, b, i + 1, s, t) by { assert Items(a, i + 1) + s == s; LastItem(b, i, t); }
        AfterPrefix([CLOSE_ARRAY], x, y);
      } else {
        LastItem(b, i, t);
        AfterPrefix([COMMA], Items(a, i + 1) + s, Items(b, i + 1) + t);
        ItemsGiveSame(a, b, i + 1, x, y);
      }
    }
  }

  lemma ItemShape(v: Json, i: nat, s: Text)
    requires v.Array? && i < |v.items|
    ensures Items(v, i) + s == Canonical(v.items[i]) + AfterItem(v, i, s)
  {
    var c := Canonical(v.items[i]);
    if i + 1 == |v.items| {
      assert c + [] == c;
    } else {
      var m := Items(v, i + 1);
      Then(c, [COMMA] + m, s);
      Then([COMMA], m, s);
    }
  }

  lemma ItemsLead(v: Json, i: nat, s: Text)
    requires WellFormed(v) && v.Array? && i <= |v.items| && s != []
    ensures (Items(v, i) + s)[0] == if i == |v.items| then s[0] else Lead(v.items[i])
    ensures i < |v.items| ==> Lead(v.items[i]) != CLOSE_ARRAY
  {
    if i < |v.items| {
      LeadIsFirst(v.items[i], []);
      assert v.items[i].Number? ==> v.items[i].digits[0] in v.items[i].digits;
    }
  }

  lemma {:induction false} MembersGiveSame(a: Json, b: Json, keys: seq<Text>, other: seq<Text>, x: Text, y: Text)
    requires WellFormed(a) && WellFormed(b) && a.Object? && b.Object?
    requires forall k :: k in keys ==> HasKey(a, k)
    requires forall k :: k in other ==> HasKey(b, k)
    requires Members(a, keys) + ([CLOSE_OBJECT] + x) == Members(b, other) + ([CLOSE_OBJECT] + y)
    ensures keys == other && x == y
    ensures forall k :: k in keys ==> HasKey(b, k) && Same(Get(a, k), Get(b, k))
    decreases a, 0, |keys|
  {
    var s, t := [CLOSE_OBJECT] + x, [CLOSE_OBJECT] + y;
    MembersLead(a, keys, s);
    MembersLead(b, other, t);
    if keys == [] {
      assert other == [] && Members(a, keys) + s == s && Members(b, other) + t == t;
      AfterPrefix([CLOSE_OBJECT], x, y);
    } else {
      assert other != [];
      var k, l := keys[0], other[0];
      var more := if |keys| == 1 then s else [COMMA] + (Members(a, keys[1..]) + s);
      var less := if |other| == 1 then t else [COMMA] + (Members(b, other[1..]) + t);
      MemberShape(a, keys, s);
      MemberShape(b, other, t);
      QuotedIsPrefixFree(k, l, [COLON] + (Canonical(Get(a, k)) + more), [COLON] + (Canonical(Get(b, l)) + less));
      AfterPrefix([COLON], Canonical(Get(a, k)) + more, Canonical(Get(b, l)) + less);
      TextGivesSame(Get(a, k), Get(b, l), more, less);
      assert more[0] == less[0];
      if |keys| == 1 {
        AfterPrefix([CLOSE_OBJECT], x, y);
        assert keys == [k] && other == [l];
      } else {
        AfterPrefix([COMMA], Members(a, keys[1..]) + s, Members(b, other[1..]) + t);
        MembersGiveSame(a, b, keys[1..], other[1..], x, y);
        assert keys == [k] + keys[1..] && other == [l] + other[1..];
      }
    }
  }

  lemma MemberShape(v: Json, keys: seq<Text>, s: Text)
    requires keys != [] && forall k :: k in keys ==> HasKey(v, k)
    ensures var more := if |keys| == 1 then s else [COMMA] + (Members(v, keys[1..]) + s);
            Members(v, keys) + s == Quoted(keys[0]) + ([COLON] + (Canonical(Get(v, keys[0])) + more))
  {
    var q, c := Quoted(keys[0]), Canonical(Get(v, keys[0]));
    var member := q + ([COLON] + c);
    if |keys| == 1 {
      assert member + [] == member;
      Then(q, [COLON] + c, s);
      Then([COLON], c, s);
    } else {
      var m := Members(v, keys[1..]);
      Then(member, [COMMA] + m, s);
      Then([COMMA], m, s);
      Then(q, [COLON] + c, [COMMA] + (m + s));
      Then([COLON], c, [COMMA] + (m + s));
    }
  }

  lemma MembersLead(v: Json, keys: seq<Text>, s: Text)
    requires s != [] && forall k :: k in keys ==> HasKey(v, k)
    ensures (Members(v, keys) + s)[0] == if keys == [] then s[0] else QUOTE
  {
  }

  /** Equal texts exactly when the values are equal up to key order: digests and keys lose nothing. */
  lemma CanonicalIdentifies(a: Json, b: Json)
    requires WellFormed(a) && WellFormed(b)
    ensures Canonical(a) == Canonical(b) <==> Same(a, b)
  {
    if Canonical(a) == Canonical(b) {
      TextGivesSame(a, b, [], []);
    }
    if Same(a, b) {
      SameGivesText(a, b);
    }
  }
}
