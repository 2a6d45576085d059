/**
  A reader of JSON by RFC 8259, written with the code points of that standard and none of the writer's
  names: what `canonicalJson` writes is JSON, and reading it gives back the value it was written from.
 */
module JsonReader {
  import opened Wrappers
  import opened Text
  import opened CanonicalJson

  /** Section 6: digits, minus, plus, decimal point, and either exponent mark. */
  predicate InNumber(u: Unit)
  {
    0x30 <= u <= 0x39 || u == 0x2D || u == 0x2B || u == 0x2E || u == 0x65 || u == 0x45
  }

  function NumberLength(t: Text): (n: nat)
    ensures n <= |t|
  {
    if t != [] && InNumber(t[0]) then 1 + NumberLength(t[1..]) else 0
  }

  /** Section 3: a literal name, a string, an array, an object or a number, and what follows it. */
  function Parse(t: Text): (r: Option<(Json, Text)>)
    ensures r.Some? ==> |r.value.1| < |t|
    decreases |t|, 1
  {
    if t == [] then None
    else if t[0] == 0x6E then Literal(t, [0x6E, 0x75, 0x6C, 0x6C], Null)
    else if t[0] == 0x74 then Literal(t, [0x74, 0x72, 0x75, 0x65], Bool(true))
    else if t[0] == 0x66 then Literal(t, [0x66, 0x61, 0x6C, 0x73, 0x65], Bool(false))
    else if t[0] == 0x22 then
      var s := ReadChars(t[1..]);
      if s.None? then None else Some((String(s.value.0), s.value.1))
    else if t[0] == 0x5B then
      if |t| > 1 && t[1] == 0x5D then Some((Array([]), t[2..]))
      else
        var items := ParseItems(t[1..]);
        if items.None? then None else Some((Array(items.value.0), items.value.1))
    else if t[0] == 0x7B then
      if |t| > 1 && t[1] == 0x7D then Some((Object([]), t[2..]))
      else
        var members := ParseMembers(t[1..]);
        if members.None? then None else Some((Object(members.value.0), members.value.1))
    else if NumberLength(t) > 0 then Some((Number(t[..NumberLength(t)]), t[NumberLength(t)..]))
    else None
  }

  function Literal(t: Text, name: Text, v: Json): (r: Option<(Json, Text)>)
    requires name != []
    ensures r.Some? ==> |r.value.1| < |t|
  {
    if |name| <= |t| && t[..|name|] == name then Some((v, t[|name|..])) else None
  }

  /** Section 5: values separated by commas, up to the closing bracket. */
  function ParseItems(t: Text): (r: Option<(seq<Json>, Text)>)
    ensures r.Some? ==> |r.value.1| < |t|
    decreases |t|, 2
  {
    var first := Parse(t);
    if first.None? || first.value.1 == [] then None
    else if first.value.1[0] == 0x5D then Some(([first.value.0], first.value.1[1..]))
    else if first.value.1[0] == 0x2C then
      var more := ParseItems(first.value.1[1..]);
      if more.None? then None else Some(([first.value.0] + more.value.0, more.value.1))
    else None
  }

  /** Section 4: names and values joined by colons, separated by commas, up to the closing brace. */
  function ParseMembers(t: Text): (r: Option<(seq<(Text, Json)>, Text)>)
    ensures r.Some? ==> |r.value.1| < |t|
    decreases |t|, 2
  {
    if t == [] || t[0] != 0x22 then None
    else
      var name := ReadChars(t[1..]);
      if name.None? || name.value.1 == [] || name.value.1[0] != 0x3A then None
      else
        var first := Parse(name.value.1[1..]);
        if first.None? || first.value.1 == [] then None
        else if first.value.1[0] == 0x7D then Some(([(name.value.0, first.value.0)], first.value.1[1..]))
        else if first.value.1[0] == 0x2C then
          var more := ParseMembers(first.value.1[1..]);
          if more.None? then None else Some(([(name.value.0, first.value.0)] + more.value.0, more.value.1))
        else None
  }

  // ----- what was written is read back

  ghost predicate ReadsAs(r: Option<(Json, Text)>, v: Json, rest: Text)
  {
    r.Some? && r.value.1 == rest && Same(v, r.value.0)
  }

  lemma {:induction false} NumberEnds(digits: Text, rest: Text)
    requires (forall u :: u in digits ==> NumberUnit(u)) && Follows(rest)
    ensures NumberLength(digits + rest) == |digits|
  {
    if digits == [] {
      assert digits + rest == rest;
    } else {
      assert digits[0] in digits;
      assert (digits + rest)[1..] == digits[1..] + rest;
      NumberEnds(digits[1..], rest);
    }
  }

  lemma ReadsNumber(v: Json, rest: Text)
    requires v.Number? && WellFormed(v) && Follows(rest)
    ensures ReadsAs(Parse(Canonical(v) + rest), v, rest)
  {
    NumberEnds(v.digits, rest);
    assert (v.digits + rest)[0] == v.digits[0];
    assert (v.digits + rest)[..|v.digits|] == v.digits && (v.digits + rest)[|v.digits|..] == rest;
  }

  lemma ReadsLiteral(t: Text, name: Text, v: Json, rest: Text)
    requires name != [] && t == name + rest
    ensures Literal(t, name, v) == Some((v, rest))
  {
    assert t[..|name|] == name && t[|name|..] == rest;
  }

  lemma StringOf(t: Text, chars: Text, rest: Text)
    requires t != [] && t[0] == 0x22 && ReadChars(t[1..]) == Some((chars, rest))
    ensures Parse(t) == Some((String(chars), rest))
  {
  }

  lemma QuotedIsRead(chars: Text, rest: Text)
    ensures Parse(Quoted(chars) + rest) == Some((String(chars), rest))
  {
    QuotedThen(chars, rest);
    ReadsChars(chars, rest);
    StringOf(Quoted(chars) + rest, chars, rest);
  }

  lemma ReadsString(v: Json, rest: Text)
    requires v.String?
    ensures ReadsAs(Parse(Canonical(v) + rest), v, rest)
  {
    QuotedIsRead(v.chars, rest);
  }

  /** Reading the canonical text of a value, whatever follows it, gives the value up to the order of keys, and the rest. */
  lemma {:induction false} ReadsBack(v: Json, rest: Text)
    requires WellFormed(v) && Follows(rest)
    ensures ReadsAs(Parse(Canonical(v) + rest), v, rest)
    decreases v, 2, 0
  {
    var t := Canonical(v) + rest;
    match v
    case Null => ReadsLiteral(t, [0x6E, 0x75, 0x6C, 0x6C], Null, rest);
    case Absent => ReadsLiteral(t, [0x6E, 0x75, 0x6C, 0x6C], Null, rest);
    case Bool(true) => ReadsLiteral(t, [0x74, 0x72, 0x75, 0x65], Bool(true), rest);
    case Bool(false) => ReadsLiteral(t, [0x66, 0x61, 0x6C, 0x73, 0x65], Bool(false), rest);
    case Number(_) => ReadsNumber(v, rest);
    case String(_) => ReadsString(v, rest);
    case Array(_) => ReadsArray(v, rest);
    case Object(_) => ReadsObject(v, rest);
  }

  lemma {:induction false} ReadsArray(v: Json, rest: Text)
    requires WellFormed(v) && v.Array?
    ensures ReadsAs(Parse(Canonical(v) + rest), v, rest)
    decreases v, 1, 0
  {
    var t := Canonical(v) + rest;
    Inside(OPEN_ARRAY, CLOSE_ARRAY, Items(v, 0), rest);
    ItemsLead(v, 0, [CLOSE_ARRAY] + rest);
    assert t[0] == 0x5B && t[1] == t[1..][0];
    if v.items == [] {
      assert t[2..] == rest;
    } else {
      ReadsItems(v, 0, rest);
    }
  }

  ghost predicate ItemsReadAs(r: Option<(seq<Json>, Text)>, v: Json, i: nat, rest: Text)
    requires v.Array? && i <= |v.items|
  {
    r.Some? && r.value.1 == rest && |r.value.0| == |v.items| - i
    && forall j :: i <= j < |v.items| ==> Same(v.items[j], r.value.0[j - i])
  }

  lemma {:induction false} ReadsItems(v: Json, i: nat, rest: Text)
    requires WellFormed(v) && v.Array? && i < |v.items|
    ensures ItemsReadAs(ParseItems(Items(v, i) + ([CLOSE_ARRAY] + rest)), v, i, rest)
    decreases v, 0, |v.items| - i
  {
    var s := [CLOSE_ARRAY] + rest;
    var after := AfterItem(v, i, s);
    ItemShape(v, i, s);
    ReadsBack(v.items[i], after);
    var t := Canonical(v.items[i]) + after;
    if i + 1 == |v.items| {
      LastOfItems(t, Parse(t).value.0, rest);
    } else {
      ReadsItems(v, i + 1, rest);
      MoreItems(t, Parse(t).value.0, Items(v, i + 1) + s);
      OneMoreItem(ParseItems(Items(v, i + 1) + s), v, i, Parse(t).value.0, rest);
    }
  }

  lemma LastOfItems(t: Text, w: Json, rest: Text)
    requires Parse(t) == Some((w, [CLOSE_ARRAY] + rest))
    ensures ParseItems(t) == Some(([w], rest))
  {
    assert ([CLOSE_ARRAY] + rest)[1..] == rest;
  }

  lemma MoreItems(t: Text, w: Json, more: Text)
    requires Parse(t) == Some((w, [COMMA] + more)) && ParseItems(more).Some?
    ensures ParseItems(t) == Some(([w] + ParseItems(more).value.0, ParseItems(more).value.1))
  {
    assert ([COMMA] + more)[1..] == more;
  }

  lemma OneMoreItem(r: Option<(seq<Json>, Text)>, v: Json, i: nat, w: Json, rest: Text)
    requires v.Array? && i < |v.items| && ItemsReadAs(r, v, i + 1, rest) && Same(v.items[i], w)
    ensures ItemsReadAs(Some(([w] + r.value.0, r.value.1)), v, i, rest)
  {
  }

  lemma {:induction false} ReadsObject(v: Json, rest: Text)
    requires WellFormed(v) && v.Object?
    ensures ReadsAs(Parse(Canonical(v) + rest), v, rest)
    decreases v, 1, 0
  {
    var t := Canonical(v) + rest;
    var keys := SortedKeys(v);
    Inside(OPEN_OBJECT, CLOSE_OBJECT, Members(v, keys), rest);
    MembersLead(v, keys, [CLOSE_OBJECT] + rest);
    assert t[0] == 0x7B && t[1] == t[1..][0];
    if keys == [] {
      assert t[2..] == rest;
      EmptyIsSame(v);
    } else {
      ReadsMembers(v, keys, rest);
      SortKeepsDistinct(Keys(v.entries));
      MembersMakeObject(v, t, keys, rest);
    }
  }

  lemma MembersMakeObject(v: Json, t: Text, keys: seq<Text>, rest: Text)
    requires WellFormed(v) && v.Object? && Distinct(keys) && forall k :: k in keys <==> HasKey(v, k)
    requires |t| > 1 && t[0] == 0x7B && t[1] != 0x7D && MembersReadAs(ParseMembers(t[1..]), v, keys, rest)
    ensures ReadsAs(Parse(t), v, rest)
  {
    var entries := ParseMembers(t[1..]).value.0;
    ObjectOf(t, entries, rest);
    AlignedIsSame(v, keys, entries);
  }

  lemma ObjectOf(t: Text, entries: seq<(Text, Json)>, rest: Text)
    requires |t| > 1 && t[0] == 0x7B && t[1] != 0x7D && ParseMembers(t[1..]) == Some((entries, rest))
    ensures Parse(t) == Some((Object(entries), rest))
  {
  }

  lemma SomeEntrySomeKey(v: Json)
    requires v.Object?
    ensures v.entries != [] ==> SortedKeys(v) != []
  {
    if v.entries != [] {
      assert HasKey(v, Keys(v.entries)[0]);
    }
  }

  lemma EmptyIsSame(v: Json)
    requires v.Object? && SortedKeys(v) == []
    ensures Same(v, Object([]))
  {
    assert forall k :: k in SortedKeys(v) <==> HasKey(v, k);
    SomeEntrySomeKey(v);
  }

  /** One entry for each key, in the order of the keys, each with the value the key has. */
  ghost predicate Aligned(v: Json, keys: seq<Text>, entries: seq<(Text, Json)>)
    requires forall k :: k in keys ==> HasKey(v, k)
  {
    |entries| == |keys| && forall j :: 0 <= j < |keys| ==> entries[j].0 == keys[j] && Same(Get(v, keys[j]), entries[j].1)
  }

  lemma AlignedIsSame(v: Json, keys: seq<Text>, entries: seq<(Text, Json)>)
    requires WellFormed(v) && v.Object? && Distinct(keys)
    requires forall k :: k in keys <==> HasKey(v, k)
    requires Aligned(v, keys, entries)
    ensures Same(v, Object(entries))
  {
    var w := Object(entries);
    assert Keys(entries) == keys;
    forall k | HasKey(v, k) ensures HasKey(w, k) && Same(Get(v, k), Get(w, k)) {
      var j :| 0 <= j < |keys| && keys[j] == k;
      assert Keys(entries)[j] == k;
      assert keys[IndexOf(w, k)] == entries[IndexOf(w, k)].0 == k;
    }
    SameByKeys(v, w);
  }

  ghost predicate MembersReadAs(r: Option<(seq<(Text, Json)>, Text)>, v: Json, keys: seq<Text>, rest: Text)
    requires forall k :: k in keys ==> HasKey(v, k)
  {
    r.Some? && r.value.1 == rest && Aligned(v, keys, r.value.0)
  }

  lemma {:induction false} ReadsMembers(v: Json, keys: seq<Text>, rest: Text)
    requires WellFormed(v) && v.Object? && keys != [] && forall k :: k in keys ==> HasKey(v, k)
    ensures MembersReadAs(ParseMembers(Members(v, keys) + ([CLOSE_OBJECT] + rest)), v, keys, rest)
    decreases v, 0, |keys|
  {
    var s := [CLOSE_OBJECT] + rest;
    var more := if |keys| == 1 then s else [COMMA] + (Members(v, keys[1..]) + s);
    var tail := [COLON] + (Canonical(Get(v, keys[0])) + more);
    MemberShape(v, keys, s);
    QuotedThen(keys[0], tail);
    ReadsChars(keys[0], tail);
    assert tail[1..] == Canonical(Get(v, keys[0])) + more;
    ValueIsWellFormed(v, keys[0]);
    ReadsBack(Get(v, keys[0]), more);
    var t := Quoted(keys[0]) + tail;
    var w := Parse(Canonical(Get(v, keys[0])) + more).value.0;
    if |keys| == 1 {
      LastOfMembers(t, keys[0], w, rest);
      assert keys == [keys[0]];
    } else {
      ReadsMembers(v, keys[1..], rest);
      MoreMembers(t, keys[0], w, Members(v, keys[1..]) + s);
      OneMoreMember(ParseMembers(Members(v, keys[1..]) + s), v, keys, w, rest);
    }
  }

  /** `t` starts with a name and a value, and `after` follows. */
  ghost predicate StartsMember(t: Text, name: Text, w: Json, after: Text)
  {
    t != [] && t[0] == 0x22
    && var n := ReadChars(t[1..]);
       n.Some? && n.value.0 == name && n.value.1 != [] && n.value.1[0] == 0x3A && Parse(n.value.1[1..]) == Some((w, after))
  }

  lemma LastOfMembers(t: Text, name: Text, w: Json, rest: Text)
    requires StartsMember(t, name, w, [CLOSE_OBJECT] + rest)
    ensures ParseMembers(t) == Some(([(name, w)], rest))
  {
    assert ([CLOSE_OBJECT] + rest)[1..] == rest;
  }

  lemma MoreMembers(t: Text, name: Text, w: Json, more: Text)
    requires StartsMember(t, name, w, [COMMA] + more) && ParseMembers(more).Some?
    ensures ParseMembers(t) == Some(([(name, w)] + ParseMembers(more).value.0, ParseMembers(more).value.1))
  {
    assert ([COMMA] + more)[1..] == more;
  }

  lemma OneMoreMember(r: Option<(seq<(Text, Json)>, Text)>, v: Json, keys: seq<Text>, w: Json, rest: Text)
    requires keys != [] && (forall k :: k in keys ==> HasKey(v, k))
    requires MembersReadAs(r, v, keys[1..], rest) && Same(Get(v, keys[0]), w)
    ensures MembersReadAs(Some(([(keys[0], w)] + r.value.0, r.value.1)), v, keys, rest)
  {
  }

  lemma ValueIsWellFormed(v: Json, k: Text)
    requires WellFormed(v) && HasKey(v, k)
    ensures WellFormed(Get(v, k))
  {
  }

  /** The whole text is one JSON value, and it is the value it was written from. */
  lemma CanonicalIsJson(v: Json)
    requires WellFormed(v)
    ensures ReadsAs(Parse(Canonical(v)), v, [])
  {
    ReadsBack(v, []);
    assert Canonical(v) + [] == Canonical(v);
  }

  /** The names of an object stand in the order of their code units. */
  lemma NamesStandInOrder(v: Json)
    requires WellFormed(v) && v.Object?
    ensures var r := Parse(Canonical(v));
      r.Some? && r.value.0.Object? && Sorted(Keys(r.value.0.entries)) && forall k :: k in Keys(r.value.0.entries) <==> HasKey(v, k)
  {
    SortSorts(Keys(v.entries));
    ObjectReadsAs(v, SortedKeys(v));
  }

  lemma ObjectReadsAs(v: Json, keys: seq<Text>)
    requires WellFormed(v) && v.Object? && keys == SortedKeys(v)
    ensures var r := Parse(Canonical(v)); r.Some? && r.value.0.Object? && Keys(r.value.0.entries) == keys
  {
    var t := Canonical(v);
    assert t == [OPEN_OBJECT] + (Members(v, keys) + [CLOSE_OBJECT]);
    if keys == [] {
      assert t == [OPEN_OBJECT, CLOSE_OBJECT];
    } else {
      MembersLead(v, keys, [CLOSE_OBJECT]);
      assert [CLOSE_OBJECT] + [] == [CLOSE_OBJECT];
      assert t[1..] == Members(v, keys) + [CLOSE_OBJECT] && t[1] == t[1..][0];
      ReadsMembers(v, keys, []);
      var entries := ParseMembers(t[1..]).value.0;
      ObjectOf(t, entries, []);
      assert Keys(entries) == keys;
    }
  }

  /** A control character is written with the hex digits that `JSON.stringify` uses: the small ones. */
  lemma HexIsLowerCase(u: Unit)
    requires |EscapeUnit(u)| == 6
    ensures forall i :: 2 <= i < 6 ==> 0x30 <= EscapeUnit(u)[i] <= 0x39 || 0x61 <= EscapeUnit(u)[i] <= 0x66
  {
  }
}
