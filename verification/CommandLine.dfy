/**
  Windows argument quoting, packages/terminal-runtime/src/resolve-command.ts: `quoteForCmd` and the
  line that `resolveCommand` joins for a batch file, against the rules by which the started program
  splits that line again (CommandLineToArgvW and the Microsoft C runtime).
 */
module CommandLine {
  import opened Wrappers

  // ----- what the source writes

  /** Length of the backslash run at the front of `s`. */
  function Run(s: string): (n: nat)
    ensures n <= |s|
    ensures forall i :: 0 <= i < n ==> s[i] == '\\'
    ensures n < |s| ==> s[n] != '\\'
  {
    if s != "" && s[0] == '\\' then 1 + Run(s[1..]) else 0
  }

  function Backslashes(n: nat): (s: string)
    ensures |s| == n && forall i :: 0 <= i < n ==> s[i] == '\\'
  {
    seq(n, _ => '\\')
  }

  predicate Quotable(value: string)
  {
    '%' !in value && '!' !in value && '\r' !in value && '\n' !in value
  }

  /** `value.replace(/(\\*)"/g, '$1$1\\"')`: a match starts here, or this character is copied. */
  function EscapeQuotes(s: string): string
  {
    var n := Run(s);
    if s == "" then ""
    else if n < |s| && s[n] == '"' then Backslashes(2 * n) + "\\\"" + EscapeQuotes(s[n + 1..])
    else [s[0]] + EscapeQuotes(s[1..])
  }

  /** `.replace(/(\\*)$/, "$1$1")`: the leftmost match is the run that ends the text. */
  function DoubleTail(s: string): string
  {
    if Run(s) == |s| then s + s else [s[0]] + DoubleTail(s[1..])
  }

  /** The text written between the quotes. */
  function Body(value: string): string
  {
    DoubleTail(EscapeQuotes(value))
  }

  function QuoteForCmd(value: string): (r: Result<string, string>)
  {
    if !Quotable(value) then Err("terminal_windows_argument_not_quotable")
    else Ok("\"" + Body(value) + "\"")
  }

  /** `values.map(quoteForCmd).join(" ")`; one value that cannot be quoted fails the whole line. */
  function QuoteLine(values: seq<string>): (r: Result<string, string>)
  {
    if values == [] then Ok("")
    else
      var head := QuoteForCmd(values[0]);
      if head.Err? then head
      else if |values| == 1 then head
      else
        var tail := QuoteLine(values[1..]);
        if tail.Err? then tail else Ok(head.value + " " + tail.value)
  }

  /** `BATCH_SUFFIXES`, whatever the case: only such a file is started through a joined line. */
  predicate IsBatch(found: string)
  {
    |found| >= 4
    && var suffix := found[|found| - 4..];
       suffix[0] == '.'
       && ((suffix[1] in "bB" && suffix[2] in "aA" && suffix[3] in "tT")
           || (suffix[1] in "cC" && suffix[2] in "mM" && suffix[3] in "dD"))
  }

  // ----- how the started program reads it

  predicate IsBlank(c: char)
  {
    c == ' ' || c == '\t'
  }

  /** One step of reading an argument: it ends here, or reading goes on. */
  datatype Reading = Done(read: string, rest: string) | More(rest: string, quoted: bool, read: string)

  /**
    2n backslashes and a quote give n backslashes and switch quoting; 2n+1 give n backslashes and a literal
    quote; inside quotes a doubled quote is one literal quote; other backslashes are literal; a blank outside
    quotes ends the argument.
   */
  function ReadStep(s: string, quoted: bool, read: string): (r: Reading)
    ensures r.More? ==> |r.rest| < |s|
    ensures r.Done? ==> |r.rest| <= |s| && (s != "" && (quoted || !IsBlank(s[0])) ==> |r.rest| < |s|)
  {
    var n := Run(s);
    if n == |s| then Done(read + s, "")
    else if s[n] == '"' then
      var halved := read + Backslashes(n / 2);
      if n % 2 == 1 then More(s[n + 1..], quoted, halved + "\"")
      else if quoted && n + 1 < |s| && s[n + 1] == '"' then More(s[n + 2..], quoted, halved + "\"")
      else More(s[n + 1..], !quoted, halved)
    else if n > 0 then More(s[n..], quoted, read + Backslashes(n))
    else if !quoted && IsBlank(s[0]) then Done(read, s)
    else More(s[1..], quoted, read + [s[0]])
  }

  /** Reads the rest of one argument. */
  function ReadArgument(s: string, quoted: bool, read: string): (r: (string, string))
    ensures |r.1| <= |s|
    ensures s != "" && (quoted || !IsBlank(s[0])) ==> |r.1| < |s|
    decreases |s|
  {
    match ReadStep(s, quoted, read)
    case Done(all, rest) => (all, rest)
    case More(rest, now, more) => ReadArgument(rest, now, more)
  }

  /** The arguments after the program name. */
  function SplitArguments(s: string): (args: seq<string>)
    decreases |s|
  {
    if s == "" then []
    else if IsBlank(s[0]) then SplitArguments(s[1..])
    else
      var (arg, rest) := ReadArgument(s, false, "");
      [arg] + SplitArguments(rest)
  }

  /** The program name has its own rule: quoted, it runs to the next quote and nothing is an escape. */
  function ProgramName(s: string): (r: Option<(string, string)>)
  {
    if s == "" || s[0] != '"' then None
    else
      var close := IndexOfQuote(s[1..]);
      if close == |s| - 1 then None else Some((s[1..1 + close], s[close + 2..]))
  }

  function IndexOfQuote(s: string): (i: nat)
    ensures i <= |s|
    ensures i < |s| ==> s[i] == '"'
    ensures forall j :: 0 <= j < i ==> s[j] != '"'
  {
    if s == "" || s[0] == '"' then 0 else 1 + IndexOfQuote(s[1..])
  }

  // ----- the round trip

  lemma {:induction false} RunOf(n: nat, c: char, rest: string)
    requires c != '\\'
    ensures Run(Backslashes(n) + ([c] + rest)) == n
  {
    var s := Backslashes(n) + ([c] + rest);
    assert s[n] == c;
    assert forall i :: 0 <= i < n ==> s[i] == '\\';
  }

  lemma PeelBackslash(n: nat, rest: string)
    requires n > 0
    ensures (Backslashes(n) + rest)[1..] == Backslashes(n - 1) + rest
    ensures (Backslashes(n) + rest)[0] == '\\'
    ensures Backslashes(n) + rest == ['\\'] + (Backslashes(n - 1) + rest)
  {
  }

  lemma {:induction false} DoubleTailAt(n: nat, c: char, rest: string)
    requires c != '\\'
    ensures DoubleTail(Backslashes(n) + ([c] + rest)) == Backslashes(n) + ([c] + DoubleTail(rest))
  {
    RunOf(n, c, rest);
    if n == 0 {
      assert Backslashes(0) + ([c] + rest) == [c] + rest;
      assert ([c] + rest)[1..] == rest;
      assert Backslashes(0) + ([c] + DoubleTail(rest)) == [c] + DoubleTail(rest);
    } else {
      PeelBackslash(n, [c] + rest);
      DoubleTailAt(n - 1, c, rest);
      PeelBackslash(n, [c] + DoubleTail(rest));
    }
  }

  lemma {:induction false} EscapePlainAt(n: nat, c: char, rest: string)
    requires c != '\\' && c != '"'
    ensures EscapeQuotes(Backslashes(n) + ([c] + rest)) == Backslashes(n) + ([c] + EscapeQuotes(rest))
  {
    RunOf(n, c, rest);
    if n == 0 {
      assert Backslashes(0) + ([c] + rest) == [c] + rest;
      assert ([c] + rest)[1..] == rest;
      assert Backslashes(0) + ([c] + EscapeQuotes(rest)) == [c] + EscapeQuotes(rest);
    } else {
      PeelBackslash(n, [c] + rest);
      EscapePlainAt(n - 1, c, rest);
      PeelBackslash(n, [c] + EscapeQuotes(rest));
    }
  }

  lemma EscapeQuoteAt(n: nat, rest: string)
    ensures EscapeQuotes(Backslashes(n) + (['"'] + rest)) == Backslashes(2 * n + 1) + (['"'] + EscapeQuotes(rest))
  {
    var s := Backslashes(n) + (['"'] + rest);
    RunOf(n, '"', rest);
    assert s[n + 1..] == rest;
    var e := EscapeQuotes(rest);
    assert Backslashes(2 * n) + "\\\"" + e == Backslashes(2 * n + 1) + (['"'] + e);
  }

  lemma {:induction false} EscapeOnlyRun(n: nat)
    ensures EscapeQuotes(Backslashes(n)) == Backslashes(n)
  {
    var s := Backslashes(n);
    assert forall i :: 0 <= i < n ==> s[i] == '\\';
    if n > 0 {
      assert s[1..] == Backslashes(n - 1) && s == [s[0]] + Backslashes(n - 1);
      EscapeOnlyRun(n - 1);
    }
  }

  lemma BodyOfRun(n: nat)
    ensures Body(Backslashes(n)) == Backslashes(2 * n)
  {
    EscapeOnlyRun(n);
    var s := Backslashes(n);
    assert forall i :: 0 <= i < n ==> s[i] == '\\';
    assert s + s == Backslashes(2 * n);
  }

  lemma BodyAt(n: nat, c: char, rest: string)
    requires c != '\\'
    ensures Body(Backslashes(n) + ([c] + rest))
         == Backslashes(if c == '"' then 2 * n + 1 else n) + ([c] + Body(rest))
  {
    if c == '"' {
      EscapeQuoteAt(n, rest);
      DoubleTailAt(2 * n + 1, c, EscapeQuotes(rest));
    } else {
      EscapePlainAt(n, c, rest);
      DoubleTailAt(n, c, EscapeQuotes(rest));
    }
  }

  lemma CutAt(value: string, n: nat)
    requires n < |value|
    ensures value == value[..n] + ([value[n]] + value[n + 1..])
  {
  }

  lemma SplitAtRun(value: string)
    requires Run(value) < |value|
    ensures value == Backslashes(Run(value)) + ([value[Run(value)]] + value[Run(value) + 1..])
  {
    CutAt(value, Run(value));
    assert value[..Run(value)] == Backslashes(Run(value));
  }

  lemma OddRun(s: string, read: string, n: nat)
    requires Run(s) == 2 * n + 1 < |s| && s[Run(s)] == '"'
    ensures ReadStep(s, true, read) == More(s[2 * n + 2..], true, read + Backslashes(n) + "\"")
  {
    assert Run(s) / 2 == n && Run(s) % 2 == 1;
  }

  lemma EvenRun(s: string, read: string, n: nat)
    requires Run(s) == 2 * n < |s| && s[Run(s)] == '"' && (2 * n + 1 < |s| ==> s[2 * n + 1] != '"')
    ensures ReadStep(s, true, read) == More(s[2 * n + 1..], false, read + Backslashes(n))
  {
    assert Run(s) / 2 == n && Run(s) % 2 == 0;
  }

  lemma ReadEscapedQuote(n: nat, tail: string, read: string)
    ensures ReadArgument(Backslashes(2 * n + 1) + (['"'] + tail), true, read)
         == ReadArgument(tail, true, read + Backslashes(n) + "\"")
  {
    var s := Backslashes(2 * n + 1) + (['"'] + tail);
    RunOf(2 * n + 1, '"', tail);
    OddRun(s, read, n);
    assert s[2 * n + 2..] == tail;
  }

  lemma ReadClosing(n: nat, after: string, read: string)
    requires after == "" || after[0] == ' '
    ensures ReadArgument(Backslashes(2 * n) + (['"'] + after), true, read)
         == ReadArgument(after, false, read + Backslashes(n))
  {
    var s := Backslashes(2 * n) + (['"'] + after);
    RunOf(2 * n, '"', after);
    EvenRun(s, read, n);
    assert s[2 * n + 1..] == after;
  }

  lemma ReadPlain(n: nat, c: char, tail: string, read: string)
    requires c != '"' && c != '\\'
    ensures ReadArgument(Backslashes(n) + ([c] + tail), true, read)
         == ReadArgument(tail, true, read + Backslashes(n) + [c])
  {
    var t := [c] + tail;
    RunOf(n, c, tail);
    assert Run(t) == 0;
    assert t[1..] == tail;
    assert (Backslashes(n) + t)[n..] == t;
    if n == 0 {
      assert Backslashes(n) + t == t;
      assert read + Backslashes(n) == read;
    }
  }

  /** Inside the quotes the reader takes exactly the value and stops at the closing quote. */
  lemma {:induction false} ReadBack(value: string, after: string, read: string)
    requires after == "" || after[0] == ' '
    ensures ReadArgument(Body(value) + (['"'] + after), true, read) == ReadArgument(after, false, read + value)
    decreases |value|
  {
    var n := Run(value);
    if n == |value| {
      assert value == Backslashes(n);
      BodyOfRun(n);
      ReadClosing(n, after, read);
    } else {
      var c, rest := value[n], value[n + 1..];
      SplitAtRun(value);
      BodyAt(n, c, rest);
      var tail := Body(rest) + (['"'] + after);
      var m := if c == '"' then 2 * n + 1 else n;
      AppendAssociates(Backslashes(m), [c], Body(rest), ['"'] + after);
      if c == '"' {
        ReadEscapedQuote(n, tail, read);
      } else {
        ReadPlain(n, c, tail, read);
      }
      ReadBack(rest, after, read + Backslashes(n) + [c]);
      AppendAssociates(read, Backslashes(n), [c], rest);
    }
  }

  lemma AppendAssociates(a: string, b: string, c: string, d: string)
    ensures (a + (b + c)) + d == a + (b + (c + d))
    ensures ((a + b) + c) + d == a + (b + (c + d))
  {
  }

  lemma OpeningQuote(inner: string)
    ensures ReadArgument(['"'] + inner, false, "") == ReadArgument(inner, true, "")
  {
    var line := ['"'] + inner;
    assert Run(line) == 0 && line[1..] == inner;
    assert "" + Backslashes(0) == "";
    assert ReadStep(line, false, "") == More(inner, true, "");
  }

  lemma ReadQuoted(value: string, after: string)
    requires after == "" || after[0] == ' '
    ensures ReadArgument("\"" + Body(value) + "\"" + after, false, "") == (value, after)
  {
    var inner := Body(value) + (['"'] + after);
    assert "\"" + Body(value) + "\"" + after == ['"'] + inner;
    OpeningQuote(inner);
    ReadBack(value, after, "");
    assert "" + value == value;
    ArgumentEnds(value, after);
  }

  lemma ArgumentEnds(value: string, after: string)
    requires after == "" || after[0] == ' '
    ensures ReadArgument(after, false, value) == (value, after)
  {
    assert after != "" ==> Run(after) == 0;
    assert value + "" == value;
  }

  /** A line is produced exactly when every argument can be quoted. */
  lemma {:induction false} QuoteLineDefined(values: seq<string>)
    ensures QuoteLine(values).Ok? <==> forall v :: v in values ==> Quotable(v)
    ensures QuoteLine(values).Err? ==> QuoteLine(values).error == "terminal_windows_argument_not_quotable"
  {
    if values != [] {
      QuoteLineDefined(values[1..]);
      assert values == [values[0]] + values[1..];
    }
  }

  lemma SplitStep(value: string, after: string)
    requires after == "" || after[0] == ' '
    ensures SplitArguments("\"" + Body(value) + "\"" + after) == [value] + SplitArguments(after)
  {
    ReadQuoted(value, after);
    assert ("\"" + Body(value) + "\"" + after)[0] == '"';
  }

  /** Splitting the joined line gives back the arguments, for every list that can be quoted. */
  lemma {:induction false} RoundTrip(values: seq<string>)
    requires forall v :: v in values ==> Quotable(v)
    ensures QuoteLine(values).Ok? && SplitArguments(QuoteLine(values).value) == values
  {
    QuoteLineDefined(values);
    if |values| == 1 {
      SplitStep(values[0], "");
      assert "\"" + Body(values[0]) + "\"" + "" == QuoteLine(values).value;
      assert values == [values[0]];
    } else if |values| > 1 {
      RoundTrip(values[1..]);
      var tail := QuoteLine(values[1..]).value;
      SplitStep(values[0], " " + tail);
      JoinedLine(values);
      assert (" " + tail)[1..] == tail;
      assert SplitArguments(" " + tail) == SplitArguments(tail);
    }
  }

  lemma JoinedLine(values: seq<string>)
    requires |values| > 1 && QuoteLine(values).Ok?
    ensures QuoteLine(values[1..]).Ok?
    ensures QuoteLine(values).value == "\"" + Body(values[0]) + "\"" + (" " + QuoteLine(values[1..]).value)
  {
  }

  /** No two different argument lists can reach the program as the same line. */
  lemma QuotingIsInjective(a: seq<string>, b: seq<string>)
    requires QuoteLine(a).Ok? && QuoteLine(a) == QuoteLine(b)
    ensures a == b
  {
    QuoteLineDefined(a);
    QuoteLineDefined(b);
    RoundTrip(a);
    RoundTrip(b);
  }

  lemma {:induction false} NothingToEscape(s: string)
    requires '"' !in s && (s == "" || s[|s| - 1] != '\\')
    ensures Body(s) == s
    decreases |s|
  {
    if s == "" {
      BodyOfRun(0);
      assert Backslashes(0) == "";
    } else {
      var n := Run(s);
      assert n < |s|;
      SplitAtRun(s);
      BodyAt(n, s[n], s[n + 1..]);
      NothingToEscape(s[n + 1..]);
    }
  }

  lemma QuotedNameEnds(found: string, after: string)
    requires '"' !in found
    ensures ProgramName("\"" + found + "\"" + after) == Some((found, after))
  {
    var line := "\"" + found + "\"" + after;
    var inner := line[1..];
    var close := IndexOfQuote(inner);
    assert inner[|found|] == '"';
    assert forall i :: 0 <= i < |found| ==> inner[i] == found[i] && found[i] in found;
    assert line[1..1 + close] == found;
    assert line[close + 2..] == after;
  }

  /**
    The whole line of `resolveCommand`: the resolved batch file comes first and is read by the program
    name's rule, under which nothing is an escape. A Windows path holds no quote and a batch file does
    not end in a backslash, so both rules read the same name.
   */
  lemma CommandRoundTrip(found: string, args: seq<string>)
    requires '"' !in found && IsBatch(found)
    requires forall v :: v in [found] + args ==> Quotable(v)
    ensures QuoteLine([found] + args).Ok?
    ensures var program := ProgramName(QuoteLine([found] + args).value);
            program.Some? && program.value.0 == found && SplitArguments(program.value.1) == args
  {
    var all := [found] + args;
    QuoteLineDefined(all);
    NothingToEscape(found);
    assert all[1..] == args;
    assert forall v :: v in args ==> v in all;
    RoundTrip(args);
    if args == [] {
      QuotedNameEnds(found, "");
      assert "\"" + found + "\"" + "" == QuoteLine(all).value;
    } else {
      var tail := QuoteLine(args).value;
      JoinedLine(all);
      QuotedNameEnds(found, " " + tail);
      assert (" " + tail)[1..] == tail;
      assert SplitArguments(" " + tail) == SplitArguments(tail);
    }
  }

  // ----- what never gets into a line

  /** A percent sign or an exclamation mark, which `cmd.exe` expands even inside quotes, or a line break. */
  predicate Expands(c: char)
  {
    c == '%' || c == '!' || c == '\r' || c == '\n'
  }

  predicate Inert(s: string)
  {
    forall c :: c in s ==> !Expands(c)
  }

  lemma InertParts(a: string, b: string)
    ensures Inert(a + b) <==> Inert(a) && Inert(b)
  {
    assert forall c :: c in a + b <==> c in a || c in b;
  }

  lemma {:induction false} EscapingAddsNothing(s: string)
    requires Inert(s)
    ensures Inert(EscapeQuotes(s))
    decreases |s|
  {
    var n := Run(s);
    if s != "" && n < |s| && s[n] == '"' {
      assert Inert(s[n + 1..]);
      EscapingAddsNothing(s[n + 1..]);
      assert Inert(Backslashes(2 * n)) && Inert("\\\"");
      InertParts(Backslashes(2 * n), "\\\"");
      InertParts(Backslashes(2 * n) + "\\\"", EscapeQuotes(s[n + 1..]));
    } else if s != "" {
      assert s[0] in s && Inert(s[1..]);
      EscapingAddsNothing(s[1..]);
      InertParts([s[0]], EscapeQuotes(s[1..]));
    }
  }

  lemma {:induction false} DoublingAddsNothing(s: string)
    requires Inert(s)
    ensures Inert(DoubleTail(s))
  {
    if Run(s) == |s| {
      InertParts(s, s);
    } else {
      assert s[0] in s && Inert(s[1..]);
      DoublingAddsNothing(s[1..]);
      InertParts([s[0]], DoubleTail(s[1..]));
    }
  }

  lemma QuotedIsInert(value: string)
    requires Inert(value)
    ensures Inert("\"" + Body(value) + "\"")
  {
    EscapingAddsNothing(value);
    DoublingAddsNothing(EscapeQuotes(value));
    InertParts("\"", Body(value));
    InertParts("\"" + Body(value), "\"");
  }

  lemma QuotableIsInert(value: string)
    ensures Quotable(value) <==> Inert(value)
  {
  }

  /**
    A line is produced exactly if no argument holds a character that would be expanded or would end the line,
    and then the line holds none.
   */
  lemma {:induction false} LinesAreInert(values: seq<string>)
    ensures QuoteLine(values).Ok? <==> forall v :: v in values ==> Inert(v)
    ensures QuoteLine(values).Ok? ==> Inert(QuoteLine(values).value)
  {
    QuoteLineDefined(values);
    forall v ensures Quotable(v) <==> Inert(v) {
      QuotableIsInert(v);
    }
    if QuoteLine(values).Ok? && values != [] {
      assert values[0] in values;
      QuotedIsInert(values[0]);
      if |values| > 1 {
        LinesAreInert(values[1..]);
        JoinedLine(values);
        InertParts(" ", QuoteLine(values[1..]).value);
        InertParts("\"" + Body(values[0]) + "\"", " " + QuoteLine(values[1..]).value);
      }
    }
  }
}
