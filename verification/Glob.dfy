/**
  The pattern language of `patternMatches` (packages/policy-core/src/index.ts) and `wildcardMatches`
  (packages/verifier-core/src/index.ts): a star stands for any run of characters, everything else is
  literal. The source gets there by rewriting the pattern into the text of a regular expression; here
  that text is read back by the ECMAScript rules for the constructs that can occur in it.
 */
module Glob {
  import opened Wrappers

  const SPECIAL := ".*+?^${}()|[]\\"

  // ----- what the source writes

  /** `pattern.replace(/[.*+?^${}()|[\]\\]/g, "\\$&")` */
  function Escape(pattern: string): string
  {
    if pattern == "" then ""
    else if pattern[0] in SPECIAL then ['\\', pattern[0]] + Escape(pattern[1..])
    else [pattern[0]] + Escape(pattern[1..])
  }

  /** `.replaceAll("\\*", ".*")`: scans from the left, and a replaced pair is not looked at again. */
  function ReplaceEscapedStars(text: string): string
  {
    if |text| < 2 then text
    else if text[..2] == "\\*" then ".*" + ReplaceEscapedStars(text[2..])
    else [text[0]] + ReplaceEscapedStars(text[1..])
  }

  function Translate(pattern: string): string
  {
    ReplaceEscapedStars(Escape(pattern))
  }

  // ----- what the regular expression means

  datatype Atom = Literal(c: char) | AnyOne | AnyRun

  /** Reads a pattern body as a list of atoms; `None` for text outside the constructs used here. */
  function ParseRegex(text: string): (r: Option<seq<Atom>>)
    decreases |text|
  {
    if text == "" then Some([])
    else if text[0] == '\\' then
      if |text| >= 2 && text[1] in SPECIAL then Prepend(Literal(text[1]), ParseRegex(text[2..])) else None
    else if text[0] == '.' then
      if |text| >= 2 && text[1] == '*' then Prepend(AnyRun, ParseRegex(text[2..])) else Prepend(AnyOne, ParseRegex(text[1..]))
    else if text[0] in SPECIAL then None
    else Prepend(Literal(text[0]), ParseRegex(text[1..]))
  }

  function Prepend(atom: Atom, rest: Option<seq<Atom>>): Option<seq<Atom>>
  {
    if rest.Some? then Some([atom] + rest.value) else None
  }

  /** A dot does not match a line terminator. */
  predicate LineTerminator(c: char)
  {
    c in "\n\r\U{2028}\U{2029}"
  }

  predicate FreeOfTerminators(s: string)
  {
    forall c :: c in s ==> !LineTerminator(c)
  }

  /** `new RegExp("^" + text + "$").test(value)` over the atoms of the text. */
  predicate Accepts(atoms: seq<Atom>, value: string)
    decreases |atoms|, |value|
  {
    if atoms == [] then value == ""
    else match atoms[0]
      case Literal(c) => value != "" && value[0] == c && Accepts(atoms[1..], value[1..])
      case AnyOne => value != "" && !LineTerminator(value[0]) && Accepts(atoms[1..], value[1..])
      case AnyRun => Accepts(atoms[1..], value) || (value != "" && !LineTerminator(value[0]) && Accepts(atoms, value[1..]))
  }

  predicate RegexMatches(text: string, value: string)
  {
    var atoms := ParseRegex(text);
    atoms.Some? && Accepts(atoms.value, value)
  }

  /** `patternMatches`: a lone star is answered before any expression is built. */
  predicate PatternMatches(pattern: string, value: string)
  {
    pattern == "*" || RegexMatches(Translate(pattern), value)
  }

  /** `wildcardMatches` has no such shortcut. */
  predicate WildcardMatches(value: string, pattern: string)
  {
    RegexMatches(Translate(pattern), value)
  }

  // ----- what a policy author reads

  function Stars(pattern: string): nat
  {
    if pattern == "" then 0 else (if pattern[0] == '*' then 1 else 0) + Stars(pattern[1..])
  }

  /** The pattern with each star, in order, replaced by the given string. */
  function Fill(pattern: string, runs: seq<string>): string
    requires |runs| == Stars(pattern)
  {
    if pattern == "" then ""
    else if pattern[0] == '*' then runs[0] + Fill(pattern[1..], runs[1..])
    else [pattern[0]] + Fill(pattern[1..], runs)
  }

  ghost predicate Fills(pattern: string, runs: seq<string>, value: string)
  {
    |runs| == Stars(pattern) && value == Fill(pattern, runs)
  }

  /** What the code accepts, exactly: the stars stand for runs without line terminators. */
  ghost predicate GlobMatches(pattern: string, value: string)
  {
    exists runs :: Fills(pattern, runs, value) && forall run :: run in runs ==> FreeOfTerminators(run)
  }

  // ----- the translation preserves the meaning

  function Atoms(pattern: string): seq<Atom>
  {
    if pattern == "" then []
    else [if pattern[0] == '*' then AnyRun else Literal(pattern[0])] + Atoms(pattern[1..])
  }

  lemma {:induction false} TranslateCons(pattern: string)
    requires pattern != ""
    ensures var c, rest := pattern[0], pattern[1..];
            Translate(pattern) == (if c == '*' then ".*" else if c in SPECIAL then ['\\', c] else [c]) + Translate(rest)
  {
    var c, rest := pattern[0], Escape(pattern[1..]);
    if c in SPECIAL {
      var e := ['\\', c] + rest;
      assert e[..2] == ['\\', c] && e[2..] == rest && e[1..] == [c] + rest;
      if c != '*' {
        EscapedNeverStartsWithStar(pattern[1..]);
        CopiesOne(c, rest);
      }
    } else {
      CopiesOne(c, rest);
    }
  }

  lemma EscapedNeverStartsWithStar(pattern: string)
    ensures Escape(pattern) == "" || Escape(pattern)[0] != '*'
  {
  }

  /** A character that does not open an escaped star is copied. */
  lemma CopiesOne(c: char, rest: string)
    requires c != '\\' || rest == "" || rest[0] != '*'
    ensures ReplaceEscapedStars([c] + rest) == [c] + ReplaceEscapedStars(rest)
  {
    var e := [c] + rest;
    assert e[1..] == rest;
    if rest != "" {
      assert e[..2] == [c, rest[0]];
    }
  }

  /** Backslashes in the pattern included: every character of it comes back as itself. */
  lemma {:induction false} ParseTranslated(pattern: string)
    ensures ParseRegex(Translate(pattern)) == Some(Atoms(pattern))
  {
    if pattern != "" {
      var c, rest := pattern[0], Translate(pattern[1..]);
      TranslateCons(pattern);
      ParseTranslated(pattern[1..]);
      if c == '*' {
        assert (".*" + rest)[2..] == rest;
      } else if c in SPECIAL {
        assert (['\\', c] + rest)[2..] == rest;
      } else {
        assert ([c] + rest)[1..] == rest;
      }
    }
  }

  lemma {:induction false} AcceptedFills(pattern: string, value: string)
    requires Accepts(Atoms(pattern), value)
    ensures GlobMatches(pattern, value)
    decreases |pattern|, |value|
  {
    if pattern == "" {
      assert Fills(pattern, [], value);
    } else {
      var atoms, rest := Atoms(pattern), pattern[1..];
      assert atoms[1..] == Atoms(rest);
      if pattern[0] != '*' {
        AcceptedFills(rest, value[1..]);
        var runs :| Fills(rest, runs, value[1..]) && forall run :: run in runs ==> FreeOfTerminators(run);
        assert Fills(pattern, runs, value);
      } else if Accepts(atoms[1..], value) {
        AcceptedFills(rest, value);
        var runs :| Fills(rest, runs, value) && forall run :: run in runs ==> FreeOfTerminators(run);
        assert pattern == "*" + rest && value == "" + Fill(rest, runs);
        StarTakes("", rest, runs, value);
      } else {
        AcceptedFills(pattern, value[1..]);
        var runs :| Fills(pattern, runs, value[1..]) && forall run :: run in runs ==> FreeOfTerminators(run);
        assert runs == [runs[0]] + runs[1..];
        assert value == [value[0]] + value[1..];
        assert value == ([value[0]] + runs[0]) + Fill(rest, runs[1..]);
        assert runs[0] in runs && forall run :: run in runs[1..] ==> run in runs;
        assert pattern == "*" + rest;
        StarTakes([value[0]] + runs[0], rest, runs[1..], value);
      }
    }
  }

  lemma StarTakes(run: string, rest: string, runs: seq<string>, value: string)
    requires |runs| == Stars(rest) && value == run + Fill(rest, runs)
    requires FreeOfTerminators(run) && forall r :: r in runs ==> FreeOfTerminators(r)
    ensures GlobMatches("*" + rest, value)
  {
    var all := [run] + runs;
    assert ("*" + rest)[1..] == rest && all[1..] == runs;
    assert Fills("*" + rest, all, value);
  }

  lemma {:induction false} FilledAccepts(pattern: string, runs: seq<string>)
    requires |runs| == Stars(pattern) && forall run :: run in runs ==> FreeOfTerminators(run)
    ensures Accepts(Atoms(pattern), Fill(pattern, runs))
    decreases |pattern|, if runs == [] then 0 else |runs[0]|
  {
    if pattern != "" {
      var atoms, rest := Atoms(pattern), pattern[1..];
      assert atoms[1..] == Atoms(rest);
      var value := Fill(pattern, runs);
      if pattern[0] != '*' {
        FilledAccepts(rest, runs);
        assert value[1..] == Fill(rest, runs);
      } else {
        var run := runs[0];
        assert run in runs && forall r :: r in runs[1..] ==> r in runs;
        if run == "" {
          FilledAccepts(rest, runs[1..]);
          assert value == Fill(rest, runs[1..]);
        } else {
          var shorter := runs[0 := run[1..]];
          assert forall r :: r in shorter ==> r == run[1..] || r in runs;
          assert forall c :: c in run[1..] ==> c in run;
          FilledAccepts(pattern, shorter);
          assert shorter[1..] == runs[1..];
          assert value[1..] == run[1..] + Fill(rest, runs[1..]);
          assert run[0] in run;
        }
      }
    }
  }

  /** For every pattern and every value. */
  lemma TranslationIsExact(pattern: string, value: string)
    ensures WildcardMatches(value, pattern) <==> GlobMatches(pattern, value)
    ensures PatternMatches(pattern, value) <==> pattern == "*" || GlobMatches(pattern, value)
  {
    ParseTranslated(pattern);
    if Accepts(Atoms(pattern), value) {
      AcceptedFills(pattern, value);
    }
    if GlobMatches(pattern, value) {
      var runs :| Fills(pattern, runs, value) && forall run :: run in runs ==> FreeOfTerminators(run);
      FilledAccepts(pattern, runs);
    }
  }

  lemma {:induction false} RunsComeFromTheValue(pattern: string, runs: seq<string>)
    requires |runs| == Stars(pattern)
    ensures forall run, c :: run in runs && c in run ==> c in Fill(pattern, runs)
  {
    if pattern != "" {
      if pattern[0] == '*' {
        RunsComeFromTheValue(pattern[1..], runs[1..]);
        assert runs == [runs[0]] + runs[1..];
      } else {
        RunsComeFromTheValue(pattern[1..], runs);
      }
    }
  }

  /** What an author may rely on: on values without line terminators both matchers are the plain glob. */
  lemma MeansTheGlob(pattern: string, value: string)
    requires FreeOfTerminators(value)
    ensures PatternMatches(pattern, value) <==> exists runs :: Fills(pattern, runs, value)
    ensures WildcardMatches(value, pattern) <==> exists runs :: Fills(pattern, runs, value)
  {
    TranslationIsExact(pattern, value);
    forall runs | Fills(pattern, runs, value) ensures GlobMatches(pattern, value) {
      RunsComeFromTheValue(pattern, runs);
    }
    if pattern == "*" {
      assert Fill("*", [value]) == value + Fill("", []);
      assert Fills(pattern, [value], value);
    }
  }
}
