/**
  The predicate verifier of packages/verifier-core/src/index.ts. The file system is an oracle: what one
  look at one path reports. Predicates are checked one after the other and each check is awaited, so each
  sees the world of its own moment.
 */
module Verifier {
  import opened Wrappers
  import opened Text
  import opened CanonicalJson
  import Glob

  datatype Predicate =
    | ResultEquals(path: Text, value: Json)
    | ResultContains(path: Text, part: Text)
    | FileExists(file: string)
    | FileAbsent(file: string)
    | FileHash(file: string, digest: Text)
    | ExitCode(code: Text)
    | UrlMatches(pattern: string)
    | PageContains(part: Text)

  predicate AboutFiles(p: Predicate)
  {
    p.FileExists? || p.FileAbsent? || p.FileHash?
  }

  /** What a look at a path reports; `Refused` stands for a path outside the workspace or any other error. */
  datatype Sight = Missing | File(digest: Text) | Directory | Special | Refused

  type World = map<string, Sight>

  function Look(world: World, file: string): Sight
  {
    if file in world then world[file] else Missing
  }

  datatype EvidenceItem = EvidenceItem(about: Predicate, passed: bool)

  /** The result `{}` that recovery verifies against. */
  const EMPTY: Json := Object([])

  const DOT: Unit := 0x2E

  // property names of results, in UTF-16
  const EXIT_CODE: Text := [0x65, 0x78, 0x69, 0x74, 0x43, 0x6F, 0x64, 0x65] // exitCode
  const URL: Text := [0x75, 0x72, 0x6C] // url
  const TEXT: Text := [0x74, 0x65, 0x78, 0x74] // text
  const SUCCESS: Text := [0x73, 0x75, 0x63, 0x63, 0x65, 0x73, 0x73] // success
  const STORED: Text := [0x73, 0x74, 0x6F, 0x72, 0x65, 0x64] // stored
  const DELETED: Text := [0x64, 0x65, 0x6C, 0x65, 0x74, 0x65, 0x64] // deleted
  const SENT: Text := [0x73, 0x65, 0x6E, 0x74] // sent

  /** `path.split(".")` */
  function Segments(path: Text): (segments: seq<Text>)
    ensures segments != []
  {
    if path == [] then [[]]
    else
      var rest := Segments(path[1..]);
      if path[0] == DOT then [[]] + rest else [[path[0]] + rest[0]] + rest[1..]
  }

  function Property(current: Json, segment: Text): Json
  {
    if HasKey(current, segment) then Get(current, segment) else Absent
  }

  /** `readResultPath`: the reduce over the segments, first to last. */
  function ReadPath(result: Json, segments: seq<Text>): Json
  {
    if segments == [] then result
    else Property(ReadPath(result, segments[..|segments| - 1]), segments[|segments| - 1])
  }

  /** `observed.includes(part)` */
  predicate Includes(observed: Text, part: Text)
  {
    part <= observed || (observed != [] && Includes(observed[1..], part))
  }

  /** Code points of a UTF-16 text; a lone surrogate has none. */
  function CodePoints(t: Text): string
  {
    if t == [] then ""
    else if High(t[0]) && |t| > 1 && Low(t[1])
    then
      var high, low := t[0] as int - 0xD800, t[1] as int - 0xDC00;
      [(0x1_0000 + high * 0x400 + low) as char] + CodePoints(t[2..])
    else if High(t[0]) || Low(t[0]) then ['\U{FFFD}'] + CodePoints(t[1..])
    else [t[0] as char] + CodePoints(t[1..])
  }

  /** The code units of one character, by section 3.9 of the Unicode standard. */
  function Utf16Of(c: char): Text
  {
    var n := c as int;
    if n < 0x1_0000 then [n] else [0xD800 + (n - 0x1_0000) / 0x400, 0xDC00 + (n - 0x1_0000) % 0x400]
  }

  function Utf16(s: string): Text
  {
    if s == "" then [] else Utf16Of(s[0]) + Utf16(s[1..])
  }

  lemma OneCharacter(c: char, rest: Text)
    ensures CodePoints(Utf16Of(c) + rest) == [c] + CodePoints(rest)
  {
    var units := Utf16Of(c);
    assert (units + rest)[|units|..] == rest;
  }

  /** Round trip: the characters read from a text are those it was encoded from. */
  lemma {:induction false} CodePointsOfUtf16(s: string)
    ensures CodePoints(Utf16(s)) == s
  {
    if s != "" {
      CodePointsOfUtf16(s[1..]);
      OneCharacter(s[0], Utf16(s[1..]));
      assert s == [s[0]] + s[1..];
    }
  }

  /** One predicate, looked at in one moment; an error while looking is a failure of the predicate. */
  predicate Passes(p: Predicate, result: Json, world: World)
  {
    match p
    case ResultEquals(path, value) => ReadPath(result, Segments(path)) == value
    case ResultContains(path, part) =>
      var observed := ReadPath(result, Segments(path));
      observed.String? && Includes(observed.chars, part)
    case ExitCode(code) => Property(result, EXIT_CODE) == Number(code)
    case UrlMatches(pattern) =>
      var observed := Property(result, URL);
      observed.String? && Glob.WildcardMatches(CodePoints(observed.chars), pattern)
    case PageContains(part) =>
      var observed := Property(result, TEXT);
      observed.String? && Includes(observed.chars, part)
    case FileExists(file) => var sight := Look(world, file); sight.File? || sight.Directory?
    case FileAbsent(file) => Look(world, file).Missing?
    case FileHash(file, digest) => Look(world, file) == File(digest)
  }

  /** Every predicate passed at the moment it was looked at. */
  predicate Verified(predicates: seq<Predicate>, result: Json, worlds: seq<World>)
    requires |worlds| == |predicates|
  {
    forall i :: 0 <= i < |predicates| ==> Passes(predicates[i], result, worlds[i])
  }

  method Verify(predicates: seq<Predicate>, result: Json, worlds: seq<World>)
    returns (verified: bool, evidence: seq<EvidenceItem>)
    requires |worlds| == |predicates|
    ensures |evidence| == |predicates|
    ensures forall i :: 0 <= i < |predicates| ==>
        evidence[i] == EvidenceItem(predicates[i], Passes(predicates[i], result, worlds[i]))
    ensures verified <==> Verified(predicates, result, worlds)
  {
    evidence := [];
    var every := true;
    for i := 0 to |predicates|
      invariant |evidence| == i
      invariant forall j :: 0 <= j < i ==>
          evidence[j] == EvidenceItem(predicates[j], Passes(predicates[j], result, worlds[j]))
      invariant every <==> forall j :: 0 <= j < i ==> Passes(predicates[j], result, worlds[j])
    {
      var passed := Passes(predicates[i], result, worlds[i]);
      evidence := evidence + [EvidenceItem(predicates[i], passed)];
      every := every && passed;
    }
    verified := every;
  }

  predicate StandsAt(observed: Text, i: int, part: Text)
  {
    0 <= i <= |observed| - |part| && observed[i..i + |part|] == part
  }

  lemma StandsLater(observed: Text, i: int, part: Text)
    requires observed != []
    ensures i > 0 ==> (StandsAt(observed, i, part) <==> StandsAt(observed[1..], i - 1, part))
    ensures StandsAt(observed, 0, part) <==> part <= observed
  {
    if 0 < i && i + |part| <= |observed| {
      assert observed[1..][i - 1..i - 1 + |part|] == observed[i..i + |part|];
    }
  }

  /** A text includes a part exactly if the part stands somewhere in it. */
  lemma {:induction false} IncludesIff(observed: Text, part: Text)
    ensures Includes(observed, part) <==> exists i :: StandsAt(observed, i, part)
  {
    if part <= observed {
      assert StandsAt(observed, 0, part);
    } else if observed != [] {
      IncludesIff(observed[1..], part);
      if i :| StandsAt(observed, i, part) {
        StandsLater(observed, i, part);
      }
      if i :| StandsAt(observed[1..], i, part) {
        StandsLater(observed, i + 1, part);
      }
    }
  }

  /** Reading a path is reading its parts in turn, however it is cut. */
  lemma {:induction false} ReadInParts(result: Json, a: seq<Text>, b: seq<Text>)
    ensures ReadPath(result, a + b) == ReadPath(ReadPath(result, a), b)
  {
    if b == [] {
      assert a + b == a;
    } else {
      ReadInParts(result, a, b[..|b| - 1]);
      assert (a + b)[..|a + b| - 1] == a + b[..|b| - 1];
    }
  }

  /** Nothing is read through a value that is not an object: once absent, absent to the end of the path. */
  lemma {:induction false} AbsentStaysAbsent(v: Json, segments: seq<Text>)
    requires !v.Object? && segments != []
    ensures ReadPath(v, segments) == Absent
  {
    if |segments| > 1 {
      AbsentStaysAbsent(v, segments[..|segments| - 1]);
    } else {
      assert segments[..0] == [];
    }
  }

  // ----- what a predicate asks, in terms of the result and of what is seen

  /** There is a file or a directory. */
  predicate IsThere(world: World, file: string)
  {
    file in world && match world[file] {
      case File(_) => true
      case Directory => true
      case Missing => false
      case Special => false
      case Refused => false
    }
  }

  predicate IsGone(world: World, file: string)
  {
    file in world ==> world[file] == Missing
  }

  /** A character of seven bits is the code unit of its own number. */
  function UnitOf(c: char): Unit
  {
    if c as int < 0x80 then c as int else 0xFFFD
  }

  /** A property name in UTF-16. */
  function Ascii(name: string): Text
  {
    seq(|name|, i requires 0 <= i < |name| => UnitOf(name[i]))
  }

  /** The adapter says so itself: the result has this property, and it is `true`. */
  predicate Reports(result: Json, name: Text)
  {
    HasKey(result, name) && Get(result, name) == Bool(true)
  }

  lemma {:induction false} OneSegment(path: Text)
    requires DOT !in path
    ensures Segments(path) == [path]
  {
    if path != [] {
      OneSegment(path[1..]);
      assert path == [path[0]] + path[1..];
    }
  }

  /** `segments.join(".")` */
  function Joined(segments: seq<Text>): Text
    requires segments != []
  {
    if |segments| == 1 then segments[0] else segments[0] + [DOT] + Joined(segments[1..])
  }

  /** Splitting a path cuts it at every dot and nowhere else. */
  lemma {:induction false} SegmentsAreThePath(path: Text)
    ensures Joined(Segments(path)) == path && forall s :: s in Segments(path) ==> DOT !in s
  {
    if path != [] {
      SegmentsAreThePath(path[1..]);
      var rest := Segments(path[1..]);
      assert path == [path[0]] + path[1..];
      if path[0] == DOT {
        assert ([[]] + rest)[1..] == rest;
        assert [] + [DOT] + Joined(rest) == path;
      } else {
        FirstGrows(path[0], rest);
      }
    }
  }

  lemma FirstGrows(u: Unit, rest: seq<Text>)
    requires rest != []
    ensures Joined([[u] + rest[0]] + rest[1..]) == [u] + Joined(rest)
  {
    var more := [[u] + rest[0]] + rest[1..];
    assert more[1..] == rest[1..];
    if |rest| > 1 {
      assert ([u] + rest[0]) + [DOT] + Joined(rest[1..]) == [u] + (rest[0] + [DOT] + Joined(rest[1..]));
    }
  }

  /** A path without a dot reads a property of the result itself. */
  lemma ReadsOwnProperty(result: Json, name: Text)
    requires DOT !in name
    ensures ReadPath(result, Segments(name)) == Property(result, name)
  {
    OneSegment(name);
    assert [name][..0] == [];
  }

  lemma NamesAreSpelled()
    ensures STORED == Ascii("stored") && DELETED == Ascii("deleted")
    ensures SUCCESS == Ascii("success") && SENT == Ascii("sent")
    ensures EXIT_CODE == Ascii("exitCode") && URL == Ascii("url") && TEXT == Ascii("text")
  {
  }

  /** The result has this property, and it is this text. */
  predicate HasText(result: Json, name: Text, t: Text)
  {
    HasKey(result, name) && Get(result, name) == String(t)
  }

  /** The predicates about files: there, gone, or a file of this content. */
  lemma FilePredicatesMean(file: string, digest: Text, result: Json, world: World)
    ensures Passes(FileExists(file), result, world) <==> IsThere(world, file)
    ensures Passes(FileAbsent(file), result, world) <==> IsGone(world, file)
    ensures Passes(FileHash(file, digest), result, world) <==> file in world && world[file] == File(digest)
  {
  }

  /** The predicates about a result: a property of its own, read under the name the adapters use. */
  lemma ResultPredicatesMean(code: Text, pattern: string, part: Text, result: Json, world: World)
    requires code != []
    ensures Passes(ExitCode(code), result, world) <==> HasKey(result, Ascii("exitCode")) && Get(result, Ascii("exitCode")) == Number(code)
    ensures Passes(UrlMatches(pattern), result, world)
      <==> exists t :: HasText(result, Ascii("url"), t) && Glob.WildcardMatches(CodePoints(t), pattern)
    ensures Passes(PageContains(part), result, world)
      <==> exists t :: HasText(result, Ascii("text"), t) && Includes(t, part)
  {
    NamesAreSpelled();
    var url, text := Property(result, URL), Property(result, TEXT);
    assert url.String? ==> HasText(result, Ascii("url"), url.chars);
    assert text.String? ==> HasText(result, Ascii("text"), text.chars);
  }

  /** The predicates on a path of one name. */
  lemma OwnPropertyPredicatesMean(name: Text, value: Json, part: Text, result: Json, world: World)
    requires DOT !in name
    ensures value != Absent ==>
      (Passes(ResultEquals(name, value), result, world) <==> HasKey(result, name) && Get(result, name) == value)
    ensures Passes(ResultContains(name, part), result, world) <==> exists t :: HasText(result, name, t) && Includes(t, part)
  {
    ReadsOwnProperty(result, name);
    var own := Property(result, name);
    assert own.String? ==> HasText(result, name, own.chars);
  }

  /**
    File evidence does not look at the result, so recovery, which has none, reaches the verdict that the
    interrupted verification would have reached from the same sights.
   */
  lemma FileEvidenceIgnoresTheResult(predicates: seq<Predicate>, result: Json, other: Json, worlds: seq<World>)
    requires |worlds| == |predicates| && forall p :: p in predicates ==> AboutFiles(p)
    ensures Verified(predicates, result, worlds) <==> Verified(predicates, other, worlds)
  {
    forall i | 0 <= i < |predicates|
      ensures Passes(predicates[i], result, worlds[i]) <==> Passes(predicates[i], other, worlds[i]) {
      assert predicates[i] in predicates;
    }
  }

  /** A result predicate can pass on an empty result only if it asks for nothing that was reported. */
  lemma EmptyResultProvesNothing(p: Predicate, world: World)
    requires !AboutFiles(p) && Passes(p, EMPTY, world)
    ensures p.ResultEquals? && p.value == Absent
  {
    if p.ResultEquals? || p.ResultContains? {
      var segments := Segments(p.path);
      var first, rest := segments[..1], segments[1..];
      assert first[..0] == [] && first + rest == segments;
      assert ReadPath(EMPTY, first[..0]) == EMPTY;
      ReadInParts(EMPTY, first, rest);
      if rest != [] { AbsentStaysAbsent(Absent, rest); }
    }
  }
}
