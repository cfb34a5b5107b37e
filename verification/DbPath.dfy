/** Validation of database paths (`src/storage/db_path.rs`). */
module DbPath {
  import opened Prelude
  import opened Strings

  datatype PathError = Required | Invalid | BadSegment(segment: string)

  /** Unicode White_Space, which `str::trim` strips. */
  predicate IsSpace(c: char)
  {
    var n := c as int;
    || 9 <= n <= 13 || n == 0x20 || n == 0x85 || n == 0xA0 || n == 0x1680
    || 0x2000 <= n <= 0x200A || n == 0x2028 || n == 0x2029 || n == 0x202F || n == 0x205F || n == 0x3000
  }

  function TrimStart(s: string): string
  {
    if s != "" && IsSpace(s[0]) then TrimStart(s[1..]) else s
  }

  function TrimEnd(s: string): string
  {
    if s != "" && IsSpace(s[|s| - 1]) then TrimEnd(s[..|s| - 1]) else s
  }

  function Trim(s: string): string
  {
    TrimEnd(TrimStart(s))
  }

  predicate IsPathChar(c: char)
  {
    'a' <= c <= 'z' || 'A' <= c <= 'Z' || '0' <= c <= '9' || c == '_' || c == '-' || c == '.'
  }

  predicate IsPathSegment(segment: string)
  {
    segment != "" && forall i | 0 <= i < |segment| :: IsPathChar(segment[i])
  }

  predicate HasDotDot(s: string)
  {
    exists i :: 0 < i < |s| && s[i - 1] == '.' && s[i] == '.'
  }

  /** The first segment that is refused decides the error. */
  function CheckPathSegments(segments: seq<string>): Result<(), PathError>
  {
    if segments == [] then Ok(())
    else if segments[0] == "" then Err(Invalid)
    else if !IsPathSegment(segments[0]) then Err(BadSegment(segments[0]))
    else CheckPathSegments(segments[1..])
  }

  function Normalize(input: string): Result<string, PathError>
  {
    var trimmed := Trim(input);
    if trimmed == "" then Err(Required)
    else if trimmed[0] == '/' || '\\' in trimmed || HasDotDot(trimmed) then Err(Invalid)
    else match CheckPathSegments(Split(trimmed, '/'))
      case Err(e) => Err(e)
      case Ok(_) => Ok(trimmed)
  }

  /** The source rebuilds the path segment by segment; that is the trimmed input again. */
  method NormalizeDbPath(input: string) returns (r: Result<string, PathError>)
    ensures r == Normalize(input)
  {
    var trimmed := Trim(input);
    if trimmed == "" {
      return Err(Required);
    }
    if trimmed[0] == '/' || '\\' in trimmed || HasDotDot(trimmed) {
      return Err(Invalid);
    }
    var pieces := Split(trimmed, '/');
    var segments: seq<string> := [];
    assert pieces[0..] == pieces;
    for i := 0 to |pieces|
      invariant segments == pieces[..i]
      invariant CheckPathSegments(pieces) == CheckPathSegments(pieces[i..])
    {
      assert pieces[i..][1..] == pieces[i + 1..];
      if pieces[i] == "" {
        return Err(Invalid);
      }
      if !IsPathSegment(pieces[i]) {
        return Err(BadSegment(pieces[i]));
      }
      segments := segments + [pieces[i]];
    }
    assert segments == pieces;
    JoinOfSplit(trimmed, '/');
    return Ok(Join(segments, '/'));
  }

  // -------------------------------------------------------------- properties

  lemma {:induction false} CheckedSegments(segments: seq<string>, i: nat)
    requires CheckPathSegments(segments).Ok? && i < |segments|
    ensures IsPathSegment(segments[i])
  {
    if i > 0 {
      CheckedSegments(segments[1..], i - 1);
    }
  }

  /** Exactly the characters of accepted paths: letters, digits, `_`, `-`, `.` and `/`. */
  lemma AcceptedChars(input: string, c: char)
    requires Normalize(input).Ok? && c in Normalize(input).value
    ensures IsPathChar(c) || c == '/'
  {
    var path := Normalize(input).value;
    JoinOfSplit(path, '/');
    if c != '/' {
      JoinChars(Split(path, '/'), '/', c);
      var i :| 0 <= i < |Split(path, '/')| && c in Split(path, '/')[i];
      CheckedSegments(Split(path, '/'), i);
    }
  }

  /** The white space of Unicode, code point by code point. */
  lemma SpacesAre(c: char)
    ensures IsSpace(c) <==> c as int in {
              0x9, 0xA, 0xB, 0xC, 0xD, 0x20, 0x85, 0xA0, 0x1680, 0x2000, 0x2001, 0x2002, 0x2003, 0x2004, 0x2005,
              0x2006, 0x2007, 0x2008, 0x2009, 0x200A, 0x2028, 0x2029, 0x202F, 0x205F, 0x3000}
  {
  }

  /** Trimming takes the white space at both ends and nothing else. */
  lemma TrimIsExact(s: string) returns (before: string, after: string)
    ensures s == before + Trim(s) + after
    ensures (forall c | c in before :: IsSpace(c)) && (forall c | c in after :: IsSpace(c))
    ensures Trim(s) != "" ==> !IsSpace(Trim(s)[0]) && !IsSpace(Trim(s)[|Trim(s)| - 1])
  {
    var t := TrimStart(s);
    before := SpacesBefore(s);
    after := SpacesAfter(t);
    TrimStartStarts(s);
    TrimEndEnds(t);
    if Trim(s) != "" {
      assert Trim(s)[0] == t[0];
    }
    assert before + (Trim(s) + after) == before + Trim(s) + after;
  }

  lemma {:induction false} SpacesBefore(s: string) returns (before: string)
    ensures s == before + TrimStart(s) && forall c | c in before :: IsSpace(c)
  {
    if s != "" && IsSpace(s[0]) {
      var rest := SpacesBefore(s[1..]);
      before := [s[0]] + rest;
      assert s == [s[0]] + s[1..];
    } else {
      before := "";
    }
  }

  lemma {:induction false} SpacesAfter(s: string) returns (after: string)
    ensures s == TrimEnd(s) + after && forall c | c in after :: IsSpace(c)
  {
    if s != "" && IsSpace(s[|s| - 1]) {
      var rest := SpacesAfter(s[..|s| - 1]);
      after := rest + [s[|s| - 1]];
      assert s == s[..|s| - 1] + [s[|s| - 1]];
    } else {
      after := "";
    }
  }

  predicate IsNameChar(c: char)
  {
    c in "-._" || 'a' <= c <= 'z' || 'A' <= c <= 'Z' || '0' <= c <= '9'
  }

  /** Non-empty names between single slashes. */
  predicate IsPath(s: string)
  {
    && s != "" && s[0] != '/' && s[|s| - 1] != '/'
    && (forall i | 0 <= i < |s| :: IsNameChar(s[i]) || s[i] == '/')
    && (forall i | 0 < i < |s| :: s[i - 1] == '/' ==> s[i] != '/')
  }

  lemma IsPathFrom(s: string)
    requires |s| > 1 && s[0] != '/'
    ensures s[1] != '/' ==> (IsPath(s) <==> IsNameChar(s[0]) && IsPath(s[1..]))
    ensures s[1] == '/' ==> (IsPath(s) <==> IsNameChar(s[0]) && IsPath(s[2..]))
  {
    var rest := s[1..];
    assert forall i | 0 < i < |s| :: s[i] == rest[i - 1];
    if s[1] == '/' && |s| > 2 {
      var last := s[2..];
      assert forall i | 1 < i < |s| :: s[i] == last[i - 2];
    }
  }

  lemma FirstPathSegment(c: char, rest: seq<string>)
    requires rest != []
    ensures CheckPathSegments([[c] + rest[0]] + rest[1..]).Ok? <==>
              IsNameChar(c) && (rest[0] == "" || IsPathSegment(rest[0])) && CheckPathSegments(rest[1..]).Ok?
    ensures rest[0] != "" ==>
              (CheckPathSegments(rest).Ok? <==> IsPathSegment(rest[0]) && CheckPathSegments(rest[1..]).Ok?)
  {
    var (segment, segments) := ([c] + rest[0], [[c] + rest[0]] + rest[1..]);
    assert segments[0] == segment && segments[1..] == rest[1..];
    assert IsPathChar(c) <==> IsNameChar(c);
    assert segment[0] == c && forall i | 0 <= i < |rest[0]| :: segment[i + 1] == rest[0][i];
  }

  lemma {:induction false} CheckedPath(s: string)
    requires s != ""
    ensures CheckPathSegments(Split(s, '/')).Ok? <==> IsPath(s)
    decreases |s|
  {
    if s[0] != '/' {
      if |s| == 1 {
        assert s == [s[0]] && s[1..] == "";
        FirstPathSegment(s[0], [""]);
      } else {
        var rest := Split(s[1..], '/');
        IsPathFrom(s);
        CheckedPath(s[1..]);
        FirstPathSegment(s[0], rest);
        if s[1] == '/' {
          assert s[1..][1..] == s[2..];
          assert rest == [""] + Split(s[2..], '/') && rest[1..] == Split(s[2..], '/');
          if s[2..] != "" {
            CheckedPath(s[2..]);
          }
        }
      }
    }
  }

  /** Exactly the paths without two dots in a row are accepted, as they are once trimmed. */
  lemma AcceptedExactly(input: string)
    ensures var path := Trim(input);
            Normalize(input) == Ok(path) <==>
              IsPath(path) && forall i | 0 < i < |path| :: path[i] != '.' || path[i - 1] != '.'
  {
    var path := Trim(input);
    if path != "" {
      CheckedPath(path);
    }
    if HasDotDot(path) {
      var i :| 0 < i < |path| && path[i - 1] == '.' && path[i] == '.';
      assert path[i] == '.' && path[i - 1] == '.';
    }
    if '\\' in path {
      var i :| 0 <= i < |path| && path[i] == '\\';
      assert !IsNameChar(path[i]);
    }
  }

  lemma {:induction false} TrimEndOnlySpaces(s: string, c: char)
    requires c in s
    ensures c in TrimEnd(s) || IsSpace(c)
  {
    if s != "" && IsSpace(s[|s| - 1]) && c != s[|s| - 1] {
      assert s == s[..|s| - 1] + [s[|s| - 1]];
      TrimEndOnlySpaces(s[..|s| - 1], c);
    }
  }

  lemma {:induction false} TrimStartOnlySpaces(s: string, c: char)
    requires c in s
    ensures c in TrimStart(s) || IsSpace(c)
  {
    if s != "" && IsSpace(s[0]) && c != s[0] {
      assert s == [s[0]] + s[1..];
      TrimStartOnlySpaces(s[1..], c);
    }
  }

  /** The path as the client wrote it has, besides, only white space around it. */
  lemma AcceptedInputChars(input: string, c: char)
    requires Normalize(input).Ok? && c in input
    ensures IsPathChar(c) || c == '/' || IsSpace(c)
  {
    TrimStartOnlySpaces(input, c);
    if c in TrimStart(input) {
      TrimEndOnlySpaces(TrimStart(input), c);
      if c in Trim(input) {
        AcceptedChars(input, c);
      }
    }
  }

  lemma {:induction false} TrimEndEnds(s: string)
    ensures TrimEnd(s) != "" ==> !IsSpace(TrimEnd(s)[|TrimEnd(s)| - 1])
    ensures TrimEnd(s) <= s
  {
    if s != "" && IsSpace(s[|s| - 1]) {
      TrimEndEnds(s[..|s| - 1]);
    }
  }

  lemma {:induction false} TrimStartStarts(s: string)
    ensures TrimStart(s) != "" ==> !IsSpace(TrimStart(s)[0])
  {
    if s != "" && IsSpace(s[0]) {
      TrimStartStarts(s[1..]);
    }
  }

  lemma TrimTwice(s: string)
    ensures Trim(Trim(s)) == Trim(s)
  {
    var t := TrimStart(s);
    TrimStartStarts(s);
    TrimEndEnds(t);
    if Trim(s) != "" {
      assert Trim(s)[0] == t[0];
    }
  }

  /** Normalizing what was accepted changes nothing. */
  lemma NormalizeTwice(input: string)
    requires Normalize(input).Ok?
    ensures Normalize(Normalize(input).value) == Normalize(input)
  {
    TrimTwice(input);
  }

  /** White space in front makes another input of the same database. */
  lemma SpacedInput(input: string)
    requires Normalize(input).Ok?
    ensures Normalize(" " + input) == Normalize(input) && " " + input != input
  {
    assert (" " + input)[1..] == input;
    assert |" " + input| != |input|;
  }

  // ------------------------------------------------------------- database file

  /** The components of the file: the base, the inner segments, and the last segment with `.db`. */
  function FileOf(base: string, path: string): seq<string>
  {
    var parts := Split(path, '/');
    [base] + parts[..|parts| - 1] + [parts[|parts| - 1] + ".db"]
  }

  method ResolveDbFile(base: string, input: string) returns (r: Result<(string, seq<string>), PathError>)
    ensures match Normalize(input)
            case Err(e) => r == Err(e)
            case Ok(path) => r == Ok((path, FileOf(base, path)))
  {
    var path :- NormalizeDbPath(input);
    var parts := Split(path, '/');
    var file := [base];
    for i := 0 to |parts|
      invariant file == if i < |parts| then [base] + parts[..i] else FileOf(base, path)
    {
      if i == |parts| - 1 {
        file := file + [parts[i] + ".db"];
      } else {
        file := file + [parts[i]];
        assert parts[..i + 1] == parts[..i] + [parts[i]];
      }
    }
    return Ok((path, file));
  }

  /** Under the base, the file is the path with `.db` behind it. */
  lemma FileIsPath(base: string, path: string)
    ensures Join(FileOf(base, path), '/') == base + "/" + path + ".db"
  {
    var parts := Split(path, '/');
    var file := parts[..|parts| - 1] + [parts[|parts| - 1] + ".db"];
    JoinOfSplit(path, '/');
    JoinWithSuffix(parts, ".db");
    assert FileOf(base, path) == [base] + file;
    JoinAppend([base], file, '/');
  }

  lemma {:induction false} JoinWithSuffix(parts: seq<string>, suffix: string)
    requires parts != []
    ensures Join(parts[..|parts| - 1] + [parts[|parts| - 1] + suffix], '/') == Join(parts, '/') + suffix
  {
    var whole := parts[..|parts| - 1] + [parts[|parts| - 1] + suffix];
    if |parts| > 1 {
      JoinWithSuffix(parts[1..], suffix);
      assert whole[1..] == parts[1..][..|parts| - 2] + [parts[1..][|parts| - 2] + suffix];
      assert Join(parts, '/') == parts[0] + ['/'] + Join(parts[1..], '/');
    } else {
      assert whole == [parts[0] + suffix];
    }
  }

  /** A path's segments as the file system resolves them: `.` names the directory it is in. */
  function DropDots(segments: seq<string>): seq<string>
  {
    if segments == [] then []
    else (if segments[0] == "." then [] else [segments[0]]) + DropDots(segments[1..])
  }

  /** The segments of a path without those that are `.`, the last one aside, which names the file. */
  function Located(path: string): seq<string>
  {
    var parts := Split(path, '/');
    DropDots(parts[..|parts| - 1]) + [parts[|parts| - 1]]
  }

  /** Both paths lead to the same file; only the components under the base can be `.`. */
  predicate SameFile(base: string, p: string, q: string)
  {
    DropDots(FileOf(base, p)[1..]) == DropDots(FileOf(base, q)[1..])
  }

  lemma {:induction false} DropDotsAppend(a: seq<string>, b: seq<string>)
    ensures DropDots(a + b) == DropDots(a) + DropDots(b)
  {
    if a == [] {
      assert a + b == b;
    } else {
      assert (a + b)[1..] == a[1..] + b;
      DropDotsAppend(a[1..], b);
    }
  }

  lemma FileComponents(base: string, path: string)
    ensures var located := Located(path);
            DropDots(FileOf(base, path)[1..]) == located[..|located| - 1] + [located[|located| - 1] + ".db"]
  {
    var parts := Split(path, '/');
    var name := parts[|parts| - 1] + ".db";
    assert FileOf(base, path)[1..] == parts[..|parts| - 1] + [name];
    DropDotsAppend(parts[..|parts| - 1], [name]);
    assert [name][1..] == [] && |name| >= 3;
  }

  /** Two accepted paths lead to the same file if and only if they are equal but for `.` segments. */
  lemma SameFileIff(base: string, p: string, q: string)
    ensures SameFile(base, p, q) <==> Located(p) == Located(q)
  {
    FileComponents(base, p);
    FileComponents(base, q);
    var a, b := Located(p), Located(q);
    var m, n := a[|a| - 1], b[|b| - 1];
    assert a == a[..|a| - 1] + [m] && b == b[..|b| - 1] + [n];
    assert m == (m + ".db")[..|m + ".db"| - 3] && n == (n + ".db")[..|n + ".db"| - 3];
    if SameFile(base, p, q) {
      var c := a[..|a| - 1] + [m + ".db"];
      assert c[|c| - 1] == m + ".db" && c[..|c| - 1] == a[..|a| - 1];
      var d := b[..|b| - 1] + [n + ".db"];
      assert d[|d| - 1] == n + ".db" && d[..|d| - 1] == b[..|b| - 1];
    }
  }

  /** No segment in front of the file's own is `.`. */
  predicate NoDots(path: string)
  {
    "." !in Split(path, '/')[..|Split(path, '/')| - 1]
  }

  lemma {:induction false} NothingDropped(segments: seq<string>)
    requires "." !in segments
    ensures DropDots(segments) == segments
  {
    if segments != [] {
      NothingDropped(segments[1..]);
    }
  }

  /** Without `.` segments different paths lead to different files. */
  lemma FilesDiffer(base: string, p: string, q: string)
    requires NoDots(p) && NoDots(q) && SameFile(base, p, q)
    ensures p == q
  {
    SameFileIff(base, p, q);
    var a, b := Split(p, '/'), Split(q, '/');
    NothingDropped(a[..|a| - 1]);
    NothingDropped(b[..|b| - 1]);
    assert a == a[..|a| - 1] + [a[|a| - 1]] && b == b[..|b| - 1] + [b[|b| - 1]];
    JoinOfSplit(p, '/');
    JoinOfSplit(q, '/');
  }

  // ------------------------------------------------------- a `.` on the way

  lemma {:induction false} CheckAppend(a: seq<string>, b: seq<string>)
    ensures CheckPathSegments(a + b).Ok? <==> CheckPathSegments(a).Ok? && CheckPathSegments(b).Ok?
  {
    if a == [] {
      assert a + b == b;
    } else {
      assert (a + b)[1..] == a[1..] + b;
      CheckAppend(a[1..], b);
    }
  }

  lemma DotSegment()
    ensures Split(".", '/') == ["."] && CheckPathSegments(["."]) == Ok(())
  {
    SplitWithout(".", '/');
    assert ["."][1..] == [];
    assert CheckPathSegments([]) == Ok(());
  }

  lemma DottedSegments(s: string, t: string)
    ensures Split(s + "/" + "." + "/" + t, '/') == Split(s, '/') + ["."] + Split(t, '/')
    ensures CheckPathSegments(Split(s + "/" + "." + "/" + t, '/')).Ok?
       <==> CheckPathSegments(Split(s + "/" + t, '/')).Ok?
  {
    DotSegment();
    SplitAppend(s + "/" + ".", t, '/');
    SplitAppend(s, ".", '/');
    SplitAppend(s, t, '/');
    CheckAppend(Split(s, '/'), ["."]);
    CheckAppend(Split(s, '/') + ["."], Split(t, '/'));
    CheckAppend(Split(s, '/'), Split(t, '/'));
  }

  lemma DottedDotDot(s: string, t: string)
    requires HasDotDot(s + "/" + "." + "/" + t)
    ensures HasDotDot(s + "/" + t)
  {
    var dotted, plain := s + "/" + "." + "/" + t, s + "/" + t;
    var i :| 0 < i < |dotted| && dotted[i - 1] == '.' && dotted[i] == '.';
    if i < |s| {
      assert plain[i - 1] == '.' && plain[i] == '.';
    } else {
      assert i > |s| + 3;
      assert plain[i - 3] == dotted[i - 1] && plain[i - 2] == dotted[i];
    }
  }

  lemma Untrimmed(s: string)
    requires s != ""
    ensures Trim(s) == s <==> !IsSpace(s[0]) && !IsSpace(s[|s| - 1])
  {
    if !IsSpace(s[0]) {
      TrimEndEnds(s);
    } else {
      TrimStartShrinks(s);
      TrimEndEnds(TrimStart(s));
    }
  }

  lemma {:induction false} TrimStartShrinks(s: string)
    ensures |TrimStart(s)| <= |s|
    ensures s != "" && IsSpace(s[0]) ==> |TrimStart(s)| < |s|
  {
    if s != "" && IsSpace(s[0]) {
      TrimStartShrinks(s[1..]);
    }
  }

  lemma DottedAccepted(s: string, t: string)
    requires s != "" && t != "" && Normalize(s + "/" + t) == Ok(s + "/" + t)
    ensures Normalize(s + "/" + "." + "/" + t) == Ok(s + "/" + "." + "/" + t)
  {
    var dotted, plain := s + "/" + "." + "/" + t, s + "/" + t;
    Untrimmed(plain);
    Untrimmed(dotted);
    assert dotted[0] == s[0] == plain[0] && dotted[|dotted| - 1] == t[|t| - 1] == plain[|plain| - 1];
    DottedSegments(s, t);
    if HasDotDot(dotted) {
      DottedDotDot(s, t);
    }
  }

  lemma DotDropped(a: seq<string>, b: seq<string>)
    ensures DropDots(a + ["."] + b) == DropDots(a + b)
  {
    DropDotsAppend(a + ["."], b);
    DropDotsAppend(a, ["."]);
    DropDotsAppend(a, b);
    assert ["."][1..] == [] && DropDots(["."]) == [];
  }

  lemma DotInside(dotted: seq<string>, plain: seq<string>, a: seq<string>, b: seq<string>)
    requires b != [] && dotted == a + ["."] + b && plain == a + b
    ensures DropDots(dotted[..|dotted| - 1]) == DropDots(plain[..|plain| - 1])
    ensures dotted[|dotted| - 1] == plain[|plain| - 1]
  {
    assert dotted[..|dotted| - 1] == a + ["."] + b[..|b| - 1] && plain[..|plain| - 1] == a + b[..|b| - 1];
    DotDropped(a, b[..|b| - 1]);
  }

  lemma DottedLocated(s: string, t: string)
    ensures Located(s + "/" + "." + "/" + t) == Located(s + "/" + t)
  {
    var dotted, plain := s + "/" + "." + "/" + t, s + "/" + t;
    DottedSegments(s, t);
    SplitAppend(s, t, '/');
    DotInside(Split(dotted, '/'), Split(plain, '/'), Split(s, '/'), Split(t, '/'));
  }

  /** A `.` between two segments makes another normalized path of the same file. */
  lemma DottedInput(base: string, s: string, t: string)
    requires s != "" && t != "" && Normalize(s + "/" + t) == Ok(s + "/" + t)
    ensures var dotted := s + "/" + "." + "/" + t;
            Normalize(dotted) == Ok(dotted) && dotted != s + "/" + t && SameFile(base, dotted, s + "/" + t)
  {
    DottedAccepted(s, t);
    DottedLocated(s, t);
    SameFileIff(base, s + "/" + "." + "/" + t, s + "/" + t);
    assert |s + "/" + "." + "/" + t| != |s + "/" + t|;
  }

  /** No component of an accepted path climbs out of the base directory. */
  lemma StaysUnderBase(base: string, input: string, i: nat)
    requires Normalize(input).Ok? && 0 < i < |FileOf(base, Normalize(input).value)|
    ensures var component := FileOf(base, Normalize(input).value)[i];
            component != "" && component != ".." && '/' !in component
  {
    var path := Normalize(input).value;
    var parts := Split(path, '/');
    CheckedSegments(parts, i - 1);
    NoDotDotInside(path, i - 1);
    TwoDots();
  }

  lemma TwoDots()
    ensures HasDotDot("..")
  {
    assert ".."[0] == '.' && ".."[1] == '.';
  }

  lemma NoDotDotInside(path: string, i: nat)
    requires i < |Split(path, '/')| && !HasDotDot(path)
    ensures !HasDotDot(Split(path, '/')[i])
  {
    if HasDotDot(Split(path, '/')[i]) {
      DotDotSurvives(path, i);
    }
  }

  /** A `..` segment puts two dots side by side in the path. */
  lemma {:induction false} DotDotSurvives(path: string, i: nat)
    requires i < |Split(path, '/')| && HasDotDot(Split(path, '/')[i])
    ensures HasDotDot(path)
    decreases path
  {
    var rest := Split(path[1..], '/');
    var piece := Split(path, '/')[i];
    if path[0] == '/' || i > 0 {
      assert piece == if path[0] == '/' then rest[i - 1] else rest[i];
      DotDotSurvives(path[1..], if path[0] == '/' then i - 1 else i);
      var k :| 0 < k < |path[1..]| && path[1..][k - 1] == '.' && path[1..][k] == '.';
      assert path[k + 1] == '.' && path[k] == '.';
    } else {
      assert piece == [path[0]] + rest[0];
      var k :| 0 < k < |piece| && piece[k - 1] == '.' && piece[k] == '.';
      if k > 1 {
        assert rest[0][k - 2] == '.' && rest[0][k - 1] == '.';
        DotDotSurvives(path[1..], 0);
        var j :| 0 < j < |path[1..]| && path[1..][j - 1] == '.' && path[1..][j] == '.';
        assert path[j + 1] == '.' && path[j] == '.';
      } else {
        SplitHead(path[1..]);
        assert path[1] == rest[0][0] == '.';
      }
    }
  }

  /** The first piece starts where the string does. */
  lemma SplitHead(s: string)
    requires Split(s, '/')[0] != ""
    ensures s != "" && s[0] == Split(s, '/')[0][0]
  {
  }
}
