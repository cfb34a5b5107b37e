/**
 The LIKE pattern emitted for a path with several `[]`, and which full keys it accepts:
 those of the path, and exactly which others.
 */
module JqlFullkey {
  import opened Prelude
  import opened Strings
  import opened JqlFilter
  import opened JqlPlan

  /** SQLite's LIKE: `%` stands for any text, `_` for any character, letters match in either case. */
  predicate Like(pattern: string, s: string)
    decreases |pattern| + |s|
  {
    if pattern == "" then s == ""
    else if pattern[0] == '%' then Like(pattern[1..], s) || (s != "" && Like(pattern, s[1..]))
    else s != "" && CharMatches(pattern[0], s[0]) && Like(pattern[1..], s[1..])
  }

  predicate CharMatches(p: char, c: char)
  {
    p == '_' || Fold(p) == Fold(c)
  }

  /** Character by character, up to ASCII case and `_`. */
  predicate Resembles(p: string, s: string)
  {
    |p| == |s| && forall i | 0 <= i < |p| :: CharMatches(p[i], s[i])
  }

  lemma {:induction false} LikeAppend(p: string, s: string, q: string, t: string)
    requires Like(p, s) && Like(q, t)
    ensures Like(p + q, s + t)
    decreases |p| + |s|
  {
    if p == "" {
      assert p + q == q && s + t == t;
    } else {
      assert (p + q)[0] == p[0] && (p + q)[1..] == p[1..] + q;
      assert s != "" ==> (s + t)[0] == s[0] && (s + t)[1..] == s[1..] + t;
      if p[0] == '%' {
        if Like(p[1..], s) {
          LikeAppend(p[1..], s, q, t);
        } else {
          LikeAppend(p, s[1..], q, t);
        }
      } else {
        LikeAppend(p[1..], s[1..], q, t);
      }
    }
  }

  /** Wildcards match themselves too. */
  lemma {:induction false} LikeResembling(p: string, s: string)
    requires Resembles(p, s)
    ensures Like(p, s)
  {
    if p != "" {
      LikeResembling(p[1..], s[1..]);
      assert p[0] == '%' ==> Like(p, s[1..]);
    }
  }

  lemma {:induction false} LikeAny(s: string)
    ensures Like("%", s)
  {
    assert "%"[1..] == "";
    if s != "" {
      LikeAny(s[1..]);
    }
  }

  /** Every `[`, `]` or `.` of a pattern uses up one of the text. */
  lemma {:induction false} LikeConsumes(p: string, s: string, c: char)
    requires Like(p, s) && c in ['[', ']', '.']
    ensures Count(p, c) <= Count(s, c)
    decreases |p| + |s|
  {
    if p != "" {
      if p[0] != '%' {
        LikeConsumes(p[1..], s[1..], c);
      } else if Like(p[1..], s) {
        LikeConsumes(p[1..], s, c);
      } else {
        LikeConsumes(p, s[1..], c);
      }
    }
  }

  // -------------------------------------------------------- paths and full keys

  /** A path as its steps: a field name, or some element of the array reached. */
  datatype Mark = Name(word: string) | Element

  function MarksOf(segments: seq<string>): seq<Mark>
  {
    if segments == [] then []
    else if EndsWithBrackets(segments[0]) then [Name(FieldOf(segments[0])), Element] + MarksOf(segments[1..])
    else [Name(segments[0])] + MarksOf(segments[1..])
  }

  /** The steps of a path. */
  function PathMarks(path: string): seq<Mark>
  {
    MarksOf(Split(path, '.'))
  }

  function MarkText(mark: Mark): string
  {
    match mark
    case Name(w) => "." + w
    case Element => "[%]"
  }

  function PatternText(marks: seq<Mark>): string
  {
    if marks == [] then "" else MarkText(marks[0]) + PatternText(marks[1..])
  }

  /** A step of a full key: into a field of an object, or to an index of an array. */
  datatype Step = Label(name: string) | Index(index: nat)

  /**
   How `json_tree` spells a label in a full key. SQLite leaves letters and digits as they
   are and puts other labels in quotes; the model takes any spelling.
   */
  type Spelling = string -> string

  function Digits(n: nat): string
  {
    if n < 10 then [('0' as int + n) as char] else Digits(n / 10) + [('0' as int + n % 10) as char]
  }

  function StepText(spell: Spelling, step: Step): string
  {
    match step
    case Label(l) => "." + spell(l)
    case Index(i) => "[" + Digits(i) + "]"
  }

  function KeyText(spell: Spelling, steps: seq<Step>): string
  {
    if steps == [] then "" else StepText(spell, steps[0]) + KeyText(spell, steps[1..])
  }

  /** The full key of the node at the end of the steps. */
  function Fullkey(spell: Spelling, steps: seq<Step>): string
  {
    "$" + KeyText(spell, steps)
  }

  /** The key takes the path's steps one by one, names up to ASCII case and `_`. */
  predicate Takes(marks: seq<Mark>, spell: Spelling, steps: seq<Step>)
  {
    |marks| == |steps| && forall i | 0 <= i < |marks| :: TakesStep(marks[i], spell, steps[i])
  }

  predicate TakesStep(mark: Mark, spell: Spelling, step: Step)
  {
    match mark
    case Name(w) => step.Label? && Resembles(w, spell(step.name))
    case Element => step.Index?
  }

  lemma {:induction false} PatternOfMarks(segments: seq<string>)
    requires SegmentPatterns(segments).Ok?
    ensures SegmentPatterns(segments).value == PatternText(MarksOf(segments))
  {
    if segments != [] {
      PatternOfMarks(segments[1..]);
      var segment, rest := segments[0], MarksOf(segments[1..]);
      if EndsWithBrackets(segment) {
        var marks := [Name(FieldOf(segment)), Element] + rest;
        assert marks[1..][1..] == rest;
        assert PatternText(marks[1..]) == "[%]" + PatternText(rest);
        assert "." + FieldOf(segment) + ("[%]" + PatternText(rest))
            == "." + FieldOf(segment) + "[%]" + PatternText(rest);
      } else {
        assert ([Name(segment)] + rest)[1..] == rest;
      }
    }
  }

  function Names(marks: seq<Mark>): nat
  {
    if marks == [] then 0 else (if marks[0].Name? then 1 else 0) + Names(marks[1..])
  }

  function Elements(marks: seq<Mark>): nat
  {
    if marks == [] then 0 else (if marks[0].Element? then 1 else 0) + Elements(marks[1..])
  }

  function Labels(steps: seq<Step>): nat
  {
    if steps == [] then 0 else (if steps[0].Label? then 1 else 0) + Labels(steps[1..])
  }

  function Indices(steps: seq<Step>): nat
  {
    if steps == [] then 0 else (if steps[0].Index? then 1 else 0) + Indices(steps[1..])
  }

  /**
   The key takes the names of the path step by step, while each `[]` takes a run of steps
   that begins and ends with an index.
   */
  ghost predicate Accepts(marks: seq<Mark>, spell: Spelling, steps: seq<Step>)
  {
    if marks == [] || steps == [] then marks == [] && steps == []
    else match marks[0]
      case Name(w) =>
        steps[0].Label? && Resembles(w, spell(steps[0].name)) && Accepts(marks[1..], spell, steps[1..])
      case Element =>
        steps[0].Index? && exists j :: 0 <= j < |steps| && steps[j].Index? && Accepts(marks[1..], spell, steps[j + 1..])
  }

  // ----------------------------------------------- what is accepted does match

  lemma {:induction false} KeyTextAppend(spell: Spelling, a: seq<Step>, b: seq<Step>)
    ensures KeyText(spell, a + b) == KeyText(spell, a) + KeyText(spell, b)
  {
    if a == [] {
      assert a + b == b;
    } else {
      assert (a + b)[1..] == a[1..] + b;
      KeyTextAppend(spell, a[1..], b);
    }
  }

  /** The text of a key up to the `]` of its j-th step, an index, and after it. */
  lemma KeyAroundIndex(spell: Spelling, steps: seq<Step>, j: nat)
    requires j < |steps| && steps[j].Index?
    ensures KeyText(spell, steps)
         == (KeyText(spell, steps[..j]) + ("[" + Digits(steps[j].index))) + "]" + KeyText(spell, steps[j + 1..])
  {
    assert steps == steps[..j] + steps[j..] && steps[j..][1..] == steps[j + 1..];
    KeyTextAppend(spell, steps[..j], steps[j..]);
    Regroup(KeyText(spell, steps[..j]), "[" + Digits(steps[j].index), KeyText(spell, steps[j + 1..]));
  }

  lemma Regroup(before: string, bracket: string, after: string)
    ensures before + (bracket + "]" + after) == (before + bracket) + "]" + after
  {
  }

  lemma {:induction false} StarCovers(u: string, p: string, s: string)
    requires Like(p, s)
    ensures Like("%]" + p, u + "]" + s)
  {
    assert ("%]" + p)[1..] == "]" + p && ("]" + p)[1..] == p;
    if u == "" {
      assert u + "]" + s == "]" + s && ("]" + s)[1..] == s;
    } else {
      StarCovers(u[1..], p, s);
      assert (u + "]" + s)[1..] == u[1..] + "]" + s;
    }
  }

  lemma BracketCovers(u: string, p: string, s: string)
    requires u != "" && u[0] == '[' && Like(p, s)
    ensures Like("[%]" + p, u + "]" + s)
  {
    StarCovers(u[1..], p, s);
    assert (u + "]" + s)[1..] == u[1..] + "]" + s;
    assert ("[%]" + p)[1..] == "%]" + p;
  }

  /** `[%]` stands for any steps from an index to an index. */
  lemma ElementCovers(p: string, spell: Spelling, steps: seq<Step>, j: nat)
    requires j < |steps| && steps[0].Index? && steps[j].Index? && Like(p, KeyText(spell, steps[j + 1..]))
    ensures Like("[%]" + p, KeyText(spell, steps))
  {
    KeyAroundIndex(spell, steps, j);
    assert j > 0 ==> steps[..j][0] == steps[0];
    BracketCovers(KeyText(spell, steps[..j]) + ("[" + Digits(steps[j].index)), p, KeyText(spell, steps[j + 1..]));
  }

  lemma {:induction false} AcceptedIsLike(marks: seq<Mark>, spell: Spelling, steps: seq<Step>)
    requires Accepts(marks, spell, steps)
    ensures Like(PatternText(marks), KeyText(spell, steps))
  {
    if marks != [] {
      var rest := PatternText(marks[1..]);
      match marks[0]
      case Name(w) =>
        AcceptedIsLike(marks[1..], spell, steps[1..]);
        LikeResembling("." + w, "." + spell(steps[0].name));
        LikeAppend("." + w, "." + spell(steps[0].name), rest, KeyText(spell, steps[1..]));
      case Element =>
        var j :| 0 <= j < |steps| && steps[j].Index? && Accepts(marks[1..], spell, steps[j + 1..]);
        AcceptedIsLike(marks[1..], spell, steps[j + 1..]);
        ElementCovers(rest, spell, steps, j);
    }
  }

  lemma TakesRest(marks: seq<Mark>, spell: Spelling, steps: seq<Step>)
    requires Takes(marks, spell, steps) && marks != []
    ensures TakesStep(marks[0], spell, steps[0]) && Takes(marks[1..], spell, steps[1..])
  {
    forall i | 0 <= i < |marks[1..]| ensures TakesStep(marks[1..][i], spell, steps[1..][i]) {
      assert TakesStep(marks[i + 1], spell, steps[i + 1]);
    }
  }

  lemma {:induction false} TakenIsAccepted(marks: seq<Mark>, spell: Spelling, steps: seq<Step>)
    requires Takes(marks, spell, steps)
    ensures Accepts(marks, spell, steps)
    ensures Elements(marks) == Indices(steps) && Names(marks) == Labels(steps)
  {
    if marks != [] {
      TakesRest(marks, spell, steps);
      TakenIsAccepted(marks[1..], spell, steps[1..]);
      assert marks[0].Element? ==> steps[0].Index? && Accepts(marks[1..], spell, steps[0 + 1..]);
    }
  }

  lemma DollarInFront(path: string, spell: Spelling, steps: seq<Step>)
    requires FullkeyPattern(path).Ok?
    ensures Like(FullkeyPattern(path).value, Fullkey(spell, steps))
       <==> Like(PatternText(PathMarks(path)), KeyText(spell, steps))
  {
    PatternOfMarks(Split(path, '.'));
    var p, s := PatternText(PathMarks(path)), KeyText(spell, steps);
    assert ("$" + p)[1..] == p && ("$" + s)[1..] == s;
  }

  /** Whatever indices fill its `[]`, the full key of a path is accepted by the path's pattern. */
  lemma FullkeyMatches(path: string, spell: Spelling, steps: seq<Step>)
    requires FullkeyPattern(path).Ok? && Takes(PathMarks(path), spell, steps)
    ensures Like(FullkeyPattern(path).value, Fullkey(spell, steps))
  {
    TakenIsAccepted(PathMarks(path), spell, steps);
    AcceptedIsLike(PathMarks(path), spell, steps);
    DollarInFront(path, spell, steps);
  }

  // ------------------------------------------------------ counting separators

  /** No character that separates steps. */
  predicate Solid(s: string)
  {
    '.' !in s && '[' !in s && ']' !in s
  }

  predicate SolidLabels(spell: Spelling, steps: seq<Step>)
  {
    forall i | 0 <= i < |steps| && steps[i].Label? :: Solid(spell(steps[i].name))
  }

  predicate WordMarks(marks: seq<Mark>)
  {
    forall i | 0 <= i < |marks| && marks[i].Name? :: IsWord(marks[i].word)
  }

  predicate NoUnderscore(marks: seq<Mark>)
  {
    forall i | 0 <= i < |marks| && marks[i].Name? :: '_' !in marks[i].word
  }

  lemma {:induction false} DigitsOnly(n: nat, c: char)
    requires c in Digits(n)
    ensures '0' <= c <= '9'
  {
    if n >= 10 && c in Digits(n / 10) {
      DigitsOnly(n / 10, c);
    }
  }

  lemma SolidCounts(s: string)
    requires Solid(s)
    ensures Count(s, '.') == 0 && Count(s, '[') == 0 && Count(s, ']') == 0
  {
    NoCount(s, '.');
    NoCount(s, '[');
    NoCount(s, ']');
  }

  lemma WordIsSolid(w: string)
    requires IsWord(w)
    ensures Solid(w) && '%' !in w
  {
  }

  lemma DigitsAreSolid(n: nat)
    ensures Solid(Digits(n))
  {
    forall c | c in Digits(n) ensures '0' <= c <= '9' {
      DigitsOnly(n, c);
    }
  }

  lemma CountAround(s: string, c: char)
    ensures Count("[" + s + "]", c) == Count(s, c) + (if c == '[' then 1 else 0) + (if c == ']' then 1 else 0)
  {
    CountAppend("[" + s, "]", c);
    assert ("[" + s)[1..] == s;
    assert "]"[1..] == "";
  }

  lemma CountAfterDot(s: string, c: char)
    ensures Count("." + s, c) == Count(s, c) + if c == '.' then 1 else 0
  {
    assert ("." + s)[1..] == s;
  }

  /** The separators of a pattern are those of its steps. */
  lemma {:induction false} PatternCounts(marks: seq<Mark>)
    requires WordMarks(marks)
    ensures Count(PatternText(marks), '.') == Names(marks)
    ensures Count(PatternText(marks), '[') == Count(PatternText(marks), ']') == Elements(marks)
  {
    if marks != [] {
      var rest := marks[1..];
      forall i | 0 <= i < |rest| && rest[i].Name? ensures IsWord(rest[i].word) {
        assert rest[i] == marks[i + 1];
      }
      PatternCounts(rest);
      MarkCounts(marks[0]);
      CountAppend(MarkText(marks[0]), PatternText(rest), '.');
      CountAppend(MarkText(marks[0]), PatternText(rest), '[');
      CountAppend(MarkText(marks[0]), PatternText(rest), ']');
    }
  }

  lemma MarkCounts(mark: Mark)
    requires mark.Name? ==> IsWord(mark.word)
    ensures var text := MarkText(mark);
            && Count(text, '.') == (if mark.Name? then 1 else 0)
            && Count(text, '[') == Count(text, ']') == if mark.Name? then 0 else 1
  {
    match mark
    case Name(w) =>
      WordIsSolid(w);
      SolidCounts(w);
      CountAfterDot(w, '.');
      CountAfterDot(w, '[');
      CountAfterDot(w, ']');
    case Element =>
      assert "[%]" == "[" + "%" + "]";
      SolidCounts("%");
      CountAround("%", '.');
      CountAround("%", '[');
      CountAround("%", ']');
  }

  lemma {:induction false} KeyCounts(spell: Spelling, steps: seq<Step>)
    requires SolidLabels(spell, steps)
    ensures Count(KeyText(spell, steps), '.') == Labels(steps)
    ensures Count(KeyText(spell, steps), '[') == Count(KeyText(spell, steps), ']') == Indices(steps)
  {
    if steps != [] {
      var rest := steps[1..];
      RestIsSolid(spell, steps);
      KeyCounts(spell, rest);
      StepCounts(spell, steps[0]);
      CountAppend(StepText(spell, steps[0]), KeyText(spell, rest), '.');
      CountAppend(StepText(spell, steps[0]), KeyText(spell, rest), '[');
      CountAppend(StepText(spell, steps[0]), KeyText(spell, rest), ']');
    }
  }

  lemma RestIsSolid(spell: Spelling, steps: seq<Step>)
    requires steps != [] && SolidLabels(spell, steps)
    ensures SolidLabels(spell, steps[1..])
  {
    forall i | 0 <= i < |steps[1..]| && steps[1..][i].Label? ensures Solid(spell(steps[1..][i].name)) {
      assert steps[1..][i] == steps[i + 1];
    }
  }

  lemma StepCounts(spell: Spelling, step: Step)
    requires step.Label? ==> Solid(spell(step.name))
    ensures var text := StepText(spell, step);
            && Count(text, '.') == (if step.Label? then 1 else 0)
            && Count(text, '[') == Count(text, ']') == if step.Label? then 0 else 1
  {
    var inner := if step.Label? then spell(step.name) else Digits(step.index);
    if step.Index? {
      DigitsAreSolid(step.index);
    }
    SolidCounts(inner);
    CountAfterDot(inner, '.');
    CountAfterDot(inner, '[');
    CountAfterDot(inner, ']');
    CountAround(inner, '.');
    CountAround(inner, '[');
    CountAround(inner, ']');
  }

  /** A full key with fewer index steps than the path has `[]` is refused. */
  lemma EnoughIndices(marks: seq<Mark>, spell: Spelling, steps: seq<Step>)
    requires Like(PatternText(marks), KeyText(spell, steps)) && WordMarks(marks) && SolidLabels(spell, steps)
    ensures Elements(marks) <= Indices(steps) && Names(marks) <= Labels(steps)
  {
    PatternCounts(marks);
    KeyCounts(spell, steps);
    LikeConsumes(PatternText(marks), KeyText(spell, steps), '[');
    LikeConsumes(PatternText(marks), KeyText(spell, steps), '.');
  }

  // --------------------------------------------- what matches is accepted

  lemma {:induction false} StarSkips(u: string, p: string, s: string)
    requires ']' !in u && Like("%]" + p, u + s)
    ensures Like("%]" + p, s)
  {
    if u == "" {
      assert u + s == s;
    } else {
      assert ("%]" + p)[1..] == "]" + p && (u + s)[0] == u[0] && (u + s)[1..] == u[1..] + s;
      StarSkips(u[1..], p, s);
    }
  }

  /** `%]` ends with an index step of the key. */
  lemma {:induction false} StarEndsAtIndex(p: string, spell: Spelling, steps: seq<Step>)
    requires Like("%]" + p, KeyText(spell, steps)) && SolidLabels(spell, steps)
    ensures exists j :: 0 <= j < |steps| && steps[j].Index? && Like(p, KeyText(spell, steps[j + 1..]))
    decreases |steps|
  {
    var pattern := "%]" + p;
    assert pattern[1..] == "]" + p && pattern[1..][1..] == p;
    assert steps != [];
    var rest := KeyText(spell, steps[1..]);
    RestIsSolid(spell, steps);
    match steps[0]
    case Label(l) =>
      StarSkips("." + spell(l), p, rest);
      EndsLater(p, spell, steps);
    case Index(i) =>
      DigitsAreSolid(i);
      assert KeyText(spell, steps) == "[" + Digits(i) + ("]" + rest);
      StarSkips("[" + Digits(i), p, "]" + rest);
      assert ("]" + rest)[1..] == rest;
      if Like(p, rest) {
        assert steps[0].Index? && Like(p, KeyText(spell, steps[0 + 1..]));
      } else {
        EndsLater(p, spell, steps);
      }
  }

  lemma {:induction false} EndsLater(p: string, spell: Spelling, steps: seq<Step>)
    requires steps != [] && Like("%]" + p, KeyText(spell, steps[1..])) && SolidLabels(spell, steps[1..])
    ensures exists j :: 0 <= j < |steps| && steps[j].Index? && Like(p, KeyText(spell, steps[j + 1..]))
    decreases |steps|, 0
  {
    StarEndsAtIndex(p, spell, steps[1..]);
    var j :| 0 <= j < |steps[1..]| && steps[1..][j].Index? && Like(p, KeyText(spell, steps[1..][j + 1..]));
    assert steps[1..][j + 1..] == steps[j + 1 + 1..] && steps[j + 1].Index?;
  }

  /** Empty, or beginning with the separator of a step. */
  predicate AtStep(s: string)
  {
    s != "" ==> s[0] in ['.', '[']
  }

  /** A `_` that took a separator leaves one too few for the steps behind it. */
  lemma NameStopsAtStep(w: string, p: string, s: string)
    requires w != "" && IsWord(w) && AtStep(s) && s != "" && Like(w[1..] + p, s[1..])
    ensures Count(p, s[0]) < Count(s, s[0])
  {
    var c := s[0];
    WordIsSolid(w[1..]);
    SolidCounts(w[1..]);
    CountAppend(w[1..], p, c);
    LikeConsumes(w[1..] + p, s[1..], c);
  }

  predicate SameCounts(p: string, s: string)
  {
    Count(p, '.') == Count(s, '.') && Count(p, '[') == Count(s, '[')
  }

  /** A name in the pattern takes exactly the label of its step. */
  lemma {:induction false} NameTakesLabel(w: string, p: string, l: string, s: string)
    requires Like(w + p, l + s) && IsWord(w) && Solid(l) && AtStep(p) && AtStep(s)
    requires '_' !in w || SameCounts(p, s)
    ensures Resembles(w, l) && Like(p, s)
    decreases |w|
  {
    if w == "" {
      assert w + p == p && (l == "" ==> l + s == s);
    } else {
      assert (w + p)[0] == w[0] && (w + p)[1..] == w[1..] + p;
      if l == "" {
        assert l + s == s;
        NameStopsAtStep(w, p, s);
      } else {
        assert (l + s)[0] == l[0] && (l + s)[1..] == l[1..] + s;
        NameTakesLabel(w[1..], p, l[1..], s);
      }
    }
  }

  lemma PatternAtStep(marks: seq<Mark>)
    ensures AtStep(PatternText(marks)) && (PatternText(marks) == "" <==> marks == [])
  {
  }

  lemma KeyAtStep(spell: Spelling, steps: seq<Step>)
    ensures AtStep(KeyText(spell, steps)) && (KeyText(spell, steps) == "" <==> steps == [])
  {
  }

  lemma RestIsWords(marks: seq<Mark>)
    requires marks != [] && WordMarks(marks)
    ensures WordMarks(marks[1..])
    ensures NoUnderscore(marks) ==> NoUnderscore(marks[1..])
  {
    forall i | 0 <= i < |marks[1..]| && marks[1..][i].Name?
      ensures IsWord(marks[1..][i].word) && (NoUnderscore(marks) ==> '_' !in marks[1..][i].word)
    {
      assert marks[1..][i] == marks[i + 1];
    }
  }

  /** No `_` in the path, or as many labels and indices as it has names and `[]`. */
  predicate Comparable(marks: seq<Mark>, steps: seq<Step>)
  {
    NoUnderscore(marks) || (Elements(marks) == Indices(steps) && Names(marks) == Labels(steps))
  }

  lemma NameStepTaken(w: string, p: string, l: string, s: string)
    requires Like("." + w + p, "." + l + s) && IsWord(w) && Solid(l) && AtStep(p) && AtStep(s)
    requires '_' !in w || SameCounts(p, s)
    ensures Resembles(w, l) && Like(p, s)
  {
    assert ("." + w + p)[1..] == w + p && ("." + l + s)[1..] == l + s;
    NameTakesLabel(w, p, l, s);
  }

  /** A pattern that starts with a name takes no index step, and one that starts with `[` no label. */
  lemma SameKind(mark: Mark, p: string, spell: Spelling, step: Step, s: string)
    requires Like(MarkText(mark) + p, StepText(spell, step) + s)
    ensures mark.Name? <==> step.Label?
  {
    assert (MarkText(mark) + p)[0] == MarkText(mark)[0];
    assert (StepText(spell, step) + s)[0] == StepText(spell, step)[0];
  }

  lemma RestCounts(marks: seq<Mark>, spell: Spelling, steps: seq<Step>)
    requires marks != [] && steps != [] && WordMarks(marks) && SolidLabels(spell, steps)
    requires Comparable(marks, steps) && marks[0].Name? && steps[0].Label?
    ensures WordMarks(marks[1..]) && SolidLabels(spell, steps[1..]) && Comparable(marks[1..], steps[1..])
    ensures var p, s := PatternText(marks[1..]), KeyText(spell, steps[1..]);
            AtStep(p) && AtStep(s) && (NoUnderscore(marks) || SameCounts(p, s))
  {
    RestIsWords(marks);
    RestIsSolid(spell, steps);
    PatternCounts(marks[1..]);
    KeyCounts(spell, steps[1..]);
    PatternAtStep(marks[1..]);
    KeyAtStep(spell, steps[1..]);
  }

  lemma {:induction false} CountsAppend(a: seq<Step>, b: seq<Step>)
    ensures Labels(a + b) == Labels(a) + Labels(b) && Indices(a + b) == Indices(a) + Indices(b)
  {
    if a == [] {
      assert a + b == b;
    } else {
      assert (a + b)[1..] == a[1..] + b;
      CountsAppend(a[1..], b);
    }
  }

  lemma LaterIsSolid(spell: Spelling, steps: seq<Step>, k: nat)
    requires SolidLabels(spell, steps) && k <= |steps|
    ensures SolidLabels(spell, steps[k..])
  {
    forall i | 0 <= i < |steps[k..]| && steps[k..][i].Label? ensures Solid(spell(steps[k..][i].name)) {
      assert steps[k..][i] == steps[k + i];
    }
  }

  /** With as many indices as `[]`, the run that a `[]` takes is one index. */
  lemma RunIsComparable(marks: seq<Mark>, spell: Spelling, steps: seq<Step>, j: nat)
    requires marks != [] && marks[0].Element? && j < |steps| && steps[0].Index? && steps[j].Index?
    requires WordMarks(marks) && SolidLabels(spell, steps) && Comparable(marks, steps)
    requires Like(PatternText(marks[1..]), KeyText(spell, steps[j + 1..]))
    ensures WordMarks(marks[1..]) && SolidLabels(spell, steps[j + 1..]) && Comparable(marks[1..], steps[j + 1..])
  {
    RestIsWords(marks);
    LaterIsSolid(spell, steps, j + 1);
    EnoughIndices(marks[1..], spell, steps[j + 1..]);
    assert steps == steps[..j] + steps[j..] && steps[j..][1..] == steps[j + 1..];
    CountsAppend(steps[..j], steps[j..]);
    assert j > 0 ==> Indices(steps[..j]) >= 1;
  }

  lemma {:induction false} LikeIsAccepted(marks: seq<Mark>, spell: Spelling, steps: seq<Step>)
    requires WordMarks(marks) && SolidLabels(spell, steps) && Comparable(marks, steps)
    requires Like(PatternText(marks), KeyText(spell, steps))
    ensures Accepts(marks, spell, steps)
    decreases |marks|
  {
    PatternAtStep(marks);
    KeyAtStep(spell, steps);
    if marks != [] && steps != [] {
      var p := PatternText(marks[1..]);
      SameKind(marks[0], p, spell, steps[0], KeyText(spell, steps[1..]));
      match marks[0]
      case Name(w) =>
        RestCounts(marks, spell, steps);
        NameStepTaken(w, p, spell(steps[0].name), KeyText(spell, steps[1..]));
        LikeIsAccepted(marks[1..], spell, steps[1..]);
      case Element =>
        assert ("[%]" + p)[1..] == "%]" + p;
        StarEndsAtIndex(p, spell, steps);
        var j :| 0 <= j < |steps| && steps[j].Index? && Like(p, KeyText(spell, steps[j + 1..]));
        RunIsComparable(marks, spell, steps, j);
        LikeIsAccepted(marks[1..], spell, steps[j + 1..]);
    }
  }

  lemma TakesFrom(marks: seq<Mark>, spell: Spelling, steps: seq<Step>)
    requires marks != [] && steps != []
    requires TakesStep(marks[0], spell, steps[0]) && Takes(marks[1..], spell, steps[1..])
    ensures Takes(marks, spell, steps)
  {
    forall i | 0 <= i < |marks| ensures TakesStep(marks[i], spell, steps[i]) {
      assert i > 0 ==> TakesStep(marks[1..][i - 1], spell, steps[1..][i - 1]);
    }
  }

  lemma RunUsesIndices(steps: seq<Step>, j: nat)
    requires j < |steps| && steps[0].Index? && steps[j].Index?
    ensures Indices(steps) >= Indices(steps[j + 1..]) + if j == 0 then 1 else 2
  {
    assert steps == steps[..j] + steps[j..] && steps[j..][1..] == steps[j + 1..];
    CountsAppend(steps[..j], steps[j..]);
    assert j > 0 ==> Indices(steps[..j]) >= 1;
  }

  lemma {:induction false} AcceptedUsesIndices(marks: seq<Mark>, spell: Spelling, steps: seq<Step>)
    requires Accepts(marks, spell, steps)
    ensures Elements(marks) <= Indices(steps)
    ensures Elements(marks) == Indices(steps) ==> Takes(marks, spell, steps)
    decreases |marks|
  {
    if marks != [] {
      var j := 0;
      if marks[0].Element? {
        j :| 0 <= j < |steps| && steps[j].Index? && Accepts(marks[1..], spell, steps[j + 1..]);
        RunUsesIndices(steps, j);
      }
      AcceptedUsesIndices(marks[1..], spell, steps[j + 1..]);
      if Elements(marks) == Indices(steps) {
        assert j == 0;
        TakesFrom(marks, spell, steps);
      }
    }
  }

  /**
   Exactly the keys a pattern accepts. Without `_` in the path: those in which each `[]`
   takes a run of steps from an index to an index. Among the keys with as many indices as
   the path has `[]`: the path's own, and with a `_` in the path also keys with more labels.
   */
  lemma PatternAcceptsExactly(path: string, spell: Spelling, steps: seq<Step>)
    requires FullkeyPattern(path).Ok? && WordMarks(PathMarks(path)) && SolidLabels(spell, steps)
    ensures var marks := PathMarks(path);
            var accepted := Like(FullkeyPattern(path).value, Fullkey(spell, steps));
            && (NoUnderscore(marks) ==> (accepted <==> Accepts(marks, spell, steps)))
            && (accepted ==> Elements(marks) <= Indices(steps) && Names(marks) <= Labels(steps))
            && (Elements(marks) == Indices(steps) ==>
                  && (Takes(marks, spell, steps) <==> accepted && Names(marks) == Labels(steps))
                  && (NoUnderscore(marks) ==> (Takes(marks, spell, steps) <==> accepted)))
  {
    var marks := PathMarks(path);
    DollarInFront(path, spell, steps);
    if Like(PatternText(marks), KeyText(spell, steps)) {
      EnoughIndices(marks, spell, steps);
      if Comparable(marks, steps) {
        LikeIsAccepted(marks, spell, steps);
        AcceptedUsesIndices(marks, spell, steps);
      }
    }
    if Accepts(marks, spell, steps) {
      AcceptedIsLike(marks, spell, steps);
    }
    if Takes(marks, spell, steps) {
      TakenIsAccepted(marks, spell, steps);
    }
  }

  /** An accepted path whose names are words without `_`. */
  predicate PlainPath(path: string)
  {
    FullkeyPattern(path).Ok? && WordMarks(PathMarks(path)) && NoUnderscore(PathMarks(path))
  }

  lemma PlainPathAccepts(path: string, spell: Spelling, steps: seq<Step>)
    requires PlainPath(path) && SolidLabels(spell, steps)
    ensures Like(FullkeyPattern(path).value, Fullkey(spell, steps)) <==> Accepts(PathMarks(path), spell, steps)
  {
    PatternAcceptsExactly(path, spell, steps);
  }

  // ------------------------------------------------------------ counterexamples

  function TwoArrays(f: string, g: string): string
  {
    f + "[]" + "." + (g + "[]")
  }

  lemma TwoArrayMarks(f: string, g: string)
    requires f != "" && g != "" && IsWord(f) && IsWord(g)
    ensures FullkeyPattern(TwoArrays(f, g)).Ok?
    ensures PathMarks(TwoArrays(f, g)) == [Name(f), Element, Name(g), Element]
  {
    var a, b := f + "[]", g + "[]";
    WordIsSolid(f);
    WordIsSolid(g);
    SplitAtFirst(a, b, '.');
    SplitWithout(b, '.');
    assert FieldOf(a) == f && FieldOf(b) == g;
    var segments := [a] + [b];
    assert segments[1..] == [b] && [b][1..] == [];
    assert SegmentPatterns([]).Ok? && SegmentPatterns([b]).Ok? && SegmentPatterns(segments).Ok?;
    assert MarksOf([]) == [] && MarksOf([b]) == [Name(g), Element];
    assert MarksOf(segments) == [Name(f), Element] + MarksOf([b]);
  }

  /** Further arrays between two indices may stand for one `[]`. */
  lemma RunIsAccepted(marks: seq<Mark>, spell: Spelling, i: nat, between: seq<Step>, j: nat, rest: seq<Step>)
    requires marks != [] && marks[0].Element? && Accepts(marks[1..], spell, rest)
    ensures Accepts(marks, spell, [Index(i)] + between + [Index(j)] + rest)
  {
    var steps := [Index(i)] + between + [Index(j)] + rest;
    var last := |between| + 1;
    assert steps[0] == Index(i) && steps[last] == Index(j) && steps[last + 1..] == rest;
  }

  /** `f[].g[]` also accepts keys that go through further arrays on the way, whatever lies between. */
  lemma PatternAcceptsDeeperKey(f: string, g: string, spell: Spelling, i: nat, between: seq<Step>, j: nat, k: nat)
    requires f != "" && g != "" && IsWord(f) && IsWord(g) && spell(f) == f && spell(g) == g
    ensures var steps := [Label(f)] + ([Index(i)] + between + [Index(j)] + [Label(g), Index(k)]);
            && FullkeyPattern(TwoArrays(f, g)).Ok?
            && Like(FullkeyPattern(TwoArrays(f, g)).value, Fullkey(spell, steps))
            && !Takes(PathMarks(TwoArrays(f, g)), spell, steps)
  {
    TwoArrayMarks(f, g);
    var marks := [Name(f), Element, Name(g), Element];
    assert marks[1..] == [Element, Name(g), Element] && marks[1..][1..] == [Name(g), Element];
    assert Takes([Name(g), Element], spell, [Label(g), Index(k)]);
    TakenIsAccepted([Name(g), Element], spell, [Label(g), Index(k)]);
    RunIsAccepted(marks[1..], spell, i, between, j, [Label(g), Index(k)]);
    var run := [Index(i)] + between + [Index(j)] + [Label(g), Index(k)];
    assert ([Label(f)] + run)[1..] == run;
    AcceptedIsLike(marks, spell, [Label(f)] + run);
    DollarInFront(TwoArrays(f, g), spell, [Label(f)] + run);
  }

  lemma TwoLabels(a: string, b: string, spell: Spelling, rest: seq<Step>)
    requires spell(a) == a && spell(b) == b
    ensures var steps := [Label(a), Label(b)] + rest;
            KeyText(spell, steps) == ("." + a + "." + b) + KeyText(spell, rest) && Indices(steps) == Indices(rest)
  {
    var steps := [Label(a), Label(b)] + rest;
    var tail := KeyText(spell, rest);
    assert steps[1..] == [Label(b)] + rest && steps[1..][1..] == rest;
    assert KeyText(spell, steps[1..]) == "." + b + tail;
    assert "." + a + ("." + b + tail) == ("." + a + "." + b) + tail;
  }

  lemma TakesOne(g: string, spell: Spelling, i: nat, k: nat)
    requires spell(g) == g
    ensures Takes([Element, Name(g), Element], spell, [Index(i), Label(g), Index(k)])
  {
  }

  lemma UnderscoreLike(a: string, b: string, p: string, s: string)
    requires Like(p, s)
    ensures Like("." + (a + "_" + b) + p, ("." + a + "." + b) + s)
  {
    var name, labels := "." + (a + "_" + b), "." + a + "." + b;
    assert name == "." + a + "_" + b;
    LikeResembling(name, labels);
    LikeAppend(name, labels, p, s);
  }

  /** A `_` in a name takes any character, so `a_b[].g[]` also accepts the keys of `a.b[].g[]`. */
  lemma UnderscoreTakesDot(a: string, b: string, g: string, spell: Spelling, i: nat, k: nat)
    requires IsWord(a) && IsWord(b) && g != "" && IsWord(g) && spell(a) == a && spell(b) == b && spell(g) == g
    ensures var path := TwoArrays(a + "_" + b, g);
            var steps := [Label(a), Label(b)] + [Index(i), Label(g), Index(k)];
            && FullkeyPattern(path).Ok? && Elements(PathMarks(path)) == Indices(steps)
            && Like(FullkeyPattern(path).value, Fullkey(spell, steps)) && !Takes(PathMarks(path), spell, steps)
  {
    var f := a + "_" + b;
    var rest := [Index(i), Label(g), Index(k)];
    var marks := [Name(f), Element, Name(g), Element];
    TwoArrayMarks(f, g);
    assert marks[1..] == [Element, Name(g), Element];
    TakesOne(g, spell, i, k);
    TakenIsAccepted(marks[1..], spell, rest);
    AcceptedIsLike(marks[1..], spell, rest);
    TwoLabels(a, b, spell, rest);
    UnderscoreLike(a, b, PatternText(marks[1..]), KeyText(spell, rest));
    assert PatternText(marks) == "." + f + PatternText(marks[1..]);
    DollarInFront(TwoArrays(f, g), spell, [Label(a), Label(b)] + rest);
  }
}
