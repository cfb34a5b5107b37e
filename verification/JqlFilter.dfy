/** Filters as parsed JSON, their paths and operators (`src/query/jql.rs`). */
module JqlFilter {
  import opened Prelude
  import opened Strings
  import opened SqlText

  type int64 = x: int | -0x8000_0000_0000_0000 <= x < 0x8000_0000_0000_0000

  /**
   JSON values. Objects are sequences of fields, in whatever order the map type
   iterates; a number is an integer when it fits 64 signed bits, and otherwise
   the float it converts to.
   */
  datatype Json =
    | JNull
    | JBool(b: bool)
    | JInt(i: int64)
    | JReal(r: real)
    | JStr(s: string)
    | JArr(items: seq<Json>)
    | JObj(fields: seq<Field>)

  datatype Field = Field(key: string, value: Json)

  /** The reasons for which a filter is refused; each is a bad request in the source. */
  datatype FilterError =
    | FilterNotObject
    | NeedsArray(op: string)
    | EmptyList(op: string)
    | NeedsString(op: string)
    | NeedsBool
    | NeedsPair
    | NestedOperand
    | BadSize
    | BadSizeOperand(op: string)
    | UnsupportedSizeOp(op: string)
    | UnsupportedType(name: string)
    | UnsupportedOp(op: string)
    | EmptyOperators
    | EmptyPath
    | BadPath
    | BadSegment(segment: string)

  /** The operators, those that differ only in their parameters together. */
  datatype Op =
    | Comparing(cmp: CmpOp)
    | Like(folded: bool, before: string, after: string)
    | ExistsOp
    | Regex
    | InList(negated: bool)
    | Between
    | Size
    | TypeIs
    | Includes(negated: bool)
    | AnyOf(negated: bool)
    | AllOf
    | ElemMatch
    | Unsupported

  function OpOf(op: string): Op
  {
    if op == "$eq" then Comparing(EQ)
    else if op == "$ne" then Comparing(NE)
    else if op == "$gt" then Comparing(GT)
    else if op == "$gte" then Comparing(GE)
    else if op == "$lt" then Comparing(LT)
    else if op == "$lte" then Comparing(LE)
    else if op == "$exists" then ExistsOp
    else if op == "$startsWith" then Like(false, "", "%")
    else if op == "$endsWith" then Like(false, "%", "")
    else if op == "$contains" then Like(false, "%", "%")
    else if op == "$ilike" then Like(true, "", "")
    else if op == "$istartsWith" then Like(true, "", "%")
    else if op == "$iendsWith" then Like(true, "%", "")
    else if op == "$icontains" then Like(true, "%", "%")
    else if op == "$regex" then Regex
    else if op == "$in" then InList(false)
    else if op == "$nin" then InList(true)
    else if op == "$between" then Between
    else if op == "$size" then Size
    else if op == "$type" then TypeIs
    else if op == "$includes" then Includes(false)
    else if op == "$nincludes" then Includes(true)
    else if op == "$any" then AnyOf(false)
    else if op == "$all" then AllOf
    else if op == "$none" then AnyOf(true)
    else if op == "$elemMatch" then ElemMatch
    else Unsupported
  }

  predicate IsDollar(key: string)
  {
    key != "" && key[0] == '$'
  }

  predicate IsLogical(key: string)
  {
    key == "$and" || key == "$or" || key == "$nor"
  }

  /** A non-empty object all of whose keys are operators. */
  predicate IsOperatorObject(value: Json)
  {
    value.JObj? && value.fields != [] && forall i | 0 <= i < |value.fields| :: IsDollar(value.fields[i].key)
  }

  // ------------------------------------------------------------------ weights

  function KeyWeight(key: string): nat
  {
    5 * Count(key, '[')
  }

  /** The size of a filter, in which every `[` of a key outweighs the objects the rewrite adds for it. */
  function Weight(j: Json): (w: nat)
    ensures w >= 1
    decreases j
  {
    match j
    case JArr(items) => 1 + ItemsWeight(items)
    case JObj(fields) => 1 + FieldsWeight(fields)
    case _ => 1
  }

  function ItemsWeight(items: seq<Json>): nat
    decreases items
  {
    if items == [] then 0 else Weight(items[0]) + ItemsWeight(items[1..])
  }

  function FieldsWeight(fields: seq<Field>): nat
    decreases fields
  {
    if fields == [] then 0
    else 1 + KeyWeight(fields[0].key) + Weight(fields[0].value) + FieldsWeight(fields[1..])
  }

  // -------------------------------------------------------------------- paths

  predicate IsWordChar(c: char)
  {
    'a' <= c <= 'z' || 'A' <= c <= 'Z' || '0' <= c <= '9' || c == '_'
  }

  predicate IsWord(s: string)
  {
    forall i | 0 <= i < |s| :: IsWordChar(s[i])
  }

  /** The first bad segment decides the error; an empty path is refused before it is split. */
  function CheckPath(path: string): Result<(), FilterError>
  {
    if path == "" then Err(EmptyPath) else CheckSegments(Split(path, '.'))
  }

  function CheckSegments(segments: seq<string>): Result<(), FilterError>
  {
    if segments == [] then Ok(())
    else if segments[0] == "" then Err(BadPath)
    else if !IsWord(segments[0]) then Err(BadSegment(segments[0]))
    else CheckSegments(segments[1..])
  }

  /** A letter, a digit, `_` or the dot between two segments. */
  predicate IsPlainPathChar(c: char)
  {
    c == '.' || c == '_' || 'a' <= c <= 'z' || 'A' <= c <= 'Z' || '0' <= c <= '9'
  }

  /** Segments of letters, digits and `_` between single dots. */
  predicate IsPlainPath(path: string)
  {
    && path != "" && path[0] != '.' && path[|path| - 1] != '.'
    && (forall i | 0 <= i < |path| :: IsPlainPathChar(path[i]))
    && (forall i | 0 < i < |path| :: path[i - 1] == '.' ==> path[i] != '.')
  }

  lemma PlainPathFrom(path: string)
    requires |path| > 1
    ensures path[0] != '.' && path[1] != '.' ==>
              (IsPlainPath(path) <==> IsPlainPathChar(path[0]) && IsPlainPath(path[1..]))
    ensures path[0] != '.' && path[1] == '.' ==>
              (IsPlainPath(path) <==> IsPlainPathChar(path[0]) && IsPlainPath(path[2..]))
  {
    var rest := path[1..];
    assert forall i | 0 < i < |path| :: path[i] == rest[i - 1];
    if path[1] == '.' && |path| > 2 {
      var last := path[2..];
      assert forall i | 1 < i < |path| :: path[i] == last[i - 2];
    }
  }

  /** Exactly the plain paths are accepted. */
  lemma {:induction false} AcceptedPath(path: string)
    ensures CheckPath(path).Ok? <==> IsPlainPath(path)
    decreases |path|
  {
    if |path| == 1 {
      assert path == [path[0]] && path[1..] == "";
      FirstSegment(path[0], [""]);
    } else if |path| > 1 && path[0] != '.' {
      var rest := Split(path[1..], '.');
      PlainPathFrom(path);
      AcceptedPath(path[1..]);
      FirstSegment(path[0], rest);
      if path[1] == '.' {
        AcceptedPath(path[2..]);
        assert path[1..][1..] == path[2..];
        assert rest == [""] + Split(path[2..], '.') && rest[1..] == Split(path[2..], '.');
      }
    }
  }

  lemma FirstSegment(c: char, rest: seq<string>)
    requires rest != []
    ensures CheckSegments([[c] + rest[0]] + rest[1..]).Ok? <==>
              IsWordChar(c) && IsWord(rest[0]) && CheckSegments(rest[1..]).Ok?
    ensures rest[0] != "" ==> (CheckSegments(rest).Ok? <==> IsWord(rest[0]) && CheckSegments(rest[1..]).Ok?)
  {
    var (segment, segments) := ([c] + rest[0], [[c] + rest[0]] + rest[1..]);
    assert segments[0] == segment && segments[1..] == rest[1..];
    assert segment[0] == c && segment[1..] == rest[0];
    assert IsWord(segment) <==> IsWordChar(c) && IsWord(rest[0]) by {
      assert forall i | 0 <= i < |rest[0]| :: segment[i + 1] == rest[0][i];
    }
  }

  /** The field name of a segment with the `[]` suffix. */
  function FieldOf(segment: string): string
    requires EndsWithBrackets(segment)
  {
    segment[..|segment| - 2]
  }

  /** Splits a path at its first array segment into the array's path and the rest. */
  function SplitFirstArray(path: string): Result<Option<(string, string)>, FilterError>
  {
    var segments := Split(path, '.');
    if "" in segments then Err(BadPath) else SplitSegments([], segments)
  }

  function SplitSegments(prefix: seq<string>, segments: seq<string>): Result<Option<(string, string)>, FilterError>
    decreases segments
  {
    if segments == [] then Ok(None)
    else
      var segment := segments[0];
      if EndsWithBrackets(segment) then
        var field := FieldOf(segment);
        if field == "" || HasBracket(field) then Err(BadSegment(segment))
        else Ok(Some((Join(prefix + [field], '.'), Join(segments[1..], '.'))))
      else if HasBracket(segment) then Err(BadSegment(segment))
      else SplitSegments(prefix + [segment], segments[1..])
  }

  function Tail(rest: string): string
  {
    if rest == "" then "" else "." + rest
  }

  lemma JoinOne(prefix: seq<string>, piece: string)
    ensures Join(prefix + [piece], '.') == (if prefix == [] then "" else Join(prefix, '.') + ".") + piece
  {
    if prefix != [] {
      JoinAppend(prefix, [piece], '.');
    }
  }

  lemma JoinAtArray(prefix: seq<string>, field: string, rest: seq<string>)
    requires "" !in rest
    ensures Join(prefix + [field + "[]"] + rest, '.') == Join(prefix + [field], '.') + "[]" + Tail(Join(rest, '.'))
  {
    var head := prefix + [field + "[]"];
    JoinOne(prefix, field + "[]");
    JoinOne(prefix, field);
    assert Join(head, '.') == Join(prefix + [field], '.') + "[]";
    if rest == [] {
      assert head + rest == head;
    } else {
      JoinAppend(head, rest, '.');
      assert rest[0] != "";
      assert Join(rest, '.') != "";
    }
  }

  lemma {:induction false} SplitSegmentsText(prefix: seq<string>, segments: seq<string>)
    requires "" !in segments
    ensures var r := SplitSegments(prefix, segments);
            r.Ok? && r.value.Some? ==>
              Join(prefix + segments, '.') == r.value.value.0 + "[]" + Tail(r.value.value.1)
    decreases segments
  {
    if segments != [] {
      var segment, rest := segments[0], segments[1..];
      assert prefix + segments == prefix + [segment] + rest;
      if EndsWithBrackets(segment) {
        assert segment == FieldOf(segment) + "[]";
        JoinAtArray(prefix, FieldOf(segment), rest);
      } else if !HasBracket(segment) {
        SplitSegmentsText(prefix + [segment], rest);
      }
    }
  }

  /** The two halves of a split path, with `[]` between them, spell the path. */
  lemma SplitFirstArrayText(path: string)
    requires SplitFirstArray(path).Ok? && SplitFirstArray(path).value.Some?
    ensures var (arrayPath, rest) := SplitFirstArray(path).value.value;
            path == arrayPath + "[]" + Tail(rest)
  {
    var segments := Split(path, '.');
    JoinOfSplit(path, '.');
    assert [] + segments == segments;
    SplitSegmentsText([], segments);
  }

  /** What the elements of the array must match. */
  function ElementFilter(rest: string, value: Json): Json
  {
    if rest != "" then JObj([Field(rest, value)])
    else if IsOperatorObject(value) then value
    else JObj([Field("$eq", value)])
  }

  function ElemMatchOf(rest: string, value: Json): Json
  {
    JObj([Field("$elemMatch", ElementFilter(rest, value))])
  }

  lemma OneFieldWeight(key: string, value: Json)
    ensures Weight(JObj([Field(key, value)])) == 2 + KeyWeight(key) + Weight(value)
  {
    assert [Field(key, value)][1..] == [];
    assert FieldsWeight([]) == 0;
  }

  lemma PlainKeyWeights()
    ensures KeyWeight("$eq") == 0 && KeyWeight("$elemMatch") == 0
  {
    var eq, elem := "$eq", "$elemMatch";
    NoCount(eq, '[');
    NoCount(elem, '[');
  }

  lemma {:induction false} NoCount(s: string, c: char)
    requires c !in s
    ensures Count(s, c) == 0
  {
    if s != "" {
      NoCount(s[1..], c);
    }
  }

  /**
   Rewriting `a[].b: v` to `a: {$elemMatch: {b: v}}` enlarges the value and still
   lowers the weight of path and value together.
   */
  lemma ArrayRewriteDecreases(path: string, value: Json)
    requires SplitFirstArray(path).Ok? && SplitFirstArray(path).value.Some?
    ensures var (arrayPath, rest) := SplitFirstArray(path).value.value;
            && Weight(value) < Weight(ElemMatchOf(rest, value))
            && KeyWeight(arrayPath) + Weight(ElemMatchOf(rest, value)) < KeyWeight(path) + Weight(value)
            && Weight(ElementFilter(rest, value)) + 2 <= KeyWeight(path) + Weight(value)
  {
    var (arrayPath, rest) := SplitFirstArray(path).value.value;
    SplitFirstArrayText(path);
    CountAppend(arrayPath + "[]", Tail(rest), '[');
    CountAppend(arrayPath, "[]", '[');
    assert Count("[]", '[') == 1 by {
      assert "[]"[1..] == "]" && "]"[1..] == "";
    }
    assert Count(Tail(rest), '[') == Count(rest, '[') by {
      assert rest != "" ==> ("." + rest)[1..] == rest;
    }
    PlainKeyWeights();
    OneFieldWeight("$elemMatch", ElementFilter(rest, value));
    OneFieldWeight("$eq", value);
    OneFieldWeight(rest, value);
  }
}
