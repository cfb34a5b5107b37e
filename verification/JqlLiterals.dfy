/** The simplest filters spelled out: what each JSON scalar is bound as, and what a field of an array asks. */
module JqlLiterals {
  import opened Prelude
  import opened Strings
  import opened SqlText
  import opened SqlEval
  import opened JqlFilter
  import opened JqlPlan
  import opened JqlMeaning
  import opened JqlCompiler
  import opened JqlTheorems
  import JqlCorrect

  // ------------------------------------------------------------------ scalars

  /** A JSON scalar and the value SQLite gets for it; booleans are 1 and 0. */
  predicate BoundAs(v: Json, b: SqlValue)
  {
    match v
    case JNull => b == Null
    case JBool(true) => b == Integer(1)
    case JBool(false) => b == Integer(0)
    case JInt(i) => b == Integer(i)
    case JReal(r) => b == Real(r)
    case JStr(s) => b == Text(s)
    case _ => false
  }

  predicate AllBoundAs(items: seq<Json>, bs: seq<SqlValue>)
  {
    |items| == |bs| && forall k | 0 <= k < |items| :: BoundAs(items[k], bs[k])
  }

  /** Scalars are bound so and only so; lists and objects are refused as operands. */
  lemma BoundOrRefused(v: Json, b: SqlValue)
    ensures ToSql(v) == Ok(b) <==> BoundAs(v, b)
    ensures ToSql(v) == Err(NestedOperand) <==> v.JArr? || v.JObj?
    ensures BoundAs(v, b) ==> ScalarOf(v) == b
  {
  }

  lemma {:induction false} AllBound(items: seq<Json>, bs: seq<SqlValue>)
    requires AllBoundAs(items, bs)
    ensures ToSqlAll(items) == Ok(bs)
  {
    if items == [] {
      assert bs == [];
    } else {
      BoundOrRefused(items[0], bs[0]);
      forall k | 0 <= k < |items[1..]| ensures BoundAs(items[1..][k], bs[1..][k]) {
        assert BoundAs(items[k + 1], bs[k + 1]);
      }
      AllBound(items[1..], bs[1..]);
      assert [bs[0]] + bs[1..] == bs;
    }
  }

  // -------------------------------------------------------------- plain fields

  lemma PlainChars(path: string)
    requires IsPlainPath(path)
    ensures '[' !in path && ']' !in path && '$' !in path
  {
    forall c | c in path ensures IsPlainPathChar(c) {
    }
  }

  lemma PlainSegments(path: string)
    requires IsPlainPath(path)
    ensures CheckPath(path).Ok? && SplitFirstArray(path) == Ok(None)
  {
    AcceptedPath(path);
    var pieces := Split(path, '.');
    forall i | 0 <= i < |pieces| ensures !HasBracket(pieces[i]) && pieces[i] != "" {
      CheckedSegment(pieces, i);
    }
    JqlCorrect.NoBracketSegments([], pieces);
    assert "" !in pieces;
  }

  /** A plain path has no array segment and is no operator. */
  lemma PlainKey(path: string)
    requires IsPlainPath(path)
    ensures CheckPath(path).Ok? && CountBracketPairs(path) == 0 && SplitFirstArray(path) == Ok(None)
    ensures !IsLogical(path) && path != "$not" && !IsDollar(path)
  {
    PlainChars(path);
    PlainSegments(path);
    JqlCorrect.NoBracketPairs(path);
    assert path[0] in path;
  }

  lemma {:induction false} CheckedSegment(segments: seq<string>, i: nat)
    requires CheckSegments(segments).Ok? && i < |segments|
    ensures segments[i] != "" && IsWord(segments[i])
  {
    if i > 0 {
      CheckedSegment(segments[1..], i - 1);
    }
  }

  lemma PlainFieldPlan(base: string, path: string, value: Json)
    requires IsPlainPath(path)
    ensures WhereOf(base, JObj([Field(path, value)]))
         == Emit(Joined(PlanTests(value, Arrow(Column(base), path), Extract(Column(base), path))))
  {
    PlainKey(path);
    var b := Column(base);
    var fields := [Field(path, value)];
    assert fields[1..] == [] && PlanEntries(b, [], false) == Ok([]);
    var plan := PlanField(b, path, value);
    assert plan == Joined(PlanTests(value, Arrow(b, path), Extract(b, path)));
    assert PlanEntry(b, path, value, false) == OnlyPart(plan);
    assert PlanEntries(b, fields, false) == Then(OnlyPart(plan), Ok([]));
    if plan.Ok? {
      assert [plan.value] + [] == [plan.value] && [plan.value] != [];
      assert JoinAll([plan.value]) == plan.value;
    }
    assert PlanFilter(b, JObj(fields), false) == Joined(PlanEntries(b, fields, false));
  }

  /** `data ->> '$.path' op ?` */
  function ComparisonText(base: string, path: string, op: CmpOp): seq<Token>
  {
    [OPERAND(Arrow(Column(base), path)), CMP(op), PARAM]
  }

  lemma ComparePlan(base: string, path: string, op: CmpOp, v: Json, b: SqlValue)
    requires BoundAs(v, b)
    ensures Emit(Joined(ComparePart(Arrow(Column(base), path), op, v)))
         == Ok(CompiledWhere(ComparisonText(base, path, op), [b]))
  {
    BoundOrRefused(v, b);
    var e := Arrow(Column(base), path);
    var d := TestOf(Compare(e, op, Plain(b)));
    assert ComparePart(e, op, v) == Ok([d]) && JoinAll([d]) == d;
    ComparePartText(e, op, b);
  }

  /** A field with a scalar is compared for equality, and the scalar is bound as this value. */
  lemma ScalarIsBound(base: string, path: string, v: Json, b: SqlValue)
    requires IsPlainPath(path) && BoundAs(v, b)
    ensures WhereOf(base, JObj([Field(path, v)])) == Ok(CompiledWhere(ComparisonText(base, path, EQ), [b]))
  {
    PlainFieldPlan(base, path, v);
    ComparePlan(base, path, EQ, v, b);
    BoundOrRefused(v, b);
  }

  lemma LiteralsAreBound(base: string, path: string, i: int64, r: real, s: string)
    requires IsPlainPath(path)
    ensures var text := ComparisonText(base, path, EQ);
            && WhereOf(base, JObj([Field(path, JBool(true))])) == Ok(CompiledWhere(text, [Integer(1)]))
            && WhereOf(base, JObj([Field(path, JBool(false))])) == Ok(CompiledWhere(text, [Integer(0)]))
            && WhereOf(base, JObj([Field(path, JInt(i))])) == Ok(CompiledWhere(text, [Integer(i)]))
            && WhereOf(base, JObj([Field(path, JReal(r))])) == Ok(CompiledWhere(text, [Real(r)]))
            && WhereOf(base, JObj([Field(path, JStr(s))])) == Ok(CompiledWhere(text, [Text(s)]))
            && WhereOf(base, JObj([Field(path, JNull)])) == Ok(CompiledWhere(text, [Null]))
  {
    ScalarIsBound(base, path, JBool(true), Integer(1));
    ScalarIsBound(base, path, JBool(false), Integer(0));
    ScalarIsBound(base, path, JInt(i), Integer(i));
    ScalarIsBound(base, path, JReal(r), Real(r));
    ScalarIsBound(base, path, JStr(s), Text(s));
    ScalarIsBound(base, path, JNull, Null);
  }

  lemma OneOperatorPlan(base: string, path: string, name: string, operand: Json)
    requires IsPlainPath(path) && OpOf(name) != ElemMatch
    ensures var (scalar, arr) := (Arrow(Column(base), path), Extract(Column(base), path));
            && WhereOf(base, JObj([Field(path, JObj([Field(name, operand)]))]))
               == Emit(Joined(NonEmpty(LeafPart(OpOf(name), name, operand, scalar, arr))))
  {
    PlainFieldPlan(base, path, JObj([Field(name, operand)]));
    JqlCorrect.OneField(Field(name, operand), Arrow(Column(base), path), Extract(Column(base), path));
  }

  /** The operand of a comparison is bound alone, next to its own operator. */
  lemma ComparisonIsBound(base: string, path: string, name: string, op: CmpOp, v: Json, b: SqlValue)
    requires IsPlainPath(path) && BoundAs(v, b)
    requires (name, op) in {("$eq", EQ), ("$ne", NE), ("$gt", GT), ("$gte", GE), ("$lt", LT), ("$lte", LE)}
    ensures WhereOf(base, JObj([Field(path, JObj([Field(name, v)]))]))
         == Ok(CompiledWhere(ComparisonText(base, path, op), [b]))
  {
    assert OpOf(name) == Comparing(op);
    OneOperatorPlan(base, path, name, v);
    ComparePlan(base, path, op, v, b);
    BoundOrRefused(v, b);
  }

  /** The items of `$in` and `$nin` are bound in their order. */
  lemma ListIsBound(base: string, path: string, items: seq<Json>, bs: seq<SqlValue>)
    requires IsPlainPath(path) && AllBoundAs(items, bs) && items != []
    ensures WhereOf(base, JObj([Field(path, JObj([Field("$in", JArr(items))]))]))
         == Ok(CompiledWhere(MemberText(Arrow(Column(base), path), false, |items|), bs))
    ensures WhereOf(base, JObj([Field(path, JObj([Field("$nin", JArr(items))]))]))
         == Ok(CompiledWhere(MemberText(Arrow(Column(base), path), true, |items|), bs))
  {
    assert OpOf("$in") == InList(false) && OpOf("$nin") == InList(true);
    OneOperatorPlan(base, path, "$in", JArr(items));
    OneOperatorPlan(base, path, "$nin", JArr(items));
    MembersAreBound(Arrow(Column(base), path), "$in", items, bs, false);
    MembersAreBound(Arrow(Column(base), path), "$nin", items, bs, true);
  }

  lemma MembersAreBound(e: SqlExpr, name: string, items: seq<Json>, bs: seq<SqlValue>, negated: bool)
    requires AllBoundAs(items, bs) && items != []
    ensures Emit(Joined(NonEmpty(MemberPart(e, name, JArr(items), negated))))
         == Ok(CompiledWhere(MemberText(e, negated, |bs|), bs))
  {
    AllBound(items, bs);
    var d := Alone(MemberOf(e, negated, bs));
    assert MemberPart(e, name, JArr(items), negated) == Ok([d]) && JoinAll([d]) == d;
    AloneText(d.c.f);
    MemberOfText(e, negated, bs);
  }

  /** The lower bound of `$between` is bound before the upper one. */
  lemma BoundsAreBound(base: string, path: string, lo: Json, hi: Json, a: SqlValue, b: SqlValue)
    requires IsPlainPath(path) && BoundAs(lo, a) && BoundAs(hi, b)
    ensures WhereOf(base, JObj([Field(path, JObj([Field("$between", JArr([lo, hi]))]))]))
         == Ok(CompiledWhere([OPERAND(Arrow(Column(base), path)), BETWEEN, PARAM, AND, PARAM], [a, b]))
  {
    assert OpOf("$between") == Between;
    OneOperatorPlan(base, path, "$between", JArr([lo, hi]));
    BoundOrRefused(lo, a);
    BoundOrRefused(hi, b);
    var e := Arrow(Column(base), path);
    var d := TestOf(Range(e, a, b));
    assert BetweenPart(e, "$between", JArr([lo, hi])) == Ok([d]) && JoinAll([d]) == d;
    AloneText(Test(Range(e, a, b)));
  }

  // ------------------------------------------------------------- array fields

  lemma {:induction false} SplitWithSuffix(path: string)
    requires path != "" && path[|path| - 1] != '.'
    ensures var pieces := Split(path, '.');
            Split(path + "[]", '.') == pieces[..|pieces| - 1] + [pieces[|pieces| - 1] + "[]"]
  {
    assert (path + "[]")[1..] == path[1..] + "[]";
    var pieces := Split(path, '.');
    if |path| == 1 {
      assert path[1..] == "" && path[1..] + "[]" == "[]";
      SplitWithout("[]", '.');
      FrontOfSuffixed(path[0], [""]);
      assert [""][..0] + ["" + "[]"] == ["[]"];
    } else {
      SplitWithSuffix(path[1..]);
      FrontOfSuffixed(path[0], Split(path[1..], '.'));
    }
  }

  lemma FrontOfSuffixed(c: char, rest: seq<string>)
    requires rest != []
    ensures var suffixed := rest[..|rest| - 1] + [rest[|rest| - 1] + "[]"];
            var (a, b) := ([""] + rest, [[c] + rest[0]] + rest[1..]);
            && [""] + suffixed == a[..|a| - 1] + [a[|a| - 1] + "[]"]
            && [[c] + suffixed[0]] + suffixed[1..] == b[..|b| - 1] + [b[|b| - 1] + "[]"]
  {
    if |rest| == 1 {
      assert [c] + (rest[0] + "[]") == [c] + rest[0] + "[]";
    }
  }

  lemma {:induction false} ArraySegmentFound(prefix: seq<string>, before: seq<string>, field: string, rest: seq<string>)
    requires forall i | 0 <= i < |before| :: !HasBracket(before[i])
    requires field != "" && !HasBracket(field)
    ensures SplitSegments(prefix, before + [field + "[]"] + rest)
         == Ok(Some((Join(prefix + before + [field], '.'), Join(rest, '.'))))
    decreases |before|
  {
    var segments := before + [field + "[]"] + rest;
    if before == [] {
      assert segments == [field + "[]"] + rest && segments[1..] == rest;
      assert EndsWithBrackets(segments[0]) && FieldOf(segments[0]) == field;
      assert prefix + before + [field] == prefix + [field];
    } else {
      assert segments[0] == before[0] && segments[1..] == before[1..] + [field + "[]"] + rest;
      if EndsWithBrackets(before[0]) {
        JqlCorrect.BracketSuffix(before[0]);
      }
      ArraySegmentFound(prefix + [before[0]], before[1..], field, rest);
      assert prefix + [before[0]] + before[1..] + [field] == prefix + before + [field];
    }
  }

  lemma ArraySplit(path: string, rest: seq<string>)
    requires IsPlainPath(path) && "" !in rest
    ensures "" !in Split(path + "[]", '.') + rest
    ensures SplitSegments([], Split(path + "[]", '.') + rest) == Ok(Some((path, Join(rest, '.'))))
  {
    var pieces := Split(path, '.');
    var last := |pieces| - 1;
    SplitWithSuffix(path);
    AcceptedPath(path);
    forall i | 0 <= i < |pieces| ensures !HasBracket(pieces[i]) && pieces[i] != "" {
      CheckedSegment(pieces, i);
    }
    ArraySegmentFound([], pieces[..last], pieces[last], rest);
    assert [] + pieces[..last] + [pieces[last]] == pieces;
    JoinOfSplit(path, '.');
  }

  lemma {:induction false} PairsAfter(s: string, t: string)
    requires '[' !in s
    ensures CountBracketPairs(s + "[]" + t) == 1 + CountBracketPairs(t)
  {
    var text := s + "[]" + t;
    if s == "" {
      assert text[2..] == t;
    } else {
      assert text[1..] == s[1..] + "[]" + t && text[0] == s[0];
      PairsAfter(s[1..], t);
    }
  }

  lemma ArrayPath(path: string)
    requires IsPlainPath(path)
    ensures CountBracketPairs(path + "[]") == 1 && SplitFirstArray(path + "[]") == Ok(Some((path, "")))
  {
    PlainChars(path);
    PairsAfter(path, "");
    assert path + "[]" + "" == path + "[]" && Split(path + "[]", '.') + [] == Split(path + "[]", '.');
    ArraySplit(path, []);
  }

  lemma ArrayPathThen(path: string, rest: string)
    requires IsPlainPath(path) && IsPlainPath(rest)
    ensures var whole := path + "[]" + "." + rest;
            CountBracketPairs(whole) == 1 && SplitFirstArray(whole) == Ok(Some((path, rest)))
  {
    PlainChars(path);
    PlainChars(rest);
    PairsAfter(path, "." + rest);
    JqlCorrect.NoBracketPairs("." + rest);
    assert path + "[]" + ("." + rest) == path + "[]" + "." + rest;
    SplitAppend(path + "[]", rest, '.');
    AcceptedPath(rest);
    forall i | 0 <= i < |Split(rest, '.')| ensures Split(rest, '.')[i] != "" {
      CheckedSegment(Split(rest, '.'), i);
    }
    ArraySplit(path, Split(rest, '.'));
    JoinOfSplit(rest, '.');
  }

  /** Some element of the array under the path passes a filter. */
  ghost predicate SomeElementPasses(E: Engine, doc: SqlValue, path: string, filter: Json)
  {
    exists i :: 0 <= i < |E.each(E.extract(doc, path))|
                && FilterMeans(E, filter, E.each(E.extract(doc, path))[i], true) == True
  }

  lemma ArrayFieldAsks(E: Engine, whole: string, path: string, rest: string, value: Json, doc: SqlValue)
    requires CountBracketPairs(whole) == 1 && SplitFirstArray(whole) == Ok(Some((path, rest)))
    ensures FieldMeans(E, whole, value, doc) == FromBool(SomeElementPasses(E, doc, path, ElementFilter(rest, value)))
  {
    ArrayRewriteDecreases(whole, value);
  }

  /** `{a[]: v}` with a scalar: some element equals the scalar. */
  lemma ArrayScalarMeans(E: Engine, path: string, v: Json, b: SqlValue, doc: SqlValue)
    requires IsPlainPath(path) && BoundAs(v, b)
    ensures var elements := E.each(E.extract(doc, path));
            FieldMeans(E, path + "[]", v, doc)
              == FromBool(exists i :: 0 <= i < |elements| && Compare3(E, EQ, elements[i], b) == True)
  {
    ArrayPath(path);
    ArrayFieldAsks(E, path + "[]", path, "", v, doc);
    var filter := JObj([Field("$eq", v)]);
    assert ElementFilter("", v) == filter;
    var elements := E.each(E.extract(doc, path));
    forall i | 0 <= i < |elements|
      ensures FilterMeans(E, filter, elements[i], true) == Compare3(E, EQ, elements[i], b)
    {
      EqualsElement(E, v, b, elements[i]);
    }
  }

  lemma EqualsElement(E: Engine, v: Json, b: SqlValue, x: SqlValue)
    requires BoundAs(v, b)
    ensures FilterMeans(E, JObj([Field("$eq", v)]), x, true) == Compare3(E, EQ, x, b)
  {
    BoundOrRefused(v, b);
    assert [Field("$eq", v)][1..] == [] && EntriesMean(E, [], x, true) == True;
    assert OpOf("$eq") == Comparing(EQ) && IsDollar("$eq");
    assert EntryMeans(E, "$eq", v, x, true) == OpMeans(E, Comparing(EQ), v, x, E.root(x));
  }

  /** `{a[]: {…}}` with operators only: one element meets them all. */
  lemma ArrayOperatorsMean(E: Engine, path: string, fields: seq<Field>, doc: SqlValue)
    requires IsPlainPath(path) && fields != []
    requires forall i | 0 <= i < |fields| :: fields[i].key != "" && fields[i].key[0] == '$'
    ensures FieldMeans(E, path + "[]", JObj(fields), doc) == FromBool(SomeElementPasses(E, doc, path, JObj(fields)))
  {
    ArrayPath(path);
    ArrayFieldAsks(E, path + "[]", path, "", JObj(fields), doc);
  }

  /** `{a[]: {…}}` with any other key, or none, is refused. */
  lemma OtherObjectsAreRefused(base: SqlExpr, path: string, fields: seq<Field>)
    requires IsPlainPath(path)
    requires fields == [] || exists i :: 0 <= i < |fields| && (fields[i].key == "" || fields[i].key[0] != '$')
    ensures PlanField(base, path + "[]", JObj(fields)) == Err(NestedOperand)
  {
    ArrayPath(path);
    var value := JObj(fields);
    var filter := JObj([Field("$eq", value)]);
    assert ElementFilter("", value) == filter;
    PlainKey(path);
    assert PlanField(base, path + "[]", value) == PlanField(base, path, ElemMatchOf("", value));
    JqlCorrect.OneElemMatch(Arrow(base, path), Extract(base, path), filter);
    NestedRefused(RowValue(Each(Extract(base, path))), value);
  }

  lemma NestedRefused(base: SqlExpr, value: Json)
    requires value.JObj?
    ensures PlanFilter(base, JObj([Field("$eq", value)]), true) == Err(NestedOperand)
  {
    var fields := [Field("$eq", value)];
    assert OpOf("$eq") == Comparing(EQ) && IsDollar("$eq") && fields[1..] == [];
    assert PlanEntry(base, "$eq", value, true) == PlanOp(Comparing(EQ), "$eq", value, Parens(base), ExtractRoot(base));
    assert PlanEntries(base, fields, true) == Err(NestedOperand);
  }

  /** `{a[].b: v}`: some element has this field. */
  lemma ArrayThenFieldMeans(E: Engine, path: string, rest: string, value: Json, doc: SqlValue)
    requires IsPlainPath(path) && IsPlainPath(rest)
    ensures var elements := E.each(E.extract(doc, path));
            FieldMeans(E, path + "[]" + "." + rest, value, doc)
              == FromBool(exists i :: 0 <= i < |elements|
                            && TestsMean(E, value, E.arrow(elements[i], rest), E.extract(elements[i], rest)) == True)
  {
    var whole := path + "[]" + "." + rest;
    ArrayPathThen(path, rest);
    ArrayFieldAsks(E, whole, path, rest, value, doc);
    var filter := JObj([Field(rest, value)]);
    assert ElementFilter(rest, value) == filter;
    var elements := E.each(E.extract(doc, path));
    forall i | 0 <= i < |elements|
      ensures FilterMeans(E, filter, elements[i], true)
           == TestsMean(E, value, E.arrow(elements[i], rest), E.extract(elements[i], rest))
    {
      PlainFieldMeans(E, rest, value, elements[i], true);
    }
  }

  lemma PlainFieldMeans(E: Engine, path: string, value: Json, v: SqlValue, elem: bool)
    requires IsPlainPath(path)
    ensures FilterMeans(E, JObj([Field(path, value)]), v, elem)
         == TestsMean(E, value, E.arrow(v, path), E.extract(v, path))
  {
    PlainKey(path);
    assert [Field(path, value)][1..] == [] && EntriesMean(E, [], v, elem) == True;
    assert EntryMeans(E, path, value, v, elem) == FieldMeans(E, path, value, v);
  }

  /** A path with two `[]` is scanned for in the tree of nodes. */
  lemma TwoArraysAreScanned(base: SqlExpr, path: string, rest: string, value: Json)
    requires IsPlainPath(path) && IsPlainPath(rest)
    ensures PlanField(base, path + "[]" + "." + rest + "[]", value)
         == PlanTreeField(base, path + "[]" + "." + rest + "[]", value)
  {
    PlainChars(path);
    PlainChars(rest);
    PairsAfter(path, "." + rest + "[]");
    PairsAfter("." + rest, "");
    assert path + "[]" + ("." + rest + "[]") == path + "[]" + "." + rest + "[]";
    assert "." + rest + "[]" + "" == "." + rest + "[]";
  }

  // --------------------------------------------------------- logical operators

  /** The four logical keys, at the top, in a nested object and inside `$elemMatch`. */
  lemma LogicalByName(E: Engine, items: seq<Json>, filter: Json, v: SqlValue, elem: bool)
    ensures EntryMeans(E, "$and", JArr(items), v, elem) == AllMean(E, items, v, elem)
    ensures EntryMeans(E, "$or", JArr(items), v, elem) == AnyMean(E, items, v, elem)
    ensures EntryMeans(E, "$nor", JArr(items), v, elem) == Not3(AnyMean(E, items, v, elem))
    ensures EntryMeans(E, "$not", filter, v, elem) == Not3(FilterMeans(E, filter, v, elem))
  {
  }

  /** They are accepted with a non-empty list of accepted filters, and `$not` with an accepted filter. */
  lemma LogicalAccepted(base: SqlExpr, key: string, items: seq<Json>, filter: Json, elem: bool)
    requires key in ["$and", "$or", "$nor"]
    ensures PlanEntry(base, key, JArr(items), elem).Ok? <==> items != [] && PlanArms(base, items, elem).Ok?
    ensures PlanEntry(base, "$not", filter, elem).Ok? <==> PlanFilter(base, filter, elem).Ok?
  {
    assert PlanEntry(base, key, JArr(items), elem) == PlanLogical(base, key, JArr(items), elem);
  }

  /** Outside `$elemMatch` any other key that starts with `$` is refused as a path. */
  lemma OperatorOutsideIsRefused(base: SqlExpr, key: string, value: Json)
    requires key != "" && key[0] == '$' && key !in ["$and", "$or", "$nor", "$not"]
    requires '.' !in key && '[' !in key && ']' !in key
    ensures PlanEntry(base, key, value, false) == Err(BadSegment(key))
  {
    JqlCorrect.NoBracketPairs(key);
    SplitWithout(key, '.');
    assert [key][1..] == [];
    JqlCorrect.NoBracketSegments([], [key]);
    assert !IsWordChar(key[0]);
    assert CheckPath(key) == Err(BadSegment(key));
  }

  /** A `$or` that is the only key of its object needs no parentheses, however many arms it has. */
  lemma LoneOrPasses(items: seq<Json>, elem: bool)
    ensures FilterPasses(OR_STANDS_ALONE, JObj([Field("$or", JArr(items))]), elem)
       <==> ItemsPass(OR_STANDS_ALONE, items, elem)
  {
    var fields := [Field("$or", JArr(items))];
    assert fields[1..] == [] && EntriesPass(OR_STANDS_ALONE, [], elem);
    assert EntryPasses(OR_STANDS_ALONE, "$or", JArr(items), elem) <==> ItemsPass(OR_STANDS_ALONE, items, elem);
  }

  // --------------------------------------------------------------- type names

  /** The names that `$type` accepts. */
  lemma TypeNames(base: string, path: string, name: string)
    requires IsPlainPath(path)
    ensures WhereOf(base, JObj([Field(path, JObj([Field("$type", JStr(name))]))])).Ok? <==>
              name in ["number", "boolean", "string", "array", "object", "null",
                       "integer", "real", "text", "true", "false"]
  {
    assert OpOf("$type") == TypeIs;
    OneOperatorPlan(base, path, "$type", JStr(name));
  }
}
