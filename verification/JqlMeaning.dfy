/**
 What a filter means, read directly off the filter and the JSON value it is
 applied to, with no text, no aliases and no binds.
 */
module JqlMeaning {
  import opened Prelude
  import opened Strings
  import opened SqlText
  import opened SqlEval
  import opened JqlFilter
  import opened JqlPlan

  /** The scalar an operand stands for; lists and objects have none. */
  function ScalarOf(v: Json): SqlValue
  {
    if ToSql(v).Ok? then ToSql(v).value else Null
  }

  function ItemsOf(v: Json): seq<Json>
  {
    if v.JArr? then v.items else []
  }

  function StringOf(v: Json): string
  {
    if v.JStr? then v.s else ""
  }

  function NotIf(negated: bool, t: Tri): Tri
  {
    if negated then Not3(t) else t
  }

  function EqualsAnyItem(E: Engine, x: SqlValue, items: seq<Json>): Tri
  {
    if items == [] then False
    else Or3(Compare3(E, EQ, x, ScalarOf(items[0])), EqualsAnyItem(E, x, items[1..]))
  }

  ghost function IncludesItem(E: Engine, arr: SqlValue, v: SqlValue): Tri
  {
    FromBool(exists i :: 0 <= i < |E.each(arr)| && Compare3(E, EQ, E.each(arr)[i], v) == True)
  }

  ghost function IncludesAnyItem(E: Engine, arr: SqlValue, items: seq<Json>): Tri
  {
    FromBool(exists i :: 0 <= i < |E.each(arr)| && EqualsAnyItem(E, E.each(arr)[i], items) == True)
  }

  ghost function IncludesAllItems(E: Engine, arr: SqlValue, items: seq<Json>): Tri
  {
    if items == [] then True
    else And3(IncludesItem(E, arr, ScalarOf(items[0])), IncludesAllItems(E, arr, items[1..]))
  }

  function Matches(E: Engine, folded: bool, x: SqlValue, pattern: string): Tri
  {
    if folded then Compare3(E, LIKE, E.lower(x), E.lower(Text(pattern))) else Compare3(E, LIKE, x, Text(pattern))
  }

  function TypeMeans(E: Engine, t: SqlValue, name: string): Tri
  {
    if name == "number" then Or3(Compare3(E, EQ, t, Text("integer")), Compare3(E, EQ, t, Text("real")))
    else if name == "boolean" then Or3(Compare3(E, EQ, t, Text("true")), Compare3(E, EQ, t, Text("false")))
    else Compare3(E, EQ, t, Text(if name == "string" then "text" else name))
  }

  function SizesMean(E: Engine, size: SqlValue, fields: seq<Field>): Tri
  {
    if fields == [] then True
    else
      var op := OpOf(fields[0].key);
      And3(if op.Comparing? then Compare3(E, op.cmp, size, ScalarOf(fields[0].value)) else False,
           SizesMean(E, size, fields[1..]))
  }

  function BetweenMeans(E: Engine, x: SqlValue, items: seq<Json>): Tri
  {
    if |items| == 2
    then And3(Compare3(E, GE, x, ScalarOf(items[0])), Compare3(E, LE, x, ScalarOf(items[1])))
    else False
  }

  /** An operator on a field whose scalar view is `x` and whose array view is `arr`. */
  ghost function LeafMeans(E: Engine, op: Op, operand: Json, x: SqlValue, arr: SqlValue): Tri
  {
    match op
    case Comparing(cmp) => Compare3(E, cmp, x, ScalarOf(operand))
    case Like(folded, before, after) => Matches(E, folded, x, before + StringOf(operand) + after)
    case ExistsOp => FromBool(operand.JBool? && operand.b == (x != Null))
    case Regex => Compare3(E, REGEXP, x, Text(StringOf(operand)))
    case InList(negated) => NotIf(negated, EqualsAnyItem(E, x, ItemsOf(operand)))
    case Between => BetweenMeans(E, x, ItemsOf(operand))
    case Size =>
      if operand.JObj? then SizesMean(E, E.arrayLength(arr), operand.fields)
      else Compare3(E, EQ, E.arrayLength(arr), ScalarOf(operand))
    case TypeIs => TypeMeans(E, E.typeOf(arr), StringOf(operand))
    case Includes(negated) => NotIf(negated, IncludesItem(E, arr, ScalarOf(operand)))
    case AnyOf(negated) => NotIf(negated, IncludesAnyItem(E, arr, ItemsOf(operand)))
    case AllOf => IncludesAllItems(E, arr, ItemsOf(operand))
    case _ => False
  }

  /** The meaning of a filter on a value; `elem` is set inside `$elemMatch`. */
  ghost function FilterMeans(E: Engine, filter: Json, v: SqlValue, elem: bool): Tri
    decreases Weight(filter), 0
  {
    if filter.JObj? then EntriesMean(E, filter.fields, v, elem) else True
  }

  /** Sibling keys are a conjunction. */
  ghost function EntriesMean(E: Engine, fields: seq<Field>, v: SqlValue, elem: bool): Tri
    decreases FieldsWeight(fields), 0
  {
    if fields == [] then True
    else And3(EntryMeans(E, fields[0].key, fields[0].value, v, elem), EntriesMean(E, fields[1..], v, elem))
  }

  ghost function AllMean(E: Engine, items: seq<Json>, v: SqlValue, elem: bool): Tri
    decreases ItemsWeight(items), 1
  {
    if items == [] then True
    else And3(FilterMeans(E, items[0], v, elem), AllMean(E, items[1..], v, elem))
  }

  ghost function AnyMean(E: Engine, items: seq<Json>, v: SqlValue, elem: bool): Tri
    decreases ItemsWeight(items), 1
  {
    if items == [] then False
    else Or3(FilterMeans(E, items[0], v, elem), AnyMean(E, items[1..], v, elem))
  }

  ghost function EntryMeans(E: Engine, key: string, value: Json, v: SqlValue, elem: bool): Tri
    decreases KeyWeight(key) + Weight(value), 4
  {
    if IsLogical(key) then
      if !value.JArr? then True
      else if key == "$and" then AllMean(E, value.items, v, elem)
      else if key == "$or" then AnyMean(E, value.items, v, elem)
      else Not3(AnyMean(E, value.items, v, elem))
    else if key == "$not" then Not3(FilterMeans(E, value, v, elem))
    else if elem && IsDollar(key) then OpMeans(E, OpOf(key), value, v, E.root(v))
    else FieldMeans(E, key, value, v)
  }

  /** One field: its value, one of its array elements, or one node of its nested arrays. */
  ghost function FieldMeans(E: Engine, path: string, value: Json, v: SqlValue): Tri
    decreases KeyWeight(path) + Weight(value), 3
  {
    if CountBracketPairs(path) > 1 then TreeMeans(E, path, value, v)
    else match SplitFirstArray(path)
      case Err(_) => True
      case Ok(Some((arrayPath, rest))) =>
        ArrayRewriteDecreases(path, value);
        FromBool(SomeElementMeans(E, ElementFilter(rest, value), E.extract(v, arrayPath)))
      case Ok(None) =>
        TestsMean(E, value, E.arrow(v, path), E.extract(v, path))
  }

  /** A field's value: operators on the field, or a scalar it must equal. */
  ghost function TestsMean(E: Engine, value: Json, x: SqlValue, arr: SqlValue): Tri
    decreases Weight(value), 0
  {
    if value.JObj? then OpsMean(E, value.fields, x, arr) else Compare3(E, EQ, x, ScalarOf(value))
  }

  ghost predicate SomeElementMeans(E: Engine, filter: Json, arr: SqlValue)
    decreases Weight(filter), 1
  {
    exists i :: 0 <= i < |E.each(arr)| && FilterMeans(E, filter, E.each(arr)[i], true) == True
  }

  ghost function TreeMeans(E: Engine, path: string, value: Json, v: SqlValue): Tri
    decreases KeyWeight(path) + Weight(value), 2
  {
    FromBool(
      && FullkeyPattern(path).Ok?
      && exists i :: 0 <= i < |E.tree(v)| && NodeMeans(E, FullkeyPattern(path).value, value, E.tree(v)[i]) == True)
  }

  ghost function NodeMeans(E: Engine, pattern: string, value: Json, node: TreeNode): Tri
    decreases Weight(value), 1
  {
    And3(Matches(E, false, node.fullkey, pattern), TestsMean(E, value, node.atom, node.value))
  }

  ghost function OpsMean(E: Engine, fields: seq<Field>, x: SqlValue, arr: SqlValue): Tri
    decreases FieldsWeight(fields), 0
  {
    if fields == [] then True
    else And3(OpMeans(E, OpOf(fields[0].key), fields[0].value, x, arr), OpsMean(E, fields[1..], x, arr))
  }

  ghost function OpMeans(E: Engine, op: Op, operand: Json, x: SqlValue, arr: SqlValue): Tri
    decreases Weight(operand), 2
  {
    if op == ElemMatch then FromBool(SomeElementMeans(E, operand, arr)) else LeafMeans(E, op, operand, x, arr)
  }

  /** The comparisons, by name: three of them, their negations, and the range between two bounds. */
  lemma ComparisonsByName(E: Engine, v: Json, w: Json, x: SqlValue, arr: SqlValue)
    ensures LeafMeans(E, OpOf("$eq"), v, x, arr) == Compare3(E, EQ, x, ScalarOf(v))
    ensures LeafMeans(E, OpOf("$gt"), v, x, arr) == Compare3(E, GT, x, ScalarOf(v))
    ensures LeafMeans(E, OpOf("$lt"), v, x, arr) == Compare3(E, LT, x, ScalarOf(v))
    ensures LeafMeans(E, OpOf("$ne"), v, x, arr) == Not3(LeafMeans(E, OpOf("$eq"), v, x, arr))
    ensures LeafMeans(E, OpOf("$gte"), v, x, arr) == Not3(LeafMeans(E, OpOf("$lt"), v, x, arr))
    ensures LeafMeans(E, OpOf("$lte"), v, x, arr) == Not3(LeafMeans(E, OpOf("$gt"), v, x, arr))
    ensures LeafMeans(E, OpOf("$between"), JArr([v, w]), x, arr)
         == And3(LeafMeans(E, OpOf("$gte"), v, x, arr), LeafMeans(E, OpOf("$lte"), w, x, arr))
    ensures v.JBool? ==> LeafMeans(E, OpOf("$exists"), v, x, arr) == FromBool(v.b == (x != Null))
  {
  }

  /** The comparisons on two values; exactly one of less, equal and greater holds unless one of them is NULL. */
  lemma ComparesBy(E: Engine, a: SqlValue, b: SqlValue)
    ensures a == Null || b == Null ==> forall op :: Compare3(E, op, a, b) == Unknown
    ensures a != Null && b != Null ==>
              && Compare3(E, EQ, a, b) == FromBool(E.order(a, b) == 0)
              && Compare3(E, LT, a, b) == FromBool(E.order(a, b) < 0)
              && Compare3(E, GT, a, b) == FromBool(E.order(a, b) > 0)
              && Compare3(E, LIKE, a, b) == FromBool(E.like(a, b))
              && Compare3(E, REGEXP, a, b) == FromBool(E.regexp(a, b))
    ensures Compare3(E, NE, a, b) == Not3(Compare3(E, EQ, a, b))
    ensures Compare3(E, GE, a, b) == Not3(Compare3(E, LT, a, b))
    ensures Compare3(E, LE, a, b) == Not3(Compare3(E, GT, a, b))
  {
  }

  /** The string operators, by name. */
  lemma PatternsByName(E: Engine, s: string, x: SqlValue, arr: SqlValue)
    ensures LeafMeans(E, OpOf("$startsWith"), JStr(s), x, arr) == Compare3(E, LIKE, x, Text(s + "%"))
    ensures LeafMeans(E, OpOf("$endsWith"), JStr(s), x, arr) == Compare3(E, LIKE, x, Text("%" + s))
    ensures LeafMeans(E, OpOf("$contains"), JStr(s), x, arr) == Compare3(E, LIKE, x, Text("%" + s + "%"))
    ensures LeafMeans(E, OpOf("$ilike"), JStr(s), x, arr) == Compare3(E, LIKE, E.lower(x), E.lower(Text(s)))
    ensures LeafMeans(E, OpOf("$istartsWith"), JStr(s), x, arr) == Compare3(E, LIKE, E.lower(x), E.lower(Text(s + "%")))
    ensures LeafMeans(E, OpOf("$iendsWith"), JStr(s), x, arr) == Compare3(E, LIKE, E.lower(x), E.lower(Text("%" + s)))
    ensures LeafMeans(E, OpOf("$icontains"), JStr(s), x, arr)
         == Compare3(E, LIKE, E.lower(x), E.lower(Text("%" + s + "%")))
    ensures LeafMeans(E, OpOf("$regex"), JStr(s), x, arr) == Compare3(E, REGEXP, x, Text(s))
  {
    assert "" + s + "%" == s + "%";
    assert "%" + s + "" == "%" + s;
    assert "" + s + "" == s;
  }

  lemma {:induction false} EqualsSome(E: Engine, x: SqlValue, items: seq<Json>)
    ensures EqualsAnyItem(E, x, items) == True
       <==> exists k :: 0 <= k < |items| && Compare3(E, EQ, x, ScalarOf(items[k])) == True
    ensures EqualsAnyItem(E, x, items) == False
       <==> forall k | 0 <= k < |items| :: Compare3(E, EQ, x, ScalarOf(items[k])) == False
  {
    if items != [] {
      var rest := items[1..];
      EqualsSome(E, x, rest);
      forall k | 0 < k < |items| ensures items[k] == rest[k - 1] {
      }
      assert forall k | 0 <= k < |rest| :: rest[k] == items[k + 1];
    }
  }

  lemma {:induction false} IncludesEvery(E: Engine, arr: SqlValue, items: seq<Json>)
    ensures IncludesAllItems(E, arr, items) != Unknown
    ensures IncludesAllItems(E, arr, items) == True
       <==> forall k | 0 <= k < |items| :: IncludesItem(E, arr, ScalarOf(items[k])) == True
  {
    if items != [] {
      var rest := items[1..];
      IncludesEvery(E, arr, rest);
      assert forall k | 0 <= k < |rest| :: rest[k] == items[k + 1];
      forall k | 0 < k < |items| ensures items[k] == rest[k - 1] {
      }
    }
  }

  lemma SomeItemIncluded(E: Engine, arr: SqlValue, items: seq<Json>, i: nat)
    requires i < |E.each(arr)| && EqualsAnyItem(E, E.each(arr)[i], items) == True
    ensures exists k :: 0 <= k < |items| && IncludesItem(E, arr, ScalarOf(items[k])) == True
  {
    EqualsSome(E, E.each(arr)[i], items);
    var k :| 0 <= k < |items| && Compare3(E, EQ, E.each(arr)[i], ScalarOf(items[k])) == True;
    assert IncludesItem(E, arr, ScalarOf(items[k])) == True;
  }

  lemma IncludedIsSome(E: Engine, arr: SqlValue, items: seq<Json>, k: nat)
    requires k < |items| && IncludesItem(E, arr, ScalarOf(items[k])) == True
    ensures IncludesAnyItem(E, arr, items) == True
  {
    var i :| 0 <= i < |E.each(arr)| && Compare3(E, EQ, E.each(arr)[i], ScalarOf(items[k])) == True;
    EqualsSome(E, E.each(arr)[i], items);
  }

  lemma IncludesSome(E: Engine, arr: SqlValue, items: seq<Json>)
    ensures IncludesAnyItem(E, arr, items) == True
       <==> exists k :: 0 <= k < |items| && IncludesItem(E, arr, ScalarOf(items[k])) == True
  {
    if IncludesAnyItem(E, arr, items) == True {
      var i :| 0 <= i < |E.each(arr)| && EqualsAnyItem(E, E.each(arr)[i], items) == True;
      SomeItemIncluded(E, arr, items, i);
    }
    if k :| 0 <= k < |items| && IncludesItem(E, arr, ScalarOf(items[k])) == True {
      IncludedIsSome(E, arr, items, k);
    }
  }

  lemma MembershipNames()
    ensures OpOf("$in") == InList(false) && OpOf("$nin") == InList(true)
    ensures OpOf("$eq") == Comparing(EQ) && OpOf("$ne") == Comparing(NE)
  {
  }

  lemma InIsSome(E: Engine, items: seq<Json>, x: SqlValue, arr: SqlValue)
    ensures LeafMeans(E, InList(false), JArr(items), x, arr) == True
       <==> exists k :: 0 <= k < |items| && LeafMeans(E, Comparing(EQ), items[k], x, arr) == True
  {
    EqualsSome(E, x, items);
    forall k | 0 <= k < |items|
      ensures LeafMeans(E, Comparing(EQ), items[k], x, arr) == Compare3(E, EQ, x, ScalarOf(items[k]))
    {
    }
  }

  lemma NotInIsNone(E: Engine, items: seq<Json>, x: SqlValue, arr: SqlValue)
    ensures LeafMeans(E, InList(true), JArr(items), x, arr) == True
       <==> forall k | 0 <= k < |items| :: LeafMeans(E, Comparing(NE), items[k], x, arr) == True
  {
    EqualsSome(E, x, items);
    forall k | 0 <= k < |items|
      ensures LeafMeans(E, Comparing(NE), items[k], x, arr) == Not3(Compare3(E, EQ, x, ScalarOf(items[k])))
    {
    }
  }

  /** `$in` is `$eq` with some item and `$nin` is `$ne` with every item, unknown where that is. */
  lemma MembershipByName(E: Engine, items: seq<Json>, x: SqlValue, arr: SqlValue)
    ensures LeafMeans(E, OpOf("$in"), JArr(items), x, arr) == True
       <==> exists k :: 0 <= k < |items| && LeafMeans(E, OpOf("$eq"), items[k], x, arr) == True
    ensures LeafMeans(E, OpOf("$nin"), JArr(items), x, arr) == True
       <==> forall k | 0 <= k < |items| :: LeafMeans(E, OpOf("$ne"), items[k], x, arr) == True
  {
    MembershipNames();
    InIsSome(E, items, x, arr);
    NotInIsNone(E, items, x, arr);
  }

  lemma ElementNames()
    ensures OpOf("$all") == AllOf && OpOf("$any") == AnyOf(false) && OpOf("$none") == AnyOf(true)
    ensures OpOf("$includes") == Includes(false) && OpOf("$nincludes") == Includes(true)
  {
  }

  lemma AllIsEvery(E: Engine, items: seq<Json>, x: SqlValue, arr: SqlValue)
    ensures LeafMeans(E, AllOf, JArr(items), x, arr)
         == FromBool(forall k | 0 <= k < |items| :: LeafMeans(E, Includes(false), items[k], x, arr) == True)
  {
    IncludesEvery(E, arr, items);
    forall k | 0 <= k < |items|
      ensures LeafMeans(E, Includes(false), items[k], x, arr) == IncludesItem(E, arr, ScalarOf(items[k]))
    {
    }
  }

  lemma AnyIsSome(E: Engine, items: seq<Json>, x: SqlValue, arr: SqlValue)
    ensures IncludesAnyItem(E, arr, items)
         == FromBool(exists k :: 0 <= k < |items| && LeafMeans(E, Includes(false), items[k], x, arr) == True)
  {
    IncludesSome(E, arr, items);
    forall k | 0 <= k < |items|
      ensures LeafMeans(E, Includes(false), items[k], x, arr) == IncludesItem(E, arr, ScalarOf(items[k]))
    {
    }
  }

  lemma NotIncluded(E: Engine, v: Json, x: SqlValue, arr: SqlValue)
    ensures LeafMeans(E, Includes(true), v, x, arr) == True <==> IncludesItem(E, arr, ScalarOf(v)) != True
  {
    assert LeafMeans(E, Includes(true), v, x, arr) == Not3(IncludesItem(E, arr, ScalarOf(v)));
  }

  lemma NoneIsNot(E: Engine, items: seq<Json>, x: SqlValue, arr: SqlValue)
    ensures LeafMeans(E, AnyOf(true), JArr(items), x, arr)
         == FromBool(forall k | 0 <= k < |items| :: LeafMeans(E, Includes(true), items[k], x, arr) == True)
  {
    IncludesSome(E, arr, items);
    forall k | 0 <= k < |items|
      ensures LeafMeans(E, Includes(true), items[k], x, arr) == True
         <==> IncludesItem(E, arr, ScalarOf(items[k])) != True
    {
      NotIncluded(E, items[k], x, arr);
    }
  }

  /**
   On the elements of an array `$all` is `$includes` of every item, `$any` of some item, and
   `$none` is `$nincludes` of every item.
   */
  lemma ElementsByName(E: Engine, items: seq<Json>, x: SqlValue, arr: SqlValue)
    ensures LeafMeans(E, OpOf("$all"), JArr(items), x, arr)
         == FromBool(forall k | 0 <= k < |items| :: LeafMeans(E, OpOf("$includes"), items[k], x, arr) == True)
    ensures LeafMeans(E, OpOf("$any"), JArr(items), x, arr)
         == FromBool(exists k :: 0 <= k < |items| && LeafMeans(E, OpOf("$includes"), items[k], x, arr) == True)
    ensures LeafMeans(E, OpOf("$none"), JArr(items), x, arr)
         == FromBool(forall k | 0 <= k < |items| :: LeafMeans(E, OpOf("$nincludes"), items[k], x, arr) == True)
  {
    ElementNames();
    AllIsEvery(E, items, x, arr);
    AnyIsSome(E, items, x, arr);
    NoneIsNot(E, items, x, arr);
  }

  /** A size is a comparison object with one `$eq`; the two compound types are either of two types. */
  lemma SizeAndTypeByName(E: Engine, n: int64, x: SqlValue, arr: SqlValue)
    ensures LeafMeans(E, OpOf("$size"), JInt(n), x, arr)
         == LeafMeans(E, OpOf("$size"), JObj([Field("$eq", JInt(n))]), x, arr)
    ensures LeafMeans(E, OpOf("$type"), JStr("number"), x, arr)
         == Or3(LeafMeans(E, OpOf("$type"), JStr("integer"), x, arr), LeafMeans(E, OpOf("$type"), JStr("real"), x, arr))
    ensures LeafMeans(E, OpOf("$type"), JStr("boolean"), x, arr)
         == Or3(LeafMeans(E, OpOf("$type"), JStr("true"), x, arr), LeafMeans(E, OpOf("$type"), JStr("false"), x, arr))
  {
    var fields := [Field("$eq", JInt(n))];
    assert fields[1..] == [] && SizesMean(E, E.arrayLength(arr), []) == True;
    assert OpOf("$eq") == Comparing(EQ);
  }

  // ----------------------------------------------------- conditions on objects

  /** A condition asked of every object the compiler reads as a filter. */
  datatype Check = OR_STANDS_ALONE | WHERE_IS_NOT_EMPTY

  predicate BareOr(f: Field)
  {
    f.key == "$or" && f.value.JArr? && |f.value.items| >= 2
  }

  predicate EmptySize(f: Field)
  {
    f.key == "$size" && f.value == JObj([])
  }

  predicate ObjectPasses(check: Check, fields: seq<Field>, elem: bool)
  {
    match check
    case OR_STANDS_ALONE => |fields| <= 1 || forall i | 0 <= i < |fields| :: !BareOr(fields[i])
    case WHERE_IS_NOT_EMPTY => !elem || fields == [] || exists i :: 0 <= i < |fields| && !EmptySize(fields[i])
  }

  predicate FilterPasses(check: Check, filter: Json, elem: bool)
    decreases Weight(filter), 0
  {
    filter.JObj? ==> ObjectPasses(check, filter.fields, elem) && EntriesPass(check, filter.fields, elem)
  }

  predicate EntriesPass(check: Check, fields: seq<Field>, elem: bool)
    decreases FieldsWeight(fields), 0
  {
    fields != [] ==>
      EntryPasses(check, fields[0].key, fields[0].value, elem) && EntriesPass(check, fields[1..], elem)
  }

  predicate ItemsPass(check: Check, items: seq<Json>, elem: bool)
    decreases ItemsWeight(items), 1
  {
    items != [] ==> FilterPasses(check, items[0], elem) && ItemsPass(check, items[1..], elem)
  }

  predicate EntryPasses(check: Check, key: string, value: Json, elem: bool)
    decreases KeyWeight(key) + Weight(value), 3
  {
    if IsLogical(key) then value.JArr? ==> ItemsPass(check, value.items, elem)
    else if key == "$not" then FilterPasses(check, value, elem)
    else if elem && IsDollar(key) then OpPasses(check, OpOf(key), value)
    else FieldPasses(check, key, value)
  }

  predicate FieldPasses(check: Check, path: string, value: Json)
    decreases KeyWeight(path) + Weight(value), 2
  {
    if CountBracketPairs(path) > 1 then value.JObj? ==> OpsPass(check, value.fields)
    else match SplitFirstArray(path)
      case Err(_) => true
      case Ok(Some((arrayPath, rest))) =>
        ArrayRewriteDecreases(path, value);
        FilterPasses(check, ElementFilter(rest, value), true)
      case Ok(None) => value.JObj? ==> OpsPass(check, value.fields)
  }

  predicate OpsPass(check: Check, fields: seq<Field>)
    decreases FieldsWeight(fields), 0
  {
    fields != [] ==> OpPasses(check, OpOf(fields[0].key), fields[0].value) && OpsPass(check, fields[1..])
  }

  predicate OpPasses(check: Check, op: Op, operand: Json)
    decreases Weight(operand), 2
  {
    op == ElemMatch ==> FilterPasses(check, operand, true)
  }
}
