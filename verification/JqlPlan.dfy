/**
 What the filter compiler answers: the error it refuses a filter with, or the
 expression whose text and binds it emits. Every bound value sits in the tree at
 the place of its `?`.
 */
module JqlPlan {
  import opened Prelude
  import opened Strings
  import opened SqlText
  import opened JqlFilter

  type Plan = Result<Disj, FilterError>
  type Parts = Result<seq<Disj>, FilterError>

  function Alone(f: Factor): Disj
  {
    One(Just(f))
  }

  function TestOf(p: Pred): Disj
  {
    Alone(Test(p))
  }

  const ALWAYS: Disj := TestOf(OneIsOne)

  // ------------------------------------------------------- putting plans together

  /** One plan as the one part of an entry. */
  function OnlyPart(plan: Plan): (r: Parts)
    ensures r.Ok? ==> plan.Ok? && r.value == [plan.value]
  {
    match plan
    case Err(e) => Err(e)
    case Ok(d) => Ok([d])
  }

  function Grouped(plan: Plan): Plan
  {
    match plan
    case Err(e) => Err(e)
    case Ok(d) => Ok(Alone(Group(d)))
  }

  function Negated(plan: Plan): Plan
  {
    match plan
    case Err(e) => Err(e)
    case Ok(d) => Ok(Alone(Neg(Group(d))))
  }

  function Joined(parts: Parts): Plan
  {
    match parts
    case Err(e) => Err(e)
    case Ok(ps) => Ok(JoinAll(ps))
  }

  function NonEmpty(parts: Parts): Parts
  {
    if parts == Ok([]) then Err(EmptyOperators) else parts
  }

  /** One after the other; the first error wins. */
  function Then(first: Parts, rest: Parts): Parts
  {
    match first
    case Err(e) => Err(e)
    case Ok(ps) =>
      match rest
      case Err(e) => Err(e)
      case Ok(qs) => Ok(ps + qs)
  }

  /** How the arms of `$and`, `$or` and `$nor` are put together. */
  function Combine(key: string, arms: seq<Disj>): Disj
  {
    if key == "$nor" then Alone(Neg(Group(JoinAny(arms))))
    else if key == "$and" then JoinAll(arms)
    else JoinAny(arms)
  }

  function Combined(key: string, arms: Parts): Plan
  {
    match arms
    case Err(e) => Err(e)
    case Ok(ps) => Ok(Combine(key, ps))
  }

  // ---------------------------------------------------------- leaf operators

  function ToSql(v: Json): Result<SqlValue, FilterError>
  {
    match v
    case JNull => Ok(Null)
    case JBool(b) => Ok(Integer(if b then 1 else 0))
    case JInt(i) => Ok(Integer(i))
    case JReal(r) => Ok(Real(r))
    case JStr(s) => Ok(Text(s))
    case JArr(_) => Err(NestedOperand)
    case JObj(_) => Err(NestedOperand)
  }

  function ToSqlAll(items: seq<Json>): (r: Result<seq<SqlValue>, FilterError>)
    ensures r.Ok? ==> |r.value| == |items|
  {
    if items == [] then Ok([])
    else match ToSql(items[0])
      case Err(e) => Err(e)
      case Ok(v) =>
        match ToSqlAll(items[1..])
        case Err(e) => Err(e)
        case Ok(vs) => Ok([v] + vs)
  }

  function ComparePart(e: SqlExpr, op: CmpOp, operand: Json): Parts
  {
    match ToSql(operand)
    case Err(error) => Err(error)
    case Ok(v) => Ok([TestOf(Compare(e, op, Plain(v)))])
  }

  /** The comparison of a string operator; the folded ones compare in lower case. */
  function LikeTest(e: SqlExpr, folded: bool, pattern: string): Pred
  {
    if folded then Compare(Lower(e), LIKE, Lowered(Text(pattern))) else Compare(e, LIKE, Plain(Text(pattern)))
  }

  function LikePart(e: SqlExpr, name: string, operand: Json, folded: bool, before: string, after: string): Parts
  {
    if operand.JStr? then Ok([TestOf(LikeTest(e, folded, before + operand.s + after))]) else Err(NeedsString(name))
  }

  function RegexPart(e: SqlExpr, name: string, operand: Json): Parts
  {
    if operand.JStr? then Ok([TestOf(Compare(e, REGEXP, Plain(Text(operand.s))))]) else Err(NeedsString(name))
  }

  function ExistsPart(e: SqlExpr, operand: Json): Parts
  {
    if operand.JBool? then Ok([TestOf(NullTest(e, operand.b))]) else Err(NeedsBool)
  }

  function ListOperand(name: string, operand: Json): (r: Result<seq<Json>, FilterError>)
    ensures r.Ok? ==> operand.JArr? && r.value == operand.items != []
  {
    if !operand.JArr? then Err(NeedsArray(name))
    else if operand.items == [] then Err(EmptyList(name))
    else Ok(operand.items)
  }

  function MemberOf(e: SqlExpr, negated: bool, vs: seq<SqlValue>): Factor
    requires vs != []
  {
    Test(Member(e, negated, vs[0], vs[1..]))
  }

  /** `EXISTS (SELECT 1 FROM json_each(arr) je WHERE je.value …)`. */
  function SomeElement(arr: SqlExpr, test: Factor): Factor
  {
    Exists(EachRow(arr, Je), Alone(test))
  }

  function ElementEquals(arr: SqlExpr, v: SqlValue): Factor
  {
    SomeElement(arr, Test(Compare(RowValue(Je), EQ, Plain(v))))
  }

  function EveryElement(arr: SqlExpr, vs: seq<SqlValue>): seq<Disj>
  {
    if vs == [] then [] else [Alone(ElementEquals(arr, vs[0]))] + EveryElement(arr, vs[1..])
  }

  function SizeField(size: SqlExpr, f: Field): Plan
  {
    if !f.value.JInt? then Err(BadSizeOperand(f.key))
    else if !OpOf(f.key).Comparing? then Err(UnsupportedSizeOp(f.key))
    else Ok(TestOf(Compare(size, OpOf(f.key).cmp, Plain(Integer(f.value.i)))))
  }

  function PlanSizes(size: SqlExpr, fields: seq<Field>): (r: Parts)
    ensures r.Ok? ==> AllConjunctions(r.value) && |r.value| == |fields|
  {
    if fields == [] then Ok([])
    else Then(OnlyPart(SizeField(size, fields[0])), PlanSizes(size, fields[1..]))
  }

  function PlanSize(size: SqlExpr, operand: Json): Parts
  {
    match operand
    case JInt(n) => Ok([TestOf(Compare(size, EQ, Plain(Integer(n))))])
    case JObj(fields) => PlanSizes(size, fields)
    case _ => Err(BadSize)
  }

  function EitherType(t: SqlExpr, a: string, b: string): Disj
  {
    Alone(Group(Or(Just(Test(Compare(t, EQ, Quoted(a)))), TestOf(Compare(t, EQ, Quoted(b))))))
  }

  predicate IsTypeName(name: string)
  {
    name in ["array", "object", "null", "integer", "real", "text", "true", "false"]
  }

  function TypePart(t: SqlExpr, name: string, operand: Json): Parts
  {
    if operand.JStr? then PlanType(t, operand.s) else Err(NeedsString(name))
  }

  function PlanType(t: SqlExpr, name: string): Parts
  {
    if name == "number" then Ok([EitherType(t, "integer", "real")])
    else if name == "boolean" then Ok([EitherType(t, "true", "false")])
    else if name == "string" then Ok([TestOf(Compare(t, EQ, Plain(Text("text"))))])
    else if IsTypeName(name) then Ok([TestOf(Compare(t, EQ, Plain(Text(name))))])
    else Err(UnsupportedType(name))
  }

  function BetweenPart(e: SqlExpr, name: string, operand: Json): Parts
  {
    if !operand.JArr? then Err(NeedsArray(name))
    else if |operand.items| != 2 then Err(NeedsPair)
    else match ToSql(operand.items[0])
      case Err(error) => Err(error)
      case Ok(lo) =>
        match ToSql(operand.items[1])
        case Err(error) => Err(error)
        case Ok(hi) => Ok([TestOf(Range(e, lo, hi))])
  }

  /** The values of a non-empty list operand. */
  function ListValues(name: string, operand: Json): (r: Result<seq<SqlValue>, FilterError>)
    ensures r.Ok? ==> operand.JArr? && |r.value| == |operand.items| > 0
  {
    match ListOperand(name, operand)
    case Err(error) => Err(error)
    case Ok(items) => ToSqlAll(items)
  }

  function MemberPart(e: SqlExpr, name: string, operand: Json, negated: bool): Parts
  {
    match ListValues(name, operand)
    case Err(error) => Err(error)
    case Ok(vs) => Ok([Alone(MemberOf(e, negated, vs))])
  }

  function IncludesPart(arr: SqlExpr, operand: Json, negated: bool): Parts
  {
    match ToSql(operand)
    case Err(error) => Err(error)
    case Ok(v) => Ok([Alone(if negated then Neg(ElementEquals(arr, v)) else ElementEquals(arr, v))])
  }

  function AnyPart(arr: SqlExpr, name: string, operand: Json, negated: bool): Parts
  {
    match ListValues(name, operand)
    case Err(error) => Err(error)
    case Ok(vs) =>
      var some := SomeElement(arr, MemberOf(RowValue(Je), false, vs));
      Ok([Alone(if negated then Neg(some) else some)])
  }

  function AllPart(arr: SqlExpr, name: string, operand: Json): Parts
  {
    match ListValues(name, operand)
    case Err(error) => Err(error)
    case Ok(vs) => Ok([Alone(Group(JoinAll(EveryElement(arr, vs))))])
  }

  /** Every operator but `$elemMatch`; `scalar` and `arr` are the two views of the field. */
  function LeafPart(op: Op, name: string, operand: Json, scalar: SqlExpr, arr: SqlExpr): (r: Parts)
    ensures r.Ok? ==> AllConjunctions(r.value)
  {
    match op
    case Comparing(cmp) => ComparePart(scalar, cmp, operand)
    case Like(folded, before, after) => LikePart(scalar, name, operand, folded, before, after)
    case ExistsOp => ExistsPart(scalar, operand)
    case Regex => RegexPart(scalar, name, operand)
    case InList(negated) => MemberPart(scalar, name, operand, negated)
    case Between => BetweenPart(scalar, name, operand)
    case Size => PlanSize(ArrayLength(arr), operand)
    case TypeIs => TypePart(TypeOf(arr), name, operand)
    case Includes(negated) => IncludesPart(arr, operand, negated)
    case AnyOf(negated) => AnyPart(arr, name, operand, negated)
    case AllOf => AllPart(arr, name, operand)
    case _ => Err(UnsupportedOp(name))
  }

  /** Some row passes `guard` and the tests. */
  function NodeExists(source: Source, guard: Disj, tests: Parts): (r: Plan)
    ensures r.Ok? ==> r.value.One?
  {
    match tests
    case Err(e) => Err(e)
    case Ok(parts) => Ok(Alone(Exists(source, JoinAll([guard] + parts))))
  }

  // ----------------------------------------------------------------- filters

  function PlanFilter(base: SqlExpr, filter: Json, elem: bool): Plan
    decreases Weight(filter), 0
  {
    match filter
    case JNull => Ok(ALWAYS)
    case JObj(fields) =>
      if fields == [] then Ok(ALWAYS)
      else Joined(PlanEntries(base, fields, elem))
    case _ => Err(FilterNotObject)
  }

  function PlanEntries(base: SqlExpr, fields: seq<Field>, elem: bool): Parts
    decreases FieldsWeight(fields), 0
  {
    if fields == [] then Ok([])
    else Then(PlanEntry(base, fields[0].key, fields[0].value, elem), PlanEntries(base, fields[1..], elem))
  }

  /** The arms of a logical operator, each in its parentheses. */
  function PlanArms(base: SqlExpr, items: seq<Json>, elem: bool): Parts
    decreases ItemsWeight(items), 1
  {
    if items == [] then Ok([])
    else Then(OnlyPart(Grouped(PlanFilter(base, items[0], elem))), PlanArms(base, items[1..], elem))
  }

  function PlanEntry(base: SqlExpr, key: string, value: Json, elem: bool): Parts
    decreases KeyWeight(key) + Weight(value), 4
  {
    if IsLogical(key) then PlanLogical(base, key, value, elem)
    else if key == "$not" then OnlyPart(Negated(PlanFilter(base, value, elem)))
    else if elem && IsDollar(key) then PlanOp(OpOf(key), key, value, Parens(base), ExtractRoot(base))
    else OnlyPart(PlanField(base, key, value))
  }

  function PlanLogical(base: SqlExpr, key: string, value: Json, elem: bool): Parts
    decreases Weight(value), 3
  {
    match ListOperand(key, value)
    case Err(e) => Err(e)
    case Ok(items) => OnlyPart(Combined(key, PlanArms(base, items, elem)))
  }

  function PlanField(base: SqlExpr, path: string, value: Json): (r: Plan)
    ensures r.Ok? ==> r.value.One?
    decreases KeyWeight(path) + Weight(value), 2
  {
    if CountBracketPairs(path) > 1 then PlanTreeField(base, path, value)
    else match SplitFirstArray(path)
      case Err(e) => Err(e)
      case Ok(Some((arrayPath, rest))) =>
        ArrayRewriteDecreases(path, value);
        PlanField(base, arrayPath, ElemMatchOf(rest, value))
      case Ok(None) =>
        match CheckPath(path)
        case Err(e) => Err(e)
        case Ok(_) => Joined(PlanTests(value, Arrow(base, path), Extract(base, path)))
  }

  function FullkeyTest(alias: Alias, pattern: string): Disj
  {
    TestOf(Compare(RowFullkey(alias), LIKE, Plain(Text(pattern))))
  }

  /** What a field's value asks of its two views: some operators, or equality with a scalar. */
  function PlanTests(value: Json, scalar: SqlExpr, arr: SqlExpr): (r: Parts)
    ensures r.Ok? ==> AllConjunctions(r.value) && r.value != []
    decreases Weight(value), 0
  {
    if value.JObj? then NonEmpty(PlanOps(value.fields, scalar, arr)) else ComparePart(scalar, EQ, value)
  }

  /** A path with two or more `[]`: one scan of `json_tree` guarded by a LIKE on the full key. */
  function PlanTreeField(base: SqlExpr, path: string, value: Json): (r: Plan)
    ensures r.Ok? ==> r.value.One?
    decreases KeyWeight(path) + Weight(value), 1
  {
    var alias := Tree(base, path);
    match FullkeyPattern(path)
    case Err(e) => Err(e)
    case Ok(pattern) =>
      NodeExists(TreeRow(base, alias), FullkeyTest(alias, pattern), PlanTests(value, RowAtom(alias), RowValue(alias)))
  }

  function PlanOps(fields: seq<Field>, scalar: SqlExpr, arr: SqlExpr): (r: Parts)
    ensures r.Ok? ==> AllConjunctions(r.value)
    decreases FieldsWeight(fields), 0
  {
    if fields == [] then Ok([])
    else Then(PlanOp(OpOf(fields[0].key), fields[0].key, fields[0].value, scalar, arr),
              PlanOps(fields[1..], scalar, arr))
  }

  function PlanOp(op: Op, name: string, operand: Json, scalar: SqlExpr, arr: SqlExpr): (r: Parts)
    ensures r.Ok? ==> AllConjunctions(r.value)
    decreases Weight(operand), 2
  {
    if op == ElemMatch then OnlyPart(PlanElemMatch(arr, operand)) else LeafPart(op, name, operand, scalar, arr)
  }

  function PlanElemMatch(arr: SqlExpr, operand: Json): (r: Plan)
    ensures r.Ok? ==> r.value.One?
    decreases Weight(operand), 1
  {
    match PlanFilter(RowValue(Each(arr)), operand, true)
    case Err(e) => Err(e)
    case Ok(d) => Ok(Alone(Exists(EachRow(arr, Each(arr)), d)))
  }

  // ------------------------------------------------------- full-key patterns

  function SegmentPattern(segment: string): Result<string, FilterError>
  {
    if EndsWithBrackets(segment) then
      if FieldOf(segment) == "" || HasBracket(FieldOf(segment)) then Err(BadSegment(segment))
      else Ok("." + FieldOf(segment) + "[%]")
    else if segment == "" || !IsWord(segment) then Err(BadPath)
    else Ok("." + segment)
  }

  function SegmentPatterns(segments: seq<string>): Result<string, FilterError>
  {
    if segments == [] then Ok("")
    else match SegmentPattern(segments[0])
      case Err(e) => Err(e)
      case Ok(p) =>
        match SegmentPatterns(segments[1..])
        case Err(e) => Err(e)
        case Ok(rest) => Ok(p + rest)
  }

  function FullkeyPattern(path: string): Result<string, FilterError>
  {
    match SegmentPatterns(Split(path, '.'))
    case Err(e) => Err(e)
    case Ok(patterns) => Ok("$" + patterns)
  }
}
