/** The bind values of an accepted filter are its operands, in the order the filter lists them. */
module JqlBinds {
  import opened Prelude
  import opened Strings
  import opened SqlText
  import opened JqlFilter
  import opened JqlPlan
  import opened JqlMeaning
  import opened JqlCorrect
  import opened JqlCompiler
  import opened JqlTheorems

  // ---------------------------------------------------- operands of a filter

  function ScalarsOf(items: seq<Json>): seq<SqlValue>
  {
    if items == [] then [] else [ScalarOf(items[0])] + ScalarsOf(items[1..])
  }

  function SizeOperands(fields: seq<Field>): seq<SqlValue>
  {
    if fields == [] then [] else [ScalarOf(fields[0].value)] + SizeOperands(fields[1..])
  }

  /** The type names that are compared as two fixed texts and need no value. */
  predicate IsTypePair(name: string)
  {
    name == "number" || name == "boolean"
  }

  function LeafOperands(op: Op, operand: Json): seq<SqlValue>
  {
    match op
    case Comparing(_) => [ScalarOf(operand)]
    case Like(_, before, after) => [Text(before + StringOf(operand) + after)]
    case ExistsOp => []
    case Regex => [Text(StringOf(operand))]
    case InList(_) => ScalarsOf(ItemsOf(operand))
    case Between => ScalarsOf(ItemsOf(operand))
    case Size => if operand.JObj? then SizeOperands(operand.fields) else [ScalarOf(operand)]
    case TypeIs =>
      var name := StringOf(operand);
      if IsTypePair(name) then [] else [Text(if name == "string" then "text" else name)]
    case Includes(_) => [ScalarOf(operand)]
    case AnyOf(_) => ScalarsOf(ItemsOf(operand))
    case AllOf => ScalarsOf(ItemsOf(operand))
    case _ => []
  }

  function FilterOperands(filter: Json, elem: bool): seq<SqlValue>
    decreases Weight(filter), 0
  {
    if filter.JObj? then EntriesOperands(filter.fields, elem) else []
  }

  function EntriesOperands(fields: seq<Field>, elem: bool): seq<SqlValue>
    decreases FieldsWeight(fields), 0
  {
    if fields == [] then []
    else EntryOperands(fields[0].key, fields[0].value, elem) + EntriesOperands(fields[1..], elem)
  }

  function ItemsOperands(items: seq<Json>, elem: bool): seq<SqlValue>
    decreases ItemsWeight(items), 1
  {
    if items == [] then [] else FilterOperands(items[0], elem) + ItemsOperands(items[1..], elem)
  }

  function EntryOperands(key: string, value: Json, elem: bool): seq<SqlValue>
    decreases KeyWeight(key) + Weight(value), 4
  {
    if IsLogical(key) then if value.JArr? then ItemsOperands(value.items, elem) else []
    else if key == "$not" then FilterOperands(value, elem)
    else if elem && IsDollar(key) then OpOperands(OpOf(key), value)
    else FieldOperands(key, value)
  }

  /** A path with several `[]` binds its full-key pattern before its operands. */
  function FieldOperands(path: string, value: Json): seq<SqlValue>
    decreases KeyWeight(path) + Weight(value), 3
  {
    if CountBracketPairs(path) > 1 then
      if FullkeyPattern(path).Ok? then [Text(FullkeyPattern(path).value)] + TestsOperands(value) else []
    else match SplitFirstArray(path)
      case Err(_) => []
      case Ok(Some((_, rest))) =>
        ArrayRewriteDecreases(path, value);
        FilterOperands(ElementFilter(rest, value), true)
      case Ok(None) => TestsOperands(value)
  }

  function TestsOperands(value: Json): seq<SqlValue>
    decreases Weight(value), 0
  {
    if value.JObj? then OpsOperands(value.fields) else [ScalarOf(value)]
  }

  function OpsOperands(fields: seq<Field>): seq<SqlValue>
    decreases FieldsWeight(fields), 0
  {
    if fields == [] then [] else OpOperands(OpOf(fields[0].key), fields[0].value) + OpsOperands(fields[1..])
  }

  function OpOperands(op: Op, operand: Json): seq<SqlValue>
    decreases Weight(operand), 2
  {
    if op == ElemMatch then FilterOperands(operand, true) else LeafOperands(op, operand)
  }

  // -------------------------------------------------------------- leaf parts

  lemma {:induction false} ScalarsAgree(items: seq<Json>)
    requires ToSqlAll(items).Ok?
    ensures ToSqlAll(items).value == ScalarsOf(items)
  {
    if items != [] {
      ScalarsAgree(items[1..]);
    }
  }

  lemma {:induction false} SizesBinds(size: SqlExpr, fields: seq<Field>)
    requires PlanSizes(size, fields).Ok?
    ensures PartBinds(PlanSizes(size, fields).value) == SizeOperands(fields)
  {
    if fields != [] {
      SizesBinds(size, fields[1..]);
      var d := SizeField(size, fields[0]).value;
      OnePart(d.c.f);
      PartsAppend([d], PlanSizes(size, fields[1..]).value);
    }
  }

  lemma TwoScalars(items: seq<Json>)
    requires |items| == 2
    ensures ScalarsOf(items) == [ScalarOf(items[0]), ScalarOf(items[1])]
  {
    assert items[1..][1..] == [];
    assert ScalarsOf(items[1..]) == [ScalarOf(items[1])] + [];
  }

  lemma MemberPartBinds(e: SqlExpr, name: string, operand: Json, negated: bool)
    requires MemberPart(e, name, operand, negated).Ok?
    ensures PartBinds(MemberPart(e, name, operand, negated).value) == ScalarsOf(operand.items)
  {
    var vs := ToSqlAll(operand.items).value;
    ScalarsAgree(operand.items);
    MemberOfText(e, negated, vs);
    OnePart(MemberOf(e, negated, vs));
  }

  lemma IncludesPartBinds(arr: SqlExpr, operand: Json, negated: bool)
    requires IncludesPart(arr, operand, negated).Ok?
    ensures PartBinds(IncludesPart(arr, operand, negated).value) == [ScalarOf(operand)]
  {
    var f := ElementEquals(arr, ScalarOf(operand));
    ElementEqualsText(arr, ScalarOf(operand));
    OnePart(f);
    OnePart(Neg(f));
  }

  lemma AnyPartBinds(arr: SqlExpr, name: string, operand: Json, negated: bool)
    requires AnyPart(arr, name, operand, negated).Ok?
    ensures PartBinds(AnyPart(arr, name, operand, negated).value) == ScalarsOf(operand.items)
  {
    var vs := ToSqlAll(operand.items).value;
    var f := SomeElement(arr, MemberOf(RowValue(Je), false, vs));
    ScalarsAgree(operand.items);
    SomeMemberText(arr, vs);
    OnePart(f);
    OnePart(Neg(f));
  }

  lemma AllPartBinds(arr: SqlExpr, name: string, operand: Json)
    requires AllPart(arr, name, operand).Ok?
    ensures PartBinds(AllPart(arr, name, operand).value) == ScalarsOf(operand.items)
  {
    var vs := ToSqlAll(operand.items).value;
    ScalarsAgree(operand.items);
    EveryElementText(arr, vs);
    JoinAllText(EveryElement(arr, vs));
    OnePart(Group(JoinAll(EveryElement(arr, vs))));
  }

  lemma SizePartBinds(size: SqlExpr, operand: Json)
    requires PlanSize(size, operand).Ok?
    ensures PartBinds(PlanSize(size, operand).value) == LeafOperands(Size, operand)
  {
    if operand.JObj? {
      SizesBinds(size, operand.fields);
    } else {
      OnePart(PlanSize(size, operand).value[0].c.f);
    }
  }

  lemma TypePartBinds(t: SqlExpr, name: string, operand: Json)
    requires TypePart(t, name, operand).Ok?
    ensures PartBinds(TypePart(t, name, operand).value) == LeafOperands(TypeIs, operand)
  {
    OnePart(TypePart(t, name, operand).value[0].c.f);
    EitherTypeText(t, "integer", "real");
    EitherTypeText(t, "true", "false");
  }

  lemma LeafBinds(op: Op, name: string, operand: Json, scalar: SqlExpr, arr: SqlExpr)
    requires LeafPart(op, name, operand, scalar, arr).Ok?
    ensures PartBinds(LeafPart(op, name, operand, scalar, arr).value) == LeafOperands(op, operand)
  {
    var parts := LeafPart(op, name, operand, scalar, arr).value;
    match op
    case InList(negated) => MemberPartBinds(scalar, name, operand, negated);
    case Includes(negated) => IncludesPartBinds(arr, operand, negated);
    case AnyOf(negated) => AnyPartBinds(arr, name, operand, negated);
    case AllOf => AllPartBinds(arr, name, operand);
    case Size => SizePartBinds(ArrayLength(arr), operand);
    case TypeIs => TypePartBinds(TypeOf(arr), name, operand);
    case Between =>
      OnePart(parts[0].c.f);
      TwoScalars(operand.items);
    case Comparing(_) => OnePart(parts[0].c.f);
    case Like(_, _, _) => OnePart(parts[0].c.f);
    case ExistsOp => OnePart(parts[0].c.f);
    case Regex => OnePart(parts[0].c.f);
    case _ =>
  }

  // ----------------------------------------------------------------- filters

  lemma {:induction false} FilterBinds(base: SqlExpr, filter: Json, elem: bool)
    requires PlanFilter(base, filter, elem).Ok?
    ensures DisjBinds(PlanFilter(base, filter, elem).value) == FilterOperands(filter, elem)
    decreases Weight(filter), 0
  {
    if filter.JObj? && filter.fields != [] {
      EntriesBinds(base, filter.fields, elem);
      JoinAllText(PlanEntries(base, filter.fields, elem).value);
    } else {
      AloneText(Test(OneIsOne));
    }
  }

  lemma {:induction false} EntriesBinds(base: SqlExpr, fields: seq<Field>, elem: bool)
    requires PlanEntries(base, fields, elem).Ok?
    ensures PartBinds(PlanEntries(base, fields, elem).value) == EntriesOperands(fields, elem)
    decreases FieldsWeight(fields), 0
  {
    if fields != [] {
      EntryBinds(base, fields[0].key, fields[0].value, elem);
      EntriesBinds(base, fields[1..], elem);
      PartsAppend(PlanEntry(base, fields[0].key, fields[0].value, elem).value,
                  PlanEntries(base, fields[1..], elem).value);
    }
  }

  lemma {:induction false} ArmsBinds(base: SqlExpr, items: seq<Json>, elem: bool)
    requires PlanArms(base, items, elem).Ok?
    ensures PartBinds(PlanArms(base, items, elem).value) == ItemsOperands(items, elem)
    decreases ItemsWeight(items), 1
  {
    if items != [] {
      FilterBinds(base, items[0], elem);
      ArmsBinds(base, items[1..], elem);
      var arm := Group(PlanFilter(base, items[0], elem).value);
      OnePart(arm);
      PartsAppend([Alone(arm)], PlanArms(base, items[1..], elem).value);
    }
  }

  lemma {:induction false} EntryBinds(base: SqlExpr, key: string, value: Json, elem: bool)
    requires PlanEntry(base, key, value, elem).Ok?
    ensures PartBinds(PlanEntry(base, key, value, elem).value) == EntryOperands(key, value, elem)
    decreases KeyWeight(key) + Weight(value), 4
  {
    if IsLogical(key) {
      LogicalBinds(base, key, value, elem);
    } else if key == "$not" {
      FilterBinds(base, value, elem);
      OnePart(Neg(Group(PlanFilter(base, value, elem).value)));
    } else if elem && IsDollar(key) {
      OpBinds(OpOf(key), key, value, Parens(base), ExtractRoot(base));
    } else {
      FieldBinds(base, key, value);
      SinglePart(PlanField(base, key, value).value);
    }
  }

  lemma {:induction false} LogicalBinds(base: SqlExpr, key: string, value: Json, elem: bool)
    requires IsLogical(key) && PlanLogical(base, key, value, elem).Ok?
    ensures value.JArr?
    ensures PartBinds(PlanLogical(base, key, value, elem).value) == ItemsOperands(value.items, elem)
    decreases Weight(value), 3
  {
    var arms := PlanArms(base, value.items, elem).value;
    ArmsBinds(base, value.items, elem);
    JoinAllText(arms);
    JoinAnyText(arms);
    AloneText(Neg(Group(JoinAny(arms))));
    SinglePart(Combine(key, arms));
  }

  lemma {:induction false} FieldBinds(base: SqlExpr, path: string, value: Json)
    requires PlanField(base, path, value).Ok?
    ensures DisjBinds(PlanField(base, path, value).value) == FieldOperands(path, value)
    decreases KeyWeight(path) + Weight(value), 3
  {
    if CountBracketPairs(path) > 1 {
      TreeBinds(base, path, value);
    } else {
      match SplitFirstArray(path)
      case Ok(Some((arrayPath, rest))) =>
        ArrayRewriteDecreases(path, value);
        ArrayFieldIsElemMatch(base, path, value);
        ElemMatchBinds(Extract(base, arrayPath), ElementFilter(rest, value));
      case Ok(None) =>
        TestsBinds(value, Arrow(base, path), Extract(base, path));
        JoinAllText(PlanTests(value, Arrow(base, path), Extract(base, path)).value);
      case Err(_) =>
    }
  }

  lemma {:induction false} TreeBinds(base: SqlExpr, path: string, value: Json)
    requires PlanTreeField(base, path, value).Ok?
    ensures FullkeyPattern(path).Ok?
    ensures DisjBinds(PlanTreeField(base, path, value).value)
         == [Text(FullkeyPattern(path).value)] + TestsOperands(value)
    decreases KeyWeight(path) + Weight(value), 2
  {
    var alias := Tree(base, path);
    var pattern := FullkeyPattern(path).value;
    TestsBinds(value, RowAtom(alias), RowValue(alias));
    EmitNode(TreeRow(base, alias), FullkeyTest(alias, pattern),
             PlanTests(value, RowAtom(alias), RowValue(alias)).value);
    ComparePartText(RowFullkey(alias), LIKE, Text(pattern));
  }

  lemma {:induction false} TestsBinds(value: Json, scalar: SqlExpr, arr: SqlExpr)
    requires PlanTests(value, scalar, arr).Ok?
    ensures PartBinds(PlanTests(value, scalar, arr).value) == TestsOperands(value)
    decreases Weight(value), 0
  {
    if value.JObj? {
      OpsBinds(value.fields, scalar, arr);
    } else {
      ComparePartText(scalar, EQ, ScalarOf(value));
    }
  }

  lemma {:induction false} OpsBinds(fields: seq<Field>, scalar: SqlExpr, arr: SqlExpr)
    requires PlanOps(fields, scalar, arr).Ok?
    ensures PartBinds(PlanOps(fields, scalar, arr).value) == OpsOperands(fields)
    decreases FieldsWeight(fields), 0
  {
    if fields != [] {
      var f := fields[0];
      OpBinds(OpOf(f.key), f.key, f.value, scalar, arr);
      OpsBinds(fields[1..], scalar, arr);
      PartsAppend(PlanOp(OpOf(f.key), f.key, f.value, scalar, arr).value, PlanOps(fields[1..], scalar, arr).value);
    }
  }

  lemma {:induction false} OpBinds(op: Op, name: string, operand: Json, scalar: SqlExpr, arr: SqlExpr)
    requires PlanOp(op, name, operand, scalar, arr).Ok?
    ensures PartBinds(PlanOp(op, name, operand, scalar, arr).value) == OpOperands(op, operand)
    decreases Weight(operand), 2
  {
    if op == ElemMatch {
      ElemMatchBinds(arr, operand);
      SinglePart(PlanElemMatch(arr, operand).value);
    } else {
      LeafBinds(op, name, operand, scalar, arr);
    }
  }

  lemma {:induction false} ElemMatchBinds(arr: SqlExpr, operand: Json)
    requires PlanElemMatch(arr, operand).Ok?
    ensures DisjBinds(PlanElemMatch(arr, operand).value) == FilterOperands(operand, true)
    decreases Weight(operand), 1
  {
    FilterBinds(RowValue(Each(arr)), operand, true);
    AloneText(PlanElemMatch(arr, operand).value.c.f);
  }

  /** The k-th `?` of an accepted filter's text takes its k-th operand. */
  lemma BindsAreOperands(base: string, filter: Json)
    requires WhereOf(base, filter).Ok?
    ensures WhereOf(base, filter).value.binds == FilterOperands(filter, false)
    ensures Bind(WhereOf(base, filter).value.sql, FilterOperands(filter, false)).Some?
  {
    FilterBinds(Column(base), filter, false);
    TextIsWellFormed(base, filter);
  }
}
