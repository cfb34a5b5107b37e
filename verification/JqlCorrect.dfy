/** The emitted expression means what the filter means. */
module JqlCorrect {
  import opened Prelude
  import opened Strings
  import opened SqlText
  import opened SqlEval
  import opened JqlFilter
  import opened JqlPlan
  import opened JqlMeaning

  // ---------------------------------------------------------- leaf operators

  lemma {:induction false} EqualsAnyAgrees(E: Engine, x: SqlValue, items: seq<Json>, vs: seq<SqlValue>)
    requires ToSqlAll(items) == Ok(vs)
    ensures EqualsAny(E, x, vs) == EqualsAnyItem(E, x, items)
  {
    if items != [] {
      EqualsAnyAgrees(E, x, items[1..], vs[1..]);
    }
  }

  /** Entering the rows of `json_each` visits the elements of the array. */
  lemma RowsOfArray(E: Engine, sc: Scope, arr: SqlExpr, alias: Alias)
    requires !Mentions(arr, alias)
    ensures var source := EachRow(arr, alias);
            var rows := Rows(E, source, EvalExpr(E, Outside(sc, alias), arr));
            var elements := E.each(EvalExpr(E, sc, arr));
            && |rows| == |elements|
            && forall i | 0 <= i < |rows| ::
                 EvalExpr(E, Enter(sc, alias, rows[i]), RowValue(alias)) == elements[i]
  {
    EvalOutside(E, sc, arr, alias);
  }

  lemma EvalAlone(E: Engine, sc: Scope, f: Factor)
    ensures EvalDisj(E, sc, Alone(f)) == EvalFactor(E, sc, f)
  {
    assert EvalDisj(E, sc, Alone(f)) == EvalConj(E, sc, Just(f));
  }

  lemma ElementEqualsMeans(E: Engine, sc: Scope, arr: SqlExpr, v: SqlValue)
    requires !Mentions(arr, Je)
    ensures EvalFactor(E, sc, ElementEquals(arr, v)) == IncludesItem(E, EvalExpr(E, sc, arr), v)
  {
    RowsOfArray(E, sc, arr, Je);
    var rows := Rows(E, EachRow(arr, Je), EvalExpr(E, Outside(sc, Je), arr));
    var elements := E.each(EvalExpr(E, sc, arr));
    var test := Test(Compare(RowValue(Je), EQ, Plain(v)));
    forall i | 0 <= i < |rows|
      ensures EvalDisj(E, Enter(sc, Je, rows[i]), Alone(test)) == Compare3(E, EQ, elements[i], v)
    {
      EvalAlone(E, Enter(sc, Je, rows[i]), test);
    }
  }

  lemma SomeMemberMeans(E: Engine, sc: Scope, arr: SqlExpr, items: seq<Json>, vs: seq<SqlValue>)
    requires !Mentions(arr, Je) && ToSqlAll(items) == Ok(vs) && vs != []
    ensures EvalFactor(E, sc, SomeElement(arr, MemberOf(RowValue(Je), false, vs)))
         == IncludesAnyItem(E, EvalExpr(E, sc, arr), items)
  {
    RowsOfArray(E, sc, arr, Je);
    var rows := Rows(E, EachRow(arr, Je), EvalExpr(E, Outside(sc, Je), arr));
    var elements := E.each(EvalExpr(E, sc, arr));
    var d := Alone(MemberOf(RowValue(Je), false, vs));
    assert [vs[0]] + vs[1..] == vs;
    forall i | 0 <= i < |rows|
      ensures EvalDisj(E, Enter(sc, Je, rows[i]), d) == EqualsAnyItem(E, elements[i], items)
    {
      EvalAlone(E, Enter(sc, Je, rows[i]), d.c.f);
      EqualsAnyAgrees(E, elements[i], items, vs);
    }
  }

  lemma {:induction false} EveryElementMeans(E: Engine, sc: Scope, arr: SqlExpr, items: seq<Json>, vs: seq<SqlValue>)
    requires !Mentions(arr, Je) && ToSqlAll(items) == Ok(vs)
    ensures EvalAll(E, sc, EveryElement(arr, vs)) == IncludesAllItems(E, EvalExpr(E, sc, arr), items)
    ensures AllConjunctions(EveryElement(arr, vs))
  {
    if items != [] {
      ElementEqualsMeans(E, sc, arr, vs[0]);
      EveryElementMeans(E, sc, arr, items[1..], vs[1..]);
      var parts := EveryElement(arr, vs);
      assert parts[1..] == EveryElement(arr, vs[1..]);
      EvalAlone(E, sc, ElementEquals(arr, vs[0]));
    }
  }

  lemma {:induction false} SizesAgree(E: Engine, sc: Scope, size: SqlExpr, fields: seq<Field>)
    requires PlanSizes(size, fields).Ok?
    ensures EvalAll(E, sc, PlanSizes(size, fields).value) == SizesMean(E, EvalExpr(E, sc, size), fields)
  {
    if fields != [] {
      SizesAgree(E, sc, size, fields[1..]);
      var parts := PlanSizes(size, fields).value;
      assert parts[1..] == PlanSizes(size, fields[1..]).value;
      EvalAlone(E, sc, parts[0].c.f);
    }
  }

  lemma EvalSingle(E: Engine, sc: Scope, d: Disj)
    ensures EvalAll(E, sc, [d]) == EvalDisj(E, sc, d)
  {
    assert [d][1..] == [];
    assert EvalAll(E, sc, []) == True;
  }

  /** A factor standing alone as the one part of an operator. */
  lemma EvalOnly(E: Engine, sc: Scope, f: Factor)
    ensures EvalAll(E, sc, [Alone(f)]) == EvalFactor(E, sc, f)
  {
    EvalSingle(E, sc, Alone(f));
    EvalAlone(E, sc, f);
  }

  lemma MemberPartMeans(E: Engine, sc: Scope, e: SqlExpr, name: string, operand: Json, negated: bool)
    requires MemberPart(e, name, operand, negated).Ok?
    ensures var m := EqualsAnyItem(E, EvalExpr(E, sc, e), operand.items);
            EvalAll(E, sc, MemberPart(e, name, operand, negated).value) == NotIf(negated, m)
  {
    var vs := ToSqlAll(operand.items).value;
    assert [vs[0]] + vs[1..] == vs;
    EqualsAnyAgrees(E, EvalExpr(E, sc, e), operand.items, vs);
    EvalOnly(E, sc, MemberOf(e, negated, vs));
  }

  lemma IncludesPartMeans(E: Engine, sc: Scope, arr: SqlExpr, operand: Json, negated: bool)
    requires IncludesPart(arr, operand, negated).Ok? && !Mentions(arr, Je)
    ensures var m := IncludesItem(E, EvalExpr(E, sc, arr), ScalarOf(operand));
            EvalAll(E, sc, IncludesPart(arr, operand, negated).value) == NotIf(negated, m)
  {
    var f := ElementEquals(arr, ScalarOf(operand));
    ElementEqualsMeans(E, sc, arr, ScalarOf(operand));
    EvalOnly(E, sc, f);
    EvalOnly(E, sc, Neg(f));
  }

  lemma AnyPartMeans(E: Engine, sc: Scope, arr: SqlExpr, name: string, operand: Json, negated: bool)
    requires AnyPart(arr, name, operand, negated).Ok? && !Mentions(arr, Je)
    ensures var m := IncludesAnyItem(E, EvalExpr(E, sc, arr), operand.items);
            EvalAll(E, sc, AnyPart(arr, name, operand, negated).value) == NotIf(negated, m)
  {
    var vs := ToSqlAll(operand.items).value;
    var f := SomeElement(arr, MemberOf(RowValue(Je), false, vs));
    SomeMemberMeans(E, sc, arr, operand.items, vs);
    EvalOnly(E, sc, f);
    EvalOnly(E, sc, Neg(f));
  }

  lemma AllPartMeans(E: Engine, sc: Scope, arr: SqlExpr, name: string, operand: Json)
    requires AllPart(arr, name, operand).Ok? && !Mentions(arr, Je)
    ensures EvalAll(E, sc, AllPart(arr, name, operand).value)
         == IncludesAllItems(E, EvalExpr(E, sc, arr), operand.items)
  {
    var vs := ToSqlAll(operand.items).value;
    var parts := EveryElement(arr, vs);
    EveryElementMeans(E, sc, arr, operand.items, vs);
    EvalJoinAll(E, sc, parts);
    EvalOnly(E, sc, Group(JoinAll(parts)));
  }

  lemma EvalEither(E: Engine, sc: Scope, f: Factor, g: Factor)
    ensures EvalFactor(E, sc, Group(Or(Just(f), Alone(g)))) == Or3(EvalFactor(E, sc, f), EvalFactor(E, sc, g))
  {
    EvalAlone(E, sc, g);
    assert EvalConj(E, sc, Just(f)) == EvalFactor(E, sc, f);
    assert EvalDisj(E, sc, Or(Just(f), Alone(g))) == Or3(EvalFactor(E, sc, f), EvalFactor(E, sc, g));
  }

  lemma TypePartMeans(E: Engine, sc: Scope, t: SqlExpr, name: string)
    requires PlanType(t, name).Ok?
    ensures EvalAll(E, sc, PlanType(t, name).value) == TypeMeans(E, EvalExpr(E, sc, t), name)
  {
    var f := PlanType(t, name).value[0].c.f;
    EvalOnly(E, sc, f);
    if f.Group? {
      EvalEither(E, sc, f.d.c.f, f.d.rest.c.f);
    }
  }

  lemma SizePartMeans(E: Engine, sc: Scope, size: SqlExpr, operand: Json)
    requires PlanSize(size, operand).Ok?
    ensures EvalAll(E, sc, PlanSize(size, operand).value)
         == if operand.JObj? then SizesMean(E, EvalExpr(E, sc, size), operand.fields)
            else Compare3(E, EQ, EvalExpr(E, sc, size), ScalarOf(operand))
  {
    if operand.JObj? {
      SizesAgree(E, sc, size, operand.fields);
    } else {
      EvalOnly(E, sc, PlanSize(size, operand).value[0].c.f);
    }
  }

  lemma ComparePartMeans(E: Engine, sc: Scope, e: SqlExpr, op: CmpOp, operand: Json)
    requires ComparePart(e, op, operand).Ok?
    ensures EvalAll(E, sc, ComparePart(e, op, operand).value)
         == Compare3(E, op, EvalExpr(E, sc, e), ScalarOf(operand))
  {
    EvalOnly(E, sc, ComparePart(e, op, operand).value[0].c.f);
  }

  lemma LikePartMeans(E: Engine, sc: Scope, e: SqlExpr, name: string, operand: Json,
                      folded: bool, before: string, after: string)
    requires LikePart(e, name, operand, folded, before, after).Ok?
    ensures EvalAll(E, sc, LikePart(e, name, operand, folded, before, after).value)
         == Matches(E, folded, EvalExpr(E, sc, e), before + StringOf(operand) + after)
  {
    EvalOnly(E, sc, Test(LikeTest(e, folded, before + operand.s + after)));
  }

  lemma ExistsPartMeans(E: Engine, sc: Scope, e: SqlExpr, operand: Json)
    requires ExistsPart(e, operand).Ok?
    ensures EvalAll(E, sc, ExistsPart(e, operand).value) == FromBool(operand.b == (EvalExpr(E, sc, e) != Null))
  {
    EvalOnly(E, sc, Test(NullTest(e, operand.b)));
  }

  lemma RegexPartMeans(E: Engine, sc: Scope, e: SqlExpr, name: string, operand: Json)
    requires RegexPart(e, name, operand).Ok?
    ensures EvalAll(E, sc, RegexPart(e, name, operand).value)
         == Compare3(E, REGEXP, EvalExpr(E, sc, e), Text(StringOf(operand)))
  {
    EvalOnly(E, sc, Test(Compare(e, REGEXP, Plain(Text(operand.s)))));
  }

  lemma BetweenPartMeans(E: Engine, sc: Scope, e: SqlExpr, name: string, operand: Json)
    requires BetweenPart(e, name, operand).Ok?
    ensures EvalAll(E, sc, BetweenPart(e, name, operand).value)
         == BetweenMeans(E, EvalExpr(E, sc, e), ItemsOf(operand))
  {
    EvalOnly(E, sc, Test(Range(e, ScalarOf(operand.items[0]), ScalarOf(operand.items[1]))));
  }

  predicate OnArray(op: Op)
  {
    op.Size? || op.TypeIs? || op.Includes? || op.AnyOf? || op.AllOf?
  }

  lemma ArrayLeafCorrect(E: Engine, sc: Scope, op: Op, name: string, operand: Json, scalar: SqlExpr, arr: SqlExpr)
    requires LeafPart(op, name, operand, scalar, arr).Ok? && !Mentions(arr, Je) && OnArray(op)
    ensures EvalAll(E, sc, LeafPart(op, name, operand, scalar, arr).value)
         == LeafMeans(E, op, operand, EvalExpr(E, sc, scalar), EvalExpr(E, sc, arr))
  {
    match op
    case Size => SizePartMeans(E, sc, ArrayLength(arr), operand);
    case TypeIs => TypePartMeans(E, sc, TypeOf(arr), operand.s);
    case Includes(negated) => IncludesPartMeans(E, sc, arr, operand, negated);
    case AnyOf(negated) => AnyPartMeans(E, sc, arr, name, operand, negated);
    case AllOf => AllPartMeans(E, sc, arr, name, operand);
  }

  lemma ScalarLeafCorrect(E: Engine, sc: Scope, op: Op, name: string, operand: Json, scalar: SqlExpr, arr: SqlExpr)
    requires LeafPart(op, name, operand, scalar, arr).Ok? && !OnArray(op)
    ensures EvalAll(E, sc, LeafPart(op, name, operand, scalar, arr).value)
         == LeafMeans(E, op, operand, EvalExpr(E, sc, scalar), EvalExpr(E, sc, arr))
  {
    match op
    case Comparing(cmp) => ComparePartMeans(E, sc, scalar, cmp, operand);
    case Like(folded, before, after) => LikePartMeans(E, sc, scalar, name, operand, folded, before, after);
    case ExistsOp => ExistsPartMeans(E, sc, scalar, operand);
    case Regex => RegexPartMeans(E, sc, scalar, name, operand);
    case InList(negated) => MemberPartMeans(E, sc, scalar, name, operand, negated);
    case Between => BetweenPartMeans(E, sc, scalar, name, operand);
  }

  /** Every operator but `$elemMatch`. */
  lemma LeafCorrect(E: Engine, sc: Scope, op: Op, name: string, operand: Json, scalar: SqlExpr, arr: SqlExpr)
    requires LeafPart(op, name, operand, scalar, arr).Ok? && !Mentions(arr, Je)
    ensures EvalAll(E, sc, LeafPart(op, name, operand, scalar, arr).value)
         == LeafMeans(E, op, operand, EvalExpr(E, sc, scalar), EvalExpr(E, sc, arr))
  {
    if OnArray(op) {
      ArrayLeafCorrect(E, sc, op, name, operand, scalar, arr);
    } else {
      ScalarLeafCorrect(E, sc, op, name, operand, scalar, arr);
    }
  }

  // ----------------------------------------------------------------- filters

  /** The base a filter is compiled on: never the fixed alias `je`. */
  predicate Clear(base: SqlExpr)
  {
    !Mentions(base, Je)
  }

  lemma {:induction false} FilterCorrect(E: Engine, sc: Scope, base: SqlExpr, filter: Json, elem: bool)
    requires PlanFilter(base, filter, elem).Ok? && Clear(base)
    requires FilterPasses(OR_STANDS_ALONE, filter, elem)
    ensures EvalDisj(E, sc, PlanFilter(base, filter, elem).value)
         == FilterMeans(E, filter, EvalExpr(E, sc, base), elem)
    decreases Weight(filter), 0
  {
    if filter.JObj? && filter.fields != [] {
      var parts := PlanEntries(base, filter.fields, elem).value;
      EntriesCorrect(E, sc, base, filter.fields, elem);
      EvalJoinAll(E, sc, parts);
    }
  }

  lemma {:induction false} EntriesCorrect(E: Engine, sc: Scope, base: SqlExpr, fields: seq<Field>, elem: bool)
    requires PlanEntries(base, fields, elem).Ok? && Clear(base)
    requires EntriesPass(OR_STANDS_ALONE, fields, elem)
    ensures EvalAll(E, sc, PlanEntries(base, fields, elem).value)
         == EntriesMean(E, fields, EvalExpr(E, sc, base), elem)
    ensures ObjectPasses(OR_STANDS_ALONE, fields, elem) ==>
              var parts := PlanEntries(base, fields, elem).value;
              |parts| == 1 || AllConjunctions(parts)
    decreases FieldsWeight(fields), 0
  {
    if fields != [] {
      var first := PlanEntry(base, fields[0].key, fields[0].value, elem).value;
      var rest := PlanEntries(base, fields[1..], elem).value;
      EntryCorrect(E, sc, base, fields[0].key, fields[0].value, elem);
      EntriesCorrect(E, sc, base, fields[1..], elem);
      EvalAllAppend(E, sc, first, rest);
      if |fields| == 1 {
        assert first + rest == first;
      } else if ObjectPasses(OR_STANDS_ALONE, fields, elem) {
        ConjunctionsOnly(base, fields, elem);
      }
    }
  }

  /** Without a bare OR every part of an object is a conjunction. */
  lemma {:induction false} ConjunctionsOnly(base: SqlExpr, fields: seq<Field>, elem: bool)
    requires PlanEntries(base, fields, elem).Ok?
    requires forall i | 0 <= i < |fields| :: !BareOr(fields[i])
    ensures AllConjunctions(PlanEntries(base, fields, elem).value)
    decreases |fields|
  {
    if fields != [] {
      ConjunctionsOnly(base, fields[1..], elem);
      EntryIsConjunction(base, fields[0], elem);
    }
  }

  /** The text of an entry has an OR at its top exactly when it is a `$or` of several arms. */
  lemma EntryIsConjunction(base: SqlExpr, f: Field, elem: bool)
    requires PlanEntry(base, f.key, f.value, elem).Ok?
    ensures AllConjunctions(PlanEntry(base, f.key, f.value, elem).value) <==> !BareOr(f)
  {
    if IsLogical(f.key) {
      var arms := PlanArms(base, f.value.items, elem).value;
      ArmsAreGroups(base, f.value.items, elem);
      var d := Combine(f.key, arms);
      assert ListOperand(f.key, f.value) == Ok(f.value.items);
      assert PlanEntry(base, f.key, f.value, elem).value == [d];
      assert [d][0] == d;
    }
  }

  lemma {:induction false} ArmsAreGroups(base: SqlExpr, items: seq<Json>, elem: bool)
    requires PlanArms(base, items, elem).Ok?
    ensures var arms := PlanArms(base, items, elem).value;
            |arms| == |items| && AllConjunctions(arms)
    decreases |items|
  {
    if items != [] {
      ArmsAreGroups(base, items[1..], elem);
    }
  }

  lemma {:induction false} ArmsCorrect(E: Engine, sc: Scope, base: SqlExpr, items: seq<Json>, elem: bool)
    requires PlanArms(base, items, elem).Ok? && Clear(base)
    requires ItemsPass(OR_STANDS_ALONE, items, elem)
    ensures var arms := PlanArms(base, items, elem).value;
            && EvalAll(E, sc, arms) == AllMean(E, items, EvalExpr(E, sc, base), elem)
            && EvalAny(E, sc, arms) == AnyMean(E, items, EvalExpr(E, sc, base), elem)
    decreases ItemsWeight(items), 1
  {
    if items != [] {
      var arms := PlanArms(base, items, elem).value;
      FilterCorrect(E, sc, base, items[0], elem);
      ArmsCorrect(E, sc, base, items[1..], elem);
      assert arms[1..] == PlanArms(base, items[1..], elem).value;
      EvalAlone(E, sc, arms[0].c.f);
    }
  }

  lemma {:induction false} EntryCorrect(E: Engine, sc: Scope, base: SqlExpr, key: string, value: Json, elem: bool)
    requires PlanEntry(base, key, value, elem).Ok? && Clear(base)
    requires EntryPasses(OR_STANDS_ALONE, key, value, elem)
    ensures EvalAll(E, sc, PlanEntry(base, key, value, elem).value)
         == EntryMeans(E, key, value, EvalExpr(E, sc, base), elem)
    decreases KeyWeight(key) + Weight(value), 5
  {
    if IsLogical(key) {
      LogicalCorrect(E, sc, base, key, value, elem);
    } else if key == "$not" {
      FilterCorrect(E, sc, base, value, elem);
      EvalOnly(E, sc, Neg(Group(PlanFilter(base, value, elem).value)));
    } else if elem && IsDollar(key) {
      ElementOpCorrect(E, sc, base, OpOf(key), key, value);
    } else {
      FieldCorrect(E, sc, base, key, value);
      EvalSingle(E, sc, PlanField(base, key, value).value);
    }
  }

  /** An operator applied to the element itself. */
  lemma {:induction false} ElementOpCorrect(E: Engine, sc: Scope, base: SqlExpr, op: Op, name: string, operand: Json)
    requires PlanOp(op, name, operand, Parens(base), ExtractRoot(base)).Ok? && Clear(base)
    requires OpPasses(OR_STANDS_ALONE, op, operand)
    ensures EvalAll(E, sc, PlanOp(op, name, operand, Parens(base), ExtractRoot(base)).value)
         == OpMeans(E, op, operand, EvalExpr(E, sc, base), E.root(EvalExpr(E, sc, base)))
    decreases Weight(operand), 4
  {
    OpCorrect(E, sc, op, name, operand, Parens(base), ExtractRoot(base));
  }

  lemma {:induction false} LogicalCorrect(E: Engine, sc: Scope, base: SqlExpr, key: string, value: Json, elem: bool)
    requires IsLogical(key) && PlanEntry(base, key, value, elem).Ok? && Clear(base)
    requires EntryPasses(OR_STANDS_ALONE, key, value, elem)
    ensures EvalAll(E, sc, PlanEntry(base, key, value, elem).value)
         == EntryMeans(E, key, value, EvalExpr(E, sc, base), elem)
    decreases KeyWeight(key) + Weight(value), 2
  {
    assert ListOperand(key, value) == Ok(value.items);
    var arms := PlanArms(base, value.items, elem).value;
    assert PlanEntry(base, key, value, elem).value == [Combine(key, arms)];
    EvalSingle(E, sc, Combine(key, arms));
    ArmsCorrect(E, sc, base, value.items, elem);
    ArmsAreGroups(base, value.items, elem);
    if key == "$and" {
      EvalJoinAll(E, sc, arms);
    } else {
      EvalJoinAny(E, sc, arms);
      EvalAlone(E, sc, Neg(Group(JoinAny(arms))));
    }
  }

  lemma {:induction false} FieldCorrect(E: Engine, sc: Scope, base: SqlExpr, path: string, value: Json)
    requires PlanField(base, path, value).Ok? && Clear(base)
    requires FieldPasses(OR_STANDS_ALONE, path, value)
    ensures EvalDisj(E, sc, PlanField(base, path, value).value) == FieldMeans(E, path, value, EvalExpr(E, sc, base))
    decreases KeyWeight(path) + Weight(value), 3
  {
    if CountBracketPairs(path) > 1 {
      TreeFieldCorrect(E, sc, base, path, value);
    } else {
      match SplitFirstArray(path)
      case Ok(Some((arrayPath, rest))) =>
        ArrayRewriteDecreases(path, value);
        ArrayFieldMeans(E, path, value, EvalExpr(E, sc, base), arrayPath, rest);
        ArrayFieldIsElemMatch(base, path, value);
        ArrayFieldCorrect(E, sc, base, path, value, arrayPath, ElementFilter(rest, value));
      case Ok(None) =>
        TestsCorrect(E, sc, value, Arrow(base, path), Extract(base, path));
        EvalJoinAll(E, sc, PlanTests(value, Arrow(base, path), Extract(base, path)).value);
      case Err(_) =>
    }
  }

  /** A field that compiles to an `$elemMatch` asks for some element of its array. */
  lemma {:induction false} ArrayFieldCorrect(E: Engine, sc: Scope, base: SqlExpr, path: string, value: Json,
                                             arrayPath: string, filter: Json)
    requires Weight(filter) < KeyWeight(path) + Weight(value)
    requires PlanField(base, path, value) == PlanElemMatch(Extract(base, arrayPath), filter)
    requires PlanField(base, path, value).Ok? && Clear(base)
    requires FilterPasses(OR_STANDS_ALONE, filter, true)
    ensures EvalDisj(E, sc, PlanField(base, path, value).value)
         == FromBool(SomeElementMeans(E, filter, E.extract(EvalExpr(E, sc, base), arrayPath)))
    decreases KeyWeight(path) + Weight(value), 1
  {
    ElemMatchCorrect(E, sc, Extract(base, arrayPath), filter);
  }

  lemma ArrayFieldMeans(E: Engine, path: string, value: Json, v: SqlValue, arrayPath: string, rest: string)
    requires CountBracketPairs(path) <= 1 && SplitFirstArray(path) == Ok(Some((arrayPath, rest)))
    ensures FieldMeans(E, path, value, v)
         == FromBool(SomeElementMeans(E, ElementFilter(rest, value), E.extract(v, arrayPath)))
    ensures FieldPasses(OR_STANDS_ALONE, path, value)
       <==> FilterPasses(OR_STANDS_ALONE, ElementFilter(rest, value), true)
  {
    ArrayRewriteDecreases(path, value);
  }

  /** A single-`[]` field compiles to one `$elemMatch` on its array. */
  lemma ArrayFieldIsElemMatch(base: SqlExpr, path: string, value: Json)
    requires CountBracketPairs(path) <= 1
    requires SplitFirstArray(path).Ok? && SplitFirstArray(path).value.Some?
    requires PlanField(base, path, value).Ok?
    ensures var (arrayPath, rest) := SplitFirstArray(path).value.value;
            PlanField(base, path, value) == PlanElemMatch(Extract(base, arrayPath), ElementFilter(rest, value))
  {
    var (arrayPath, rest) := SplitFirstArray(path).value.value;
    ArrayPathIsPlain(path);
    assert PlanField(base, path, value) == PlanField(base, arrayPath, ElemMatchOf(rest, value));
    OneElemMatch(Arrow(base, arrayPath), Extract(base, arrayPath), ElementFilter(rest, value));
  }

  lemma ElemMatchName()
    ensures OpOf("$elemMatch") == ElemMatch
  {
    var name := "$elemMatch";
    assert |name| == 10;
  }

  lemma OneField(f: Field, scalar: SqlExpr, arr: SqlExpr)
    ensures PlanOps([f], scalar, arr) == PlanOp(OpOf(f.key), f.key, f.value, scalar, arr)
  {
    assert [f][1..] == [];
    assert PlanOps([], scalar, arr) == Ok([]);
    var r := PlanOp(OpOf(f.key), f.key, f.value, scalar, arr);
    assert r.Ok? ==> r.value + [] == r.value;
  }

  /** A single `$elemMatch` operator compiles to its one part. */
  lemma OneElemMatch(scalar: SqlExpr, arr: SqlExpr, operand: Json)
    ensures Joined(PlanTests(JObj([Field("$elemMatch", operand)]), scalar, arr)) == PlanElemMatch(arr, operand)
  {
    ElemMatchName();
    OneField(Field("$elemMatch", operand), scalar, arr);
    var m := PlanElemMatch(arr, operand);
    assert PlanOp(ElemMatch, "$elemMatch", operand, scalar, arr) == OnlyPart(m);
    if m.Ok? {
      assert [m.value] != [];
      assert JoinAll([m.value]) == m.value;
    }
  }

  /** The array path of a split has no brackets left, so it compiles as a plain field. */
  lemma ArrayPathIsPlain(path: string)
    requires SplitFirstArray(path).Ok? && SplitFirstArray(path).value.Some?
    ensures var arrayPath := SplitFirstArray(path).value.value.0;
            CountBracketPairs(arrayPath) == 0 && SplitFirstArray(arrayPath) in {Ok(None), Err(BadPath)}
  {
    var arrayPath := SplitFirstArray(path).value.value.0;
    ArrayPathHasNoBracket([], Split(path, '.'));
    NoBracketPairs(arrayPath);
    var pieces := Split(arrayPath, '.');
    forall i | 0 <= i < |pieces| ensures !HasBracket(pieces[i]) {
      if '[' in pieces[i] {
        SplitPieceChars(arrayPath, '.', i, '[');
      }
      if ']' in pieces[i] {
        SplitPieceChars(arrayPath, '.', i, ']');
      }
    }
    NoBracketSegments([], pieces);
  }

  lemma {:induction false} ArrayPathHasNoBracket(prefix: seq<string>, segments: seq<string>)
    requires forall i | 0 <= i < |prefix| :: !HasBracket(prefix[i])
    ensures var r := SplitSegments(prefix, segments);
            r.Ok? && r.value.Some? ==> !HasBracket(r.value.value.0)
    decreases segments
  {
    if segments != [] {
      if EndsWithBrackets(segments[0]) {
        var pieces := prefix + [FieldOf(segments[0])];
        if !HasBracket(FieldOf(segments[0])) {
          JoinHasNoBracket(pieces);
        }
      } else if !HasBracket(segments[0]) {
        ArrayPathHasNoBracket(prefix + [segments[0]], segments[1..]);
      }
    }
  }

  lemma JoinHasNoBracket(pieces: seq<string>)
    requires forall i | 0 <= i < |pieces| :: !HasBracket(pieces[i])
    ensures !HasBracket(Join(pieces, '.'))
  {
    if '[' in Join(pieces, '.') {
      JoinChars(pieces, '.', '[');
    }
    if ']' in Join(pieces, '.') {
      JoinChars(pieces, '.', ']');
    }
  }

  lemma BracketSuffix(s: string)
    requires EndsWithBrackets(s)
    ensures '[' in s
  {
    assert s[|s| - 2..][0] == s[|s| - 2];
  }

  lemma {:induction false} NoBracketSegments(prefix: seq<string>, segments: seq<string>)
    requires forall i | 0 <= i < |segments| :: !HasBracket(segments[i])
    ensures SplitSegments(prefix, segments) == Ok(None)
    decreases segments
  {
    if segments != [] {
      if EndsWithBrackets(segments[0]) {
        BracketSuffix(segments[0]);
      }
      NoBracketSegments(prefix + [segments[0]], segments[1..]);
    }
  }

  lemma {:induction false} NoBracketPairs(s: string)
    requires '[' !in s
    ensures CountBracketPairs(s) == 0
  {
    if |s| >= 2 {
      NoBracketPairs(s[1..]);
    }
  }

  lemma {:induction false} TreeFieldCorrect(E: Engine, sc: Scope, base: SqlExpr, path: string, value: Json)
    requires PlanTreeField(base, path, value).Ok?
    requires value.JObj? ==> OpsPass(OR_STANDS_ALONE, value.fields)
    ensures EvalDisj(E, sc, PlanTreeField(base, path, value).value)
         == TreeMeans(E, path, value, EvalExpr(E, sc, base))
    decreases KeyWeight(path) + Weight(value), 2
  {
    var alias := Tree(base, path);
    var pattern := FullkeyPattern(path).value;
    var source := TreeRow(base, alias);
    HashedAliasIsFresh(base, path);
    EvalOutside(E, sc, base, alias);
    var nodes := E.tree(EvalExpr(E, sc, base));
    var d := JoinAll([FullkeyTest(alias, pattern)] + PlanTests(value, RowAtom(alias), RowValue(alias)).value);
    EvalAlone(E, sc, Exists(source, d));
    assert Rows(E, source, EvalExpr(E, Outside(sc, alias), base)) == nodes;
    forall i | 0 <= i < |nodes|
      ensures EvalDisj(E, Enter(sc, alias, nodes[i]), d) == NodeMeans(E, pattern, value, nodes[i])
    {
      NodeCorrect(E, Enter(sc, alias, nodes[i]), alias, pattern, value);
    }
  }

  /** One node: its full key must match, and its atom and value meet the operators. */
  lemma {:induction false} NodeCorrect(E: Engine, sc: Scope, alias: Alias, pattern: string, value: Json)
    requires PlanTests(value, RowAtom(alias), RowValue(alias)).Ok? && alias != Je
    requires value.JObj? ==> OpsPass(OR_STANDS_ALONE, value.fields)
    ensures EvalDisj(E, sc, JoinAll([FullkeyTest(alias, pattern)]
                                    + PlanTests(value, RowAtom(alias), RowValue(alias)).value))
         == NodeMeans(E, pattern, value, RowOf(sc, alias))
    decreases Weight(value), 1
  {
    var like := FullkeyTest(alias, pattern);
    var parts := PlanTests(value, RowAtom(alias), RowValue(alias)).value;
    TestsCorrect(E, sc, value, RowAtom(alias), RowValue(alias));
    EvalJoinAll(E, sc, [like] + parts);
    EvalAllAppend(E, sc, [like], parts);
    EvalOnly(E, sc, like.c.f);
  }

  lemma {:induction false} TestsCorrect(E: Engine, sc: Scope, value: Json, scalar: SqlExpr, arr: SqlExpr)
    requires PlanTests(value, scalar, arr).Ok? && Clear(arr)
    requires value.JObj? ==> OpsPass(OR_STANDS_ALONE, value.fields)
    ensures EvalAll(E, sc, PlanTests(value, scalar, arr).value)
         == TestsMean(E, value, EvalExpr(E, sc, scalar), EvalExpr(E, sc, arr))
    decreases Weight(value), 0
  {
    if value.JObj? {
      OpsCorrect(E, sc, value.fields, scalar, arr);
    } else {
      ComparePartMeans(E, sc, scalar, EQ, value);
    }
  }

  lemma {:induction false} OpsCorrect(E: Engine, sc: Scope, fields: seq<Field>, scalar: SqlExpr, arr: SqlExpr)
    requires PlanOps(fields, scalar, arr).Ok? && Clear(arr)
    requires OpsPass(OR_STANDS_ALONE, fields)
    ensures EvalAll(E, sc, PlanOps(fields, scalar, arr).value)
         == OpsMean(E, fields, EvalExpr(E, sc, scalar), EvalExpr(E, sc, arr))
    decreases FieldsWeight(fields), 0
  {
    if fields != [] {
      var f := fields[0];
      OpCorrect(E, sc, OpOf(f.key), f.key, f.value, scalar, arr);
      OpsCorrect(E, sc, fields[1..], scalar, arr);
      EvalAllAppend(E, sc, PlanOp(OpOf(f.key), f.key, f.value, scalar, arr).value,
                    PlanOps(fields[1..], scalar, arr).value);
    }
  }

  lemma {:induction false} OpCorrect(E: Engine, sc: Scope, op: Op, name: string, operand: Json,
                                     scalar: SqlExpr, arr: SqlExpr)
    requires PlanOp(op, name, operand, scalar, arr).Ok? && Clear(arr)
    requires OpPasses(OR_STANDS_ALONE, op, operand)
    ensures EvalAll(E, sc, PlanOp(op, name, operand, scalar, arr).value)
         == OpMeans(E, op, operand, EvalExpr(E, sc, scalar), EvalExpr(E, sc, arr))
    decreases Weight(operand), 2
  {
    if op == ElemMatch {
      var d := PlanElemMatch(arr, operand).value;
      ElemMatchCorrect(E, sc, arr, operand);
      EvalSingle(E, sc, d);
      assert PlanOp(op, name, operand, scalar, arr).value == [d];
    } else {
      LeafCorrect(E, sc, op, name, operand, scalar, arr);
    }
  }

  /** `$elemMatch` opens a scope in which the filter is applied to one element. */
  lemma {:induction false} ElemMatchCorrect(E: Engine, sc: Scope, arr: SqlExpr, operand: Json)
    requires PlanElemMatch(arr, operand).Ok? && Clear(arr)
    requires FilterPasses(OR_STANDS_ALONE, operand, true)
    ensures EvalDisj(E, sc, PlanElemMatch(arr, operand).value)
         == FromBool(SomeElementMeans(E, operand, EvalExpr(E, sc, arr)))
    decreases Weight(operand), 1
  {
    var alias := Each(arr);
    HashedAliasIsFresh(arr, "");
    RowsOfArray(E, sc, arr, alias);
    var rows := Rows(E, EachRow(arr, alias), EvalExpr(E, Outside(sc, alias), arr));
    var elements := E.each(EvalExpr(E, sc, arr));
    var d := PlanFilter(RowValue(alias), operand, true).value;
    EvalAlone(E, sc, Exists(EachRow(arr, alias), d));
    forall i | 0 <= i < |rows|
      ensures EvalDisj(E, Enter(sc, alias, rows[i]), d) == FilterMeans(E, operand, elements[i], true)
    {
      FilterCorrect(E, Enter(sc, alias, rows[i]), RowValue(alias), operand, true);
    }
  }
}
