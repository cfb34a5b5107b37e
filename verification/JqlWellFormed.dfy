/** Exactly which accepted filters compile to a complete boolean expression. */
module JqlWellFormed {
  import opened Prelude
  import opened Strings
  import opened SqlText
  import opened JqlFilter
  import opened JqlPlan
  import opened JqlMeaning
  import opened JqlCorrect

  predicate AllWhole(parts: seq<Disj>)
  {
    forall i | 0 <= i < |parts| :: DisjWhole(parts[i])
  }

  lemma {:induction false} WholeAppend(a: Conj, b: Conj)
    ensures ConjWhole(AppendConj(a, b)) <==> ConjWhole(a) && ConjWhole(b)
  {
    if a.And? {
      WholeAppend(a.rest, b);
    }
  }

  lemma {:induction false} WholeJoinAnd(a: Disj, b: Disj)
    ensures DisjWhole(JoinAnd(a, b)) <==> DisjWhole(a) && DisjWhole(b)
  {
    match a
    case Or(_, rest) => WholeJoinAnd(rest, b);
    case One(c) => WholeAppend(c, b.c);
  }

  lemma {:induction false} WholeJoinOr(a: Disj, b: Disj)
    ensures DisjWhole(JoinOr(a, b)) <==> DisjWhole(a) && DisjWhole(b)
  {
    if a.Or? {
      WholeJoinOr(a.rest, b);
    }
  }

  lemma {:induction false} WholeJoinAll(parts: seq<Disj>)
    ensures DisjWhole(JoinAll(parts)) <==> parts != [] && AllWhole(parts)
  {
    if |parts| > 1 {
      WholeJoinAnd(parts[0], JoinAll(parts[1..]));
      WholeJoinAll(parts[1..]);
      AllWholeSplit(parts);
    }
  }

  lemma {:induction false} WholeJoinAny(arms: seq<Disj>)
    ensures DisjWhole(JoinAny(arms)) <==> arms != [] && AllWhole(arms)
  {
    if |arms| > 1 {
      WholeJoinOr(arms[0], JoinAny(arms[1..]));
      WholeJoinAny(arms[1..]);
      AllWholeSplit(arms);
    }
  }

  lemma AllWholeSplit(parts: seq<Disj>)
    requires parts != []
    ensures AllWhole(parts) <==> DisjWhole(parts[0]) && AllWhole(parts[1..])
  {
    if DisjWhole(parts[0]) && AllWhole(parts[1..]) {
      forall i | 0 <= i < |parts| ensures DisjWhole(parts[i]) {
        assert i > 0 ==> parts[i] == parts[1..][i - 1];
      }
    }
  }

  lemma AllWholeAppend(a: seq<Disj>, b: seq<Disj>)
    ensures AllWhole(a + b) <==> AllWhole(a) && AllWhole(b)
  {
    if AllWhole(a + b) {
      forall i | 0 <= i < |a| ensures DisjWhole(a[i]) {
        assert (a + b)[i] == a[i];
      }
      forall i | 0 <= i < |b| ensures DisjWhole(b[i]) {
        assert (a + b)[|a| + i] == b[i];
      }
    }
  }

  lemma WholeAlone(f: Factor)
    ensures AllWhole([Alone(f)]) <==> FactorWhole(f)
    ensures DisjWhole(Alone(f)) <==> FactorWhole(f)
  {
    assert [Alone(f)][0] == Alone(f);
    assert DisjWhole(Alone(f)) <==> ConjWhole(Just(f));
  }

  lemma {:induction false} EveryElementWhole(arr: SqlExpr, vs: seq<SqlValue>)
    ensures AllWhole(EveryElement(arr, vs)) && |EveryElement(arr, vs)| == |vs|
  {
    if vs != [] {
      EveryElementWhole(arr, vs[1..]);
      var f := ElementEquals(arr, vs[0]);
      WholeAlone(f);
      WholeAlone(f.d.c.f);
      AllWholeAppend([Alone(f)], EveryElement(arr, vs[1..]));
    }
  }

  lemma {:induction false} SizesWhole(size: SqlExpr, fields: seq<Field>)
    requires PlanSizes(size, fields).Ok?
    ensures AllWhole(PlanSizes(size, fields).value)
  {
    if fields != [] {
      SizesWhole(size, fields[1..]);
      WholeAlone(SizeField(size, fields[0]).value.c.f);
      AllWholeAppend([SizeField(size, fields[0]).value], PlanSizes(size, fields[1..]).value);
    }
  }

  lemma OnePartWhole(f: Factor, parts: seq<Disj>)
    requires parts == [Alone(f)] && FactorWhole(f)
    ensures AllWhole(parts) && parts != []
  {
    WholeAlone(f);
  }

  lemma SomeElementWhole(arr: SqlExpr, test: Pred)
    ensures FactorWhole(SomeElement(arr, Test(test)))
  {
    WholeAlone(Test(test));
  }

  lemma TypePartWhole(t: SqlExpr, name: string)
    requires PlanType(t, name).Ok?
    ensures AllWhole(PlanType(t, name).value) && PlanType(t, name).value != []
  {
    var f := PlanType(t, name).value[0].c.f;
    if f.Group? {
      WholeAlone(f.d.rest.c.f);
      assert ConjWhole(f.d.c);
    }
    OnePartWhole(f, PlanType(t, name).value);
  }

  lemma AllPartWhole(arr: SqlExpr, name: string, operand: Json)
    requires AllPart(arr, name, operand).Ok?
    ensures AllWhole(AllPart(arr, name, operand).value) && AllPart(arr, name, operand).value != []
  {
    var vs := ToSqlAll(operand.items).value;
    EveryElementWhole(arr, vs);
    WholeJoinAll(EveryElement(arr, vs));
    OnePartWhole(Group(JoinAll(EveryElement(arr, vs))), AllPart(arr, name, operand).value);
  }

  lemma IncludesPartWhole(arr: SqlExpr, operand: Json, negated: bool)
    requires IncludesPart(arr, operand, negated).Ok?
    ensures var parts := IncludesPart(arr, operand, negated).value; AllWhole(parts) && parts != []
  {
    var parts := IncludesPart(arr, operand, negated).value;
    SomeElementWhole(arr, Compare(RowValue(Je), EQ, Plain(ToSql(operand).value)));
    OnePartWhole(parts[0].c.f, parts);
  }

  lemma AnyPartWhole(arr: SqlExpr, name: string, operand: Json, negated: bool)
    requires AnyPart(arr, name, operand, negated).Ok?
    ensures var parts := AnyPart(arr, name, operand, negated).value; AllWhole(parts) && parts != []
  {
    var parts := AnyPart(arr, name, operand, negated).value;
    var vs := ListValues(name, operand).value;
    SomeElementWhole(arr, Member(RowValue(Je), false, vs[0], vs[1..]));
    OnePartWhole(parts[0].c.f, parts);
  }

  lemma SizePartWhole(size: SqlExpr, operand: Json)
    requires PlanSize(size, operand).Ok?
    ensures var parts := PlanSize(size, operand).value; AllWhole(parts) && (parts == [] <==> operand == JObj([]))
  {
    if operand.JObj? {
      SizesWhole(size, operand.fields);
    } else {
      OnePartWhole(PlanSize(size, operand).value[0].c.f, PlanSize(size, operand).value);
    }
  }

  /** Only `$size: {}` contributes no part, and no part of an operator is incomplete. */
  lemma LeafWhole(op: Op, name: string, operand: Json, scalar: SqlExpr, arr: SqlExpr)
    requires LeafPart(op, name, operand, scalar, arr).Ok?
    ensures var parts := LeafPart(op, name, operand, scalar, arr).value;
            AllWhole(parts) && (parts == [] <==> op == Size && operand == JObj([]))
  {
    var parts := LeafPart(op, name, operand, scalar, arr).value;
    match op
    case Size => SizePartWhole(ArrayLength(arr), operand);
    case TypeIs => TypePartWhole(TypeOf(arr), operand.s);
    case Includes(negated) => IncludesPartWhole(arr, operand, negated);
    case AnyOf(negated) => AnyPartWhole(arr, name, operand, negated);
    case AllOf => AllPartWhole(arr, name, operand);
    case Comparing(_) => OnePartWhole(parts[0].c.f, parts);
    case Like(_, _, _) => OnePartWhole(parts[0].c.f, parts);
    case ExistsOp => OnePartWhole(parts[0].c.f, parts);
    case Regex => OnePartWhole(parts[0].c.f, parts);
    case InList(_) => OnePartWhole(parts[0].c.f, parts);
    case Between => OnePartWhole(parts[0].c.f, parts);
    case _ =>
  }

  // ----------------------------------------------------------------- filters

  lemma {:induction false} FilterWhole(base: SqlExpr, filter: Json, elem: bool)
    requires PlanFilter(base, filter, elem).Ok?
    ensures DisjWhole(PlanFilter(base, filter, elem).value) <==> FilterPasses(WHERE_IS_NOT_EMPTY, filter, elem)
    decreases Weight(filter), 0
  {
    if filter.JObj? && filter.fields != [] {
      EntriesWhole(base, filter.fields, elem);
      WholeJoinAll(PlanEntries(base, filter.fields, elem).value);
    } else {
      WholeAlone(Test(OneIsOne));
    }
  }

  lemma {:induction false} EntriesWhole(base: SqlExpr, fields: seq<Field>, elem: bool)
    requires PlanEntries(base, fields, elem).Ok?
    ensures var parts := PlanEntries(base, fields, elem).value;
            && (AllWhole(parts) <==> EntriesPass(WHERE_IS_NOT_EMPTY, fields, elem))
            && (parts == [] <==> fields == [] || !ObjectPasses(WHERE_IS_NOT_EMPTY, fields, elem))
    decreases FieldsWeight(fields), 0
  {
    if fields != [] {
      EntryWhole(base, fields[0], elem);
      EntriesWhole(base, fields[1..], elem);
      AllWholeAppend(PlanEntry(base, fields[0].key, fields[0].value, elem).value,
                     PlanEntries(base, fields[1..], elem).value);
      EmptySizesSplit(fields);
    }
  }

  lemma EmptySizesSplit(fields: seq<Field>)
    requires fields != []
    ensures (exists i :: 0 <= i < |fields| && !EmptySize(fields[i]))
       <==> !EmptySize(fields[0]) || exists i :: 0 <= i < |fields[1..]| && !EmptySize(fields[1..][i])
  {
    if i :| 0 <= i < |fields[1..]| && !EmptySize(fields[1..][i]) {
      assert !EmptySize(fields[i + 1]);
    }
    if i :| 0 < i < |fields| && !EmptySize(fields[i]) {
      assert !EmptySize(fields[1..][i - 1]);
    }
  }

  lemma {:induction false} EntryWhole(base: SqlExpr, f: Field, elem: bool)
    requires PlanEntry(base, f.key, f.value, elem).Ok?
    ensures var parts := PlanEntry(base, f.key, f.value, elem).value;
            && (AllWhole(parts) <==> EntryPasses(WHERE_IS_NOT_EMPTY, f.key, f.value, elem))
            && (parts == [] <==> elem && EmptySize(f))
    decreases KeyWeight(f.key) + Weight(f.value), 4
  {
    if IsLogical(f.key) {
      LogicalWhole(base, f, elem);
    } else if f.key == "$not" {
      FilterWhole(base, f.value, elem);
      WholeAlone(Neg(Group(PlanFilter(base, f.value, elem).value)));
    } else if elem && IsDollar(f.key) {
      OpWhole(OpOf(f.key), f.key, f.value, Parens(base), ExtractRoot(base));
      SizeName(f.key);
    } else {
      FieldWhole(base, f.key, f.value);
      assert [PlanField(base, f.key, f.value).value][0] == PlanField(base, f.key, f.value).value;
    }
  }

  lemma SizeName(op: string)
    ensures OpOf(op) == Size <==> op == "$size"
  {
  }

  lemma {:induction false} LogicalWhole(base: SqlExpr, f: Field, elem: bool)
    requires IsLogical(f.key) && PlanEntry(base, f.key, f.value, elem).Ok?
    ensures var parts := PlanEntry(base, f.key, f.value, elem).value;
            && (AllWhole(parts) <==> EntryPasses(WHERE_IS_NOT_EMPTY, f.key, f.value, elem))
            && parts != []
    decreases KeyWeight(f.key) + Weight(f.value), 3
  {
    assert ListOperand(f.key, f.value) == Ok(f.value.items);
    var arms := PlanArms(base, f.value.items, elem).value;
    var d := Combine(f.key, arms);
    assert PlanEntry(base, f.key, f.value, elem).value == [d] && [d][0] == d;
    ArmsWhole(base, f.value.items, elem);
    WholeJoinAll(arms);
    WholeJoinAny(arms);
    WholeAlone(Neg(Group(JoinAny(arms))));
  }

  lemma {:induction false} ArmsWhole(base: SqlExpr, items: seq<Json>, elem: bool)
    requires PlanArms(base, items, elem).Ok?
    ensures var arms := PlanArms(base, items, elem).value;
            |arms| == |items| && (AllWhole(arms) <==> ItemsPass(WHERE_IS_NOT_EMPTY, items, elem))
    decreases ItemsWeight(items), 1
  {
    if items != [] {
      var d := PlanFilter(base, items[0], elem).value;
      FilterWhole(base, items[0], elem);
      ArmsWhole(base, items[1..], elem);
      WholeAlone(Group(d));
      AllWholeAppend([Alone(Group(d))], PlanArms(base, items[1..], elem).value);
    }
  }

  lemma {:induction false} FieldWhole(base: SqlExpr, path: string, value: Json)
    requires PlanField(base, path, value).Ok?
    ensures DisjWhole(PlanField(base, path, value).value) <==> FieldPasses(WHERE_IS_NOT_EMPTY, path, value)
    decreases KeyWeight(path) + Weight(value), 2
  {
    if CountBracketPairs(path) > 1 {
      TreeFieldWhole(base, path, value);
    } else {
      match SplitFirstArray(path)
      case Ok(Some((arrayPath, rest))) =>
        ArrayRewriteDecreases(path, value);
        ArrayFieldIsElemMatch(base, path, value);
        ElemMatchWhole(Extract(base, arrayPath), ElementFilter(rest, value));
      case Ok(None) =>
        TestsWhole(value, Arrow(base, path), Extract(base, path));
        WholeJoinAll(PlanTests(value, Arrow(base, path), Extract(base, path)).value);
      case Err(_) =>
    }
  }

  lemma {:induction false} TreeFieldWhole(base: SqlExpr, path: string, value: Json)
    requires PlanTreeField(base, path, value).Ok?
    ensures DisjWhole(PlanTreeField(base, path, value).value)
       <==> (value.JObj? ==> OpsPass(WHERE_IS_NOT_EMPTY, value.fields))
    decreases KeyWeight(path) + Weight(value), 1
  {
    var alias := Tree(base, path);
    var like := FullkeyTest(alias, FullkeyPattern(path).value);
    var parts := PlanTests(value, RowAtom(alias), RowValue(alias)).value;
    TestsWhole(value, RowAtom(alias), RowValue(alias));
    WholeAlone(like.c.f);
    AllWholeAppend([like], parts);
    WholeJoinAll([like] + parts);
    WholeAlone(Exists(TreeRow(base, alias), JoinAll([like] + parts)));
  }

  lemma {:induction false} TestsWhole(value: Json, scalar: SqlExpr, arr: SqlExpr)
    requires PlanTests(value, scalar, arr).Ok?
    ensures AllWhole(PlanTests(value, scalar, arr).value)
       <==> (value.JObj? ==> OpsPass(WHERE_IS_NOT_EMPTY, value.fields))
    decreases Weight(value), 0
  {
    if value.JObj? {
      OpsWhole(value.fields, scalar, arr);
    } else {
      WholeAlone(PlanTests(value, scalar, arr).value[0].c.f);
    }
  }

  lemma {:induction false} OpsWhole(fields: seq<Field>, scalar: SqlExpr, arr: SqlExpr)
    requires PlanOps(fields, scalar, arr).Ok?
    ensures AllWhole(PlanOps(fields, scalar, arr).value) <==> OpsPass(WHERE_IS_NOT_EMPTY, fields)
    decreases FieldsWeight(fields), 0
  {
    if fields != [] {
      var f := fields[0];
      OpWhole(OpOf(f.key), f.key, f.value, scalar, arr);
      OpsWhole(fields[1..], scalar, arr);
      AllWholeAppend(PlanOp(OpOf(f.key), f.key, f.value, scalar, arr).value,
                     PlanOps(fields[1..], scalar, arr).value);
    }
  }

  lemma {:induction false} OpWhole(op: Op, name: string, operand: Json, scalar: SqlExpr, arr: SqlExpr)
    requires PlanOp(op, name, operand, scalar, arr).Ok?
    ensures var parts := PlanOp(op, name, operand, scalar, arr).value;
            && (AllWhole(parts) <==> OpPasses(WHERE_IS_NOT_EMPTY, op, operand))
            && (parts == [] <==> op == Size && operand == JObj([]))
    decreases Weight(operand), 2
  {
    if op == ElemMatch {
      var d := PlanElemMatch(arr, operand).value;
      ElemMatchWhole(arr, operand);
      assert [d][0] == d;
      assert PlanOp(op, name, operand, scalar, arr).value == [d];
    } else {
      LeafWhole(op, name, operand, scalar, arr);
    }
  }

  lemma {:induction false} ElemMatchWhole(arr: SqlExpr, operand: Json)
    requires PlanElemMatch(arr, operand).Ok?
    ensures DisjWhole(PlanElemMatch(arr, operand).value) <==> FilterPasses(WHERE_IS_NOT_EMPTY, operand, true)
    decreases Weight(operand), 1
  {
    FilterWhole(RowValue(Each(arr)), operand, true);
    WholeAlone(PlanElemMatch(arr, operand).value.c.f);
  }
}
