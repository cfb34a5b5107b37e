/** Filters that differ only in scalar operands compile to the same SQL text. */
module JqlShape {
  import opened Prelude
  import opened Strings
  import opened SqlText
  import opened JqlFilter
  import opened JqlPlan
  import opened JqlCorrect
  import opened JqlCompiler
  import opened JqlTheorems

  predicate IsScalar(v: Json)
  {
    !v.JArr? && !v.JObj?
  }

  predicate NamesTextOperand(op: string)
  {
    op == "$exists" || op == "$type"
  }

  /**
   The operand is written into the text instead of bound. This holds of the operator
   itself and of a path that ends in it, as `a[].$exists`, which applies it to the element.
   */
  predicate IsInText(key: string)
    decreases |key|
  {
    || NamesTextOperand(key)
    || match SplitFirstArray(key)
       case Ok(Some((_, rest))) =>
         SplitFirstArrayText(key);
         IsInText(rest)
       case _ => false
  }

  /** The same shape: same keys, same lengths, any scalars, but equal operands where they are written into the text. */
  predicate Alike(a: Json, b: Json)
  {
    match a
    case JArr(items) => b.JArr? && AlikeItems(items, b.items)
    case JObj(fields) => b.JObj? && AlikeFields(fields, b.fields)
    case _ => IsScalar(b)
  }

  predicate AlikeItems(a: seq<Json>, b: seq<Json>)
  {
    if a == [] || b == [] then a == b else Alike(a[0], b[0]) && AlikeItems(a[1..], b[1..])
  }

  predicate AlikeFields(a: seq<Field>, b: seq<Field>)
  {
    if a == [] || b == [] then a == b
    else
      && a[0].key == b[0].key
      && (if IsInText(a[0].key) then a[0].value == b[0].value else Alike(a[0].value, b[0].value))
      && AlikeFields(a[1..], b[1..])
  }

  /** A filter with its scalars blanked out, but for the operands that are written into the text. */
  function Masked(a: Json): Json
  {
    match a
    case JArr(items) => JArr(MaskedItems(items))
    case JObj(fields) => JObj(MaskedFields(fields))
    case _ => JNull
  }

  function MaskedItems(items: seq<Json>): seq<Json>
  {
    if items == [] then [] else [Masked(items[0])] + MaskedItems(items[1..])
  }

  function MaskedFields(fields: seq<Field>): seq<Field>
  {
    if fields == [] then []
    else
      var f := fields[0];
      [Field(f.key, if IsInText(f.key) then f.value else Masked(f.value))] + MaskedFields(fields[1..])
  }

  /** Filters have the same shape if and only if they are the same once masked. */
  lemma {:induction false} AlikeIffMasked(a: Json, b: Json)
    ensures Alike(a, b) <==> Masked(a) == Masked(b)
    decreases a
  {
    match a
    case JArr(items) =>
      if b.JArr? {
        AlikeItemsMasked(items, b.items);
      }
    case JObj(fields) =>
      if b.JObj? {
        AlikeFieldsMasked(fields, b.fields);
      }
    case _ =>
  }

  lemma {:induction false} AlikeItemsMasked(a: seq<Json>, b: seq<Json>)
    ensures AlikeItems(a, b) <==> MaskedItems(a) == MaskedItems(b)
    decreases a
  {
    if a != [] && b != [] {
      AlikeIffMasked(a[0], b[0]);
      AlikeItemsMasked(a[1..], b[1..]);
      assert MaskedItems(a)[0] == Masked(a[0]) && MaskedItems(a)[1..] == MaskedItems(a[1..]);
      assert MaskedItems(b)[0] == Masked(b[0]) && MaskedItems(b)[1..] == MaskedItems(b[1..]);
    }
  }

  lemma {:induction false} AlikeFieldsMasked(a: seq<Field>, b: seq<Field>)
    ensures AlikeFields(a, b) <==> MaskedFields(a) == MaskedFields(b)
    decreases a
  {
    if a != [] && b != [] {
      AlikeIffMasked(a[0].value, b[0].value);
      AlikeFieldsMasked(a[1..], b[1..]);
      var (x, y) := (MaskedFields(a), MaskedFields(b));
      assert x[0].key == a[0].key && x[1..] == MaskedFields(a[1..]);
      assert y[0].key == b[0].key && y[1..] == MaskedFields(b[1..]);
      assert x[0].value == if IsInText(a[0].key) then a[0].value else Masked(a[0].value);
      assert y[0].value == if IsInText(b[0].key) then b[0].value else Masked(b[0].value);
      assert x == [x[0]] + x[1..] && y == [y[0]] + y[1..];
    }
  }

  lemma {:induction false} AlikeSelf(a: Json)
    ensures Alike(a, a)
    decreases a
  {
    match a
    case JArr(items) => AlikeSelfItems(items);
    case JObj(fields) => AlikeSelfFields(fields);
    case _ =>
  }

  lemma {:induction false} AlikeSelfItems(items: seq<Json>)
    ensures AlikeItems(items, items)
    decreases items
  {
    if items != [] {
      AlikeSelf(items[0]);
      AlikeSelfItems(items[1..]);
    }
  }

  lemma {:induction false} AlikeSelfFields(fields: seq<Field>)
    ensures AlikeFields(fields, fields)
    decreases fields
  {
    if fields != [] {
      AlikeSelf(fields[0].value);
      AlikeSelfFields(fields[1..]);
    }
  }

  lemma {:induction false} AlikeLengths(a: seq<Json>, b: seq<Json>)
    requires AlikeItems(a, b)
    ensures |a| == |b|
  {
    if a != [] && b != [] {
      AlikeLengths(a[1..], b[1..]);
    }
  }

  lemma {:induction false} AlikeKeys(a: seq<Field>, b: seq<Field>)
    requires AlikeFields(a, b)
    ensures |a| == |b| && forall i | 0 <= i < |a| :: a[i].key == b[i].key
  {
    if a != [] && b != [] {
      AlikeKeys(a[1..], b[1..]);
      forall i | 0 <= i < |a| ensures |a| == |b| && a[i].key == b[i].key {
        assert i > 0 ==> a[i] == a[1..][i - 1] && b[i] == b[1..][i - 1];
      }
    }
  }

  lemma EqIsNotInText()
    ensures !IsInText("$eq")
  {
    SplitWithout("$eq", '.');
    NoBracketSegments([], ["$eq"]);
  }

  lemma AlikeElements(rest: string, a: Json, b: Json)
    requires Alike(a, b)
    requires !IsInText(rest)
    ensures Alike(ElementFilter(rest, a), ElementFilter(rest, b))
  {
    if a.JObj? {
      AlikeKeys(a.fields, b.fields);
      assert IsOperatorObject(a) <==> IsOperatorObject(b);
    }
    var key := if rest != "" then rest else "$eq";
    assert !IsInText("$eq") by {
      EqIsNotInText();
    }
    assert [Field(key, a)][1..] == [] && [Field(key, b)][1..] == [];
    assert AlikeFields([], []);
    assert !IsInText(key) ==> AlikeFields([Field(key, a)], [Field(key, b)]);
  }

  // -------------------------------------------------------------- leaf parts

  predicate SameText(a: Parts, b: Parts)
  {
    a.Ok? && b.Ok? ==> PartTexts(a.value) == PartTexts(b.value)
  }

  predicate SamePlanText(a: Plan, b: Plan)
  {
    a.Ok? && b.Ok? ==> DisjTokens(a.value, false) == DisjTokens(b.value, false)
  }

  lemma ComparePartShape(e: SqlExpr, op: CmpOp, a: Json, b: Json)
    ensures SameText(ComparePart(e, op, a), ComparePart(e, op, b))
  {
    var x, y := ToSql(a), ToSql(b);
    if x.Ok? && y.Ok? {
      ComparePartText(e, op, x.value);
      ComparePartText(e, op, y.value);
    }
  }

  lemma LikePartShape(e: SqlExpr, name: string, folded: bool, before: string, after: string, a: Json, b: Json)
    ensures SameText(LikePart(e, name, a, folded, before, after), LikePart(e, name, b, folded, before, after))
  {
    if a.JStr? && b.JStr? {
      var p, q := before + a.s + after, before + b.s + after;
      OnePart(Test(LikeTest(e, folded, p)));
      OnePart(Test(LikeTest(e, folded, q)));
      LikeText(e, folded, p);
      LikeText(e, folded, q);
    }
  }

  lemma MemberPartShape(e: SqlExpr, name: string, negated: bool, a: Json, b: Json)
    requires Alike(a, b)
    ensures SameText(MemberPart(e, name, a, negated), MemberPart(e, name, b, negated))
  {
    var x, y := ListValues(name, a), ListValues(name, b);
    if x.Ok? && y.Ok? {
      AlikeLengths(a.items, b.items);
      MemberOfText(e, negated, x.value);
      MemberOfText(e, negated, y.value);
      OnePart(MemberOf(e, negated, x.value));
      OnePart(MemberOf(e, negated, y.value));
    }
  }

  lemma IncludesPartShape(arr: SqlExpr, negated: bool, a: Json, b: Json)
    ensures SameText(IncludesPart(arr, a, negated), IncludesPart(arr, b, negated))
  {
    var x, y := ToSql(a), ToSql(b);
    if x.Ok? && y.Ok? {
      ElementEqualsText(arr, x.value);
      ElementEqualsText(arr, y.value);
      var f, g := ElementEquals(arr, x.value), ElementEquals(arr, y.value);
      OnePart(if negated then Neg(f) else f);
      OnePart(if negated then Neg(g) else g);
    }
  }

  lemma AnyPartShape(arr: SqlExpr, name: string, negated: bool, a: Json, b: Json)
    requires Alike(a, b)
    ensures SameText(AnyPart(arr, name, a, negated), AnyPart(arr, name, b, negated))
  {
    var x, y := ListValues(name, a), ListValues(name, b);
    if x.Ok? && y.Ok? {
      AlikeLengths(a.items, b.items);
      SomeMemberText(arr, x.value);
      SomeMemberText(arr, y.value);
      var f := SomeElement(arr, MemberOf(RowValue(Je), false, x.value));
      var g := SomeElement(arr, MemberOf(RowValue(Je), false, y.value));
      OnePart(if negated then Neg(f) else f);
      OnePart(if negated then Neg(g) else g);
    }
  }

  lemma AllPartShape(arr: SqlExpr, name: string, a: Json, b: Json)
    requires Alike(a, b)
    ensures SameText(AllPart(arr, name, a), AllPart(arr, name, b))
  {
    var x, y := ListValues(name, a), ListValues(name, b);
    if x.Ok? && y.Ok? {
      AlikeLengths(a.items, b.items);
      EveryElementText(arr, x.value);
      EveryElementText(arr, y.value);
      var ps, qs := EveryElement(arr, x.value), EveryElement(arr, y.value);
      assert PartTexts(ps) == PartTexts(qs);
      JoinAllText(ps);
      JoinAllText(qs);
      OnePart(Group(JoinAll(ps)));
      OnePart(Group(JoinAll(qs)));
    }
  }

  lemma BetweenPartShape(e: SqlExpr, name: string, a: Json, b: Json)
    ensures SameText(BetweenPart(e, name, a), BetweenPart(e, name, b))
  {
    var p, q := BetweenPart(e, name, a), BetweenPart(e, name, b);
    if p.Ok? && q.Ok? {
      OnePart(p.value[0].c.f);
      OnePart(q.value[0].c.f);
    }
  }

  lemma RegexPartShape(e: SqlExpr, name: string, a: Json, b: Json)
    ensures SameText(RegexPart(e, name, a), RegexPart(e, name, b))
  {
    if a.JStr? && b.JStr? {
      ComparePartText(e, REGEXP, Text(a.s));
      ComparePartText(e, REGEXP, Text(b.s));
    }
  }

  lemma {:induction false} SizesShape(size: SqlExpr, a: seq<Field>, b: seq<Field>)
    requires AlikeFields(a, b)
    ensures SameText(PlanSizes(size, a), PlanSizes(size, b))
  {
    if a != [] && b != [] && PlanSizes(size, a).Ok? && PlanSizes(size, b).Ok? {
      SizesShape(size, a[1..], b[1..]);
      var x, y := SizeField(size, a[0]).value, SizeField(size, b[0]).value;
      ComparePartText(size, OpOf(a[0].key).cmp, Integer(a[0].value.i));
      ComparePartText(size, OpOf(a[0].key).cmp, Integer(b[0].value.i));
      PartsAppend([x], PlanSizes(size, a[1..]).value);
      PartsAppend([y], PlanSizes(size, b[1..]).value);
    }
  }

  lemma SizePartShape(size: SqlExpr, a: Json, b: Json)
    requires Alike(a, b)
    ensures SameText(PlanSize(size, a), PlanSize(size, b))
  {
    if a.JObj? {
      SizesShape(size, a.fields, b.fields);
    } else if a.JInt? && b.JInt? {
      ComparePartText(size, EQ, Integer(a.i));
      ComparePartText(size, EQ, Integer(b.i));
    }
  }

  lemma LeafShape(op: Op, name: string, a: Json, b: Json, scalar: SqlExpr, arr: SqlExpr)
    requires Alike(a, b) && ((op == ExistsOp || op == TypeIs) ==> a == b)
    ensures SameText(LeafPart(op, name, a, scalar, arr), LeafPart(op, name, b, scalar, arr))
  {
    match op
    case Comparing(cmp) => ComparePartShape(scalar, cmp, a, b);
    case Like(folded, before, after) => LikePartShape(scalar, name, folded, before, after, a, b);
    case ExistsOp =>
    case Regex => RegexPartShape(scalar, name, a, b);
    case InList(negated) => MemberPartShape(scalar, name, negated, a, b);
    case Between => BetweenPartShape(scalar, name, a, b);
    case Size => SizePartShape(ArrayLength(arr), a, b);
    case TypeIs =>
    case Includes(negated) => IncludesPartShape(arr, negated, a, b);
    case AnyOf(negated) => AnyPartShape(arr, name, negated, a, b);
    case AllOf => AllPartShape(arr, name, a, b);
    case _ =>
  }

  // ----------------------------------------------------------------- filters

  lemma {:induction false} FilterShape(base: SqlExpr, a: Json, b: Json, elem: bool)
    requires Alike(a, b)
    ensures SamePlanText(PlanFilter(base, a, elem), PlanFilter(base, b, elem))
    decreases Weight(a), 0
  {
    if a.JObj? && a.fields != [] && PlanFilter(base, a, elem).Ok? && PlanFilter(base, b, elem).Ok? {
      EntriesShape(base, a.fields, b.fields, elem);
      JoinAllText(PlanEntries(base, a.fields, elem).value);
      JoinAllText(PlanEntries(base, b.fields, elem).value);
    }
  }

  lemma {:induction false} EntriesShape(base: SqlExpr, a: seq<Field>, b: seq<Field>, elem: bool)
    requires AlikeFields(a, b)
    ensures SameText(PlanEntries(base, a, elem), PlanEntries(base, b, elem))
    decreases FieldsWeight(a), 0
  {
    if a != [] && b != [] && PlanEntries(base, a, elem).Ok? && PlanEntries(base, b, elem).Ok? {
      AlikeSelf(a[0].value);
      EntryShape(base, a[0], b[0], elem);
      EntriesShape(base, a[1..], b[1..], elem);
      PartsAppend(PlanEntry(base, a[0].key, a[0].value, elem).value, PlanEntries(base, a[1..], elem).value);
      PartsAppend(PlanEntry(base, b[0].key, b[0].value, elem).value, PlanEntries(base, b[1..], elem).value);
    }
  }

  lemma {:induction false} ArmsShape(base: SqlExpr, a: seq<Json>, b: seq<Json>, elem: bool)
    requires AlikeItems(a, b)
    ensures SameText(PlanArms(base, a, elem), PlanArms(base, b, elem))
    decreases ItemsWeight(a), 1
  {
    if a != [] && b != [] && PlanArms(base, a, elem).Ok? && PlanArms(base, b, elem).Ok? {
      FilterShape(base, a[0], b[0], elem);
      ArmsShape(base, a[1..], b[1..], elem);
      var x, y := Group(PlanFilter(base, a[0], elem).value), Group(PlanFilter(base, b[0], elem).value);
      OnePart(x);
      OnePart(y);
      PartsAppend([Alone(x)], PlanArms(base, a[1..], elem).value);
      PartsAppend([Alone(y)], PlanArms(base, b[1..], elem).value);
    }
  }

  /** The same key with values alike, equal where they are written into the text. */
  predicate AlikeField(a: Field, b: Field)
  {
    a.key == b.key && Alike(a.value, b.value) && (IsInText(a.key) ==> a.value == b.value)
  }

  lemma {:induction false} EntryShape(base: SqlExpr, a: Field, b: Field, elem: bool)
    requires AlikeField(a, b)
    ensures SameText(PlanEntry(base, a.key, a.value, elem), PlanEntry(base, b.key, b.value, elem))
    decreases KeyWeight(a.key) + Weight(a.value), 4
  {
    if IsLogical(a.key) {
      LogicalShape(base, a.key, a.value, b.value, elem);
    } else if a.key == "$not" {
      FilterShape(base, a.value, b.value, elem);
      var p, q := PlanFilter(base, a.value, elem), PlanFilter(base, b.value, elem);
      if p.Ok? && q.Ok? {
        OnePart(Neg(Group(p.value)));
        OnePart(Neg(Group(q.value)));
      }
    } else if elem && IsDollar(a.key) {
      InTextNames(a.key);
      OpShape(OpOf(a.key), a.key, a.value, b.value, Parens(base), ExtractRoot(base));
    } else {
      if a.value != b.value {
        FieldShape(base, a.key, a.value, b.value);
      }
      var p, q := PlanField(base, a.key, a.value), PlanField(base, b.key, b.value);
      if p.Ok? && q.Ok? {
        SinglePart(p.value);
        SinglePart(q.value);
      }
    }
  }

  lemma InTextNames(op: string)
    ensures OpOf(op) == ExistsOp || OpOf(op) == TypeIs ==> IsInText(op)
  {
  }

  lemma {:induction false} LogicalShape(base: SqlExpr, key: string, a: Json, b: Json, elem: bool)
    requires IsLogical(key) && Alike(a, b)
    ensures SameText(PlanLogical(base, key, a, elem), PlanLogical(base, key, b, elem))
    decreases Weight(a), 3
  {
    if PlanLogical(base, key, a, elem).Ok? && PlanLogical(base, key, b, elem).Ok? {
      var x, y := PlanArms(base, a.items, elem).value, PlanArms(base, b.items, elem).value;
      ArmsShape(base, a.items, b.items, elem);
      CombineText(key, x);
      CombineText(key, y);
    }
  }

  lemma CombineText(key: string, arms: seq<Disj>)
    ensures PartTexts([Combine(key, arms)]) ==
              [if key == "$nor" then [NOT] + Closed(LPAREN, JoinTexts(PartTexts(arms), OR))
               else JoinTexts(PartTexts(arms), if key == "$and" then AND else OR)]
  {
    JoinAllText(arms);
    JoinAnyText(arms);
    AloneText(Neg(Group(JoinAny(arms))));
    SinglePart(Combine(key, arms));
  }

  lemma {:induction false} FieldShape(base: SqlExpr, path: string, a: Json, b: Json)
    requires Alike(a, b) && !IsInText(path)
    ensures SamePlanText(PlanField(base, path, a), PlanField(base, path, b))
    decreases KeyWeight(path) + Weight(a), 3
  {
    if PlanField(base, path, a).Ok? && PlanField(base, path, b).Ok? {
      if CountBracketPairs(path) > 1 {
        TreeShape(base, path, a, b);
      } else {
        match SplitFirstArray(path)
        case Ok(Some((arrayPath, rest))) =>
          ArrayShape(base, path, a, b, arrayPath, rest);
        case Ok(None) =>
          TestsShape(a, b, Arrow(base, path), Extract(base, path));
          JoinAllText(PlanTests(a, Arrow(base, path), Extract(base, path)).value);
          JoinAllText(PlanTests(b, Arrow(base, path), Extract(base, path)).value);
        case Err(_) =>
      }
    }
  }

  lemma {:induction false} ArrayShape(base: SqlExpr, path: string, a: Json, b: Json, arrayPath: string, rest: string)
    requires Alike(a, b) && !IsInText(path)
    requires CountBracketPairs(path) <= 1 && SplitFirstArray(path) == Ok(Some((arrayPath, rest)))
    requires PlanField(base, path, a).Ok? && PlanField(base, path, b).Ok?
    ensures SamePlanText(PlanField(base, path, a), PlanField(base, path, b))
    decreases KeyWeight(path) + Weight(a), 2
  {
    ArrayRewriteDecreases(path, a);
    ArrayFieldIsElemMatch(base, path, a);
    ArrayFieldIsElemMatch(base, path, b);
    AlikeElements(rest, a, b);
    var p, q := ElementFilter(rest, a), ElementFilter(rest, b);
    ElemMatchShape(Extract(base, arrayPath), p, q);
  }

  lemma {:induction false} TreeShape(base: SqlExpr, path: string, a: Json, b: Json)
    requires Alike(a, b)
    ensures SamePlanText(PlanTreeField(base, path, a), PlanTreeField(base, path, b))
    decreases KeyWeight(path) + Weight(a), 2
  {
    if PlanTreeField(base, path, a).Ok? && PlanTreeField(base, path, b).Ok? {
      var alias := Tree(base, path);
      var guard := FullkeyTest(alias, FullkeyPattern(path).value);
      TestsShape(a, b, RowAtom(alias), RowValue(alias));
      EmitNode(TreeRow(base, alias), guard, PlanTests(a, RowAtom(alias), RowValue(alias)).value);
      EmitNode(TreeRow(base, alias), guard, PlanTests(b, RowAtom(alias), RowValue(alias)).value);
    }
  }

  lemma {:induction false} TestsShape(a: Json, b: Json, scalar: SqlExpr, arr: SqlExpr)
    requires Alike(a, b)
    ensures SameText(PlanTests(a, scalar, arr), PlanTests(b, scalar, arr))
    decreases Weight(a), 0
  {
    if a.JObj? {
      OpsShape(a.fields, b.fields, scalar, arr);
    } else {
      ComparePartShape(scalar, EQ, a, b);
    }
  }

  lemma {:induction false} OpsShape(a: seq<Field>, b: seq<Field>, scalar: SqlExpr, arr: SqlExpr)
    requires AlikeFields(a, b)
    ensures SameText(PlanOps(a, scalar, arr), PlanOps(b, scalar, arr))
    decreases FieldsWeight(a), 0
  {
    if a != [] && b != [] && PlanOps(a, scalar, arr).Ok? && PlanOps(b, scalar, arr).Ok? {
      var f, g := a[0], b[0];
      InTextNames(f.key);
      AlikeSelf(f.value);
      OpShape(OpOf(f.key), f.key, f.value, g.value, scalar, arr);
      OpsShape(a[1..], b[1..], scalar, arr);
      PartsAppend(PlanOp(OpOf(f.key), f.key, f.value, scalar, arr).value, PlanOps(a[1..], scalar, arr).value);
      PartsAppend(PlanOp(OpOf(g.key), g.key, g.value, scalar, arr).value, PlanOps(b[1..], scalar, arr).value);
    }
  }

  lemma {:induction false} OpShape(op: Op, name: string, a: Json, b: Json, scalar: SqlExpr, arr: SqlExpr)
    requires Alike(a, b) && ((op == ExistsOp || op == TypeIs) ==> a == b)
    ensures SameText(PlanOp(op, name, a, scalar, arr), PlanOp(op, name, b, scalar, arr))
    decreases Weight(a), 2
  {
    if op == ElemMatch {
      ElemMatchShape(arr, a, b);
      var p, q := PlanElemMatch(arr, a), PlanElemMatch(arr, b);
      if p.Ok? && q.Ok? {
        SinglePart(p.value);
        SinglePart(q.value);
      }
    } else {
      LeafShape(op, name, a, b, scalar, arr);
    }
  }

  lemma {:induction false} ElemMatchShape(arr: SqlExpr, a: Json, b: Json)
    requires Alike(a, b)
    ensures SamePlanText(PlanElemMatch(arr, a), PlanElemMatch(arr, b))
    decreases Weight(a), 1
  {
    FilterShape(RowValue(Each(arr)), a, b, true);
    var p, q := PlanElemMatch(arr, a), PlanElemMatch(arr, b);
    if p.Ok? && q.Ok? {
      AloneText(p.value.c.f);
      AloneText(q.value.c.f);
    }
  }

  /** Two accepted filters of the same shape have the same SQL text and the same number of binds. */
  lemma SameShapeSameText(base: string, a: Json, b: Json)
    requires Alike(a, b) && WhereOf(base, a).Ok? && WhereOf(base, b).Ok?
    ensures WhereOf(base, a).value.sql == WhereOf(base, b).value.sql
    ensures |WhereOf(base, a).value.binds| == |WhereOf(base, b).value.binds|
  {
    FilterShape(Column(base), a, b, false);
    TextIsWellFormed(base, a);
    TextIsWellFormed(base, b);
  }
}
