/**
 The filter compiler as the source runs it: loops that push pieces of text and
 bind values onto growing vectors. Each method is proved to emit the text and the
 binds of the planned expression, or to fail with the planned error.
 */
module JqlCompiler {
  import opened Prelude
  import opened Strings
  import opened SqlText
  import opened JqlFilter
  import opened JqlPlan

  datatype CompiledWhere = CompiledWhere(sql: seq<Token>, binds: seq<SqlValue>)

  type Compiled = Result<CompiledWhere, FilterError>
  type Done = Result<(), FilterError>

  /** The text of a planned expression, with a `?` for every value, and the values in text order. */
  function Emit(plan: Plan): Compiled
  {
    match plan
    case Err(e) => Err(e)
    case Ok(d) => Ok(CompiledWhere(DisjTokens(d, false), DisjBinds(d)))
  }

  function PartTexts(parts: seq<Disj>): seq<seq<Token>>
  {
    if parts == [] then [] else [DisjTokens(parts[0], false)] + PartTexts(parts[1..])
  }

  function PartBinds(parts: seq<Disj>): seq<SqlValue>
  {
    if parts == [] then [] else DisjBinds(parts[0]) + PartBinds(parts[1..])
  }

  /** The `parts` and `binds` vectors that are passed around by mutable reference. */
  class SqlBuffer {
    var parts: seq<seq<Token>>
    var binds: seq<SqlValue>

    constructor ()
      ensures parts == [] && binds == []
    {
      parts, binds := [], [];
    }

    /** This buffer holds what it held before and the planned parts, unless the plan is an error. */
    ghost predicate Gained(parts0: seq<seq<Token>>, binds0: seq<SqlValue>, plan: Parts, r: Done)
      reads this
    {
      match plan
      case Err(e) => r == Err(e)
      case Ok(ps) => r == Ok(()) && parts == parts0 + PartTexts(ps) && binds == binds0 + PartBinds(ps)
    }
  }

  // ------------------------------------------------------------ text lemmas

  lemma {:induction false} PartsAppend(a: seq<Disj>, b: seq<Disj>)
    ensures PartTexts(a + b) == PartTexts(a) + PartTexts(b)
    ensures PartBinds(a + b) == PartBinds(a) + PartBinds(b)
  {
    if a == [] {
      assert a + b == b;
    } else {
      assert (a + b)[1..] == a[1..] + b;
      PartsAppend(a[1..], b);
    }
  }

  /** Pushing one more step onto what was gained so far. */
  lemma GainStep(parts0: seq<seq<Token>>, binds0: seq<SqlValue>, seen: seq<Disj>, step: seq<Disj>)
    ensures parts0 + PartTexts(seen) + PartTexts(step) == parts0 + PartTexts(seen + step)
    ensures binds0 + PartBinds(seen) + PartBinds(step) == binds0 + PartBinds(seen + step)
  {
    PartsAppend(seen, step);
  }

  lemma SinglePart(d: Disj)
    ensures PartTexts([d]) == [DisjTokens(d, false)]
    ensures PartBinds([d]) == DisjBinds(d)
  {
    assert [d][1..] == [];
    assert PartTexts([]) == [] && PartBinds([]) == [];
  }

  lemma AloneText(f: Factor)
    ensures DisjTokens(Alone(f), false) == FactorTokens(f, false)
    ensures DisjBinds(Alone(f)) == FactorBinds(f)
  {
    assert DisjTokens(Alone(f), false) == ConjTokens(Just(f), false);
    assert DisjBinds(Alone(f)) == ConjBinds(Just(f));
  }

  lemma OnePart(f: Factor)
    ensures PartTexts([Alone(f)]) == [FactorTokens(f, false)]
    ensures PartBinds([Alone(f)]) == FactorBinds(f)
  {
    SinglePart(Alone(f));
    AloneText(f);
  }

  lemma {:induction false} TextCount(parts: seq<Disj>)
    ensures |PartTexts(parts)| == |parts|
  {
    if parts != [] {
      TextCount(parts[1..]);
    }
  }

  lemma {:induction false} JoinAllText(parts: seq<Disj>)
    ensures DisjTokens(JoinAll(parts), false) == JoinTexts(PartTexts(parts), AND)
    ensures DisjBinds(JoinAll(parts)) == PartBinds(parts)
  {
    if parts == [] {
      AloneText(Blank);
    } else if |parts| == 1 {
      SinglePart(parts[0]);
      assert parts == [parts[0]];
    } else {
      JoinAllText(parts[1..]);
      JoinAndText(parts[0], JoinAll(parts[1..]), false);
      TextCount(parts);
      assert PartTexts(parts)[1..] == PartTexts(parts[1..]);
    }
  }

  lemma {:induction false} JoinAnyText(arms: seq<Disj>)
    ensures DisjTokens(JoinAny(arms), false) == JoinTexts(PartTexts(arms), OR)
    ensures DisjBinds(JoinAny(arms)) == PartBinds(arms)
  {
    if arms == [] {
      AloneText(Blank);
    } else if |arms| == 1 {
      SinglePart(arms[0]);
      assert arms == [arms[0]];
    } else {
      JoinAnyText(arms[1..]);
      JoinOrText(arms[0], JoinAny(arms[1..]), false);
      TextCount(arms);
      assert PartTexts(arms)[1..] == PartTexts(arms[1..]);
    }
  }

  /** One comparison with a `?`, alone as a part. */
  lemma ComparePartText(e: SqlExpr, op: CmpOp, v: SqlValue)
    ensures var d := TestOf(Compare(e, op, Plain(v)));
            && DisjTokens(d, false) == [OPERAND(e), CMP(op), PARAM] && DisjBinds(d) == [v]
            && PartTexts([d]) == [[OPERAND(e), CMP(op), PARAM]] && PartBinds([d]) == [v]
  {
    OnePart(Test(Compare(e, op, Plain(v))));
    AloneText(Test(Compare(e, op, Plain(v))));
    assert PredTokens(Compare(e, op, Plain(v)), false) == [OPERAND(e), CMP(op), PARAM];
  }

  /** `vec!["?"; n].join(", ")`. */
  function Placeholders(n: nat): seq<Token>
  {
    if n == 0 then [] else if n == 1 then [PARAM] else [PARAM, COMMA] + Placeholders(n - 1)
  }

  lemma {:induction false} PlaceholdersText(vs: seq<SqlValue>)
    ensures [PARAM] + ListTail(vs, false) == Placeholders(1 + |vs|) + [RPAREN]
  {
    if vs != [] {
      PlaceholdersText(vs[1..]);
      assert ListTail(vs, false) == [COMMA] + ([PARAM] + ListTail(vs[1..], false));
    }
  }

  /** `expr [NOT] IN (?, …, ?)`. */
  function MemberText(e: SqlExpr, negated: bool, n: nat): seq<Token>
  {
    (if negated then [OPERAND(e), NOT, IN] else [OPERAND(e), IN]) + Closed(LPAREN, Placeholders(n))
  }

  lemma MemberOfText(e: SqlExpr, negated: bool, vs: seq<SqlValue>)
    requires vs != []
    ensures FactorTokens(MemberOf(e, negated, vs), false) == MemberText(e, negated, |vs|)
    ensures FactorBinds(MemberOf(e, negated, vs)) == vs
  {
    PlaceholdersText(vs[1..]);
    assert MemberList(vs[0], vs[1..], false) == [LPAREN] + ([PARAM] + ListTail(vs[1..], false));
    assert vs == [vs[0]] + vs[1..];
  }

  /** `EXISTS (SELECT 1 FROM json_each(array) je WHERE je.value = ?)`. */
  function ElementText(arr: SqlExpr): seq<Token>
  {
    Closed(EXISTS(EachRow(arr, Je)), [OPERAND(RowValue(Je)), CMP(EQ), PARAM])
  }

  lemma ElementEqualsText(arr: SqlExpr, v: SqlValue)
    ensures FactorTokens(ElementEquals(arr, v), false) == ElementText(arr)
    ensures FactorBinds(ElementEquals(arr, v)) == [v]
  {
    AloneText(Test(Compare(RowValue(Je), EQ, Plain(v))));
  }

  lemma SomeMemberText(arr: SqlExpr, vs: seq<SqlValue>)
    requires vs != []
    ensures FactorTokens(SomeElement(arr, MemberOf(RowValue(Je), false, vs)), false)
         == Closed(EXISTS(EachRow(arr, Je)), MemberText(RowValue(Je), false, |vs|))
    ensures FactorBinds(SomeElement(arr, MemberOf(RowValue(Je), false, vs))) == vs
  {
    AloneText(MemberOf(RowValue(Je), false, vs));
    MemberOfText(RowValue(Je), false, vs);
  }

  /** What a loop answers that has already produced `seen` and has `rest` still to produce. */
  function After<T>(seen: seq<T>, rest: Result<seq<T>, FilterError>): Result<seq<T>, FilterError>
  {
    match rest
    case Err(e) => Err(e)
    case Ok(ts) => Ok(seen + ts)
  }

  lemma AfterNothing<T>(rest: Result<seq<T>, FilterError>)
    ensures After([], rest) == rest
  {
    if rest.Ok? {
      assert [] + rest.value == rest.value;
    }
  }

  lemma AfterStep<T>(seen: seq<T>, step: seq<T>, rest: Result<seq<T>, FilterError>)
    ensures After(seen, After(step, rest)) == After(seen + step, rest)
  {
    if rest.Ok? {
      assert seen + (step + rest.value) == seen + step + rest.value;
    }
  }

  // ---------------------------------------------------------- leaf operators

  method PushCompare(scalar: SqlExpr, op: CmpOp, operand: Json, out: SqlBuffer) returns (r: Done)
    modifies out
    ensures out.Gained(old(out.parts), old(out.binds), ComparePart(scalar, op, operand), r)
  {
    out.parts := out.parts + [[OPERAND(scalar), CMP(op), PARAM]];
    var v :- ToSql(operand);
    out.binds := out.binds + [v];
    ComparePartText(scalar, op, v);
    return Ok(());
  }

  method PushExists(scalar: SqlExpr, operand: Json, out: SqlBuffer) returns (r: Done)
    modifies out
    ensures out.Gained(old(out.parts), old(out.binds), ExistsPart(scalar, operand), r)
  {
    if !operand.JBool? {
      return Err(NeedsBool);
    }
    if operand.b {
      out.parts := out.parts + [[OPERAND(scalar), IS_NOT_NULL]];
    } else {
      out.parts := out.parts + [[OPERAND(scalar), IS_NULL]];
    }
    OnePart(Test(NullTest(scalar, operand.b)));
    return Ok(());
  }

  method PushLike(scalar: SqlExpr, name: string, operand: Json, folded: bool, before: string, after: string,
                  out: SqlBuffer)
    returns (r: Done)
    modifies out
    ensures out.Gained(old(out.parts), old(out.binds), LikePart(scalar, name, operand, folded, before, after), r)
  {
    if !operand.JStr? {
      return Err(NeedsString(name));
    }
    var pattern := before + operand.s + after;
    if folded {
      out.parts := out.parts + [[OPERAND(Lower(scalar)), CMP(LIKE), LOWER, PARAM, RPAREN]];
    } else {
      out.parts := out.parts + [[OPERAND(scalar), CMP(LIKE), PARAM]];
    }
    out.binds := out.binds + [Text(pattern)];
    OnePart(Test(LikeTest(scalar, folded, pattern)));
    LikeText(scalar, folded, pattern);
    return Ok(());
  }

  lemma LikeText(e: SqlExpr, folded: bool, pattern: string)
    ensures FactorTokens(Test(LikeTest(e, folded, pattern)), false)
         == if folded then [OPERAND(Lower(e)), CMP(LIKE), LOWER, PARAM, RPAREN] else [OPERAND(e), CMP(LIKE), PARAM]
    ensures FactorBinds(Test(LikeTest(e, folded, pattern))) == [Text(pattern)]
  {
  }

  method PushRegex(scalar: SqlExpr, name: string, operand: Json, out: SqlBuffer) returns (r: Done)
    modifies out
    ensures out.Gained(old(out.parts), old(out.binds), RegexPart(scalar, name, operand), r)
  {
    if !operand.JStr? {
      return Err(NeedsString(name));
    }
    out.parts := out.parts + [[OPERAND(scalar), CMP(REGEXP), PARAM]];
    out.binds := out.binds + [Text(operand.s)];
    ComparePartText(scalar, REGEXP, Text(operand.s));
    return Ok(());
  }

  /** `for item in arr { binds.push(json_to_sql_value(item)?) }`. */
  method PushValues(items: seq<Json>, out: SqlBuffer) returns (r: Done)
    modifies out`binds
    ensures match ToSqlAll(items)
            case Err(e) => r == Err(e)
            case Ok(vs) => r == Ok(()) && out.binds == old(out.binds) + vs
  {
    ghost var seen: seq<SqlValue> := [];
    assert items[0..] == items;
    AfterNothing(ToSqlAll(items));
    for i := 0 to |items|
      invariant out.binds == old(out.binds) + seen
      invariant ToSqlAll(items) == After(seen, ToSqlAll(items[i..]))
    {
      assert items[i..][1..] == items[i + 1..];
      var v :- ToSql(items[i]);
      out.binds := out.binds + [v];
      AfterStep(seen, [v], ToSqlAll(items[i + 1..]));
      seen := seen + [v];
    }
    assert items[|items|..] == [];
    return Ok(());
  }

  method PushMember(scalar: SqlExpr, name: string, operand: Json, negated: bool, out: SqlBuffer) returns (r: Done)
    modifies out
    ensures out.Gained(old(out.parts), old(out.binds), MemberPart(scalar, name, operand, negated), r)
  {
    var items :- ListOperand(name, operand);
    out.parts := out.parts + [MemberText(scalar, negated, |items|)];
    var _ :- PushValues(items, out);
    ghost var vs := ToSqlAll(items).value;
    MemberOfText(scalar, negated, vs);
    OnePart(MemberOf(scalar, negated, vs));
    return Ok(());
  }

  method PushBetween(scalar: SqlExpr, name: string, operand: Json, out: SqlBuffer) returns (r: Done)
    modifies out
    ensures out.Gained(old(out.parts), old(out.binds), BetweenPart(scalar, name, operand), r)
  {
    if !operand.JArr? {
      return Err(NeedsArray(name));
    }
    if |operand.items| != 2 {
      return Err(NeedsPair);
    }
    out.parts := out.parts + [[OPERAND(scalar), BETWEEN, PARAM, AND, PARAM]];
    var lo :- ToSql(operand.items[0]);
    out.binds := out.binds + [lo];
    var hi :- ToSql(operand.items[1]);
    out.binds := out.binds + [hi];
    OnePart(Test(Range(scalar, lo, hi)));
    return Ok(());
  }

  method PushIncludes(arr: SqlExpr, operand: Json, negated: bool, out: SqlBuffer) returns (r: Done)
    modifies out
    ensures out.Gained(old(out.parts), old(out.binds), IncludesPart(arr, operand, negated), r)
  {
    var text := ElementText(arr);
    out.parts := out.parts + [if negated then [NOT] + text else text];
    var v :- ToSql(operand);
    out.binds := out.binds + [v];
    ElementEqualsText(arr, v);
    OnePart(ElementEquals(arr, v));
    OnePart(Neg(ElementEquals(arr, v)));
    return Ok(());
  }

  method PushAny(arr: SqlExpr, name: string, operand: Json, negated: bool, out: SqlBuffer) returns (r: Done)
    modifies out
    ensures out.Gained(old(out.parts), old(out.binds), AnyPart(arr, name, operand, negated), r)
  {
    var items :- ListOperand(name, operand);
    var text := Closed(EXISTS(EachRow(arr, Je)), MemberText(RowValue(Je), false, |items|));
    out.parts := out.parts + [if negated then [NOT] + text else text];
    var _ :- PushValues(items, out);
    ghost var vs := ToSqlAll(items).value;
    ghost var some := SomeElement(arr, MemberOf(RowValue(Je), false, vs));
    SomeMemberText(arr, vs);
    OnePart(some);
    OnePart(Neg(some));
    return Ok(());
  }

  lemma {:induction false} EveryElementText(arr: SqlExpr, vs: seq<SqlValue>)
    ensures PartTexts(EveryElement(arr, vs))
         == seq(|vs|, i => ElementText(arr))
    ensures PartBinds(EveryElement(arr, vs)) == vs
  {
    if vs != [] {
      var f := ElementEquals(arr, vs[0]);
      EveryElementText(arr, vs[1..]);
      ElementEqualsText(arr, vs[0]);
      OnePart(f);
      PartsAppend([Alone(f)], EveryElement(arr, vs[1..]));
      assert vs == [vs[0]] + vs[1..];
    }
  }

  method PushAll(arr: SqlExpr, name: string, operand: Json, out: SqlBuffer) returns (r: Done)
    modifies out
    ensures out.Gained(old(out.parts), old(out.binds), AllPart(arr, name, operand), r)
  {
    var items :- ListOperand(name, operand);
    var text := ElementText(arr);
    var allParts: seq<seq<Token>> := [];
    for i := 0 to |items|
      invariant allParts == seq(i, _ => text)
    {
      allParts := allParts + [text];
    }
    out.parts := out.parts + [Closed(LPAREN, JoinTexts(allParts, AND))];
    var _ :- PushValues(items, out);
    ghost var vs := ToSqlAll(items).value;
    ghost var d := JoinAll(EveryElement(arr, vs));
    EveryElementText(arr, vs);
    assert allParts == PartTexts(EveryElement(arr, vs));
    JoinAllText(EveryElement(arr, vs));
    OnePart(Group(d));
    return Ok(());
  }

  method CompileSizePredicate(size: SqlExpr, operand: Json, out: SqlBuffer) returns (r: Done)
    modifies out
    ensures out.Gained(old(out.parts), old(out.binds), PlanSize(size, operand), r)
  {
    if operand.JInt? {
      out.parts := out.parts + [[OPERAND(size), CMP(EQ), PARAM]];
      out.binds := out.binds + [Integer(operand.i)];
      ComparePartText(size, EQ, Integer(operand.i));
      return Ok(());
    }
    if !operand.JObj? {
      return Err(BadSize);
    }
    r := CompileSizeOperators(size, operand.fields, out);
  }

  method CompileSizeOperators(size: SqlExpr, fields: seq<Field>, out: SqlBuffer) returns (r: Done)
    modifies out
    ensures out.Gained(old(out.parts), old(out.binds), PlanSizes(size, fields), r)
  {
    ghost var parts0, binds0, seen: seq<Disj> := out.parts, out.binds, [];
    assert fields[0..] == fields;
    AfterNothing(PlanSizes(size, fields));
    for i := 0 to |fields|
      invariant out.Gained(parts0, binds0, Ok(seen), Ok(()))
      invariant PlanSizes(size, fields) == After(seen, PlanSizes(size, fields[i..]))
    {
      var f := fields[i];
      assert fields[i..][1..] == fields[i + 1..];
      if !f.value.JInt? {
        return Err(BadSizeOperand(f.key));
      }
      var op := OpOf(f.key);
      if !op.Comparing? {
        return Err(UnsupportedSizeOp(f.key));
      }
      out.parts := out.parts + [[OPERAND(size), CMP(op.cmp), PARAM]];
      out.binds := out.binds + [Integer(f.value.i)];
      ghost var part := SizeField(size, f).value;
      ComparePartText(size, op.cmp, Integer(f.value.i));
      GainStep(parts0, binds0, seen, [part]);
      AfterStep(seen, [part], PlanSizes(size, fields[i + 1..]));
      seen := seen + [part];
    }
    assert fields[|fields|..] == [];
    assert seen + [] == seen;
    return Ok(());
  }

  lemma EitherTypeText(t: SqlExpr, a: string, b: string)
    ensures var f := EitherType(t, a, b).c.f;
            && FactorTokens(f, false)
            == Closed(LPAREN, [OPERAND(t), CMP(EQ), LITERAL(a)] + [OR] + [OPERAND(t), CMP(EQ), LITERAL(b)])
            && FactorBinds(f) == []
  {
    var left, right := Test(Compare(t, EQ, Quoted(a))), Test(Compare(t, EQ, Quoted(b)));
    AloneText(right);
    assert ConjTokens(Just(left), false) == FactorTokens(left, false);
    assert ConjBinds(Just(left)) == [];
    var d := Or(Just(left), Alone(right));
    assert DisjTokens(d, false) == FactorTokens(left, false) + [OR] + FactorTokens(right, false);
    assert DisjBinds(d) == [];
  }

  method CompileTypePredicate(t: SqlExpr, name: string, out: SqlBuffer) returns (r: Done)
    modifies out
    ensures out.Gained(old(out.parts), old(out.binds), PlanType(t, name), r)
  {
    if name == "number" || name == "boolean" {
      var a, b := if name == "number" then "integer" else "true", if name == "number" then "real" else "false";
      out.parts := out.parts
        + [Closed(LPAREN, [OPERAND(t), CMP(EQ), LITERAL(a)] + [OR] + [OPERAND(t), CMP(EQ), LITERAL(b)])];
      EitherTypeText(t, a, b);
      OnePart(EitherType(t, a, b).c.f);
      return Ok(());
    }
    if name != "string" && !IsTypeName(name) {
      return Err(UnsupportedType(name));
    }
    var v := Text(if name == "string" then "text" else name);
    out.parts := out.parts + [[OPERAND(t), CMP(EQ), PARAM]];
    out.binds := out.binds + [v];
    ComparePartText(t, EQ, v);
    return Ok(());
  }

  method PushType(t: SqlExpr, name: string, operand: Json, out: SqlBuffer) returns (r: Done)
    modifies out
    ensures out.Gained(old(out.parts), old(out.binds), TypePart(t, name, operand), r)
  {
    if !operand.JStr? {
      return Err(NeedsString(name));
    }
    r := CompileTypePredicate(t, operand.s, out);
  }

  /** Every operator but `$elemMatch`. */
  method PushLeaf(op: Op, name: string, operand: Json, scalar: SqlExpr, arr: SqlExpr, out: SqlBuffer)
    returns (r: Done)
    modifies out
    ensures out.Gained(old(out.parts), old(out.binds), LeafPart(op, name, operand, scalar, arr), r)
  {
    match op
    case Comparing(cmp) => r := PushCompare(scalar, cmp, operand, out);
    case Like(folded, before, after) => r := PushLike(scalar, name, operand, folded, before, after, out);
    case ExistsOp => r := PushExists(scalar, operand, out);
    case Regex => r := PushRegex(scalar, name, operand, out);
    case InList(negated) => r := PushMember(scalar, name, operand, negated, out);
    case Between => r := PushBetween(scalar, name, operand, out);
    case Size => r := CompileSizePredicate(ArrayLength(arr), operand, out);
    case TypeIs => r := PushType(TypeOf(arr), name, operand, out);
    case Includes(negated) => r := PushIncludes(arr, operand, negated, out);
    case AnyOf(negated) => r := PushAny(arr, name, operand, negated, out);
    case AllOf => r := PushAll(arr, name, operand, out);
    case _ => r := Err(UnsupportedOp(name));
  }

  // ----------------------------------------------------------------- filters

  method BuildWhere(filter: Json) returns (r: Compiled)
    ensures r == Emit(PlanFilter(Column("data"), filter, false))
  {
    r := CompileFilterOnBase(Column("data"), filter, false);
  }

  method BuildWhereOnBase(baseExpr: string, filter: Json) returns (r: Compiled)
    ensures r == Emit(PlanFilter(Column(baseExpr), filter, false))
  {
    r := CompileFilterOnBase(Column(baseExpr), filter, false);
  }

  lemma EntriesStep(base: SqlExpr, fields: seq<Field>, elem: bool, i: nat, seen: seq<Disj>)
    requires i < |fields|
    requires PlanEntries(base, fields, elem) == After(seen, PlanEntries(base, fields[i..], elem))
    ensures var plan := PlanEntry(base, fields[i].key, fields[i].value, elem);
            PlanEntries(base, fields, elem) ==
              if plan.Err? then Err(plan.error) else After(seen + plan.value, PlanEntries(base, fields[i + 1..], elem))
    ensures FieldsWeight(fields[i..])
         == 1 + KeyWeight(fields[i].key) + Weight(fields[i].value) + FieldsWeight(fields[i + 1..])
  {
    assert fields[i..][1..] == fields[i + 1..];
    var plan := PlanEntry(base, fields[i].key, fields[i].value, elem);
    if plan.Ok? {
      AfterStep(seen, plan.value, PlanEntries(base, fields[i + 1..], elem));
    }
  }

  lemma ArmsStep(base: SqlExpr, items: seq<Json>, elem: bool, i: nat, seen: seq<Disj>)
    requires i < |items|
    requires PlanArms(base, items, elem) == After(seen, PlanArms(base, items[i..], elem))
    ensures var plan := PlanFilter(base, items[i], elem);
            PlanArms(base, items, elem) ==
              if plan.Err? then Err(plan.error)
              else After(seen + [Alone(Group(plan.value))], PlanArms(base, items[i + 1..], elem))
    ensures ItemsWeight(items[i..]) == Weight(items[i]) + ItemsWeight(items[i + 1..])
  {
    assert items[i..][1..] == items[i + 1..];
    var plan := PlanFilter(base, items[i], elem);
    if plan.Ok? {
      AfterStep(seen, [Alone(Group(plan.value))], PlanArms(base, items[i + 1..], elem));
    }
  }

  lemma OpsStep(fields: seq<Field>, scalar: SqlExpr, arr: SqlExpr, i: nat, seen: seq<Disj>)
    requires i < |fields|
    requires PlanOps(fields, scalar, arr) == After(seen, PlanOps(fields[i..], scalar, arr))
    ensures var plan := PlanOp(OpOf(fields[i].key), fields[i].key, fields[i].value, scalar, arr);
            PlanOps(fields, scalar, arr) ==
              if plan.Err? then Err(plan.error) else After(seen + plan.value, PlanOps(fields[i + 1..], scalar, arr))
    ensures FieldsWeight(fields[i..])
         == 1 + KeyWeight(fields[i].key) + Weight(fields[i].value) + FieldsWeight(fields[i + 1..])
  {
    assert fields[i..][1..] == fields[i + 1..];
    var plan := PlanOp(OpOf(fields[i].key), fields[i].key, fields[i].value, scalar, arr);
    if plan.Ok? {
      AfterStep(seen, plan.value, PlanOps(fields[i + 1..], scalar, arr));
    }
  }

  method CompileFilterOnBase(base: SqlExpr, filter: Json, elem: bool) returns (r: Compiled)
    ensures r == Emit(PlanFilter(base, filter, elem))
    decreases Weight(filter), 0
  {
    if filter == JNull || filter == JObj([]) {
      AloneText(Test(OneIsOne));
      return Ok(CompiledWhere([ONE_IS_ONE], []));
    }
    if !filter.JObj? {
      return Err(FilterNotObject);
    }
    var fields := filter.fields;
    var out := new SqlBuffer();
    ghost var seen: seq<Disj> := [];
    assert fields[0..] == fields;
    AfterNothing(PlanEntries(base, fields, elem));
    for i := 0 to |fields|
      invariant out.parts == PartTexts(seen) && out.binds == PartBinds(seen)
      invariant PlanEntries(base, fields, elem) == After(seen, PlanEntries(base, fields[i..], elem))
      invariant FieldsWeight(fields[i..]) <= FieldsWeight(fields)
    {
      EntriesStep(base, fields, elem, i, seen);
      ghost var plan := PlanEntry(base, fields[i].key, fields[i].value, elem);
      var _ :- CompileEntry(base, fields[i].key, fields[i].value, elem, out);
      PartsAppend(seen, plan.value);
      seen := seen + plan.value;
    }
    assert fields[|fields|..] == [];
    assert seen + [] == seen;
    JoinAllText(seen);
    return Ok(CompiledWhere(JoinTexts(out.parts, AND), out.binds));
  }

  method CompileEntry(base: SqlExpr, key: string, value: Json, elem: bool, out: SqlBuffer) returns (r: Done)
    modifies out
    ensures out.Gained(old(out.parts), old(out.binds), PlanEntry(base, key, value, elem), r)
    decreases KeyWeight(key) + Weight(value), 4
  {
    if IsLogical(key) {
      r := CompileLogical(base, key, value, elem, out);
    } else if key == "$not" {
      r := CompileNot(base, value, elem, out);
    } else if elem && IsDollar(key) {
      r := CompileOperator(OpOf(key), key, value, Parens(base), ExtractRoot(base), out);
    } else {
      r := CompileField(base, key, value, out);
    }
  }

  method CompileNot(base: SqlExpr, value: Json, elem: bool, out: SqlBuffer) returns (r: Done)
    modifies out
    ensures out.Gained(old(out.parts), old(out.binds), OnlyPart(Negated(PlanFilter(base, value, elem))), r)
    decreases Weight(value), 1
  {
    var compiled :- CompileFilterOnBase(base, value, elem);
    out.parts := out.parts + [[NOT] + Closed(LPAREN, compiled.sql)];
    out.binds := out.binds + compiled.binds;
    OnePart(Neg(Group(PlanFilter(base, value, elem).value)));
    return Ok(());
  }

  method CompileField(base: SqlExpr, path: string, value: Json, out: SqlBuffer) returns (r: Done)
    modifies out
    ensures out.Gained(old(out.parts), old(out.binds), OnlyPart(PlanField(base, path, value)), r)
    decreases KeyWeight(path) + Weight(value), 3
  {
    var compiled :- CompileFieldExprOnBase(base, path, value);
    out.parts := out.parts + [compiled.sql];
    out.binds := out.binds + compiled.binds;
    SinglePart(PlanField(base, path, value).value);
    return Ok(());
  }

  method CompileLogical(base: SqlExpr, key: string, value: Json, elem: bool, out: SqlBuffer) returns (r: Done)
    requires IsLogical(key)
    modifies out
    ensures out.Gained(old(out.parts), old(out.binds), PlanLogical(base, key, value, elem), r)
    decreases Weight(value), 2
  {
    var items :- ListOperand(key, value);
    var nested := new SqlBuffer();
    nested.binds := out.binds;
    var done := CompileArms(base, items, elem, nested);
    if done.Err? {
      return done;
    }
    ghost var arms := PlanArms(base, items, elem).value;
    JoinAnyText(arms);
    JoinAllText(arms);
    assert [] + PartTexts(arms) == PartTexts(arms);
    if key == "$nor" {
      out.parts := out.parts + [[NOT] + Closed(LPAREN, JoinTexts(nested.parts, OR))];
      AloneText(Neg(Group(JoinAny(arms))));
    } else {
      var joiner := if key == "$and" then AND else OR;
      out.parts := out.parts + [JoinTexts(nested.parts, joiner)];
    }
    out.binds := nested.binds;
    SinglePart(Combine(key, arms));
    return Ok(());
  }

  /** Compiles the arms of a logical operator, each in its parentheses. */
  method CompileArms(base: SqlExpr, items: seq<Json>, elem: bool, nested: SqlBuffer) returns (r: Done)
    modifies nested
    ensures nested.Gained(old(nested.parts), old(nested.binds), PlanArms(base, items, elem), r)
    decreases ItemsWeight(items), 1
  {
    ghost var parts0, binds0, seen: seq<Disj> := nested.parts, nested.binds, [];
    assert items[0..] == items;
    AfterNothing(PlanArms(base, items, elem));
    for i := 0 to |items|
      invariant nested.Gained(parts0, binds0, Ok(seen), Ok(()))
      invariant PlanArms(base, items, elem) == After(seen, PlanArms(base, items[i..], elem))
      invariant ItemsWeight(items[i..]) <= ItemsWeight(items)
    {
      ArmsStep(base, items, elem, i, seen);
      var compiled := CompileFilterOnBase(base, items[i], elem);
      if compiled.Err? {
        return Err(compiled.error);
      }
      nested.parts := nested.parts + [Closed(LPAREN, compiled.value.sql)];
      nested.binds := nested.binds + compiled.value.binds;
      ghost var arm := Alone(Group(PlanFilter(base, items[i], elem).value));
      OnePart(arm.c.f);
      GainStep(parts0, binds0, seen, [arm]);
      seen := seen + [arm];
    }
    assert items[|items|..] == [];
    assert seen + [] == seen;
    return Ok(());
  }

  lemma FieldIsRewritten(base: SqlExpr, path: string, value: Json, arrayPath: string, rest: string)
    requires CountBracketPairs(path) <= 1 && SplitFirstArray(path) == Ok(Some((arrayPath, rest)))
    ensures PlanField(base, path, value) == PlanField(base, arrayPath, ElemMatchOf(rest, value))
  {
    ArrayRewriteDecreases(path, value);
  }

  method CompileFieldExprOnBase(base: SqlExpr, path: string, value: Json) returns (r: Compiled)
    ensures r == Emit(PlanField(base, path, value))
    decreases KeyWeight(path) + Weight(value), 2
  {
    if CountBracketPairs(path) > 1 {
      r := CompileNestedArrayFieldExpr(base, path, value);
      return;
    }
    var split := SplitFirstArrayPath(path);
    if split.Err? {
      return Err(split.error);
    }
    if split.value.Some? {
      var (arrayPath, rest) := split.value.value;
      ArrayRewriteDecreases(path, value);
      FieldIsRewritten(base, path, value, arrayPath, rest);
      r := CompileFieldExprOnBase(base, arrayPath, ElemMatchOf(rest, value));
      return;
    }
    var checked := ValidatePath(path);
    if checked.Err? {
      return Err(checked.error);
    }
    r := CompilePlainField(value, Arrow(base, path), Extract(base, path));
  }

  /** A field without `[]` in its path. */
  method CompilePlainField(value: Json, scalar: SqlExpr, arr: SqlExpr) returns (r: Compiled)
    ensures r == Emit(Joined(PlanTests(value, scalar, arr)))
    decreases Weight(value), 0
  {
    if !value.JObj? {
      var v := ToSql(value);
      if v.Err? {
        return Err(v.error);
      }
      ComparePartText(scalar, EQ, v.value);
      JoinAllText([TestOf(Compare(scalar, EQ, Plain(v.value)))]);
      return Ok(CompiledWhere([OPERAND(scalar), CMP(EQ), PARAM], [v.value]));
    }
    var out := new SqlBuffer();
    var done := CompileOperators(value.fields, scalar, arr, out);
    if done.Err? {
      return Err(done.error);
    }
    EmitTests(PlanOps(value.fields, scalar, arr).value);
    if out.parts == [] {
      return Err(EmptyOperators);
    }
    return Ok(CompiledWhere(JoinTexts(out.parts, AND), out.binds));
  }

  lemma EmitTests(parts: seq<Disj>)
    ensures [] + PartTexts(parts) == PartTexts(parts) && [] + PartBinds(parts) == PartBinds(parts)
    ensures Emit(Joined(NonEmpty(Ok(parts)))) ==
              if PartTexts(parts) == [] then Err(EmptyOperators)
              else Ok(CompiledWhere(JoinTexts(PartTexts(parts), AND), PartBinds(parts)))
  {
    TextCount(parts);
    JoinAllText(parts);
  }

  /** `for (op, operand) in op_obj { compile_operator(…)? }`. */
  method CompileOperators(fields: seq<Field>, scalar: SqlExpr, arr: SqlExpr, out: SqlBuffer) returns (r: Done)
    modifies out
    ensures out.Gained(old(out.parts), old(out.binds), PlanOps(fields, scalar, arr), r)
    decreases FieldsWeight(fields), 0
  {
    ghost var parts0, binds0, seen: seq<Disj> := out.parts, out.binds, [];
    assert fields[0..] == fields;
    AfterNothing(PlanOps(fields, scalar, arr));
    for i := 0 to |fields|
      invariant out.Gained(parts0, binds0, Ok(seen), Ok(()))
      invariant PlanOps(fields, scalar, arr) == After(seen, PlanOps(fields[i..], scalar, arr))
      invariant FieldsWeight(fields[i..]) <= FieldsWeight(fields)
    {
      OpsStep(fields, scalar, arr, i, seen);
      ghost var plan := PlanOp(OpOf(fields[i].key), fields[i].key, fields[i].value, scalar, arr);
      var done := CompileOperator(OpOf(fields[i].key), fields[i].key, fields[i].value, scalar, arr, out);
      if done.Err? {
        return done;
      }
      GainStep(parts0, binds0, seen, plan.value);
      seen := seen + plan.value;
    }
    assert fields[|fields|..] == [];
    assert seen + [] == seen;
    return Ok(());
  }

  method CompileNestedArrayFieldExpr(base: SqlExpr, path: string, value: Json) returns (r: Compiled)
    ensures r == Emit(PlanTreeField(base, path, value))
    decreases KeyWeight(path) + Weight(value), 1
  {
    var pattern := ArrayPathFullkeyPattern(path);
    if pattern.Err? {
      return Err(pattern.error);
    }
    r := CompileTreeScan(base, Tree(base, path), pattern.value, value);
  }

  /** `EXISTS (SELECT 1 FROM json_tree(base) alias WHERE alias.fullkey LIKE ? AND …)`. */
  method CompileTreeScan(base: SqlExpr, alias: Alias, pattern: string, value: Json) returns (r: Compiled)
    ensures r == Emit(NodeExists(TreeRow(base, alias), FullkeyTest(alias, pattern),
                                 PlanTests(value, RowAtom(alias), RowValue(alias))))
    decreases Weight(value), 0
  {
    var source := TreeRow(base, alias);
    var like := [OPERAND(RowFullkey(alias)), CMP(LIKE), PARAM];
    ghost var test := FullkeyTest(alias, pattern);
    ComparePartText(RowFullkey(alias), LIKE, Text(pattern));
    if !value.JObj? {
      var v := ToSql(value);
      if v.Err? {
        return Err(v.error);
      }
      ghost var part := TestOf(Compare(RowAtom(alias), EQ, Plain(v.value)));
      assert PlanTests(value, RowAtom(alias), RowValue(alias)) == Ok([part]);
      ComparePartText(RowAtom(alias), EQ, v.value);
      EmitNode(source, test, [part]);
      JoinTwo(like, [OPERAND(RowAtom(alias)), CMP(EQ), PARAM]);
      assert [Text(pattern)] + [v.value] == [Text(pattern), v.value];
      return Ok(CompiledWhere(Closed(EXISTS(source), like + [AND] + [OPERAND(RowAtom(alias)), CMP(EQ), PARAM]),
                              [Text(pattern), v.value]));
    }
    var out := new SqlBuffer();
    out.parts, out.binds := [like], [Text(pattern)];
    var done := CompileOperators(value.fields, RowAtom(alias), RowValue(alias), out);
    if done.Err? {
      return Err(done.error);
    }
    ghost var parts := PlanOps(value.fields, RowAtom(alias), RowValue(alias)).value;
    TextCount(parts);
    if |out.parts| == 1 {
      return Err(EmptyOperators);
    }
    EmitNode(source, test, parts);
    return Ok(CompiledWhere(Closed(EXISTS(source), JoinTexts(out.parts, AND)), out.binds));
  }

  lemma JoinTwo(a: seq<Token>, b: seq<Token>)
    ensures JoinTexts([a] + [b], AND) == a + [AND] + b
  {
    assert ([a] + [b])[1..] == [b];
    assert JoinTexts([b], AND) == b;
  }

  lemma EmitNode(source: Source, guard: Disj, parts: seq<Disj>)
    ensures Emit(NodeExists(source, guard, Ok(parts)))
         == Ok(CompiledWhere(Closed(EXISTS(source), JoinTexts([DisjTokens(guard, false)] + PartTexts(parts), AND)),
                             DisjBinds(guard) + PartBinds(parts)))
  {
    var all := [guard] + parts;
    SinglePart(guard);
    PartsAppend([guard], parts);
    JoinAllText(all);
    EmitExists(source, JoinAll(all));
  }

  lemma EmitExists(source: Source, d: Disj)
    ensures Emit(Ok(Alone(Exists(source, d))))
         == Ok(CompiledWhere(Closed(EXISTS(source), DisjTokens(d, false)), DisjBinds(d)))
  {
    AloneText(Exists(source, d));
  }

  method CompileOperator(op: Op, name: string, operand: Json, scalar: SqlExpr, arr: SqlExpr, out: SqlBuffer)
    returns (r: Done)
    modifies out
    ensures out.Gained(old(out.parts), old(out.binds), PlanOp(op, name, operand, scalar, arr), r)
    decreases Weight(operand), 2
  {
    if op == ElemMatch {
      var compiled := CompileElemMatch(arr, operand);
      if compiled.Err? {
        return Err(compiled.error);
      }
      out.parts := out.parts + [compiled.value.sql];
      out.binds := out.binds + compiled.value.binds;
      SinglePart(PlanElemMatch(arr, operand).value);
      r := Ok(());
    } else {
      r := PushLeaf(op, name, operand, scalar, arr, out);
    }
  }

  method CompileElemMatch(arr: SqlExpr, operand: Json) returns (r: Compiled)
    ensures r == Emit(PlanElemMatch(arr, operand))
    decreases Weight(operand), 1
  {
    var alias := Each(arr);
    var inner :- CompileFilterOnBase(RowValue(alias), operand, true);
    ghost var d := PlanFilter(RowValue(alias), operand, true).value;
    AloneText(Exists(EachRow(arr, alias), d));
    return Ok(CompiledWhere(Closed(EXISTS(EachRow(arr, alias)), inner.sql), inner.binds));
  }

  // ------------------------------------------------------------------- paths

  method ValidatePath(path: string) returns (r: Done)
    ensures r == CheckPath(path)
  {
    if path == "" {
      return Err(EmptyPath);
    }
    var segments := Split(path, '.');
    assert segments[0..] == segments;
    for i := 0 to |segments|
      invariant CheckSegments(segments) == CheckSegments(segments[i..])
    {
      var segment := segments[i];
      assert segments[i..][1..] == segments[i + 1..];
      if segment == "" {
        return Err(BadPath);
      }
      if !IsWord(segment) {
        return Err(BadSegment(segment));
      }
    }
    return Ok(());
  }

  method SplitFirstArrayPath(path: string) returns (r: Result<Option<(string, string)>, FilterError>)
    ensures r == SplitFirstArray(path)
  {
    var segments := Split(path, '.');
    if "" in segments {
      return Err(BadPath);
    }
    var prefix: seq<string> := [];
    assert segments[0..] == segments;
    for i := 0 to |segments|
      invariant SplitSegments([], segments) == SplitSegments(prefix, segments[i..])
    {
      var segment := segments[i];
      assert segments[i..][1..] == segments[i + 1..];
      if EndsWithBrackets(segment) {
        var field := FieldOf(segment);
        if field == "" || HasBracket(field) {
          return Err(BadSegment(segment));
        }
        prefix := prefix + [field];
        return Ok(Some((Join(prefix, '.'), Join(segments[i + 1..], '.'))));
      }
      if HasBracket(segment) {
        return Err(BadSegment(segment));
      }
      prefix := prefix + [segment];
    }
    return Ok(None);
  }

  lemma PatternStep(pattern: string, segments: seq<string>)
    requires segments != []
    ensures After(pattern, SegmentPatterns(segments)) ==
              match SegmentPattern(segments[0])
              case Err(e) => Err(e)
              case Ok(step) => After(pattern + step, SegmentPatterns(segments[1..]))
  {
    if SegmentPattern(segments[0]).Ok? {
      AfterStep(pattern, SegmentPattern(segments[0]).value, SegmentPatterns(segments[1..]));
    }
  }

  method ArrayPathFullkeyPattern(path: string) returns (r: Result<string, FilterError>)
    ensures r == FullkeyPattern(path)
  {
    var pattern := "$";
    var segments := Split(path, '.');
    assert segments[0..] == segments;
    for i := 0 to |segments|
      invariant FullkeyPattern(path) == After(pattern, SegmentPatterns(segments[i..]))
    {
      assert segments[i..][1..] == segments[i + 1..];
      PatternStep(pattern, segments[i..]);
      var pushed := PushSegment(pattern, segments[i]);
      if pushed.Err? {
        return pushed;
      }
      pattern := pushed.value;
    }
    assert segments[|segments|..] == [];
    assert pattern + "" == pattern;
    return Ok(pattern);
  }

  /** One turn of the loop: the field of an array segment, with a wildcard index, or a plain word. */
  method PushSegment(pattern: string, segment: string) returns (r: Result<string, FilterError>)
    ensures r == After(pattern, SegmentPattern(segment))
  {
    if EndsWithBrackets(segment) {
      var field := FieldOf(segment);
      if field == "" || HasBracket(field) {
        return Err(BadSegment(segment));
      }
      r := Ok(pattern + "." + field + "[%]");
      assert pattern + "." + field + "[%]" == pattern + ("." + field + "[%]");
    } else {
      if segment == "" || !IsWord(segment) {
        return Err(BadPath);
      }
      r := Ok(pattern + "." + segment);
      assert pattern + "." + segment == pattern + ("." + segment);
    }
  }
}
