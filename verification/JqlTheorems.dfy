/** What the emitted text and binds of an accepted filter guarantee. */
module JqlTheorems {
  import opened Prelude
  import opened Strings
  import opened SqlText
  import opened SqlEval
  import opened JqlFilter
  import opened JqlPlan
  import opened JqlMeaning
  import opened JqlCorrect
  import opened JqlWellFormed
  import opened JqlCompiler

  /** The answer of `build_where_on_base`: `BuildWhereOnBase` is proved to return it. */
  function WhereOf(base: string, filter: Json): Compiled
  {
    Emit(PlanFilter(Column(base), filter, false))
  }

  /** The document the statement runs on is the column's value; no FROM clause is open. */
  function OnDocument(doc: SqlValue): Scope
  {
    Scope(doc, map[])
  }

  function ParamCount(sql: seq<Token>): nat
  {
    if sql == [] then 0 else (if sql[0] == PARAM then 1 else 0) + ParamCount(sql[1..])
  }

  /** Positional binding succeeds exactly when there are as many values as `?`. */
  lemma {:induction false} BindCounts(sql: seq<Token>, binds: seq<SqlValue>)
    ensures Bind(sql, binds).Some? <==> ParamCount(sql) == |binds|
    decreases sql
  {
    if sql != [] {
      if sql[0] == PARAM {
        if binds != [] {
          BindCounts(sql[1..], binds[1..]);
        }
      } else {
        BindCounts(sql[1..], binds);
      }
    }
  }

  /**
   Every accepted filter has as many values as `?`, and its text is a well-formed
   expression exactly when no element-mode object consists of empty `$size`s.
   */
  lemma TextIsWellFormed(base: string, filter: Json)
    requires WhereOf(base, filter).Ok?
    ensures var where := WhereOf(base, filter).value;
            && ParamCount(where.sql) == |where.binds|
            && Bind(where.sql, where.binds).Some?
            && (Parse(Bind(where.sql, where.binds).value).Some? <==> FilterPasses(WHERE_IS_NOT_EMPTY, filter, false))
  {
    var d := PlanFilter(Column(base), filter, false).value;
    BindDisj(d);
    BindCounts(DisjTokens(d, false), DisjBinds(d));
    ParseOfTokens(d);
    FilterWhole(Column(base), filter, false);
  }

  /**
   Read with SQL precedence and evaluated with its binds on any document, the text
   has exactly the filter's three-valued meaning.
   */
  lemma TextMeansFilter(E: Engine, base: string, filter: Json, doc: SqlValue)
    requires WhereOf(base, filter).Ok?
    requires FilterPasses(OR_STANDS_ALONE, filter, false)
    requires FilterPasses(WHERE_IS_NOT_EMPTY, filter, false)
    ensures var where := WhereOf(base, filter).value;
            var text := Bind(where.sql, where.binds);
            && text.Some? && Parse(text.value).Some?
            && EvalDisj(E, OnDocument(doc), Parse(text.value).value) == FilterMeans(E, filter, doc, false)
  {
    var d := PlanFilter(Column(base), filter, false).value;
    BindDisj(d);
    ParseOfTokens(d);
    FilterWhole(Column(base), filter, false);
    FilterCorrect(E, OnDocument(doc), Column(base), filter, false);
  }

  // ------------------------------------------------------- a `$or` beside a key

  /** An object's text is read as a conjunction exactly when no key of it is a `$or` of several arms. */
  lemma {:induction false} ReadsAsConjunction(base: SqlExpr, fields: seq<Field>, elem: bool)
    requires PlanEntries(base, fields, elem).Ok?
    ensures AllConjunctions(PlanEntries(base, fields, elem).value)
       <==> forall i | 0 <= i < |fields| :: !BareOr(fields[i])
    decreases |fields|
  {
    if fields != [] {
      EntryIsConjunction(base, fields[0], elem);
      ReadsAsConjunction(base, fields[1..], elem);
      var first, rest := PlanEntry(base, fields[0].key, fields[0].value, elem).value,
        PlanEntries(base, fields[1..], elem).value;
      forall i | 0 <= i < |first| ensures (first + rest)[i] == first[i] {
      }
      forall i | 0 <= i < |rest| ensures (first + rest)[|first| + i] == rest[i] {
      }
      assert forall i | 0 <= i < |fields[1..]| :: fields[1..][i] == fields[i + 1];
    }
  }

  lemma TopReading(base: string, filter: Json)
    requires WhereOf(base, filter).Ok? && filter.JObj? && FilterPasses(WHERE_IS_NOT_EMPTY, filter, false)
    ensures var where := WhereOf(base, filter).value;
            var text := Bind(where.sql, where.binds);
            && text.Some? && Parse(text.value).Some?
            && (Parse(text.value).value.One? <==> forall i | 0 <= i < |filter.fields| :: !BareOr(filter.fields[i]))
  {
    var d := PlanFilter(Column(base), filter, false).value;
    BindDisj(d);
    ParseOfTokens(d);
    FilterWhole(Column(base), filter, false);
    if filter.fields != [] {
      ReadsAsConjunction(Column(base), filter.fields, false);
    }
  }

  /** Joining on the right of an OR goes into its last alternative. */
  lemma JoinAfterOr(c: Conj, rest: Disj, post: seq<Disj>)
    ensures JoinAll([Or(c, rest)] + post) == Or(c, JoinAll([rest] + post))
  {
    assert ([Or(c, rest)] + post)[1..] == post && ([rest] + post)[1..] == post;
  }

  lemma {:induction false} ReadingAfter(E: Engine, sc: Scope, arms: seq<Disj>, post: seq<Disj>)
    requires arms != [] && AllConjunctions(arms) && AllConjunctions(post)
    ensures EvalDisj(E, sc, JoinAll([JoinAny(arms)] + post))
         == Or3(EvalAny(E, sc, arms[..|arms| - 1]), And3(EvalDisj(E, sc, arms[|arms| - 1]), EvalAll(E, sc, post)))
  {
    if |arms| == 1 {
      EvalJoinAll(E, sc, [arms[0]] + post);
      assert ([arms[0]] + post)[1..] == post;
    } else {
      var rest := arms[1..];
      assert rest[|rest| - 1] == arms[|arms| - 1] && rest[..|rest| - 1] == arms[..|arms| - 1][1..];
      assert JoinAny(arms) == Or(arms[0].c, JoinAny(rest));
      JoinAfterOr(arms[0].c, JoinAny(rest), post);
      ReadingAfter(E, sc, rest, post);
    }
  }

  /** Joining on the left of an OR goes into its first alternative. */
  lemma {:induction false} ReadingBefore(E: Engine, sc: Scope, pre: seq<Disj>, parts: seq<Disj>)
    requires parts != [] && JoinAll(parts).Or? && AllConjunctions(pre)
    ensures var d := JoinAll(pre + parts);
            && d.Or? && d.rest == JoinAll(parts).rest
            && EvalConj(E, sc, d.c) == And3(EvalAll(E, sc, pre), EvalConj(E, sc, JoinAll(parts).c))
  {
    if pre == [] {
      assert pre + parts == parts;
    } else {
      assert (pre + parts)[1..] == pre[1..] + parts;
      ReadingBefore(E, sc, pre[1..], parts);
      EvalAppendConj(E, sc, pre[0].c, JoinAll(pre[1..] + parts).c);
    }
  }

  /**
   What SQL reads for a `$or` of arms a, …, z between other keys: the keys before it
   bind only to a and the keys after it only to z.
   */
  lemma BareOrReading(E: Engine, sc: Scope, pre: seq<Disj>, arms: seq<Disj>, post: seq<Disj>)
    requires |arms| >= 2 && AllConjunctions(pre) && AllConjunctions(arms) && AllConjunctions(post)
    ensures EvalDisj(E, sc, JoinAll(pre + ([JoinAny(arms)] + post)))
         == Or3(And3(EvalAll(E, sc, pre), EvalDisj(E, sc, arms[0])),
                Or3(EvalAny(E, sc, arms[1..|arms| - 1]),
                    And3(EvalDisj(E, sc, arms[|arms| - 1]), EvalAll(E, sc, post))))
  {
    var rest := arms[1..];
    assert rest[|rest| - 1] == arms[|arms| - 1] && rest[..|rest| - 1] == arms[1..|arms| - 1];
    assert JoinAny(arms) == Or(arms[0].c, JoinAny(rest));
    JoinAfterOr(arms[0].c, JoinAny(rest), post);
    ReadingAfter(E, sc, rest, post);
    ReadingBefore(E, sc, pre, [JoinAny(arms)] + post);
    assert EvalDisj(E, sc, arms[0]) == EvalConj(E, sc, arms[0].c);
  }

  lemma {:induction false} AnyMeanAppend(E: Engine, a: seq<Json>, b: seq<Json>, v: SqlValue, elem: bool)
    ensures AnyMean(E, a + b, v, elem) == Or3(AnyMean(E, a, v, elem), AnyMean(E, b, v, elem))
  {
    if a == [] {
      assert a + b == b;
    } else {
      assert (a + b)[1..] == a[1..] + b;
      AnyMeanAppend(E, a[1..], b, v, elem);
    }
  }

  lemma AnyMeanEnds(E: Engine, items: seq<Json>, v: SqlValue, elem: bool)
    requires |items| >= 2
    ensures AnyMean(E, items, v, elem)
         == Or3(FilterMeans(E, items[0], v, elem),
                Or3(AnyMean(E, items[1..|items| - 1], v, elem), FilterMeans(E, items[|items| - 1], v, elem)))
  {
    var last := |items| - 1;
    AnyMeanAppend(E, items[1..last], [items[last]], v, elem);
    assert items[1..] == items[1..last] + [items[last]];
    assert [items[last]][1..] == [] && AnyMean(E, [], v, elem) == False;
  }

  /** The arms before the k-th are the plan of the items before it, and the k-th is its item's in parentheses. */
  lemma {:induction false} ArmsPrefix(base: SqlExpr, items: seq<Json>, elem: bool, k: nat)
    requires PlanArms(base, items, elem).Ok? && ItemsPass(OR_STANDS_ALONE, items, elem) && k < |items|
    ensures |PlanArms(base, items, elem).value| == |items|
    ensures PlanArms(base, items[..k], elem) == Ok(PlanArms(base, items, elem).value[..k])
    ensures ItemsPass(OR_STANDS_ALONE, items[..k], elem) && FilterPasses(OR_STANDS_ALONE, items[k], elem)
    ensures PlanFilter(base, items[k], elem).Ok?
    ensures PlanArms(base, items, elem).value[k] == Alone(Group(PlanFilter(base, items[k], elem).value))
    decreases |items|
  {
    var arms := PlanArms(base, items, elem).value;
    ArmsAreGroups(base, items, elem);
    assert arms[1..] == PlanArms(base, items[1..], elem).value;
    if k == 0 {
      assert items[..0] == [] && arms[..0] == [];
    } else {
      ArmsPrefix(base, items[1..], elem, k - 1);
      assert items[..k][1..] == items[1..][..k - 1];
      assert arms[..k] == [arms[0]] + arms[1..][..k - 1];
    }
  }

  /** An object with a `$or` of several arms between other keys. */
  function OrBetween(before: seq<Field>, items: seq<Json>, after: seq<Field>): seq<Field>
  {
    before + ([Field("$or", JArr(items))] + after)
  }

  lemma {:induction false} PlanEntriesAppend(base: SqlExpr, a: seq<Field>, b: seq<Field>, elem: bool)
    requires PlanEntries(base, a + b, elem).Ok?
    ensures PlanEntries(base, a, elem).Ok? && PlanEntries(base, b, elem).Ok?
    ensures PlanEntries(base, a + b, elem).value == PlanEntries(base, a, elem).value + PlanEntries(base, b, elem).value
    decreases |a|
  {
    if a == [] {
      assert a + b == b;
    } else {
      assert (a + b)[1..] == a[1..] + b;
      PlanEntriesAppend(base, a[1..], b, elem);
    }
  }

  lemma {:induction false} EntriesMeanAppend(E: Engine, a: seq<Field>, b: seq<Field>, v: SqlValue, elem: bool)
    ensures EntriesMean(E, a + b, v, elem) == And3(EntriesMean(E, a, v, elem), EntriesMean(E, b, v, elem))
    decreases |a|
  {
    if a == [] {
      assert a + b == b;
    } else {
      assert (a + b)[1..] == a[1..] + b;
      EntriesMeanAppend(E, a[1..], b, v, elem);
    }
  }

  lemma OrThenPlan(base: SqlExpr, items: seq<Json>, after: seq<Field>, elem: bool)
    requires items != [] && PlanEntries(base, [Field("$or", JArr(items))] + after, elem).Ok?
    ensures PlanArms(base, items, elem).Ok? && PlanEntries(base, after, elem).Ok?
    ensures PlanEntries(base, [Field("$or", JArr(items))] + after, elem).value
         == [JoinAny(PlanArms(base, items, elem).value)] + PlanEntries(base, after, elem).value
  {
    var fields := [Field("$or", JArr(items))] + after;
    assert fields[1..] == after && fields[0].key == "$or";
    assert ListOperand("$or", JArr(items)) == Ok(items);
    assert PlanEntry(base, "$or", JArr(items), elem) == OnlyPart(Combined("$or", PlanArms(base, items, elem)));
    assert PlanEntries(base, fields, elem)
        == Then(PlanEntry(base, "$or", JArr(items), elem), PlanEntries(base, after, elem));
  }

  lemma OrBetweenMeans(E: Engine, before: seq<Field>, items: seq<Json>, after: seq<Field>, v: SqlValue, elem: bool)
    ensures FilterMeans(E, JObj(OrBetween(before, items, after)), v, elem)
         == And3(EntriesMean(E, before, v, elem),
                 And3(AnyMean(E, items, v, elem), EntriesMean(E, after, v, elem)))
  {
    var rest := [Field("$or", JArr(items))] + after;
    EntriesMeanAppend(E, before, rest, v, elem);
    assert rest[1..] == after && rest[0].key == "$or";
    assert EntryMeans(E, "$or", JArr(items), v, elem) == AnyMean(E, items, v, elem);
  }

  lemma OrBetweenEnds(E: Engine, filter: Json, before: seq<Field>, items: seq<Json>, after: seq<Field>,
                      v: SqlValue, elem: bool)
    requires filter == JObj(OrBetween(before, items, after)) && |items| >= 2
    ensures FilterMeans(E, filter, v, elem)
         == And3(EntriesMean(E, before, v, elem),
                 And3(Or3(FilterMeans(E, items[0], v, elem),
                          Or3(AnyMean(E, items[1..|items| - 1], v, elem), FilterMeans(E, items[|items| - 1], v, elem))),
                      EntriesMean(E, after, v, elem)))
  {
    OrBetweenMeans(E, before, items, after, v, elem);
    AnyMeanEnds(E, items, v, elem);
  }

  /** The value of every arm but the first and the last, and of these two. */
  lemma ArmsMean(E: Engine, sc: Scope, base: SqlExpr, items: seq<Json>, elem: bool)
    requires |items| >= 2 && PlanArms(base, items, elem).Ok? && ItemsPass(OR_STANDS_ALONE, items, elem) && Clear(base)
    ensures var (arms, v, last) := (PlanArms(base, items, elem).value, EvalExpr(E, sc, base), |items| - 1);
            && |arms| == |items| && AllConjunctions(arms)
            && EvalDisj(E, sc, arms[0]) == FilterMeans(E, items[0], v, elem)
            && EvalAny(E, sc, arms[1..last]) == AnyMean(E, items[1..last], v, elem)
            && EvalDisj(E, sc, arms[last]) == FilterMeans(E, items[last], v, elem)
  {
    var arms, last := PlanArms(base, items, elem).value, |items| - 1;
    ArmsAreGroups(base, items, elem);
    ArmMeans(E, sc, base, items, elem, 0);
    ArmMeans(E, sc, base, items, elem, last);
    ArmsPrefix(base, items, elem, last);
    var prefix := items[..last];
    assert PlanArms(base, prefix[1..], elem) == Ok(arms[..last][1..]);
    assert prefix[1..] == items[1..last] && arms[..last][1..] == arms[1..last];
    ArmsCorrect(E, sc, base, items[1..last], elem);
  }

  lemma ArmMeans(E: Engine, sc: Scope, base: SqlExpr, items: seq<Json>, elem: bool, k: nat)
    requires k < |items| && PlanArms(base, items, elem).Ok? && ItemsPass(OR_STANDS_ALONE, items, elem) && Clear(base)
    ensures |PlanArms(base, items, elem).value| == |items|
    ensures EvalDisj(E, sc, PlanArms(base, items, elem).value[k])
         == FilterMeans(E, items[k], EvalExpr(E, sc, base), elem)
  {
    ArmsPrefix(base, items, elem, k);
    FilterCorrect(E, sc, base, items[k], elem);
    EvalAlone(E, sc, Group(PlanFilter(base, items[k], elem).value));
  }

  /** The conditions of the lemmas below: a `$or` of several arms between keys that are none. */
  predicate OrAmongKeys(filter: Json, before: seq<Field>, items: seq<Json>, after: seq<Field>, elem: bool)
  {
    && filter == JObj(OrBetween(before, items, after)) && |items| >= 2
    && (forall i | 0 <= i < |before| :: !BareOr(before[i]))
    && (forall i | 0 <= i < |after| :: !BareOr(after[i]))
    && EntriesPass(OR_STANDS_ALONE, before, elem) && EntriesPass(OR_STANDS_ALONE, after, elem)
    && ItemsPass(OR_STANDS_ALONE, items, elem)
  }

  lemma OrBetweenPlan(base: SqlExpr, filter: Json, before: seq<Field>, items: seq<Json>, after: seq<Field>, elem: bool)
    requires filter == JObj(OrBetween(before, items, after)) && items != [] && PlanFilter(base, filter, elem).Ok?
    ensures PlanEntries(base, before, elem).Ok? && PlanArms(base, items, elem).Ok? && PlanEntries(base, after, elem).Ok?
    ensures PlanFilter(base, filter, elem).value
         == JoinAll(PlanEntries(base, before, elem).value
                    + ([JoinAny(PlanArms(base, items, elem).value)] + PlanEntries(base, after, elem).value))
  {
    PlanEntriesAppend(base, before, [Field("$or", JArr(items))] + after, elem);
    OrThenPlan(base, items, after, elem);
  }

  lemma OtherKeysMean(E: Engine, sc: Scope, base: SqlExpr, fields: seq<Field>, elem: bool)
    requires PlanEntries(base, fields, elem).Ok? && Clear(base) && EntriesPass(OR_STANDS_ALONE, fields, elem)
    requires forall i | 0 <= i < |fields| :: !BareOr(fields[i])
    ensures AllConjunctions(PlanEntries(base, fields, elem).value)
    ensures EvalAll(E, sc, PlanEntries(base, fields, elem).value)
         == EntriesMean(E, fields, EvalExpr(E, sc, base), elem)
  {
    EntriesCorrect(E, sc, base, fields, elem);
    ReadsAsConjunction(base, fields, elem);
  }

  /** The text of an object with one `$or` between other keys, as SQL reads it. */
  lemma OrBetweenReads(E: Engine, sc: Scope, base: SqlExpr, filter: Json,
                       before: seq<Field>, items: seq<Json>, after: seq<Field>, elem: bool)
    requires OrAmongKeys(filter, before, items, after, elem) && Clear(base) && PlanFilter(base, filter, elem).Ok?
    ensures var (v, last) := (EvalExpr(E, sc, base), |items| - 1);
            && EvalDisj(E, sc, PlanFilter(base, filter, elem).value)
               == Or3(And3(EntriesMean(E, before, v, elem), FilterMeans(E, items[0], v, elem)),
                      Or3(AnyMean(E, items[1..last], v, elem),
                          And3(FilterMeans(E, items[last], v, elem), EntriesMean(E, after, v, elem))))
  {
    OrBetweenPlan(base, filter, before, items, after, elem);
    var pre, post := PlanEntries(base, before, elem).value, PlanEntries(base, after, elem).value;
    ArmsMean(E, sc, base, items, elem);
    OtherKeysMean(E, sc, base, before, elem);
    OtherKeysMean(E, sc, base, after, elem);
    BareOrReading(E, sc, pre, PlanArms(base, items, elem).value, post);
  }

  /** A true arm at either end meets the keys at the other end, and a true middle arm meets all keys. */
  predicate SelectsAlike(p: Tri, a: Tri, m: Tri, z: Tri, q: Tri)
  {
    && (p == True && a == True ==> q == True)
    && (m == True ==> p == True && q == True)
    && (z == True && q == True ==> p == True)
  }

  /** Keys that are false leave no arm that could hold without them. */
  predicate FailsAlike(p: Tri, a: Tri, m: Tri, z: Tri, q: Tri)
  {
    && (p == False ==> m == False && (z == False || q == False))
    && (q == False ==> m == False && (p == False || a == False))
  }

  /** What SQL reads for `p AND a OR m OR z AND q`, and what `p AND (a OR m OR z) AND q` would be. */
  lemma TwoReadings(read: Tri, meant: Tri, p: Tri, a: Tri, m: Tri, z: Tri, q: Tri)
    requires read == Or3(And3(p, a), Or3(m, And3(z, q)))
    requires meant == And3(p, And3(Or3(a, Or3(m, z)), q))
    ensures meant == True ==> read == True
    ensures ((read == True) <==> (meant == True)) <==> SelectsAlike(p, a, m, z, q)
    ensures read == meant <==> SelectsAlike(p, a, m, z, q) && FailsAlike(p, a, m, z, q)
  {
  }

  /**
   Exactly when the text of an object with a `$or` of arms a, m…, z between keys p and keys
   q agrees with the object's meaning: as a selection, and in all three truth values. It
   never misses a value that the object means.
   */
  lemma OrBesideKeys(E: Engine, sc: Scope, base: SqlExpr, filter: Json,
                     before: seq<Field>, items: seq<Json>, after: seq<Field>, elem: bool)
    requires OrAmongKeys(filter, before, items, after, elem) && Clear(base) && PlanFilter(base, filter, elem).Ok?
    ensures var (v, last) := (EvalExpr(E, sc, base), |items| - 1);
            var (p, q) := (EntriesMean(E, before, v, elem), EntriesMean(E, after, v, elem));
            var (a, z) := (FilterMeans(E, items[0], v, elem), FilterMeans(E, items[last], v, elem));
            var m := AnyMean(E, items[1..last], v, elem);
            var read := EvalDisj(E, sc, PlanFilter(base, filter, elem).value);
            var meant := FilterMeans(E, filter, v, elem);
            && (meant == True ==> read == True)
            && (((read == True) <==> (meant == True)) <==> SelectsAlike(p, a, m, z, q))
            && (read == meant <==> SelectsAlike(p, a, m, z, q) && FailsAlike(p, a, m, z, q))
  {
    var v, last := EvalExpr(E, sc, base), |items| - 1;
    OrBetweenReads(E, sc, base, filter, before, items, after, elem);
    OrBetweenEnds(E, filter, before, items, after, v, elem);
    TwoReadings(EvalDisj(E, sc, PlanFilter(base, filter, elem).value), FilterMeans(E, filter, v, elem),
                EntriesMean(E, before, v, elem), FilterMeans(E, items[0], v, elem),
                AnyMean(E, items[1..last], v, elem), FilterMeans(E, items[last], v, elem),
                EntriesMean(E, after, v, elem));
  }

  // ------------------------------------------------------------ counterexamples

  /** The digit that follows `"key":` in a JSON text. */
  function DigitOf(text: string, key: string): SqlValue
  {
    var name := "\"" + key + "\":";
    if |text| <= |name| then Null
    else if name <= text && '0' <= text[|name|] <= '9' then Integer(text[|name|] as int - '0' as int)
    else DigitOf(text[1..], key)
  }

  /** An engine that reads the digits of flat JSON texts. */
  function ExampleEngine(): Engine
  {
    Engine((v: SqlValue, path: string) => if v.Text? then DigitOf(v.s, path) else Null,
           (v: SqlValue, _: string) => v, v => v, v => v, v => v, v => v,
           (v: SqlValue, w: SqlValue) => if v == w then 0 else 1,
           (_: SqlValue, _: SqlValue) => false, (_: SqlValue, _: SqlValue) => false,
           _ => [], _ => [])
  }

  lemma DigitFound(text: string, key: string, d: char, rest: string)
    requires '0' <= d <= '9' && text == "\"" + key + "\":" + [d] + rest
    ensures DigitOf(text, key) == Integer(d as int - '0' as int)
  {
    var name := "\"" + key + "\":";
    assert text[..|name|] == name && text[|name|] == d;
  }

  /** Another field in front is passed over. */
  lemma {:induction false} DigitBehind(front: string, text: string, key: string)
    requires |key| == 1 && |text| > 4
    requires forall i | 0 <= i < |front| :: front[i] != key[0]
    requires text[0] != key[0]
    ensures DigitOf(front + text, key) == DigitOf(text, key)
  {
    if front == "" {
      assert front + text == text;
    } else {
      assert (front + text)[1..] == front[1..] + text;
      assert (front + text)[1] == if |front| > 1 then front[1] else text[0];
      DigitBehind(front[1..], text, key);
    }
  }

  function Equals(path: string, n: int64): Json
  {
    JObj([Field(path, JInt(n))])
  }

  lemma PlainPath(path: string)
    requires path in {"a", "b", "c"}
    ensures CountBracketPairs(path) == 0 && SplitFirstArray(path) == Ok(None) && CheckPath(path) == Ok(())
    ensures !IsLogical(path) && path != "$not"
  {
    assert |path| == 1 && path[1..] == "";
    SplitWithout(path, '.');
    assert [path][1..] == [];
    assert CheckSegments([]) == Ok(());
    assert SplitSegments([] + [path], []) == Ok(None);
  }

  lemma EqualsPlan(base: SqlExpr, path: string, n: int64)
    requires path in {"a", "b", "c"}
    ensures PlanEntries(base, [Field(path, JInt(n))], false).Ok?
    ensures PlanFilter(base, Equals(path, n), false).Ok?
  {
    PlainPath(path);
    var fields := [Field(path, JInt(n))];
    assert fields[1..] == [];
    assert PlanTests(JInt(n), Arrow(base, path), Extract(base, path)).Ok?;
    assert PlanField(base, path, JInt(n)).Ok?;
    assert PlanEntry(base, path, JInt(n), false) == OnlyPart(PlanField(base, path, JInt(n)));
  }

  lemma EqualsPasses(path: string, n: int64)
    requires path in {"a", "b", "c"}
    ensures EntriesPass(OR_STANDS_ALONE, [Field(path, JInt(n))], false)
    ensures FilterPasses(OR_STANDS_ALONE, Equals(path, n), false)
  {
    PlainPath(path);
    assert [Field(path, JInt(n))][1..] == [];
    assert EntryPasses(OR_STANDS_ALONE, path, JInt(n), false);
  }

  lemma EqualsMeans(E: Engine, path: string, n: int64, doc: SqlValue)
    requires path in {"a", "b", "c"}
    ensures EntriesMean(E, [Field(path, JInt(n))], doc, false) == Compare3(E, EQ, E.arrow(doc, path), Integer(n))
    ensures FilterMeans(E, Equals(path, n), doc, false) == Compare3(E, EQ, E.arrow(doc, path), Integer(n))
  {
    PlainPath(path);
    var fields := [Field(path, JInt(n))];
    assert fields[1..] == [];
    assert TestsMean(E, JInt(n), E.arrow(doc, path), E.extract(doc, path))
        == Compare3(E, EQ, E.arrow(doc, path), Integer(n));
    assert EntryMeans(E, path, JInt(n), doc, false) == FieldMeans(E, path, JInt(n), doc);
  }

  /** The document `{"a":1,"c":0}` as the engine reads it. */
  lemma ExampleDigits(text: string)
    requires text == "{\"a\":1," + "\"c\":0}"
    ensures DigitOf(text, "a") == Integer(1) && DigitOf(text, "c") == Integer(0)
  {
    var front, c := "{\"a\":1,", "\"c\":0}";
    DigitFound(c, "c", '0', "}");
    DigitBehind(front, c, "c");
    var a := text[1..];
    assert a == "\"" + "a" + "\":" + ['1'] + ",\"c\":0}";
    DigitFound(a, "a", '1', ",\"c\":0}");
    assert text == "{" + a;
    DigitBehind("{", a, "a");
  }

  lemma ExampleMeans(E: Engine, text: string, path: string)
    requires E == ExampleEngine() && path in {"a", "b", "c"}
    ensures var met := Compare3(E, EQ, DigitOf(text, path), Integer(1));
            && EntriesMean(E, [Field(path, JInt(1))], Text(text), false) == met
            && FilterMeans(E, Equals(path, 1), Text(text), false) == met
  {
    EqualsMeans(E, path, 1, Text(text));
    assert E.arrow(Text(text), path) == DigitOf(text, path);
  }

  lemma ExampleAccepted(filter: Json, items: seq<Json>, after: seq<Field>)
    requires items == [Equals("a", 1), Equals("b", 1)] && after == [Field("c", JInt(1))]
    requires filter == JObj(OrBetween([], items, after))
    ensures PlanFilter(Column("data"), filter, false).Ok?
  {
    EqualsPlan(Column("data"), "a", 1);
    EqualsPlan(Column("data"), "b", 1);
    EqualsPlan(Column("data"), "c", 1);
    OrThenAccepted(Column("data"), items, after);
  }

  lemma ExamplePasses(filter: Json, items: seq<Json>, after: seq<Field>)
    requires items == [Equals("a", 1), Equals("b", 1)] && after == [Field("c", JInt(1))]
    requires filter == JObj(OrBetween([], items, after))
    ensures OrAmongKeys(filter, [], items, after, false)
  {
    EqualsPasses("a", 1);
    EqualsPasses("b", 1);
    EqualsPasses("c", 1);
    TwoItemsPass(items);
  }

  /** `{$or: [{a: 1}, {b: 1}], c: 1}` selects the document `{"a":1,"c":0}`. */
  lemma OrBesideKeyDiffers(E: Engine, text: string, filter: Json, items: seq<Json>, after: seq<Field>)
    requires E == ExampleEngine() && text == "{\"a\":1," + "\"c\":0}"
    requires items == [Equals("a", 1), Equals("b", 1)] && after == [Field("c", JInt(1))]
    requires filter == JObj(OrBetween([], items, after))
    ensures PlanFilter(Column("data"), filter, false).Ok?
    ensures EvalDisj(E, OnDocument(Text(text)), PlanFilter(Column("data"), filter, false).value) == True
    ensures FilterMeans(E, filter, Text(text), false) == False
  {
    ExampleDigits(text);
    ExampleAccepted(filter, items, after);
    ExamplePasses(filter, items, after);
    ExampleMeans(E, text, "a");
    ExampleMeans(E, text, "c");
    OrBetweenReads(E, OnDocument(Text(text)), Column("data"), filter, [], items, after, false);
    OrBetweenEnds(E, filter, [], items, after, Text(text), false);
  }

  lemma TwoItemsPass(items: seq<Json>)
    requires |items| == 2
    requires FilterPasses(OR_STANDS_ALONE, items[0], false) && FilterPasses(OR_STANDS_ALONE, items[1], false)
    ensures ItemsPass(OR_STANDS_ALONE, items, false)
  {
    assert items[1..][1..] == [];
    assert ItemsPass(OR_STANDS_ALONE, [], false);
    assert ItemsPass(OR_STANDS_ALONE, items[1..], false);
  }

  lemma OrThenAccepted(base: SqlExpr, items: seq<Json>, after: seq<Field>)
    requires |items| == 2 && PlanEntries(base, after, false).Ok?
    requires PlanFilter(base, items[0], false).Ok? && PlanFilter(base, items[1], false).Ok?
    ensures PlanFilter(base, JObj(OrBetween([], items, after)), false).Ok?
  {
    var fields := [Field("$or", JArr(items))] + after;
    assert fields[1..] == after && fields[0].key == "$or" && [] + fields == fields;
    assert PlanArms(base, [], false) == Ok([]);
    assert items[1..][1..] == [];
    assert PlanArms(base, items[1..], false).Ok?;
    assert PlanArms(base, items, false).Ok?;
    assert ListOperand("$or", JArr(items)) == Ok(items);
    assert PlanEntry(base, "$or", JArr(items), false) == PlanLogical(base, "$or", JArr(items), false);
  }

  lemma EmptySizePlan(arr: SqlExpr, inner: seq<Field>)
    requires inner == [Field("$size", JObj([]))]
    ensures PlanElemMatch(arr, JObj(inner)).Ok?
  {
    var base := RowValue(Each(arr));
    assert inner[1..] == [];
    SizeName("$size");
    assert PlanSize(ArrayLength(ExtractRoot(base)), JObj([])) == Ok([]);
    assert PlanOp(Size, "$size", JObj([]), Parens(base), ExtractRoot(base)) == Ok([]);
    assert PlanEntry(base, "$size", JObj([]), true).Ok?;
    assert PlanEntries(base, inner, true).Ok?;
  }

  /** `{a: {$elemMatch: {$size: {}}}}` is accepted and its text, `… WHERE )`, is not an expression. */
  lemma EmptySizeIsMalformed(inner: seq<Field>, ops: seq<Field>, filter: Json)
    requires inner == [Field("$size", JObj([]))] && ops == [Field("$elemMatch", JObj(inner))]
    requires filter == JObj([Field("a", JObj(ops))])
    ensures WhereOf("data", filter).Ok?
    ensures var where := WhereOf("data", filter).value;
            Bind(where.sql, where.binds).Some? && Parse(Bind(where.sql, where.binds).value).None?
  {
    EmptySizePlan(Extract(Column("data"), "a"), inner);
    EmptySizeAccepted(Column("data"), ops, inner);
    EmptySizeFails(ops, inner);
    TextIsWellFormed("data", filter);
  }

  lemma EmptySizeAccepted(base: SqlExpr, ops: seq<Field>, inner: seq<Field>)
    requires ops == [Field("$elemMatch", JObj(inner))] && PlanElemMatch(Extract(base, "a"), JObj(inner)).Ok?
    ensures PlanFilter(base, JObj([Field("a", JObj(ops))]), false).Ok?
  {
    var fields := [Field("a", JObj(ops))];
    assert fields[1..] == [];
    PlainPath("a");
    OneElemMatch(Arrow(base, "a"), Extract(base, "a"), JObj(inner));
    assert PlanField(base, "a", JObj(ops)).Ok?;
    assert PlanEntry(base, "a", JObj(ops), false) == OnlyPart(PlanField(base, "a", JObj(ops)));
    assert PlanEntries(base, fields, false).Ok?;
  }

  lemma EmptySizeFails(ops: seq<Field>, inner: seq<Field>)
    requires inner == [Field("$size", JObj([]))] && ops == [Field("$elemMatch", JObj(inner))]
    ensures !FilterPasses(WHERE_IS_NOT_EMPTY, JObj([Field("a", JObj(ops))]), false)
  {
    assert ops[1..] == [];
    PlainPath("a");
    ElemMatchName();
    assert EmptySize(inner[0]);
    assert !FilterPasses(WHERE_IS_NOT_EMPTY, JObj(inner), true);
    assert !OpPasses(WHERE_IS_NOT_EMPTY, ElemMatch, JObj(inner));
    assert !FieldPasses(WHERE_IS_NOT_EMPTY, "a", JObj(ops));
    assert !EntryPasses(WHERE_IS_NOT_EMPTY, "a", JObj(ops), false);
  }
}
