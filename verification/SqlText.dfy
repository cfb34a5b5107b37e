/**
 The WHERE text the filter compiler emits, as tokens, and how SQLite reads it:
 NOT binds tighter than AND, AND tighter than OR, and the `AND` of a BETWEEN
 belongs to the BETWEEN.
 */
module SqlText {
  import opened Prelude

  datatype SqlValue = Null | Integer(i: int) | Real(r: real) | Text(s: string)

  /**
   Scalar SQL expressions. An alias carries the text it is hashed from, which is
   the hypothesis that the 64-bit FNV-1a names of nested scopes do not collide.
   */
  datatype SqlExpr =
    | Column(name: string)                  // the base text handed to the compiler
    | RowValue(alias: Alias)                // alias.value
    | RowAtom(alias: Alias)                 // alias.atom
    | RowFullkey(alias: Alias)              // alias.fullkey
    | Arrow(base: SqlExpr, path: string)    // base ->> '$.path'
    | Extract(base: SqlExpr, path: string)  // json_extract(base, '$.path')
    | ExtractRoot(base: SqlExpr)            // json_extract(base, '$')
    | Parens(base: SqlExpr)                 // (base)
    | ArrayLength(base: SqlExpr)            // json_array_length(base)
    | TypeOf(base: SqlExpr)                 // json_type(base)
    | Lower(base: SqlExpr)                  // LOWER(base)

  datatype Alias = Je | Each(arg: SqlExpr) | Tree(base: SqlExpr, path: string)

  datatype Source = EachRow(arg: SqlExpr, alias: Alias) | TreeRow(arg: SqlExpr, alias: Alias)

  datatype CmpOp = EQ | NE | GT | GE | LT | LE | LIKE | REGEXP

  datatype Token =
    | NOT | AND | OR | LPAREN | RPAREN | COMMA
    | ONE_IS_ONE                 // 1=1
    | EXISTS(source: Source)     // EXISTS (SELECT 1 FROM source WHERE
    | OPERAND(e: SqlExpr)
    | CMP(op: CmpOp)
    | IS_NULL | IS_NOT_NULL | IN | BETWEEN
    | LOWER                      // LOWER(
    | LITERAL(text: string)      // 'text'
    | PARAM                      // ?
    | BOUND(v: SqlValue)         // a ? with its bind value in place

  /** The right-hand side of a comparison. */
  datatype Rhs = Plain(v: SqlValue) | Lowered(v: SqlValue) | Quoted(text: string)

  datatype Pred =
    | OneIsOne
    | Compare(lhs: SqlExpr, op: CmpOp, rhs: Rhs)
    | NullTest(lhs: SqlExpr, negated: bool)
    | Member(lhs: SqlExpr, negated: bool, first: SqlValue, others: seq<SqlValue>)
    | Range(lhs: SqlExpr, lo: SqlValue, hi: SqlValue)

  /**
   Concrete syntax, one datatype a precedence level. `Blank` is the missing
   expression of an empty WHERE or empty parentheses; it has no text.
   */
  datatype Disj = One(c: Conj) | Or(c: Conj, rest: Disj)
  datatype Conj = Just(f: Factor) | And(f: Factor, rest: Conj)
  datatype Factor =
    | Blank
    | Test(p: Pred)
    | Neg(f: Factor)
    | Group(d: Disj)
    | Exists(source: Source, d: Disj)

  // ---------------------------------------------------------------- printing
  //
  // Printing with `bound` gives the text with its values in place; without it, the
  // statement text, where each value is a `?`.

  function Slot(v: SqlValue, bound: bool): Token
  {
    if bound then BOUND(v) else PARAM
  }

  function RhsTokens(r: Rhs, bound: bool := true): seq<Token>
  {
    match r
    case Plain(v) => [Slot(v, bound)]
    case Lowered(v) => [LOWER, Slot(v, bound), RPAREN]
    case Quoted(t) => [LITERAL(t)]
  }

  /** `, v` for every value, then the closing parenthesis. */
  function ListTail(vs: seq<SqlValue>, bound: bool := true): seq<Token>
  {
    if vs == [] then [RPAREN] else [COMMA, Slot(vs[0], bound)] + ListTail(vs[1..], bound)
  }

  function MemberList(first: SqlValue, others: seq<SqlValue>, bound: bool := true): seq<Token>
  {
    [LPAREN, Slot(first, bound)] + ListTail(others, bound)
  }

  function PredTokens(p: Pred, bound: bool := true): seq<Token>
  {
    match p
    case OneIsOne => [ONE_IS_ONE]
    case Compare(e, op, r) => [OPERAND(e), CMP(op)] + RhsTokens(r, bound)
    case NullTest(e, negated) => [OPERAND(e), if negated then IS_NOT_NULL else IS_NULL]
    case Member(e, negated, first, others) =>
      (if negated then [OPERAND(e), NOT, IN] else [OPERAND(e), IN]) + MemberList(first, others, bound)
    case Range(e, lo, hi) => [OPERAND(e), BETWEEN, Slot(lo, bound), AND, Slot(hi, bound)]
  }

  function DisjTokens(d: Disj, bound: bool := true): seq<Token>
    decreases d
  {
    match d
    case One(c) => ConjTokens(c, bound)
    case Or(c, rest) => ConjTokens(c, bound) + [OR] + DisjTokens(rest, bound)
  }

  function ConjTokens(c: Conj, bound: bool := true): seq<Token>
    decreases c
  {
    match c
    case Just(f) => FactorTokens(f, bound)
    case And(f, rest) => FactorTokens(f, bound) + [AND] + ConjTokens(rest, bound)
  }

  function FactorTokens(f: Factor, bound: bool := true): seq<Token>
    decreases f
  {
    match f
    case Blank => []
    case Test(p) => PredTokens(p, bound)
    case Neg(g) => [NOT] + FactorTokens(g, bound)
    case Group(d) => Closed(LPAREN, DisjTokens(d, bound))
    case Exists(source, d) => Closed(EXISTS(source), DisjTokens(d, bound))
  }

  /** A text between an opening token and its closing parenthesis. */
  function Closed(open: Token, text: seq<Token>): seq<Token>
  {
    [open] + (text + [RPAREN])
  }

  // ------------------------------------------------------------ bound values

  function PredBinds(p: Pred): seq<SqlValue>
  {
    match p
    case Compare(_, _, Plain(v)) => [v]
    case Compare(_, _, Lowered(v)) => [v]
    case Member(_, _, first, others) => [first] + others
    case Range(_, lo, hi) => [lo, hi]
    case _ => []
  }

  /** The values of an expression, left to right. */
  function DisjBinds(d: Disj): seq<SqlValue>
  {
    match d
    case One(c) => ConjBinds(c)
    case Or(c, rest) => ConjBinds(c) + DisjBinds(rest)
  }

  function ConjBinds(c: Conj): seq<SqlValue>
  {
    match c
    case Just(f) => FactorBinds(f)
    case And(f, rest) => FactorBinds(f) + ConjBinds(rest)
  }

  function FactorBinds(f: Factor): seq<SqlValue>
  {
    match f
    case Blank => []
    case Test(p) => PredBinds(p)
    case Neg(g) => FactorBinds(g)
    case Group(d) => DisjBinds(d)
    case Exists(_, d) => DisjBinds(d)
  }

  predicate DisjWhole(d: Disj)
  {
    match d
    case One(c) => ConjWhole(c)
    case Or(c, rest) => ConjWhole(c) && DisjWhole(rest)
  }

  predicate ConjWhole(c: Conj)
  {
    match c
    case Just(f) => FactorWhole(f)
    case And(f, rest) => FactorWhole(f) && ConjWhole(rest)
  }

  predicate FactorWhole(f: Factor)
  {
    match f
    case Blank => false
    case Test(_) => true
    case Neg(g) => FactorWhole(g)
    case Group(d) => DisjWhole(d)
    case Exists(_, d) => DisjWhole(d)
  }

  // ----------------------------------------------------------------- binding

  /** Positional binding: the k-th `?` takes the k-th value; None when the numbers differ. */
  function Bind(sql: seq<Token>, binds: seq<SqlValue>): Option<seq<Token>>
  {
    if sql == [] then (if binds == [] then Some([]) else None)
    else if sql[0] == PARAM then
      if binds == [] then None
      else match Bind(sql[1..], binds[1..])
           case None => None
           case Some(ts) => Some([BOUND(binds[0])] + ts)
    else match Bind(sql[1..], binds)
         case None => None
         case Some(ts) => Some([sql[0]] + ts)
  }

  lemma {:induction false} BindAppend(a: seq<Token>, x: seq<SqlValue>, b: seq<Token>, y: seq<SqlValue>)
    requires Bind(a, x).Some? && Bind(b, y).Some?
    ensures Bind(a + b, x + y) == Some(Bind(a, x).value + Bind(b, y).value)
  {
    if a == [] {
      assert a + b == b && x + y == y;
      assert [] + Bind(b, y).value == Bind(b, y).value;
    } else {
      assert (a + b)[0] == a[0] && (a + b)[1..] == a[1..] + b;
      if a[0] == PARAM {
        assert (x + y)[0] == x[0] && (x + y)[1..] == x[1..] + y;
        BindAppend(a[1..], x[1..], b, y);
        assert [BOUND(x[0])] + Bind(a[1..], x[1..]).value + Bind(b, y).value
            == [BOUND(x[0])] + (Bind(a[1..], x[1..]).value + Bind(b, y).value);
      } else {
        BindAppend(a[1..], x, b, y);
        assert [a[0]] + Bind(a[1..], x).value + Bind(b, y).value
            == [a[0]] + (Bind(a[1..], x).value + Bind(b, y).value);
      }
    }
  }

  lemma BindToken(t: Token)
    requires t != PARAM
    ensures Bind([t], []) == Some([t])
  {
    assert [t][1..] == [];
    assert Bind([], []) == Some([]);
    assert [t] + [] == [t];
  }

  lemma BindSlot(v: SqlValue)
    ensures Bind([PARAM], [v]) == Some([BOUND(v)])
  {
    assert [PARAM][1..] == [] && [v][1..] == [];
    assert Bind([], []) == Some([]);
    assert [BOUND(v)] + [] == [BOUND(v)];
  }

  lemma BindFirst(t: Token, ts: seq<Token>, binds: seq<SqlValue>)
    requires t != PARAM && Bind(ts, binds).Some?
    ensures Bind([t] + ts, binds) == Some([t] + Bind(ts, binds).value)
  {
    BindToken(t);
    BindAppend([t], [], ts, binds);
    assert [] + binds == binds;
  }

  lemma BindLast(ts: seq<Token>, binds: seq<SqlValue>, t: Token)
    requires t != PARAM && Bind(ts, binds).Some?
    ensures Bind(ts + [t], binds) == Some(Bind(ts, binds).value + [t])
  {
    BindToken(t);
    BindAppend(ts, binds, [t], []);
    assert binds + [] == binds;
  }

  lemma {:induction false} BindList(vs: seq<SqlValue>)
    ensures Bind(ListTail(vs, false), vs) == Some(ListTail(vs))
  {
    if vs == [] {
      BindToken(RPAREN);
    } else {
      BindList(vs[1..]);
      BindSlot(vs[0]);
      BindFirst(COMMA, [PARAM], [vs[0]]);
      assert [COMMA] + [PARAM] == [COMMA, PARAM] && [COMMA] + [BOUND(vs[0])] == [COMMA, BOUND(vs[0])];
      BindAppend([COMMA, PARAM], [vs[0]], ListTail(vs[1..], false), vs[1..]);
      assert vs == [vs[0]] + vs[1..];
    }
  }

  lemma BindRhs(r: Rhs)
    ensures Bind(RhsTokens(r, false), if r.Quoted? then [] else [r.v]) == Some(RhsTokens(r))
  {
    match r
    case Plain(v) => BindSlot(v);
    case Quoted(t) => BindToken(LITERAL(t));
    case Lowered(v) =>
      BindSlot(v);
      BindFirst(LOWER, [PARAM], [v]);
      BindLast([LOWER] + [PARAM], [v], RPAREN);
      assert RhsTokens(r, false) == [LOWER] + [PARAM] + [RPAREN];
      assert RhsTokens(r) == [LOWER] + [BOUND(v)] + [RPAREN];
  }

  lemma BindMember(e: SqlExpr, negated: bool, first: SqlValue, others: seq<SqlValue>)
    ensures Bind(MemberList(first, others, false), [first] + others) == Some(MemberList(first, others))
  {
    BindSlot(first);
    BindFirst(LPAREN, [PARAM], [first]);
    assert [LPAREN] + [PARAM] == [LPAREN, PARAM] && [LPAREN] + [BOUND(first)] == [LPAREN, BOUND(first)];
    BindList(others);
    BindAppend([LPAREN, PARAM], [first], ListTail(others, false), others);
  }

  lemma BindRange(e: SqlExpr, lo: SqlValue, hi: SqlValue)
    ensures Bind(PredTokens(Range(e, lo, hi), false), [lo, hi]) == Some(PredTokens(Range(e, lo, hi)))
  {
    BindSlot(lo);
    BindSlot(hi);
    BindFirst(AND, [PARAM], [hi]);
    BindAppend([PARAM], [lo], [AND] + [PARAM], [hi]);
    assert [lo] + [hi] == [lo, hi];
    BindFirst(BETWEEN, [PARAM] + ([AND] + [PARAM]), [lo, hi]);
    BindFirst(OPERAND(e), [BETWEEN] + ([PARAM] + ([AND] + [PARAM])), [lo, hi]);
    assert PredTokens(Range(e, lo, hi), false) == [OPERAND(e)] + ([BETWEEN] + ([PARAM] + ([AND] + [PARAM])));
    assert PredTokens(Range(e, lo, hi)) == [OPERAND(e)] + ([BETWEEN] + ([BOUND(lo)] + ([AND] + [BOUND(hi)])));
  }

  lemma BindPred(p: Pred)
    ensures Bind(PredTokens(p, false), PredBinds(p)) == Some(PredTokens(p))
  {
    match p
    case OneIsOne => BindToken(ONE_IS_ONE);
    case NullTest(e, negated) =>
      var t := if negated then IS_NOT_NULL else IS_NULL;
      BindToken(t);
      BindFirst(OPERAND(e), [t], []);
      assert PredTokens(p) == [OPERAND(e)] + [t];
    case Compare(e, op, r) =>
      BindRhs(r);
      var binds := if r.Quoted? then [] else [r.v];
      BindFirst(CMP(op), RhsTokens(r, false), binds);
      BindFirst(OPERAND(e), [CMP(op)] + RhsTokens(r, false), binds);
      assert PredTokens(p, false) == [OPERAND(e)] + ([CMP(op)] + RhsTokens(r, false));
      assert PredTokens(p) == [OPERAND(e)] + ([CMP(op)] + RhsTokens(r));
    case Member(e, negated, first, others) =>
      BindMember(e, negated, first, others);
      BindPrefixes(e, negated, MemberList(first, others, false), PredBinds(p));
    case Range(e, lo, hi) => BindRange(e, lo, hi);
  }

  lemma {:induction false} BindPlain(ts: seq<Token>)
    requires PARAM !in ts
    ensures Bind(ts, []) == Some(ts)
  {
    if ts != [] {
      BindPlain(ts[1..]);
      assert ts == [ts[0]] + ts[1..];
    }
  }

  lemma BindPrefixes(e: SqlExpr, negated: bool, list: seq<Token>, binds: seq<SqlValue>)
    requires Bind(list, binds).Some?
    ensures var prefix := if negated then [OPERAND(e), NOT, IN] else [OPERAND(e), IN];
            Bind(prefix + list, binds) == Some(prefix + Bind(list, binds).value)
  {
    var prefix := if negated then [OPERAND(e), NOT, IN] else [OPERAND(e), IN];
    BindPlain(prefix);
    BindAppend(prefix, [], list, binds);
    assert [] + binds == binds;
  }

  lemma BindClosed(open: Token, text: seq<Token>, binds: seq<SqlValue>)
    requires open != PARAM && Bind(text, binds).Some?
    ensures Bind(Closed(open, text), binds) == Some(Closed(open, Bind(text, binds).value))
  {
    BindLast(text, binds, RPAREN);
    BindFirst(open, text + [RPAREN], binds);
  }

  /** Binding the values of an expression into its statement text gives the bound text. */
  lemma {:induction false} BindDisj(d: Disj)
    ensures Bind(DisjTokens(d, false), DisjBinds(d)) == Some(DisjTokens(d))
  {
    BindConj(d.c);
    if d.Or? {
      BindDisj(d.rest);
      BindLast(ConjTokens(d.c, false), ConjBinds(d.c), OR);
      BindAppend(ConjTokens(d.c, false) + [OR], ConjBinds(d.c), DisjTokens(d.rest, false), DisjBinds(d.rest));
    }
  }

  lemma {:induction false} BindConj(c: Conj)
    ensures Bind(ConjTokens(c, false), ConjBinds(c)) == Some(ConjTokens(c))
  {
    BindFactor(c.f);
    if c.And? {
      BindConj(c.rest);
      BindLast(FactorTokens(c.f, false), FactorBinds(c.f), AND);
      BindAppend(FactorTokens(c.f, false) + [AND], FactorBinds(c.f), ConjTokens(c.rest, false), ConjBinds(c.rest));
    }
  }

  lemma {:induction false} BindFactor(f: Factor)
    ensures Bind(FactorTokens(f, false), FactorBinds(f)) == Some(FactorTokens(f))
  {
    match f
    case Blank =>
    case Test(p) => BindPred(p);
    case Neg(g) =>
      BindFactor(g);
      BindFirst(NOT, FactorTokens(g, false), FactorBinds(g));
    case Group(d) =>
      BindDisj(d);
      BindClosed(LPAREN, DisjTokens(d, false), DisjBinds(d));
    case Exists(source, d) =>
      BindDisj(d);
      BindClosed(EXISTS(source), DisjTokens(d, false), DisjBinds(d));
  }

  // ----------------------------------------------------------------- parsing

  type Parsed<T> = Option<(T, seq<Token>)>

  function ParseDisj(ts: seq<Token>): (r: Parsed<Disj>)
    ensures r.Some? ==> |r.value.1| < |ts|
    decreases |ts|, 2
  {
    match ParseConj(ts)
    case None => None
    case Some((c, rest)) =>
      if rest != [] && rest[0] == OR then
        match ParseDisj(rest[1..])
        case None => None
        case Some((d, rest')) => Some((Or(c, d), rest'))
      else Some((One(c), rest))
  }

  function ParseConj(ts: seq<Token>): (r: Parsed<Conj>)
    ensures r.Some? ==> |r.value.1| < |ts|
    decreases |ts|, 1
  {
    match ParseFactor(ts)
    case None => None
    case Some((f, rest)) =>
      if rest != [] && rest[0] == AND then
        match ParseConj(rest[1..])
        case None => None
        case Some((c, rest')) => Some((And(f, c), rest'))
      else Some((Just(f), rest))
  }

  function ParseFactor(ts: seq<Token>): (r: Parsed<Factor>)
    ensures r.Some? ==> |r.value.1| < |ts|
    decreases |ts|, 0
  {
    if ts == [] then None
    else match ts[0]
      case NOT =>
        (match ParseFactor(ts[1..])
         case None => None
         case Some((f, rest)) => Some((Neg(f), rest)))
      case LPAREN =>
        (match ParseClosed(ts[1..])
         case None => None
         case Some((d, rest)) => Some((Group(d), rest)))
      case EXISTS(source) =>
        (match ParseClosed(ts[1..])
         case None => None
         case Some((d, rest)) => Some((Exists(source, d), rest)))
      case _ =>
        match ParsePred(ts)
        case None => None
        case Some((p, rest)) => Some((Test(p), rest))
  }

  /** An expression and its closing parenthesis. */
  function ParseClosed(ts: seq<Token>): (r: Parsed<Disj>)
    ensures r.Some? ==> |r.value.1| < |ts|
    decreases |ts|, 3
  {
    match ParseDisj(ts)
    case None => None
    case Some((d, rest)) => if rest != [] && rest[0] == RPAREN then Some((d, rest[1..])) else None
  }

  function ParsePred(ts: seq<Token>): (r: Parsed<Pred>)
    requires ts != []
    ensures r.Some? ==> |r.value.1| < |ts|
  {
    if ts[0] == ONE_IS_ONE then Some((OneIsOne, ts[1..]))
    else if !ts[0].OPERAND? || |ts| < 2 then None
    else
      var e := ts[0].e;
      match ts[1]
      case IS_NULL => Some((NullTest(e, false), ts[2..]))
      case IS_NOT_NULL => Some((NullTest(e, true), ts[2..]))
      case CMP(op) =>
        (match ParseRhs(ts[2..])
         case None => None
         case Some((r, rest)) => Some((Compare(e, op, r), rest)))
      case BETWEEN =>
        if |ts| >= 5 && ts[2].BOUND? && ts[3] == AND && ts[4].BOUND?
        then Some((Range(e, ts[2].v, ts[4].v), ts[5..]))
        else None
      case IN => ParseMember(e, false, ts[2..])
      case NOT => if |ts| >= 3 && ts[2] == IN then ParseMember(e, true, ts[3..]) else None
      case _ => None
  }

  function ParseRhs(ts: seq<Token>): (r: Parsed<Rhs>)
    ensures r.Some? ==> |r.value.1| < |ts|
  {
    if ts == [] then None
    else if ts[0].BOUND? then Some((Plain(ts[0].v), ts[1..]))
    else if ts[0].LITERAL? then Some((Quoted(ts[0].text), ts[1..]))
    else if ts[0] == LOWER && |ts| >= 3 && ts[1].BOUND? && ts[2] == RPAREN
    then Some((Lowered(ts[1].v), ts[3..]))
    else None
  }

  function ParseMember(e: SqlExpr, negated: bool, ts: seq<Token>): (r: Parsed<Pred>)
    ensures r.Some? ==> |r.value.1| < |ts|
  {
    if |ts| < 2 || ts[0] != LPAREN || !ts[1].BOUND? then None
    else match ParseList(ts[2..])
      case None => None
      case Some((vs, rest)) => Some((Member(e, negated, ts[1].v, vs), rest))
  }

  function ParseList(ts: seq<Token>): (r: Parsed<seq<SqlValue>>)
    ensures r.Some? ==> |r.value.1| < |ts|
  {
    if ts == [] then None
    else if ts[0] == RPAREN then Some(([], ts[1..]))
    else if |ts| >= 2 && ts[0] == COMMA && ts[1].BOUND? then
      match ParseList(ts[2..])
      case None => None
      case Some((vs, rest)) => Some(([ts[1].v] + vs, rest))
    else None
  }

  /** A whole expression: everything must be consumed. */
  function Parse(ts: seq<Token>): Option<Disj>
  {
    match ParseDisj(ts)
    case None => None
    case Some((d, rest)) => if rest == [] then Some(d) else None
  }

  // --------------------------------------------------------------- round trip

  lemma {:induction false} ListRoundTrip(vs: seq<SqlValue>, rest: seq<Token>)
    ensures ParseList(ListTail(vs) + rest) == Some((vs, rest))
  {
    var ts := ListTail(vs) + rest;
    if vs == [] {
      assert ts[1..] == rest;
    } else {
      assert ts[2..] == ListTail(vs[1..]) + rest;
      ListRoundTrip(vs[1..], rest);
      assert vs == [vs[0]] + vs[1..];
    }
  }

  lemma RhsRoundTrip(r: Rhs, rest: seq<Token>)
    ensures ParseRhs(RhsTokens(r) + rest) == Some((r, rest))
  {
    var ts := RhsTokens(r) + rest;
    if r.Lowered? {
      assert ts[3..] == rest;
    } else {
      assert ts[1..] == rest;
    }
  }

  lemma MemberListRoundTrip(e: SqlExpr, negated: bool, first: SqlValue, others: seq<SqlValue>, rest: seq<Token>)
    ensures ParseMember(e, negated, MemberList(first, others) + rest)
         == Some((Member(e, negated, first, others), rest))
  {
    var list := MemberList(first, others) + rest;
    assert list[0] == LPAREN && list[1] == BOUND(first);
    assert list[2..] == ListTail(others) + rest;
    ListRoundTrip(others, rest);
  }

  lemma MemberRoundTrip(e: SqlExpr, negated: bool, list: seq<Token>, p: Pred, rest: seq<Token>)
    requires ParseMember(e, negated, list + rest) == Some((p, rest))
    ensures ParsePred((if negated then [OPERAND(e), NOT, IN] else [OPERAND(e), IN]) + list + rest) == Some((p, rest))
  {
    var prefix := if negated then [OPERAND(e), NOT, IN] else [OPERAND(e), IN];
    var ts := prefix + list + rest;
    assert ts[0] == prefix[0] && ts[1] == prefix[1] && (negated ==> ts[2] == prefix[2]);
    assert ts[|prefix|..] == list + rest;
  }

  lemma PredRoundTrip(p: Pred, rest: seq<Token>)
    ensures ParsePred(PredTokens(p) + rest) == Some((p, rest))
  {
    var ts := PredTokens(p) + rest;
    match p
    case OneIsOne =>
      assert ts[1..] == rest;
    case Compare(e, op, r) =>
      assert ts[2..] == RhsTokens(r) + rest;
      RhsRoundTrip(r, rest);
    case NullTest(_, _) =>
      assert ts[2..] == rest;
    case Member(e, negated, first, others) =>
      MemberListRoundTrip(e, negated, first, others, rest);
      MemberRoundTrip(e, negated, MemberList(first, others), p, rest);
    case Range(_, _, _) =>
      assert ts[5..] == rest;
  }

  predicate EndsExpr(rest: seq<Token>)
  {
    rest == [] || rest[0] == RPAREN
  }

  predicate EndsConj(rest: seq<Token>)
  {
    EndsExpr(rest) || rest[0] == OR
  }

  predicate EndsFactor(rest: seq<Token>)
  {
    EndsConj(rest) || rest[0] == AND
  }

  function Outcome<T>(whole: bool, t: T, rest: seq<Token>): Parsed<T>
  {
    if whole then Some((t, rest)) else None
  }

  /** Reading printed text gives the tree back, or fails when an expression is missing. */
  lemma {:induction false} DisjRoundTrip(d: Disj, rest: seq<Token>)
    requires EndsExpr(rest)
    ensures ParseDisj(DisjTokens(d) + rest) == Outcome(DisjWhole(d), d, rest)
    decreases d, 0
  {
    match d
    case One(c) =>
      ConjRoundTrip(c, rest);
    case Or(c, d') =>
      var tail := [OR] + DisjTokens(d') + rest;
      assert DisjTokens(d) + rest == ConjTokens(c) + tail;
      ConjRoundTrip(c, tail);
      assert tail[1..] == DisjTokens(d') + rest;
      DisjRoundTrip(d', rest);
  }

  lemma {:induction false} ConjRoundTrip(c: Conj, rest: seq<Token>)
    requires EndsConj(rest)
    ensures ParseConj(ConjTokens(c) + rest) == Outcome(ConjWhole(c), c, rest)
    decreases c, 0
  {
    match c
    case Just(f) =>
      FactorRoundTrip(f, rest);
    case And(f, c') =>
      var tail := [AND] + ConjTokens(c') + rest;
      assert ConjTokens(c) + rest == FactorTokens(f) + tail;
      FactorRoundTrip(f, tail);
      assert tail[1..] == ConjTokens(c') + rest;
      ConjRoundTrip(c', rest);
  }

  lemma {:induction false} FactorRoundTrip(f: Factor, rest: seq<Token>)
    requires EndsFactor(rest)
    ensures ParseFactor(FactorTokens(f) + rest) == Outcome(FactorWhole(f), f, rest)
    decreases f, 0
  {
    var ts := FactorTokens(f) + rest;
    match f
    case Blank =>
      assert ts == rest;
    case Test(p) =>
      PredRoundTrip(p, rest);
    case Neg(g) =>
      assert ts[1..] == FactorTokens(g) + rest;
      FactorRoundTrip(g, rest);
    case Group(d) =>
      ClosedRoundTrip(d, rest, ts);
    case Exists(_, d) =>
      ClosedRoundTrip(d, rest, ts);
  }

  lemma {:induction false} ClosedRoundTrip(d: Disj, rest: seq<Token>, ts: seq<Token>)
    requires |ts| > 0 && ts == Closed(ts[0], DisjTokens(d)) + rest
    ensures ParseClosed(ts[1..]) == Outcome(DisjWhole(d), d, rest)
    decreases d, 1
  {
    var tail := [RPAREN] + rest;
    assert ts[1..] == DisjTokens(d) + tail;
    DisjRoundTrip(d, tail);
    assert tail[1..] == rest;
  }

  /**
   SQLite reads a printed expression back as the same tree exactly when no
   expression is missing from it.
   */
  lemma ParseOfTokens(d: Disj)
    ensures Parse(DisjTokens(d)) == if DisjWhole(d) then Some(d) else None
  {
    assert DisjTokens(d) + [] == DisjTokens(d);
    DisjRoundTrip(d, []);
  }

  // ----------------------------------------------------------------- joining

  function AppendConj(a: Conj, b: Conj): Conj
  {
    match a
    case Just(f) => And(f, b)
    case And(f, rest) => And(f, AppendConj(rest, b))
  }

  /** How `a AND b` reads when the texts of a and b are put side by side unparenthesised. */
  function JoinAnd(a: Disj, b: Disj): (d: Disj)
    ensures d.One? <==> a.One? && b.One?
  {
    match a
    case Or(c, rest) => Or(c, JoinAnd(rest, b))
    case One(c) =>
      match b
      case One(c') => One(AppendConj(c, c'))
      case Or(c', rest') => Or(AppendConj(c, c'), rest')
  }

  function JoinOr(a: Disj, b: Disj): Disj
  {
    match a
    case One(c) => Or(c, b)
    case Or(c, rest) => Or(c, JoinOr(rest, b))
  }

  /** Every part is a conjunction: no OR at its top. */
  predicate AllConjunctions(parts: seq<Disj>)
  {
    forall i | 0 <= i < |parts| :: parts[i].One?
  }

  /** `parts.join(" AND ")` as a tree. */
  function JoinAll(parts: seq<Disj>): (d: Disj)
    ensures d.One? <==> AllConjunctions(parts)
  {
    if parts == [] then One(Just(Blank))
    else if |parts| == 1 then parts[0]
    else JoinAnd(parts[0], JoinAll(parts[1..]))
  }

  /** `arms.join(" OR ")` as a tree. */
  function JoinAny(arms: seq<Disj>): Disj
  {
    if arms == [] then One(Just(Blank))
    else if |arms| == 1 then arms[0]
    else JoinOr(arms[0], JoinAny(arms[1..]))
  }

  /** `Vec::join` on texts. */
  function JoinTexts(texts: seq<seq<Token>>, sep: Token): seq<Token>
  {
    if texts == [] then []
    else if |texts| == 1 then texts[0]
    else texts[0] + [sep] + JoinTexts(texts[1..], sep)
  }

  lemma {:induction false} AppendConjText(a: Conj, b: Conj, bound: bool)
    ensures ConjTokens(AppendConj(a, b), bound) == ConjTokens(a, bound) + [AND] + ConjTokens(b, bound)
    ensures ConjBinds(AppendConj(a, b)) == ConjBinds(a) + ConjBinds(b)
    decreases a
  {
    if a.And? {
      AppendConjText(a.rest, b, bound);
    }
  }

  lemma {:induction false} JoinAndText(a: Disj, b: Disj, bound: bool)
    ensures DisjTokens(JoinAnd(a, b), bound) == DisjTokens(a, bound) + [AND] + DisjTokens(b, bound)
    ensures DisjBinds(JoinAnd(a, b)) == DisjBinds(a) + DisjBinds(b)
    decreases a
  {
    match a
    case Or(c, rest) => JoinAndText(rest, b, bound);
    case One(c) => AppendConjText(c, b.c, bound);
  }

  lemma {:induction false} JoinOrText(a: Disj, b: Disj, bound: bool)
    ensures DisjTokens(JoinOr(a, b), bound) == DisjTokens(a, bound) + [OR] + DisjTokens(b, bound)
    ensures DisjBinds(JoinOr(a, b)) == DisjBinds(a) + DisjBinds(b)
    decreases a
  {
    if a.Or? {
      JoinOrText(a.rest, b, bound);
    }
  }
}
