/** Three-valued evaluation of a WHERE expression on one document. */
module SqlEval {
  import opened SqlText

  datatype Tri = True | False | Unknown

  function FromBool(b: bool): Tri
  {
    if b then True else False
  }

  function Not3(a: Tri): Tri
  {
    match a
    case True => False
    case False => True
    case Unknown => Unknown
  }

  function And3(a: Tri, b: Tri): Tri
  {
    if a == False || b == False then False
    else if a == Unknown || b == Unknown then Unknown
    else True
  }

  function Or3(a: Tri, b: Tri): Tri
  {
    if a == True || b == True then True
    else if a == Unknown || b == Unknown then Unknown
    else False
  }

  /** False, unknown and true as 0, 1 and 2. */
  function Truth(t: Tri): nat
  {
    match t
    case False => 0
    case Unknown => 1
    case True => 2
  }

  /** AND takes the lesser of two truth values, OR the greater, and NOT turns the order round. */
  lemma TruthTables(a: Tri, b: Tri)
    ensures Truth(And3(a, b)) == if Truth(a) <= Truth(b) then Truth(a) else Truth(b)
    ensures Truth(Or3(a, b)) == if Truth(a) <= Truth(b) then Truth(b) else Truth(a)
    ensures Truth(Not3(a)) == 2 - Truth(a)
  {
  }

  datatype TreeNode = TreeNode(fullkey: SqlValue, atom: SqlValue, value: SqlValue)

  /**
   The parts of SQLite that are not modelled, as arbitrary functions: JSON
   access, the order of non-null values, LIKE and REGEXP, and the row sources.
   */
  datatype Engine = Engine(
    arrow: (SqlValue, string) -> SqlValue,
    extract: (SqlValue, string) -> SqlValue,
    root: SqlValue -> SqlValue,
    arrayLength: SqlValue -> SqlValue,
    typeOf: SqlValue -> SqlValue,
    lower: SqlValue -> SqlValue,
    order: (SqlValue, SqlValue) -> int,
    like: (SqlValue, SqlValue) -> bool,
    regexp: (SqlValue, SqlValue) -> bool,
    each: SqlValue -> seq<SqlValue>,
    tree: SqlValue -> seq<TreeNode>)

  /** Comparing with NULL is unknown. */
  function Compare3(E: Engine, op: CmpOp, a: SqlValue, b: SqlValue): Tri
  {
    if a == Null || b == Null then Unknown
    else FromBool(match op
      case EQ => E.order(a, b) == 0
      case NE => E.order(a, b) != 0
      case GT => E.order(a, b) > 0
      case GE => E.order(a, b) >= 0
      case LT => E.order(a, b) < 0
      case LE => E.order(a, b) <= 0
      case LIKE => E.like(a, b)
      case REGEXP => E.regexp(a, b))
  }

  /** Equality with some value of the list. */
  function EqualsAny(E: Engine, a: SqlValue, vs: seq<SqlValue>): Tri
  {
    if vs == [] then False else Or3(Compare3(E, EQ, a, vs[0]), EqualsAny(E, a, vs[1..]))
  }

  /** The column the text starts from, and the current row of each open FROM clause. */
  datatype Scope = Scope(column: SqlValue, rows: map<Alias, TreeNode>)

  function Rows(E: Engine, source: Source, arg: SqlValue): seq<TreeNode>
  {
    match source
    case EachRow(_, _) => seq(|E.each(arg)|, i requires 0 <= i < |E.each(arg)| => TreeNode(Null, Null, E.each(arg)[i]))
    case TreeRow(_, _) => E.tree(arg)
  }

  function RowOf(sc: Scope, alias: Alias): TreeNode
  {
    if alias in sc.rows then sc.rows[alias] else TreeNode(Null, Null, Null)
  }

  function Enter(sc: Scope, alias: Alias, row: TreeNode): Scope
  {
    sc.(rows := sc.rows[alias := row])
  }

  /** A FROM clause's own alias is not visible to its argument. */
  function Outside(sc: Scope, alias: Alias): Scope
  {
    sc.(rows := sc.rows - {alias})
  }

  function EvalExpr(E: Engine, sc: Scope, e: SqlExpr): SqlValue
  {
    match e
    case Column(_) => sc.column
    case RowValue(alias) => RowOf(sc, alias).value
    case RowAtom(alias) => RowOf(sc, alias).atom
    case RowFullkey(alias) => RowOf(sc, alias).fullkey
    case Arrow(base, path) => E.arrow(EvalExpr(E, sc, base), path)
    case Extract(base, path) => E.extract(EvalExpr(E, sc, base), path)
    case ExtractRoot(base) => E.root(EvalExpr(E, sc, base))
    case Parens(base) => EvalExpr(E, sc, base)
    case ArrayLength(base) => E.arrayLength(EvalExpr(E, sc, base))
    case TypeOf(base) => E.typeOf(EvalExpr(E, sc, base))
    case Lower(base) => E.lower(EvalExpr(E, sc, base))
  }

  function EvalRhs(E: Engine, r: Rhs): SqlValue
  {
    match r
    case Plain(v) => v
    case Lowered(v) => E.lower(v)
    case Quoted(t) => Text(t)
  }

  function EvalPred(E: Engine, sc: Scope, p: Pred): Tri
  {
    match p
    case OneIsOne => True
    case Compare(e, op, r) => Compare3(E, op, EvalExpr(E, sc, e), EvalRhs(E, r))
    case NullTest(e, negated) => FromBool((EvalExpr(E, sc, e) == Null) != negated)
    case Member(e, negated, first, others) =>
      var m := EqualsAny(E, EvalExpr(E, sc, e), [first] + others);
      if negated then Not3(m) else m
    case Range(e, lo, hi) =>
      var x := EvalExpr(E, sc, e);
      And3(Compare3(E, GE, x, lo), Compare3(E, LE, x, hi))
  }

  /** EXISTS counts a row only when its WHERE is true, and is itself never unknown. */
  ghost function EvalFactor(E: Engine, sc: Scope, f: Factor): Tri
    decreases f
  {
    match f
    case Blank => True
    case Test(p) => EvalPred(E, sc, p)
    case Neg(g) => Not3(EvalFactor(E, sc, g))
    case Group(d) => EvalDisj(E, sc, d)
    case Exists(source, d) =>
      var rows := Rows(E, source, EvalExpr(E, Outside(sc, source.alias), source.arg));
      FromBool(exists i :: 0 <= i < |rows| && EvalDisj(E, Enter(sc, source.alias, rows[i]), d) == True)
  }

  ghost function EvalConj(E: Engine, sc: Scope, c: Conj): Tri
    decreases c
  {
    match c
    case Just(f) => EvalFactor(E, sc, f)
    case And(f, rest) => And3(EvalFactor(E, sc, f), EvalConj(E, sc, rest))
  }

  ghost function EvalDisj(E: Engine, sc: Scope, d: Disj): Tri
    decreases d
  {
    match d
    case One(c) => EvalConj(E, sc, c)
    case Or(c, rest) => Or3(EvalConj(E, sc, c), EvalDisj(E, sc, rest))
  }

  ghost function EvalAll(E: Engine, sc: Scope, parts: seq<Disj>): Tri
  {
    if parts == [] then True else And3(EvalDisj(E, sc, parts[0]), EvalAll(E, sc, parts[1..]))
  }

  ghost function EvalAny(E: Engine, sc: Scope, arms: seq<Disj>): Tri
  {
    if arms == [] then False else Or3(EvalDisj(E, sc, arms[0]), EvalAny(E, sc, arms[1..]))
  }

  // ---------------------------------------------------------------- joining

  lemma {:induction false} EvalAppendConj(E: Engine, sc: Scope, a: Conj, b: Conj)
    ensures EvalConj(E, sc, AppendConj(a, b)) == And3(EvalConj(E, sc, a), EvalConj(E, sc, b))
  {
    if a.And? {
      EvalAppendConj(E, sc, a.rest, b);
    }
  }

  lemma {:induction false} EvalJoinOr(E: Engine, sc: Scope, a: Disj, b: Disj)
    ensures EvalDisj(E, sc, JoinOr(a, b)) == Or3(EvalDisj(E, sc, a), EvalDisj(E, sc, b))
  {
    if a.Or? {
      EvalJoinOr(E, sc, a.rest, b);
    }
  }

  /** Texts joined with AND mean their conjunction when none but a lone one has an OR at its top. */
  lemma {:induction false} EvalJoinAll(E: Engine, sc: Scope, parts: seq<Disj>)
    requires |parts| == 1 || AllConjunctions(parts)
    ensures EvalDisj(E, sc, JoinAll(parts)) == EvalAll(E, sc, parts)
  {
    if |parts| == 1 {
      assert EvalAll(E, sc, parts[1..]) == True;
    } else if |parts| > 1 {
      var rest := JoinAll(parts[1..]);
      EvalJoinAll(E, sc, parts[1..]);
      assert JoinAll(parts) == One(AppendConj(parts[0].c, rest.c));
      EvalAppendConj(E, sc, parts[0].c, rest.c);
    }
  }

  lemma {:induction false} EvalJoinAny(E: Engine, sc: Scope, arms: seq<Disj>)
    requires arms != []
    ensures EvalDisj(E, sc, JoinAny(arms)) == EvalAny(E, sc, arms)
  {
    if |arms| == 1 {
      assert EvalAny(E, sc, arms[1..]) == False;
    } else {
      EvalJoinOr(E, sc, arms[0], JoinAny(arms[1..]));
      EvalJoinAny(E, sc, arms[1..]);
    }
  }

  lemma {:induction false} EvalAllAppend(E: Engine, sc: Scope, a: seq<Disj>, b: seq<Disj>)
    ensures EvalAll(E, sc, a + b) == And3(EvalAll(E, sc, a), EvalAll(E, sc, b))
  {
    if a == [] {
      assert a + b == b;
    } else {
      assert (a + b)[1..] == a[1..] + b;
      EvalAllAppend(E, sc, a[1..], b);
    }
  }

  // ------------------------------------------------------------------ aliases

  predicate Mentions(e: SqlExpr, alias: Alias)
  {
    match e
    case Column(_) => false
    case RowValue(a) => a == alias
    case RowAtom(a) => a == alias
    case RowFullkey(a) => a == alias
    case _ => Mentions(e.base, alias)
  }

  function ExprSize(e: SqlExpr): nat
  {
    match e
    case Column(_) => 0
    case RowValue(a) => 1 + AliasSize(a)
    case RowAtom(a) => 1 + AliasSize(a)
    case RowFullkey(a) => 1 + AliasSize(a)
    case _ => 1 + ExprSize(e.base)
  }

  function AliasSize(a: Alias): nat
  {
    match a
    case Je => 0
    case Each(arg) => 1 + ExprSize(arg)
    case Tree(base, _) => 1 + ExprSize(base)
  }

  lemma {:induction false} MentionedIsSmaller(e: SqlExpr, alias: Alias)
    ensures Mentions(e, alias) ==> AliasSize(alias) < ExprSize(e)
  {
    match e
    case Column(_) =>
    case RowValue(_) =>
    case RowAtom(_) =>
    case RowFullkey(_) =>
    case _ => MentionedIsSmaller(e.base, alias);
  }

  /** An alias hashed from its own argument never occurs in that argument. */
  lemma HashedAliasIsFresh(e: SqlExpr, path: string)
    ensures !Mentions(e, Each(e)) && !Mentions(e, Tree(e, path))
  {
    MentionedIsSmaller(e, Each(e));
    MentionedIsSmaller(e, Tree(e, path));
  }

  lemma {:induction false} EvalOutside(E: Engine, sc: Scope, e: SqlExpr, alias: Alias)
    requires !Mentions(e, alias)
    ensures EvalExpr(E, Outside(sc, alias), e) == EvalExpr(E, sc, e)
  {
    match e
    case Column(_) =>
    case RowValue(_) =>
    case RowAtom(_) =>
    case RowFullkey(_) =>
    case _ => EvalOutside(E, sc, e.base, alias);
  }
}
