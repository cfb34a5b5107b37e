/**
 Concurrent opens of the local engine (`src/storage/local.rs`): each open checks for
 room, may evict, and inserts its connection later. Each event is one atomic step on
 the shared maps; between two events of one open any others may happen.
 */
module ConnectionCap {
  import opened Prelude

  /** Where an open is: before its last check for room, or past it. */
  datatype Open = Checking(key: string) | Past(key: string)

  /** `limit` bounds the opens in flight. */
  datatype Engine = Engine(maxActive: nat, limit: nat, conns: set<string>, opens: seq<Open>)

  datatype Event =
    | Begin(key: string)
    | Hit(open: nat)
    | Evict(open: nat, victim: string)
    | Pass(open: nat)
    | Insert(open: nat)
    | Fail(open: nat)
    | CloseDb(key: string)

  predicate Enabled(s: Engine, e: Event)
  {
    match e
    case Begin(_) => |s.opens| < s.limit
    case Hit(i) => i < |s.opens| && s.opens[i].Checking? && s.opens[i].key in s.conns
    case Evict(i, victim) =>
      && i < |s.opens| && s.opens[i].Checking? && s.opens[i].key !in s.conns
      && |s.conns| >= s.maxActive && victim != s.opens[i].key
    case Pass(i) =>
      i < |s.opens| && s.opens[i].Checking? && (s.opens[i].key in s.conns || |s.conns| < s.maxActive)
    case Insert(i) => i < |s.opens| && s.opens[i].Past?
    case Fail(i) => i < |s.opens|
    case CloseDb(_) => true
  }

  function Without(opens: seq<Open>, i: nat): seq<Open>
    requires i < |opens|
  {
    opens[..i] + opens[i + 1..]
  }

  function Next(s: Engine, e: Event): Engine
    requires Enabled(s, e)
  {
    match e
    case Begin(key) => s.(opens := s.opens + [Checking(key)])
    case Hit(i) => s.(opens := Without(s.opens, i))
    case Evict(i, victim) => s.(conns := s.conns - {victim})
    case Pass(i) => s.(opens := s.opens[i := Past(s.opens[i].key)])
    case Insert(i) => s.(conns := s.conns + {s.opens[i].key}, opens := Without(s.opens, i))
    case Fail(i) => s.(opens := Without(s.opens, i))
    case CloseDb(key) => s.(conns := s.conns - {key})
  }

  function After(maxActive: nat, limit: nat, run: seq<Event>): Option<Engine>
  {
    if run == [] then Some(Engine(maxActive, limit, {}, []))
    else match After(maxActive, limit, run[..|run| - 1])
      case None => None
      case Some(s) => if Enabled(s, run[|run| - 1]) then Some(Next(s, run[|run| - 1])) else None
  }

  /** The keys of the opens that are past their last check. */
  function PastKeys(opens: seq<Open>): set<string>
  {
    set o | o in opens && o.Past? :: o.key
  }

  /** What is open or about to be opened. */
  function Claimed(s: Engine): set<string>
  {
    s.conns + PastKeys(s.opens)
  }

  predicate Bounded(s: Engine)
  {
    && |s.opens| <= s.limit
    && |Claimed(s)| + 1 <= s.maxActive + s.limit
  }

  lemma {:induction false} FewPastKeys(opens: seq<Open>)
    ensures |PastKeys(opens)| <= |opens|
  {
    if opens != [] {
      var first := if opens[0].Past? then {opens[0].key} else {};
      FewPastKeys(opens[1..]);
      assert forall o :: o in opens <==> o == opens[0] || o in opens[1..];
      assert PastKeys(opens) == PastKeys(opens[1..]) + first;
      UnionSize(PastKeys(opens[1..]), first);
    }
  }

  lemma {:induction false} UnionSize(a: set<string>, b: set<string>)
    ensures |a + b| <= |a| + |b|
    decreases |b|
  {
    if b == {} {
      assert a + b == a;
    } else {
      var x :| x in b;
      UnionSize(a, b - {x});
      assert a + b == (a + (b - {x})) + {x};
    }
  }

  lemma {:induction false} SubsetSize(a: set<string>, b: set<string>)
    requires a <= b
    ensures |a| <= |b|
    decreases |a|
  {
    if a != {} {
      var x :| x in a;
      SubsetSize(a - {x}, b - {x});
    }
  }

  lemma WithoutMembers(opens: seq<Open>, i: nat, o: Open)
    requires i < |opens|
    ensures o in Without(opens, i) ==> o in opens
    ensures o in opens ==> o in Without(opens, i) || o == opens[i]
  {
    assert opens == opens[..i] + [opens[i]] + opens[i + 1..];
  }

  lemma PastKeysWithout(opens: seq<Open>, i: nat)
    requires i < |opens|
    ensures PastKeys(Without(opens, i)) <= PastKeys(opens)
    ensures PastKeys(opens) <= PastKeys(Without(opens, i)) + {opens[i].key}
  {
    forall o | o in opens || o in Without(opens, i)
      ensures (o in Without(opens, i) ==> o in opens) && (o in opens ==> o in Without(opens, i) || o == opens[i])
    {
      WithoutMembers(opens, i, o);
    }
  }

  lemma PastKeysPassed(opens: seq<Open>, i: nat)
    requires i < |opens|
    ensures PastKeys(opens[i := Past(opens[i].key)]) <= PastKeys(opens) + {opens[i].key}
  {
  }

  /** An open that begins, ends or fails claims nothing new, and neither does a close. */
  lemma ClaimsNoMore(s: Engine, e: Event)
    requires Enabled(s, e) && !e.Pass? && !e.Insert?
    ensures Claimed(Next(s, e)) <= Claimed(s)
  {
    if e.Hit? || e.Fail? {
      PastKeysWithout(s.opens, e.open);
    }
  }

  lemma KeepsForPass(s: Engine, i: nat)
    requires Bounded(s) && Enabled(s, Pass(i))
    ensures Bounded(Next(s, Pass(i)))
  {
    var s' := Next(s, Pass(i));
    if s.opens[i].key in s.conns {
      PastKeysPassed(s.opens, i);
      SubsetSize(Claimed(s'), Claimed(s));
    } else {
      FewPastKeys(s'.opens);
      UnionSize(s.conns, PastKeys(s'.opens));
    }
  }

  lemma KeepsForInsert(s: Engine, i: nat)
    requires Bounded(s) && Enabled(s, Insert(i))
    ensures Bounded(Next(s, Insert(i)))
  {
    var s' := Next(s, Insert(i));
    PastKeysWithout(s.opens, i);
    assert s.opens[i] in s.opens;
    SubsetSize(Claimed(s'), Claimed(s));
  }

  lemma KeepsBounded(s: Engine, e: Event)
    requires Bounded(s) && Enabled(s, e)
    ensures Bounded(Next(s, e))
  {
    if e.Pass? {
      KeepsForPass(s, e.open);
    } else if e.Insert? {
      KeepsForInsert(s, e.open);
    } else {
      ClaimsNoMore(s, e);
      SubsetSize(Claimed(Next(s, e)), Claimed(s));
    }
  }

  /**
   With at most K opens in flight, the open connections together with the opens past
   their check never exceed the cap minus one plus K; with one open at a time the cap
   is never exceeded.
   */
  lemma {:induction false} CapHolds(maxActive: nat, limit: nat, run: seq<Event>)
    requires maxActive >= 1 && limit >= 1 && After(maxActive, limit, run).Some?
    ensures var s := After(maxActive, limit, run).value;
            && s.maxActive == maxActive && s.limit == limit && Bounded(s)
            && |s.conns| <= |Claimed(s)| <= maxActive - 1 + limit
  {
    if run != [] {
      CapHolds(maxActive, limit, run[..|run| - 1]);
      KeepsBounded(After(maxActive, limit, run[..|run| - 1]).value, run[|run| - 1]);
    }
    var s := After(maxActive, limit, run).value;
    SubsetSize(s.conns, Claimed(s));
  }

  // ------------------------------------------------------------ what one step does

  /** A database is opened only by an open past its check, and closed only to make room or on request. */
  lemma OpenedAndClosedBy(s: Engine, e: Event, key: string)
    requires Enabled(s, e)
    ensures key !in s.conns && key in Next(s, e).conns <==>
              key !in s.conns && e.Insert? && s.opens[e.open] == Past(key)
    ensures key in s.conns && key !in Next(s, e).conns <==>
              key in s.conns && (e == CloseDb(key) || (e.Evict? && e.victim == key))
    ensures e.Evict? ==> |s.conns| >= s.maxActive && s.opens[e.open].key !in s.conns
    ensures e.Hit? || e.Insert? || e.Fail? ==> Next(s, e).opens == s.opens[..e.open] + s.opens[e.open + 1..]
    ensures e.Evict? || e.CloseDb? ==> Next(s, e).opens == s.opens
  {
  }

  /** How many steps of its own an open still needs: checking, past its check, and evictions before that. */
  function StepsLeft(s: Engine, i: nat): nat
    requires i < |s.opens|
  {
    if s.opens[i].Past? then 1
    else if s.opens[i].key in s.conns then 1
    else if |s.conns| < s.maxActive then 2
    else 2 + (|s.conns| + 1 - s.maxActive)
  }

  /** An open in flight can always go on: it closes a connection, passes its check, or is done. */
  lemma OpensGoOn(s: Engine, i: nat) returns (e: Event)
    requires i < |s.opens| && s.maxActive >= 1
    ensures Enabled(s, e) && (e == Hit(i) || e == Pass(i) || e == Insert(i) || (e.Evict? && e.open == i))
    ensures e.Hit? || e.Insert? ==> Next(s, e).opens == Without(s.opens, i) && s.opens[i].key in Next(s, e).conns
    ensures e.Pass? || e.Evict? ==> |Next(s, e).opens| == |s.opens| && StepsLeft(Next(s, e), i) < StepsLeft(s, i)
  {
    if s.opens[i].Past? {
      e := Insert(i);
    } else if s.opens[i].key in s.conns {
      e := Hit(i);
    } else if |s.conns| < s.maxActive {
      e := Pass(i);
    } else {
      var victim :| victim in s.conns;
      e := Evict(i, victim);
    }
  }

  // ------------------------------------------------------- the bound is reached

  ghost predicate Reachable(s: Engine)
  {
    exists run :: After(s.maxActive, s.limit, run) == Some(s)
  }

  lemma ReachesNext(s: Engine, e: Event)
    requires Reachable(s) && Enabled(s, e)
    ensures Reachable(Next(s, e))
  {
    var run :| After(s.maxActive, s.limit, run) == Some(s);
    assert (run + [e])[..|run|] == run;
    assert After(s.maxActive, s.limit, run + [e]) == Some(Next(s, e));
  }

  /** As many different names as are needed. */
  function Key(n: nat): string
  {
    seq(n, _ => 'x')
  }

  function Keys(n: nat): set<string>
  {
    if n == 0 then {} else Keys(n - 1) + {Key(n - 1)}
  }

  lemma {:induction false} KeysAreShort(n: nat, key: string)
    requires key in Keys(n)
    ensures |key| < n
  {
    if key != Key(n - 1) {
      KeysAreShort(n - 1, key);
    }
  }

  lemma {:induction false} KeysSize(n: nat)
    ensures |Keys(n)| == n && Key(n) !in Keys(n)
  {
    if n > 0 {
      KeysSize(n - 1);
    }
    if Key(n) in Keys(n) {
      KeysAreShort(n, Key(n));
    }
  }

  /** Opens in flight on the names from the n-th on, the first `past` of them past their check. */
  function InFlight(n: nat, count: nat, past: nat): seq<Open>
  {
    seq(count, i requires 0 <= i < count => if i < past then Past(Key(n + i)) else Checking(Key(n + i)))
  }

  lemma PassesOne(n: nat, count: nat, past: nat)
    requires past < count
    ensures InFlight(n, count, past)[past] == Checking(Key(n + past))
    ensures InFlight(n, count, past + 1) == InFlight(n, count, past)[past := Past(Key(n + past))]
  {
  }

  lemma InsertsOne(n: nat, count: nat)
    requires count > 0
    ensures InFlight(n, count, count)[0] == Past(Key(n))
    ensures InFlight(n + 1, count - 1, count - 1) == Without(InFlight(n, count, count), 0)
  {
    var (opens, rest) := (InFlight(n, count, count), InFlight(n + 1, count - 1, count - 1));
    forall i | 0 <= i < count - 1 ensures rest[i] == opens[1..][i] {
      assert rest[i] == Past(Key(n + 1 + i)) && opens[i + 1] == Past(Key(n + (i + 1)));
    }
    assert opens[..0] + opens[1..] == opens[1..];
    assert rest == opens[1..];
  }

  lemma OpensOne(maxActive: nat, limit: nat, n: nat)
    requires n < maxActive && limit >= 1 && Reachable(Engine(maxActive, limit, Keys(n), []))
    ensures Reachable(Engine(maxActive, limit, Keys(n + 1), []))
  {
    var s := Engine(maxActive, limit, Keys(n), []);
    KeysSize(n);
    ReachesNext(s, Begin(Key(n)));
    var s1 := Next(s, Begin(Key(n)));
    assert s1.opens == [Checking(Key(n))];
    ReachesNext(s1, Pass(0));
    var s2 := Next(s1, Pass(0));
    assert s2.opens == [Past(Key(n))];
    ReachesNext(s2, Insert(0));
    assert Next(s2, Insert(0)).opens == [];
  }

  /** One after the other, opens fill the cap but for one. */
  lemma {:induction false} OpensInTurn(maxActive: nat, limit: nat, n: nat)
    requires n <= maxActive && limit >= 1
    ensures Reachable(Engine(maxActive, limit, Keys(n), []))
  {
    if n == 0 {
      assert After(maxActive, limit, []) == Some(Engine(maxActive, limit, {}, []));
    } else {
      OpensInTurn(maxActive, limit, n - 1);
      OpensOne(maxActive, limit, n - 1);
    }
  }

  lemma {:induction false} AllBegin(maxActive: nat, limit: nat, n: nat, count: nat)
    requires n < maxActive && 1 <= limit && count <= limit
    ensures Reachable(Engine(maxActive, limit, Keys(n), InFlight(n, count, 0)))
    decreases count
  {
    if count == 0 {
      OpensInTurn(maxActive, limit, n);
      assert InFlight(n, 0, 0) == [];
    } else {
      AllBegin(maxActive, limit, n, count - 1);
      var s := Engine(maxActive, limit, Keys(n), InFlight(n, count - 1, 0));
      ReachesNext(s, Begin(Key(n + count - 1)));
      assert InFlight(n, count, 0) == InFlight(n, count - 1, 0) + [Checking(Key(n + count - 1))];
    }
  }

  /** All of them find room before any of them inserts. */
  lemma {:induction false} AllPass(maxActive: nat, limit: nat, n: nat, past: nat)
    requires n < maxActive && 1 <= limit && past <= limit
    ensures Reachable(Engine(maxActive, limit, Keys(n), InFlight(n, limit, past)))
    decreases past
  {
    if past == 0 {
      AllBegin(maxActive, limit, n, limit);
    } else {
      AllPass(maxActive, limit, n, past - 1);
      var s := Engine(maxActive, limit, Keys(n), InFlight(n, limit, past - 1));
      KeysSize(n);
      PassesOne(n, limit, past - 1);
      ReachesNext(s, Pass(past - 1));
    }
  }

  lemma {:induction false} AllInsert(maxActive: nat, limit: nat, n: nat, count: nat)
    requires n < maxActive && 1 <= limit && count <= limit
    ensures Reachable(Engine(maxActive, limit, Keys(n + count), InFlight(n + count, limit - count, limit - count)))
    decreases count
  {
    if count == 0 {
      AllPass(maxActive, limit, n, limit);
    } else {
      AllInsert(maxActive, limit, n, count - 1);
      var k, left := n + count - 1, limit - count + 1;
      var s := Engine(maxActive, limit, Keys(k), InFlight(k, left, left));
      InsertsOne(k, left);
      ReachesNext(s, Insert(0));
    }
  }

  /** For every cap and every number of opens in flight some run reaches the bound. */
  lemma CapIsReached(maxActive: nat, limit: nat)
    requires maxActive >= 1 && limit >= 1
    ensures exists run :: After(maxActive, limit, run).Some?
                          && |After(maxActive, limit, run).value.conns| == maxActive - 1 + limit
  {
    AllInsert(maxActive, limit, maxActive - 1, limit);
    KeysSize(maxActive - 1 + limit);
    var s := Engine(maxActive, limit, Keys(maxActive - 1 + limit), InFlight(maxActive - 1 + limit, 0, 0));
    var run :| After(s.maxActive, s.limit, run) == Some(s);
  }

  /** The cap holds in every run if and only if at most one open is in flight at a time. */
  lemma CapHoldsIff(maxActive: nat, limit: nat)
    requires maxActive >= 1 && limit >= 1
    ensures (forall run | After(maxActive, limit, run).Some? :: |After(maxActive, limit, run).value.conns| <= maxActive)
       <==> limit == 1
  {
    CapIsReached(maxActive, limit);
    if limit == 1 {
      forall run | After(maxActive, limit, run).Some?
        ensures |After(maxActive, limit, run).value.conns| <= maxActive
      {
        CapHolds(maxActive, limit, run);
      }
    }
  }
}
