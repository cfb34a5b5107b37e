/** The local engine's cache of open connections (`src/storage/local.rs`), one call at a time. */
module LocalEngine {
  import opened Prelude

  type Connection = nat

  datatype OpenError = MaxActiveDbs | NotFound | OpenFailed

  /** A successful `get_conn`. */
  datatype Get = Get(key: string, time: nat)

  /** The time of the last `get_conn` that succeeded on a database. */
  function LastGet(gets: seq<Get>, key: string): Option<nat>
  {
    if gets == [] then None
    else
      var last := gets[|gets| - 1];
      if last.key == key then Some(last.time) else LastGet(gets[..|gets| - 1], key)
  }

  ghost function Logged(gets: seq<Get>, g: Get): (more: seq<Get>)
    ensures more == gets + [g]
    ensures forall key :: LastGet(more, key) == if key == g.key then Some(g.time) else LastGet(gets, key)
  {
    assert (gets + [g])[..|gets|] == gets;
    gets + [g]
  }

  class LocalEngine {
    const maxActiveDbs: nat
    var conns: map<string, Connection>
    var lastAccessed: map<string, nat>
    var files: set<string>             // databases whose file exists, by cache key
    ghost var gets: seq<Get>           // every successful `get_conn`

    ghost predicate Valid()
      reads this
    {
      maxActiveDbs >= 1 && |conns| <= maxActiveDbs
    }

    /** The last access of an open database is the time of the last `get_conn` that succeeded on it. */
    ghost predicate Stamped()
      reads this
    {
      forall key | key in conns :: key in lastAccessed && LastGet(gets, key) == Some(lastAccessed[key])
    }

    constructor (maxActiveDbs: nat, files: set<string>)
      ensures Valid() && Stamped() && conns == map[] && lastAccessed == map[] && this.files == files && gets == []
      ensures this.maxActiveDbs == if maxActiveDbs == 0 then 1 else maxActiveDbs
    {
      this.maxActiveDbs := if maxActiveDbs == 0 then 1 else maxActiveDbs;
      conns, lastAccessed, gets := map[], map[], [];
      this.files := files;
    }

    /** The open database whose last access is longest ago. */
    ghost predicate LeastRecent(victim: string)
      reads this
    {
      && victim in conns && victim in lastAccessed
      && forall key | key in conns && key in lastAccessed :: lastAccessed[victim] <= lastAccessed[key]
    }

    /** No open database was got longer ago than this one. */
    ghost predicate GotLongestAgo(victim: string)
      reads this
    {
      && victim in conns && LastGet(gets, victim).Some?
      && forall key | key in conns ::
           LastGet(gets, key).Some? && LastGet(gets, victim).value <= LastGet(gets, key).value
    }

    method Touch(key: string, now: nat)
      modifies this`lastAccessed
      ensures lastAccessed == old(lastAccessed)[key := now]
    {
      lastAccessed := lastAccessed[key := now];
    }

    /** An open database is accessed once more. */
    method Hit(key: string, now: nat) returns (connection: Connection)
      requires Valid() && key in conns
      modifies this`lastAccessed, this`gets
      ensures Valid() && (old(Stamped()) ==> Stamped())
      ensures connection == conns[key] && lastAccessed == old(lastAccessed)[key := now]
      ensures gets == old(gets) + [Get(key, now)]
    {
      Touch(key, now);
      gets := Logged(gets, Get(key, now));
      return conns[key];
    }

    /** A new connection, accessed for the first time. */
    method Insert(key: string, connection: Connection, now: nat)
      requires Valid() && key !in conns && |conns| < maxActiveDbs
      modifies this`conns, this`lastAccessed, this`gets
      ensures Valid() && (old(Stamped()) ==> Stamped())
      ensures conns == old(conns)[key := connection] && lastAccessed == old(lastAccessed)[key := now]
      ensures gets == old(gets) + [Get(key, now)]
    {
      Touch(key, now);
      conns := conns[key := connection];
      gets := Logged(gets, Get(key, now));
    }

    /** `.filter_map(…).min_by_key(|(_, ts)| *ts)`: the least recent open database, if one was ever accessed. */
    method FindVictim(opening: string) returns (victim: Option<string>)
      requires opening !in conns
      ensures victim.Some? ==> LeastRecent(victim.value)
      ensures victim.None? ==> forall key | key in conns :: key !in lastAccessed
    {
      victim := None;
      var keys := lastAccessed.Keys;
      while keys != {}
        invariant keys <= lastAccessed.Keys
        invariant victim.Some? ==> victim.value in conns && victim.value in lastAccessed
        invariant forall key | key in conns && key in lastAccessed && key !in keys ::
                    victim.Some? && lastAccessed[victim.value] <= lastAccessed[key]
        decreases |keys|
      {
        var key :| key in keys;
        keys := keys - {key};
        if key != opening && key in conns {
          if victim.None? || lastAccessed[key] < lastAccessed[victim.value] {
            victim := Some(key);
          }
        }
      }
    }

    /** The cap is reached and `victim` is the connection to close: the one that was got longest ago. */
    ghost predicate Victim(victim: string)
      reads this
    {
      victim in conns && |conns| == maxActiveDbs && (Stamped() ==> GotLongestAgo(victim))
    }

    /** Makes room for a connection; an open database needs none. */
    method EvictLruIfNeeded(opening: string) returns (r: Result<(), OpenError>)
      requires Valid()
      modifies this`conns, this`lastAccessed
      ensures Valid() && (old(Stamped()) ==> Stamped())
      ensures opening in old(conns) || |old(conns)| < maxActiveDbs ==>
                r == Ok(()) && conns == old(conns) && lastAccessed == old(lastAccessed)
      ensures opening !in old(conns) && |old(conns)| == maxActiveDbs ==>
                exists victim ::
                  && old(Victim(victim)) && conns == old(conns) - {victim}
                  && lastAccessed == old(lastAccessed) - {victim} && r == Ok(())
      ensures opening in conns || |conns| < maxActiveDbs
    {
      if opening in conns {
        return Ok(());
      }
      if |conns| < maxActiveDbs {
        return Ok(());
      }
      var victim := FindVictim(opening);
      if victim.None? {
        SomeKey(conns);
        var key :| key in conns;
        victim := Some(key);
      }
      RemoveOne(conns, victim.value);
      conns := conns - {victim.value};
      lastAccessed := lastAccessed - {victim.value};
      if |conns| >= maxActiveDbs {
        return Err(MaxActiveDbs);
      }
      return Ok(());
    }

    /** The file exists or may be created; opening it and its schema may fail. */
    method Open(key: string, allowCreate: bool, now: nat, opens: bool, connection: Connection)
      returns (r: Result<Connection, OpenError>)
      requires Valid() && key !in conns && |conns| < maxActiveDbs
      modifies this
      ensures Valid() && (old(Stamped()) ==> Stamped())
      ensures r == if key !in old(files) && !allowCreate then Err(NotFound)
                   else if opens then Ok(connection) else Err(OpenFailed)
      ensures if r.Ok? then
                && conns == old(conns)[key := connection] && lastAccessed == old(lastAccessed)[key := now]
                && files == old(files) + {key} && gets == old(gets) + [Get(key, now)]
              else conns == old(conns) && lastAccessed == old(lastAccessed) && files == old(files) && gets == old(gets)
    {
      if key !in files && !allowCreate {
        return Err(NotFound);
      }
      if !opens {
        return Err(OpenFailed);
      }
      files := files + {key};
      Insert(key, connection, now);
      return Ok(connection);
    }

    /**
     Opens a database. `opens` says whether opening its file and schema succeeds, and
     `connection` is the new connection. `other` is the connection that another open of
     the same database inserted while this one waited for the database's lock.
     */
    method GetConn(key: string, allowCreate: bool, now: nat, opens: bool, connection: Connection,
                   other: Option<Connection>)
      returns (r: Result<Connection, OpenError>)
      requires Valid()
      modifies this
      ensures Valid() && (old(Stamped()) ==> Stamped())
      ensures gets == old(gets) + (if r.Err? then [] else if key in old(conns) || other.None? then [Get(key, now)]
                                   else [Get(key, now), Get(key, now)])
      ensures key in old(conns) ==>
                && r == Ok(old(conns)[key]) && conns == old(conns) && files == old(files)
                && lastAccessed == old(lastAccessed)[key := now]
      ensures key !in old(conns) ==>
                r == if other.Some? then Ok(other.value)
                     else if key !in old(files) && !allowCreate then Err(NotFound)
                     else if opens then Ok(connection) else Err(OpenFailed)
      ensures key !in old(conns) ==> files == if r.Ok? && other.None? then old(files) + {key} else old(files)
      ensures key !in old(conns) && |old(conns)| < maxActiveDbs ==>
                && conns == (if r.Ok? then old(conns)[key := r.value] else old(conns))
                && lastAccessed == if r.Ok? then old(lastAccessed)[key := now] else old(lastAccessed)
      ensures key !in old(conns) && |old(conns)| == maxActiveDbs ==>
                exists victim ::
                  && old(Victim(victim))
                  && conns == (if r.Ok? then (old(conns) - {victim})[key := r.value] else old(conns) - {victim})
                  && lastAccessed == if r.Ok? then (old(lastAccessed) - {victim})[key := now]
                                     else old(lastAccessed) - {victim}
    {
      if key in conns {
        var hit := Hit(key, now);
        return Ok(hit);
      }
      var room := EvictLruIfNeeded(key);
      if room != Ok(()) {
        return Err(MaxActiveDbs);
      }
      if other.Some? {
        Insert(key, other.value, now);
      }
      if key in conns {
        var hit := Hit(key, now);
        return Ok(hit);
      }
      room := EvictLruIfNeeded(key);
      if room != Ok(()) {
        return Err(MaxActiveDbs);
      }
      r := Open(key, allowCreate, now, opens, connection);
    }

    /** Closes what was not accessed within the last `idleSecs` seconds. */
    method CloseIdleDbs(idleSecs: nat, now: nat) returns (closed: nat)
      requires Valid()
      modifies this`conns, this`lastAccessed
      ensures Valid() && (old(Stamped()) ==> Stamped())
      ensures idleSecs == 0 ==> closed == 0 && conns == old(conns) && lastAccessed == old(lastAccessed)
      ensures idleSecs > 0 ==>
                var idle := IdleSince(old(lastAccessed), idleSecs, now);
                && conns == old(conns) - idle && lastAccessed == old(lastAccessed) - idle
                && |old(conns)| == |conns| + closed
    {
      closed := 0;
      if idleSecs == 0 {
        return;
      }
      var threshold := if now >= idleSecs then now - idleSecs else 0;
      var idle := Idle(lastAccessed, threshold);
      assert idle == IdleSince(lastAccessed, idleSecs, now);
      PresentCount(conns, idle);
      conns, closed := RemoveAll(conns, idle);
      lastAccessed := lastAccessed - idle;
    }

    method DeleteDb(key: string) returns (r: Result<(), OpenError>)
      requires Valid()
      modifies this`conns, this`lastAccessed, this`files
      ensures Valid() && (old(Stamped()) ==> Stamped())
      ensures key !in old(files) ==>
                r == Err(NotFound) && conns == old(conns) && lastAccessed == old(lastAccessed) && files == old(files)
      ensures key in old(files) ==>
                && r == Ok(()) && conns == old(conns) - {key} && lastAccessed == old(lastAccessed) - {key}
                && files == old(files) - {key}
    {
      if key !in files {
        return Err(NotFound);
      }
      if key in conns {
        RemoveOne(conns, key);
      }
      conns := conns - {key};
      lastAccessed := lastAccessed - {key};
      files := files - {key};
      return Ok(());
    }
  }

  // ------------------------------------------------------------ what `gets` says

  /** The position in the history of the last `get_conn` on a database. */
  ghost predicate IsLast(gets: seq<Get>, key: string, i: nat)
  {
    i < |gets| && gets[i].key == key && forall j | i < j < |gets| :: gets[j].key != key
  }

  lemma {:induction false} LastGetIsLast(gets: seq<Get>, key: string)
    ensures match LastGet(gets, key)
            case None => forall i | 0 <= i < |gets| :: gets[i].key != key
            case Some(time) => exists i: nat :: IsLast(gets, key, i) && gets[i].time == time
  {
    if gets != [] {
      var before := gets[..|gets| - 1];
      LastGetIsLast(before, key);
      if gets[|gets| - 1].key == key {
        assert IsLast(gets, key, |gets| - 1);
      } else if i: nat :| IsLast(before, key, i) && gets[i].time == LastGet(gets, key).value {
        assert IsLast(gets, key, i);
      }
    }
  }

  /** The clock does not go back. */
  predicate Monotone(gets: seq<Get>)
  {
    forall i, j | 0 <= i < j < |gets| :: gets[i].time <= gets[j].time
  }

  /**
   With a clock that does not go back, a database got longest ago is one whose last
   `get_conn` comes before, or in the same second as, that of every other open database.
   */
  lemma LongestAgoComesFirst(gets: seq<Get>, victim: string, key: string, i: nat, j: nat)
    requires Monotone(gets) && IsLast(gets, victim, i) && IsLast(gets, key, j)
    ensures LastGet(gets, victim) == Some(gets[i].time) && LastGet(gets, key) == Some(gets[j].time)
    ensures LastGet(gets, victim).value <= LastGet(gets, key).value <==> i <= j || gets[i].time == gets[j].time
  {
    LastGetIsLast(gets, victim);
    LastGetIsLast(gets, key);
    assert LastGet(gets, victim).Some? && LastGet(gets, key).Some?;
    var a: nat :| IsLast(gets, victim, a) && gets[a].time == LastGet(gets, victim).value;
    var b: nat :| IsLast(gets, key, b) && gets[b].time == LastGet(gets, key).value;
    assert a == i && b == j;
  }

  function Idle(lastAccessed: map<string, nat>, threshold: nat): set<string>
  {
    set key | key in lastAccessed && lastAccessed[key] <= threshold
  }

  /** Not accessed within the last so many seconds, or never since the clock's start. */
  function IdleSince(lastAccessed: map<string, nat>, idleSecs: nat, now: nat): set<string>
  {
    set key | key in lastAccessed && (lastAccessed[key] == 0 || lastAccessed[key] + idleSecs <= now)
  }

  function Present<T>(m: map<string, T>, candidates: set<string>): set<string>
  {
    set key | key in candidates && key in m
  }

  /** Removes the candidates one by one and counts those that were there. */
  method RemoveAll<T>(m: map<string, T>, candidates: set<string>) returns (rest: map<string, T>, removed: nat)
    ensures rest == m - candidates && removed == |Present(m, candidates)|
  {
    rest, removed := m, 0;
    var left := candidates;
    ghost var done: set<string> := {};
    while left != {}
      invariant left <= candidates && done == candidates - left
      invariant rest == m - done && removed == |Present(m, done)|
      decreases |left|
    {
      var key :| key in left;
      PresentNext(m, done, key);
      left := left - {key};
      done := done + {key};
      if key in rest {
        removed := removed + 1;
      }
      rest := rest - {key};
    }
    assert done == candidates;
  }

  lemma PresentNext<T>(m: map<string, T>, done: set<string>, key: string)
    requires key !in done
    ensures |Present(m, done + {key})| == |Present(m, done)| + (if key in m then 1 else 0)
    ensures m - done - {key} == m - (done + {key}) && (key in m - done <==> key in m)
  {
    if key in m {
      assert Present(m, done + {key}) == Present(m, done) + {key};
    } else {
      assert Present(m, done + {key}) == Present(m, done);
    }
  }

  lemma PresentCount<T>(m: map<string, T>, candidates: set<string>)
    ensures |m| == |m - candidates| + |Present(m, candidates)|
  {
    var rest := m - candidates;
    assert m.Keys == rest.Keys + Present(m, candidates);
    assert |m| == |m.Keys| && |rest| == |rest.Keys|;
  }

  lemma SomeKey<T>(m: map<string, T>)
    ensures |m| > 0 ==> exists key :: key in m
  {
    assert |m| == |m.Keys|;
  }

  lemma RemoveOne<T>(m: map<string, T>, key: string)
    requires key in m
    ensures |m - {key}| == |m| - 1
  {
    assert (m - {key}).Keys == m.Keys - {key};
  }
}
