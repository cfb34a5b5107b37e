/**
 The in-memory state kept per database in maps with composite string keys
 (`src/state.rs`): pending documents, cache epochs, cached reads and write queues.
 */
module RuntimeState {
  import opened Prelude
  import opened PendingKeys
  import opened DbPath

  datatype PendingDocument = PendingDocument(revision: nat, collection: Option<string>, document: string)

  function CollectionEpochKey(db: string, collection: string): string
  {
    "c|" + db + "|" + collection
  }

  function AnyScopeEpochKey(db: string): string
  {
    "a|" + db
  }

  function BroadcastEpochKey(db: string): string
  {
    "b|" + db
  }

  /** A cached read starts with its database. */
  function ReadKey(db: string, rest: string): string
  {
    db + "|" + rest
  }

  predicate EpochOfDb(key: string, db: string)
  {
    key == AnyScopeEpochKey(db) || key == BroadcastEpochKey(db) || "c|" + db + "|" <= key
  }

  predicate ReadOfDb(key: string, db: string)
  {
    db + "|" <= key
  }

  // ------------------------------------------------------------ separability

  /** The separators of the keys occur in no database path that a client can use. */
  lemma NoSeparators(db: string)
    requires Normalize(db).Ok?
    ensures UNIT_SEPARATOR !in db && '|' !in db
  {
    if '|' in db {
      AcceptedInputChars(db, '|');
    }
    if UNIT_SEPARATOR in db {
      AcceptedInputChars(db, UNIT_SEPARATOR);
    }
  }

  /** A key of one database is never taken for a key of another. */
  lemma KeysAreSeparate(d: string, e: string, id: string, collection: string, rest: string)
    requires Normalize(d).Ok? && Normalize(e).Ok?
    ensures OfDb(PendingKey(e, id), d) <==> d == e
    ensures EpochOfDb(CollectionEpochKey(e, collection), d) <==> d == e
    ensures EpochOfDb(AnyScopeEpochKey(e), d) <==> d == e
    ensures EpochOfDb(BroadcastEpochKey(e), d) <==> d == e
    ensures ReadOfDb(ReadKey(e, rest), d) <==> d == e
  {
    NoSeparators(d);
    NoSeparators(e);
    SeparatedPrefix(d, e, UNIT_SEPARATOR, id);
    SeparatedPrefix(d, e, '|', rest);
    CollectionKeys(d, e, collection);
    OtherEpochKeys(d, e);
  }

  /** Keys of accepted paths are equal only for the same database and the same document, collection or read. */
  lemma KeysIdentifyEntries(d: string, e: string, i: string, j: string)
    requires Normalize(d).Ok? && Normalize(e).Ok?
    ensures PendingKey(d, i) == PendingKey(e, j) <==> d == e && i == j
    ensures CollectionEpochKey(d, i) == CollectionEpochKey(e, j) <==> d == e && i == j
    ensures ReadKey(d, i) == ReadKey(e, j) <==> d == e && i == j
    ensures AnyScopeEpochKey(d) == AnyScopeEpochKey(e) <==> d == e
    ensures BroadcastEpochKey(d) == BroadcastEpochKey(e) <==> d == e
  {
    NoSeparators(d);
    NoSeparators(e);
    KeysIdentify(d, i, e, j);
    SeparatedPair(d, '|', i, e, j);
    assert CollectionEpochKey(d, i)[2..] == ReadKey(d, i) && CollectionEpochKey(e, j)[2..] == ReadKey(e, j);
    assert CollectionEpochKey(d, i) == "c|" + ReadKey(d, i) && CollectionEpochKey(e, j) == "c|" + ReadKey(e, j);
    assert AnyScopeEpochKey(d)[2..] == d && AnyScopeEpochKey(e)[2..] == e;
    assert BroadcastEpochKey(d)[2..] == d && BroadcastEpochKey(e)[2..] == e;
  }

  /** The three kinds of epoch of any two databases have different keys. */
  lemma EpochKindsDiffer(d: string, e: string, c: string)
    ensures CollectionEpochKey(d, c) != AnyScopeEpochKey(e) && CollectionEpochKey(d, c) != BroadcastEpochKey(e)
    ensures AnyScopeEpochKey(d) != BroadcastEpochKey(e)
  {
    assert CollectionEpochKey(d, c)[0] == 'c' && AnyScopeEpochKey(e)[0] == 'a' && BroadcastEpochKey(e)[0] == 'b';
    assert AnyScopeEpochKey(d)[0] == 'a';
  }

  lemma CollectionKeys(d: string, e: string, collection: string)
    requires '|' !in d && '|' !in e
    ensures EpochOfDb(CollectionEpochKey(e, collection), d) <==> d == e
  {
    var key := CollectionEpochKey(e, collection);
    assert key[0] == 'c' && AnyScopeEpochKey(d)[0] == 'a' && BroadcastEpochKey(d)[0] == 'b';
    SeparatedPrefix(d, e, '|', collection);
    assert key == "c|" + (e + "|" + collection);
    assert "c|" + d + "|" == "c|" + (d + "|");
    SamePrefix("c|", d + "|", e + "|" + collection);
  }

  lemma SamePrefix(p: string, s: string, t: string)
    ensures p + s <= p + t <==> s <= t
  {
    if p + s <= p + t {
      assert s == (p + s)[|p|..] && (p + t)[..|p + s|][|p|..] == t[..|s|];
    }
  }

  lemma OtherEpochKeys(d: string, e: string)
    ensures EpochOfDb(AnyScopeEpochKey(e), d) <==> d == e
    ensures EpochOfDb(BroadcastEpochKey(e), d) <==> d == e
  {
    assert AnyScopeEpochKey(e)[2..] == e && AnyScopeEpochKey(d)[2..] == d;
    assert BroadcastEpochKey(e)[2..] == e && BroadcastEpochKey(d)[2..] == d;
    assert AnyScopeEpochKey(e)[0] == 'a' && BroadcastEpochKey(e)[0] == 'b' && ("c|" + d + "|")[0] == 'c';
  }

  // ----------------------------------------------------------- the shared maps

  function Revisions(pending: map<string, PendingDocument>): map<string, nat>
  {
    map key | key in pending :: pending[key].revision
  }

  /** The keys collected for one database. */
  function PendingOf(keys: set<string>, db: string): set<string>
  {
    set key | key in keys && OfDb(key, db)
  }

  function EpochsOf(keys: set<string>, db: string): set<string>
  {
    set key | key in keys && EpochOfDb(key, db)
  }

  function ReadsOf(keys: set<string>, db: string): set<string>
  {
    set key | key in keys && ReadOfDb(key, db)
  }

  /** Clearing takes the listed revisions of this database's documents, and nothing else. */
  lemma ClearedExactly(before: map<string, PendingDocument>, after: map<string, PendingDocument>, db: string,
                       revisions: seq<Revision>, e: string, j: string)
    requires Normalize(db).Ok? && Normalize(e).Ok?
    requires Revisions(after) == ClearIfCurrent(Revisions(before), db, revisions)
    ensures var key := PendingKey(e, j);
            key in after <==> key in before && !(e == db && Revision(j, before[key].revision) in revisions)
  {
    var key := PendingKey(e, j);
    ClearIfCurrentRemoves(Revisions(before), db, revisions);
    assert key in after <==> key in Revisions(after);
    forall i | 0 <= i < |revisions|
      ensures key == PendingKey(db, revisions[i].id) <==> e == db && j == revisions[i].id
    {
      KeysIdentifyEntries(e, db, j, revisions[i].id);
    }
    if key in before && Revision(j, before[key].revision) in revisions {
      var i :| 0 <= i < |revisions| && revisions[i] == Revision(j, before[key].revision);
    }
  }

  class AppState {
    var writeQueues: map<string, nat>
    var dbStats: map<string, nat>
    var pendingDocuments: map<string, PendingDocument>
    var pendingRevision: nat
    var cacheEpochs: map<string, nat>
    var readCacheTtlOverrides: map<string, nat>

    constructor ()
      ensures writeQueues == map[] && dbStats == map[] && pendingDocuments == map[] && pendingRevision == 0
      ensures cacheEpochs == map[] && readCacheTtlOverrides == map[]
    {
      writeQueues, dbStats, pendingDocuments, pendingRevision := map[], map[], map[], 0;
      cacheEpochs, readCacheTtlOverrides := map[], map[];
    }

    /** Every pending document has a revision that was handed out. */
    ghost predicate Valid()
      reads this
    {
      forall key | key in pendingDocuments :: pendingDocuments[key].revision < pendingRevision
    }

    /** What a read of a document of this database finds in the overlay. */
    ghost function Shown(db: string, id: string): Option<PendingDocument>
      reads this
    {
      if PendingKey(db, id) in pendingDocuments then Some(pendingDocuments[PendingKey(db, id)]) else None
    }

    /** A new document takes a fresh revision and replaces an older one of the same id. */
    method PutPendingDocument(db: string, id: string, collection: Option<string>, document: string)
      returns (revision: nat)
      requires Valid()
      modifies this`pendingDocuments, this`pendingRevision
      ensures Valid()
      ensures revision == old(pendingRevision) && pendingRevision == revision + 1
      ensures pendingDocuments
           == old(pendingDocuments)[PendingKey(db, id) := PendingDocument(revision, collection, document)]
      ensures forall key | key in old(pendingDocuments) :: old(pendingDocuments)[key].revision < revision
      ensures Shown(db, id) == Some(PendingDocument(revision, collection, document))
      ensures Normalize(db).Ok? ==> forall e, j | Normalize(e).Ok? && (e != db || j != id) ::
                Shown(e, j) == old(Shown(e, j))
    {
      revision := pendingRevision;
      pendingRevision := pendingRevision + 1;
      pendingDocuments := pendingDocuments[PendingKey(db, id) := PendingDocument(revision, collection, document)];
      forall e, j | Normalize(db).Ok? && Normalize(e).Ok? && (e != db || j != id)
        ensures PendingKey(e, j) != PendingKey(db, id)
      {
        KeysIdentifyEntries(db, e, id, j);
      }
    }

    method GetPendingDocument(db: string, id: string) returns (r: Option<PendingDocument>)
      ensures r == Shown(db, id)
    {
      var key := PendingKey(db, id);
      if key in pendingDocuments {
        return Some(pendingDocuments[key]);
      }
      return None;
    }

    /** Removes, of the listed revisions, those that are still the current ones of their documents. */
    method ClearPendingIfCurrent(db: string, revisions: seq<Revision>)
      requires Valid()
      modifies this`pendingDocuments
      ensures Valid()
      ensures Revisions(pendingDocuments) == ClearIfCurrent(old(Revisions(pendingDocuments)), db, revisions)
      ensures forall key | key in pendingDocuments ::
                key in old(pendingDocuments) && pendingDocuments[key] == old(pendingDocuments)[key]
      ensures Normalize(db).Ok? ==> forall e, j | Normalize(e).Ok? ::
                var before := old(Shown(e, j));
                Shown(e, j) == if e == db && before.Some? && Revision(j, before.value.revision) in revisions then None
                               else before
    {
      assert revisions[0..] == revisions;
      for i := 0 to |revisions|
        invariant Valid()
        invariant forall key | key in pendingDocuments ::
                    key in old(pendingDocuments) && pendingDocuments[key] == old(pendingDocuments)[key]
        invariant ClearIfCurrent(Revisions(pendingDocuments), db, revisions[i..])
               == ClearIfCurrent(old(Revisions(pendingDocuments)), db, revisions)
      {
        var key := PendingKey(db, revisions[i].id);
        assert revisions[i..][1..] == revisions[i + 1..];
        if key in pendingDocuments && pendingDocuments[key].revision == revisions[i].revision {
          ghost var before := Revisions(pendingDocuments);
          pendingDocuments := pendingDocuments - {key};
          assert Revisions(pendingDocuments) == before - {key};
        }
      }
      forall e, j | Normalize(db).Ok? && Normalize(e).Ok?
        ensures var key := PendingKey(e, j);
                key in pendingDocuments <==>
                  && key in old(pendingDocuments)
                  && !(e == db && Revision(j, old(pendingDocuments)[key].revision) in revisions)
      {
        ClearedExactly(old(pendingDocuments), pendingDocuments, db, revisions, e, j);
      }
    }

    method PendingWriteCountForDb(db: string) returns (count: nat)
      ensures count == |set key | key in pendingDocuments && OfDb(key, db)|
    {
      ghost var counted: set<string> := {};
      var keys := pendingDocuments.Keys;
      count := 0;
      while keys != {}
        invariant keys <= pendingDocuments.Keys
        invariant counted == set key | key in pendingDocuments.Keys - keys && OfDb(key, db)
        invariant count == |counted|
        decreases |keys|
      {
        var key :| key in keys;
        keys := keys - {key};
        if OfDb(key, db) {
          counted := counted + {key};
          count := count + 1;
        }
      }
      assert counted == set key | key in pendingDocuments && OfDb(key, db);
    }

    /** Forgets one database: its queue, statistics, pending documents, cache epochs and cached reads. */
    method ClearDbRuntimeState(db: string)
      modifies this
      ensures writeQueues == old(writeQueues) - {db} && dbStats == old(dbStats) - {db}
      ensures pendingDocuments == old(pendingDocuments) - PendingOf(old(pendingDocuments.Keys), db)
      ensures cacheEpochs == old(cacheEpochs) - EpochsOf(old(cacheEpochs.Keys), db)
      ensures readCacheTtlOverrides == old(readCacheTtlOverrides) - ReadsOf(old(readCacheTtlOverrides.Keys), db)
      ensures pendingRevision == old(pendingRevision)
    {
      writeQueues := writeQueues - {db};
      dbStats := dbStats - {db};
      pendingDocuments := RemoveAll(pendingDocuments, PendingOf(pendingDocuments.Keys, db));
      cacheEpochs := RemoveAll(cacheEpochs, EpochsOf(cacheEpochs.Keys, db));
      readCacheTtlOverrides := RemoveAll(readCacheTtlOverrides, ReadsOf(readCacheTtlOverrides.Keys, db));
    }
  }

  /** Removes the collected keys one by one. */
  method RemoveAll<T>(m: map<string, T>, keys: set<string>) returns (rest: map<string, T>)
    ensures rest == m - keys
  {
    rest := m;
    var left := keys;
    while left != {}
      invariant left <= keys && rest == m - (keys - left)
      decreases |left|
    {
      var key :| key in left;
      rest := rest - {key};
      left := left - {key};
    }
  }

  /** Clearing one database takes every key of it and no key of any other. */
  lemma ClearIsExact(keys: set<string>, d: string, e: string, id: string, rest: string)
    requires Normalize(d).Ok? && Normalize(e).Ok?
    ensures PendingKey(e, id) in PendingOf(keys, d) <==> PendingKey(e, id) in keys && d == e
    ensures AnyScopeEpochKey(e) in EpochsOf(keys, d) <==> AnyScopeEpochKey(e) in keys && d == e
    ensures BroadcastEpochKey(e) in EpochsOf(keys, d) <==> BroadcastEpochKey(e) in keys && d == e
    ensures CollectionEpochKey(e, rest) in EpochsOf(keys, d) <==> CollectionEpochKey(e, rest) in keys && d == e
    ensures ReadKey(e, rest) in ReadsOf(keys, d) <==> ReadKey(e, rest) in keys && d == e
  {
    KeysAreSeparate(d, e, id, rest, rest);
  }

  /**
   The maps are keyed by the path as the client wrote it: with a space in front, the
   same database file has other keys, which clearing the database leaves in place.
   */
  lemma SpacedPathHasOtherKeys(db: string, id: string)
    requires Normalize(db).Ok?
    ensures Normalize(" " + db) == Normalize(db)
    ensures PendingKey(" " + db, id) != PendingKey(db, id) && !OfDb(PendingKey(" " + db, id), db)
  {
    SpacedInput(db);
    KeysAreSeparate(db, " " + db, id, "", "");
    assert |PendingKey(" " + db, id)| != |PendingKey(db, id)|;
  }

  /** So does a `.` segment: `a/./b` is accepted as it stands and leads to the file of `a/b`. */
  lemma DottedPathHasOtherKeys(base: string, s: string, t: string, id: string)
    requires s != "" && t != "" && Normalize(s + "/" + t) == Ok(s + "/" + t)
    ensures var (db, dotted) := (s + "/" + t, s + "/" + "." + "/" + t);
            && Normalize(dotted) == Ok(dotted) && SameFile(base, dotted, db)
            && PendingKey(dotted, id) != PendingKey(db, id) && !OfDb(PendingKey(dotted, id), db)
  {
    var (db, dotted) := (s + "/" + t, s + "/" + "." + "/" + t);
    DottedInput(base, s, t);
    KeysAreSeparate(db, dotted, id, "", "");
    assert |PendingKey(dotted, id)| != |PendingKey(db, id)|;
  }
}
