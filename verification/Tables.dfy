/**
 The document table with the tables its triggers keep (`src/storage/schema.rs`): the
 statistics per collection and the full-text mirror. Every statement is a sequence of
 row steps, and every row step runs its triggers.
 */
module Tables {
  import opened Prelude

  datatype Expiry = Archive | Delete

  /** A row of `__kdb_documents`; `size` may be NULL. */
  datatype Doc = Doc(
    rowid: nat, id: string, collection: string, data: string, size: Option<int>,
    expiresAt: Option<int>, expiry: Expiry, created: string, modified: string,
    userId: Option<string>, metadata: Option<string>)

  /** A row of `__kdb_system_stats`; NULL arithmetic makes `bytes` NULL for good. */
  datatype Stat = Stat(count: int, bytes: Option<int>)

  /** A row of the full-text table; the content is `json(data)`, a function of the data. */
  datatype FtsRow = FtsRow(id: string, data: string)

  datatype Status = Pending | Running | Completed | NotMet | Failing | Cancelled

  datatype Transition = Transition(id: string, documentId: string, status: Status)

  datatype ArchiveRow = ArchiveRow(
    id: string, collection: string, data: string, size: Option<int>, created: string, modified: string,
    txn: string, expiresAt: Option<int>)

  datatype Tables = Tables(
    docs: seq<Doc>,
    stats: map<string, Stat>,
    fts: Option<map<nat, FtsRow>>,    // None when the table and its triggers do not exist
    archive: seq<ArchiveRow>,
    transitions: seq<Transition>,
    nullSeen: set<string>)            // history: collections in which a NULL size took part in a trigger

  function Plus(a: Option<int>, b: Option<int>): Option<int>
  {
    if a.Some? && b.Some? then Some(a.value + b.value) else None
  }

  function Minus(a: Option<int>, b: Option<int>): Option<int>
  {
    if a.Some? && b.Some? then Some(a.value - b.value) else None
  }

  function Projection(d: Doc): FtsRow
  {
    FtsRow(d.id, d.data)
  }

  function Saw(seen: set<string>, collection: string, size: Option<int>): set<string>
  {
    if size.None? then seen + {collection} else seen
  }

  // ----------------------------------------------------------------- row steps

  /** A new row must take an unused rowid and an unused id. */
  predicate CanInsert(t: Tables, d: Doc)
  {
    forall i | 0 <= i < |t.docs| :: t.docs[i].rowid != d.rowid && t.docs[i].id != d.id
  }

  /** `trg_insert` and `trg_fts_insert`. */
  function InsertRow(t: Tables, d: Doc): Tables
  {
    var stat := if d.collection in t.stats
                then Stat(t.stats[d.collection].count + 1, Plus(t.stats[d.collection].bytes, d.size))
                else Stat(1, d.size);
    t.(docs := t.docs + [d],
       stats := t.stats[d.collection := stat],
       fts := if t.fts.Some? then Some(t.fts.value[d.rowid := Projection(d)]) else None,
       nullSeen := Saw(t.nullSeen, d.collection, d.size))
  }

  /** `trg_delete` and `trg_fts_delete`. */
  function DeleteRow(t: Tables, i: nat): Tables
    requires i < |t.docs|
  {
    var d := t.docs[i];
    t.(docs := t.docs[..i] + t.docs[i + 1..],
       stats := if d.collection in t.stats
                then t.stats[d.collection := Stat(t.stats[d.collection].count - 1,
                                                  Minus(t.stats[d.collection].bytes, d.size))]
                else t.stats,
       fts := if t.fts.Some? then Some(t.fts.value - {d.rowid}) else None,
       nullSeen := if d.collection in t.stats then Saw(t.nullSeen, d.collection, d.size) else t.nullSeen)
  }

  /** Which columns an UPDATE statement names. */
  datatype Columns = Columns(data: bool, size: bool, id: bool)

  /** Columns that an UPDATE does not name keep their values; rowids stay, ids stay unique. */
  predicate CanUpdate(t: Tables, i: nat, d: Doc, columns: Columns)
  {
    && i < |t.docs| && d.rowid == t.docs[i].rowid
    && (d.data != t.docs[i].data ==> columns.data)
    && (d.size != t.docs[i].size ==> columns.size)
    && (d.id != t.docs[i].id ==> columns.id)
    && forall j | 0 <= j < |t.docs| && j != i :: t.docs[j].id != d.id
  }

  /** `trg_update`, which fires on `data` and `_size_bytes`, and `trg_fts_update`, on `data` and `id`. */
  function UpdateRow(t: Tables, i: nat, d: Doc, columns: Columns): Tables
    requires i < |t.docs|
  {
    var o := t.docs[i];
    var fires := (columns.data || columns.size) && d.collection in t.stats;
    t.(docs := t.docs[i := d],
       stats := if fires
                then t.stats[d.collection := Stat(t.stats[d.collection].count,
                                                  Plus(Minus(t.stats[d.collection].bytes, o.size), d.size))]
                else t.stats,
       fts := if t.fts.Some? && (columns.data || columns.id)
              then Some((t.fts.value - {o.rowid})[d.rowid := Projection(d)])
              else t.fts,
       nullSeen := if fires then Saw(Saw(t.nullSeen, d.collection, o.size), d.collection, d.size) else t.nullSeen)
  }

  // ---------------------------------------------------------------- agreement

  function CountIn(docs: seq<Doc>, collection: string): nat
  {
    if docs == [] then 0 else (if docs[0].collection == collection then 1 else 0) + CountIn(docs[1..], collection)
  }

  function SizeOf(d: Doc): int
  {
    if d.size.Some? then d.size.value else 0
  }

  function BytesIn(docs: seq<Doc>, collection: string): int
  {
    if docs == [] then 0
    else (if docs[0].collection == collection then SizeOf(docs[0]) else 0) + BytesIn(docs[1..], collection)
  }

  /**
   The statistics of a collection are the count and byte sum recomputed from the
   documents; the byte sum is NULL exactly where a NULL size took part.
   */
  predicate StatOk(t: Tables, collection: string)
  {
    if collection in t.stats then
      && t.stats[collection].count == CountIn(t.docs, collection)
      && t.stats[collection].bytes
         == (if collection in t.nullSeen then None else Some(BytesIn(t.docs, collection)))
    else CountIn(t.docs, collection) == 0 && collection !in t.nullSeen
  }

  ghost predicate StatsOk(t: Tables)
  {
    && (forall collection :: StatOk(t, collection))
    && (forall i | 0 <= i < |t.docs| && t.docs[i].size.None? :: t.docs[i].collection in t.nullSeen)
  }

  predicate Distinct(t: Tables)
  {
    && (forall i, j | 0 <= i < j < |t.docs| :: t.docs[i].rowid != t.docs[j].rowid)
    && (forall i, j | 0 <= i < j < |t.docs| :: t.docs[i].id != t.docs[j].id)
  }

  predicate MirroredBy(t: Tables, r: nat, row: FtsRow)
  {
    exists i :: 0 <= i < |t.docs| && t.docs[i].rowid == r && row.id == t.docs[i].id && row.data == t.docs[i].data
  }

  /** Every full-text row is the projection of the live document with its rowid. */
  predicate FtsSound(t: Tables)
  {
    t.fts.Some? ==> forall r | r in t.fts.value :: MirroredBy(t, r, t.fts.value[r])
  }

  /** Every live document has a full-text row. */
  predicate FtsComplete(t: Tables)
  {
    t.fts.Some? && forall i | 0 <= i < |t.docs| :: t.docs[i].rowid in t.fts.value
  }

  ghost predicate Agree(t: Tables)
  {
    StatsOk(t) && Distinct(t) && FtsSound(t)
  }

  // ------------------------------------------------------------ what rows keep

  lemma {:induction false} CountAppend(a: seq<Doc>, b: seq<Doc>, collection: string)
    ensures CountIn(a + b, collection) == CountIn(a, collection) + CountIn(b, collection)
    ensures BytesIn(a + b, collection) == BytesIn(a, collection) + BytesIn(b, collection)
  {
    if a == [] {
      assert a + b == b;
    } else {
      assert (a + b)[1..] == a[1..] + b;
      CountAppend(a[1..], b, collection);
    }
  }

  lemma CountOne(d: Doc, collection: string)
    ensures CountIn([d], collection) == (if d.collection == collection then 1 else 0)
    ensures BytesIn([d], collection) == (if d.collection == collection then SizeOf(d) else 0)
  {
    assert [d][1..] == [];
  }

  /** A table around one of its rows. */
  lemma CountAround(docs: seq<Doc>, i: nat, collection: string)
    requires i < |docs|
    ensures CountIn(docs, collection)
         == CountIn(docs[..i], collection) + CountIn([docs[i]], collection) + CountIn(docs[i + 1..], collection)
    ensures BytesIn(docs, collection)
         == BytesIn(docs[..i], collection) + BytesIn([docs[i]], collection) + BytesIn(docs[i + 1..], collection)
  {
    assert docs == docs[..i] + [docs[i]] + docs[i + 1..];
    CountAppend(docs[..i] + [docs[i]], docs[i + 1..], collection);
    CountAppend(docs[..i], [docs[i]], collection);
  }

  lemma {:induction false} NothingCounted(docs: seq<Doc>, collection: string)
    requires CountIn(docs, collection) == 0
    ensures BytesIn(docs, collection) == 0
  {
    if docs != [] {
      NothingCounted(docs[1..], collection);
    }
  }

  lemma InsertKeepsStats(t: Tables, d: Doc)
    requires StatsOk(t)
    ensures StatsOk(InsertRow(t, d))
  {
    var t' := InsertRow(t, d);
    forall collection ensures StatOk(t', collection) {
      assert StatOk(t, collection);
      if CountIn(t.docs, collection) == 0 {
        NothingCounted(t.docs, collection);
      }
      CountAppend(t.docs, [d], collection);
      CountOne(d, collection);
    }
  }

  lemma DeleteKeepsStats(t: Tables, i: nat)
    requires StatsOk(t) && i < |t.docs|
    ensures StatsOk(DeleteRow(t, i))
  {
    var t' := DeleteRow(t, i);
    assert StatOk(t, t.docs[i].collection);
    forall collection ensures StatOk(t', collection) {
      assert StatOk(t, collection);
      CountAround(t.docs, i, collection);
      CountOne(t.docs[i], collection);
      CountAppend(t.docs[..i], t.docs[i + 1..], collection);
    }
    forall j | 0 <= j < |t'.docs| && t'.docs[j].size.None? ensures t'.docs[j].collection in t'.nullSeen {
      assert t'.docs[j] == if j < i then t.docs[j] else t.docs[j + 1];
    }
  }

  lemma UpdateCounts(t: Tables, i: nat, d: Doc, columns: Columns, collection: string)
    requires i < |t.docs|
    ensures CountIn(t.docs[i := d], collection)
         == CountIn(t.docs, collection) - CountIn([t.docs[i]], collection) + CountIn([d], collection)
    ensures BytesIn(t.docs[i := d], collection)
         == BytesIn(t.docs, collection) - BytesIn([t.docs[i]], collection) + BytesIn([d], collection)
  {
    CountAround(t.docs, i, collection);
    CountAround(t.docs[i := d], i, collection);
    assert t.docs[i := d][..i] == t.docs[..i] && t.docs[i := d][i + 1..] == t.docs[i + 1..];
  }

  lemma UpdateKeepsStats(t: Tables, i: nat, d: Doc, columns: Columns)
    requires StatsOk(t) && CanUpdate(t, i, d, columns) && d.collection == t.docs[i].collection
    ensures StatsOk(UpdateRow(t, i, d, columns))
  {
    var t' := UpdateRow(t, i, d, columns);
    assert StatOk(t, d.collection);
    forall collection ensures StatOk(t', collection) {
      assert StatOk(t, collection);
      UpdateCounts(t, i, d, columns, collection);
      CountOne(d, collection);
      CountOne(t.docs[i], collection);
    }
    CountAround(t.docs, i, d.collection);
    CountOne(t.docs[i], d.collection);
  }

  /** An UPDATE keeps the statistics right exactly when it leaves the collection as it is. */
  lemma UpdateKeepsStatsIff(t: Tables, i: nat, d: Doc, columns: Columns)
    requires StatsOk(t) && CanUpdate(t, i, d, columns)
    ensures StatsOk(UpdateRow(t, i, d, columns)) <==> d.collection == t.docs[i].collection
  {
    if d.collection == t.docs[i].collection {
      UpdateKeepsStats(t, i, d, columns);
    } else {
      var (t', from) := (UpdateRow(t, i, d, columns), t.docs[i].collection);
      assert StatOk(t, from);
      UpdateCounts(t, i, d, columns, from);
      CountOne(d, from);
      CountOne(t.docs[i], from);
      CountAround(t.docs, i, from);
      assert !StatOk(t', from);
    }
  }

  lemma InsertKeepsMirror(t: Tables, d: Doc)
    requires Distinct(t) && FtsSound(t) && CanInsert(t, d)
    ensures var t' := InsertRow(t, d); Distinct(t') && FtsSound(t') && (FtsComplete(t) ==> FtsComplete(t'))
  {
    var t' := InsertRow(t, d);
    if t'.fts.Some? {
      forall r | r in t'.fts.value ensures MirroredBy(t', r, t'.fts.value[r]) {
        if r == d.rowid {
          assert t'.docs[|t.docs|] == d;
        } else {
          var i :| 0 <= i < |t.docs| && t.docs[i].rowid == r && t.fts.value[r] == Projection(t.docs[i]);
          assert t'.docs[i] == t.docs[i];
        }
      }
    }
  }

  lemma DeleteKeepsMirror(t: Tables, i: nat)
    requires Distinct(t) && FtsSound(t) && i < |t.docs|
    ensures var t' := DeleteRow(t, i); Distinct(t') && FtsSound(t') && (FtsComplete(t) ==> FtsComplete(t'))
  {
    var t' := DeleteRow(t, i);
    assert forall j | 0 <= j < |t'.docs| :: t'.docs[j] == if j < i then t.docs[j] else t.docs[j + 1];
    if t'.fts.Some? {
      forall r | r in t'.fts.value ensures MirroredBy(t', r, t'.fts.value[r]) {
        StillMirrored(t, i, r);
      }
    }
  }

  lemma StillMirrored(t: Tables, i: nat, r: nat)
    requires Distinct(t) && FtsSound(t) && i < |t.docs| && t.fts.Some? && r in t.fts.value && r != t.docs[i].rowid
    ensures MirroredBy(DeleteRow(t, i), r, t.fts.value[r])
  {
    assert MirroredBy(t, r, t.fts.value[r]);
    var j :| 0 <= j < |t.docs| && t.docs[j].rowid == r && t.fts.value[r] == Projection(t.docs[j]);
    assert DeleteRow(t, i).docs[if j < i then j else j - 1] == t.docs[j];
  }

  lemma UpdateKeepsMirror(t: Tables, i: nat, d: Doc, columns: Columns)
    requires Distinct(t) && FtsSound(t) && CanUpdate(t, i, d, columns)
    ensures var t' := UpdateRow(t, i, d, columns); Distinct(t') && FtsSound(t') && (FtsComplete(t) ==> FtsComplete(t'))
  {
    var t' := UpdateRow(t, i, d, columns);
    if t'.fts.Some? {
      forall r | r in t'.fts.value ensures MirroredBy(t', r, t'.fts.value[r]) {
        if r == d.rowid {
          if columns.data || columns.id {
            assert t'.docs[i] == d;
          } else {
            RowidIsUnique(t, i, r);
            assert t'.docs[i] == d;
          }
        } else {
          assert MirroredBy(t, r, t.fts.value[r]);
          var j :| 0 <= j < |t.docs| && t.docs[j].rowid == r && t.fts.value[r] == Projection(t.docs[j]);
          assert t'.docs[j] == t.docs[j];
        }
      }
    }
  }

  lemma RowidIsUnique(t: Tables, i: nat, r: nat)
    requires Distinct(t) && FtsSound(t) && i < |t.docs| && t.docs[i].rowid == r
    ensures t.fts.Some? && r in t.fts.value ==> t.fts.value[r] == Projection(t.docs[i])
  {
    if t.fts.Some? && r in t.fts.value {
      assert MirroredBy(t, r, t.fts.value[r]);
    }
  }

  // --------------------------------------------------------- the full-text table

  /** `set_fts_index_enabled`: nothing is copied, and nothing happens when the table exists. */
  function SetFts(t: Tables, enabled: bool): Tables
  {
    if !enabled then t.(fts := None) else if t.fts.Some? then t else t.(fts := Some(map[]))
  }

  /** `INSERT … SELECT rowid, id, json(data) FROM __kdb_documents`. */
  function Copied(docs: seq<Doc>): map<nat, FtsRow>
  {
    if docs == [] then map[]
    else Copied(docs[..|docs| - 1])[docs[|docs| - 1].rowid := Projection(docs[|docs| - 1])]
  }

  function Reindexed(t: Tables): Tables
  {
    t.(fts := Some(Copied(t.docs)))
  }

  lemma {:induction false} CopiedRows(docs: seq<Doc>)
    requires forall i, j | 0 <= i < j < |docs| :: docs[i].rowid != docs[j].rowid
    ensures forall r :: r in Copied(docs) <==> exists i :: 0 <= i < |docs| && docs[i].rowid == r
    ensures forall i | 0 <= i < |docs| ::
              docs[i].rowid in Copied(docs) && Copied(docs)[docs[i].rowid] == Projection(docs[i])
  {
    if docs != [] {
      var (before, last) := (docs[..|docs| - 1], docs[|docs| - 1]);
      CopiedRows(before);
      forall i | 0 <= i < |docs|
        ensures docs[i].rowid in Copied(docs) && Copied(docs)[docs[i].rowid] == Projection(docs[i])
      {
        assert i < |before| ==> before[i] == docs[i];
      }
      forall r | r in Copied(docs) ensures exists i :: 0 <= i < |docs| && docs[i].rowid == r {
        if r == last.rowid {
          assert docs[|docs| - 1].rowid == r;
        } else {
          var i :| 0 <= i < |before| && before[i].rowid == r;
          assert docs[i].rowid == r;
        }
      }
    }
  }

  /** After a reindex the mirror is sound and complete, whatever it held before. */
  lemma ReindexMirrors(t: Tables)
    requires Distinct(t)
    ensures FtsSound(Reindexed(t)) && FtsComplete(Reindexed(t))
  {
    var t' := Reindexed(t);
    CopiedRows(t.docs);
    forall r | r in t'.fts.value ensures MirroredBy(t', r, t'.fts.value[r]) {
      var i :| 0 <= i < |t.docs| && t.docs[i].rowid == r;
      assert t'.fts.value[r] == Projection(t'.docs[i]);
    }
  }
}
