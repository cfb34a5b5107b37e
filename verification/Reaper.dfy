/** The TTL reaper as one transaction over the tables (`src/storage/reaper.rs`), and runs of statements. */
module Reaper {
  import opened Prelude
  import opened Tables

  predicate Expired(d: Doc, now: int)
  {
    d.expiresAt.Some? && d.expiresAt.value <= now
  }

  /** The reaper takes an expired document to the archive or deletes it. */
  predicate Takes(d: Doc, now: int, expiry: Expiry)
  {
    Expired(d, now) && d.expiry == expiry
  }

  function CountTaken(docs: seq<Doc>, now: int, expiry: Expiry): nat
  {
    if docs == [] then 0
    else CountTaken(docs[..|docs| - 1], now, expiry) + (if Takes(docs[|docs| - 1], now, expiry) then 1 else 0)
  }

  /** Only these columns are copied; the user and the metadata are not. */
  function ArchivedRow(d: Doc, txn: string, expires: Option<int>): ArchiveRow
  {
    ArchiveRow(d.id, d.collection, d.data, d.size, d.created, d.modified, txn, expires)
  }

  function MovedRows(docs: seq<Doc>, now: int, txn: string, expires: Option<int>): seq<ArchiveRow>
  {
    if docs == [] then []
    else
      var last := docs[|docs| - 1];
      MovedRows(docs[..|docs| - 1], now, txn, expires)
        + (if Takes(last, now, Archive) then [ArchivedRow(last, txn, expires)] else [])
  }

  predicate IdTaken(docs: seq<Doc>, now: int, expiry: Expiry, id: string)
  {
    exists i :: 0 <= i < |docs| && docs[i].id == id && Takes(docs[i], now, expiry)
  }

  function CancelOne(tr: Transition, docs: seq<Doc>, now: int): Transition
  {
    if tr.status == Pending && IdTaken(docs, now, Archive, tr.documentId) then tr.(status := Cancelled) else tr
  }

  function CancelFor(trs: seq<Transition>, docs: seq<Doc>, now: int): seq<Transition>
  {
    if trs == [] then [] else CancelFor(trs[..|trs| - 1], docs, now) + [CancelOne(trs[|trs| - 1], docs, now)]
  }

  function DropFor(trs: seq<Transition>, docs: seq<Doc>, now: int): seq<Transition>
  {
    if trs == [] then []
    else
      var last := trs[|trs| - 1];
      DropFor(trs[..|trs| - 1], docs, now) + (if IdTaken(docs, now, Delete, last.documentId) then [] else [last])
  }

  predicate RowExpired(row: ArchiveRow, now: int)
  {
    row.expiresAt.Some? && row.expiresAt.value <= now
  }

  function FreshRows(rows: seq<ArchiveRow>, now: int): seq<ArchiveRow>
  {
    if rows == [] then []
    else
      var last := rows[|rows| - 1];
      FreshRows(rows[..|rows| - 1], now) + (if RowExpired(last, now) then [] else [last])
  }

  /** `DELETE FROM __kdb_documents WHERE …`, row by row from the i-th on, each with its triggers. */
  function DeleteFrom(t: Tables, i: nat, now: int, expiry: Expiry): Tables
    requires i <= |t.docs|
    decreases |t.docs| - i
  {
    if i == |t.docs| then t
    else if Takes(t.docs[i], now, expiry) then DeleteFrom(DeleteRow(t, i), i, now, expiry)
    else DeleteFrom(t, i + 1, now, expiry)
  }

  function ArchiveExpiry(now: int, ttl: Option<nat>): Option<int>
  {
    if ttl.Some? then Some(now + ttl.value) else None
  }

  /** The statements of one reap, in their order. */
  function ReapTables(t: Tables, now: int, ttl: Option<nat>, txn: string): Tables
  {
    var t1 := t.(archive := t.archive + MovedRows(t.docs, now, txn, ArchiveExpiry(now, ttl)));
    var t2 := t1.(transitions := CancelFor(t1.transitions, t1.docs, now));
    var t3 := DeleteFrom(t2, 0, now, Archive);
    var t4 := t3.(transitions := DropFor(t3.transitions, t3.docs, now));
    var t5 := DeleteFrom(t4, 0, now, Delete);
    t5.(archive := FreshRows(t5.archive, now))
  }

  datatype ReaperStats = ReaperStats(moved: nat, deletedFromArchive: nat, deletedLive: nat)

  class Database {
    var tables: Tables

    constructor ()
      ensures tables == Tables([], map[], None, [], [], {})
    {
      tables := Tables([], map[], None, [], [], {});
    }

    method ReapConn(now: int, ttl: Option<nat>, txn: string) returns (stats: ReaperStats)
      modifies this
      ensures tables == ReapTables(old(tables), now, ttl, txn)
      ensures stats.moved == CountTaken(old(tables).docs, now, Archive)
      ensures |old(tables).docs| == |tables.docs| + stats.moved + stats.deletedLive
      ensures |old(tables).archive| + stats.moved == |tables.archive| + stats.deletedFromArchive
    {
      var moved := MoveToArchive(now, txn, ArchiveExpiry(now, ttl));
      CancelTransitions(now);
      var archived := DeleteExpired(now, Archive);
      DropTransitions(now);
      var deletedLive := DeleteExpired(now, Delete);
      var deletedFromArchive := PruneArchive(now);
      return ReaperStats(moved, deletedFromArchive, deletedLive);
    }

    method MoveToArchive(now: int, txn: string, expires: Option<int>) returns (moved: nat)
      modifies this
      ensures tables == old(tables).(archive := old(tables).archive + MovedRows(old(tables).docs, now, txn, expires))
      ensures moved == |MovedRows(old(tables).docs, now, txn, expires)| == CountTaken(old(tables).docs, now, Archive)
    {
      var docs := tables.docs;
      var rows: seq<ArchiveRow> := [];
      moved := 0;
      for i := 0 to |docs|
        invariant rows == MovedRows(docs[..i], now, txn, expires)
        invariant moved == |rows| == CountTaken(docs[..i], now, Archive)
      {
        assert docs[..i + 1][..i] == docs[..i];
        if Takes(docs[i], now, Archive) {
          rows := rows + [ArchivedRow(docs[i], txn, expires)];
          moved := moved + 1;
        }
      }
      assert docs[..|docs|] == docs;
      tables := tables.(archive := tables.archive + rows);
    }

    method CancelTransitions(now: int)
      modifies this
      ensures tables == old(tables).(transitions := CancelFor(old(tables).transitions, old(tables).docs, now))
    {
      var trs := tables.transitions;
      var kept: seq<Transition> := [];
      for i := 0 to |trs|
        invariant kept == CancelFor(trs[..i], tables.docs, now)
      {
        assert trs[..i + 1][..i] == trs[..i];
        kept := kept + [CancelOne(trs[i], tables.docs, now)];
      }
      assert trs[..|trs|] == trs;
      tables := tables.(transitions := kept);
    }

    method DropTransitions(now: int)
      modifies this
      ensures tables == old(tables).(transitions := DropFor(old(tables).transitions, old(tables).docs, now))
    {
      var trs := tables.transitions;
      var kept: seq<Transition> := [];
      for i := 0 to |trs|
        invariant kept == DropFor(trs[..i], tables.docs, now)
      {
        assert trs[..i + 1][..i] == trs[..i];
        if !IdTaken(tables.docs, now, Delete, trs[i].documentId) {
          kept := kept + [trs[i]];
        }
      }
      assert trs[..|trs|] == trs;
      tables := tables.(transitions := kept);
    }

    method DeleteExpired(now: int, expiry: Expiry) returns (deleted: nat)
      modifies this
      ensures tables == DeleteFrom(old(tables), 0, now, expiry)
      ensures tables.archive == old(tables).archive
      ensures |old(tables).docs| == |tables.docs| + deleted
      ensures deleted == CountTaken(old(tables).docs, now, expiry)
    {
      var i := 0;
      deleted := 0;
      while i < |tables.docs|
        invariant i <= |tables.docs|
        invariant DeleteFrom(tables, i, now, expiry) == DeleteFrom(old(tables), 0, now, expiry)
        invariant |old(tables).docs| == |tables.docs| + deleted
        decreases |tables.docs| - i
      {
        if Takes(tables.docs[i], now, expiry) {
          tables := DeleteRow(tables, i);
          deleted := deleted + 1;
        } else {
          i := i + 1;
        }
      }
      DeletedRows(old(tables), 0, now, expiry);
      assert old(tables).docs[..0] + Rest(old(tables).docs[0..], now, expiry) == Rest(old(tables).docs, now, expiry);
      RestCounts(old(tables).docs, now, expiry);
    }

    method PruneArchive(now: int) returns (deleted: nat)
      modifies this
      ensures tables == old(tables).(archive := FreshRows(old(tables).archive, now))
      ensures |old(tables).archive| == |tables.archive| + deleted
    {
      var rows := tables.archive;
      var kept: seq<ArchiveRow> := [];
      deleted := 0;
      for i := 0 to |rows|
        invariant kept == FreshRows(rows[..i], now) && |kept| + deleted == i
      {
        assert rows[..i + 1][..i] == rows[..i];
        if RowExpired(rows[i], now) {
          deleted := deleted + 1;
        } else {
          kept := kept + [rows[i]];
        }
      }
      assert rows[..|rows|] == rows;
      tables := tables.(archive := kept);
    }

    /** `reindex_fts`: creates the table when it is missing, empties it, and copies every document. */
    method ReindexFts() returns (copied: nat)
      modifies this
      ensures tables == Reindexed(old(tables)) && copied == |tables.docs|
    {
      tables := SetFts(tables, true);
      var rows: map<nat, FtsRow> := map[];
      var docs := tables.docs;
      for i := 0 to |docs|
        invariant rows == Copied(docs[..i])
      {
        assert docs[..i + 1][..i] == docs[..i];
        rows := rows[docs[i].rowid := Projection(docs[i])];
      }
      assert docs[..|docs|] == docs;
      tables := tables.(fts := Some(rows));
      copied := |docs|;
    }
  }

  // ----------------------------------------------------------- deleting by WHERE

  /** The documents a DELETE leaves. */
  function Rest(docs: seq<Doc>, now: int, expiry: Expiry): seq<Doc>
  {
    if docs == [] then []
    else (if Takes(docs[0], now, expiry) then [] else [docs[0]]) + Rest(docs[1..], now, expiry)
  }

  lemma {:induction false} RestAppend(a: seq<Doc>, b: seq<Doc>, now: int, expiry: Expiry)
    ensures Rest(a + b, now, expiry) == Rest(a, now, expiry) + Rest(b, now, expiry)
  {
    if a == [] {
      assert a + b == b;
    } else {
      assert (a + b)[1..] == a[1..] + b;
      RestAppend(a[1..], b, now, expiry);
    }
  }

  lemma {:induction false} RestCounts(docs: seq<Doc>, now: int, expiry: Expiry)
    ensures |Rest(docs, now, expiry)| + CountTaken(docs, now, expiry) == |docs|
  {
    if docs != [] {
      var (before, last) := (docs[..|docs| - 1], docs[|docs| - 1]);
      RestCounts(before, now, expiry);
      RestAppend(before, [last], now, expiry);
      assert docs == before + [last] && [last][1..] == [];
    }
  }

  /** Row by row, a DELETE removes exactly the rows that match and leaves the other tables to the triggers. */
  lemma {:induction false} DeletedRows(t: Tables, i: nat, now: int, expiry: Expiry)
    requires i <= |t.docs|
    ensures var t' := DeleteFrom(t, i, now, expiry);
            && t'.docs == t.docs[..i] + Rest(t.docs[i..], now, expiry)
            && t'.archive == t.archive && t'.transitions == t.transitions
    decreases |t.docs| - i
  {
    if i < |t.docs| {
      assert t.docs[i..][0] == t.docs[i] && t.docs[i..][1..] == t.docs[i + 1..];
      if Takes(t.docs[i], now, expiry) {
        var t1 := DeleteRow(t, i);
        assert t1.docs[..i] == t.docs[..i] && t1.docs[i..] == t.docs[i + 1..];
        DeletedRows(t1, i, now, expiry);
      } else {
        DeletedRows(t, i + 1, now, expiry);
        assert t.docs[..i + 1] == t.docs[..i] + [t.docs[i]];
      }
    }
  }

  lemma {:induction false} DeleteKeepsAgreement(t: Tables, i: nat, now: int, expiry: Expiry)
    requires i <= |t.docs| && Agree(t)
    ensures var t' := DeleteFrom(t, i, now, expiry); Agree(t') && (FtsComplete(t) ==> FtsComplete(t'))
    decreases |t.docs| - i
  {
    if i < |t.docs| {
      if Takes(t.docs[i], now, expiry) {
        DeleteKeepsStats(t, i);
        DeleteKeepsMirror(t, i);
        DeleteKeepsAgreement(DeleteRow(t, i), i, now, expiry);
      } else {
        DeleteKeepsAgreement(t, i + 1, now, expiry);
      }
    }
  }

  // --------------------------------------------------------------- what one reap does

  /** The documents that have not expired. */
  function Unexpired(docs: seq<Doc>, now: int): seq<Doc>
  {
    if docs == [] then [] else (if Expired(docs[0], now) then [] else [docs[0]]) + Unexpired(docs[1..], now)
  }

  lemma {:induction false} RestOfBoth(docs: seq<Doc>, now: int)
    ensures Rest(Rest(docs, now, Archive), now, Delete) == Unexpired(docs, now)
  {
    if docs != [] {
      RestOfBoth(docs[1..], now);
      var first := if Takes(docs[0], now, Archive) then [] else [docs[0]];
      RestAppend(first, Rest(docs[1..], now, Archive), now, Delete);
      assert [docs[0]][1..] == [];
    }
  }

  /** What becomes of a transition: gone with a deleted document, cancelled with an archived one. */
  function TransitionsAfter(trs: seq<Transition>, docs: seq<Doc>, now: int): seq<Transition>
  {
    if trs == [] then []
    else
      var last := trs[|trs| - 1];
      TransitionsAfter(trs[..|trs| - 1], docs, now)
        + (if IdTaken(docs, now, Delete, last.documentId) then [] else [CancelOne(last, docs, now)])
  }

  lemma {:induction false} RestHas(docs: seq<Doc>, now: int, expiry: Expiry, d: Doc)
    ensures d in Rest(docs, now, expiry) <==> d in docs && !Takes(d, now, expiry)
  {
    if docs != [] {
      RestHas(docs[1..], now, expiry, d);
      assert docs == [docs[0]] + docs[1..];
    }
  }

  /** Deleting the archived documents does not change which ids the hard delete takes. */
  lemma IdTakenOfRest(docs: seq<Doc>, now: int, id: string)
    ensures IdTaken(Rest(docs, now, Archive), now, Delete, id) <==> IdTaken(docs, now, Delete, id)
  {
    var rest := Rest(docs, now, Archive);
    if i :| 0 <= i < |docs| && docs[i].id == id && Takes(docs[i], now, Delete) {
      RestHas(docs, now, Archive, docs[i]);
      var j :| 0 <= j < |rest| && rest[j] == docs[i];
    }
    if i :| 0 <= i < |rest| && rest[i].id == id && Takes(rest[i], now, Delete) {
      RestHas(docs, now, Archive, rest[i]);
      var j :| 0 <= j < |docs| && docs[j] == rest[i];
    }
  }

  lemma {:induction false} DroppedAfterCancelled(trs: seq<Transition>, docs: seq<Doc>, now: int)
    ensures DropFor(CancelFor(trs, docs, now), Rest(docs, now, Archive), now) == TransitionsAfter(trs, docs, now)
  {
    if trs != [] {
      var before := trs[..|trs| - 1];
      var last := CancelOne(trs[|trs| - 1], docs, now);
      DroppedAfterCancelled(before, docs, now);
      assert (CancelFor(before, docs, now) + [last])[..|CancelFor(before, docs, now)|] == CancelFor(before, docs, now);
      IdTakenOfRest(docs, now, last.documentId);
    }
  }

  /** The tables after a reap: live documents, archive and transitions, each from what was there before. */
  lemma ReapEffect(t: Tables, now: int, ttl: Option<nat>, txn: string)
    ensures var t' := ReapTables(t, now, ttl, txn);
            && t'.docs == Unexpired(t.docs, now)
            && t'.archive == FreshRows(t.archive + MovedRows(t.docs, now, txn, ArchiveExpiry(now, ttl)), now)
            && t'.transitions == TransitionsAfter(t.transitions, t.docs, now)
  {
    var t1 := t.(archive := t.archive + MovedRows(t.docs, now, txn, ArchiveExpiry(now, ttl)));
    var t2 := t1.(transitions := CancelFor(t1.transitions, t1.docs, now));
    DeletedRows(t2, 0, now, Archive);
    assert t2.docs[..0] + Rest(t2.docs[0..], now, Archive) == Rest(t.docs, now, Archive);
    var t3 := DeleteFrom(t2, 0, now, Archive);
    var t4 := t3.(transitions := DropFor(t3.transitions, t3.docs, now));
    DroppedAfterCancelled(t.transitions, t.docs, now);
    DeletedRows(t4, 0, now, Delete);
    assert t4.docs[..0] + Rest(t4.docs[0..], now, Delete) == Rest(t3.docs, now, Delete);
    RestOfBoth(t.docs, now);
  }

  /** A reap keeps the statistics, and the full-text mirror with its completeness. */
  lemma ReapKeepsAgreement(t: Tables, now: int, ttl: Option<nat>, txn: string)
    requires Agree(t)
    ensures var t' := ReapTables(t, now, ttl, txn); Agree(t') && (FtsComplete(t) ==> FtsComplete(t'))
  {
    var t2 := t.(archive := t.archive + MovedRows(t.docs, now, txn, ArchiveExpiry(now, ttl)),
                 transitions := CancelFor(t.transitions, t.docs, now));
    OtherTables(t, t2);
    DeleteKeepsAgreement(t2, 0, now, Archive);
    var t3 := DeleteFrom(t2, 0, now, Archive);
    var t4 := t3.(transitions := DropFor(t3.transitions, t3.docs, now));
    OtherTables(t3, t4);
    DeleteKeepsAgreement(t4, 0, now, Delete);
    OtherTables(DeleteFrom(t4, 0, now, Delete), ReapTables(t, now, ttl, txn));
  }

  /** The archive and the transitions have no part in the agreement. */
  lemma OtherTables(t: Tables, t': Tables)
    requires Agree(t) && t' == t.(archive := t'.archive, transitions := t'.transitions)
    ensures Agree(t') && (FtsComplete(t) ==> FtsComplete(t'))
  {
    forall collection ensures StatOk(t', collection) {
      assert StatOk(t, collection);
    }
    if t.fts.Some? {
      forall r | r in t'.fts.value ensures MirroredBy(t', r, t'.fts.value[r]) {
        assert MirroredBy(t, r, t.fts.value[r]);
      }
    }
  }

  lemma {:induction false} UnexpiredHas(docs: seq<Doc>, now: int, d: Doc)
    ensures d in Unexpired(docs, now) <==> d in docs && !Expired(d, now)
  {
    if docs != [] {
      UnexpiredHas(docs[1..], now, d);
      assert docs == [docs[0]] + docs[1..];
    }
  }

  lemma {:induction false} TransitionsAfterHas(trs: seq<Transition>, docs: seq<Doc>, now: int, tr: Transition)
    ensures tr in TransitionsAfter(trs, docs, now)
       <==> exists o :: o in trs && !IdTaken(docs, now, Delete, o.documentId) && tr == CancelOne(o, docs, now)
  {
    if trs != [] {
      TransitionsAfterHas(trs[..|trs| - 1], docs, now, tr);
      assert trs == trs[..|trs| - 1] + [trs[|trs| - 1]];
    }
  }

  /**
   One reap leaves no expired live document and loses no other; it leaves no pending
   transition for a document it archived and no transition for one it deleted.
   */
  lemma ReapPartitions(t: Tables, now: int, ttl: Option<nat>, txn: string, d: Doc, tr: Transition)
    ensures var t' := ReapTables(t, now, ttl, txn);
            && (d in t'.docs <==> d in t.docs && !Expired(d, now))
            && (d in t.docs && Takes(d, now, Archive) && tr in t'.transitions && tr.documentId == d.id ==>
                  tr.status != Pending)
            && (d in t.docs && Takes(d, now, Delete) ==> !(tr in t'.transitions && tr.documentId == d.id))
            && (tr in t.transitions && !IdTaken(t.docs, now, Archive, tr.documentId) ==>
                  tr in t'.transitions || IdTaken(t.docs, now, Delete, tr.documentId))
  {
    ReapEffect(t, now, ttl, txn);
    UnexpiredHas(t.docs, now, d);
    TransitionsAfterHas(t.transitions, t.docs, now, tr);
    if d in t.docs && Expired(d, now) {
      var i :| 0 <= i < |t.docs| && t.docs[i] == d;
      assert IdTaken(t.docs, now, d.expiry, d.id);
    }
  }

  lemma {:induction false} MovedRowsHas(docs: seq<Doc>, now: int, txn: string, expires: Option<int>, row: ArchiveRow)
    ensures row in MovedRows(docs, now, txn, expires)
       <==> exists d :: d in docs && Takes(d, now, Archive) && row == ArchivedRow(d, txn, expires)
  {
    if docs != [] {
      MovedRowsHas(docs[..|docs| - 1], now, txn, expires, row);
      assert docs == docs[..|docs| - 1] + [docs[|docs| - 1]];
    }
  }

  lemma {:induction false} FreshRowsHas(rows: seq<ArchiveRow>, now: int, row: ArchiveRow)
    ensures row in FreshRows(rows, now) <==> row in rows && !RowExpired(row, now)
  {
    if rows != [] {
      FreshRowsHas(rows[..|rows| - 1], now, row);
      assert rows == rows[..|rows| - 1] + [rows[|rows| - 1]];
    }
  }

  /** After a reap the archive holds the unexpired of the old rows and of the rows of the documents it took. */
  lemma ReapArchives(t: Tables, now: int, ttl: Option<nat>, txn: string, row: ArchiveRow)
    ensures row in ReapTables(t, now, ttl, txn).archive <==>
              && !RowExpired(row, now)
              && (row in t.archive ||
                  exists d :: d in t.docs && Takes(d, now, Archive)
                              && row == ArchivedRow(d, txn, ArchiveExpiry(now, ttl)))
  {
    ReapEffect(t, now, ttl, txn);
    MovedRowsHas(t.docs, now, txn, ArchiveExpiry(now, ttl), row);
    FreshRowsHas(t.archive + MovedRows(t.docs, now, txn, ArchiveExpiry(now, ttl)), now, row);
  }

  // ------------------------------------------- the same on a document's own columns

  /** An expired document to be archived has a row with its columns in the archive, unless that expires at once. */
  lemma ArchivedDocument(t: Tables, now: int, ttl: Option<nat>, txn: string, d: Doc)
    requires d in t.docs && d.expiry == Archive && d.expiresAt.Some? && d.expiresAt.value <= now
    requires ttl != Some(0)
    ensures d !in ReapTables(t, now, ttl, txn).docs
    ensures var expires := match ttl case None => None case Some(secs) => Some(now + secs);
            ArchiveRow(d.id, d.collection, d.data, d.size, d.created, d.modified, txn, expires)
              in ReapTables(t, now, ttl, txn).archive
  {
    var row := ArchivedRow(d, txn, ArchiveExpiry(now, ttl));
    assert Takes(d, now, Archive) && !RowExpired(row, now);
    ReapArchives(t, now, ttl, txn, row);
    ReapEffect(t, now, ttl, txn);
    UnexpiredHas(t.docs, now, d);
  }

  /** What else is in the archive was there before and has not expired; a document to be deleted leaves no row. */
  lemma ArchiveGainsOnly(t: Tables, now: int, ttl: Option<nat>, txn: string, row: ArchiveRow)
    requires forall d | d in t.docs && d.expiry == Archive && d.id == row.id ::
               d.expiresAt.None? || d.expiresAt.value > now
    ensures row in ReapTables(t, now, ttl, txn).archive
       <==> row in t.archive && (row.expiresAt.None? || row.expiresAt.value > now)
  {
    ReapArchives(t, now, ttl, txn, row);
  }

  /** Exactly the documents without an expiry or with one still to come stay, as they are and in order. */
  lemma DocumentStays(t: Tables, now: int, ttl: Option<nat>, txn: string, d: Doc)
    ensures d in ReapTables(t, now, ttl, txn).docs
       <==> d in t.docs && (d.expiresAt.None? || d.expiresAt.value > now)
  {
    ReapEffect(t, now, ttl, txn);
    UnexpiredHas(t.docs, now, d);
  }

  /** What becomes of the transitions of a document, which is the only one of its id. */
  lemma TransitionsOfDocument(t: Tables, now: int, ttl: Option<nat>, txn: string, d: Doc, tr: Transition)
    requires d in t.docs && (forall x | x in t.docs && x.id == d.id :: x == d)
    requires tr in t.transitions && tr.documentId == d.id
    ensures var (after, expired) := (ReapTables(t, now, ttl, txn).transitions,
                                     d.expiresAt.Some? && d.expiresAt.value <= now);
            if !expired then tr in after
            else if d.expiry == Archive then
              (if tr.status == Pending then tr.(status := Cancelled) else tr) in after
            else forall o | o in after :: o.documentId != d.id
  {
    ReapEffect(t, now, ttl, txn);
    OnlyOne(t.docs, now, d, Archive);
    OnlyOne(t.docs, now, d, Delete);
    var kept := CancelOne(tr, t.docs, now);
    TransitionsAfterHas(t.transitions, t.docs, now, kept);
    forall o | o in TransitionsAfter(t.transitions, t.docs, now) && o.documentId == d.id
      ensures !IdTaken(t.docs, now, Delete, d.id)
    {
      TransitionsAfterHas(t.transitions, t.docs, now, o);
    }
  }

  lemma OnlyOne(docs: seq<Doc>, now: int, d: Doc, expiry: Expiry)
    requires d in docs && forall x | x in docs && x.id == d.id :: x == d
    ensures IdTaken(docs, now, expiry, d.id)
       <==> d.expiry == expiry && d.expiresAt.Some? && d.expiresAt.value <= now
  {
    var i :| 0 <= i < |docs| && docs[i] == d;
    assert IdTaken(docs, now, expiry, d.id) <== Takes(docs[i], now, expiry);
  }

  lemma {:induction false} FreshAppend(a: seq<ArchiveRow>, b: seq<ArchiveRow>, now: int)
    ensures FreshRows(a + b, now) == FreshRows(a, now) + FreshRows(b, now)
  {
    if b == [] {
      assert a + b == a;
    } else {
      assert (a + b)[..|a + b| - 1] == a + b[..|b| - 1];
      FreshAppend(a, b[..|b| - 1], now);
    }
  }

  lemma {:induction false} MovedFresh(docs: seq<Doc>, now: int, txn: string, expires: Option<int>)
    ensures var rows := MovedRows(docs, now, txn, expires);
            FreshRows(rows, now) == if expires.Some? && expires.value <= now then [] else rows
  {
    if docs != [] {
      var (before, last) := (docs[..|docs| - 1], docs[|docs| - 1]);
      MovedFresh(before, now, txn, expires);
      var rows := if Takes(last, now, Archive) then [ArchivedRow(last, txn, expires)] else [];
      FreshAppend(MovedRows(before, now, txn, expires), rows, now);
      assert FreshRows([], now) == [];
      assert rows != [] ==> rows[..0] == [];
    }
  }

  /** With an archive lifetime of zero, what is archived is deleted again by the same reap. */
  lemma ZeroLifetime(t: Tables, now: int, txn: string)
    ensures ReapTables(t, now, Some(0), txn).archive == FreshRows(t.archive, now)
  {
    ReapEffect(t, now, Some(0), txn);
    MovedFresh(t.docs, now, txn, Some(now));
    FreshAppend(t.archive, MovedRows(t.docs, now, txn, Some(now)), now);
  }

  lemma {:induction false} FreshTwice(rows: seq<ArchiveRow>, now: int)
    ensures FreshRows(FreshRows(rows, now), now) == FreshRows(rows, now)
  {
    if rows != [] {
      var (before, last) := (rows[..|rows| - 1], rows[|rows| - 1]);
      FreshTwice(before, now);
      var kept := if RowExpired(last, now) then [] else [last];
      FreshAppend(FreshRows(before, now), kept, now);
      assert FreshRows([], now) == [];
      assert kept != [] ==> kept[..0] == [];
    }
  }

  lemma {:induction false} NothingTaken(docs: seq<Doc>, now: int, txn: string, expires: Option<int>, expiry: Expiry)
    requires forall i | 0 <= i < |docs| :: !Expired(docs[i], now)
    ensures MovedRows(docs, now, txn, expires) == [] && CountTaken(docs, now, expiry) == 0
  {
    if docs != [] {
      NothingTaken(docs[..|docs| - 1], now, txn, expires, expiry);
    }
  }

  lemma {:induction false} NothingDeleted(t: Tables, i: nat, now: int, expiry: Expiry)
    requires i <= |t.docs| && forall j | 0 <= j < |t.docs| :: !Expired(t.docs[j], now)
    ensures DeleteFrom(t, i, now, expiry) == t
    decreases |t.docs| - i
  {
    if i < |t.docs| {
      NothingDeleted(t, i + 1, now, expiry);
    }
  }

  lemma {:induction false} NothingCancelled(trs: seq<Transition>, docs: seq<Doc>, now: int)
    requires forall i | 0 <= i < |docs| :: !Expired(docs[i], now)
    ensures CancelFor(trs, docs, now) == trs && DropFor(trs, docs, now) == trs
  {
    if trs != [] {
      NothingCancelled(trs[..|trs| - 1], docs, now);
    }
  }

  /** A second reap at the same time changes nothing. */
  lemma ReapTwice(t: Tables, now: int, ttl: Option<nat>, txn: string, ttl2: Option<nat>, txn2: string)
    ensures var t' := ReapTables(t, now, ttl, txn); ReapTables(t', now, ttl2, txn2) == t'
  {
    var t' := ReapTables(t, now, ttl, txn);
    ReapEffect(t, now, ttl, txn);
    forall i | 0 <= i < |t'.docs| ensures !Expired(t'.docs[i], now) {
      UnexpiredHas(t.docs, now, t'.docs[i]);
    }
    NothingTaken(t'.docs, now, txn2, ArchiveExpiry(now, ttl2), Archive);
    NothingCancelled(t'.transitions, t'.docs, now);
    assert t'.archive + [] == t'.archive;
    NothingDeleted(t', 0, now, Archive);
    NothingDeleted(t', 0, now, Delete);
    FreshTwice(t.archive + MovedRows(t.docs, now, txn, ArchiveExpiry(now, ttl)), now);
  }

  // -------------------------------------------------------------- over whole runs

  datatype Statement =
    | Insert(doc: Doc)
    | DeleteAt(index: nat)
    | Update(index: nat, doc: Doc, columns: Columns)
    | Reap(now: int, ttl: Option<nat>, txn: string)
    | EnableFts(enabled: bool)
    | Reindex

  /** The statement does not fail, and an update stays in its collection. */
  predicate Runs(t: Tables, st: Statement)
  {
    match st
    case Insert(d) => CanInsert(t, d)
    case DeleteAt(i) => i < |t.docs|
    case Update(i, d, columns) => CanUpdate(t, i, d, columns) && d.collection == t.docs[i].collection
    case Reap(_, _, _) => true
    case EnableFts(_) => true
    case Reindex => true
  }

  function Step(t: Tables, st: Statement): Tables
    requires Runs(t, st)
  {
    match st
    case Insert(d) => InsertRow(t, d)
    case DeleteAt(i) => DeleteRow(t, i)
    case Update(i, d, columns) => UpdateRow(t, i, d, columns)
    case Reap(now, ttl, txn) => ReapTables(t, now, ttl, txn)
    case EnableFts(enabled) => SetFts(t, enabled)
    case Reindex => Reindexed(t)
  }

  function After(run: seq<Statement>): Option<Tables>
  {
    if run == [] then Some(Tables([], map[], None, [], [], {}))
    else match After(run[..|run| - 1])
      case None => None
      case Some(t) => if Runs(t, run[|run| - 1]) then Some(Step(t, run[|run| - 1])) else None
  }

  lemma StepAgrees(t: Tables, st: Statement)
    requires Agree(t) && Runs(t, st)
    ensures Agree(Step(t, st))
    ensures FtsComplete(t) || st == Reindex ==> FtsComplete(Step(t, st)) || st == EnableFts(false)
  {
    match st
    case Insert(d) =>
      InsertKeepsStats(t, d);
      InsertKeepsMirror(t, d);
    case DeleteAt(i) =>
      DeleteKeepsStats(t, i);
      DeleteKeepsMirror(t, i);
    case Update(i, d, columns) =>
      UpdateKeepsStats(t, i, d, columns);
      UpdateKeepsMirror(t, i, d, columns);
    case Reap(now, ttl, txn) => ReapKeepsAgreement(t, now, ttl, txn);
    case EnableFts(enabled) => FtsLeavesStats(t, SetFts(t, enabled));
    case Reindex =>
      FtsLeavesStats(t, Reindexed(t));
      ReindexMirrors(t);
  }

  lemma FtsLeavesStats(t: Tables, t': Tables)
    requires StatsOk(t) && t' == t.(fts := t'.fts)
    ensures StatsOk(t')
  {
    forall collection ensures StatOk(t', collection) {
      assert StatOk(t, collection);
    }
  }

  /**
   After every run of statements that leaves collections alone, reaps included, the
   statistics are the recomputed count and byte sum and every full-text row is the
   projection of its live document.
   */
  lemma {:induction false} RunsAgree(run: seq<Statement>)
    requires After(run).Some?
    ensures Agree(After(run).value)
  {
    if run != [] {
      RunsAgree(run[..|run| - 1]);
      StepAgrees(After(run[..|run| - 1]).value, run[|run| - 1]);
    }
  }

  /**
   Reaps, reindexes and switching the index on and off never end a run, and neither do
   inserts of new rows and ids, deletes of existing rows, and updates that keep row,
   collection and id.
   */
  lemma RunsGoOn(run: seq<Statement>, st: Statement)
    requires After(run).Some?
    requires match st
             case Insert(d) => forall x | x in After(run).value.docs :: x.rowid != d.rowid && x.id != d.id
             case DeleteAt(i) => i < |After(run).value.docs|
             case Update(i, d, columns) =>
               && i < |After(run).value.docs|
               && var o := After(run).value.docs[i];
               && o.rowid == d.rowid && o.collection == d.collection && o.id == d.id
               && (columns.data || o.data == d.data) && (columns.size || o.size == d.size)
             case _ => true
    ensures After(run + [st]).Some? && Agree(After(run + [st]).value)
  {
    RunsAgree(run);
    assert (run + [st])[..|run|] == run;
    assert Runs(After(run).value, st);
    RunsAgree(run + [st]);
  }

  /** From a reindex on, the full-text mirror stays complete until it is switched off. */
  lemma {:induction false} CompleteSinceReindex(run: seq<Statement>, k: nat)
    requires After(run).Some? && k < |run| && run[k] == Reindex
    requires forall i | k < i < |run| :: run[i] != EnableFts(false)
    ensures FtsComplete(After(run).value)
  {
    RunsAgree(run[..|run| - 1]);
    if k < |run| - 1 {
      CompleteSinceReindex(run[..|run| - 1], k);
    }
    StepAgrees(After(run[..|run| - 1]).value, run[|run| - 1]);
  }
}
