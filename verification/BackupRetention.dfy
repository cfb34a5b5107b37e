/** Pruning of old backups (`src/storage/local.rs`). */
module BackupRetention {
  import opened Unsigned

  const SECS_PER_DAY := 86_400

  datatype Entry = Entry(ts: u64, path: string)

  // ---------------------------------------------- `sort_by(|a, b| b.0.cmp(&a.0))`

  /** Places an entry behind the entries that are as new or newer. */
  function Place(sorted: seq<Entry>, e: Entry): seq<Entry>
  {
    if sorted == [] then [e]
    else if sorted[|sorted| - 1].ts >= e.ts then sorted + [e]
    else Place(sorted[..|sorted| - 1], e) + [sorted[|sorted| - 1]]
  }

  /** The stable order, newest first. */
  function NewestFirst(entries: seq<Entry>): seq<Entry>
  {
    if entries == [] then [] else Place(NewestFirst(entries[..|entries| - 1]), entries[|entries| - 1])
  }

  predicate Descending(entries: seq<Entry>)
  {
    forall i, j | 0 <= i < j < |entries| :: entries[i].ts >= entries[j].ts
  }

  lemma {:induction false} PlaceHas(sorted: seq<Entry>, e: Entry)
    ensures multiset(Place(sorted, e)) == multiset(sorted) + multiset{e}
  {
    if sorted != [] && sorted[|sorted| - 1].ts < e.ts {
      PlaceHas(sorted[..|sorted| - 1], e);
      assert sorted == sorted[..|sorted| - 1] + [sorted[|sorted| - 1]];
    }
  }

  lemma {:induction false} PlaceKeeps(sorted: seq<Entry>, e: Entry)
    requires Descending(sorted)
    ensures Descending(Place(sorted, e))
  {
    if sorted != [] && sorted[|sorted| - 1].ts < e.ts {
      var (before, last) := (sorted[..|sorted| - 1], sorted[|sorted| - 1]);
      PlaceKeeps(before, e);
      PlaceHas(before, e);
      var placed := Place(before, e);
      forall i | 0 <= i < |placed| ensures placed[i].ts >= last.ts {
        assert placed[i] in multiset(placed);
        assert placed[i] in before || placed[i] == e;
      }
    }
  }

  lemma {:induction false} NewestFirstSorts(entries: seq<Entry>)
    ensures Descending(NewestFirst(entries)) && multiset(NewestFirst(entries)) == multiset(entries)
  {
    if entries != [] {
      var (before, last) := (entries[..|entries| - 1], entries[|entries| - 1]);
      NewestFirstSorts(before);
      PlaceKeeps(NewestFirst(before), last);
      PlaceHas(NewestFirst(before), last);
      assert entries == before + [last];
    }
  }

  /** The entries of one time, in their order. */
  function OfTime(entries: seq<Entry>, ts: u64): seq<Entry>
  {
    if entries == [] then []
    else
      var last := entries[|entries| - 1];
      OfTime(entries[..|entries| - 1], ts) + if last.ts == ts then [last] else []
  }

  lemma {:induction false} PlacedBehindEquals(sorted: seq<Entry>, e: Entry, ts: u64)
    requires Descending(sorted)
    ensures OfTime(Place(sorted, e), ts) == OfTime(sorted, ts) + if e.ts == ts then [e] else []
  {
    if sorted == [] {
      assert [e][..0] == [];
      assert OfTime([e], ts) == OfTime([], ts) + if e.ts == ts then [e] else [];
    } else {
      var (before, last) := (sorted[..|sorted| - 1], sorted[|sorted| - 1]);
      if last.ts >= e.ts {
        assert (sorted + [e])[..|sorted|] == sorted;
      } else {
        PlacedBehindEquals(before, e, ts);
        assert (Place(before, e) + [last])[..|Place(before, e)|] == Place(before, e);
      }
    }
  }

  /** The sort is stable: entries of the same time stay in the order of the listing. */
  lemma {:induction false} EqualsKeepOrder(entries: seq<Entry>, ts: u64)
    ensures OfTime(NewestFirst(entries), ts) == OfTime(entries, ts)
  {
    if entries != [] {
      var before := entries[..|entries| - 1];
      EqualsKeepOrder(before, ts);
      NewestFirstSorts(before);
      PlacedBehindEquals(NewestFirst(before), entries[|entries| - 1], ts);
    }
  }

  // ------------------------------------------------------------------ what is kept

  /** `max_age_days.saturating_mul(86_400)`. */
  function MaxAgeSecs(days: u64): u64
  {
    Saturate(days * SECS_PER_DAY)
  }

  /** `max_count.max(1)`. */
  function Allowed(maxCount: nat): nat
  {
    if maxCount == 0 then 1 else maxCount
  }

  /** No age limit, or young enough. */
  predicate InTime(e: Entry, now: u64, days: u64)
  {
    MaxAgeSecs(days) == 0 || MinusOrZero(now, e.ts) <= MaxAgeSecs(days)
  }

  /** Entry `i` of the sorted list is kept. */
  predicate Keeps(sorted: seq<Entry>, i: nat, now: u64, maxCount: nat, days: u64)
    requires i < |sorted|
  {
    i < Allowed(maxCount) && InTime(sorted[i], now, days)
  }

  /** How many of the newest entries are kept. */
  function KeptCount(sorted: seq<Entry>, now: u64, maxCount: nat, days: u64): (k: nat)
    ensures k <= |sorted|
  {
    if sorted == [] then 0
    else
      var k := KeptCount(sorted[..|sorted| - 1], now, maxCount, days);
      if Keeps(sorted, |sorted| - 1, now, maxCount, days) then k + 1 else k
  }

  function Paths(entries: seq<Entry>): set<string>
  {
    set e | e in entries :: e.path
  }

  /** The kept entries: so many of the newest. */
  function Kept(entries: seq<Entry>, now: u64, maxCount: nat, days: u64): seq<Entry>
  {
    NewestFirst(entries)[..KeptCount(NewestFirst(entries), now, maxCount, days)]
  }

  /** The files left: those of the dropped entries are gone, unless a kept entry has the same path. */
  function Pruned(files: set<string>, entries: seq<Entry>, now: u64, maxCount: nat, days: u64): set<string>
  {
    files - (Paths(entries) - Paths(Kept(entries, now, maxCount, days)))
  }

  class BackupDir {
    var files: set<string>

    constructor (files: set<string>)
      ensures this.files == files
    {
      this.files := files;
    }

    /** Keeps the newest entries, at least one and at most `maxCount`, as far as they are young enough. */
    method Prune(entries: seq<Entry>, now: u64, maxCount: nat, days: u64)
      modifies this
      ensures files == Pruned(old(files), entries, now, maxCount, days)
    {
      var sorted := NewestFirst(entries);
      NewestFirstSorts(entries);
      var keep := KeptPaths(sorted, now, maxCount, days);
      for i := 0 to |sorted|
        invariant files == old(files) - (Paths(sorted[..i]) - keep)
      {
        PathsOfNext(sorted, i);
        if sorted[i].path !in keep {
          files := files - {sorted[i].path};
        }
      }
      assert sorted[..|sorted|] == sorted;
      SamePaths(sorted, entries);
    }
  }

  lemma SamePaths(a: seq<Entry>, b: seq<Entry>)
    requires multiset(a) == multiset(b)
    ensures Paths(a) == Paths(b)
  {
    forall e ensures e in a <==> e in b {
      assert e in multiset(a) <==> e in a;
      assert e in multiset(b) <==> e in b;
    }
  }

  method KeptPaths(sorted: seq<Entry>, now: u64, maxCount: nat, days: u64) returns (keep: set<string>)
    requires Descending(sorted)
    ensures keep == Paths(sorted[..KeptCount(sorted, now, maxCount, days)])
  {
    keep := {};
    ghost var k := 0;
    for i := 0 to |sorted|
      invariant k == KeptCount(sorted[..i], now, maxCount, days) <= i
      invariant keep == Paths(sorted[..k])
    {
      assert sorted[..i + 1][..i] == sorted[..i];
      if i >= Allowed(maxCount) {
        continue;
      }
      if !InTime(sorted[i], now, days) {
        continue;
      }
      KeptIsPrefix(sorted[..i + 1], now, maxCount, days);
      assert k == i by {
        assert Keeps(sorted[..i + 1], i, now, maxCount, days);
      }
      PathsOfNext(sorted, i);
      keep := keep + {sorted[i].path};
      k := k + 1;
    }
    assert sorted[..|sorted|] == sorted;
  }

  lemma PathsOfNext(entries: seq<Entry>, i: nat)
    requires i < |entries|
    ensures Paths(entries[..i + 1]) == Paths(entries[..i]) + {entries[i].path}
  {
    assert entries[..i + 1] == entries[..i] + [entries[i]];
  }

  /** What is kept is a prefix of the newest-first order: nothing older than a dropped entry is kept. */
  lemma {:induction false} KeptIsPrefix(sorted: seq<Entry>, now: u64, maxCount: nat, days: u64)
    requires Descending(sorted)
    ensures var k := KeptCount(sorted, now, maxCount, days);
            && k <= Allowed(maxCount)
            && forall i | 0 <= i < |sorted| :: Keeps(sorted, i, now, maxCount, days) <==> i < k
  {
    if sorted != [] {
      var before := sorted[..|sorted| - 1];
      KeptIsPrefix(before, now, maxCount, days);
      var k := KeptCount(before, now, maxCount, days);
      forall i | 0 <= i < |before|
        ensures Keeps(sorted, i, now, maxCount, days) <==> i < k
      {
        assert Keeps(before, i, now, maxCount, days) <==> i < k;
      }
      if Keeps(sorted, |sorted| - 1, now, maxCount, days) && k < |before| {
        assert sorted[k].ts >= sorted[|sorted| - 1].ts;
      }
    }
  }

  /**
   Pruning keeps exactly a prefix of the newest-first order: at most the allowed number
   and at least one when its age allows, all in time, and the first dropped one is
   beyond the number or too old.
   */
  lemma PruningKeepsNewest(entries: seq<Entry>, now: u64, maxCount: nat, days: u64)
    ensures var sorted := NewestFirst(entries);
            var k := KeptCount(sorted, now, maxCount, days);
            && Descending(sorted) && multiset(sorted) == multiset(entries)
            && k <= (if maxCount == 0 then 1 else maxCount)
            && (forall i | 0 <= i < k :: days == 0 || now <= sorted[i].ts + days * 86_400)
            && (k < |sorted| ==> k == (if maxCount == 0 then 1 else maxCount)
                                 || (days > 0 && now > sorted[k].ts + days * 86_400))
  {
    var sorted := NewestFirst(entries);
    NewestFirstSorts(entries);
    KeptIsPrefix(sorted, now, maxCount, days);
    var k := KeptCount(sorted, now, maxCount, days);
    forall i | 0 <= i < k ensures days == 0 || now <= sorted[i].ts + days * 86_400 {
      assert Keeps(sorted, i, now, maxCount, days);
      InTimeByDays(sorted[i], now, days);
    }
    if k < |sorted| {
      assert !Keeps(sorted, k, now, maxCount, days);
      InTimeByDays(sorted[k], now, days);
    }
  }

  /** The saturating arithmetic of the age decides as exact arithmetic would. */
  lemma InTimeByDays(e: Entry, now: u64, days: u64)
    ensures InTime(e, now, days) <==> days == 0 || now <= e.ts + days * 86_400
  {
    assert MaxAgeSecs(days) == Saturate(days * 86_400);
  }

  /** Entries that are few enough and all in time are all kept. */
  lemma AllKept(entries: seq<Entry>, now: u64, maxCount: nat, days: u64)
    requires |entries| <= Allowed(maxCount) && forall i | 0 <= i < |entries| :: InTime(entries[i], now, days)
    ensures Kept(entries, now, maxCount, days) == NewestFirst(entries)
  {
    var sorted := NewestFirst(entries);
    NewestFirstSorts(entries);
    KeptIsPrefix(sorted, now, maxCount, days);
    assert |sorted| == |multiset(sorted)| == |multiset(entries)|;
    forall i | 0 <= i < |sorted| ensures Keeps(sorted, i, now, maxCount, days) {
      assert sorted[i] in multiset(sorted);
      assert sorted[i] in entries;
    }
    assert sorted != [] ==> Keeps(sorted, |sorted| - 1, now, maxCount, days);
  }

  /** In whatever order a second listing has the kept entries, pruning them at the same time drops nothing. */
  lemma PruningTwice(files: set<string>, entries: seq<Entry>, again: seq<Entry>, now: u64, maxCount: nat, days: u64)
    requires multiset(again) == multiset(Kept(entries, now, maxCount, days))
    ensures multiset(Kept(again, now, maxCount, days)) == multiset(again)
    ensures var left := Pruned(files, entries, now, maxCount, days);
            Pruned(left, again, now, maxCount, days) == left
  {
    var kept := Kept(entries, now, maxCount, days);
    PruningKeepsNewest(entries, now, maxCount, days);
    assert |again| == |multiset(again)| == |multiset(kept)| == |kept|;
    forall i | 0 <= i < |again| ensures InTime(again[i], now, days) {
      assert again[i] in multiset(again);
      assert again[i] in kept;
      InTimeByDays(again[i], now, days);
    }
    AllKept(again, now, maxCount, days);
    NewestFirstSorts(again);
    SamePaths(NewestFirst(again), again);
  }
}
