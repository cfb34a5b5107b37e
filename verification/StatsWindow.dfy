/** The minute buckets behind the request statistics (`src/state.rs`). */
module StatsWindow {
  import opened Unsigned

  function Max(a: u64, b: u64): u64
  {
    if a >= b then a else b
  }

  datatype Kind = Read | Write | Admin

  /** A finished request, with the minute in which it was recorded. */
  datatype Request = Request(minute: u64, kind: Kind, success: bool, elapsed: u64)

  datatype Bucket = Bucket(
    epoch: u64, requests: u64, readCount: u64, writeCount: u64, adminCount: u64, errors: u64,
    latencyTotal: u64, latencyMax: u64)

  function Empty(epoch: u64): Bucket
  {
    Bucket(epoch, 0, 0, 0, 0, 0, 0, 0)
  }

  function Apply(b: Bucket, r: Request): Bucket
  {
    Bucket(b.epoch,
           Saturate(b.requests + 1),
           if r.kind == Read then Saturate(b.readCount + 1) else b.readCount,
           if r.kind == Write then Saturate(b.writeCount + 1) else b.writeCount,
           if r.kind == Admin then Saturate(b.adminCount + 1) else b.adminCount,
           if r.success then b.errors else Saturate(b.errors + 1),
           Saturate(b.latencyTotal + r.elapsed),
           Max(b.latencyMax, r.elapsed))
  }

  /** Adding a bucket to a summary. */
  function Add(summary: Bucket, b: Bucket): Bucket
  {
    Bucket(summary.epoch,
           Saturate(summary.requests + b.requests),
           Saturate(summary.readCount + b.readCount),
           Saturate(summary.writeCount + b.writeCount),
           Saturate(summary.adminCount + b.adminCount),
           Saturate(summary.errors + b.errors),
           Saturate(summary.latencyTotal + b.latencyTotal),
           Max(summary.latencyMax, b.latencyMax))
  }

  // -------------------------------------------------- what the code computes

  function Find(buckets: seq<Bucket>, minute: u64): nat
    ensures Find(buckets, minute) <= |buckets|
  {
    if buckets == [] then 0 else if buckets[0].epoch == minute then 0 else 1 + Find(buckets[1..], minute)
  }

  function Noted(buckets: seq<Bucket>, r: Request): seq<Bucket>
  {
    var i := Find(buckets, r.minute);
    if i < |buckets| then buckets[i := Apply(buckets[i], r)] else buckets + [Apply(Empty(r.minute), r)]
  }

  function LastSixty(buckets: seq<Bucket>): seq<Bucket>
  {
    if |buckets| > 60 then LastSixty(buckets[1..]) else buckets
  }

  function NotStale(buckets: seq<Bucket>, minute: u64): seq<Bucket>
  {
    if buckets != [] && Saturate(buckets[0].epoch + 60) < minute then NotStale(buckets[1..], minute) else buckets
  }

  function Recorded(buckets: seq<Bucket>, r: Request): seq<Bucket>
  {
    NotStale(LastSixty(Noted(buckets, r)), r.minute)
  }

  /** The summary of the buckets from a minute on. */
  function Summary(buckets: seq<Bucket>, from: u64): Bucket
  {
    if buckets == [] then Empty(from)
    else
      var last := buckets[|buckets| - 1];
      var summary := Summary(buckets[..|buckets| - 1], from);
      if last.epoch >= from then Add(summary, last) else summary
  }

  function WindowStart(now: u64, minutes: u64): u64
  {
    MinusOrZero(now, MinusOrZero(minutes, 1))
  }

  class SystemRuntimeStats {
    var buckets: seq<Bucket>
    ghost var log: seq<Request>    // every finished request

    ghost predicate Valid()
      reads this
    {
      buckets == BucketsOf(log)
    }

    constructor ()
      ensures Valid() && buckets == [] && log == []
    {
      buckets, log := [], [];
    }

    method RecordBucket(r: Request)
      requires Valid()
      modifies this
      ensures Valid() && log == old(log) + [r]
      ensures buckets == Recorded(old(buckets), r)
    {
      ghost var buckets0 := buckets;
      var i := 0;
      assert buckets[0..] == buckets;
      while i < |buckets| && buckets[i].epoch != r.minute
        invariant i <= |buckets|
        invariant Find(buckets, r.minute) == i + Find(buckets[i..], r.minute)
      {
        assert buckets[i..][1..] == buckets[i + 1..];
        i := i + 1;
      }
      if i < |buckets| {
        buckets := buckets[i := Apply(buckets[i], r)];
      } else {
        buckets := buckets + [Apply(Empty(r.minute), r)];
      }
      while |buckets| > 60
        invariant log == old(log)
        invariant LastSixty(buckets) == LastSixty(Noted(buckets0, r))
        decreases |buckets|
      {
        buckets := buckets[1..];
      }
      while buckets != [] && Saturate(buckets[0].epoch + 60) < r.minute
        invariant log == old(log)
        invariant NotStale(buckets, r.minute) == Recorded(buckets0, r)
        decreases |buckets|
      {
        buckets := buckets[1..];
      }
      assert buckets == Recorded(buckets0, r);
      AfterOneMore(log, r);
      log := log + [r];
    }
  }

  method SummarizeWindow(buckets: seq<Bucket>, now: u64, minutes: u64) returns (summary: Bucket)
    ensures summary == Summary(buckets, WindowStart(now, minutes))
  {
    var from := WindowStart(now, minutes);
    summary := Empty(from);
    for i := 0 to |buckets|
      invariant summary == Summary(buckets[..i], from)
    {
      assert buckets[..i + 1][..i] == buckets[..i];
      if buckets[i].epoch >= from {
        summary := Add(summary, buckets[i]);
      }
    }
    assert buckets[..|buckets|] == buckets;
  }

  /** A window of so many minutes ends with the current minute; a window of none is that minute alone. */
  lemma WindowReaches(now: u64, minutes: u64, minute: u64)
    ensures minute >= WindowStart(now, minutes) <==> minute + (if minutes == 0 then 1 else minutes) > now
  {
  }

  // ---------------------------------------------------------- the whole log

  /** Exact totals, without any limit. */
  datatype Totals = Totals(
    requests: nat, readCount: nat, writeCount: nat, adminCount: nat, errors: nat, latencyTotal: nat, latencyMax: u64)

  /** Totals of the requests recorded from a minute on. */
  function TotalsSince(log: seq<Request>, from: u64): Totals
  {
    if log == [] then Totals(0, 0, 0, 0, 0, 0, 0)
    else
      var (t, r) := (TotalsSince(log[..|log| - 1], from), log[|log| - 1]);
      if r.minute < from then t
      else Totals(t.requests + 1,
                  t.readCount + (if r.kind == Read then 1 else 0),
                  t.writeCount + (if r.kind == Write then 1 else 0),
                  t.adminCount + (if r.kind == Admin then 1 else 0),
                  t.errors + (if r.success then 0 else 1),
                  t.latencyTotal + r.elapsed,
                  Max(t.latencyMax, r.elapsed))
  }

  /** A bucket holds these totals, each up to the largest 64-bit number. */
  predicate Holds(b: Bucket, t: Totals)
  {
    && b.requests == Saturate(t.requests) && b.readCount == Saturate(t.readCount)
    && b.writeCount == Saturate(t.writeCount)
    && b.adminCount == Saturate(t.adminCount) && b.errors == Saturate(t.errors)
    && b.latencyTotal == Saturate(t.latencyTotal) && b.latencyMax == t.latencyMax
  }

  /** The buckets after every request of the log. */
  function BucketsOf(log: seq<Request>): seq<Bucket>
  {
    if log == [] then [] else Recorded(BucketsOf(log[..|log| - 1]), log[|log| - 1])
  }

  lemma AfterOneMore(log: seq<Request>, r: Request)
    ensures BucketsOf(log + [r]) == Recorded(BucketsOf(log), r)
  {
    assert (log + [r])[..|log|] == log;
  }

  /** The clock never goes back between two recordings. */
  predicate Monotone(log: seq<Request>)
  {
    forall i, j | 0 <= i < j < |log| :: log[i].minute <= log[j].minute
  }

  predicate Sorted(buckets: seq<Bucket>)
  {
    forall i, j | 0 <= i < j < |buckets| :: buckets[i].epoch < buckets[j].epoch
  }

  /** At most sixty distinct minutes in order, the newest being the last recorded one. */
  predicate WellKept(buckets: seq<Bucket>, log: seq<Request>)
  {
    && Sorted(buckets) && |buckets| <= 60
    && (buckets == [] <==> log == [])
    && (log != [] ==> buckets[|buckets| - 1].epoch == log[|log| - 1].minute)
    && forall i | 0 <= i < |buckets| :: buckets[i].epoch + 60 >= log[|log| - 1].minute
  }

  lemma {:induction false} FindSorted(buckets: seq<Bucket>, minute: u64)
    requires Sorted(buckets) && buckets != [] && buckets[|buckets| - 1].epoch <= minute
    ensures Find(buckets, minute) == if buckets[|buckets| - 1].epoch == minute then |buckets| - 1 else |buckets|
  {
    if |buckets| > 1 {
      FindSorted(buckets[1..], minute);
    } else {
      assert buckets[1..] == [];
    }
  }

  /** Dropping the oldest bucket does not touch a window that starts after it. */
  lemma {:induction false} SummaryWithoutFront(buckets: seq<Bucket>, from: u64)
    requires buckets != [] && buckets[0].epoch < from
    ensures Summary(buckets[1..], from) == Summary(buckets, from)
  {
    if |buckets| > 1 {
      SummaryWithoutFront(buckets[..|buckets| - 1], from);
      assert buckets[1..][..|buckets| - 2] == buckets[..|buckets| - 1][1..];
    } else {
      assert buckets[1..] == [] && buckets[..0] == [];
    }
  }

  /** Noting a request in its bucket adds it to every window that reaches it. */
  lemma NotedSummary(buckets: seq<Bucket>, r: Request, from: u64)
    requires Sorted(buckets) && (buckets != [] ==> buckets[|buckets| - 1].epoch <= r.minute)
    ensures var noted := Noted(buckets, r);
            && Sorted(noted) && noted != [] && noted[|noted| - 1].epoch == r.minute
            && |buckets| <= |noted| <= |buckets| + 1
            && (forall i | 0 <= i < |noted| - 1 :: noted[i] == buckets[i])
            && Summary(noted, from)
            == if r.minute >= from then Apply(Summary(buckets, from), r) else Summary(buckets, from)
  {
    if buckets != [] {
      FindSorted(buckets, r.minute);
    }
    var n := |buckets|;
    if buckets != [] && buckets[n - 1].epoch == r.minute {
      LastApplied(buckets, r, from);
    } else {
      OneAppended(buckets, r, from);
    }
  }

  lemma LastApplied(buckets: seq<Bucket>, r: Request, from: u64)
    requires buckets != [] && buckets[|buckets| - 1].epoch == r.minute
    ensures var noted := buckets[|buckets| - 1 := Apply(buckets[|buckets| - 1], r)];
            Summary(noted, from)
              == if r.minute >= from then Apply(Summary(buckets, from), r) else Summary(buckets, from)
  {
    var (before, last) := (buckets[..|buckets| - 1], buckets[|buckets| - 1]);
    assert buckets[|buckets| - 1 := Apply(last, r)][..|buckets| - 1] == before;
    AddApplied(Summary(before, from), last, r);
  }

  lemma OneAppended(buckets: seq<Bucket>, r: Request, from: u64)
    ensures Summary(buckets + [Apply(Empty(r.minute), r)], from)
         == if r.minute >= from then Apply(Summary(buckets, from), r) else Summary(buckets, from)
  {
    assert (buckets + [Apply(Empty(r.minute), r)])[..|buckets|] == buckets;
    AddApplied(Summary(buckets, from), Empty(r.minute), r);
  }

  lemma AddApplied(summary: Bucket, b: Bucket, r: Request)
    ensures Add(summary, Apply(b, r)) == Apply(Add(summary, b), r)
    ensures Add(summary, Empty(b.epoch)) == summary
  {
  }

  /** Evictions leave every window of the last sixty minutes as it was. */
  lemma {:induction false} EvictedSummary(buckets: seq<Bucket>, minute: u64, from: u64)
    requires Sorted(buckets) && buckets != [] && buckets[|buckets| - 1].epoch == minute && from + 59 >= minute
    ensures var kept := NotStale(LastSixty(buckets), minute);
            && Sorted(kept) && kept != [] && |kept| <= 60 && kept[|kept| - 1].epoch == minute
            && kept[0].epoch + 60 >= minute
            && Summary(kept, from) == Summary(buckets, from)
    decreases |buckets|
  {
    if |buckets| > 60 {
      SpreadEpochs(buckets, 0, |buckets| - 1);
      SummaryWithoutFront(buckets, from);
      EvictedSummary(buckets[1..], minute, from);
    } else if Saturate(buckets[0].epoch + 60) < minute {
      SummaryWithoutFront(buckets, from);
      EvictedSummary(buckets[1..], minute, from);
    }
  }

  /** Distinct minutes in order are at least as far apart as their positions. */
  lemma {:induction false} SpreadEpochs(buckets: seq<Bucket>, i: nat, j: nat)
    requires Sorted(buckets) && i <= j < |buckets|
    ensures buckets[i].epoch + (j - i) <= buckets[j].epoch
    decreases j - i
  {
    if i < j {
      SpreadEpochs(buckets, i + 1, j);
    }
  }

  /** Capped totals go on being capped totals. */
  lemma HoldsApplied(b: Bucket, log: seq<Request>, r: Request, from: u64)
    requires Holds(b, TotalsSince(log, from))
    ensures Holds(if r.minute >= from then Apply(b, r) else b, TotalsSince(log + [r], from))
  {
    assert (log + [r])[..|log|] == log;
  }

  lemma {:induction false} NothingSince(log: seq<Request>, from: u64)
    requires forall i | 0 <= i < |log| :: log[i].minute < from
    ensures TotalsSince(log, from) == Totals(0, 0, 0, 0, 0, 0, 0)
  {
    if log != [] {
      NothingSince(log[..|log| - 1], from);
    }
  }

  /** Recording one more request keeps the buckets in order and up to date. */
  lemma RecordKeeps(buckets: seq<Bucket>, log: seq<Request>, r: Request, from: u64)
    requires WellKept(buckets, log) && (log != [] ==> log[|log| - 1].minute <= r.minute) && from + 59 >= r.minute
    ensures WellKept(Recorded(buckets, r), log + [r])
    ensures Summary(Recorded(buckets, r), from)
         == if r.minute >= from then Apply(Summary(buckets, from), r) else Summary(buckets, from)
  {
    NotedSummary(buckets, r, from);
    EvictedSummary(Noted(buckets, r), r.minute, from);
    var kept := Recorded(buckets, r);
    forall i | 0 <= i < |kept| ensures kept[i].epoch + 60 >= r.minute {
      assert i > 0 ==> kept[0].epoch < kept[i].epoch;
    }
  }

  /** After any log with a clock that never goes back, the buckets are well kept and agree with the log. */
  lemma {:induction false} BucketsAgree(log: seq<Request>, from: u64)
    requires Monotone(log) && (log != [] ==> from + 59 >= log[|log| - 1].minute)
    ensures WellKept(BucketsOf(log), log)
    ensures Holds(Summary(BucketsOf(log), from), TotalsSince(log, from))
  {
    if log != [] {
      var (before, r) := (log[..|log| - 1], log[|log| - 1]);
      BucketsAgree(before, from);
      var buckets := BucketsOf(before);
      RecordKeeps(buckets, before, r, from);
      assert log == before + [r];
      HoldsApplied(Summary(buckets, from), before, r, from);
    }
  }

  /**
   Every window of up to sixty minutes shows exactly the counts, latency sum and
   largest latency of the whole log of finished requests in that window, cut off at
   the largest 64-bit number; there are never more than sixty buckets.
   */
  lemma WindowIsExact(log: seq<Request>, now: u64, minutes: u64)
    requires Monotone(log) && (log != [] ==> log[|log| - 1].minute <= now) && minutes <= 60
    ensures var buckets := BucketsOf(log);
            && |buckets| <= 60 && Sorted(buckets)
            && Holds(Summary(buckets, WindowStart(now, minutes)), TotalsSince(log, WindowStart(now, minutes)))
  {
    BucketsAgree(log, WindowStart(now, minutes));
  }
}
