/** When at most one worker of a database is at work. */
module WriteQueueExclusion {
  import opened Prelude
  import opened WriteQueue
  import opened WriteQueueHistory

  /** While nothing disturbs it, an open generation is the registered one and a closed one is drained. */
  predicate OnlyRegistered(s: State, g: nat)
    requires g < |s.gens|
  {
    var gen := s.gens[g];
    && (!gen.closed ==> gen.db in s.registry && s.registry[gen.db] == g)
    && (gen.closed ==> gen.queue == [] && !gen.worker.Busy?)
  }

  predicate Exclusive(s: State)
  {
    forall g | 0 <= g < |s.gens| && s.gens[g].db !in s.disturbed :: OnlyRegistered(s, g)
  }

  lemma KeepsForArrivals(s: State, e: Event)
    requires Exclusive(s) && Enabled(s, e) && OfClient(e) && !e.GetSender? && !e.Send? && !e.DropEntry? && !e.ClearDb?
    ensures Exclusive(Next(s, e))
  {
    var s' := Next(s, e);
    forall g | 0 <= g < |s'.gens| && s'.gens[g].db !in s'.disturbed ensures OnlyRegistered(s', g) {
      assert OnlyRegistered(s, g);
    }
  }

  lemma KeepsForGetSender(s: State, c: nat)
    requires Exclusive(s) && Enabled(s, GetSender(c))
    ensures Exclusive(GetSenderStep(s, c))
  {
    var s' := GetSenderStep(s, c);
    forall g | 0 <= g < |s'.gens| && s'.gens[g].db !in s'.disturbed ensures OnlyRegistered(s', g) {
      if g < |s.gens| {
        assert OnlyRegistered(s, g);
      }
    }
  }

  lemma KeepsForSend(s: State, c: nat)
    requires Exclusive(s) && Enabled(s, Send(c))
    ensures Exclusive(SendStep(s, c))
  {
    var s' := SendStep(s, c);
    forall g | 0 <= g < |s'.gens| && s'.gens[g].db !in s'.disturbed ensures OnlyRegistered(s', g) {
      assert OnlyRegistered(s, g);
    }
  }

  /** An entry that goes disturbs its database when its channel is open; otherwise no channel of it is. */
  lemma KeepsWithoutEntry(s: State, db: string)
    requires Exclusive(s) && RegistryOk(s)
    ensures Exclusive(WithoutEntry(s, db))
  {
    var s' := WithoutEntry(s, db);
    forall g | 0 <= g < |s'.gens| && s'.gens[g].db !in s'.disturbed ensures OnlyRegistered(s', g) {
      assert OnlyRegistered(s, g);
    }
  }

  lemma KeepsForDrop(s: State, e: Event)
    requires Exclusive(s) && RegistryOk(s) && Enabled(s, e) && (e.DropEntry? || e.ClearDb?)
    ensures Exclusive(Next(s, e))
  {
    match e
    case DropEntry(c) =>
      var s1 := WithPhase(s, c, Fallback(s.clients[c].phase.mode));
      forall g | 0 <= g < |s1.gens| && s1.gens[g].db !in s1.disturbed ensures OnlyRegistered(s1, g) {
        assert OnlyRegistered(s, g);
      }
      KeepsWithoutEntry(s1, s.clients[c].db);
    case ClearDb(db) =>
      KeepsWithoutEntry(s, db);
      var s' := WithoutEntry(s, db);
      forall g | 0 <= g < |s'.gens| && s'.gens[g].db !in s'.disturbed ensures OnlyRegistered(Next(s, e), g) {
        assert OnlyRegistered(s', g);
      }
  }

  lemma KeepsExclusiveForClient(s: State, e: Event)
    requires Exclusive(s) && RegistryOk(s) && Enabled(s, e) && OfClient(e)
    ensures Exclusive(Next(s, e))
  {
    if e.GetSender? {
      KeepsForGetSender(s, e.client);
    } else if e.Send? {
      KeepsForSend(s, e.client);
    } else if e.DropEntry? || e.ClearDb? {
      KeepsForDrop(s, e);
    } else {
      KeepsForArrivals(s, e);
    }
  }

  /** In every run a worker removes no registry entry but its own generation's. */
  lemma WorkersRemoveTheirOwn(s: State, e: Event, db: string)
    requires Enabled(s, e) && !OfClient(e) && db in s.registry
    ensures db in Next(s, e).registry ==> Next(s, e).registry[db] == s.registry[db]
    ensures db !in Next(s, e).registry ==> (e.Retire? || e.Unregister?) && s.registry[db] == e.gen
  {
  }

  lemma KeepsForBusy(s: State, e: Event)
    requires Exclusive(s) && Enabled(s, e) && OfBusyWorker(e)
    ensures Exclusive(Next(s, e))
  {
    var s' := Next(s, e);
    BusyOnWrite(s, e);
    forall g | 0 <= g < |s'.gens| && s'.gens[g].db !in s'.disturbed ensures OnlyRegistered(s', g) {
      assert OnlyRegistered(s, g);
    }
  }

  lemma KeepsForClose(s: State, g: nat)
    requires Exclusive(s) && Inv(s) && Enabled(s, Close(g))
    ensures Exclusive(Next(s, Close(g)))
  {
    var s' := Next(s, Close(g));
    forall h | 0 <= h < |s'.gens| && s'.gens[h].db !in s'.disturbed ensures OnlyRegistered(s', h) {
      assert OnlyRegistered(s, h);
    }
  }

  lemma KeepsForReceive(s: State, g: nat)
    requires Exclusive(s) && Enabled(s, Receive(g))
    ensures Exclusive(ReceiveStep(s, g))
  {
    var s' := ReceiveStep(s, g);
    forall h | 0 <= h < |s'.gens| && s'.gens[h].db !in s'.disturbed ensures OnlyRegistered(s', h) {
      assert OnlyRegistered(s, h);
    }
  }

  /** Retiring and leaving generations are closed, so their entries are nobody's. */
  lemma KeepsForIdle(s: State, e: Event)
    requires Exclusive(s) && Inv(s) && Enabled(s, e)
    requires e.TimeOut? || e.Retire? || e.Leave? || e.Unregister?
    ensures Exclusive(Next(s, e))
  {
    var s' := Next(s, e);
    assert GenOk(s.config, s.gens[e.gen]);
    forall g | 0 <= g < |s'.gens| && s'.gens[g].db !in s'.disturbed ensures OnlyRegistered(s', g) {
      assert OnlyRegistered(s, g);
    }
  }

  lemma KeepsExclusiveForWorker(s: State, e: Event)
    requires Exclusive(s) && Inv(s) && Enabled(s, e) && !OfClient(e)
    ensures Exclusive(Next(s, e))
  {
    if OfBusyWorker(e) {
      KeepsForBusy(s, e);
    } else if e.Close? {
      KeepsForClose(s, e.gen);
    } else if e.Receive? {
      KeepsForReceive(s, e.gen);
    } else {
      KeepsForIdle(s, e);
    }
  }

  lemma {:induction false} RunsKeepExclusive(config: Config, run: seq<Event>)
    requires After(config, run).Some?
    ensures Exclusive(After(config, run).value)
  {
    if run != [] {
      var e := run[|run| - 1];
      RunsKeepExclusive(config, run[..|run| - 1]);
      RunsKeepInv(config, run[..|run| - 1]);
      var s := After(config, run[..|run| - 1]).value;
      if OfClient(e) {
        KeepsExclusiveForClient(s, e);
      } else {
        KeepsExclusiveForWorker(s, e);
      }
    }
  }

  /**
   In every run, of a database in which no close found a write and no open channel lost
   its registry entry, at most one worker holds a write.
   */
  lemma OneWorkerAtATime(config: Config, s: State, g: nat, h: nat)
    requires Reachable(config, s) && g < |s.gens| && h < |s.gens| && s.gens[g].db == s.gens[h].db
    requires s.gens[g].worker.Busy? && s.gens[h].worker.Busy? && s.gens[g].db !in s.disturbed
    ensures g == h
  {
    var run :| After(config, run) == Some(s);
    RunsKeepExclusive(config, run);
    assert OnlyRegistered(s, g) && OnlyRegistered(s, h);
  }

  // ----------------------------------------------------- why the proviso is needed

  /** The three ways to disturb a database. */
  datatype Cause =
    | LateWrite       // a close found a write in the channel
    | LostToClient    // a sender of a closed channel removed the entry of an open one
    | LostToClear     // clearing the runtime state removed the entry of an open one

  function CausesOf(s: State, e: Event): set<Cause>
    requires Enabled(s, e)
  {
    match e
    case Close(g) => if s.gens[g].queue != [] then {LateWrite} else {}
    case DropEntry(c) => if EntryIsOpen(s, s.clients[c].db) then {LostToClient} else {}
    case ClearDb(db) => if EntryIsOpen(s, db) then {LostToClear} else {}
    case _ => {}
  }

  /** What disturbed the databases in the course of a run. */
  function Causes(config: Config, run: seq<Event>): set<Cause>
    requires After(config, run).Some?
  {
    if run == [] then {}
    else
      var before := run[..|run| - 1];
      Causes(config, before) + CausesOf(After(config, before).value, run[|run| - 1])
  }

  ghost predicate ReachableBy(config: Config, s: State, causes: set<Cause>)
  {
    exists run :: After(config, run) == Some(s) && Causes(config, run) == causes
  }

  lemma Starts(config: Config)
    ensures ReachableBy(config, Initial(config), {})
  {
    assert After(config, []) == Some(Initial(config)) && Causes(config, []) == {};
  }

  lemma Steps(config: Config, s: State, causes: set<Cause>, e: Event)
    requires ReachableBy(config, s, causes) && Enabled(s, e)
    ensures ReachableBy(config, Next(s, e), causes + CausesOf(s, e))
  {
    var run :| After(config, run) == Some(s) && Causes(config, run) == causes;
    assert (run + [e])[..|run|] == run;
    assert After(config, run + [e]) == Some(Next(s, e));
    assert Causes(config, run + [e]) == causes + CausesOf(s, e);
  }

  /** A step that disturbs nothing. */
  lemma StepsCalmly(config: Config, s: State, causes: set<Cause>, e: Event)
    requires ReachableBy(config, s, causes) && Enabled(s, e) && CausesOf(s, e) == {}
    ensures ReachableBy(config, Next(s, e), causes)
  {
    Steps(config, s, causes, e);
    assert causes + {} == causes;
  }

  /** Only these disturb a database. */
  lemma {:induction false} UndisturbedWithoutCause(config: Config, run: seq<Event>)
    requires After(config, run).Some?
    ensures Causes(config, run) == {} <==> After(config, run).value.disturbed == {}
  {
    if run != [] {
      UndisturbedWithoutCause(config, run[..|run| - 1]);
      DisturbedBy(After(config, run[..|run| - 1]).value, run[|run| - 1]);
    }
  }

  lemma DisturbedBy(s: State, e: Event)
    requires Enabled(s, e)
    ensures CausesOf(s, e) == {} ==> Next(s, e).disturbed == s.disturbed
    ensures CausesOf(s, e) != {} ==> Next(s, e).disturbed != {}
    ensures s.disturbed <= Next(s, e).disturbed
  {
    match e
    case Close(g) =>
    case DropEntry(c) =>
    case ClearDb(db) =>
    case _ => KeepsDisturbed(s, e);
  }

  lemma KeepsDisturbed(s: State, e: Event)
    requires Enabled(s, e) && !e.Close? && !e.DropEntry? && !e.ClearDb?
    ensures Next(s, e).disturbed == s.disturbed
  {
    if OfBusyWorker(e) {
      BusyOnWrite(s, e);
    }
  }

  function Fresh(db: string): Gen
  {
    Gen(db, [], false, Waiting, [], [], [])
  }

  function AtWork(db: string, c: nat): Gen
  {
    Gen(db, [], false, Busy(Item(c, Committed), Applying([])), [Item(c, Committed)], [Item(c, Committed)], [])
  }

  /** A new client finds no entry and opens a channel. */
  lemma Opens(config: Config, s: State, causes: set<Cause>, db: string) returns (s': State)
    requires ReachableBy(config, s, causes) && s.config.enabled && db !in s.registry
    ensures ReachableBy(config, s', causes) && s'.config == s.config
    ensures s'.clients == s.clients + [Client(db, Sending(Committed, |s.gens|), None, None, 0)]
    ensures s'.gens == s.gens + [Fresh(db)] && s'.registry == s.registry[db := |s.gens|]
  {
    var c := |s.clients|;
    StepsCalmly(config, s, causes, Arrive(db, Committed));
    var s1 := Next(s, Arrive(db, Committed));
    assert s1.clients == s.clients + [Client(db, Ready(Committed), None, None, 0)];
    StepsCalmly(config, s1, causes, GetSender(c));
    s' := GetSenderStep(s1, c);
  }

  function Sent(db: string, c: nat): Gen
  {
    Fresh(db).(queue := [Item(c, Committed)], accepted := [Item(c, Committed)])
  }

  lemma Sends(s: State, db: string, c: nat, g: nat)
    requires c < |s.clients| && s.clients[c].phase == Sending(Committed, g) && g < |s.gens| && s.gens[g] == Fresh(db)
    ensures Enabled(s, Send(c)) && SendStep(s, c).gens == s.gens[g := Sent(db, c)]
    ensures var s' := SendStep(s, c);
            && s'.clients == s.clients[c := s'.clients[c]] && s'.clients[c].phase == Awaiting(Committed, g)
            && s'.registry == s.registry && s'.config == s.config
  {
    assert [] + [Item(c, Committed)] == [Item(c, Committed)];
  }

  lemma Takes(s: State, db: string, c: nat, g: nat)
    requires g < |s.gens| && s.gens[g] == Sent(db, c) && c < |s.clients| && s.clients[c].phase == Awaiting(Committed, g)
    ensures Enabled(s, Receive(g)) && ReceiveStep(s, g) == WithGen(s, g, AtWork(db, c))
  {
    assert [Item(c, Committed)][1..] == [] && [] + [Item(c, Committed)] == [Item(c, Committed)];
  }

  /** Its write is sent and taken: a worker of the database is at work. */
  lemma NewWorker(config: Config, s: State, causes: set<Cause>, db: string) returns (s': State)
    requires ReachableBy(config, s, causes) && s.config.enabled && db !in s.registry
    ensures ReachableBy(config, s', causes) && s'.config == s.config && s'.registry == s.registry[db := |s.gens|]
    ensures s'.gens == s.gens + [AtWork(db, |s.clients|)]
    ensures |s'.clients| == |s.clients| + 1 && s'.clients[..|s.clients|] == s.clients
  {
    var c, g := |s.clients|, |s.gens|;
    var s1 := Opens(config, s, causes, db);
    Sends(s1, db, c, g);
    StepsCalmly(config, s1, causes, Send(c));
    var s2 := SendStep(s1, c);
    Takes(s2, db, c, g);
    StepsCalmly(config, s2, causes, Receive(g));
    s' := ReceiveStep(s2, g);
  }

  /** An idle channel is closed and its entry removed. */
  lemma RetiresIdle(config: Config, s: State, causes: set<Cause>, db: string, g: nat) returns (s': State)
    requires ReachableBy(config, s, causes) && s.config.idles && g < |s.gens| && s.gens[g] == Fresh(db)
    requires db in s.registry && s.registry[db] == g
    ensures ReachableBy(config, s', causes) && s'.config == s.config && s'.clients == s.clients
    ensures s'.gens == s.gens[g := Fresh(db).(closed := true)] && s'.registry == s.registry - {db}
  {
    StepsCalmly(config, s, causes, TimeOut(g));
    var s1 := Next(s, TimeOut(g));
    StepsCalmly(config, s1, causes, Close(g));
    var s2 := Next(s1, Close(g));
    StepsCalmly(config, s2, causes, Retire(g));
    s' := Next(s2, Retire(g));
  }

  predicate TwoBusy(s: State, db: string)
  {
    exists g, h :: 0 <= g < h < |s.gens| && s.gens[g].db == s.gens[h].db == db
                   && s.gens[g].worker.Busy? && s.gens[h].worker.Busy?
  }

  /** A worker is at work when the runtime state is cleared; the next client starts another. */
  lemma TwoAfterClear(config: Config, db: string) returns (s: State)
    requires config.enabled
    ensures ReachableBy(config, s, {LostToClear}) && TwoBusy(s, db)
  {
    Starts(config);
    var s1 := NewWorker(config, Initial(config), {}, db);
    assert EntryIsOpen(s1, db);
    Steps(config, s1, {}, ClearDb(db));
    var s2 := Next(s1, ClearDb(db));
    assert {} + CausesOf(s1, ClearDb(db)) == {LostToClear};
    s := NewWorker(config, s2, {LostToClear}, db);
    assert s.gens[0] == s1.gens[0] && s.gens[1] == AtWork(db, |s2.clients|);
  }

  /** A client holds a sender of a channel that retires, and a second channel is at work. */
  lemma SenderOfRetired(config: Config, db: string) returns (s: State)
    requires config.enabled && config.idles
    ensures ReachableBy(config, s, {}) && s.config.enabled && |s.gens| == 2 && db in s.registry && s.registry[db] == 1
    ensures s.gens[0].closed && s.gens[1].db == db && !s.gens[1].closed && s.gens[1].worker.Busy?
    ensures |s.clients| > 0 && s.clients[0] == Client(db, Sending(Committed, 0), None, None, 0)
  {
    Starts(config);
    var s1 := Opens(config, Initial(config), {}, db);
    var s2 := RetiresIdle(config, s1, {}, db, 0);
    s := NewWorker(config, s2, {}, db);
    assert s.clients[0] == s2.clients[0];
    assert s.gens[0] == s2.gens[0];
  }

  /** The client meets the closed channel and removes the entry, which by then leads to the second. */
  lemma TwoAfterDrop(config: Config, db: string) returns (s: State)
    requires config.enabled && config.idles
    ensures ReachableBy(config, s, {LostToClient}) && TwoBusy(s, db)
  {
    var s1 := SenderOfRetired(config, db);
    StepsCalmly(config, s1, {}, MeetClosed(0));
    var s2 := Next(s1, MeetClosed(0));
    assert EntryIsOpen(s2, db);
    Steps(config, s2, {}, DropEntry(0));
    var s3 := Next(s2, DropEntry(0));
    assert {} + CausesOf(s2, DropEntry(0)) == {LostToClient};
    s := NewWorker(config, s3, {LostToClient}, db);
    assert s.gens[1] == s1.gens[1] && s.gens[2] == AtWork(db, |s3.clients|);
  }

  /** The only channel, in the given condition, with one write that its client waits for. */
  predicate HoldsLate(s: State, db: string, closed: bool, worker: Worker, queue: seq<Item>, taken: seq<Item>)
  {
    && s.config.enabled && s.gens == [Gen(db, queue, closed, worker, [Item(0, Committed)], taken, [])]
    && |s.clients| == 1 && s.clients[0].phase == Awaiting(Committed, 0)
  }

  lemma LandsLate(s: State, db: string)
    requires s.config.enabled && s.gens == [Fresh(db).(worker := TimedOut)]
    requires s.clients == [Client(db, Sending(Committed, 0), None, None, 0)]
    ensures Enabled(s, Send(0)) && HoldsLate(SendStep(s, 0), db, false, TimedOut, [Item(0, Committed)], [])
  {
    assert [] + [Item(0, Committed)] == [Item(0, Committed)];
  }

  lemma ClosesNonEmpty(s: State, db: string)
    requires HoldsLate(s, db, false, TimedOut, [Item(0, Committed)], [])
    ensures Enabled(s, Close(0)) && CausesOf(s, Close(0)) == {LateWrite}
    ensures HoldsLate(Next(s, Close(0)), db, true, Retiring, [Item(0, Committed)], [])
  {
  }

  lemma RetiresNonEmpty(s: State, db: string)
    requires HoldsLate(s, db, true, Retiring, [Item(0, Committed)], []) && s.registry == map[db := 0]
    ensures Enabled(s, Retire(0)) && HoldsLate(Next(s, Retire(0)), db, true, Waiting, [Item(0, Committed)], [])
    ensures db !in Next(s, Retire(0)).registry
  {
  }

  lemma DrainsLate(s: State, db: string)
    requires HoldsLate(s, db, true, Waiting, [Item(0, Committed)], [])
    ensures Enabled(s, Receive(0))
    ensures HoldsLate(ReceiveStep(s, 0), db, true, Busy(Item(0, Committed), Applying([])), [], [Item(0, Committed)])
  {
    assert [Item(0, Committed)][1..] == [] && [] + [Item(0, Committed)] == [Item(0, Committed)];
  }

  lemma OpensAndTimesOut(config: Config, db: string) returns (s: State)
    requires config.enabled && config.idles
    ensures ReachableBy(config, s, {}) && s.config.enabled && s.registry == map[db := 0]
    ensures s.gens == [Fresh(db).(worker := TimedOut)]
    ensures s.clients == [Client(db, Sending(Committed, 0), None, None, 0)]
  {
    Starts(config);
    var s1 := Opens(config, Initial(config), {}, db);
    assert s1.gens == [Fresh(db)];
    StepsCalmly(config, s1, {}, TimeOut(0));
    s := Next(s1, TimeOut(0));
  }

  /**
   A write lands between the idle timeout and the close; while it is drained the next
   client starts another worker.
   */
  lemma TwoAfterLateWrite(config: Config, db: string) returns (s: State)
    requires config.enabled && config.idles
    ensures ReachableBy(config, s, {LateWrite}) && TwoBusy(s, db)
  {
    var s0 := OpensAndTimesOut(config, db);
    LandsLate(s0, db);
    StepsCalmly(config, s0, {}, Send(0));
    var s1 := SendStep(s0, 0);
    ClosesNonEmpty(s1, db);
    Steps(config, s1, {}, Close(0));
    assert {} + {LateWrite} == {LateWrite};
    var s2 := Next(s1, Close(0));
    s := TwoWhileDraining(config, s2, db);
  }

  lemma DrainsAfterClose(config: Config, s: State, db: string) returns (s': State)
    requires ReachableBy(config, s, {LateWrite}) && s.registry == map[db := 0]
    requires HoldsLate(s, db, true, Retiring, [Item(0, Committed)], [])
    ensures ReachableBy(config, s', {LateWrite}) && db !in s'.registry
    ensures HoldsLate(s', db, true, Busy(Item(0, Committed), Applying([])), [], [Item(0, Committed)])
  {
    RetiresNonEmpty(s, db);
    StepsCalmly(config, s, {LateWrite}, Retire(0));
    var s1 := Next(s, Retire(0));
    DrainsLate(s1, db);
    StepsCalmly(config, s1, {LateWrite}, Receive(0));
    s' := ReceiveStep(s1, 0);
  }

  lemma TwoWhileDraining(config: Config, s: State, db: string) returns (s': State)
    requires ReachableBy(config, s, {LateWrite}) && s.registry == map[db := 0]
    requires HoldsLate(s, db, true, Retiring, [Item(0, Committed)], [])
    ensures ReachableBy(config, s', {LateWrite}) && TwoBusy(s', db)
  {
    var s1 := DrainsAfterClose(config, s, db);
    s' := NewWorker(config, s1, {LateWrite}, db);
    assert s'.gens[0] == s1.gens[0] && s'.gens[1] == AtWork(db, |s1.clients|);
  }

  /** Each of the three causes, alone, lets two workers of one database be at work at once. */
  lemma TwoWorkersAtOnce(config: Config, db: string, cause: Cause) returns (s: State)
    requires config.enabled && config.idles
    ensures ReachableBy(config, s, {cause}) && TwoBusy(s, db)
  {
    match cause
    case LateWrite => s := TwoAfterLateWrite(config, db);
    case LostToClient => s := TwoAfterDrop(config, db);
    case LostToClear => s := TwoAfterClear(config, db);
  }
}
