/** The overlay of pending documents over whole runs of the write coordinator. */
module WriteQueuePending {
  import opened Prelude
  import opened PendingKeys
  import opened WriteQueue
  import opened WriteQueueHistory

  function KeyOf(p: Put): string
  {
    PendingKey(p.db, p.id)
  }

  /** No later document was put under the same key. */
  predicate Newest(puts: seq<Put>, r: nat)
  {
    r < |puts| && forall q | r < q < |puts| :: KeyOf(puts[q]) != KeyOf(puts[r])
  }

  /** An entry of the overlay is the newest document of its key, put by a write that has not completed. */
  predicate EntryOk(s: State, key: string)
    requires key in s.pending
  {
    var r := s.pending[key];
    Newest(s.puts, r) && KeyOf(s.puts[r]) == key && s.puts[r].client !in s.cleared
  }

  /** The newest document of a key is in the overlay until its write completes. */
  predicate PutShows(s: State, r: nat)
    requires r < |s.puts|
  {
    Newest(s.puts, r) && s.puts[r].client !in s.cleared ==> KeyOf(s.puts[r]) in s.pending
  }

  /** A worker's list of revisions is exactly what was put for its write. */
  predicate RevsOk(s: State, g: nat)
    requires g < |s.gens| && s.gens[g].worker.Busy?
  {
    var (gen, c, revs) := (s.gens[g], s.gens[g].worker.item.client, s.gens[g].worker.stage.revs);
    && (forall j | 0 <= j < |revs| ::
          revs[j].revision < |s.puts| && s.puts[revs[j].revision] == Put(gen.db, revs[j].id, c))
    && (forall r | 0 <= r < |s.puts| && s.puts[r].client == c :: Revision(s.puts[r].id, r) in revs)
  }

  /** A write with documents put for it is being worked on, has completed, or was rejected by its preview. */
  predicate OwnerOk(s: State, c: nat)
  {
    && c < |s.clients| && s.clients[c].sent.Some?
    && var Slot(g, i) := s.clients[c].sent.value;
    && g < |s.gens|
    && (if i < |s.gens[g].outcomes| then c in s.cleared || s.gens[g].outcomes[i] == Rejected
        else s.gens[g].worker.Busy? && s.gens[g].worker.item.client == c)
  }

  predicate ClearedOk(s: State, c: nat)
  {
    && c < |s.clients| && s.clients[c].sent.Some?
    && var Slot(g, i) := s.clients[c].sent.value;
    && g < |s.gens| && i < |s.gens[g].outcomes| && s.gens[g].outcomes[i].Ran?
  }

  predicate OverlayOk(s: State)
  {
    && s.nextRevision == |s.puts|
    && (forall key | key in s.pending :: EntryOk(s, key))
    && (!s.forgotten ==> forall r | 0 <= r < |s.puts| :: PutShows(s, r))
    && (forall g | 0 <= g < |s.gens| && s.gens[g].worker.Busy? :: RevsOk(s, g))
    && (forall r | 0 <= r < |s.puts| :: OwnerOk(s, s.puts[r].client))
    && (forall c | c in s.cleared :: ClearedOk(s, c))
  }

  // ------------------------------------------------------------------ one step

  predicate SameOverlay(s: State, s': State)
  {
    && s'.pending == s.pending && s'.nextRevision == s.nextRevision && s'.puts == s.puts
    && s'.cleared == s.cleared && s'.forgotten == s.forgotten
  }

  /** Clients keep their slots. */
  predicate SlotsStay(s: State, s': State)
  {
    && |s.clients| <= |s'.clients|
    && forall c | 0 <= c < |s.clients| :: s.clients[c].sent.Some? ==> s'.clients[c].sent == s.clients[c].sent
  }

  /** A generation goes on with the same write and the same revisions, if any. */
  predicate SameWork(gen: Gen, gen': Gen)
  {
    && gen'.db == gen.db && gen'.outcomes == gen.outcomes && (gen'.worker.Busy? <==> gen.worker.Busy?)
    && (gen.worker.Busy? ==>
          gen'.worker.item == gen.worker.item && gen'.worker.stage.revs == gen.worker.stage.revs)
  }

  /** The generation has settled the same writes and works for the same client, if any. */
  predicate SameOwner(gen: Gen, gen': Gen)
  {
    && gen'.outcomes == gen.outcomes && (gen'.worker.Busy? <==> gen.worker.Busy?)
    && (gen.worker.Busy? ==> gen'.worker.item == gen.worker.item)
  }

  lemma OwnerStays(s: State, s': State, c: nat)
    requires SlotsStay(s, s') && |s.gens| <= |s'.gens| && s'.cleared == s.cleared
    requires forall g | 0 <= g < |s.gens| :: SameOwner(s.gens[g], s'.gens[g])
    ensures OwnerOk(s, c) ==> OwnerOk(s', c)
    ensures ClearedOk(s, c) ==> ClearedOk(s', c)
  {
    if c < |s.clients| && s.clients[c].sent.Some? && s.clients[c].sent.value.gen < |s.gens| {
      var g := s.clients[c].sent.value.gen;
      assert SameOwner(s.gens[g], s'.gens[g]);
    }
  }

  lemma OverlayUntouched(s: State, s': State)
    requires OverlayOk(s) && SameOverlay(s, s') && SlotsStay(s, s') && |s.gens| <= |s'.gens|
    requires forall g | 0 <= g < |s.gens| :: SameWork(s.gens[g], s'.gens[g])
    requires forall g | |s.gens| <= g < |s'.gens| :: !s'.gens[g].worker.Busy?
    ensures OverlayOk(s')
  {
    forall g | 0 <= g < |s.gens| ensures SameOwner(s.gens[g], s'.gens[g]) {
      assert SameWork(s.gens[g], s'.gens[g]);
    }
    forall key | key in s'.pending ensures EntryOk(s', key) {
      assert EntryOk(s, key);
    }
    forall r | 0 <= r < |s'.puts| ensures OwnerOk(s', s'.puts[r].client) {
      assert OwnerOk(s, s.puts[r].client);
      OwnerStays(s, s', s.puts[r].client);
    }
    forall c | c in s'.cleared ensures ClearedOk(s', c) {
      assert ClearedOk(s, c);
      OwnerStays(s, s', c);
    }
    if !s'.forgotten {
      forall r | 0 <= r < |s'.puts| ensures PutShows(s', r) {
        assert PutShows(s, r);
      }
    }
    forall g | 0 <= g < |s'.gens| && s'.gens[g].worker.Busy? ensures RevsOk(s', g) {
      assert SameWork(s.gens[g], s'.gens[g]) && RevsOk(s, g);
    }
  }

  lemma KeepsForClient(s: State, e: Event)
    requires OverlayOk(s) && Inv(s) && Enabled(s, e) && OfClient(e) && !e.ClearDb?
    ensures OverlayOk(Next(s, e))
  {
    if !e.Arrive? {
      assert ClientOk(s, e.client);
    }
    OverlayUntouched(s, Next(s, e));
  }

  lemma KeepsForIdleWorker(s: State, e: Event)
    requires OverlayOk(s) && Enabled(s, e)
    requires e.TimeOut? || e.Close? || e.Retire? || e.Leave? || e.Unregister?
    ensures OverlayOk(Next(s, e))
  {
    OverlayUntouched(s, Next(s, e));
  }

  lemma KeepsForBusyWorker(s: State, s': State, g: nat)
    requires OverlayOk(s) && SameOverlay(s, s') && SlotsStay(s, s') && g < |s.gens| == |s'.gens|
    requires s'.gens == s.gens[g := s'.gens[g]] && SameWork(s.gens[g], s'.gens[g])
    ensures OverlayOk(s')
  {
    forall h | 0 <= h < |s.gens| ensures SameWork(s.gens[h], s'.gens[h]) {
    }
    OverlayUntouched(s, s');
  }

  /** The client of a write still in its queue has put nothing. */
  lemma NothingPutYet(s: State, g: nat)
    requires OverlayOk(s) && Inv(s) && WorkerOf(s, g).Waiting? && s.gens[g].queue != []
    ensures var c := s.gens[g].queue[0].client;
            && c < |s.clients| && s.clients[c].sent == Some(Slot(g, |s.gens[g].outcomes|))
            && c !in s.cleared && forall r | 0 <= r < |s.puts| :: s.puts[r].client != c
  {
    var gen := s.gens[g];
    assert GenOk(s.config, gen);
    assert gen.accepted[|gen.taken|] == gen.queue[0];
    assert ItemOk(s, g, |gen.taken|);
    forall r | 0 <= r < |s.puts| ensures s.puts[r].client != gen.queue[0].client {
      assert OwnerOk(s, s.puts[r].client);
    }
    forall c | c in s.cleared ensures c != gen.queue[0].client {
      assert ClearedOk(s, c);
    }
  }

  lemma KeepsForReceive(s: State, g: nat)
    requires OverlayOk(s) && Inv(s) && WorkerOf(s, g).Waiting? && s.gens[g].queue != []
    ensures OverlayOk(ReceiveStep(s, g))
  {
    NothingPutYet(s, g);
    var (s', c) := (ReceiveStep(s, g), s.gens[g].queue[0].client);
    assert GenOk(s.config, s.gens[g]);
    Received(s.config, s.gens[g], s'.gens[g], WaiterGone(s, s.gens[g].queue[0]));
    forall d | 0 <= d < |s.clients| && d != c && s.clients[d].sent.Some? && s.clients[d].sent.value.gen == g
      ensures s.clients[d].sent.value.index != |s.gens[g].outcomes|
    {
      assert ClientOk(s, d);
    }
    SettleUnowned(s, s', g, c);
  }

  /** The preview of this client's write was rejected. */
  predicate RejectedAt(s: State, s': State, g: nat, c: nat)
    requires g < |s.gens| && g < |s'.gens|
  {
    && s'.gens[g].outcomes == s.gens[g].outcomes + [Rejected] && !s'.gens[g].worker.Busy?
    && c < |s.clients| && s.clients[c].sent == Some(Slot(g, |s.gens[g].outcomes|))
  }

  /** A step of one worker that settles at most the write of client `c` and starts at most that one. */
  predicate SettlesFor(s: State, s': State, g: nat, c: nat)
  {
    && g < |s.gens| == |s'.gens| && SameOverlay(s, s') && SlotsStay(s, s')
    && (forall h | 0 <= h < |s.gens| && h != g :: s'.gens[h] == s.gens[h])
    && s'.gens[g].db == s.gens[g].db
    && s.gens[g].outcomes <= s'.gens[g].outcomes && |s'.gens[g].outcomes| <= |s.gens[g].outcomes| + 1
    && (s.gens[g].worker.Busy? ==> s.gens[g].worker.item.client == c)
    && (s'.gens[g].worker.Busy? ==> s'.gens[g].worker.item.client == c && s'.gens[g].worker.stage.revs == [])
    && (forall d | 0 <= d < |s.clients| && d != c && s.clients[d].sent.Some? && s.clients[d].sent.value.gen == g ::
          s.clients[d].sent.value.index != |s.gens[g].outcomes|)
  }

  lemma OthersSettled(s: State, s': State, g: nat, c: nat, d: nat)
    requires SettlesFor(s, s', g, c)
    ensures d != c && OwnerOk(s, d) ==> OwnerOk(s', d)
    ensures RejectedAt(s, s', g, c) && OwnerOk(s, c) ==> OwnerOk(s', c)
    ensures ClearedOk(s, d) ==> ClearedOk(s', d)
  {
    if d < |s.clients| && s.clients[d].sent.Some? {
      var Slot(h, i) := s.clients[d].sent.value;
      assert s'.clients[d].sent == s.clients[d].sent;
      assert h == g && i < |s.gens[g].outcomes| ==> s'.gens[g].outcomes[i] == s.gens[g].outcomes[i];
      assert h == g && d != c ==> i != |s.gens[g].outcomes|;
    }
  }

  /** Such a step for a client that has put nothing or is rejected. */
  lemma SettleUnowned(s: State, s': State, g: nat, c: nat)
    requires OverlayOk(s) && SettlesFor(s, s', g, c)
    requires (forall r | 0 <= r < |s.puts| :: s.puts[r].client != c) || RejectedAt(s, s', g, c)
    ensures OverlayOk(s')
  {
    forall key | key in s'.pending ensures EntryOk(s', key) {
      assert EntryOk(s, key);
    }
    forall r | 0 <= r < |s'.puts| ensures OwnerOk(s', s'.puts[r].client) {
      assert OwnerOk(s, s.puts[r].client);
      OthersSettled(s, s', g, c, s.puts[r].client);
    }
    forall d | d in s'.cleared ensures ClearedOk(s', d) {
      assert ClearedOk(s, d);
      OthersSettled(s, s', g, c, d);
    }
    if !s'.forgotten {
      forall r | 0 <= r < |s'.puts| ensures PutShows(s', r) {
        assert PutShows(s, r);
      }
    }
    forall h | 0 <= h < |s'.gens| && s'.gens[h].worker.Busy? ensures RevsOk(s', h) {
      if h != g {
        assert RevsOk(s, h);
      }
    }
  }

  lemma OtherSlots(s: State, g: nat)
    requires Inv(s) && WorkerOf(s, g).Busy?
    ensures forall d | 0 <= d < |s.clients| && d != s.gens[g].worker.item.client
                       && s.clients[d].sent.Some? && s.clients[d].sent.value.gen == g ::
              s.clients[d].sent.value.index != |s.gens[g].outcomes|
  {
    BusyOn(s, g);
    forall d | 0 <= d < |s.clients| && d != s.gens[g].worker.item.client
               && s.clients[d].sent.Some? && s.clients[d].sent.value.gen == g
      ensures s.clients[d].sent.value.index != |s.gens[g].outcomes|
    {
      assert ClientOk(s, d);
    }
  }

  lemma KeepsForRejection(s: State, g: nat)
    requires OverlayOk(s) && Inv(s) && WorkerOf(s, g).Busy? && WorkerOf(s, g).stage.Previewing?
    ensures OverlayOk(EndPreviewStep(s, g, false))
  {
    BusyOn(s, g);
    OtherSlots(s, g);
    SettleUnowned(s, EndPreviewStep(s, g, false), g, s.gens[g].worker.item.client);
  }

  lemma KeepsForPlainFinish(s: State, g: nat)
    requires OverlayOk(s) && Inv(s) && WorkerOf(s, g).Busy? && WorkerOf(s, g).stage.Finishing?
    requires WorkerOf(s, g).item.mode != Prepared
    ensures OverlayOk(FinishStep(s, g))
  {
    BusyOn(s, g);
    OtherSlots(s, g);
    assert RevsOk(s, g);
    SettleUnowned(s, FinishStep(s, g), g, s.gens[g].worker.item.client);
  }

  /** The client of the write being worked on has not completed. */
  lemma NotClearedYet(s: State, g: nat)
    requires OverlayOk(s) && Inv(s) && WorkerOf(s, g).Busy?
    ensures s.gens[g].worker.item.client !in s.cleared
  {
    BusyOn(s, g);
    forall c | c in s.cleared ensures c != s.gens[g].worker.item.client {
      assert ClearedOk(s, c);
    }
  }

  /** Two busy workers have different clients. */
  lemma DifferentClients(s: State, g: nat, h: nat)
    requires Inv(s) && WorkerOf(s, g).Busy? && WorkerOf(s, h).Busy? && g != h
    ensures s.gens[g].worker.item.client != s.gens[h].worker.item.client
  {
    BusyOn(s, g);
    BusyOn(s, h);
  }

  lemma NewestExtended(puts: seq<Put>, p: Put, r: nat)
    requires r < |puts|
    ensures Newest(puts + [p], r) <==> Newest(puts, r) && KeyOf(p) != KeyOf(puts[r])
  {
    if Newest(puts + [p], r) {
      assert (puts + [p])[|puts|] == p;
      forall q | r < q < |puts| ensures KeyOf(puts[q]) != KeyOf(puts[r]) {
        assert (puts + [p])[q] == puts[q];
      }
    }
  }

  lemma KeepsForPut(s: State, g: nat, id: string)
    requires OverlayOk(s) && Inv(s) && WorkerOf(s, g).Busy? && WorkerOf(s, g).stage.Previewing?
    ensures OverlayOk(PutStep(s, g, id))
  {
    var s' := PutStep(s, g, id);
    BusyOn(s, g);
    NotClearedYet(s, g);
    var (gen, c) := (s.gens[g], s.gens[g].worker.item.client);
    var p := Put(gen.db, id, c);
    forall key | key in s'.pending ensures EntryOk(s', key) {
      if key != KeyOf(p) {
        assert EntryOk(s, key);
        NewestExtended(s.puts, p, s.pending[key]);
      }
    }
    forall h | 0 <= h < |s.gens| ensures SameOwner(s.gens[h], s'.gens[h]) {
    }
    forall r | 0 <= r < |s'.puts| ensures OwnerOk(s', s'.puts[r].client) {
      if r < |s.puts| {
        assert OwnerOk(s, s.puts[r].client);
        OwnerStays(s, s', s.puts[r].client);
      }
    }
    forall d | d in s'.cleared ensures ClearedOk(s', d) {
      assert ClearedOk(s, d);
      OwnerStays(s, s', d);
    }
    if !s'.forgotten {
      forall r | 0 <= r < |s'.puts| ensures PutShows(s', r) {
        if r < |s.puts| {
          assert PutShows(s, r);
          NewestExtended(s.puts, p, r);
        }
      }
    }
    forall h | 0 <= h < |s'.gens| && s'.gens[h].worker.Busy? ensures RevsOk(s', h) {
      assert RevsOk(s, h);
      if h != g {
        DifferentClients(s, g, h);
      } else {
        PutListed(s, g, id);
      }
    }
  }

  lemma PutListed(s: State, g: nat, id: string)
    requires OverlayOk(s) && WorkerOf(s, g).Busy? && WorkerOf(s, g).stage.Previewing?
    ensures RevsOk(PutStep(s, g, id), g)
  {
    var s' := PutStep(s, g, id);
    assert RevsOk(s, g);
    var (revs, revs') := (s.gens[g].worker.stage.revs, s'.gens[g].worker.stage.revs);
    forall r | 0 <= r < |s'.puts| && s'.puts[r].client == s.gens[g].worker.item.client
      ensures Revision(s'.puts[r].id, r) in revs'
    {
      assert r < |s.puts| ==> Revision(s.puts[r].id, r) in revs;
      assert revs'[|revs|] == Revision(id, |s.puts|);
    }
  }

  /** Completing a write removes what is still pending of it. */
  lemma OwnAreCleared(s: State, g: nat, key: string)
    requires OverlayOk(s) && WorkerOf(s, g).Busy? && key in s.pending
    ensures EntryOk(s, key)
    ensures s.puts[s.pending[key]].client == s.gens[g].worker.item.client ==>
              key !in ClearIfCurrent(s.pending, s.gens[g].db, s.gens[g].worker.stage.revs)
  {
    var (gen, revs, r) := (s.gens[g], s.gens[g].worker.stage.revs, s.pending[key]);
    assert EntryOk(s, key) && RevsOk(s, g);
    if s.puts[r].client == gen.worker.item.client {
      assert Revision(s.puts[r].id, r) in revs;
      var j :| 0 <= j < |revs| && revs[j] == Revision(s.puts[r].id, r);
      assert s.puts[revs[j].revision] == Put(gen.db, revs[j].id, gen.worker.item.client);
      ClearIfCurrentRemoves(s.pending, gen.db, revs);
    }
  }

  lemma KeepsForPreparedFinish(s: State, g: nat)
    requires OverlayOk(s) && Inv(s) && WorkerOf(s, g).Busy? && WorkerOf(s, g).stage.Finishing?
    requires WorkerOf(s, g).item.mode == Prepared
    ensures OverlayOk(FinishStep(s, g))
  {
    var s' := FinishStep(s, g);
    BusyOn(s, g);
    var (gen, c, revs) := (s.gens[g], s.gens[g].worker.item.client, s.gens[g].worker.stage.revs);
    assert RevsOk(s, g);
    ClearIfCurrentRemoves(s.pending, gen.db, revs);
    forall key | key in s'.pending ensures EntryOk(s', key) {
      assert EntryOk(s, key);
      OwnAreCleared(s, g, key);
    }
    if !s'.forgotten {
      forall r | 0 <= r < |s'.puts| ensures PutShows(s', r) {
        assert PutShows(s, r);
        if Newest(s.puts, r) && s.puts[r].client !in s'.cleared {
          StaysShown(s, g, r);
        }
      }
    }
    OwnersAfterFinish(s, g);
  }

  /** Completing a write leaves the newest document of every other write in place. */
  lemma StaysShown(s: State, g: nat, r: nat)
    requires OverlayOk(s) && Inv(s) && WorkerOf(s, g).Busy? && WorkerOf(s, g).stage.Finishing?
    requires r < |s.puts| && Newest(s.puts, r) && KeyOf(s.puts[r]) in s.pending
    requires s.puts[r].client != s.gens[g].worker.item.client
    ensures KeyOf(s.puts[r]) in ClearIfCurrent(s.pending, s.gens[g].db, s.gens[g].worker.stage.revs)
  {
    var (gen, revs, key) := (s.gens[g], s.gens[g].worker.stage.revs, KeyOf(s.puts[r]));
    ClearIfCurrentRemoves(s.pending, gen.db, revs);
    assert EntryOk(s, key) && RevsOk(s, g);
    assert s.pending[key] == r;
    forall j | 0 <= j < |revs| && key == PendingKey(gen.db, revs[j].id) ensures s.pending[key] != revs[j].revision {
    }
  }

  lemma OwnersAfterFinish(s: State, g: nat)
    requires OverlayOk(s) && Inv(s) && WorkerOf(s, g).Busy? && WorkerOf(s, g).stage.Finishing?
    requires WorkerOf(s, g).item.mode == Prepared
    ensures var s' := FinishStep(s, g);
            && (forall r | 0 <= r < |s'.puts| :: OwnerOk(s', s'.puts[r].client))
            && (forall c | c in s'.cleared :: ClearedOk(s', c))
            && (forall h | 0 <= h < |s'.gens| && s'.gens[h].worker.Busy? :: RevsOk(s', h))
  {
    var s' := FinishStep(s, g);
    BusyOn(s, g);
    OtherSlots(s, g);
    forall r | 0 <= r < |s'.puts| ensures OwnerOk(s', s'.puts[r].client) {
      assert OwnerOk(s, s.puts[r].client);
    }
    forall c | c in s'.cleared ensures ClearedOk(s', c) {
      assert c in s.cleared ==> ClearedOk(s, c);
    }
    forall h | 0 <= h < |s'.gens| && s'.gens[h].worker.Busy? ensures RevsOk(s', h) {
      assert RevsOk(s, h);
    }
  }

  lemma KeepsForClear(s: State, db: string)
    requires OverlayOk(s)
    ensures OverlayOk(Next(s, ClearDb(db)))
  {
    var s' := Next(s, ClearDb(db));
    forall key | key in s'.pending ensures EntryOk(s', key) {
      assert EntryOk(s, key);
    }
    forall r | 0 <= r < |s'.puts| ensures OwnerOk(s', s'.puts[r].client) {
      assert OwnerOk(s, s.puts[r].client);
    }
    forall c | c in s'.cleared ensures ClearedOk(s', c) {
      assert ClearedOk(s, c);
    }
    forall g | 0 <= g < |s'.gens| && s'.gens[g].worker.Busy? ensures RevsOk(s', g) {
      assert RevsOk(s, g);
    }
  }

  lemma KeepsForPreview(s: State, e: Event)
    requires OverlayOk(s) && Inv(s) && Enabled(s, e) && (e.PutPending? || e.EndPreview?)
    ensures OverlayOk(Next(s, e))
  {
    match e
    case PutPending(g, id) => KeepsForPut(s, g, id);
    case EndPreview(g, true) => KeepsForBusyWorker(s, EndPreviewStep(s, g, true), g);
    case EndPreview(g, false) => KeepsForRejection(s, g);
  }

  lemma KeepsForAnswer(s: State, g: nat)
    requires OverlayOk(s) && WorkerOf(s, g).Busy? && WorkerOf(s, g).stage.Previewed?
    ensures OverlayOk(AnswerStep(s, g))
  {
    KeepsForBusyWorker(s, AnswerStep(s, g), g);
  }

  lemma KeepsForApply(s: State, g: nat, ok: bool)
    requires OverlayOk(s) && WorkerOf(s, g).Busy? && WorkerOf(s, g).stage.Applying?
    ensures OverlayOk(ApplyStep(s, g, ok))
  {
    KeepsForBusyWorker(s, ApplyStep(s, g, ok), g);
  }

  lemma KeepsForFinish(s: State, g: nat)
    requires OverlayOk(s) && Inv(s) && Enabled(s, Finish(g))
    ensures OverlayOk(Next(s, Finish(g)))
  {
    if s.gens[g].worker.item.mode == Prepared {
      KeepsForPreparedFinish(s, g);
    } else {
      KeepsForPlainFinish(s, g);
    }
  }

  lemma KeepsOverlay(s: State, e: Event)
    requires OverlayOk(s) && Inv(s) && Enabled(s, e)
    ensures OverlayOk(Next(s, e))
  {
    if e.ClearDb? {
      KeepsForClear(s, e.db);
    } else if OfClient(e) {
      KeepsForClient(s, e);
    } else if e.Receive? {
      KeepsForReceive(s, e.gen);
    } else if e.PutPending? || e.EndPreview? {
      KeepsForPreview(s, e);
    } else if e.Answer? {
      KeepsForAnswer(s, e.gen);
    } else if e.Apply? {
      KeepsForApply(s, e.gen, e.ok);
    } else if e.Finish? {
      KeepsForFinish(s, e.gen);
    } else {
      KeepsForIdleWorker(s, e);
    }
  }

  lemma {:induction false} RunsKeepOverlay(config: Config, run: seq<Event>)
    requires After(config, run).Some?
    ensures OverlayOk(After(config, run).value)
  {
    if run != [] {
      RunsKeepOverlay(config, run[..|run| - 1]);
      RunsKeepInv(config, run[..|run| - 1]);
      KeepsOverlay(After(config, run[..|run| - 1]).value, run[|run| - 1]);
    }
  }

  // ---------------------------------------------------------------- over runs

  lemma OverlayElsewhereForClient(s: State, e: Event)
    requires Enabled(s, e) && OfClient(e) && !e.ClearDb?
    ensures SameOverlay(s, Next(s, e))
  {
  }

  lemma OverlayElsewhereForWorker(s: State, e: Event)
    requires Enabled(s, e) && !OfClient(e) && !e.PutPending? && !e.Finish?
    ensures SameOverlay(s, Next(s, e))
  {
  }

  /** What is pending afterwards was pending at that revision, or is new and has the next revision. */
  predicate RevisionsGrow(s: State, s': State)
  {
    && s.nextRevision <= s'.nextRevision
    && forall key | key in s'.pending ::
         || (key in s.pending && s'.pending[key] == s.pending[key])
         || s'.pending[key] == s.nextRevision < s'.nextRevision
  }

  lemma FinishGrows(s: State, g: nat)
    requires Enabled(s, Finish(g))
    ensures RevisionsGrow(s, FinishStep(s, g))
  {
    ClearIfCurrentRemoves(s.pending, s.gens[g].db, s.gens[g].worker.stage.revs);
  }

  lemma PutGrows(s: State, g: nat, id: string)
    requires Enabled(s, PutPending(g, id))
    ensures RevisionsGrow(s, PutStep(s, g, id)) && PutStep(s, g, id).nextRevision == s.nextRevision + 1
  {
  }

  /** Revisions are handed out once each, in increasing order. */
  lemma RevisionsIncrease(s: State, e: Event)
    requires OverlayOk(s) && Enabled(s, e)
    ensures forall key | key in s.pending :: s.pending[key] < s.nextRevision
    ensures RevisionsGrow(s, Next(s, e))
  {
    forall key | key in s.pending ensures s.pending[key] < s.nextRevision {
      assert EntryOk(s, key);
    }
    if e.Finish? {
      FinishGrows(s, e.gen);
    } else if e.PutPending? {
      PutGrows(s, e.gen, e.id);
    } else if OfClient(e) {
      if !e.ClearDb? {
        OverlayElsewhereForClient(s, e);
      }
    } else {
      OverlayElsewhereForWorker(s, e);
    }
  }

  lemma ReachableOverlay(config: Config, s: State)
    requires Reachable(config, s)
    ensures Inv(s) && OverlayOk(s)
  {
    var run :| After(config, run) == Some(s);
    RunsKeepInv(config, run);
    RunsKeepOverlay(config, run);
  }

  /** In every reachable state, completing a write hides no document that another write put. */
  lemma NewerDocumentsStay(config: Config, s: State, g: nat, key: string)
    requires Reachable(config, s) && WorkerOf(s, g).Busy? && WorkerOf(s, g).stage.Finishing?
    requires key in s.pending && s.pending[key] < |s.puts|
    requires s.puts[s.pending[key]].client != s.gens[g].worker.item.client
    ensures key in FinishStep(s, g).pending && FinishStep(s, g).pending[key] == s.pending[key]
  {
    ReachableOverlay(config, s);
    assert EntryOk(s, key);
    StaysShown(s, g, s.pending[key]);
    ClearIfCurrentRemoves(s.pending, s.gens[g].db, s.gens[g].worker.stage.revs);
  }

  /** What a read of a document finds in the overlay. */
  function ShownRevision(s: State, db: string, id: string): Option<nat>
  {
    if PendingKey(db, id) in s.pending then Some(s.pending[PendingKey(db, id)]) else None
  }

  /** Putting a document shows its new revision and leaves every other document as it was. */
  lemma PutShowsOnlyItself(s: State, g: nat, id: string, db: string, other: string)
    requires Enabled(s, PutPending(g, id))
    requires UNIT_SEPARATOR !in s.gens[g].db && UNIT_SEPARATOR !in db
    ensures var s' := Next(s, PutPending(g, id));
            ShownRevision(s', db, other)
              == if db == s.gens[g].db && other == id then Some(s.nextRevision) else ShownRevision(s, db, other)
  {
    KeysIdentify(s.gens[g].db, id, db, other);
  }

  /** Clearing a database hides its documents and no others. */
  lemma ClearHidesItsOwn(s: State, d: string, db: string, id: string)
    requires UNIT_SEPARATOR !in d && UNIT_SEPARATOR !in db
    ensures ShownRevision(Next(s, ClearDb(d)), db, id) == if db == d then None else ShownRevision(s, db, id)
  {
    SeparatedPrefix(d, db, UNIT_SEPARATOR, id);
  }

  /** In every reachable state, completing a write leaves every document that it did not put as it was. */
  lemma OtherDocumentsStay(config: Config, s: State, g: nat, db: string, id: string)
    requires Reachable(config, s) && Enabled(s, Finish(g))
    requires UNIT_SEPARATOR !in s.gens[g].db && UNIT_SEPARATOR !in db
    requires forall r | 0 <= r < |s.puts| :: s.puts[r] != Put(db, id, s.gens[g].worker.item.client)
    ensures ShownRevision(FinishStep(s, g), db, id) == ShownRevision(s, db, id)
  {
    ReachableOverlay(config, s);
    var revs := s.gens[g].worker.stage.revs;
    assert RevsOk(s, g);
    forall i | 0 <= i < |revs| ensures PendingKey(s.gens[g].db, revs[i].id) != PendingKey(db, id) {
      KeysIdentify(s.gens[g].db, revs[i].id, db, id);
    }
    ClearIfCurrentRemoves(s.pending, s.gens[g].db, revs);
  }

  /** The newest document of the key belongs to a write whose preview failed after putting it. */
  predicate LeftByRejection(s: State, key: string, r: nat)
  {
    && Newest(s.puts, r) && KeyOf(s.puts[r]) == key && s.puts[r].client < |s.clients|
    && StatusOf(s, s.clients[s.puts[r].client]) == Done(Rejected)
  }

  lemma PendingIsLeft(s: State, key: string)
    requires OverlayOk(s) && key in s.pending
    requires forall g | 0 <= g < |s.gens| :: !s.gens[g].worker.Busy?
    ensures LeftByRejection(s, key, s.pending[key])
  {
    assert EntryOk(s, key);
    assert OwnerOk(s, s.puts[s.pending[key]].client);
  }

  lemma LeftIsPending(s: State, key: string, r: nat)
    requires OverlayOk(s) && Inv(s) && !s.forgotten && LeftByRejection(s, key, r)
    ensures key in s.pending
  {
    var c := s.puts[r].client;
    assert PutShows(s, r) && OwnerOk(s, c);
    forall d | d in s.cleared ensures d != c {
      assert ClearedOk(s, d);
    }
  }

  /**
   After every run without a clear, once no worker holds a write, a key is still pending
   exactly when the newest document put under it was left by a rejected preview.
   */
  lemma WhatStaysPending(config: Config, s: State, key: string)
    requires Reachable(config, s) && !s.forgotten
    requires forall g | 0 <= g < |s.gens| :: !s.gens[g].worker.Busy?
    ensures key in s.pending <==> exists r :: LeftByRejection(s, key, r)
  {
    ReachableOverlay(config, s);
    if key in s.pending {
      PendingIsLeft(s, key);
    }
    if r :| LeftByRejection(s, key, r) {
      LeftIsPending(s, key, r);
    }
  }

  // ------------------------------------------------------- a document left behind

  /** The only channel and the only client, in the given condition. */
  predicate OneWrite(s: State, db: string, phase: Phase, queue: seq<Item>, worker: Worker, outcomes: seq<Outcome>)
  {
    var item := Item(0, Prepared);
    && s.clients == [Client(db, phase, Some(Slot(0, 0)), None, 0)]
    && s.gens == [Gen(db, queue, false, worker, [item], if queue == [] then [item] else [], outcomes)]
  }

  /** Nothing in the overlay, and nothing cleared. */
  predicate NothingPut(s: State)
  {
    s.pending == map[] && s.puts == [] && s.nextRevision == 0 && !s.forgotten
  }

  lemma WriteIsSent(config: Config, db: string) returns (s: State)
    requires config.enabled
    ensures Reachable(config, s) && NothingPut(s)
    ensures OneWrite(s, db, Awaiting(Prepared, 0), [Item(0, Prepared)], Waiting, [])
  {
    var s0 := Initial(config);
    assert After(config, []) == Some(s0);
    ReachesNext(config, s0, Arrive(db, Prepared));
    var s1 := Next(s0, Arrive(db, Prepared));
    ReachesNext(config, s1, GetSender(0));
    var s2 := GetSenderStep(s1, 0);
    assert s2.clients == [Client(db, Sending(Prepared, 0), None, None, 0)];
    assert s2.gens == [Gen(db, [], false, Waiting, [], [], [])];
    ReachesNext(config, s2, Send(0));
    s := SendStep(s2, 0);
    assert [] + [Item(0, Prepared)] == [Item(0, Prepared)];
  }

  lemma WriteIsTaken(config: Config, s: State, db: string) returns (s': State)
    requires Reachable(config, s) && NothingPut(s)
    requires OneWrite(s, db, Awaiting(Prepared, 0), [Item(0, Prepared)], Waiting, [])
    ensures Reachable(config, s') && NothingPut(s')
    ensures OneWrite(s', db, Awaiting(Prepared, 0), [], Busy(Item(0, Prepared), Previewing([])), [])
  {
    ReachesNext(config, s, Receive(0));
    s' := ReceiveStep(s, 0);
    assert [Item(0, Prepared)][1..] == [] && [] + [Item(0, Prepared)] == [Item(0, Prepared)];
  }

  lemma DocumentIsPut(config: Config, s: State, db: string, id: string) returns (s': State)
    requires Reachable(config, s) && NothingPut(s)
    requires OneWrite(s, db, Awaiting(Prepared, 0), [], Busy(Item(0, Prepared), Previewing([])), [])
    ensures Reachable(config, s') && !s'.forgotten && s'.puts == [Put(db, id, 0)] && PendingKey(db, id) in s'.pending
    ensures OneWrite(s', db, Awaiting(Prepared, 0), [], Busy(Item(0, Prepared), Previewing([Revision(id, 0)])), [])
  {
    ReachesNext(config, s, PutPending(0, id));
    s' := PutStep(s, 0, id);
    assert [] + [Put(db, id, 0)] == [Put(db, id, 0)] && [] + [Revision(id, 0)] == [Revision(id, 0)];
  }

  lemma PreviewFails(config: Config, s: State, db: string, revs: seq<Revision>) returns (s': State)
    requires Reachable(config, s)
    requires OneWrite(s, db, Awaiting(Prepared, 0), [], Busy(Item(0, Prepared), Previewing(revs)), [])
    ensures Reachable(config, s') && s'.forgotten == s.forgotten && s'.puts == s.puts && s'.pending == s.pending
    ensures OneWrite(s', db, Replied(Failed), [], Waiting, [Rejected])
  {
    ReachesNext(config, s, EndPreview(0, false));
    s' := EndPreviewStep(s, 0, false);
    assert [] + [Rejected] == [Rejected];
  }

  /** A run after which a document is pending although its write was answered with an error. */
  lemma RejectionLeavesDocument(config: Config, db: string, id: string) returns (s: State)
    requires config.enabled
    ensures Reachable(config, s) && !s.forgotten && forall g | 0 <= g < |s.gens| :: !s.gens[g].worker.Busy?
    ensures PendingKey(db, id) in s.pending && LeftByRejection(s, PendingKey(db, id), 0)
    ensures |s.clients| == 1 && s.clients[0].phase == Replied(Failed)
  {
    var s1 := WriteIsSent(config, db);
    var s2 := WriteIsTaken(config, s1, db);
    var s3 := DocumentIsPut(config, s2, db, id);
    s := PreviewFails(config, s3, db, [Revision(id, 0)]);
    assert StatusOf(s, s.clients[0]) == ItemStatus(s.gens[0], 0) == Done(Rejected);
  }
}
