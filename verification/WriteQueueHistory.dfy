/** What every run of the write coordinator keeps: no write is lost, repeated or wrongly acknowledged. */
module WriteQueueHistory {
  import opened Prelude
  import opened WriteQueue

  /** A generation's own books: its channel is first in, first out, and it stops only closed and drained. */
  predicate GenOk(config: Config, gen: Gen)
  {
    && gen.accepted == gen.taken + gen.queue
    && |gen.taken| == |gen.outcomes| + (if gen.worker.Busy? then 1 else 0)
    && |gen.queue| <= Capacity(config)
    && (gen.worker.TimedOut? ==> !gen.closed)
    && (gen.worker.Retiring? ==> gen.closed)
    && (gen.worker.Leaving? || gen.worker.Stopped? ==> gen.closed && gen.queue == [])
    && (gen.worker.Busy? ==>
          && gen.worker.item == gen.taken[|gen.taken| - 1]
          && (gen.worker.stage.Previewing? || gen.worker.stage.Previewed? ==> gen.worker.item.mode == Prepared)
          && (gen.worker.item.mode != Prepared ==> gen.worker.stage.revs == []))
  }

  /** An accepted item is the one write of an existing client, which remembers the place. */
  predicate ItemOk(s: State, g: nat, i: nat)
    requires g < |s.gens| && i < |s.gens[g].accepted|
  {
    var item := s.gens[g].accepted[i];
    && item.client < |s.clients|
    && s.clients[item.client].sent == Some(Slot(g, i))
    && s.clients[item.client].db == s.gens[g].db
  }

  /** The worker of the generation is finishing this client's write. */
  predicate FinishingFor(gen: Gen, c: nat)
  {
    gen.worker.Busy? && gen.worker.stage.Finishing? && gen.worker.item.client == c
  }

  /** A client whose write a channel has taken. */
  predicate SentOk(s: State, c: nat, slot: Slot)
    requires c < |s.clients|
  {
    && slot.gen < |s.gens| && slot.index < |s.gens[slot.gen].accepted|
    && s.gens[slot.gen].accepted[slot.index].client == c
    && s.clients[c].inlineRun.None?
  }

  /** How the write in this place is acknowledged. */
  function AcceptedMode(s: State, slot: Slot): Mode
    requires slot.gen < |s.gens| && slot.index < |s.gens[slot.gen].accepted|
  {
    s.gens[slot.gen].accepted[slot.index].mode
  }

  predicate PhaseOk(s: State, c: nat)
    requires c < |s.clients| && (s.clients[c].sent.Some? ==> SentOk(s, c, s.clients[c].sent.value))
  {
    var client := s.clients[c];
    var status := StatusOf(s, client);
    match client.phase
    case Ready(_) => status == Held && client.sent.None?
    case Refused(_) => status == Held && client.sent.None?
    case Inline => status == Held && client.sent.None?
    case Sending(_, g) => status == Held && client.sent.None? && g < |s.gens| && s.gens[g].db == client.db
    case Awaiting(mode, g) =>
      && client.sent.Some? && client.sent.value.gen == g
      && s.gens[g].accepted[client.sent.value.index].mode == mode != Accepted
      && (status == Working ==> mode == Committed || (s.gens[g].worker.Busy? && !s.gens[g].worker.stage.Applying?))
      && (status.Done? ==> mode == Committed && FinishingFor(s.gens[g], c))
    case Replied(Acknowledged(true)) =>
      status == Done(Ran(true)) && (client.sent.Some? ==> AcceptedMode(s, client.sent.value) == Committed)
    case Replied(Acknowledged(false)) =>
      && client.sent.Some?
      && var (g, mode) := (client.sent.value.gen, AcceptedMode(s, client.sent.value));
      && mode != Committed
      && (status == Queued ==> mode == Accepted)
      && (status == Working ==> mode == Accepted || (s.gens[g].worker.Busy? && s.gens[g].worker.stage.Applying?))
      && (status.Done? ==> status.outcome.Ran?)
    case Replied(Failed) => status == Done(Ran(false)) || status == Done(Rejected)
    case Gone => true
  }

  predicate ClientOk(s: State, c: nat)
    requires c < |s.clients|
  {
    var client := s.clients[c];
    && (client.sent.Some? ==> SentOk(s, c, client.sent.value))
    && client.applied == (if StatusOf(s, client).Done? && StatusOf(s, client).outcome.Ran? then 1 else 0)
    && (StatusOf(s, client) == Done(Skipped) ==> client.phase == Gone)
    && PhaseOk(s, c)
  }

  predicate Inv(s: State)
  {
    && (forall g | 0 <= g < |s.gens| :: GenOk(s.config, s.gens[g]))
    && (forall g, i | 0 <= g < |s.gens| && 0 <= i < |s.gens[g].accepted| :: ItemOk(s, g, i))
    && (forall c | 0 <= c < |s.clients| :: ClientOk(s, c))
  }

  // ------------------------------------------------------------- kinds of step

  /** A step that only moves one client on. */
  lemma ClientStep(s: State, s': State, c: nat)
    requires Inv(s) && c < |s.clients| && |s'.clients| == |s.clients|
    requires s'.gens == s.gens && s'.config == s.config
    requires forall d | 0 <= d < |s.clients| && d != c :: s'.clients[d] == s.clients[d]
    requires s'.clients[c].sent == s.clients[c].sent && s'.clients[c].db == s.clients[c].db && ClientOk(s', c)
    ensures Inv(s')
  {
    forall g, i | 0 <= g < |s'.gens| && 0 <= i < |s'.gens[g].accepted| ensures ItemOk(s', g, i) {
      assert ItemOk(s, g, i);
    }
    forall d | 0 <= d < |s'.clients| ensures ClientOk(s', d) {
      assert ClientOk(s, d);
    }
  }

  /** Two states of a generation that no client can tell apart. */
  predicate SameToClients(gen: Gen, gen': Gen)
  {
    && gen'.db == gen.db && gen'.queue == gen.queue
    && gen'.accepted == gen.accepted && gen'.taken == gen.taken && gen'.outcomes == gen.outcomes
    && (gen'.worker.Busy? <==> gen.worker.Busy?)
    && (gen.worker.Busy? ==>
          && gen'.worker.item == gen.worker.item
          && !gen.worker.stage.Finishing? && !gen'.worker.stage.Finishing?
          && (gen.worker.stage.Applying? <==> gen'.worker.stage.Applying?))
  }

  lemma WorkerStep(s: State, s': State, g: nat)
    requires Inv(s) && g < |s.gens| && s'.clients == s.clients && s'.config == s.config
    requires |s'.gens| == |s.gens| && s'.gens == s.gens[g := s'.gens[g]]
    requires SameToClients(s.gens[g], s'.gens[g]) && GenOk(s.config, s'.gens[g])
    ensures Inv(s')
  {
    forall h, i | 0 <= h < |s'.gens| && 0 <= i < |s'.gens[h].accepted| ensures ItemOk(s', h, i) {
      assert ItemOk(s, h, i);
    }
    forall c | 0 <= c < |s'.clients| ensures ClientOk(s', c) {
      assert ClientOk(s, c);
    }
  }

  // ------------------------------------------------------------------ one step

  lemma KeepsArrive(s: State, db: string, mode: Mode)
    requires Inv(s)
    ensures Inv(Next(s, Arrive(db, mode)))
  {
    var s' := Next(s, Arrive(db, mode));
    forall g, i | 0 <= g < |s'.gens| && 0 <= i < |s'.gens[g].accepted| ensures ItemOk(s', g, i) {
      assert ItemOk(s, g, i);
    }
    forall c | 0 <= c < |s'.clients| ensures ClientOk(s', c) {
      if c < |s.clients| {
        assert ClientOk(s, c);
      }
    }
  }

  lemma KeepsGetSender(s: State, c: nat)
    requires Inv(s) && RegistryOk(s) && Enabled(s, GetSender(c))
    ensures Inv(Next(s, GetSender(c)))
  {
    assert ClientOk(s, c);
    var s' := Next(s, GetSender(c));
    if s.clients[c].db in s.registry {
      ClientStep(s, s', c);
    } else {
      var grown := s.(gens := s'.gens);
      GenArrives(s, grown);
      assert ClientOk(grown, c);
      ClientStep(grown, s', c);
    }
  }

  lemma GenArrives(s: State, s': State)
    requires Inv(s) && s' == s.(gens := s'.gens)
    requires |s'.gens| == |s.gens| + 1 && s'.gens[..|s.gens|] == s.gens
    requires s'.gens[|s.gens|] == Gen(s'.gens[|s.gens|].db, [], false, Waiting, [], [], [])
    ensures Inv(s')
  {
    assert forall g | 0 <= g < |s.gens| :: s'.gens[g] == s.gens[g];
    forall g, i | 0 <= g < |s'.gens| && 0 <= i < |s'.gens[g].accepted| ensures ItemOk(s', g, i) {
      assert ItemOk(s, g, i);
    }
    forall c | 0 <= c < |s'.clients| ensures ClientOk(s', c) {
      assert ClientOk(s, c);
    }
  }

  /** Entries of the registry lead to generations of their database. */
  predicate RegistryOk(s: State)
  {
    forall db | db in s.registry :: s.registry[db] < |s.gens| && s.gens[s.registry[db]].db == db
  }

  /** A channel takes one more write at its end. */
  lemma Accepts(config: Config, gen: Gen, gen': Gen, item: Item)
    requires GenOk(config, gen) && !gen.closed && |gen.queue| < Capacity(config)
    requires gen' == gen.(queue := gen.queue + [item], accepted := gen.accepted + [item])
    ensures GenOk(config, gen') && ItemStatus(gen', |gen.accepted|) == Queued
    ensures forall i | 0 <= i < |gen.accepted| ::
              gen'.accepted[i] == gen.accepted[i] && ItemStatus(gen', i) == ItemStatus(gen, i)
  {
    assert gen'.accepted == gen'.taken + gen'.queue;
  }

  lemma KeepsSend(s: State, c: nat)
    requires Inv(s) && HoldsSender(s, c)
    requires !ChannelOf(s, c).closed && |ChannelOf(s, c).queue| < Capacity(s.config)
    ensures Inv(SendStep(s, c))
  {
    var s' := SendStep(s, c);
    var g := s.clients[c].phase.gen;
    var gen := s.gens[g];
    assert ClientOk(s, c) && GenOk(s.config, gen);
    Accepts(s.config, gen, s'.gens[g], Item(c, s.clients[c].phase.mode));
    forall h, i | 0 <= h < |s'.gens| && 0 <= i < |s'.gens[h].accepted| ensures ItemOk(s', h, i) {
      if h != g || i < |gen.accepted| {
        assert ItemOk(s, h, i);
      }
    }
    forall d | 0 <= d < |s'.clients| ensures ClientOk(s', d) {
      assert ClientOk(s, d);
      if d != c {
        assert StatusOf(s', s'.clients[d]) == StatusOf(s, s.clients[d]);
      }
    }
  }

  /** At most the k-th accepted write is between the queue and its outcome. */
  predicate AtWrite(gen: Gen, k: nat)
  {
    k <= |gen.outcomes| <= |gen.taken| <= k + 1
  }

  /** A step of one worker on its k-th write, with that write's client. */
  lemma WriteStep(s: State, s': State, g: nat, k: nat, c: nat)
    requires Inv(s) && g < |s.gens| && k < |s.gens[g].accepted| && s.gens[g].accepted[k].client == c < |s.clients|
    requires s'.config == s.config && |s'.clients| == |s.clients| && |s'.gens| == |s.gens|
    requires forall d | 0 <= d < |s.clients| && d != c :: s'.clients[d] == s.clients[d]
    requires s'.clients[c].sent == s.clients[c].sent && s'.clients[c].db == s.clients[c].db
    requires forall h | 0 <= h < |s.gens| && h != g :: s'.gens[h] == s.gens[h]
    requires s'.gens[g].accepted == s.gens[g].accepted && s'.gens[g].db == s.gens[g].db
    requires AtWrite(s.gens[g], k) && AtWrite(s'.gens[g], k) && s'.gens[g].outcomes[..k] == s.gens[g].outcomes[..k]
    requires s.gens[g].worker.Busy? ==> s.gens[g].worker.item.client == c
    requires GenOk(s.config, s'.gens[g]) && ClientOk(s', c)
    ensures Inv(s')
  {
    forall h, i | 0 <= h < |s'.gens| && 0 <= i < |s'.gens[h].accepted| ensures ItemOk(s', h, i) {
      assert ItemOk(s, h, i);
    }
    forall d | 0 <= d < |s'.clients| ensures ClientOk(s', d) {
      if d != c {
        assert ClientOk(s, d);
        OtherClient(s, s', g, k, c, d);
      }
    }
  }

  lemma OtherClient(s: State, s': State, g: nat, k: nat, c: nat, d: nat)
    requires g < |s.gens| == |s'.gens| && k < |s.gens[g].accepted| && s.gens[g].accepted[k].client == c
    requires d < |s.clients| == |s'.clients| && d != c && ClientOk(s, d) && s'.clients[d] == s.clients[d]
    requires forall h | 0 <= h < |s.gens| && h != g :: s'.gens[h] == s.gens[h]
    requires s'.gens[g].accepted == s.gens[g].accepted && s'.gens[g].db == s.gens[g].db
    requires AtWrite(s.gens[g], k) && AtWrite(s'.gens[g], k) && s'.gens[g].outcomes[..k] == s.gens[g].outcomes[..k]
    requires s.gens[g].worker.Busy? ==> s.gens[g].worker.item.client == c
    ensures ClientOk(s', d)
  {
    var client := s.clients[d];
    if client.sent.Some? && client.sent.value.gen == g {
      var i := client.sent.value.index;
      assert i != k;
      if i < k {
        assert s.gens[g].outcomes[i] == s.gens[g].outcomes[..k][i];
        assert s'.gens[g].outcomes[i] == s'.gens[g].outcomes[..k][i];
      }
      assert ItemStatus(s'.gens[g], i) == ItemStatus(s.gens[g], i);
    }
    assert StatusOf(s', client) == StatusOf(s, client);
  }

  lemma KeepsReceive(s: State, g: nat)
    requires Inv(s) && Enabled(s, Receive(g))
    ensures Inv(Next(s, Receive(g)))
  {
    var s' := Next(s, Receive(g));
    var gen := s.gens[g];
    var (k, item) := (|gen.taken|, gen.queue[0]);
    assert GenOk(s.config, gen) && gen.accepted[k] == item;
    assert ItemOk(s, g, k) && ClientOk(s, item.client);
    Received(s.config, gen, s'.gens[g], WaiterGone(s, item));
    assert ClientOk(s', item.client);
    WriteStep(s, s', g, k, item.client);
  }

  /** Taking the head of the queue moves it from the queue to the taken writes. */
  lemma Received(config: Config, gen: Gen, gen': Gen, skipped: bool)
    requires GenOk(config, gen) && gen.worker.Waiting? && gen.queue != []
    requires gen' == Taken(gen, skipped)
    ensures GenOk(config, gen') && AtWrite(gen', |gen.taken|) && AtWrite(gen, |gen.taken|)
    ensures gen'.accepted == gen.accepted && gen'.db == gen.db
    ensures gen'.outcomes[..|gen.taken|] == gen.outcomes[..|gen.taken|]
    ensures ItemStatus(gen, |gen.taken|) == Queued
    ensures ItemStatus(gen', |gen.taken|) == if skipped then Done(Skipped) else Working
  {
    assert gen'.taken == gen.taken + [gen.queue[0]];
    assert gen'.taken + gen'.queue == gen.taken + gen.queue;
  }

  /** The write a busy worker holds is the last one it took. */
  lemma BusyOn(s: State, g: nat)
    requires Inv(s) && g < |s.gens| && s.gens[g].worker.Busy?
    ensures var gen := s.gens[g];
            var k := |gen.taken| - 1;
            && 0 <= k < |gen.accepted| && gen.accepted[k] == gen.worker.item && AtWrite(gen, k) && |gen.outcomes| == k
            && GenOk(s.config, gen) && ItemOk(s, g, k)
            && gen.worker.item.client < |s.clients| && ClientOk(s, gen.worker.item.client)
  {
    var gen := s.gens[g];
    assert GenOk(s.config, gen);
    var k := |gen.taken| - 1;
    assert gen.accepted[k] == gen.taken[k];
    assert ItemOk(s, g, k);
    assert ClientOk(s, gen.worker.item.client);
  }

  /**
   Until its preview ends, the client of a prepared write waits or is gone; once a
   write has run, only the client of a committed one still waits.
   */
  lemma WhoWaits(s: State, g: nat)
    requires Inv(s) && WorkerOf(s, g).Busy?
    ensures s.gens[g].worker.item.client < |s.clients|
    ensures var (worker, phase) := (s.gens[g].worker, s.clients[s.gens[g].worker.item.client].phase);
            && (worker.stage.Previewing? || worker.stage.Previewed? ==> phase.Awaiting? || phase.Gone?)
            && (worker.stage.Finishing? && phase.Awaiting? ==> worker.item.mode == Committed)
  {
    BusyOn(s, g);
  }

  lemma KeepsRejection(s: State, g: nat)
    requires Inv(s) && WorkerOf(s, g).Busy? && WorkerOf(s, g).stage.Previewing?
    ensures Inv(EndPreviewStep(s, g, false))
  {
    var s' := EndPreviewStep(s, g, false);
    var gen := s.gens[g];
    BusyOn(s, g);
    Settled(s.config, gen, Rejected);
    var (k, c) := (|gen.taken| - 1, gen.worker.item.client);
    assert StatusOf(s, s.clients[c]) == Working && StatusOf(s', s'.clients[c]) == Done(Rejected);
    WhoWaits(s, g);
    assert ClientOk(s', c);
    WriteStep(s, s', g, k, c);
  }

  lemma KeepsAnswer(s: State, g: nat)
    requires Inv(s) && WorkerOf(s, g).Busy? && WorkerOf(s, g).stage.Previewed?
    ensures Inv(AnswerStep(s, g))
  {
    var s' := AnswerStep(s, g);
    var gen := s.gens[g];
    BusyOn(s, g);
    var (k, c) := (|gen.taken| - 1, gen.worker.item.client);
    assert StatusOf(s, s.clients[c]) == Working == StatusOf(s', s'.clients[c]);
    if s.clients[c].phase.Awaiting? {
      assert s'.clients[c].phase == Replied(Acknowledged(false));
    } else {
      WhoWaits(s, g);
    }
    assert ClientOk(s', c);
    WriteStep(s, s', g, k, c);
  }

  lemma KeepsApply(s: State, g: nat, ok: bool)
    requires Inv(s) && WorkerOf(s, g).Busy? && WorkerOf(s, g).stage.Applying?
    ensures Inv(ApplyStep(s, g, ok))
  {
    var s' := ApplyStep(s, g, ok);
    var gen := s.gens[g];
    BusyOn(s, g);
    WriteStep(s, s', g, |gen.taken| - 1, gen.worker.item.client);
  }

  /** Settling a write appends its outcome and frees the worker. */
  lemma Settled(config: Config, gen: Gen, outcome: Outcome)
    requires GenOk(config, gen) && gen.worker.Busy?
    ensures var (gen', k) := (Settle(gen, outcome), |gen.taken| - 1);
            && GenOk(config, gen') && AtWrite(gen', k) && gen'.outcomes[..k] == gen.outcomes[..k]
            && ItemStatus(gen', k) == Done(outcome)
  {
  }

  /** A client with a settled write that nobody answers stays as it is. */
  lemma Unanswered(s: State, s': State, c: nat)
    requires c < |s.clients| && c < |s'.clients| && ClientOk(s, c) && s'.clients[c] == s.clients[c]
    requires s.clients[c].sent.Some? && SentOk(s', c, s.clients[c].sent.value) && !s.clients[c].phase.Awaiting?
    requires StatusOf(s, s.clients[c]).Done? && StatusOf(s', s.clients[c]) == StatusOf(s, s.clients[c])
    requires AcceptedMode(s', s.clients[c].sent.value) == AcceptedMode(s, s.clients[c].sent.value)
    ensures ClientOk(s', c)
  {
  }

  lemma FinishedClient(s: State, g: nat)
    requires Inv(s) && WorkerOf(s, g).Busy? && WorkerOf(s, g).stage.Finishing?
    ensures var c := s.gens[g].worker.item.client;
            c < |s.clients| == |FinishStep(s, g).clients| && ClientOk(FinishStep(s, g), c)
  {
    var s' := FinishStep(s, g);
    var gen := s.gens[g];
    BusyOn(s, g);
    WhoWaits(s, g);
    Settled(s.config, gen, Ran(gen.worker.stage.ok));
    var c := gen.worker.item.client;
    assert StatusOf(s, s.clients[c]) == Done(Ran(gen.worker.stage.ok)) == StatusOf(s', s'.clients[c]);
    if s.clients[c].phase.Awaiting? {
      assert s'.clients[c].phase == Replied(if gen.worker.stage.ok then Acknowledged(true) else Failed);
    } else {
      Unanswered(s, s', c);
    }
  }

  lemma KeepsFinish(s: State, g: nat)
    requires Inv(s) && WorkerOf(s, g).Busy? && WorkerOf(s, g).stage.Finishing?
    ensures Inv(FinishStep(s, g))
  {
    var s' := FinishStep(s, g);
    var gen := s.gens[g];
    BusyOn(s, g);
    FinishedClient(s, g);
    Settled(s.config, gen, Ran(gen.worker.stage.ok));
    assert s'.gens == s.gens[g := Settle(gen, Ran(gen.worker.stage.ok))] && s'.config == s.config;
    assert s'.clients[gen.worker.item.client].sent == s.clients[gen.worker.item.client].sent;
    WriteStep(s, s', g, |gen.taken| - 1, gen.worker.item.client);
  }

  /** A worker step that neither takes nor settles a write. */
  lemma KeepsWorker(s: State, e: Event)
    requires Inv(s) && Enabled(s, e)
    requires || e.TimeOut? || e.Close? || e.Retire? || e.PutPending?
             || (e.EndPreview? && e.ok) || e.Leave? || e.Unregister?
    ensures Inv(Next(s, e))
  {
    assert GenOk(s.config, s.gens[e.gen]);
    WorkerStep(s, Next(s, e), e.gen);
  }

  /** A step that only moves one client on. */
  lemma KeepsClient(s: State, e: Event)
    requires Inv(s) && Enabled(s, e)
    requires e.Bypass? || e.FindFull? || e.MeetClosed? || e.DropEntry? || e.RunInline? || e.Cancel?
    ensures Inv(Next(s, e))
  {
    assert ClientOk(s, e.client);
    ClientStep(s, Next(s, e), e.client);
  }

  lemma KeepsInv(s: State, e: Event)
    requires Inv(s) && RegistryOk(s) && Enabled(s, e)
    ensures Inv(Next(s, e))
  {
    match e
    case Arrive(db, mode) => KeepsArrive(s, db, mode);
    case GetSender(c) => KeepsGetSender(s, c);
    case Send(c) => KeepsSend(s, c);
    case Receive(g) => KeepsReceive(s, g);
    case EndPreview(g, ok) =>
      if ok {
        KeepsWorker(s, e);
      } else {
        KeepsRejection(s, g);
      }
    case Answer(g) => KeepsAnswer(s, g);
    case Apply(g, ok) => KeepsApply(s, g, ok);
    case Finish(g) => KeepsFinish(s, g);
    case ClearDb(db) => KeepsElsewhere(s, Next(s, e));
    case Bypass(_) => KeepsClient(s, e);
    case FindFull(_) => KeepsClient(s, e);
    case MeetClosed(_) => KeepsClient(s, e);
    case DropEntry(_) => KeepsClient(s, e);
    case RunInline(_, _) => KeepsClient(s, e);
    case Cancel(_) => KeepsClient(s, e);
    case TimeOut(_) => KeepsWorker(s, e);
    case Close(_) => KeepsWorker(s, e);
    case Retire(_) => KeepsWorker(s, e);
    case PutPending(_, _) => KeepsWorker(s, e);
    case Leave(_) => KeepsWorker(s, e);
    case Unregister(_) => KeepsWorker(s, e);
  }

  lemma KeepsElsewhere(s: State, s': State)
    requires Inv(s) && s'.config == s.config && s'.gens == s.gens && s'.clients == s.clients
    ensures Inv(s')
  {
    forall g, i | 0 <= g < |s'.gens| && 0 <= i < |s'.gens[g].accepted| ensures ItemOk(s', g, i) {
      assert ItemOk(s, g, i);
    }
    forall c | 0 <= c < |s'.clients| ensures ClientOk(s', c) {
      assert ClientOk(s, c);
    }
  }

  predicate OfClient(e: Event)
  {
    || e.Arrive? || e.Bypass? || e.GetSender? || e.Send? || e.FindFull? || e.MeetClosed? || e.DropEntry?
    || e.RunInline? || e.Cancel? || e.ClearDb?
  }

  lemma GenStaysForClient(s: State, e: Event, g: nat)
    requires Enabled(s, e) && g < |s.gens| && OfClient(e)
    ensures g < |Next(s, e).gens| && Next(s, e).gens[g].db == s.gens[g].db
  {
  }

  lemma GenStaysForWorker(s: State, e: Event, g: nat)
    requires Enabled(s, e) && g < |s.gens| && !OfClient(e)
    ensures g < |Next(s, e).gens| && Next(s, e).gens[g].db == s.gens[g].db
  {
    if OfBusyWorker(e) {
      BusyOnWrite(s, e);
    } else {
      assert Next(s, e).gens == s.gens[e.gen := Next(s, e).gens[e.gen]];
    }
  }

  /** A generation is never forgotten and never changes its database. */
  lemma GenStays(s: State, e: Event, g: nat)
    requires Enabled(s, e) && g < |s.gens|
    ensures g < |Next(s, e).gens| && Next(s, e).gens[g].db == s.gens[g].db
  {
    if OfClient(e) {
      GenStaysForClient(s, e, g);
    } else {
      GenStaysForWorker(s, e, g);
    }
  }

  /** A registry entry stays as it is, or leads to the generation that was just started. */
  lemma RegistryEntry(s: State, e: Event, db: string)
    requires Enabled(s, e) && db in Next(s, e).registry
    ensures || (db in s.registry && Next(s, e).registry[db] == s.registry[db])
            || (e.GetSender? && Next(s, e).registry[db] == |s.gens| < |Next(s, e).gens|
                && Next(s, e).gens[|s.gens|].db == db)
  {
    if OfBusyWorker(e) {
      BusyOnWrite(s, e);
    }
  }

  lemma KeepsRegistry(s: State, e: Event)
    requires RegistryOk(s) && Enabled(s, e)
    ensures RegistryOk(Next(s, e))
  {
    var s' := Next(s, e);
    forall db | db in s'.registry ensures s'.registry[db] < |s'.gens| && s'.gens[s'.registry[db]].db == db {
      RegistryEntry(s, e, db);
      if db in s.registry && s'.registry[db] == s.registry[db] {
        GenStays(s, e, s.registry[db]);
      }
    }
  }

  /** Every state of every run is a good state. */
  lemma {:induction false} RunsKeepInv(config: Config, run: seq<Event>)
    requires After(config, run).Some?
    ensures Inv(After(config, run).value) && RegistryOk(After(config, run).value)
  {
    if run != [] {
      var before := run[..|run| - 1];
      RunsKeepInv(config, before);
      var s := After(config, before).value;
      KeepsInv(s, run[|run| - 1]);
      KeepsRegistry(s, run[|run| - 1]);
    }
  }

  // ------------------------------------------------------- every reachable state

  lemma ReachableIsGood(config: Config, s: State)
    requires Reachable(config, s)
    ensures Inv(s) && RegistryOk(s) && s.config == config
  {
    var run :| After(config, run) == Some(s);
    RunsKeepInv(config, run);
    ConfigStays(config, run);
  }

  lemma ConfigStep(s: State, e: Event)
    requires Enabled(s, e)
    ensures Next(s, e).config == s.config
  {
    if OfBusyWorker(e) {
      BusyOnWrite(s, e);
    }
  }

  lemma {:induction false} ConfigStays(config: Config, run: seq<Event>)
    requires After(config, run).Some?
    ensures After(config, run).value.config == config
  {
    if run != [] {
      ConfigStays(config, run[..|run| - 1]);
      ConfigStep(After(config, run[..|run| - 1]).value, run[|run| - 1]);
    }
  }

  /**
   In every reachable state each generation has taken exactly the first of the writes
   its channel accepted, in that order, and settled each taken write once but for the
   one it is working on; a worker that has left its loop has taken and settled them all.
   */
  lemma QueuesAreFifo(config: Config, s: State, g: nat)
    requires Reachable(config, s) && g < |s.gens|
    ensures var gen := s.gens[g];
            && gen.taken <= gen.accepted && gen.accepted[|gen.taken|..] == gen.queue
            && |gen.outcomes| <= |gen.taken| <= |gen.outcomes| + 1
            && |gen.queue| <= Capacity(config)
            && (gen.worker.Leaving? || gen.worker.Stopped? ==>
                  gen.closed && gen.taken == gen.accepted && |gen.outcomes| == |gen.accepted|)
  {
    ReachableIsGood(config, s);
    assert GenOk(s.config, s.gens[g]);
  }

  /** No write is accepted twice, by one channel or by two. */
  lemma AcceptedOnce(config: Config, s: State, g: nat, i: nat, h: nat, j: nat)
    requires Reachable(config, s)
    requires g < |s.gens| && i < |s.gens[g].accepted| && h < |s.gens| && j < |s.gens[h].accepted|
    requires s.gens[g].accepted[i].client == s.gens[h].accepted[j].client
    ensures g == h && i == j
  {
    ReachableIsGood(config, s);
    assert ItemOk(s, g, i) && ItemOk(s, h, j);
  }

  /**
   A write that a channel took is run once, rejected by its preview or skipped; it is
   skipped only when its client is gone, and it is run no second time anywhere else.
   */
  lemma SettledOnce(config: Config, s: State, g: nat, i: nat)
    requires Reachable(config, s) && g < |s.gens| && i < |s.gens[g].outcomes|
    ensures var gen := s.gens[g];
            && i < |gen.accepted| && gen.accepted[i].client < |s.clients|
            && var client := s.clients[gen.accepted[i].client];
            && client.applied == (if gen.outcomes[i].Ran? then 1 else 0)
            && client.inlineRun == None
            && (gen.outcomes[i] == Skipped ==> client.phase == Gone)
  {
    ReachableIsGood(config, s);
    assert GenOk(s.config, s.gens[g]) && ItemOk(s, g, i);
    assert ClientOk(s, s.gens[g].accepted[i].client);
  }

  /** Through the whole chain of fallbacks a client's write is applied at most once, and exactly when it ran. */
  lemma AppliedAtMostOnce(config: Config, s: State, c: nat)
    requires Reachable(config, s) && c < |s.clients|
    ensures s.clients[c].applied <= 1
    ensures s.clients[c].applied == 1
       <==> StatusOf(s, s.clients[c]).Done? && StatusOf(s, s.clients[c]).outcome.Ran?
  {
    ReachableIsGood(config, s);
    assert ClientOk(s, c);
  }

  /** A channel has accepted the client's write in one of these modes. */
  predicate IsAccepted(s: State, c: nat, modes: set<Mode>)
    requires c < |s.clients|
  {
    && s.clients[c].inlineRun.None? && s.clients[c].sent.Some?
    && var Slot(g, i) := s.clients[c].sent.value;
    && g < |s.gens| && i < |s.gens[g].accepted|
    && s.gens[g].accepted[i].client == c && s.gens[g].accepted[i].mode in modes
  }

  /**
   `committed: true` is answered only for a write that has been applied successfully,
   by a worker in committed mode or by the client itself; `committed: false` only for
   one that a channel has accepted in one of the other modes and that is neither
   skipped nor rejected; an error only for one that failed or was rejected.
   */
  lemma RepliesAreHonest(config: Config, s: State, c: nat)
    requires Reachable(config, s) && c < |s.clients| && s.clients[c].phase.Replied?
    ensures var client := s.clients[c];
            match client.phase.reply
            case Acknowledged(true) =>
              && client.applied == 1 && StatusOf(s, client) == Done(Ran(true))
              && (client.inlineRun == Some(true) || IsAccepted(s, c, {Committed}))
            case Acknowledged(false) =>
              IsAccepted(s, c, {Accepted, Prepared}) && StatusOf(s, client) !in {Held, Done(Skipped), Done(Rejected)}
            case Failed => StatusOf(s, client) in {Done(Ran(false)), Done(Rejected)}
  {
    ReachableIsGood(config, s);
    assert ClientOk(s, c);
  }

  // ------------------------------------------------------------------ progress

  /** A worker that holds a write, or whose queue does, has a next step. */
  lemma WorkerGoesOn(s: State, g: nat) returns (e: Event)
    requires Inv(s) && g < |s.gens| && (s.gens[g].worker.Busy? || s.gens[g].queue != [])
    ensures Enabled(s, e) && !OfClient(e) && e.gen == g
  {
    assert GenOk(s.config, s.gens[g]);
    var worker := s.gens[g].worker;
    if worker.Waiting? {
      e := Receive(g);
    } else if worker.TimedOut? {
      e := Close(g);
    } else if worker.Retiring? {
      e := Retire(g);
    } else {
      e := match worker.stage
        case Previewing(_) => EndPreview(g, true)
        case Previewed(_) => Answer(g)
        case Applying(_) => Apply(g, true)
        case Finishing(_, _) => Finish(g);
    }
  }

  /** A step of the client itself, other than giving up. */
  predicate ByClient(e: Event, c: nat)
  {
    match e
    case Bypass(d) => d == c
    case GetSender(d) => d == c
    case Send(d) => d == c
    case FindFull(d) => d == c
    case MeetClosed(d) => d == c
    case DropEntry(d) => d == c
    case RunInline(d, _) => d == c
    case _ => false
  }

  /**
   In every reachable state a client that has neither been answered nor gone away can
   go on, or the worker of the channel it waits for can: no write is ever stuck.
   */
  lemma NothingIsStuck(config: Config, s: State, c: nat) returns (e: Event)
    requires Reachable(config, s) && c < |s.clients| && !s.clients[c].phase.Replied? && !s.clients[c].phase.Gone?
    ensures Enabled(s, e)
    ensures ByClient(e, c)
         || ((s.clients[c].phase.Sending? || s.clients[c].phase.Awaiting?)
             && !OfClient(e) && e.gen == s.clients[c].phase.gen)
  {
    ReachableIsGood(config, s);
    assert ClientOk(s, c);
    match s.clients[c].phase
    case Ready(_) => e := if s.config.enabled then GetSender(c) else Bypass(c);
    case Refused(_) => e := DropEntry(c);
    case Inline => e := RunInline(c, true);
    case Sending(_, g) =>
      if s.gens[g].closed {
        e := MeetClosed(c);
      } else if |s.gens[g].queue| < Capacity(s.config) {
        e := Send(c);
      } else {
        e := WorkerGoesOn(s, g);
      }
    case Awaiting(_, g) =>
      AwaitedIsHeld(s, c);
      e := WorkerGoesOn(s, g);
  }

  /** The write a client waits for is queued, or its generation's worker holds it. */
  lemma AwaitedIsHeld(s: State, c: nat)
    requires Inv(s) && c < |s.clients| && s.clients[c].phase.Awaiting?
    ensures var g := s.clients[c].phase.gen;
            g < |s.gens| && (s.gens[g].worker.Busy? || s.gens[g].queue != [])
  {
    assert ClientOk(s, c);
    var Slot(g, i) := s.clients[c].sent.value;
    assert GenOk(s.config, s.gens[g]);
    assert i < |s.gens[g].taken| + |s.gens[g].queue|;
  }
}
