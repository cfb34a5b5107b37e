/** How a client's write moves through the acknowledgement chain, and that it always comes to an end. */
module WriteQueueProgress {
  import opened Prelude
  import opened PendingKeys
  import opened WriteQueue
  import opened WriteQueueHistory

  /** Where a client goes by its own step; `gen` is the generation whose sender it gets. */
  function Moved(p: Phase, e: Event, gen: nat): Phase
  {
    match e
    case GetSender(_) => if p.Ready? then Sending(p.mode, gen) else p
    case MeetClosed(_) => if p.Sending? then Refused(p.mode) else p
    case FindFull(_) => Ready(Committed)
    case Bypass(_) => if p == Ready(Committed) then Inline else Ready(Committed)
    case DropEntry(_) => if p == Refused(Committed) then Inline else Ready(Committed)
    case RunInline(_, ok) => Replied(if ok then Acknowledged(true) else Failed)
    case Send(_) =>
      if !p.Sending? then p
      else if p.mode == Accepted then Replied(Acknowledged(false))
      else Awaiting(p.mode, p.gen)
    case _ => p
  }

  /** The sender a client gets is that of an open or registered channel of its own database. */
  lemma OwnStep(s: State, e: Event, c: nat)
    requires RegistryOk(s) && Enabled(s, e) && ByClient(e, c)
    ensures c < |s.clients| == |Next(s, e).clients|
    ensures var (p, q) := (s.clients[c].phase, Next(s, e).clients[c].phase);
            && q == Moved(p, e, if q.Sending? then q.gen else 0)
            && (e.GetSender? ==> q.gen < |Next(s, e).gens| && Next(s, e).gens[q.gen].db == s.clients[c].db)
  {
  }

  /** No other step moves a client, unless it answers the one that waits or is the client's own end. */
  lemma OtherStep(s: State, e: Event, c: nat)
    requires Enabled(s, e) && !ByClient(e, c) && c < |s.clients|
    ensures c < |Next(s, e).clients|
    ensures var (p, q) := (s.clients[c].phase, Next(s, e).clients[c].phase);
            q == p || (p.Awaiting? && q.Replied?) || (e == Cancel(c) && q == Gone)
  {
    if OfClient(e) {
      OtherClientStep(s, e, c);
    } else {
      WorkersStep(s, e, c);
    }
  }

  lemma OtherClientStep(s: State, e: Event, c: nat)
    requires Enabled(s, e) && !ByClient(e, c) && c < |s.clients| && OfClient(e)
    ensures c < |Next(s, e).clients|
    ensures Next(s, e).clients[c].phase == if e == Cancel(c) then Gone else s.clients[c].phase
  {
  }

  lemma WorkersStep(s: State, e: Event, c: nat)
    requires Enabled(s, e) && c < |s.clients| && !OfClient(e)
    ensures c < |Next(s, e).clients|
    ensures var (p, q) := (s.clients[c].phase, Next(s, e).clients[c].phase); q == p || (p.Awaiting? && q.Replied?)
  {
    if OfBusyWorker(e) {
      BusyWorkersStep(s, e, c);
    } else {
      IdleWorkersStep(s, e);
    }
  }

  lemma Responds(s: State, item: Item, reply: Reply, c: nat)
    requires c < |s.clients|
    ensures |Respond(s, item, reply).clients| == |s.clients|
    ensures var (p, q) := (s.clients[c].phase, Respond(s, item, reply).clients[c].phase);
            q == p || (p.Awaiting? && q == Replied(reply))
  {
  }

  lemma BusyWorkersStep(s: State, e: Event, c: nat)
    requires Enabled(s, e) && c < |s.clients| && OfBusyWorker(e)
    ensures c < |Next(s, e).clients|
    ensures var (p, q) := (s.clients[c].phase, Next(s, e).clients[c].phase); q == p || (p.Awaiting? && q.Replied?)
  {
    match e
    case PutPending(g, id) =>
    case EndPreview(g, ok) => Responds(s, s.gens[g].worker.item, Failed, c);
    case Answer(g) => Responds(s, s.gens[g].worker.item, Acknowledged(false), c);
    case Apply(g, ok) =>
    case Finish(g) =>
      var (gen, ok) := (s.gens[g], s.gens[g].worker.stage.ok);
      Responds(WithGen(s, g, Settle(gen, Ran(ok))), gen.worker.item, if ok then Acknowledged(true) else Failed, c);
  }

  lemma IdleWorkersStep(s: State, e: Event)
    requires Enabled(s, e) && !OfClient(e) && !OfBusyWorker(e)
    ensures Next(s, e).clients == s.clients && |Next(s, e).gens| == |s.gens|
  {
  }

  /** How many of its own steps a client can still take. */
  function StepsLeft(p: Phase): nat
  {
    match p
    case Ready(mode) => if mode == Committed then 4 else 7
    case Sending(mode, _) => if mode == Committed then 3 else 6
    case Refused(mode) => if mode == Committed then 2 else 5
    case Inline => 1
    case _ => 0
  }

  /** Every step of the client itself, giving up aside, brings it nearer to its answer. */
  lemma OwnStepLowers(s: State, e: Event, c: nat)
    requires RegistryOk(s) && Enabled(s, e) && ByClient(e, c)
    ensures c < |s.clients| == |Next(s, e).clients|
    ensures StepsLeft(Next(s, e).clients[c].phase) < StepsLeft(s.clients[c].phase)
  {
    OwnStep(s, e, c);
  }

  function OwnSteps(run: seq<Event>, c: nat): nat
  {
    if run == [] then 0 else OwnSteps(run[..|run| - 1], c) + if ByClient(run[|run| - 1], c) then 1 else 0
  }

  /**
   In every run a client takes at most seven steps of its own before it is answered, and
   it is gone exactly when it was cancelled.
   */
  lemma {:induction false} ClientsComeToAnEnd(config: Config, run: seq<Event>, c: nat)
    requires After(config, run).Some?
    ensures var s := After(config, run).value;
            if c < |s.clients| then
              && OwnSteps(run, c) + StepsLeft(s.clients[c].phase) <= 7
              && (s.clients[c].phase.Gone? <==> Cancel(c) in run)
            else OwnSteps(run, c) == 0 && Cancel(c) !in run
  {
    if run != [] {
      var (before, e) := (run[..|run| - 1], run[|run| - 1]);
      ClientsComeToAnEnd(config, before, c);
      RunsKeepInv(config, before);
      assert run == before + [e];
      OneMoreStep(After(config, before).value, e, c);
    }
  }

  lemma OneMoreStep(s: State, e: Event, c: nat)
    requires RegistryOk(s) && Enabled(s, e)
    ensures c < |s.clients| ==> c < |Next(s, e).clients|
    ensures c < |s.clients| ==>
              var (p, q) := (s.clients[c].phase, Next(s, e).clients[c].phase);
              && StepsLeft(q) + (if ByClient(e, c) then 1 else 0) <= StepsLeft(p)
              && (q.Gone? <==> p.Gone? || e == Cancel(c))
    ensures c >= |s.clients| ==> !ByClient(e, c) && e != Cancel(c)
    ensures |s.clients| <= c < |Next(s, e).clients| ==>
              var q := Next(s, e).clients[c].phase; StepsLeft(q) <= 7 && !q.Gone?
  {
    if c < |s.clients| {
      if ByClient(e, c) {
        OwnStepLowers(s, e, c);
        OwnStep(s, e, c);
      } else {
        OtherStep(s, e, c);
      }
    } else {
      NewClient(s, e, c);
    }
  }

  lemma NewClient(s: State, e: Event, c: nat)
    requires Enabled(s, e) && c >= |s.clients|
    ensures !ByClient(e, c) && e != Cancel(c)
    ensures c < |Next(s, e).clients| ==> e.Arrive? && Next(s, e).clients[c].phase == Ready(e.mode)
  {
  }

  /** With the queues switched off a client that has no answer yet can always go on by itself. */
  lemma {:induction false} OffNeverWaits(config: Config, run: seq<Event>, c: nat)
    requires After(config, run).Some? && !config.enabled && c < |After(config, run).value.clients|
    ensures var p := After(config, run).value.clients[c].phase; p.Ready? || p.Inline? || p.Replied? || p.Gone?
  {
    var (before, e) := (run[..|run| - 1], run[|run| - 1]);
    var s := After(config, before).value;
    ConfigStays(config, before);
    RunsKeepInv(config, before);
    if c < |s.clients| {
      OffNeverWaits(config, before, c);
      if ByClient(e, c) {
        OwnStep(s, e, c);
      } else {
        OtherStep(s, e, c);
      }
    } else {
      NewClient(s, e, c);
    }
  }

  lemma OffGoesOn(config: Config, run: seq<Event>, c: nat) returns (e: Event)
    requires After(config, run).Some? && !config.enabled && c < |After(config, run).value.clients|
    requires var p := After(config, run).value.clients[c].phase; !p.Replied? && !p.Gone?
    ensures Enabled(After(config, run).value, e) && ByClient(e, c)
  {
    OffNeverWaits(config, run, c);
    ConfigStays(config, run);
    e := if After(config, run).value.clients[c].phase.Ready? then Bypass(c) else RunInline(c, true);
  }

  /** A try to send never waits: the channel takes the write, is full, or is closed. */
  lemma TryNeverWaits(config: Config, s: State, c: nat) returns (e: Event)
    requires Reachable(config, s) && c < |s.clients|
    requires s.clients[c].phase.Sending? && s.clients[c].phase.mode == Accepted
    ensures Enabled(s, e) && ByClient(e, c)
  {
    ReachableIsGood(config, s);
    assert ClientOk(s, c);
    var gen := s.gens[s.clients[c].phase.gen];
    e := if gen.closed then MeetClosed(c) else if |gen.queue| < Capacity(s.config) then Send(c) else FindFull(c);
  }

  /** The capacity is the configured one, and at least one. */
  lemma FullAt(s: State, c: nat)
    requires HoldsSender(s, c) && !ChannelOf(s, c).closed
    ensures Enabled(s, Send(c)) <==> |ChannelOf(s, c).queue| < 1 || |ChannelOf(s, c).queue| < s.config.capacity
  {
  }

  // ------------------------------------------------------------------- workers

  /** A step of this generation's worker that brings its life forward. */
  predicate ByWorker(e: Event, g: nat)
  {
    !OfClient(e) && e.gen == g && !e.PutPending?
  }

  /** Where a worker is in its life; an open channel has its retirement still ahead. */
  function WorkerRank(gen: Gen): nat
  {
    var waiting := if gen.closed then 3 else 6;
    match gen.worker
    case Waiting => waiting
    case TimedOut => 5
    case Retiring => 4
    case Busy(_, stage) =>
      waiting + (match stage
                 case Previewing(_) => 4
                 case Previewed(_) => 3
                 case Applying(_) => 2
                 case Finishing(_, _) => 1)
    case Leaving => 1
    case Stopped => 0
  }

  function WorkLeft(gen: Gen): nat
  {
    10 * |gen.queue| + WorkerRank(gen)
  }

  lemma BusyStepLowers(s: State, e: Event, g: nat)
    requires Enabled(s, e) && ByWorker(e, g) && OfBusyWorker(e)
    ensures g < |s.gens| == |Next(s, e).gens| && WorkLeft(Next(s, e).gens[g]) < WorkLeft(s.gens[g])
  {
    BusyOnWrite(s, e);
  }

  /** Every step of a worker takes it nearer to its end. */
  lemma WorkerStepLowers(s: State, e: Event, g: nat)
    requires Inv(s) && Enabled(s, e) && ByWorker(e, g)
    ensures g < |s.gens| == |Next(s, e).gens| && WorkLeft(Next(s, e).gens[g]) < WorkLeft(s.gens[g])
  {
    if OfBusyWorker(e) {
      BusyStepLowers(s, e, g);
    } else {
      assert GenOk(s.config, s.gens[g]);
    }
  }

  /** A worker whose channel is closed can always take such a step until it has stopped. */
  lemma ClosedGoesOn(config: Config, s: State, g: nat) returns (e: Event)
    requires Reachable(config, s) && g < |s.gens| && s.gens[g].closed && !s.gens[g].worker.Stopped?
    ensures Enabled(s, e) && ByWorker(e, g)
  {
    ReachableIsGood(config, s);
    assert GenOk(s.config, s.gens[g]);
    if s.gens[g].worker.Leaving? {
      e := Unregister(g);
    } else if s.gens[g].worker.Retiring? {
      e := Retire(g);
    } else if s.gens[g].worker.Busy? || s.gens[g].queue != [] {
      e := WorkerGoesOn(s, g);
      if e.PutPending? {
        e := EndPreview(g, true);
      }
    } else {
      e := Leave(g);
    }
  }

  /** An idle worker can retire when the configuration has an idle time, and only then. */
  lemma IdleRetires(config: Config, s: State, g: nat)
    requires Reachable(config, s) && g < |s.gens| && s.gens[g].worker.Waiting? && s.gens[g].queue == []
    ensures !s.gens[g].closed ==> (Enabled(s, TimeOut(g)) <==> config.idles)
    ensures s.gens[g].closed ==> Enabled(s, Leave(g))
  {
    ReachableIsGood(config, s);
  }

  /**
   Taking a write: it is skipped exactly when somebody was to be told the result and is
   gone; otherwise the worker holds it, to preview it first in prepared mode.
   */
  lemma TakesOrSkips(s: State, g: nat)
    requires Enabled(s, Receive(g))
    ensures var (gen, gen') := (s.gens[g], Next(s, Receive(g)).gens[g]);
            var item := gen.queue[0];
            var gone := item.mode != Accepted && item.client < |s.clients| && s.clients[item.client].phase == Gone;
            && gen'.queue == gen.queue[1..] && gen'.taken == gen.taken + [item]
            && gen'.outcomes == (if gone then gen.outcomes + [Skipped] else gen.outcomes)
            && gen'.worker == if gone then Waiting
                              else Busy(item, if item.mode == Prepared then Previewing([]) else Applying([]))
  {
  }

  // ------------------------------------------------------- what an outcome tells

  /** Only a write with a waiter is skipped, and only a prepared one is rejected. */
  predicate OutcomesFit(gen: Gen)
  {
    forall i | 0 <= i < |gen.outcomes| && i < |gen.taken| ::
      && (gen.outcomes[i] == Skipped ==> gen.taken[i].mode != Accepted)
      && (gen.outcomes[i] == Rejected ==> gen.taken[i].mode == Prepared)
  }

  lemma OutcomesStep(s: State, e: Event, g: nat)
    requires Inv(s) && Enabled(s, e) && g < |s.gens| && OutcomesFit(s.gens[g])
    ensures g < |Next(s, e).gens| && OutcomesFit(Next(s, e).gens[g])
  {
    assert GenOk(s.config, s.gens[g]);
    if OfClient(e) {
      OutcomesForClient(s, e, g);
    } else if e.Receive? {
      OutcomesForReceive(s, e.gen, g);
    } else if OfBusyWorker(e) {
      OutcomesForBusy(s, e, g);
    } else {
      OutcomesForIdle(s, e, g);
    }
  }

  lemma OutcomesForReceive(s: State, h: nat, g: nat)
    requires Enabled(s, Receive(h)) && g < |s.gens|
    requires GenOk(s.config, s.gens[g]) && OutcomesFit(s.gens[g])
    ensures g < |Next(s, Receive(h)).gens| && OutcomesFit(Next(s, Receive(h)).gens[g])
  {
    TakesOrSkips(s, h);
  }

  lemma OutcomesForBusy(s: State, e: Event, g: nat)
    requires Enabled(s, e) && OfBusyWorker(e) && g < |s.gens|
    requires GenOk(s.config, s.gens[g]) && OutcomesFit(s.gens[g])
    ensures g < |Next(s, e).gens| && OutcomesFit(Next(s, e).gens[g])
  {
    BusyOnWrite(s, e);
    if g == e.gen {
      BusyOutcome(s, e);
    }
  }

  lemma OutcomesForIdle(s: State, e: Event, g: nat)
    requires Enabled(s, e) && !OfClient(e) && !OfBusyWorker(e) && !e.Receive? && g < |s.gens|
    ensures g < |Next(s, e).gens|
    ensures Next(s, e).gens[g].taken == s.gens[g].taken && Next(s, e).gens[g].outcomes == s.gens[g].outcomes
  {
  }

  lemma OutcomesForClient(s: State, e: Event, g: nat)
    requires Enabled(s, e) && OfClient(e) && g < |s.gens|
    ensures g < |Next(s, e).gens|
    ensures Next(s, e).gens[g].taken == s.gens[g].taken && Next(s, e).gens[g].outcomes == s.gens[g].outcomes
  {
  }

  /** A preview puts documents; it ends with the write to be answered, or rejected. */
  lemma PreviewStep(s: State, g: nat, id: string, ok: bool)
    requires WorkerOf(s, g).Busy? && WorkerOf(s, g).stage.Previewing?
    ensures var (item, revs) := (s.gens[g].worker.item, s.gens[g].worker.stage.revs);
            && PutStep(s, g, id).gens
               == s.gens[g := s.gens[g].(worker := Busy(item, Previewing(revs + [Revision(id, s.nextRevision)])))]
            && EndPreviewStep(s, g, ok).gens
               == s.gens[g := if ok then s.gens[g].(worker := Busy(item, Previewed(revs)))
                              else s.gens[g].(worker := Waiting, outcomes := s.gens[g].outcomes + [Rejected])]
  {
  }

  /** Then the write is answered and applied; what applying it gave becomes its outcome. */
  lemma ApplyingStep(s: State, g: nat, ok: bool)
    requires WorkerOf(s, g).Busy?
    ensures var (gen, stage) := (s.gens[g], s.gens[g].worker.stage);
            && (stage.Previewed? ==>
                  AnswerStep(s, g).gens == s.gens[g := gen.(worker := Busy(gen.worker.item, Applying(stage.revs)))])
            && (stage.Applying? ==>
                  ApplyStep(s, g, ok).gens
                    == s.gens[g := gen.(worker := Busy(gen.worker.item, Finishing(ok, stage.revs)))])
            && (stage.Finishing? ==>
                  FinishStep(s, g).gens
                    == s.gens[g := gen.(worker := Waiting, outcomes := gen.outcomes + [Ran(stage.ok)])])
  {
  }

  lemma BusyOutcome(s: State, e: Event)
    requires Enabled(s, e) && OfBusyWorker(e)
    ensures e.gen < |s.gens| == |Next(s, e).gens| && Next(s, e).gens[e.gen].taken == s.gens[e.gen].taken
    ensures var (before, after) := (s.gens[e.gen].outcomes, Next(s, e).gens[e.gen].outcomes);
            || after == before || (e.EndPreview? && after == before + [Rejected])
            || after == before + [Ran(true)] || after == before + [Ran(false)]
  {
    match e
    case PutPending(g, id) => PreviewStep(s, g, id, true);
    case EndPreview(g, ok) => PreviewStep(s, g, "", ok);
    case Answer(g) => ApplyingStep(s, g, true);
    case Apply(g, ok) => ApplyingStep(s, g, ok);
    case Finish(g) => ApplyingStep(s, g, true);
  }

  lemma {:induction false} RunsFit(config: Config, run: seq<Event>, g: nat)
    requires After(config, run).Some? && g < |After(config, run).value.gens|
    ensures OutcomesFit(After(config, run).value.gens[g])
  {
    var (before, e) := (run[..|run| - 1], run[|run| - 1]);
    var s := After(config, before).value;
    RunsKeepInv(config, before);
    if g < |s.gens| {
      RunsFit(config, before, g);
      OutcomesStep(s, e, g);
    } else {
      NewGeneration(s, e, g);
    }
  }

  lemma NewGeneration(s: State, e: Event, g: nat)
    requires Enabled(s, e) && |s.gens| <= g < |Next(s, e).gens|
    ensures e.GetSender? && Next(s, e).gens[g] == Gen(s.clients[e.client].db, [], false, Waiting, [], [], [])
  {
    if OfBusyWorker(e) {
      BusyOnWrite(s, e);
    } else if !OfClient(e) {
      IdleWorkersStep(s, e);
    }
  }

  /** In every reachable state a skipped write had a waiter, and a rejected one was prepared. */
  lemma OutcomesTell(config: Config, s: State, g: nat, i: nat)
    requires Reachable(config, s) && g < |s.gens| && i < |s.gens[g].outcomes|
    ensures i < |s.gens[g].accepted|
    ensures s.gens[g].outcomes[i] == Skipped ==> s.gens[g].accepted[i].mode != Accepted
    ensures s.gens[g].outcomes[i] == Rejected ==> s.gens[g].accepted[i].mode == Prepared
  {
    var run :| After(config, run) == Some(s);
    RunsFit(config, run, g);
    RunsKeepInv(config, run);
    assert GenOk(s.config, s.gens[g]);
    assert s.gens[g].accepted[i] == s.gens[g].taken[i];
  }
}
