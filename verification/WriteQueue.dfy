/**
 The per-database write coordinator as a state machine: clients that go through the
 acknowledgement chain, generations of bounded channels with one worker each, the
 registry of senders, and the overlay of pending documents. Every event is one atomic
 step; a run is any sequence of enabled events.
 */
module WriteQueue {
  import opened Prelude
  import opened PendingKeys

  /** How a queued write is acknowledged; only `Accepted` has no response channel. */
  datatype Mode = Accepted | Prepared | Committed

  datatype Item = Item(client: nat, mode: Mode)

  /** What a worker is doing with a write; `revs` are the pending documents its preview put. */
  datatype Stage =
    | Previewing(revs: seq<Revision>)
    | Previewed(revs: seq<Revision>)
    | Applying(revs: seq<Revision>)
    | Finishing(ok: bool, revs: seq<Revision>)

  datatype Worker =
    | Waiting                          // at the head of its loop
    | TimedOut                         // the idle timeout fired, the channel is not closed yet
    | Retiring                         // closed its channel, has not removed its registry entry yet
    | Busy(item: Item, stage: Stage)
    | Leaving                          // left the loop, last removal still to do
    | Stopped

  datatype Outcome = Ran(ok: bool) | Skipped | Rejected

  /** A channel and its worker. `accepted`, `taken` and `outcomes` record its history. */
  datatype Gen = Gen(
    db: string, queue: seq<Item>, closed: bool, worker: Worker,
    accepted: seq<Item>, taken: seq<Item>, outcomes: seq<Outcome>)

  datatype Reply = Acknowledged(committed: bool) | Failed

  datatype Phase =
    | Ready(mode: Mode)                // about to enqueue in this mode
    | Sending(mode: Mode, gen: nat)    // holds a sender of the generation
    | Refused(mode: Mode)              // the channel was closed, the entry is about to be removed
    | Awaiting(mode: Mode, gen: nat)   // waits for the worker's response
    | Inline                           // runs the write itself
    | Replied(reply: Reply)
    | Gone                             // the request was dropped

  datatype Slot = Slot(gen: nat, index: nat)

  /** One client write. `sent`, `inlineRun` and `applied` record its history. */
  datatype Client = Client(db: string, phase: Phase, sent: Option<Slot>, inlineRun: Option<bool>, applied: nat)

  datatype Config = Config(enabled: bool, capacity: nat, idles: bool)

  datatype Put = Put(db: string, id: string, client: nat)

  datatype State = State(
    config: Config,
    registry: map<string, nat>,
    gens: seq<Gen>,
    clients: seq<Client>,
    pending: map<string, nat>,     // the revision of each pending document
    nextRevision: nat,
    // history
    puts: seq<Put>,                // by revision
    cleared: set<nat>,             // clients whose completion cleared their pending documents
    forgotten: bool,               // some database's runtime state was cleared
    disturbed: set<string>)        // databases where a close found a write or an open channel lost its entry

  datatype Event =
    | Arrive(db: string, mode: Mode)
    | Bypass(client: nat)
    | GetSender(client: nat)
    | Send(client: nat)
    | FindFull(client: nat)
    | MeetClosed(client: nat)
    | DropEntry(client: nat)
    | RunInline(client: nat, ok: bool)
    | Cancel(client: nat)
    | TimeOut(gen: nat)
    | Close(gen: nat)
    | Retire(gen: nat)
    | Receive(gen: nat)
    | PutPending(gen: nat, id: string)
    | EndPreview(gen: nat, ok: bool)
    | Answer(gen: nat)
    | Apply(gen: nat, ok: bool)
    | Finish(gen: nat)
    | Leave(gen: nat)
    | Unregister(gen: nat)
    | ClearDb(db: string)

  function Initial(config: Config): State
  {
    State(config, map[], [], [], map[], 0, [], {}, false, {})
  }

  function Capacity(config: Config): nat
  {
    if config.capacity == 0 then 1 else config.capacity
  }

  /** Where a write goes that no channel took. */
  function Fallback(mode: Mode): Phase
  {
    if mode == Committed then Inline else Ready(Committed)
  }

  /** The waiter has dropped its end of the response channel. */
  predicate WaiterGone(s: State, item: Item)
  {
    item.mode != Accepted && item.client < |s.clients| && s.clients[item.client].phase == Gone
  }

  /** The phase of a client; there is nothing to do for one that does not exist. */
  function PhaseOf(s: State, c: nat): Phase
  {
    if c < |s.clients| then s.clients[c].phase else Gone
  }

  function WorkerOf(s: State, g: nat): Worker
  {
    if g < |s.gens| then s.gens[g].worker else Stopped
  }

  /** A client that holds a sender of an existing channel. */
  predicate HoldsSender(s: State, client: nat)
  {
    PhaseOf(s, client).Sending? && s.clients[client].phase.gen < |s.gens|
  }

  function ChannelOf(s: State, client: nat): Gen
    requires HoldsSender(s, client)
  {
    s.gens[s.clients[client].phase.gen]
  }

  predicate Enabled(s: State, e: Event)
  {
    match e
    case Arrive(_, _) => true
    case Bypass(c) => !s.config.enabled && PhaseOf(s, c).Ready?
    case GetSender(c) => s.config.enabled && PhaseOf(s, c).Ready?
    case Send(c) =>
      HoldsSender(s, c) && !ChannelOf(s, c).closed && |ChannelOf(s, c).queue| < Capacity(s.config)
    case FindFull(c) =>
      && HoldsSender(s, c) && s.clients[c].phase.mode == Accepted
      && !ChannelOf(s, c).closed && |ChannelOf(s, c).queue| >= Capacity(s.config)
    case MeetClosed(c) => HoldsSender(s, c) && ChannelOf(s, c).closed
    case DropEntry(c) => PhaseOf(s, c).Refused?
    case RunInline(c, _) => PhaseOf(s, c).Inline?
    case Cancel(c) => !PhaseOf(s, c).Replied? && !PhaseOf(s, c).Gone?
    case TimeOut(g) =>
      s.config.idles && WorkerOf(s, g).Waiting? && !s.gens[g].closed && s.gens[g].queue == []
    case Close(g) => WorkerOf(s, g).TimedOut?
    case Retire(g) => WorkerOf(s, g).Retiring?
    case Receive(g) => WorkerOf(s, g).Waiting? && s.gens[g].queue != []
    case PutPending(g, _) => WorkerOf(s, g).Busy? && WorkerOf(s, g).stage.Previewing?
    case EndPreview(g, _) => WorkerOf(s, g).Busy? && WorkerOf(s, g).stage.Previewing?
    case Answer(g) => WorkerOf(s, g).Busy? && WorkerOf(s, g).stage.Previewed?
    case Apply(g, _) => WorkerOf(s, g).Busy? && WorkerOf(s, g).stage.Applying?
    case Finish(g) => WorkerOf(s, g).Busy? && WorkerOf(s, g).stage.Finishing?
    case Leave(g) => WorkerOf(s, g).Waiting? && s.gens[g].closed && s.gens[g].queue == []
    case Unregister(g) => WorkerOf(s, g).Leaving?
    case ClearDb(_) => true
  }

  function WithPhase(s: State, client: nat, phase: Phase): State
    requires client < |s.clients|
  {
    s.(clients := s.clients[client := s.clients[client].(phase := phase)])
  }

  function WithGen(s: State, g: nat, gen: Gen): State
    requires g < |s.gens|
  {
    s.(gens := s.gens[g := gen])
  }

  function WithWorker(s: State, g: nat, worker: Worker): State
    requires g < |s.gens|
  {
    WithGen(s, g, s.gens[g].(worker := worker))
  }

  /** The worker answers the client of `item`; an answer to a client that is gone is lost. */
  function Respond(s: State, item: Item, reply: Reply): State
  {
    if PhaseOf(s, item.client).Awaiting? then WithPhase(s, item.client, Replied(reply)) else s
  }

  /** `remove_if(same_channel)`: only the generation's own entry. */
  function RemoveGeneration(registry: map<string, nat>, db: string, g: nat): map<string, nat>
  {
    if db in registry && registry[db] == g then registry - {db} else registry
  }

  /** The entry of the database leads to a channel that still takes writes. */
  predicate EntryIsOpen(s: State, db: string)
  {
    db in s.registry && s.registry[db] < |s.gens| && !s.gens[s.registry[db]].closed
  }

  /** `write_queues.remove(db)`: the entry goes, whichever generation it leads to. */
  function WithoutEntry(s: State, db: string): State
  {
    s.(registry := s.registry - {db}, disturbed := s.disturbed + if EntryIsOpen(s, db) then {db} else {})
  }

  /** The worker is done with its write and goes back to the head of its loop. */
  function Settle(gen: Gen, outcome: Outcome): Gen
  {
    gen.(worker := Waiting, outcomes := gen.outcomes + [outcome])
  }

  function GetSenderStep(s: State, c: nat): State
    requires c < |s.clients| && s.clients[c].phase.Ready?
  {
    var client := s.clients[c];
    if client.db in s.registry then
      WithPhase(s, c, Sending(client.phase.mode, s.registry[client.db]))
    else
      var g := |s.gens|;
      WithPhase(s, c, Sending(client.phase.mode, g))
        .(gens := s.gens + [Gen(client.db, [], false, Waiting, [], [], [])],
          registry := s.registry[client.db := g])
  }

  function SendStep(s: State, c: nat): State
    requires HoldsSender(s, c)
  {
    var client := s.clients[c];
    var (mode, g) := (client.phase.mode, client.phase.gen);
    var gen := s.gens[g];
    var item := Item(c, mode);
    var phase := if mode == Accepted then Replied(Acknowledged(false)) else Awaiting(mode, g);
    s.(gens := s.gens[g := gen.(queue := gen.queue + [item], accepted := gen.accepted + [item])],
       clients := s.clients[c := client.(phase := phase, sent := Some(Slot(g, |gen.accepted|)))])
  }

  /** The head of the queue is taken: dropped when its waiter is gone, worked on otherwise. */
  function Taken(gen: Gen, skipped: bool): Gen
    requires gen.queue != []
  {
    var item := gen.queue[0];
    var gen' := gen.(queue := gen.queue[1..], taken := gen.taken + [item]);
    if skipped then Settle(gen', Skipped)
    else gen'.(worker := Busy(item, if item.mode == Prepared then Previewing([]) else Applying([])))
  }

  function ReceiveStep(s: State, g: nat): State
    requires g < |s.gens| && s.gens[g].queue != []
  {
    WithGen(s, g, Taken(s.gens[g], WaiterGone(s, s.gens[g].queue[0])))
  }

  function PutStep(s: State, g: nat, id: string): State
    requires g < |s.gens| && s.gens[g].worker.Busy? && s.gens[g].worker.stage.Previewing?
  {
    var gen := s.gens[g];
    var (item, revs) := (gen.worker.item, gen.worker.stage.revs);
    WithWorker(s, g, Busy(item, Previewing(revs + [Revision(id, s.nextRevision)])))
      .(pending := s.pending[PendingKey(gen.db, id) := s.nextRevision],
        nextRevision := s.nextRevision + 1,
        puts := s.puts + [Put(gen.db, id, item.client)])
  }

  function EndPreviewStep(s: State, g: nat, ok: bool): State
    requires g < |s.gens| && s.gens[g].worker.Busy? && s.gens[g].worker.stage.Previewing?
  {
    var worker := s.gens[g].worker;
    if ok then WithWorker(s, g, Busy(worker.item, Previewed(worker.stage.revs)))
    else WithGen(Respond(s, worker.item, Failed), g, Settle(s.gens[g], Rejected))
  }

  function AnswerStep(s: State, g: nat): State
    requires g < |s.gens| && s.gens[g].worker.Busy? && s.gens[g].worker.stage.Previewed?
  {
    var worker := s.gens[g].worker;
    WithWorker(Respond(s, worker.item, Acknowledged(false)), g, Busy(worker.item, Applying(worker.stage.revs)))
  }

  function ApplyStep(s: State, g: nat, ok: bool): State
    requires g < |s.gens| && s.gens[g].worker.Busy? && s.gens[g].worker.stage.Applying?
  {
    var worker := s.gens[g].worker;
    var done := WithWorker(s, g, Busy(worker.item, Finishing(ok, worker.stage.revs)));
    var c := worker.item.client;
    if c >= |s.clients| then done
    else done.(clients := s.clients[c := s.clients[c].(applied := s.clients[c].applied + 1)])
  }

  /** A committed write is answered with its result; a prepared one clears its pending documents. */
  function FinishStep(s: State, g: nat): State
    requires g < |s.gens| && s.gens[g].worker.Busy? && s.gens[g].worker.stage.Finishing?
  {
    var gen := s.gens[g];
    var (item, stage) := (gen.worker.item, gen.worker.stage);
    var settled := WithGen(s, g, Settle(gen, Ran(stage.ok)));
    if item.mode == Prepared then
      settled.(pending := ClearIfCurrent(s.pending, gen.db, stage.revs), cleared := s.cleared + {item.client})
    else if item.mode == Committed then
      Respond(settled, item, if stage.ok then Acknowledged(true) else Failed)
    else settled
  }

  function Next(s: State, e: Event): State
    requires Enabled(s, e)
  {
    match e
    case Arrive(db, mode) => s.(clients := s.clients + [Client(db, Ready(mode), None, None, 0)])
    case Bypass(c) => WithPhase(s, c, Fallback(s.clients[c].phase.mode))
    case GetSender(c) => GetSenderStep(s, c)
    case Send(c) => SendStep(s, c)
    case FindFull(c) => WithPhase(s, c, Ready(Committed))
    case MeetClosed(c) => WithPhase(s, c, Refused(s.clients[c].phase.mode))
    case DropEntry(c) => WithoutEntry(WithPhase(s, c, Fallback(s.clients[c].phase.mode)), s.clients[c].db)
    case RunInline(c, ok) =>
      s.(clients := s.clients[c := s.clients[c].(
        phase := Replied(if ok then Acknowledged(true) else Failed),
        inlineRun := Some(ok),
        applied := s.clients[c].applied + 1)])
    case Cancel(c) => WithPhase(s, c, Gone)
    case TimeOut(g) => WithWorker(s, g, TimedOut)
    case Close(g) =>
      WithGen(s, g, s.gens[g].(closed := true, worker := Retiring))
        .(disturbed := s.disturbed + if s.gens[g].queue == [] then {} else {s.gens[g].db})
    case Retire(g) =>
      WithWorker(s, g, Waiting).(registry := RemoveGeneration(s.registry, s.gens[g].db, g))
    case Receive(g) => ReceiveStep(s, g)
    case PutPending(g, id) => PutStep(s, g, id)
    case EndPreview(g, ok) => EndPreviewStep(s, g, ok)
    case Answer(g) => AnswerStep(s, g)
    case Apply(g, ok) => ApplyStep(s, g, ok)
    case Finish(g) => FinishStep(s, g)
    case Leave(g) => WithWorker(s, g, Leaving)
    case Unregister(g) =>
      WithWorker(s, g, Stopped).(registry := RemoveGeneration(s.registry, s.gens[g].db, g))
    case ClearDb(db) =>
      WithoutEntry(s, db).(pending := WithoutDb(s.pending, db), forgotten := true)
  }

  /** Some run from the start leads to this state. */
  ghost predicate Reachable(config: Config, s: State)
  {
    exists run :: After(config, run) == Some(s)
  }

  /** The state after a run from the start, if every event of it was enabled. */
  function After(config: Config, run: seq<Event>): Option<State>
  {
    if run == [] then Some(Initial(config))
    else match After(config, run[..|run| - 1])
      case None => None
      case Some(s) => if Enabled(s, run[|run| - 1]) then Some(Next(s, run[|run| - 1])) else None
  }

  lemma ReachesNext(config: Config, s: State, e: Event)
    requires Reachable(config, s) && Enabled(s, e)
    ensures Reachable(config, Next(s, e))
  {
    var run :| After(config, run) == Some(s);
    assert (run + [e])[..|run|] == run;
    assert After(config, run + [e]) == Some(Next(s, e));
  }

  // ---------------------------------------------------- what became of a write

  datatype Status = Held | Queued | Working | Done(outcome: Outcome)

  function ItemStatus(gen: Gen, i: nat): Status
  {
    if i < |gen.outcomes| then Done(gen.outcomes[i])
    else if i < |gen.taken| then
      if gen.worker.Busy? && gen.worker.stage.Finishing? then Done(Ran(gen.worker.stage.ok)) else Working
    else Queued
  }

  function StatusOf(s: State, client: Client): Status
  {
    match client.sent
    case Some(Slot(g, i)) => if g < |s.gens| then ItemStatus(s.gens[g], i) else Held
    case None => if client.inlineRun.Some? then Done(Ran(client.inlineRun.value)) else Held
  }

  // --------------------------------------------------------------- step frames

  /** A step of one worker on its write: neither its channel nor the registry changes. */
  predicate OnWrite(s: State, s': State, g: nat)
  {
    && g < |s.gens| == |s'.gens| && s'.gens == s.gens[g := s'.gens[g]]
    && s'.config == s.config && s'.registry == s.registry && s'.disturbed == s.disturbed
    && s'.gens[g].db == s.gens[g].db && s'.gens[g].closed == s.gens[g].closed
  }

  lemma PutOnWrite(s: State, g: nat, id: string)
    requires WorkerOf(s, g).Busy? && WorkerOf(s, g).stage.Previewing?
    ensures OnWrite(s, PutStep(s, g, id), g)
  {
  }

  lemma EndPreviewOnWrite(s: State, g: nat, ok: bool)
    requires WorkerOf(s, g).Busy? && WorkerOf(s, g).stage.Previewing?
    ensures OnWrite(s, EndPreviewStep(s, g, ok), g)
  {
  }

  lemma AnswerOnWrite(s: State, g: nat)
    requires WorkerOf(s, g).Busy? && WorkerOf(s, g).stage.Previewed?
    ensures OnWrite(s, AnswerStep(s, g), g)
  {
  }

  lemma ApplyOnWrite(s: State, g: nat, ok: bool)
    requires WorkerOf(s, g).Busy? && WorkerOf(s, g).stage.Applying?
    ensures OnWrite(s, ApplyStep(s, g, ok), g)
  {
  }

  lemma FinishOnWrite(s: State, g: nat)
    requires WorkerOf(s, g).Busy? && WorkerOf(s, g).stage.Finishing?
    ensures OnWrite(s, FinishStep(s, g), g)
  {
  }

  /** An event of a worker that holds a write. */
  predicate OfBusyWorker(e: Event)
  {
    e.PutPending? || e.EndPreview? || e.Answer? || e.Apply? || e.Finish?
  }

  /** Working on a write touches neither the channel nor the registry. */
  lemma BusyOnWrite(s: State, e: Event)
    requires Enabled(s, e) && OfBusyWorker(e)
    ensures OnWrite(s, Next(s, e), e.gen) && s.gens[e.gen].worker.Busy?
  {
    match e
    case PutPending(g, id) => PutOnWrite(s, g, id);
    case EndPreview(g, ok) => EndPreviewOnWrite(s, g, ok);
    case Answer(g) => AnswerOnWrite(s, g);
    case Apply(g, ok) => ApplyOnWrite(s, g, ok);
    case Finish(g) => FinishOnWrite(s, g);
  }
}
