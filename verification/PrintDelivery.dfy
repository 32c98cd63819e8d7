/**
  The server and any number of Windows agents together, over a network that may
  lose a poll reply, lose or delay an acknowledgement, and with agents that may
  abandon a batch at any point.

  Bags of job ids count, per job, everything that ever happened to it.
 */
module PrintDelivery {
  import opened Wrappers
  import opened PrintQueue

  /** Where an agent is in its loop; between steps it waits for the network or the printer. */
  datatype Phase =
    | Idle
    | Replying(batch: seq<int>)
    | Working(batch: seq<int>)
    | Acking(job: int, ok: bool, rest: seq<int>)
    | Acked(rest: seq<int>)

  datatype Agent = Agent(station: int, phase: Phase)

  /** Per job: hand-outs by polling, print attempts, copies on paper, attempts reported
      successful, hand-outs dropped before printing, acknowledgements processed, outcomes never
      acknowledged, retries, LAN dispatches, those rolled back, and LAN sends that put paper out. */
  datatype Ledger = Ledger(
    handOuts: multiset<int>, prints: multiset<int>, copies: multiset<int>, confirmed: multiset<int>,
    dropped: multiset<int>, acks: multiset<int>, unacked: multiset<int>,
    retries: multiset<int>, dispatches: multiset<int>, aborted: multiset<int>, lanCopies: multiset<int>)

  /** `lateOk` and `lateFailed` hold acknowledgements, as (station, job), still under way from agents that gave up. */
  datatype World = World(
    server: Server, agents: seq<Agent>,
    lateOk: multiset<(int, int)>, lateFailed: multiset<(int, int)>, ledger: Ledger)

  datatype Step =
    | Enqueue(station: int, payload: string, send: Send, now: int)
    | Poll(agent: nat, handed: seq<int>, now: int)
    | ReplyArrives(agent: nat)
    | Print(agent: nat, reported: bool, onPaper: bool)
    | PrintThrows(agent: nat, onPaper: bool)
    | Finish(agent: nat)
    | AckArrives(agent: nat, error: Option<string>, now: int)
    | AckReplyArrives(agent: nat)
    | Abandon(agent: nat)
    | LateAckArrives(station: int, lateJob: int, lateResult: bool, error: Option<string>, now: int)
    | LateAckLost(station: int, lateJob: int, lateResult: bool)
    | Retry(id: int, send: Send, now: int)
    | Cancel(id: int)

  // ---- Steps ----------------------------------------------------------------

  predicate Enabled(w: World, x: Step) {
    match x
    case Enqueue(_, _, _, _) => true
    case Poll(k, handed, _) =>
      k < |w.agents| && w.agents[k].phase.Idle? && Authorised(w.server, w.agents[k].station)
      && multiset(handed) == multiset(Waiting(w.server, w.agents[k].station))
    case ReplyArrives(k) => k < |w.agents| && w.agents[k].phase.Replying?
    case Print(k, reported, onPaper) =>
      k < |w.agents| && w.agents[k].phase.Working? && w.agents[k].phase.batch != [] && (reported ==> onPaper)
    case PrintThrows(k, _) => k < |w.agents| && w.agents[k].phase.Working? && w.agents[k].phase.batch != []
    case Finish(k) => k < |w.agents| && w.agents[k].phase == Working([])
    case AckArrives(k, _, _) => k < |w.agents| && w.agents[k].phase.Acking?
    case AckReplyArrives(k) => k < |w.agents| && w.agents[k].phase.Acked?
    case Abandon(k) => k < |w.agents| && !w.agents[k].phase.Idle?
    case LateAckArrives(station, job, ok, _, _) => (station, job) in (if ok then w.lateOk else w.lateFailed)
    case LateAckLost(station, job, ok) => (station, job) in (if ok then w.lateOk else w.lateFailed)
    case Retry(_, _, _) => true
    case Cancel(_) => true
  }

  function InHand(p: Phase): seq<int> {
    match p
    case Idle => []
    case Replying(batch) => batch
    case Working(batch) => batch
    case Acking(_, _, rest) => rest
    case Acked(rest) => rest
  }

  function Move(w: World, agent: nat, phase: Phase): World
    requires agent < |w.agents|
  {
    w.(agents := w.agents[agent := w.agents[agent].(phase := phase)])
  }

  function If(condition: bool, job: int): multiset<int> {
    if condition then multiset{job} else multiset{}
  }

  function StatusOf(ok: bool): JobStatus { if ok then Printed else Failed }

  predicate AgentSide(x: Step) {
    x.ReplyArrives? || x.Print? || x.PrintThrows? || x.Finish? || x.AckReplyArrives? || x.Abandon?
  }

  function Next(w: World, x: Step): World {
    if !Enabled(w, x) then w else if AgentSide(x) then AgentNext(w, x) else ServerNext(w, x)
  }

  /** The steps an agent takes by itself. */
  function AgentNext(w: World, x: Step): World
    requires Enabled(w, x) && AgentSide(x)
  {
    match x
    case ReplyArrives(k) => Move(w, k, Working(w.agents[k].phase.batch))
    case Print(k, reported, onPaper) => Tried(w, k, reported, onPaper)
    case PrintThrows(k, onPaper) => Thrown(w, k, onPaper)
    case Finish(k) => Move(w, k, Idle)
    case AckReplyArrives(k) => Move(w, k, Working(w.agents[k].phase.rest))
    case Abandon(k) => if w.agents[k].phase.Acking? then GivenUp(w, k) else Dropped(w, k)
  }

  /** The steps in which a request reaches the server, or is lost on the way. */
  function ServerNext(w: World, x: Step): World
    requires Enabled(w, x) && !AgentSide(x)
  {
    match x
    case Enqueue(station, payload, send, now) => Enqueued(w, station, payload, send, now)
    case Poll(k, handed, now) => Polled(w, k, handed, now)
    case AckArrives(k, error, now) => Acknowledged(w, k, error, now)
    case LateAckArrives(station, job, ok, error, now) => AcknowledgedLate(w, station, job, ok, error, now)
    case LateAckLost(station, job, ok) => Forgotten(w, station, job, ok)
    case Retry(id, send, now) => Retried(w, id, send, now)
    case Cancel(id) => w.(server := PrintQueue.Cancel(w.server, id))
  }

  function Enqueued(w: World, station: int, payload: string, send: Send, now: int): World {
    var s, l := w.server, w.ledger;
    var tried := Accepts(s, station) && IsLan(s, station);
    w.(server := PrintQueue.Enqueue(s, station, payload, send, now),
       ledger := l.(dispatches := l.dispatches + If(tried && !send.Crashed?, s.nextId),
                    aborted := l.aborted + If(tried && send.Crashed?, s.nextId),
                    lanCopies := l.lanCopies + If(tried && send.OnPaper(), s.nextId)))
  }

  function Polled(w: World, k: nat, handed: seq<int>, now: int): World
    requires k < |w.agents|
  {
    Move(w, k, Replying(handed)).(
      server := PrintQueue.Poll(w.server, w.agents[k].station, now),
      ledger := w.ledger.(handOuts := w.ledger.handOuts + multiset(handed)))
  }

  /** The poll reply is lost, a call throws or the process dies: what the agent held is gone. */
  function Dropped(w: World, k: nat): World
    requires k < |w.agents|
  {
    Move(w, k, Idle).(ledger := w.ledger.(dropped := w.ledger.dropped + multiset(InHand(w.agents[k].phase))))
  }

  /** The head of the batch goes to the printer, which reports success or failure. */
  function Tried(w: World, k: nat, reported: bool, onPaper: bool): World
    requires k < |w.agents| && w.agents[k].phase.Working? && w.agents[k].phase.batch != []
  {
    var job, l := w.agents[k].phase.batch[0], w.ledger;
    Move(w, k, Acking(job, reported, w.agents[k].phase.batch[1..])).(
      ledger := l.(prints := l.prints + multiset{job}, copies := l.copies + If(onPaper, job),
                   confirmed := l.confirmed + If(reported, job)))
  }

  /** The printer call itself throws: nothing is acknowledged and the rest of the batch is dropped. */
  function Thrown(w: World, k: nat, onPaper: bool): World
    requires k < |w.agents| && w.agents[k].phase.Working? && w.agents[k].phase.batch != []
  {
    var job, l := w.agents[k].phase.batch[0], w.ledger;
    Move(w, k, Idle).(
      ledger := l.(prints := l.prints + multiset{job}, copies := l.copies + If(onPaper, job),
                   unacked := l.unacked + multiset{job},
                   dropped := l.dropped + multiset(w.agents[k].phase.batch[1..])))
  }

  function Acknowledged(w: World, k: nat, error: Option<string>, now: int): World
    requires k < |w.agents| && w.agents[k].phase.Acking?
  {
    var p := w.agents[k].phase;
    Move(w, k, Acked(p.rest)).(
      server := PrintQueue.Ack(w.server, w.agents[k].station, p.job, StatusOf(p.ok), error, now),
      ledger := w.ledger.(acks := w.ledger.acks + multiset{p.job}))
  }

  /** The call that acknowledges throws: the rest of the batch is gone, the acknowledgement may still be under way. */
  function GivenUp(w: World, k: nat): World
    requires k < |w.agents| && w.agents[k].phase.Acking?
  {
    var here := (w.agents[k].station, w.agents[k].phase.job);
    Dropped(w, k).(lateOk := if w.agents[k].phase.ok then w.lateOk + multiset{here} else w.lateOk,
                   lateFailed := if w.agents[k].phase.ok then w.lateFailed else w.lateFailed + multiset{here})
  }

  lemma GivenUpParts(w: World, k: nat)
    requires k < |w.agents| && w.agents[k].phase.Acking?
    ensures var next := Next(w, Abandon(k));
      && next.agents == w.agents[k := w.agents[k].(phase := Idle)] && next.server == w.server
      && next.ledger.prints == w.ledger.prints
      && next.ledger.dropped == w.ledger.dropped + multiset(InHand(w.agents[k].phase))
  {
  }

  function AcknowledgedLate(w: World, station: int, job: int, ok: bool, error: Option<string>, now: int): World {
    WithoutLate(w, station, job, ok).(
      server := PrintQueue.Ack(w.server, station, job, StatusOf(ok), error, now),
      ledger := w.ledger.(acks := w.ledger.acks + multiset{job}))
  }

  function Forgotten(w: World, station: int, job: int, ok: bool): World {
    WithoutLate(w, station, job, ok).(ledger := w.ledger.(unacked := w.ledger.unacked + multiset{job}))
  }

  function Retried(w: World, id: int, send: Send, now: int): World {
    var s, l := w.server, w.ledger;
    var tried := id in s.jobs && IsLan(s, s.jobs[id].station);
    w.(server := PrintQueue.Retry(s, id, send, now),
       ledger := l.(retries := l.retries + If(CanRetry(s, id, send), id),
                    dispatches := l.dispatches + If(tried && !send.Crashed?, id),
                    aborted := l.aborted + If(tried && send.Crashed?, id),
                    lanCopies := l.lanCopies + If(tried && send.OnPaper(), id)))
  }

  function WithoutLate(w: World, station: int, job: int, ok: bool): World {
    if ok then w.(lateOk := w.lateOk - multiset{(station, job)})
    else w.(lateFailed := w.lateFailed - multiset{(station, job)})
  }

  function Run(w: World, steps: seq<Step>): World
    decreases |steps|
  {
    if steps == [] then w else Run(Next(w, steps[0]), steps[1..])
  }

  // ---- Counting what the agents hold ----------------------------------------

  /** How often `job` is handed out to an agent and not yet printed. */
  function Held(agents: seq<Agent>, job: int): nat {
    if agents == [] then 0 else multiset(InHand(agents[0].phase))[job] + Held(agents[1..], job)
  }

  function AckingOne(p: Phase, job: int): nat { if p.Acking? && p.job == job then 1 else 0 }

  /** How many agents are waiting for an acknowledgement of `job` to be answered. */
  function AckingNow(agents: seq<Agent>, job: int): nat {
    if agents == [] then 0 else AckingOne(agents[0].phase, job) + AckingNow(agents[1..], job)
  }

  lemma {:induction false} HeldAfterMove(agents: seq<Agent>, k: nat, a: Agent, job: int)
    requires k < |agents|
    ensures Held(agents[k := a], job) + multiset(InHand(agents[k].phase))[job]
         == Held(agents, job) + multiset(InHand(a.phase))[job]
    ensures AckingNow(agents[k := a], job) + AckingOne(agents[k].phase, job)
         == AckingNow(agents, job) + AckingOne(a.phase, job)
  {
    if k == 0 {
      assert agents[k := a][1..] == agents[1..];
    } else {
      HeldAfterMove(agents[1..], k - 1, a, job);
      assert agents[k := a][1..] == agents[1..][k - 1 := a];
    }
  }

  // ---- The invariant --------------------------------------------------------

  /** What is true of one job in every reachable state. */
  ghost predicate JobInvariant(w: World, j: int)
    requires j in w.server.jobs
  {
    var job, l := w.server.jobs[j], w.ledger;
    var lan, here := IsLan(w.server, job.station), (job.station, j);
    // Conservation: every hand-out is printed, in an agent's hands, or dropped;
    // every print attempt is acknowledged, about to be, or never will be.
    && l.handOuts[j] == l.prints[j] + Held(w.agents, j) + l.dropped[j]
    && l.prints[j] == l.acks[j] + AckingNow(w.agents, j) + w.lateOk[here] + w.lateFailed[here] + l.unacked[j]
    && l.confirmed[j] <= l.copies[j] <= l.prints[j]
    && l.handOuts[j] + (if job.status == Queued then 1 else 0) <= 1 + l.retries[j]
    && job.attempts == l.acks[j] + l.dispatches[j]
    && (job.status == Printed ==> job.printedAt.Some? && l.confirmed[j] + l.lanCopies[j] >= 1)
    && (w.lateOk[here] > 0 ==> l.confirmed[j] > 0)
    && l.lanCopies[j] <= l.dispatches[j] + l.aborted[j]
    && (lan ==> job.status != Queued && job.status != Sent && l.handOuts[j] == 0 && l.dispatches[j] == 1 + l.retries[j])
    && (!lan ==> l.dispatches[j] == l.aborted[j] == 0)
  }

  /** A job the agent holds or reports on is one its own station was given. */
  ghost predicate Knows(w: World, station: int, j: int) {
    j in w.server.jobs && w.server.jobs[j].station == station && Authorised(w.server, station)
  }

  ghost predicate AgentInvariant(w: World, a: Agent) {
    && (forall j :: j in InHand(a.phase) ==> Knows(w, a.station, j))
    && (a.phase.Acking? ==> Knows(w, a.station, a.phase.job) && (a.phase.ok ==> w.ledger.confirmed[a.phase.job] > 0))
  }

  /** Nothing ever happened to a job whose id is still to be given out. */
  ghost predicate Untouched(w: World, j: int) {
    var l := w.ledger;
    j >= w.server.nextId ==>
    && l.handOuts[j] == l.prints[j] == l.copies[j] == l.confirmed[j] == l.dropped[j] == 0
    && l.acks[j] == l.unacked[j] == l.retries[j] == l.dispatches[j] == l.aborted[j] == l.lanCopies[j] == 0
  }

  ghost predicate Invariant(w: World) {
    && (forall j :: j in w.server.jobs ==> j < w.server.nextId && JobInvariant(w, j))
    && (forall j :: j !in w.server.jobs ==> Untouched(w, j))
    && (forall k :: 0 <= k < |w.agents| ==> AgentInvariant(w, w.agents[k]))
    && (forall station, j :: (station, j) in w.lateOk || (station, j) in w.lateFailed ==> Knows(w, station, j))
  }

  // ---- Every step keeps it ----------------------------------------------------

  /** The jobs and their stations survive, and no confirmation is forgotten. */
  ghost predicate Extends(w: World, next: World) {
    && next.server.stations == w.server.stations
    && (forall j ::
        j in w.server.jobs ==> j in next.server.jobs && next.server.jobs[j].station == w.server.jobs[j].station)
    && (forall j :: w.ledger.confirmed[j] <= next.ledger.confirmed[j])
  }

  lemma AgentCarries(w: World, next: World, a: Agent)
    requires AgentInvariant(w, a) && Extends(w, next)
    ensures AgentInvariant(next, a)
  {
    forall j | j in InHand(a.phase) ensures Knows(next, a.station, j) {
      assert Knows(w, a.station, j);
    }
  }

  lemma BatchSplits(batch: seq<int>)
    requires batch != []
    ensures multiset(batch) == multiset{batch[0]} + multiset(batch[1..])
  {
    assert batch == [batch[0]] + batch[1..];
  }

  // Each kind of step, seen from one job.

  lemma MoveJob(w: World, k: nat, phase: Phase, j: int)
    requires j in w.server.jobs && JobInvariant(w, j) && k < |w.agents|
    requires InHand(phase) == InHand(w.agents[k].phase) && !phase.Acking? && !w.agents[k].phase.Acking?
    ensures JobInvariant(Move(w, k, phase), j)
  {
    HeldAfterMove(w.agents, k, w.agents[k].(phase := phase), j);
  }

  lemma DroppedJob(w: World, k: nat, j: int)
    requires j in w.server.jobs && JobInvariant(w, j) && k < |w.agents| && !w.agents[k].phase.Acking?
    ensures JobInvariant(Dropped(w, k), j)
  {
    HeldAfterMove(w.agents, k, w.agents[k].(phase := Idle), j);
  }

  lemma TriedJob(w: World, k: nat, reported: bool, onPaper: bool, j: int)
    requires j in w.server.jobs && JobInvariant(w, j)
    requires k < |w.agents| && w.agents[k].phase.Working? && w.agents[k].phase.batch != [] && (reported ==> onPaper)
    ensures JobInvariant(Tried(w, k, reported, onPaper), j)
  {
    var batch := w.agents[k].phase.batch;
    BatchSplits(batch);
    HeldAfterMove(w.agents, k, w.agents[k].(phase := Acking(batch[0], reported, batch[1..])), j);
  }

  lemma ThrownJob(w: World, k: nat, onPaper: bool, j: int)
    requires j in w.server.jobs && JobInvariant(w, j)
    requires k < |w.agents| && w.agents[k].phase.Working? && w.agents[k].phase.batch != []
    ensures JobInvariant(Thrown(w, k, onPaper), j)
  {
    BatchSplits(w.agents[k].phase.batch);
    HeldAfterMove(w.agents, k, w.agents[k].(phase := Idle), j);
  }

  lemma GivenUpJob(w: World, k: nat, j: int)
    requires j in w.server.jobs && JobInvariant(w, j)
    requires k < |w.agents| && w.agents[k].phase.Acking? && AgentInvariant(w, w.agents[k])
    ensures JobInvariant(GivenUp(w, k), j)
  {
    HeldAfterMove(w.agents, k, w.agents[k].(phase := Idle), j);
  }

  lemma PolledJob(w: World, k: nat, handed: seq<int>, now: int, j: int)
    requires j in w.server.jobs && JobInvariant(w, j)
    requires k < |w.agents| && w.agents[k].phase.Idle? && Authorised(w.server, w.agents[k].station)
    requires multiset(handed) == multiset(Waiting(w.server, w.agents[k].station))
    ensures j in Polled(w, k, handed, now).server.jobs && JobInvariant(Polled(w, k, handed, now), j)
  {
    HeldAfterMove(w.agents, k, w.agents[k].(phase := Replying(handed)), j);
    assert multiset(handed)[j] == if j in Waiting(w.server, w.agents[k].station) then 1 else 0;
  }

  lemma AcknowledgedJob(w: World, k: nat, error: Option<string>, now: int, j: int)
    requires j in w.server.jobs && JobInvariant(w, j)
    requires k < |w.agents| && w.agents[k].phase.Acking? && AgentInvariant(w, w.agents[k])
    ensures j in Acknowledged(w, k, error, now).server.jobs && JobInvariant(Acknowledged(w, k, error, now), j)
  {
    HeldAfterMove(w.agents, k, w.agents[k].(phase := Acked(w.agents[k].phase.rest)), j);
  }

  lemma LateJob(w: World, station: int, job: int, ok: bool, error: Option<string>, now: int, j: int)
    requires j in w.server.jobs && JobInvariant(w, j) && Knows(w, station, job)
    requires (station, job) in if ok then w.lateOk else w.lateFailed
    ensures j in AcknowledgedLate(w, station, job, ok, error, now).server.jobs
    ensures JobInvariant(AcknowledgedLate(w, station, job, ok, error, now), j)
    ensures JobInvariant(Forgotten(w, station, job, ok), j)
  {
  }

  lemma RetriedJob(w: World, id: int, send: Send, now: int, j: int)
    requires j in w.server.jobs && JobInvariant(w, j)
    ensures j in Retried(w, id, send, now).server.jobs && JobInvariant(Retried(w, id, send, now), j)
  {
    if id != j {
      RetriedElsewhere(w, id, send, now, j);
    } else if IsLan(w.server, w.server.jobs[j].station) {
      RetriedLan(w, send, now, j);
    }
  }

  lemma RetriedElsewhere(w: World, id: int, send: Send, now: int, j: int)
    requires j in w.server.jobs && JobInvariant(w, j) && id != j
    ensures JobInvariant(Retried(w, id, send, now), j)
  {
    var next := Retried(w, id, send, now);
    assert next.server.jobs[j] == w.server.jobs[j] && next.server.stations == w.server.stations;
  }

  lemma RetriedLan(w: World, send: Send, now: int, j: int)
    requires j in w.server.jobs && JobInvariant(w, j) && IsLan(w.server, w.server.jobs[j].station)
    ensures JobInvariant(Retried(w, j, send, now), j)
  {
  }

  lemma EnqueuedJob(w: World, station: int, payload: string, send: Send, now: int, j: int)
    requires j in w.server.jobs ==> j < w.server.nextId && JobInvariant(w, j)
    requires j !in w.server.jobs ==> Untouched(w, j) && Held(w.agents, j) == AckingNow(w.agents, j) == 0
    requires j !in w.server.jobs ==> forall here :: (here, j) !in w.lateOk && (here, j) !in w.lateFailed
    ensures var next := Enqueued(w, station, payload, send, now);
      if j in next.server.jobs then j < next.server.nextId && JobInvariant(next, j) else Untouched(next, j)
    requires w.server.nextId !in w.server.jobs
  {
  }

  // All parts together.

  lemma NotInHand(a: Agent, w: World, j: int)
    requires AgentInvariant(w, a) && j !in w.server.jobs
    ensures multiset(InHand(a.phase))[j] == 0 && AckingOne(a.phase, j) == 0
  {
    assert j !in InHand(a.phase);
  }

  lemma {:induction false} NothingHeld(w: World, agents: seq<Agent>, j: int)
    requires forall k :: 0 <= k < |agents| ==> AgentInvariant(w, agents[k])
    requires j !in w.server.jobs
    ensures Held(agents, j) == 0 && AckingNow(agents, j) == 0
  {
    if agents != [] {
      NotInHand(agents[0], w, j);
      NothingHeld(w, agents[1..], j);
    }
  }

  /** The jobs' part of the invariant. */
  ghost predicate JobsFine(w: World) {
    && (forall j :: j in w.server.jobs ==> j < w.server.nextId && JobInvariant(w, j))
    && (forall j :: j !in w.server.jobs ==> Untouched(w, j))
  }

  ghost predicate LateKnown(w: World) {
    forall station, j :: (station, j) in w.lateOk || (station, j) in w.lateFailed ==> Knows(w, station, j)
  }

  /** Everything but the jobs follows when at most one agent moved and nothing was forgotten. */
  lemma Assemble(w: World, next: World, k: nat)
    requires Invariant(w) && Extends(w, next) && JobsFine(next) && LateKnown(next)
    requires |next.agents| == |w.agents|
    requires forall i :: 0 <= i < |w.agents| && i != k ==> next.agents[i] == w.agents[i]
    requires k < |w.agents| ==> AgentInvariant(next, next.agents[k])
    ensures Invariant(next)
  {
    forall i | 0 <= i < |next.agents| ensures AgentInvariant(next, next.agents[i]) {
      if i != k { AgentCarries(w, next, w.agents[i]); }
    }
  }

  /** An agent that keeps only part of what it held, reporting nothing new, keeps its invariant. */
  lemma KeepsPart(w: World, next: World, a: Agent, b: Agent)
    requires AgentInvariant(w, a) && Extends(w, next) && b.station == a.station && !b.phase.Acking?
    requires forall x :: x in InHand(b.phase) ==> x in InHand(a.phase)
    ensures AgentInvariant(next, b)
  {
    forall j | j in InHand(b.phase) ensures Knows(next, b.station, j) {
      assert Knows(w, a.station, j);
    }
  }

  lemma LateCarries(w: World, next: World)
    requires LateKnown(w) && Extends(w, next) && next.lateOk <= w.lateOk && next.lateFailed <= w.lateFailed
    ensures LateKnown(next)
  {
    forall station, j | (station, j) in next.lateOk || (station, j) in next.lateFailed
      ensures Knows(next, station, j)
    {
      assert Knows(w, station, j);
    }
  }

  lemma MoveKeeps(w: World, k: nat, phase: Phase)
    requires Invariant(w) && k < |w.agents|
    requires InHand(phase) == InHand(w.agents[k].phase) && !phase.Acking? && !w.agents[k].phase.Acking?
    ensures Invariant(Move(w, k, phase))
  {
    var next := Move(w, k, phase);
    forall j | j in w.server.jobs ensures JobInvariant(next, j) { MoveJob(w, k, phase, j); }
    assert AgentInvariant(w, w.agents[k]);
    KeepsPart(w, next, w.agents[k], next.agents[k]);
    LateCarries(w, next);
    Assemble(w, next, k);
  }

  lemma DroppedKeeps(w: World, k: nat)
    requires Invariant(w) && k < |w.agents| && !w.agents[k].phase.Acking?
    ensures Invariant(Dropped(w, k))
  {
    var next := Dropped(w, k);
    forall j | j in w.server.jobs ensures JobInvariant(next, j) { DroppedJob(w, k, j); }
    assert AgentInvariant(w, w.agents[k]);
    forall j | j !in w.server.jobs ensures Untouched(next, j) { NotInHand(w.agents[k], w, j); }
    KeepsPart(w, next, w.agents[k], next.agents[k]);
    LateCarries(w, next);
    Assemble(w, next, k);
  }

  lemma TriedJobs(w: World, k: nat, reported: bool, onPaper: bool)
    requires Invariant(w) && k < |w.agents| && w.agents[k].phase.Working? && w.agents[k].phase.batch != []
        && (reported ==> onPaper)
    ensures JobsFine(Tried(w, k, reported, onPaper))
  {
    var job := w.agents[k].phase.batch[0];
    assert AgentInvariant(w, w.agents[k]) && job in InHand(w.agents[k].phase);
    forall j | j in w.server.jobs ensures JobInvariant(Tried(w, k, reported, onPaper), j) {
      TriedJob(w, k, reported, onPaper, j);
    }
  }

  lemma TriedAgent(w: World, k: nat, reported: bool, onPaper: bool)
    requires Invariant(w) && k < |w.agents| && w.agents[k].phase.Working? && w.agents[k].phase.batch != []
    ensures var next := Tried(w, k, reported, onPaper); AgentInvariant(next, next.agents[k])
  {
    var next, a := Tried(w, k, reported, onPaper), w.agents[k];
    assert AgentInvariant(w, a) && Knows(w, a.station, a.phase.batch[0]);
    forall j | j in a.phase.batch[1..] ensures Knows(next, a.station, j) {
      assert j in InHand(a.phase) && Knows(w, a.station, j);
    }
  }

  lemma TriedKeeps(w: World, k: nat, reported: bool, onPaper: bool)
    requires Invariant(w) && k < |w.agents| && w.agents[k].phase.Working? && w.agents[k].phase.batch != []
    requires reported ==> onPaper
    ensures Invariant(Tried(w, k, reported, onPaper))
  {
    var next := Tried(w, k, reported, onPaper);
    TriedJobs(w, k, reported, onPaper);
    TriedAgent(w, k, reported, onPaper);
    LateCarries(w, next);
    Assemble(w, next, k);
  }

  lemma ThrownJobs(w: World, k: nat, onPaper: bool)
    requires Invariant(w) && k < |w.agents| && w.agents[k].phase.Working? && w.agents[k].phase.batch != []
    ensures JobsFine(Thrown(w, k, onPaper))
  {
    var a := w.agents[k];
    assert AgentInvariant(w, a) && a.phase.batch[0] in InHand(a.phase);
    BatchSplits(a.phase.batch);
    forall j | j in w.server.jobs ensures JobInvariant(Thrown(w, k, onPaper), j) { ThrownJob(w, k, onPaper, j); }
    forall j | j !in w.server.jobs ensures Untouched(Thrown(w, k, onPaper), j) { NotInHand(a, w, j); }
  }

  lemma ThrownKeeps(w: World, k: nat, onPaper: bool)
    requires Invariant(w) && k < |w.agents| && w.agents[k].phase.Working? && w.agents[k].phase.batch != []
    ensures Invariant(Thrown(w, k, onPaper))
  {
    var next := Thrown(w, k, onPaper);
    ThrownJobs(w, k, onPaper);
    LateCarries(w, next);
    Assemble(w, next, k);
  }

  lemma GivenUpJobs(w: World, k: nat)
    requires Invariant(w) && k < |w.agents| && w.agents[k].phase.Acking?
    ensures JobsFine(GivenUp(w, k))
  {
    assert AgentInvariant(w, w.agents[k]);
    forall j | j in w.server.jobs ensures JobInvariant(GivenUp(w, k), j) { GivenUpJob(w, k, j); }
    forall j | j !in w.server.jobs ensures Untouched(GivenUp(w, k), j) { NotInHand(w.agents[k], w, j); }
  }

  lemma GivenUpKeeps(w: World, k: nat)
    requires Invariant(w) && k < |w.agents| && w.agents[k].phase.Acking?
    ensures Invariant(GivenUp(w, k))
  {
    var next, a := GivenUp(w, k), w.agents[k];
    GivenUpJobs(w, k);
    assert AgentInvariant(w, a);
    forall station, j | (station, j) in next.lateOk || (station, j) in next.lateFailed
      ensures Knows(next, station, j)
    {
      assert (station, j) in w.lateOk || (station, j) in w.lateFailed ==> Knows(w, station, j);
    }
    Assemble(w, next, k);
  }

  lemma PolledJobs(w: World, k: nat, handed: seq<int>, now: int)
    requires Invariant(w) && k < |w.agents| && w.agents[k].phase.Idle? && Authorised(w.server, w.agents[k].station)
    requires multiset(handed) == multiset(Waiting(w.server, w.agents[k].station))
    ensures JobsFine(Polled(w, k, handed, now))
  {
    var next, station := Polled(w, k, handed, now), w.agents[k].station;
    forall j | j in w.server.jobs ensures JobInvariant(next, j) { PolledJob(w, k, handed, now, j); }
    forall j | j !in w.server.jobs ensures Untouched(next, j) {
      assert j !in Waiting(w.server, station);
      assert multiset(handed)[j] == 0;
    }
  }

  lemma PolledKeeps(w: World, k: nat, handed: seq<int>, now: int)
    requires Invariant(w) && k < |w.agents| && w.agents[k].phase.Idle? && Authorised(w.server, w.agents[k].station)
    requires multiset(handed) == multiset(Waiting(w.server, w.agents[k].station))
    ensures Invariant(Polled(w, k, handed, now))
  {
    var next, station := Polled(w, k, handed, now), w.agents[k].station;
    PolledJobs(w, k, handed, now);
    forall j | j in handed ensures Knows(next, station, j) {
      assert j in multiset(handed);
      assert j in Waiting(w.server, station);
    }
    LateCarries(w, next);
    Assemble(w, next, k);
  }

  lemma AcknowledgedJobs(w: World, k: nat, error: Option<string>, now: int)
    requires Invariant(w) && k < |w.agents| && w.agents[k].phase.Acking?
    ensures JobsFine(Acknowledged(w, k, error, now))
  {
    assert AgentInvariant(w, w.agents[k]);
    forall j | j in w.server.jobs ensures JobInvariant(Acknowledged(w, k, error, now), j) {
      AcknowledgedJob(w, k, error, now, j);
    }
  }

  lemma AcknowledgedKeeps(w: World, k: nat, error: Option<string>, now: int)
    requires Invariant(w) && k < |w.agents| && w.agents[k].phase.Acking?
    ensures Invariant(Acknowledged(w, k, error, now))
  {
    var next, a := Acknowledged(w, k, error, now), w.agents[k];
    AcknowledgedJobs(w, k, error, now);
    assert AgentInvariant(w, a);
    KeepsPart(w, next, a, next.agents[k]);
    LateCarries(w, next);
    Assemble(w, next, k);
  }

  lemma LateKeeps(w: World, station: int, job: int, ok: bool, error: Option<string>, now: int)
    requires Invariant(w) && (station, job) in if ok then w.lateOk else w.lateFailed
    ensures Invariant(AcknowledgedLate(w, station, job, ok, error, now))
  {
    var next := AcknowledgedLate(w, station, job, ok, error, now);
    assert Knows(w, station, job);
    forall j | j in w.server.jobs ensures JobInvariant(next, j) {
      LateJob(w, station, job, ok, error, now, j);
    }
    LateCarries(w, next);
    Assemble(w, next, |w.agents|);
  }

  lemma ForgottenJobs(w: World, station: int, job: int, ok: bool)
    requires Invariant(w) && (station, job) in if ok then w.lateOk else w.lateFailed
    ensures JobsFine(Forgotten(w, station, job, ok))
  {
    assert Knows(w, station, job);
    forall j | j in w.server.jobs ensures JobInvariant(Forgotten(w, station, job, ok), j) {
      LateJob(w, station, job, ok, None, 0, j);
    }
  }

  lemma ForgottenKeeps(w: World, station: int, job: int, ok: bool)
    requires Invariant(w) && (station, job) in if ok then w.lateOk else w.lateFailed
    ensures Invariant(Forgotten(w, station, job, ok))
  {
    var next := Forgotten(w, station, job, ok);
    ForgottenJobs(w, station, job, ok);
    LateCarries(w, next);
    Assemble(w, next, |w.agents|);
  }

  lemma RetriedJobs(w: World, id: int, send: Send, now: int)
    requires Invariant(w)
    ensures JobsFine(Retried(w, id, send, now))
  {
    var next := Retried(w, id, send, now);
    assert next.server.jobs.Keys == w.server.jobs.Keys && next.server.nextId == w.server.nextId;
    forall j | j in w.server.jobs ensures JobInvariant(next, j) {
      RetriedJob(w, id, send, now, j);
    }
    forall j | j !in w.server.jobs ensures Untouched(next, j) {
      assert Untouched(w, j);
    }
  }

  lemma RetriedKeeps(w: World, id: int, send: Send, now: int)
    requires Invariant(w)
    ensures Invariant(Retried(w, id, send, now))
  {
    var next := Retried(w, id, send, now);
    RetriedJobs(w, id, send, now);
    LateCarries(w, next);
    Assemble(w, next, |w.agents|);
  }

  lemma CancelKeeps(w: World, id: int)
    requires Invariant(w)
    ensures Invariant(w.(server := PrintQueue.Cancel(w.server, id)))
  {
    var next := w.(server := PrintQueue.Cancel(w.server, id));
    forall j | j in w.server.jobs ensures JobInvariant(next, j) { assert JobInvariant(w, j); }
    LateCarries(w, next);
    Assemble(w, next, |w.agents|);
  }

  lemma EnqueuedKeeps(w: World, station: int, payload: string, send: Send, now: int)
    requires Invariant(w)
    ensures Invariant(Enqueued(w, station, payload, send, now))
  {
    var next := Enqueued(w, station, payload, send, now);
    assert w.server.nextId !in w.server.jobs;
    forall j
      ensures if j in next.server.jobs then j < next.server.nextId && JobInvariant(next, j) else Untouched(next, j)
    {
      if j !in w.server.jobs {
        NothingHeld(w, w.agents, j);
        assert forall here :: (here, j) in w.lateOk || (here, j) in w.lateFailed ==> Knows(w, here, j);
      }
      EnqueuedJob(w, station, payload, send, now, j);
    }
    LateCarries(w, next);
    Assemble(w, next, |w.agents|);
  }

  lemma AgentNextKeeps(w: World, x: Step)
    requires Invariant(w) && Enabled(w, x) && AgentSide(x)
    ensures Invariant(AgentNext(w, x))
  {
    match x
    case ReplyArrives(k) => MoveKeeps(w, k, Working(w.agents[k].phase.batch));
    case Print(k, reported, onPaper) => TriedKeeps(w, k, reported, onPaper);
    case PrintThrows(k, onPaper) => ThrownKeeps(w, k, onPaper);
    case Finish(k) => MoveKeeps(w, k, Idle);
    case AckReplyArrives(k) => MoveKeeps(w, k, Working(w.agents[k].phase.rest));
    case Abandon(k) => if w.agents[k].phase.Acking? { GivenUpKeeps(w, k); } else { DroppedKeeps(w, k); }
  }

  lemma ServerNextKeeps(w: World, x: Step)
    requires Invariant(w) && Enabled(w, x) && !AgentSide(x)
    ensures Invariant(ServerNext(w, x))
  {
    match x
    case Enqueue(station, payload, send, now) => EnqueuedKeeps(w, station, payload, send, now);
    case Poll(k, handed, now) => PolledKeeps(w, k, handed, now);
    case AckArrives(k, error, now) => AcknowledgedKeeps(w, k, error, now);
    case LateAckArrives(station, job, ok, error, now) => LateKeeps(w, station, job, ok, error, now);
    case LateAckLost(station, job, ok) => ForgottenKeeps(w, station, job, ok);
    case Retry(id, send, now) => RetriedKeeps(w, id, send, now);
    case Cancel(id) => CancelKeeps(w, id);
  }

  /** One step, whatever it is, keeps the invariant. */
  lemma StepKeeps(w: World, x: Step)
    requires Invariant(w)
    ensures Invariant(Next(w, x))
  {
    if Enabled(w, x) {
      if AgentSide(x) { AgentNextKeeps(w, x); } else { ServerNextKeeps(w, x); }
    }
  }

  lemma {:induction false} RunKeeps(w: World, steps: seq<Step>)
    requires Invariant(w)
    ensures Invariant(Run(w, steps))
    decreases |steps|
  {
    if steps != [] {
      StepKeeps(w, steps[0]);
      RunKeeps(Next(w, steps[0]), steps[1..]);
    }
  }

  // ---- What every run guarantees ----------------------------------------------

  /** No jobs yet, every agent waiting to poll. */
  ghost predicate Starts(w: World) {
    && w.server.jobs == map[]
    && (forall k :: 0 <= k < |w.agents| ==> w.agents[k].phase.Idle?)
    && w.lateOk == w.lateFailed == multiset{}
    && w.ledger == Ledger(multiset{}, multiset{}, multiset{}, multiset{}, multiset{},
                          multiset{}, multiset{}, multiset{}, multiset{}, multiset{}, multiset{})
  }

  /** However messages are lost and batches abandoned: copies <= print attempts <= hand-outs <= 1 + retries. */
  lemma AtMostOncePerRequest(w: World, steps: seq<Step>, j: int)
    requires Starts(w) && j in Run(w, steps).server.jobs
    ensures var l := Run(w, steps).ledger;
      l.copies[j] <= l.prints[j] <= l.handOuts[j] <= 1 + l.retries[j]
    ensures var end := Run(w, steps);
      IsLan(end.server, end.server.jobs[j].station) ==>
        && end.ledger.handOuts[j] == 0 && end.ledger.dispatches[j] == 1 + end.ledger.retries[j]
        && end.ledger.lanCopies[j] <= end.ledger.dispatches[j] + end.ledger.aborted[j]
  {
    RunKeeps(w, steps);
    assert JobInvariant(Run(w, steps), j);
  }

  /**
    A job marked printed was really printed, its attempts are what was reported or dispatched,
    and LAN jobs never wait.
   */
  lemma PrintedIsTruthful(w: World, steps: seq<Step>, j: int)
    requires Starts(w) && j in Run(w, steps).server.jobs
    ensures var end := Run(w, steps); var job := end.server.jobs[j];
      && (job.status == Printed ==> job.printedAt.Some? && end.ledger.copies[j] + end.ledger.lanCopies[j] >= 1)
      && job.attempts == end.ledger.acks[j] + end.ledger.dispatches[j]
      && end.ledger.acks[j] <= end.ledger.prints[j]
      && (IsLan(end.server, job.station) ==> job.status != Queued && job.status != Sent)
  {
    RunKeeps(w, steps);
    assert JobInvariant(Run(w, steps), j);
  }

  /** What a step other than a retry of `j` can do to job `j`. */
  ghost predicate Quiet(w: World, next: World, j: int)
    requires j in w.server.jobs
  {
    && j in next.server.jobs
    && (w.server.jobs[j].status != Queued ==>
          next.server.jobs[j].status != Queued && next.ledger.handOuts[j] == w.ledger.handOuts[j])
    && next.ledger.prints[j] >= w.ledger.prints[j] && next.ledger.dropped[j] >= w.ledger.dropped[j]
    && next.ledger.acks[j] >= w.ledger.acks[j] && next.ledger.unacked[j] >= w.ledger.unacked[j]
    && (next.server.jobs[j].status == Printed && w.server.jobs[j].status != Printed ==>
          next.ledger.acks[j] > w.ledger.acks[j])
  }

  lemma AgentNextQuiet(w: World, x: Step, j: int)
    requires Enabled(w, x) && AgentSide(x) && j in w.server.jobs
    ensures Quiet(w, AgentNext(w, x), j)
  {
  }

  lemma EnqueuedQuiet(w: World, station: int, payload: string, send: Send, now: int, j: int)
    requires j in w.server.jobs && w.server.nextId !in w.server.jobs
    ensures Quiet(w, Enqueued(w, station, payload, send, now), j)
  {
  }

  lemma PolledQuiet(w: World, k: nat, handed: seq<int>, now: int, j: int)
    requires j in w.server.jobs && k < |w.agents|
    requires multiset(handed) == multiset(Waiting(w.server, w.agents[k].station))
    ensures Quiet(w, Polled(w, k, handed, now), j)
  {
    assert multiset(handed)[j] == if j in Waiting(w.server, w.agents[k].station) then 1 else 0;
  }

  lemma AcknowledgedQuiet(w: World, k: nat, error: Option<string>, now: int, j: int)
    requires j in w.server.jobs && k < |w.agents| && w.agents[k].phase.Acking?
    ensures Quiet(w, Acknowledged(w, k, error, now), j)
  {
  }

  lemma LateQuiet(w: World, station: int, job: int, ok: bool, error: Option<string>, now: int, j: int)
    requires j in w.server.jobs
    ensures Quiet(w, AcknowledgedLate(w, station, job, ok, error, now), j)
    ensures Quiet(w, Forgotten(w, station, job, ok), j)
  {
  }

  lemma RetriedQuiet(w: World, id: int, send: Send, now: int, j: int)
    requires j in w.server.jobs && id != j
    ensures Quiet(w, Retried(w, id, send, now), j)
  {
  }

  lemma ServerNextQuiet(w: World, x: Step, j: int)
    requires Enabled(w, x) && !AgentSide(x) && j in w.server.jobs && w.server.nextId !in w.server.jobs
    requires !(x.Retry? && x.id == j)
    ensures Quiet(w, ServerNext(w, x), j)
  {
    match x
    case Enqueue(station, payload, send, now) => EnqueuedQuiet(w, station, payload, send, now, j);
    case Poll(k, handed, now) => PolledQuiet(w, k, handed, now, j);
    case AckArrives(k, error, now) => AcknowledgedQuiet(w, k, error, now, j);
    case LateAckArrives(station, job, ok, error, now) => LateQuiet(w, station, job, ok, error, now, j);
    case LateAckLost(station, job, ok) => LateQuiet(w, station, job, ok, None, 0, j);
    case Retry(id, send, now) => RetriedQuiet(w, id, send, now, j);
    case Cancel(id) =>
  }

  lemma NextQuiet(w: World, x: Step, j: int)
    requires j in w.server.jobs && w.server.nextId !in w.server.jobs && !(x.Retry? && x.id == j)
    ensures Quiet(w, Next(w, x), j)
  {
    if Enabled(w, x) {
      if AgentSide(x) { AgentNextQuiet(w, x, j); } else { ServerNextQuiet(w, x, j); }
    }
  }

  lemma QuietChain(w: World, middle: World, end: World, j: int)
    requires j in w.server.jobs && w.server.jobs[j].status != Queued
    requires Quiet(w, middle, j) && Quiet(middle, end, j)
    ensures Quiet(w, end, j)
  {
  }

  ghost predicate NeverRetries(steps: seq<Step>, j: int) {
    forall n :: 0 <= n < |steps| ==> !(steps[n].Retry? && steps[n].id == j)
  }

  /** Between retries a job that has left the queue is not handed out again, whether sent, done or cancelled. */
  lemma {:induction false} OnlyARetryRequeues(w: World, steps: seq<Step>, j: int)
    requires Invariant(w) && j in w.server.jobs && w.server.jobs[j].status != Queued
    requires NeverRetries(steps, j)
    ensures Quiet(w, Run(w, steps), j)
    decreases |steps|
  {
    if steps != [] {
      NextQuiet(w, steps[0], j);
      StepKeeps(w, steps[0]);
      OnlyARetryRequeues(Next(w, steps[0]), steps[1..], j);
      QuietChain(w, Next(w, steps[0]), Run(w, steps), j);
    }
  }

  // ---- What can still be printed ----------------------------------------------

  /** The agent may still print the job, or is reporting that it did. */
  predicate InReach(p: Phase, j: int) { j in InHand(p) || (p.Acking? && p.job == j && p.ok) }

  ghost predicate CanStillPrint(w: World, j: int) {
    || (exists k :: 0 <= k < |w.agents| && InReach(w.agents[k].phase, j))
    || (exists station :: (station, j) in w.lateOk)
  }

  ghost predicate Hopeless(w: World, j: int) {
    && j in w.server.jobs && w.server.jobs[j].status != Queued && w.server.jobs[j].status != Printed
    && !CanStillPrint(w, j)
  }

  ghost predicate EndsPrinted(w: World, steps: seq<Step>, j: int) {
    var end := Run(w, steps);
    j in end.server.jobs && end.server.jobs[j].status == Printed
  }

  ghost predicate WithoutRetryPrinted(w: World, j: int) {
    exists steps :: NeverRetries(steps, j) && EndsPrinted(w, steps, j)
  }

  lemma FirstStep(w: World, x: Step, rest: seq<Step>, j: int)
    requires NeverRetries(rest, j) && !(x.Retry? && x.id == j) && EndsPrinted(Next(w, x), rest, j)
    ensures NeverRetries([x] + rest, j) && EndsPrinted(w, [x] + rest, j)
  {
    assert ([x] + rest)[1..] == rest;
  }

  lemma LastStep(w: World, x: Step, j: int)
    requires !(x.Retry? && x.id == j) && j in Next(w, x).server.jobs && Next(w, x).server.jobs[j].status == Printed
    ensures NeverRetries([x], j) && EndsPrinted(w, [x], j)
  {
    assert [x][1..] == [];
    assert Run(w, [x]) == Run(Next(w, x), []);
  }

  lemma ReportedIsPrinted(w: World, k: nat, j: int) returns (steps: seq<Step>)
    requires Invariant(w) && k < |w.agents| && w.agents[k].phase.Acking?
    requires w.agents[k].phase.job == j && w.agents[k].phase.ok
    ensures NeverRetries(steps, j) && EndsPrinted(w, steps, j)
  {
    assert AgentInvariant(w, w.agents[k]);
    steps := [AckArrives(k, None, 0)];
    LastStep(w, AckArrives(k, None, 0), j);
  }

  function Rank(p: Phase): nat {
    match p
    case Idle => 0
    case Replying(batch) => 3 * |batch| + 1
    case Working(batch) => 3 * |batch|
    case Acking(_, _, rest) => 3 * |rest| + 2
    case Acked(rest) => 3 * |rest| + 1
  }

  /** Towards the job: the next step of an agent that holds it, printing nothing else successfully. */
  function Towards(p: Phase, k: nat): Step {
    match p
    case Replying(_) => ReplyArrives(k)
    case Working(_) => Print(k, false, false)
    case Acking(_, _, _) => AckArrives(k, None, 0)
    case Acked(_) => AckReplyArrives(k)
    case Idle => Finish(k)
  }

  lemma TowardsMoves(w: World, k: nat, j: int)
    requires k < |w.agents| && j in InHand(w.agents[k].phase)
    requires w.agents[k].phase.Working? ==> w.agents[k].phase.batch[0] != j
    ensures var x := Towards(w.agents[k].phase, k); var next := Next(w, x);
      && Enabled(w, x) && k < |next.agents| && j in InHand(next.agents[k].phase)
      && Rank(next.agents[k].phase) < Rank(w.agents[k].phase)
  {
    if w.agents[k].phase.Working? {
      var batch := w.agents[k].phase.batch;
      assert batch == [batch[0]] + batch[1..];
    }
  }

  lemma {:induction false} HeldCanBePrinted(w: World, k: nat, j: int) returns (steps: seq<Step>)
    requires Invariant(w) && k < |w.agents| && j in InHand(w.agents[k].phase)
    ensures NeverRetries(steps, j) && EndsPrinted(w, steps, j)
    decreases Rank(w.agents[k].phase)
  {
    var p := w.agents[k].phase;
    if p.Working? && p.batch[0] == j {
      var x := Print(k, true, true);
      var next := Next(w, x);
      StepKeeps(w, x);
      assert next.agents[k].phase == Acking(j, true, p.batch[1..]);
      var rest := ReportedIsPrinted(next, k, j);
      FirstStep(w, x, rest, j);
      steps := [x] + rest;
    } else {
      var x := Towards(p, k);
      TowardsMoves(w, k, j);
      StepKeeps(w, x);
      var rest := HeldCanBePrinted(Next(w, x), k, j);
      FirstStep(w, x, rest, j);
      steps := [x] + rest;
    }
  }

  lemma PrintStaysHopeless(w: World, k: nat, reported: bool, onPaper: bool, j: int)
    requires Hopeless(w, j) && k < |w.agents| && w.agents[k].phase.Working? && w.agents[k].phase.batch != []
    ensures Hopeless(Tried(w, k, reported, onPaper), j) && Hopeless(Thrown(w, k, onPaper), j)
    ensures Tried(w, k, reported, onPaper).ledger.prints[j] == Thrown(w, k, onPaper).ledger.prints[j]
        == w.ledger.prints[j]
  {
    var batch := w.agents[k].phase.batch;
    assert !InReach(w.agents[k].phase, j);
    assert batch[0] in batch && forall i :: i in batch[1..] ==> i in batch;
    StaysOutOfReach(w, Tried(w, k, reported, onPaper), k, j);
    StaysOutOfReach(w, Thrown(w, k, onPaper), k, j);
  }

  lemma AbandonStaysHopeless(w: World, k: nat, j: int)
    requires Hopeless(w, j) && k < |w.agents|
    ensures Hopeless(Dropped(w, k), j) && (w.agents[k].phase.Acking? ==> Hopeless(GivenUp(w, k), j))
  {
    assert !InReach(w.agents[k].phase, j);
    StaysOutOfReach(w, Dropped(w, k), k, j);
    if w.agents[k].phase.Acking? { StaysOutOfReach(w, GivenUp(w, k), k, j); }
  }

  lemma AgentStepStaysHopeless(w: World, x: Step, j: int)
    requires Hopeless(w, j) && Enabled(w, x) && AgentSide(x)
    ensures Hopeless(AgentNext(w, x), j) && AgentNext(w, x).ledger.prints[j] == w.ledger.prints[j]
  {
    match x
    case ReplyArrives(k) => StaysOutOfReach(w, AgentNext(w, x), k, j);
    case Print(k, reported, onPaper) => PrintStaysHopeless(w, k, reported, onPaper, j);
    case PrintThrows(k, onPaper) => PrintStaysHopeless(w, k, false, onPaper, j);
    case Finish(k) => StaysOutOfReach(w, AgentNext(w, x), k, j);
    case AckReplyArrives(k) => StaysOutOfReach(w, AgentNext(w, x), k, j);
    case Abandon(k) => AbandonStaysHopeless(w, k, j);
  }

  lemma StaysOutOfReach(w: World, next: World, k: nat, j: int)
    requires Hopeless(w, j) && k < |w.agents| && |next.agents| == |w.agents|
    requires forall i :: 0 <= i < |w.agents| && i != k ==> next.agents[i] == w.agents[i]
    requires InReach(next.agents[k].phase, j) ==> InReach(w.agents[k].phase, j)
    requires forall station :: (station, j) in next.lateOk ==> (station, j) in w.lateOk
    ensures !CanStillPrint(next, j)
  {
    forall i | 0 <= i < |next.agents| ensures !InReach(next.agents[i].phase, j) {
      assert !InReach(w.agents[i].phase, j);
    }
  }

  /** The same agents and late reports, and the job's status as it was or set by someone else. */
  ghost predicate LeftAlone(w: World, next: World, j: int)
    requires j in w.server.jobs
  {
    && next.agents == w.agents && (forall station :: (station, j) in next.lateOk ==> (station, j) in w.lateOk)
    && j in next.server.jobs && next.ledger.prints[j] == w.ledger.prints[j]
    && next.server.jobs[j].status != Queued && next.server.jobs[j].status != Printed
  }

  lemma LeftAloneIsHopeless(w: World, next: World, j: int)
    requires Hopeless(w, j) && LeftAlone(w, next, j)
    ensures Hopeless(next, j)
  {
    if |w.agents| > 0 { StaysOutOfReach(w, next, 0, j); }
  }

  lemma PolledStaysHopeless(w: World, k: nat, handed: seq<int>, now: int, j: int)
    requires Hopeless(w, j) && Enabled(w, Poll(k, handed, now))
    ensures Hopeless(Polled(w, k, handed, now), j) && Polled(w, k, handed, now).ledger.prints[j] == w.ledger.prints[j]
  {
    assert j !in multiset(handed);
    assert j !in handed;
    StaysOutOfReach(w, Polled(w, k, handed, now), k, j);
  }

  lemma AcknowledgedStaysHopeless(w: World, k: nat, error: Option<string>, now: int, j: int)
    requires Hopeless(w, j) && k < |w.agents| && w.agents[k].phase.Acking?
    ensures Hopeless(Acknowledged(w, k, error, now), j)
    ensures Acknowledged(w, k, error, now).ledger.prints[j] == w.ledger.prints[j]
  {
    assert !InReach(w.agents[k].phase, j);
    StaysOutOfReach(w, Acknowledged(w, k, error, now), k, j);
  }

  lemma EnqueuedLeavesAlone(w: World, station: int, payload: string, send: Send, now: int, j: int)
    requires Hopeless(w, j) && w.server.nextId !in w.server.jobs
    ensures LeftAlone(w, Enqueued(w, station, payload, send, now), j)
  {
  }

  lemma LateLeavesAlone(w: World, station: int, job: int, ok: bool, error: Option<string>, now: int, j: int)
    requires Hopeless(w, j) && (station, job) in if ok then w.lateOk else w.lateFailed
    ensures LeftAlone(w, AcknowledgedLate(w, station, job, ok, error, now), j)
    ensures LeftAlone(w, Forgotten(w, station, job, ok), j)
  {
  }

  lemma RetriedLeavesAlone(w: World, id: int, send: Send, now: int, j: int)
    requires Hopeless(w, j) && id != j
    ensures LeftAlone(w, Retried(w, id, send, now), j)
  {
  }

  lemma ServerStepStaysHopeless(w: World, x: Step, j: int)
    requires Hopeless(w, j) && Enabled(w, x) && !AgentSide(x) && !(x.Retry? && x.id == j)
    requires w.server.nextId !in w.server.jobs
    ensures Hopeless(ServerNext(w, x), j) && ServerNext(w, x).ledger.prints[j] == w.ledger.prints[j]
  {
    match x
    case Poll(k, handed, now) => PolledStaysHopeless(w, k, handed, now, j);
    case AckArrives(k, error, now) => AcknowledgedStaysHopeless(w, k, error, now, j);
    case Enqueue(station, payload, send, now) =>
      EnqueuedLeavesAlone(w, station, payload, send, now, j);
      LeftAloneIsHopeless(w, Enqueued(w, station, payload, send, now), j);
    case LateAckArrives(station, job, ok, error, now) =>
      LateLeavesAlone(w, station, job, ok, error, now, j);
      LeftAloneIsHopeless(w, AcknowledgedLate(w, station, job, ok, error, now), j);
    case LateAckLost(station, job, ok) =>
      LateLeavesAlone(w, station, job, ok, None, 0, j);
      LeftAloneIsHopeless(w, Forgotten(w, station, job, ok), j);
    case Retry(id, send, now) =>
      RetriedLeavesAlone(w, id, send, now, j);
      LeftAloneIsHopeless(w, Retried(w, id, send, now), j);
    case Cancel(id) =>
      LeftAloneIsHopeless(w, w.(server := PrintQueue.Cancel(w.server, id)), j);
  }

  lemma StepStaysHopeless(w: World, x: Step, j: int)
    requires Hopeless(w, j) && !(x.Retry? && x.id == j) && w.server.nextId !in w.server.jobs
    ensures Hopeless(Next(w, x), j) && Next(w, x).ledger.prints[j] == w.ledger.prints[j]
  {
    if Enabled(w, x) {
      if AgentSide(x) { AgentStepStaysHopeless(w, x, j); } else { ServerStepStaysHopeless(w, x, j); }
    }
  }

  /** Out of reach, a job is neither printed nor marked printed until somebody retries it. */
  lemma {:induction false} StrandedUntilRetried(w: World, steps: seq<Step>, j: int)
    requires Invariant(w) && Hopeless(w, j) && NeverRetries(steps, j)
    ensures Hopeless(Run(w, steps), j) && Run(w, steps).ledger.prints[j] == w.ledger.prints[j]
    decreases |steps|
  {
    if steps != [] {
      StepStaysHopeless(w, steps[0], j);
      StepKeeps(w, steps[0]);
      StrandedUntilRetried(Next(w, steps[0]), steps[1..], j);
    }
  }

  /**
    Delivery is not guaranteed. A job that has left the queue and is not marked printed
    can still become so without a retry if and only if an agent holds it, is reporting
    its successful print, or such a report is under way.
   */
  lemma PrintableExactly(w: World, j: int)
    requires Invariant(w) && j in w.server.jobs && w.server.jobs[j].status != Queued
        && w.server.jobs[j].status != Printed
    ensures WithoutRetryPrinted(w, j) <==> CanStillPrint(w, j)
  {
    if k :| 0 <= k < |w.agents| && InReach(w.agents[k].phase, j) {
      if j in InHand(w.agents[k].phase) {
        var steps := HeldCanBePrinted(w, k, j);
      } else {
        var steps := ReportedIsPrinted(w, k, j);
      }
    } else if station :| (station, j) in w.lateOk {
      var x := LateAckArrives(station, j, true, None, 0);
      assert Knows(w, station, j);
      LastStep(w, x, j);
    } else if steps :| NeverRetries(steps, j) && EndsPrinted(w, steps, j) {
      StrandedUntilRetried(w, steps, j);
    }
  }

  lemma ThreeSteps(w: World, a: Step, b: Step, c: Step)
    ensures Run(w, [a, b, c]) == Next(Next(Next(w, a), b), c)
  {
    assert [a, b, c][1..] == [b, c] && [b, c][1..] == [c] && [c][1..] == [];
    var w1 := Next(w, a);
    var w2 := Next(w1, b);
    assert Run(w, [a, b, c]) == Run(w1, [b, c]) == Run(w2, [c]) == Run(Next(w2, c), []);
  }

  lemma QueuedAlone(w: World, station: int, payload: string, now: int)
    requires Starts(w) && Authorised(w.server, station)
    ensures var j, next := w.server.nextId, Next(w, Enqueue(station, payload, Delivered, now));
      && next.agents == w.agents && next.lateOk == w.lateOk && next.server.stations == w.server.stations
      && next.server.jobs == map[j := Job(station, Queued, payload, 0, None, None, None)]
      && Waiting(next.server, station) == {j}
  {
  }

  lemma HandedAndLost(w: World, k: nat, j: int, now: int)
    requires k < |w.agents| && w.agents[k].phase.Idle? && Authorised(w.server, w.agents[k].station)
    requires Waiting(w.server, w.agents[k].station) == {j}
    ensures var next := Next(Next(w, Poll(k, [j], now)), Abandon(k));
      && next.agents == w.agents && next.lateOk == w.lateOk
      && j in next.server.jobs && next.server.jobs[j].status == Sent
  {
    assert multiset([j]) == multiset({j});
    var next := Next(w, Poll(k, [j], now));
    assert next.agents[k].phase == Replying([j]);
    assert next.agents[k := next.agents[k].(phase := Idle)] == w.agents;
  }

  /** It happens: queued, handed out, and the reply lost. */
  lemma StrandingIsReachable(w: World, k: nat, payload: string, now: int)
    requires Starts(w) && k < |w.agents| && Authorised(w.server, w.agents[k].station)
    ensures var j := w.server.nextId;
      var end := Run(w, [Enqueue(w.agents[k].station, payload, Delivered, now), Poll(k, [j], now), Abandon(k)]);
      Hopeless(end, j) && end.server.jobs[j].status == Sent && !WithoutRetryPrinted(end, j)
  {
    var j, queue := w.server.nextId, Enqueue(w.agents[k].station, payload, Delivered, now);
    var steps := [queue, Poll(k, [j], now), Abandon(k)];
    ThreeSteps(w, steps[0], steps[1], steps[2]);
    QueuedAlone(w, w.agents[k].station, payload, now);
    HandedAndLost(Next(w, queue), k, j, now);
    RunKeeps(w, steps);
    PrintableExactly(Run(w, steps), j);
  }

  // ---- A retry works ----------------------------------------------------------

  lemma {:induction false} Listing(ids: set<int>) returns (list: seq<int>)
    ensures multiset(list) == multiset(ids)
  {
    if id :| id in ids {
      var rest := Listing(ids - {id});
      list := [id] + rest;
      assert ids == (ids - {id}) + {id};
      assert multiset(ids) == multiset(ids - {id}) + multiset{id};
    } else {
      list := [];
      assert forall x :: x !in ids;
      assert ids == {};
    }
  }

  /** Retried, the job of an agent's station waits for the next poll, whatever became of it before. */
  lemma RetriedWaits(w: World, station: int, j: int, send: Send, now: int)
    requires j in w.server.jobs && w.server.jobs[j].station == station && Authorised(w.server, station)
    ensures var next := Next(w, Retry(j, send, now));
      && next.agents == w.agents && next.server.stations == w.server.stations
      && j in Waiting(next.server, station) && next.ledger.handOuts == w.ledger.handOuts
  {
  }

  lemma PollHandsOut(w: World, k: nat, handed: seq<int>, now: int, j: int)
    requires k < |w.agents| && w.agents[k].phase.Idle? && Authorised(w.server, w.agents[k].station)
    requires multiset(handed) == multiset(Waiting(w.server, w.agents[k].station))
        && j in Waiting(w.server, w.agents[k].station)
    ensures var next := Next(w, Poll(k, handed, now));
      && k < |next.agents| && j in InHand(next.agents[k].phase)
      && next.ledger.handOuts[j] == w.ledger.handOuts[j] + 1
  {
    var next := Next(w, Poll(k, handed, now));
    assert next.agents[k].phase == Replying(handed);
    assert j in multiset(handed);
  }

  /** After a retry an idle agent of the job's station is handed the job once more. */
  lemma RetryIsHandedOut(w: World, k: nat, j: int, send: Send, now: int) returns (handed: seq<int>)
    requires Invariant(w) && k < |w.agents| && w.agents[k].phase.Idle?
    requires j in w.server.jobs && w.server.jobs[j].station == w.agents[k].station
    requires Authorised(w.server, w.agents[k].station)
    ensures var given := Next(Next(w, Retry(j, send, now)), Poll(k, handed, now));
      && j in handed && given.ledger.handOuts[j] == w.ledger.handOuts[j] + 1
      && Invariant(given) && k < |given.agents| && j in InHand(given.agents[k].phase)
  {
    var asked := Next(w, Retry(j, send, now));
    RetriedWaits(w, w.agents[k].station, j, send, now);
    StepKeeps(w, Retry(j, send, now));
    handed := Listing(Waiting(asked.server, w.agents[k].station));
    PollHandsOut(asked, k, handed, now, j);
    assert j in multiset(handed);
    StepKeeps(asked, Poll(k, handed, now));
  }

  lemma TwoFirst(w: World, a: Step, b: Step, rest: seq<Step>)
    ensures Run(w, [a, b] + rest) == Run(Next(Next(w, a), b), rest)
  {
    assert ([a, b] + rest)[1..] == [b] + rest && ([b] + rest)[1..] == rest;
  }

  /** From there, a run without another retry gets it printed and marked printed. */
  lemma RetryCanBePrinted(w: World, k: nat, j: int, send: Send, now: int) returns (handed: seq<int>, rest: seq<Step>)
    requires Invariant(w) && k < |w.agents| && w.agents[k].phase.Idle?
    requires j in w.server.jobs && w.server.jobs[j].station == w.agents[k].station
    requires Authorised(w.server, w.agents[k].station)
    ensures j in handed && NeverRetries(rest, j)
    ensures EndsPrinted(w, [Retry(j, send, now), Poll(k, handed, now)] + rest, j)
  {
    handed := RetryIsHandedOut(w, k, j, send, now);
    rest := HeldCanBePrinted(Next(Next(w, Retry(j, send, now)), Poll(k, handed, now)), k, j);
    TwoFirst(w, Retry(j, send, now), Poll(k, handed, now), rest);
  }
}
