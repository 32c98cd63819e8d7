/**
  The server side of printing: the print-job table, the routes that change it and
  the direct dispatch to LAN printers (backend/app/routers/print_jobs.py,
  backend/app/services/printing.py).
 */
module PrintQueue {
  import opened Wrappers
  import Collections

  datatype JobStatus = Queued | Sent | Printed | Failed | Cancelled

  datatype Connection = LanEscpos | UsbAgent

  datatype Station = Station(connection: Connection, active: bool)

  datatype Job = Job(station: int, status: JobStatus, payload: string, attempts: nat,
                     lastError: Option<string>, sentAt: Option<int>, printedAt: Option<int>)

  datatype Server = Server(stations: map<int, Station>, jobs: map<int, Job>, nextId: int)

  /**
    What happened on the socket to a LAN printer: sent, a refused, broken or timed-out
    connection, or another exception. After the last two paper may have come out all the same.
   */
  datatype Send = Delivered | Refused(error: string, printed: bool) | Crashed(printed: bool)
  {
    predicate OnPaper() { Delivered? || printed }
  }

  predicate IsLan(s: Server, station: int) {
    station in s.stations && s.stations[station].connection.LanEscpos?
  }

  /** A station key is accepted for an active station with a Windows agent only. */
  predicate Authorised(s: Server, station: int) {
    station in s.stations && s.stations[station] == Station(UsbAgent, true)
  }

  /** What every request keeps of a job. */
  predicate SoundJob(s: Server, job: Job) {
    && (job.status == Printed ==> job.printedAt.Some?)
    && (IsLan(s, job.station) ==>
          && (job.status == Printed || job.status == Failed || job.status == Cancelled)
          && job.attempts >= 1
          && (job.status == Failed ==> job.lastError.Some?)
          && (job.status == Printed ==> job.sentAt.Some?))
  }

  predicate Sound(s: Server) {
    forall id :: id in s.jobs ==> id < s.nextId && SoundJob(s, s.jobs[id])
  }

  // ---- The routes as functions ----------------------------------------------

  function Dispatched(job: Job, send: Send, now: int): Job {
    var tried := job.(attempts := job.attempts + 1);
    match send
    case Delivered => tried.(status := Printed, sentAt := Some(now), printedAt := Some(now))
    case Refused(error, _) => tried.(status := Failed, lastError := Some(error))
    case Crashed(_) => tried
  }

  /** An exception other than a refused or timed-out connection leaves nothing committed. */
  predicate RolledBack(s: Server, station: int, send: Send) {
    IsLan(s, station) && send.Crashed?
  }

  predicate Accepts(s: Server, station: int) { station in s.stations && s.stations[station].active }

  predicate CanEnqueue(s: Server, station: int, send: Send) { Accepts(s, station) && !RolledBack(s, station, send) }

  /** A rolled-back request leaves no job, but its id is used up. */
  function Enqueue(s: Server, station: int, payload: string, send: Send, now: int): Server {
    if !Accepts(s, station) then s
    else if RolledBack(s, station, send) then s.(nextId := s.nextId + 1)
    else
      var job := Job(station, Queued, payload, 0, None, None, None);
      s.(nextId := s.nextId + 1,
         jobs := s.jobs[s.nextId := if IsLan(s, station) then Dispatched(job, send, now) else job])
  }

  /** The queued jobs of a station. */
  function Waiting(s: Server, station: int): set<int> {
    set id | id in s.jobs && s.jobs[id].station == station && s.jobs[id].status == Queued
  }

  function Marked(jobs: map<int, Job>, ids: set<int>, now: int): map<int, Job> {
    map id | id in jobs :: if id in ids then jobs[id].(status := Sent, sentAt := Some(now)) else jobs[id]
  }

  function Poll(s: Server, station: int, now: int): Server {
    if Authorised(s, station) then s.(jobs := Marked(s.jobs, Waiting(s, station), now)) else s
  }

  lemma MarkOneMore(jobs: map<int, Job>, ids: set<int>, id: int, now: int)
    requires id in jobs && id !in ids
    ensures Marked(jobs, ids + {id}, now)
         == Marked(jobs, ids, now)[id := jobs[id].(status := Sent, sentAt := Some(now))]
    ensures multiset(ids + {id}) == multiset(ids) + multiset{id}
  {
  }

  /** The marked jobs are sent now, and otherwise all are as before. */
  lemma MarkedExactly(jobs: map<int, Job>, ids: set<int>, now: int)
    ensures var marked := Marked(jobs, ids, now);
      && marked.Keys == jobs.Keys
      && (forall j :: j in jobs && j in ids ==>
            && marked[j].status == Sent && marked[j].sentAt == Some(now)
            && marked[j].(status := jobs[j].status, sentAt := jobs[j].sentAt) == jobs[j])
      && (forall j :: j in jobs && j !in ids ==> marked[j] == jobs[j])
  {
  }

  predicate CanRetry(s: Server, id: int, send: Send) {
    id in s.jobs && !RolledBack(s, s.jobs[id].station, send)
  }

  function Retry(s: Server, id: int, send: Send, now: int): Server {
    if !CanRetry(s, id, send) then s
    else
      var job := s.jobs[id].(status := Queued, lastError := None);
      s.(jobs := s.jobs[id := if IsLan(s, job.station) then Dispatched(job, send, now) else job])
  }

  function Cancel(s: Server, id: int): Server {
    if id in s.jobs then s.(jobs := s.jobs[id := s.jobs[id].(status := Cancelled)]) else s
  }

  predicate CanAck(s: Server, station: int, id: int) {
    Authorised(s, station) && id in s.jobs && s.jobs[id].station == station
  }

  /** The route stores whatever status the station reports. */
  function Ack(s: Server, station: int, id: int, status: JobStatus, error: Option<string>, now: int): Server {
    if !CanAck(s, station, id) then s
    else
      var job := s.jobs[id];
      s.(jobs := s.jobs[id := job.(
        status := status,
        attempts := job.attempts + 1,
        printedAt := if status == Printed then Some(now) else job.printedAt,
        lastError := if status == Failed then error else job.lastError)])
  }

  // ---- The routes in place --------------------------------------------------

  class JobTable {
    const stations: map<int, Station>
    var jobs: map<int, Job>
    var nextId: int

    function Snapshot(): Server
      reads this
    {
      Server(stations, jobs, nextId)
    }

    ghost predicate Valid()
      reads this
    {
      Sound(Snapshot())
    }

    predicate LanJob(job: Job) { job.station in stations && stations[job.station].connection == LanEscpos }

    /** One more attempt, and its outcome: printed now, or failed with the connection's error. */
    predicate SentBySocket(before: Job, job: Job, send: Send, now: int) {
      && job.attempts == before.attempts + 1
      && (send.Delivered? ==>
            job.status == Printed && job.sentAt == job.printedAt == Some(now) && job.lastError.None?)
      && (send.Refused? ==>
            && job.status == Failed && job.lastError == Some(send.error)
            && job.sentAt == before.sentAt && job.printedAt == before.printedAt)
    }

    /** No job but this one is touched, and of this one neither station nor payload. */
    twostate predicate OnlyTouches(id: int)
      reads this
    {
      && jobs.Keys == old(jobs).Keys
      && (forall j :: j in jobs && j != id ==> jobs[j] == old(jobs)[j])
      && (id in jobs ==> jobs[id].station == old(jobs)[id].station && jobs[id].payload == old(jobs)[id].payload)
    }

    constructor (stations: map<int, Station>)
      ensures Valid() && Snapshot() == Server(stations, map[], 1)
    {
      this.stations, jobs, nextId := stations, map[], 1;
    }

    /** One attempt to write the job to its printer's socket. */
    method DispatchLanJob(id: int, send: Send, now: int) returns (completed: bool)
      requires id in jobs
      modifies this`jobs
      ensures OnlyTouches(id) && completed == !send.Crashed?
      ensures jobs[id].attempts == old(jobs)[id].attempts + 1
      ensures send.Delivered? ==> jobs[id].status == Printed && jobs[id].sentAt == jobs[id].printedAt == Some(now)
      ensures !send.Delivered? ==>
        jobs[id].sentAt == old(jobs)[id].sentAt && jobs[id].printedAt == old(jobs)[id].printedAt
      ensures send.Refused? ==> jobs[id].status == Failed && jobs[id].lastError == Some(send.error)
      ensures !send.Refused? ==> jobs[id].lastError == old(jobs)[id].lastError
      ensures send.Crashed? ==> jobs[id].status == old(jobs)[id].status
    {
      jobs := jobs[id := jobs[id].(attempts := jobs[id].attempts + 1)];
      match send
      case Refused(error, _) =>
        jobs := jobs[id := jobs[id].(status := Failed, lastError := Some(error))];
        completed := true;
      case Delivered =>
        jobs := jobs[id := jobs[id].(status := Printed)];
        jobs := jobs[id := jobs[id].(sentAt := Some(now), printedAt := Some(now))];
        completed := true;
      case Crashed(_) =>
        completed := false;
    }

    /** Queue a job, and send it at once when its station is a LAN printer. */
    method EnqueuePrintJob(station: int, payload: string, send: Send, now: int) returns (id: Option<int>)
      requires Valid()
      modifies this
      ensures Valid()
      ensures Snapshot() == Enqueue(old(Snapshot()), station, payload, send, now)
      ensures id == if CanEnqueue(old(Snapshot()), station, send) then Some(old(nextId)) else None
      ensures id.Some? <==>
        && station in stations && stations[station].active
        && (stations[station].connection == LanEscpos ==> !send.Crashed?)
      ensures id.None? ==> jobs == old(jobs)
      ensures id.Some? ==>
        var job, unsent := jobs[id.value], Job(station, Queued, payload, 0, None, None, None);
        && id.value !in old(jobs) && jobs.Keys == old(jobs).Keys + {id.value}
        && (forall j :: j in old(jobs) ==> jobs[j] == old(jobs)[j])
        && job.station == station && job.payload == payload
        && (!LanJob(job) ==> job.status == Queued && job.attempts == 0 && job.lastError.None?)
        && (!LanJob(job) ==> job.sentAt.None? && job.printedAt.None?)
        && (LanJob(job) ==> SentBySocket(unsent, job, send, now))
    {
      if station !in stations || !stations[station].active { return None; }
      var committed, newId := jobs, nextId;
      nextId := nextId + 1;
      jobs := jobs[newId := Job(station, Queued, payload, 0, None, None, None)];
      if stations[station].connection == LanEscpos {
        var completed := DispatchLanJob(newId, send, now);
        if !completed {
          jobs := committed;
          return None;
        }
        ghost var sent := Dispatched(Job(station, Queued, payload, 0, None, None, None), send, now);
        SameTable(jobs, committed[newId := sent], newId);
      }
      id := Some(newId);
    }

    lemma SameTable(a: map<int, Job>, b: map<int, Job>, id: int)
      requires a.Keys == b.Keys && id in a && a[id] == b[id]
      requires forall j :: j in a && j != id ==> a[j] == b[j]
      ensures a == b
    {
    }

    method MarkSent(id: int, now: int)
      requires id in jobs
      modifies this`jobs
      ensures jobs == old(jobs)[id := old(jobs)[id].(status := Sent, sentAt := Some(now))]
    {
      jobs := jobs[id := jobs[id].(status := Sent)];
      jobs := jobs[id := jobs[id].(sentAt := Some(now))];
    }

    /** Hand every queued job of the station to its agent and mark it sent; a bad station key gets nothing. */
    method PollPrintJobs(station: int, now: int) returns (reply: Option<seq<int>>)
      requires Valid()
      modifies this`jobs
      ensures Valid()
      ensures Snapshot() == Poll(old(Snapshot()), station, now)
      ensures reply.Some? <==>
        station in stations && stations[station].connection == UsbAgent && stations[station].active
      ensures reply.Some? ==> multiset(reply.value) == multiset(Waiting(old(Snapshot()), station))
      ensures jobs.Keys == old(jobs).Keys
      ensures reply.None? ==> jobs == old(jobs)
      ensures reply.Some? ==> forall j :: j in jobs ==>
        if old(jobs)[j].station == station && old(jobs)[j].status == Queued then
          && j in reply.value && jobs[j].status == Sent && jobs[j].sentAt == Some(now)
          && jobs[j].(status := Queued, sentAt := old(jobs)[j].sentAt) == old(jobs)[j]
        else
          jobs[j] == old(jobs)[j] && j !in reply.value
    {
      if station !in stations || stations[station] != Station(UsbAgent, true) { return None; }
      var batch := HandOut(Waiting(Snapshot(), station), now);
      MarkedExactly(old(jobs), Waiting(old(Snapshot()), station), now);
      assert forall j :: j in batch <==> j in multiset(batch);
      reply := Some(batch);
    }

    /** Mark these jobs sent, one by one. */
    method HandOut(waiting: set<int>, now: int) returns (batch: seq<int>)
      requires waiting <= jobs.Keys
      modifies this`jobs
      ensures jobs == Marked(old(jobs), waiting, now) && multiset(batch) == multiset(waiting)
    {
      var todo := waiting;
      ghost var done := {};
      batch := [];
      while todo != {}
        invariant todo + done == waiting && todo !! done
        invariant jobs == Marked(old(jobs), done, now)
        invariant multiset(batch) == multiset(done)
        decreases todo
      {
        var id := Collections.AnyOf(todo);
        MarkOneMore(old(jobs), done, id, now);
        MarkSent(id, now);
        batch := batch + [id];
        todo, done := todo - {id}, done + {id};
      }
      assert done == waiting;
    }

    method RetryPrintJob(id: int, send: Send, now: int) returns (retried: bool)
      requires Valid()
      modifies this`jobs
      ensures Valid()
      ensures Snapshot() == Retry(old(Snapshot()), id, send, now)
      ensures retried == (id in old(jobs) && !(LanJob(old(jobs)[id]) && send.Crashed?))
      ensures OnlyTouches(id) && (!retried ==> jobs == old(jobs))
      ensures retried && !LanJob(jobs[id]) ==>
        && jobs[id].status == Queued && jobs[id].lastError.None? && jobs[id].attempts == old(jobs)[id].attempts
        && jobs[id].sentAt == old(jobs)[id].sentAt && jobs[id].printedAt == old(jobs)[id].printedAt
      ensures retried && LanJob(jobs[id]) ==> SentBySocket(old(jobs)[id], jobs[id], send, now)
    {
      if id !in jobs { return false; }
      var committed := jobs;
      jobs := jobs[id := jobs[id].(status := Queued, lastError := None)];
      if jobs[id].station in stations && stations[jobs[id].station].connection == LanEscpos {
        var completed := DispatchLanJob(id, send, now);
        if !completed {
          jobs := committed;
          return false;
        }
        ghost var sent := Dispatched(committed[id].(status := Queued, lastError := None), send, now);
        SameTable(jobs, committed[id := sent], id);
      }
      retried := true;
    }

    /** Only the status changes: what was tried, sent or printed stays on record. */
    method CancelPrintJob(id: int) returns (found: bool)
      requires Valid()
      modifies this`jobs
      ensures Valid() && OnlyTouches(id) && found == (id in old(jobs))
      ensures Snapshot() == Cancel(old(Snapshot()), id)
      ensures found ==> jobs[id].status == Cancelled && jobs[id].(status := old(jobs)[id].status) == old(jobs)[id]
    {
      found := id in jobs;
      if found {
        jobs := jobs[id := jobs[id].(status := Cancelled)];
      }
    }

    /** The agent's report: one more attempt, and what the status implies; other stations are not heard. */
    method AckPrintJob(station: int, id: int, status: JobStatus, error: Option<string>, now: int) returns (found: bool)
      requires Valid()
      modifies this`jobs
      ensures Valid() && OnlyTouches(id)
      ensures found <==>
        && station in stations && stations[station].connection == UsbAgent && stations[station].active
        && id in old(jobs) && old(jobs)[id].station == station
      ensures Snapshot() == Ack(old(Snapshot()), station, id, status, error, now)
      ensures found ==>
        && jobs[id].status == status && jobs[id].attempts == old(jobs)[id].attempts + 1
        && jobs[id].sentAt == old(jobs)[id].sentAt
        && jobs[id].printedAt == (if status == Printed then Some(now) else old(jobs)[id].printedAt)
        && jobs[id].lastError == (if status == Failed then error else old(jobs)[id].lastError)
    {
      found := station in stations && stations[station] == Station(UsbAgent, true) && id in jobs
          && jobs[id].station == station;
      if found {
        var job := jobs[id].(status := status);
        job := job.(attempts := job.attempts + 1);
        if status == Printed {
          job := job.(printedAt := Some(now));
        }
        if status == Failed {
          job := job.(lastError := error);
        }
        jobs := jobs[id := job];
      }
    }
  }
}
