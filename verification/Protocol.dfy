/**
 The scan job protocol: producers, the Redis list, any number of workers and users cancelling scans,
 as one transition system. Every Postgres or Redis call is one step, and any of them may fail.
 */
module Protocol {
  import opened Wrappers
  import opened Tables
  import opened Persist

  type WorkerId = nat

  datatype Job = Job(scanId: ScanId, imageRef: string)

  datatype Phase = Initializing | Scanning | Persisting | Completed | Failed

  datatype Event = ScanCompleted(scanId: ScanId) | ScanFailed(scanId: ScanId, message: string)

  /** An error of runPipeline; `pull` is scanner.IsPullFailure. */
  datatype Failure = Failure(message: string, pull: bool)

  /** The next call of runPipeline, or the return to the retry loop. */
  datatype Pc =
    | EnterInitializing
    | UpdateRunning
    | StartFailedPhase(failure: Failure)
    | StartFailedPublish(failure: Failure)
    | StartFailedMark(failure: Failure)
    | EnterScanning
    | ScanImage
    | EnterPersisting(res: ScanResult)
    | BeginTx(res: ScanResult)
    | CommitTx(res: ScanResult, since: Time)
    | FailedPhase(failure: Failure)
    | FailedMark(failure: Failure)
    | FailedPublish(failure: Failure)
    | EnterCompleted
    | PublishCompleted
    | Returned(failure: Failure)

  datatype Task = Task(job: Job, attempt: nat, pc: Pc)

  /**
   `producers` are the rows whose producer has not yet tried to push the job. The list's head is index 0:
   LPUSH adds there and BRPOP takes the last entry. `enqueued` and `dequeued` are histories.
   */
  datatype State = State(
    db: Db, queue: seq<Job>, phases: map<ScanId, Phase>, events: seq<Event>, clock: Time,
    producers: set<ScanId>, workers: map<WorkerId, Task>,
    enqueued: seq<Job>, dequeued: seq<Job>, maxRetries: nat)

  // ---------------------------------------------------------------- single-row updates of scans.go

  function PendingRow(imageId: ImageId, trigger: Trigger): ScanRow {
    ScanRow(imageId, Pending, trigger, None, None, None, None, ZERO_COUNTS, None, None, None, None)
  }

  function SetRunning(db: Db, id: ScanId, now: Time): Db {
    if id !in db.scans then db
    else
      var r := db.scans[id];
      db.(scans := db.scans[id := r.(status := Running, startedAt := Some(r.startedAt.GetOr(now)))])
  }

  function SetFailed(db: Db, id: ScanId, message: string, now: Time): Db {
    if id !in db.scans then db
    else
      db.(scans := db.scans[id := db.scans[id].(
        status := Status.Failed, completedAt := Some(now), errorMessage := Some(message))])
  }

  predicate Cancellable(db: Db, id: ScanId) {
    id in db.scans && (db.scans[id].status == Pending || db.scans[id].status == Running)
  }

  function SetCancelled(db: Db, id: ScanId, now: Time): Db {
    if !Cancellable(db, id) then db
    else db.(scans := db.scans[id := db.scans[id].(status := Cancelled, completedAt := Some(now))])
  }

  // ---------------------------------------------------------------- steps

  /**
   How one call ends. A call that reports no error took effect; one that reports an error may have taken
   effect or not, except for a commit, where an error means a rollback.
   */
  datatype Outcome = Outcome(applied: bool, error: Option<Failure>, scanned: Option<ScanResult>, version: string)

  datatype Step =
    | InsertScan(id: ScanId, imageId: ImageId, trigger: Trigger)
    | Enqueue(id: ScanId, imageRef: string)
    | GiveUp(id: ScanId)
    | Cancel(id: ScanId)
    | PhaseExpires(id: ScanId)
    | Tick(elapsed: nat)
    | Pop(w: WorkerId)
    | Crash(w: WorkerId)
    | Work(w: WorkerId, out: Outcome)

  predicate Enabled(s: State, step: Step) {
    match step
    case InsertScan(id, _, _) => id !in s.db.scans
    case Enqueue(id, _) => id in s.producers
    case GiveUp(id) => id in s.producers
    case Cancel(_) => true
    case PhaseExpires(_) => true
    case Tick(_) => true
    case Pop(w) => w !in s.workers && s.queue != []
    case Crash(w) => w in s.workers
    case Work(w, out) => w in s.workers && Possible(s, s.workers[w], out)
  }

  predicate Possible(s: State, t: Task, out: Outcome) {
    && (out.error.None? ==> out.applied)
    && (t.pc.ScanImage? && out.error.None? ==> out.scanned.Some?)
    && (t.pc.CommitTx? && out.error.None? ==> Fits(t.pc.res, t.job.scanId in s.db.scans))
  }

  function Apply(s: State, step: Step): State
    requires Enabled(s, step)
  {
    match step
    case InsertScan(id, imageId, trigger) =>
      s.(db := s.db.(scans := s.db.scans[id := PendingRow(imageId, trigger)]), producers := s.producers + {id})
    case Enqueue(id, imageRef) =>
      var job := Job(id, imageRef);
      s.(queue := [job] + s.queue, enqueued := s.enqueued + [job], producers := s.producers - {id})
    case GiveUp(id) => s.(producers := s.producers - {id})
    case Cancel(id) => s.(db := SetCancelled(s.db, id, s.clock))
    case PhaseExpires(id) => s.(phases := s.phases - {id})
    case Tick(elapsed) => s.(clock := s.clock + elapsed)
    case Pop(w) =>
      var n := |s.queue| - 1;
      s.(queue := s.queue[..n], dequeued := s.dequeued + [s.queue[n]],
         workers := s.workers[w := Task(s.queue[n], 0, EnterInitializing)])
    case Crash(w) => s.(workers := s.workers - {w})
    case Work(w, out) => Advance(s, w, out)
  }

  /** Stands for the fixed advice that a pull failure's message ends with. */
  const TIPS := "\n(tips)"

  /** The message stored and published for a failure. */
  function Report(f: Failure): string {
    if f.pull then f.message + TIPS else f.message
  }

  /** The report begins with the error's own message, and adds to it for pull failures only. */
  lemma ReportKeepsMessage(f: Failure)
    ensures f.message <= Report(f)
    ensures Report(f) == f.message <==> !f.pull
  {
    if f.pull {
      assert |Report(f)| > |f.message|;
    }
  }

  /** Errors of Postgres and Redis are never pull failures. */
  function StoreError(out: Outcome): Failure
    requires out.error.Some?
  {
    Failure(out.error.value.message, false)
  }

  const NOT_FOUND := Failure("scan not found", false)

  /** The call after this one in runPipeline; `known` says whether the scan's row exists. */
  function NextPc(pc: Pc, out: Outcome, known: bool, now: Time): Pc
    requires !pc.PublishCompleted? && !pc.Returned?
    requires pc.ScanImage? && out.error.None? ==> out.scanned.Some?
  {
    match pc
    case EnterInitializing => UpdateRunning
    case UpdateRunning =>
      if out.error.Some? then StartFailedPhase(StoreError(out))
      else if !known then StartFailedPhase(NOT_FOUND)
      else EnterScanning
    case StartFailedPhase(f) => StartFailedPublish(f)
    case StartFailedPublish(f) => StartFailedMark(f)
    case StartFailedMark(f) => Returned(f)
    case EnterScanning => ScanImage
    case ScanImage => if out.error.Some? then FailedPhase(out.error.value) else EnterPersisting(out.scanned.value)
    case EnterPersisting(res) => BeginTx(res)
    case BeginTx(res) => if out.error.Some? then FailedPhase(StoreError(out)) else CommitTx(res, now)
    case CommitTx(_, _) => if out.error.Some? then FailedPhase(StoreError(out)) else EnterCompleted
    case FailedPhase(f) => FailedMark(f)
    case FailedMark(f) => FailedPublish(f)
    case FailedPublish(f) => Returned(f)
    case EnterCompleted => PublishCompleted
  }

  /** The worker's next task: after a failed attempt, the retry loop decides. None frees the worker. */
  function NextTask(s: State, t: Task, out: Outcome): Option<Task>
    requires Possible(s, t, out)
  {
    match t.pc
    case PublishCompleted => None
    case Returned(f) =>
      if f.pull || t.attempt + 1 >= s.maxRetries || out.error.Some? then None
      else Some(Task(t.job, t.attempt + 1, EnterInitializing))
    case _ => Some(t.(pc := NextPc(t.pc, out, t.job.scanId in s.db.scans, s.clock)))
  }

  /** What the call writes to Postgres. */
  function DbAfter(s: State, t: Task, out: Outcome): Db {
    var id := t.job.scanId;
    match t.pc
    case UpdateRunning => if out.applied then SetRunning(s.db, id, s.clock) else s.db
    case StartFailedMark(f) => if out.applied then SetFailed(s.db, id, Report(f), s.clock) else s.db
    case FailedMark(f) => if out.applied then SetFailed(s.db, id, Report(f), s.clock) else s.db
    case CommitTx(res, since) => if out.error.None? then Committed(s.db, id, res, out.version, since) else s.db
    case _ => s.db
  }

  /** The phase a call sets. */
  function PhaseSet(pc: Pc): Option<Phase> {
    match pc
    case EnterInitializing => Some(Initializing)
    case EnterScanning => Some(Scanning)
    case EnterPersisting(_) => Some(Persisting)
    case EnterCompleted => Some(Phase.Completed)
    case StartFailedPhase(_) => Some(Phase.Failed)
    case FailedPhase(_) => Some(Phase.Failed)
    case _ => None
  }

  /** The event a call publishes. */
  function EventSent(id: ScanId, pc: Pc): Option<Event> {
    match pc
    case StartFailedPublish(f) => Some(ScanFailed(id, Report(f)))
    case FailedPublish(f) => Some(ScanFailed(id, Report(f)))
    case PublishCompleted => Some(ScanCompleted(id))
    case _ => None
  }

  /** One call of a worker. */
  function Advance(s: State, w: WorkerId, out: Outcome): State
    requires w in s.workers && Possible(s, s.workers[w], out)
  {
    var t := s.workers[w];
    var id := t.job.scanId;
    var phase, event, next := PhaseSet(t.pc), EventSent(id, t.pc), NextTask(s, t, out);
    s.(db := DbAfter(s, t, out),
       phases := if out.applied && phase.Some? then s.phases[id := phase.value] else s.phases,
       events := if out.applied && event.Some? then s.events + [event.value] else s.events,
       workers := if next.Some? then s.workers[w := next.value] else s.workers - {w})
  }

  // ---------------------------------------------------------------- runs

  /** Before the first request: an empty database and list, no worker busy. */
  predicate Init(s: State) {
    && s.db == Db(map[], [], [], [], [], []) && s.queue == [] && s.phases == map[] && s.events == []
    && s.producers == {} && s.workers == map[] && s.enqueued == [] && s.dequeued == [] && s.maxRetries > 0
  }

  ghost predicate Run(s: State, steps: seq<Step>, t: State)
    decreases |steps|
  {
    if steps == [] then s == t
    else Enabled(s, steps[0]) && Run(Apply(s, steps[0]), steps[1..], t)
  }

  ghost predicate Reaches(s: State, t: State) {
    exists steps :: Run(s, steps, t)
  }

  // ---------------------------------------------------------------- the invariant

  function Reverse<T>(q: seq<T>): seq<T> {
    if q == [] then [] else Reverse(q[1..]) + [q[0]]
  }

  function Ids(jobs: seq<Job>): set<ScanId> {
    set j <- jobs :: j.scanId
  }

  ghost predicate Done(db: Db, id: ScanId) {
    id in db.scans && db.scans[id].status == Status.Completed
  }

  /** No scan is pushed twice, and the list holds the pushed jobs that no worker has popped, oldest last. */
  ghost predicate QueueInv(s: State) {
    && s.enqueued == s.dequeued + Reverse(s.queue)
    && (forall i, j :: 0 <= i < j < |s.enqueued| ==> s.enqueued[i].scanId != s.enqueued[j].scanId)
    && Ids(s.enqueued) !! s.producers
    && Ids(s.enqueued) + s.producers <= s.db.scans.Keys
  }

  /** Two workers never hold the same scan, and they hold only popped ones. */
  ghost predicate WorkerInv(s: State) {
    && (forall w <- s.workers :: s.workers[w].job in s.dequeued && s.workers[w].attempt < s.maxRetries)
    && (forall v, w :: v in s.workers && w in s.workers && v != w ==>
          s.workers[v].job.scanId != s.workers[w].job.scanId)
  }

  ghost predicate Untouched(db: Db, id: ScanId) {
    StoredFor(db, id) == NOTHING_STORED && (id in db.scans ==> db.scans[id].counts == ZERO_COUNTS)
  }

  ghost predicate Finished(r: ScanRow, findings: seq<FindingRow>, clock: Time) {
    && r.startedAt.Some? && r.completedAt.Some? && r.startedAt.value <= r.completedAt.value <= clock
    && r.errorMessage.None?
    && r.counts == Histogram(findings)
  }

  ghost predicate RowInv(s: State) {
    && (forall id {:trigger Done(s.db, id)} :: !Done(s.db, id) ==> Untouched(s.db, id))
    && (forall id {:trigger Done(s.db, id)} :: Done(s.db, id) ==>
          Finished(s.db.scans[id], RowsOf(s.db.findings, id), s.clock) && id in Ids(s.dequeued))
    && (forall id <- s.db.scans :: s.db.scans[id].startedAt.Some? ==> s.db.scans[id].startedAt.value <= s.clock)
  }

  predicate AfterStart(pc: Pc) {
    pc.EnterScanning? || pc.ScanImage? || pc.EnterPersisting? || pc.BeginTx? || pc.CommitTx?
  }

  predicate AfterCommit(pc: Pc) {
    pc.EnterCompleted? || pc.PublishCompleted?
  }

  ghost predicate TaskInv(s: State, t: Task) {
    var id := t.job.scanId;
    && id in s.db.scans
    && (AfterCommit(t.pc) <==> Done(s.db, id))
    && (AfterStart(t.pc) ==> s.db.scans[id].startedAt.Some?)
    && (t.pc.CommitTx? ==> s.db.scans[id].startedAt.value <= t.pc.since <= s.clock)
  }

  ghost predicate PcInv(s: State) {
    forall w <- s.workers :: TaskInv(s, s.workers[w])
  }

  ghost predicate Holds(s: State, w: WorkerId, id: ScanId) {
    w in s.workers && s.workers[w].job.scanId == id
  }

  /** What Redis shows of a completion never runs ahead of Postgres. */
  ghost predicate RedisInv(s: State) {
    && (forall id <- s.phases :: s.phases[id] == Phase.Completed ==> Done(s.db, id))
    && (forall e <- s.events :: e.ScanCompleted? ==>
          Done(s.db, e.scanId) && forall w :: !Holds(s, w, e.scanId))
    && (forall i, j :: 0 <= i < j < |s.events| && s.events[i].ScanCompleted? ==>
          s.events[j].scanId != s.events[i].scanId)
  }

  ghost predicate Inv(s: State) {
    s.maxRetries > 0 && QueueInv(s) && WorkerInv(s) && RowInv(s) && PcInv(s) && RedisInv(s)
  }

  lemma InitInv(s: State)
    requires Init(s)
    ensures Inv(s)
  {
    assert Reverse(s.queue) == [];
  }

  // ---------------------------------------------------------------- steps keep the invariant

  /** Only scan `id` may differ between two databases. */
  ghost predicate OnlyScan(db: Db, db': Db, id: ScanId) {
    && db'.scans.Keys == db.scans.Keys
    && (forall other <- db.scans :: other != id ==> db'.scans[other] == db.scans[other])
    && (forall other :: other != id ==> StoredFor(db', other) == StoredFor(db, other))
  }

  /** The part of the invariant about one scan's row and results. */
  ghost predicate ScanInv(s: State, id: ScanId) {
    && (!Done(s.db, id) ==> Untouched(s.db, id))
    && (Done(s.db, id) ==>
          Finished(s.db.scans[id], RowsOf(s.db.findings, id), s.clock) && id in Ids(s.dequeued))
    && (id in s.db.scans && s.db.scans[id].startedAt.Some? ==> s.db.scans[id].startedAt.value <= s.clock)
  }

  lemma OnlyScanKeepsRows(s: State, s': State, id: ScanId)
    requires RowInv(s) && OnlyScan(s.db, s'.db, id) && s'.clock == s.clock && s'.dequeued == s.dequeued
    requires ScanInv(s', id)
    ensures RowInv(s')
  {
    forall other | other != id
      ensures StoredFor(s'.db, other) == StoredFor(s.db, other)
      ensures Done(s'.db, other) == Done(s.db, other)
      ensures RowsOf(s'.db.findings, other) == RowsOf(s.db.findings, other)
    {
      assert StoredFor(s'.db, other).findings == StoredFor(s.db, other).findings;
    }
  }

  /** A worker's step that touches only its own scan, its phase key, the events and its program counter. */
  ghost predicate Local(s: State, s': State, w: WorkerId, pc: Pc, phase: Option<Phase>, failed: Option<string>) {
    w in s.workers &&
    var id := s.workers[w].job.scanId;
    && OnlyScan(s.db, s'.db, id)
    && (Done(s.db, id) ==> Done(s'.db, id))
    && s' == s.(
         db := s'.db, workers := s.workers[w := s.workers[w].(pc := pc)],
         phases := if phase.Some? then s.phases[id := phase.value] else s.phases,
         events := if failed.Some? then s.events + [ScanFailed(id, failed.value)] else s.events)
  }

  lemma LocalKeepsTasks(s: State, s': State, w: WorkerId, pc: Pc, phase: Option<Phase>, failed: Option<string>)
    requires WorkerInv(s) && PcInv(s) && Local(s, s', w, pc, phase, failed)
    requires TaskInv(s', s'.workers[w])
    ensures WorkerInv(s') && PcInv(s')
  {
    forall v <- s'.workers ensures TaskInv(s', s'.workers[v]) {
      if v != w {
        assert TaskInv(s, s.workers[v]);
      }
    }
  }

  lemma LocalKeepsRedis(s: State, s': State, w: WorkerId, pc: Pc, phase: Option<Phase>, failed: Option<string>)
    requires RedisInv(s) && Local(s, s', w, pc, phase, failed)
    requires phase == Some(Phase.Completed) ==> Done(s'.db, s.workers[w].job.scanId)
    ensures RedisInv(s')
  {
    var id := s.workers[w].job.scanId;
    assert forall other :: Done(s.db, other) ==> Done(s'.db, other);
    assert forall v, other :: Holds(s', v, other) <==> Holds(s, v, other);
    assert Holds(s, w, id);
  }

  lemma LocalKeepsInv(s: State, s': State, w: WorkerId, pc: Pc, phase: Option<Phase>, failed: Option<string>)
    requires Inv(s) && Local(s, s', w, pc, phase, failed)
    requires ScanInv(s', s.workers[w].job.scanId) && TaskInv(s', s'.workers[w])
    requires phase == Some(Phase.Completed) ==> Done(s'.db, s.workers[w].job.scanId)
    ensures Inv(s')
  {
    OnlyScanKeepsRows(s, s', s.workers[w].job.scanId);
    LocalKeepsTasks(s, s', w, pc, phase, failed);
    LocalKeepsRedis(s, s', w, pc, phase, failed);
  }

  /** A call that leaves Postgres alone: a phase key, a "failed" event or nothing. */
  lemma QuietStep(s: State, s': State, w: WorkerId, pc: Pc, phase: Option<Phase>, failed: Option<string>)
    requires Inv(s) && w in s.workers
    requires var id := s.workers[w].job.scanId;
      s' == s.(
        workers := s.workers[w := s.workers[w].(pc := pc)],
        phases := if phase.Some? then s.phases[id := phase.value] else s.phases,
        events := if failed.Some? then s.events + [ScanFailed(id, failed.value)] else s.events)
    requires AfterCommit(pc) <==> AfterCommit(s.workers[w].pc)
    requires AfterStart(pc) ==> AfterStart(s.workers[w].pc)
    requires pc.CommitTx? ==> pc.since == s.clock
    requires phase == Some(Phase.Completed) ==> AfterCommit(pc)
    ensures Inv(s')
  {
    var id := s.workers[w].job.scanId;
    assert TaskInv(s, s.workers[w]);
    assert ScanInv(s, id);
    assert Local(s, s', w, pc, phase, failed);
    LocalKeepsInv(s, s', w, pc, phase, failed);
  }

  /** An UPDATE of the scan's own row that does not complete it. */
  lemma RowStep(s: State, s': State, w: WorkerId, pc: Pc, row: ScanRow)
    requires Inv(s) && w in s.workers && !AfterCommit(s.workers[w].pc)
    requires var id := s.workers[w].job.scanId;
      && s' == s.(workers := s.workers[w := s.workers[w].(pc := pc)], db := s.db.(scans := s.db.scans[id := row]))
      && (id in s.db.scans ==> row.counts == s.db.scans[id].counts)
    requires row.status != Status.Completed
    requires row.startedAt.Some? ==> row.startedAt.value <= s.clock
    requires !AfterCommit(pc) && !pc.CommitTx? && (AfterStart(pc) ==> row.startedAt.Some?)
    ensures Inv(s')
  {
    var id := s.workers[w].job.scanId;
    assert TaskInv(s, s.workers[w]);
    assert ScanInv(s, id);
    assert forall any :: StoredFor(s'.db, any) == StoredFor(s.db, any);
    LocalKeepsInv(s, s', w, pc, None, None);
  }

  /** The calls that write no row. */
  predicate Quiet(pc: Pc, out: Outcome) {
    && !pc.PublishCompleted? && !pc.Returned?
    && (pc.UpdateRunning? || pc.StartFailedMark? || pc.FailedMark? ==> !out.applied)
    && (pc.CommitTx? ==> out.error.Some?)
  }

  lemma QuietKeepsInv(s: State, w: WorkerId, out: Outcome)
    requires Inv(s) && w in s.workers && Possible(s, s.workers[w], out) && Quiet(s.workers[w].pc, out)
    ensures Inv(Advance(s, w, out))
  {
    hide Inv, Committed, SetRunning, SetFailed, Fits, Report;
    var t := s.workers[w];
    var next := NextTask(s, t, out);
    var event := EventSent(t.job.scanId, t.pc);
    assert DbAfter(s, t, out) == s.db;
    assert next.Some? && next.value == t.(pc := next.value.pc);
    assert event.Some? ==> event.value == ScanFailed(t.job.scanId, event.value.message);
    assert PhaseSet(t.pc) == Some(Phase.Completed) ==> AfterCommit(next.value.pc);
    assert AfterCommit(next.value.pc) <==> AfterCommit(t.pc);
    assert AfterStart(next.value.pc) ==> AfterStart(t.pc);
    assert next.value.pc.CommitTx? ==> next.value.pc.since == s.clock;
    hide NextTask, EventSent, DbAfter, PhaseSet, AfterCommit, AfterStart;
    QuietStep(s, Advance(s, w, out), w, next.value.pc, if out.applied then PhaseSet(t.pc) else None,
              if out.applied && event.Some? then Some(event.value.message) else None);
  }

  /** What an UPDATE before the commit that Postgres applies does: it writes the scan's own row. */
  lemma UpdateWrites(s: State, w: WorkerId, out: Outcome) returns (pc: Pc, row: ScanRow)
    requires w in s.workers && Possible(s, s.workers[w], out) && out.applied
    requires var t := s.workers[w];
      && (t.pc.UpdateRunning? || t.pc.StartFailedMark? || t.pc.FailedMark?)
      && TaskInv(s, t) && ScanInv(s, t.job.scanId)
    ensures var t := s.workers[w]; var id := t.job.scanId;
      && Advance(s, w, out) ==
        s.(workers := s.workers[w := t.(pc := pc)], db := s.db.(scans := s.db.scans[id := row]))
      && row.status != Status.Completed && row.counts == s.db.scans[id].counts
      && (row.startedAt.Some? ==> row.startedAt.value <= s.clock)
      && !AfterCommit(pc) && !pc.CommitTx? && (AfterStart(pc) ==> row.startedAt.Some?)
  {
    hide Untouched, Finished, Committed, Fits, Report, Done, StoredFor;
    var t := s.workers[w];
    pc, row := NextTask(s, t, out).value.pc, DbAfter(s, t, out).scans[t.job.scanId];
  }

  /** The UPDATEs of a pipeline attempt before its commit. */
  lemma UpdateKeepsInv(s: State, w: WorkerId, out: Outcome)
    requires Inv(s) && w in s.workers && Possible(s, s.workers[w], out)
    requires var pc := s.workers[w].pc; pc.UpdateRunning? || pc.StartFailedMark? || pc.FailedMark?
    ensures Inv(Advance(s, w, out))
  {
    if out.applied {
      assert TaskInv(s, s.workers[w]) && ScanInv(s, s.workers[w].job.scanId);
      hide Inv, TaskInv, ScanInv, Possible, Advance, AfterStart;
      var pc, row := UpdateWrites(s, w, out);
      RowStep(s, Advance(s, w, out), w, pc, row);
    } else {
      QuietKeepsInv(s, w, out);
    }
  }

  /** A write that completes the scan a worker is committing. */
  lemma DoneStep(s: State, db': Db, w: WorkerId)
    requires Inv(s) && w in s.workers && s.workers[w].pc.CommitTx?
    requires var id := s.workers[w].job.scanId;
      && OnlyScan(s.db, db', id) && Done(db', id) && id in s.db.scans
      && var r := db'.scans[id];
        && r.completedAt == Some(s.workers[w].pc.since) && r.errorMessage == None
        && r.startedAt == s.db.scans[id].startedAt
        && r.counts == Histogram(RowsOf(db'.findings, id))
    ensures Inv(s.(db := db', workers := s.workers[w := s.workers[w].(pc := EnterCompleted)]))
  {
    assert TaskInv(s, s.workers[w]);
    assert ScanInv(s, s.workers[w].job.scanId);
    assert s.workers[w].job in s.dequeued;
    var s' := s.(db := db', workers := s.workers[w := s.workers[w].(pc := EnterCompleted)]);
    LocalKeepsInv(s, s', w, EnterCompleted, None, None);
  }

  lemma CommitIsLocal(db: Db, id: ScanId, res: ScanResult, version: string, now: Time)
    ensures OnlyScan(db, Committed(db, id, res, version, now), id)
  {
    CommitReplaces(db, id, res, version, now);
  }

  lemma CommitKeepsInv(s: State, w: WorkerId, res: ScanResult, since: Time, version: string)
    requires Inv(s) && w in s.workers && s.workers[w].pc == CommitTx(res, since)
    ensures Inv(s.(db := Committed(s.db, s.workers[w].job.scanId, res, version, since),
                   workers := s.workers[w := s.workers[w].(pc := EnterCompleted)]))
  {
    hide Committed, QueueInv, RowInv, RedisInv, OnlyScan;
    var id := s.workers[w].job.scanId;
    assert TaskInv(s, s.workers[w]);
    CommitIsLocal(s.db, id, res, version, since);
    CommitRow(s.db, id, res, version, since);
    DoneStep(s, Committed(s.db, id, res, version, since), w);
  }

  /** Workers that keep their jobs, or let go of them. */
  lemma WorkersKeepInv(s: State, s': State)
    requires Inv(s) && s' == s.(workers := s'.workers)
    requires forall w <- s'.workers ::
      && w in s.workers && s'.workers[w].job == s.workers[w].job
      && s'.workers[w].attempt < s.maxRetries && TaskInv(s', s'.workers[w])
    ensures Inv(s')
  {
    hide TaskInv, Untouched, Finished;
    assert forall v, id :: Holds(s', v, id) ==> Holds(s, v, id);
    assert forall id :: Done(s'.db, id) == Done(s.db, id);
    hide Done;
  }

  /** The invariant about a task depends on its scan's row only. */
  lemma SameDbSameTask(s: State, s': State, t: Task)
    requires s'.db == s.db && s'.clock == s.clock
    ensures TaskInv(s', t) <==> TaskInv(s, t)
  {
  }

  /** A worker that goes back to the list: on a crash, or when the retry loop returns. */
  lemma ReleaseKeepsInv(s: State, w: WorkerId)
    requires Inv(s) && w in s.workers
    ensures Inv(s.(workers := s.workers - {w}))
  {
    var s' := s.(workers := s.workers - {w});
    forall v <- s'.workers ensures TaskInv(s', s'.workers[v]) {
      SameDbSameTask(s, s', s.workers[v]);
    }
    hide TaskInv, RowInv, RedisInv, QueueInv;
    WorkersKeepInv(s, s');
  }

  /** A worker that starts its next attempt. */
  lemma RestartKeepsInv(s: State, w: WorkerId, attempt: nat)
    requires Inv(s) && w in s.workers && s.workers[w].pc.Returned? && attempt < s.maxRetries
    ensures Inv(s.(workers := s.workers[w := Task(s.workers[w].job, attempt, EnterInitializing)]))
  {
    var s' := s.(workers := s.workers[w := Task(s.workers[w].job, attempt, EnterInitializing)]);
    assert TaskInv(s, s.workers[w]);
    assert TaskInv(s', s'.workers[w]);
    hide TaskInv, RowInv, RedisInv, QueueInv;
    forall v <- s'.workers ensures TaskInv(s', s'.workers[v]) {
      if v != w {
        SameDbSameTask(s, s', s.workers[v]);
      }
    }
    WorkersKeepInv(s, s');
  }

  /** Appending a "completed" event for a completed scan that no worker holds and no such event names yet. */
  lemma CompletedEventKeepsRedis(s: State, id: ScanId)
    requires RedisInv(s) && Done(s.db, id) && !(exists w :: Holds(s, w, id))
    requires forall e <- s.events :: e.ScanCompleted? ==> e.scanId != id
    ensures RedisInv(s.(events := s.events + [ScanCompleted(id)]))
  {
    var s' := s.(events := s.events + [ScanCompleted(id)]);
    assert forall w, other :: Holds(s', w, other) <==> Holds(s, w, other);
  }

  lemma LetGoThenPublish(s: State, w: WorkerId)
    requires Inv(s) && w in s.workers && s.workers[w].pc.PublishCompleted?
    ensures var m := s.(workers := s.workers - {w}); var id := s.workers[w].job.scanId;
      && Done(m.db, id) && !(exists v :: Holds(m, v, id))
      && forall e <- m.events :: e.ScanCompleted? ==> e.scanId != id
  {
    var m := s.(workers := s.workers - {w});
    var id := s.workers[w].job.scanId;
    assert TaskInv(s, s.workers[w]);
    hide RowInv, QueueInv, PcInv, TaskInv;
    assert Holds(s, w, id);
    assert forall v :: Holds(m, v, id) ==> Holds(s, v, id);
  }

  /** The "completed" event is the last one of its scan, and its worker lets go of the scan. */
  lemma CompletedEventKeepsInv(s: State, w: WorkerId)
    requires Inv(s) && w in s.workers && s.workers[w].pc.PublishCompleted?
    ensures var s' := s.(workers := s.workers - {w});
      Inv(s') && Inv(s'.(events := s.events + [ScanCompleted(s.workers[w].job.scanId)]))
  {
    var id := s.workers[w].job.scanId;
    var m := s.(workers := s.workers - {w});
    var s' := m.(events := s.events + [ScanCompleted(id)]);
    ReleaseKeepsInv(s, w);
    LetGoThenPublish(s, w);
    hide Done, Holds, Untouched, Finished;
    CompletedEventKeepsRedis(m, id);
    hide RedisInv;
    forall v <- s'.workers ensures TaskInv(s', s'.workers[v]) {
      SameDbSameTask(m, s', m.workers[v]);
    }
    hide TaskInv;
  }

  lemma RetryKeepsInv(s: State, w: WorkerId, out: Outcome)
    requires Inv(s) && w in s.workers && s.workers[w].pc.Returned? && Possible(s, s.workers[w], out)
    ensures Inv(Advance(s, w, out))
  {
    hide Inv, Committed, SetRunning, SetFailed, Fits, Report;
    var t := s.workers[w];
    assert DbAfter(s, t, out) == s.db && EventSent(t.job.scanId, t.pc).None? && PhaseSet(t.pc).None?;
    hide DbAfter, EventSent, PhaseSet;
    if NextTask(s, t, out).Some? {
      RestartKeepsInv(s, w, t.attempt + 1);
    } else {
      ReleaseKeepsInv(s, w);
    }
  }

  lemma PublishKeepsInv(s: State, w: WorkerId, out: Outcome)
    requires Inv(s) && w in s.workers && s.workers[w].pc.PublishCompleted? && Possible(s, s.workers[w], out)
    ensures Inv(Advance(s, w, out))
  {
    hide Inv, Committed, SetRunning, SetFailed, Fits, Report;
    CompletedEventKeepsInv(s, w);
  }

  lemma CommitStepKeepsInv(s: State, w: WorkerId, out: Outcome)
    requires Inv(s) && w in s.workers && Possible(s, s.workers[w], out)
    requires s.workers[w].pc.CommitTx? && out.error.None?
    ensures Inv(Advance(s, w, out))
  {
    hide Inv, Committed, SetRunning, SetFailed, Fits, Report;
    CommitKeepsInv(s, w, s.workers[w].pc.res, s.workers[w].pc.since, out.version);
  }

  lemma AdvanceKeepsInv(s: State, w: WorkerId, out: Outcome)
    requires Inv(s) && w in s.workers && Possible(s, s.workers[w], out)
    ensures Inv(Advance(s, w, out))
  {
    hide Inv, Possible, Advance;
    var pc := s.workers[w].pc;
    if pc.UpdateRunning? || pc.StartFailedMark? || pc.FailedMark? {
      UpdateKeepsInv(s, w, out);
    } else if pc.PublishCompleted? {
      PublishKeepsInv(s, w, out);
    } else if pc.Returned? {
      RetryKeepsInv(s, w, out);
    } else if pc.CommitTx? && out.error.None? {
      CommitStepKeepsInv(s, w, out);
    } else {
      QuietKeepsInv(s, w, out);
    }
  }

  lemma InsertKeepsRows(s: State, id: ScanId, imageId: ImageId, trigger: Trigger)
    requires RowInv(s) && id !in s.db.scans
    ensures RowInv(Apply(s, InsertScan(id, imageId, trigger)))
    ensures forall any :: Done(Apply(s, InsertScan(id, imageId, trigger)).db, any) == Done(s.db, any)
  {
    var s' := Apply(s, InsertScan(id, imageId, trigger));
    assert !Done(s.db, id);
    forall any ensures StoredFor(s'.db, any) == StoredFor(s.db, any) && Done(s'.db, any) == Done(s.db, any) {
    }
  }

  lemma InsertKeepsInv(s: State, id: ScanId, imageId: ImageId, trigger: Trigger)
    requires Inv(s) && id !in s.db.scans
    ensures Inv(Apply(s, InsertScan(id, imageId, trigger)))
  {
    var s' := Apply(s, InsertScan(id, imageId, trigger));
    InsertKeepsRows(s, id, imageId, trigger);
    InsertKeepsTasks(s, id, imageId, trigger);
    hide RowInv, PcInv, Done;
    assert forall v, any :: Holds(s', v, any) <==> Holds(s, v, any);
  }

  lemma InsertKeepsTasks(s: State, id: ScanId, imageId: ImageId, trigger: Trigger)
    requires PcInv(s) && id !in s.db.scans
    ensures PcInv(Apply(s, InsertScan(id, imageId, trigger)))
  {
    var s' := Apply(s, InsertScan(id, imageId, trigger));
    forall v <- s'.workers ensures TaskInv(s', s'.workers[v]) {
      assert TaskInv(s, s.workers[v]);
    }
  }

  /** Everything but the queue invariant, when only the list, the producers, the phases or the clock move. */
  lemma FrameInv(s: State, s': State)
    requires WorkerInv(s) && RowInv(s) && PcInv(s) && RedisInv(s)
    requires s' == s.(queue := s'.queue, enqueued := s'.enqueued, producers := s'.producers,
                      phases := s'.phases, clock := s'.clock)
    requires s'.clock >= s.clock && s'.phases.Items <= s.phases.Items
    ensures WorkerInv(s') && RowInv(s') && PcInv(s') && RedisInv(s')
  {
    assert forall v, any :: Holds(s', v, any) <==> Holds(s, v, any);
    forall v <- s'.workers ensures TaskInv(s', s'.workers[v]) {
      assert TaskInv(s, s.workers[v]);
    }
    forall id <- s'.phases ensures id in s.phases && s'.phases[id] == s.phases[id] {
      assert (id, s'.phases[id]) in s.phases.Items;
    }
  }

  lemma EnqueueKeepsInv(s: State, id: ScanId, imageRef: string)
    requires Inv(s) && id in s.producers
    ensures Inv(Apply(s, Enqueue(id, imageRef)))
  {
    var s' := Apply(s, Enqueue(id, imageRef));
    FrameInv(s, s');
    hide WorkerInv, RowInv, PcInv, RedisInv;
    assert s'.queue[1..] == s.queue;
    assert Ids(s'.enqueued) == Ids(s.enqueued) + {id};
    forall j <- s.enqueued ensures j.scanId != id {
      assert j.scanId in Ids(s.enqueued);
    }
  }

  lemma CancelKeepsInv(s: State, id: ScanId)
    requires Inv(s)
    ensures Inv(Apply(s, Cancel(id)))
  {
    if Cancellable(s.db, id) {
      var s' := Apply(s, Cancel(id));
      assert ScanInv(s, id);
      assert forall any :: StoredFor(s'.db, any) == StoredFor(s.db, any);
      assert ScanInv(s', id);
      OnlyScanKeepsRows(s, s', id);
      CancelKeepsRest(s, s', id);
    }
  }

  lemma CancelKeepsRest(s: State, s': State, id: ScanId)
    requires Inv(s) && Cancellable(s.db, id) && s' == Apply(s, Cancel(id))
    ensures QueueInv(s') && WorkerInv(s') && PcInv(s') && RedisInv(s')
  {
    hide RowInv;
    assert forall any :: Done(s'.db, any) == Done(s.db, any);
    assert forall v, any :: Holds(s', v, any) <==> Holds(s, v, any);
    forall v <- s'.workers ensures TaskInv(s', s'.workers[v]) {
      assert TaskInv(s, s.workers[v]);
    }
  }

  lemma {:induction false} ReverseLast<T>(q: seq<T>)
    requires q != []
    ensures Reverse(q) == [q[|q| - 1]] + Reverse(q[..|q| - 1])
  {
    if |q| > 1 {
      ReverseLast(q[1..]);
      assert q[1..][..|q| - 2] == q[..|q| - 1][1..];
    }
  }

  /** BRPOP hands out the oldest pushed job, which no worker has held and no commit has completed. */
  lemma PopIsOldest(s: State)
    requires QueueInv(s) && s.queue != []
    ensures var n := |s.queue| - 1; var job := s.queue[n];
      && s.enqueued == (s.dequeued + [job]) + Reverse(s.queue[..n])
      && job.scanId in Ids(s.enqueued)
      && job.scanId !in Ids(s.dequeued)
  {
    var job := s.queue[|s.queue| - 1];
    ReverseLast(s.queue);
    assert s.enqueued[|s.dequeued|] == job;
    forall j <- s.dequeued ensures j.scanId != job.scanId {
      var i :| 0 <= i < |s.dequeued| && s.dequeued[i] == j;
      assert s.enqueued[i] == j;
    }
  }

  lemma TakeKeepsRows(s: State, s': State, w: WorkerId, job: Job, pc: Pc)
    requires RowInv(s) && RedisInv(s) && w !in s.workers && job.scanId !in Ids(s.dequeued)
    requires s' == s.(queue := s'.queue, dequeued := s.dequeued + [job], workers := s.workers[w := Task(job, 0, pc)])
    ensures !Done(s.db, job.scanId) && RowInv(s') && RedisInv(s')
  {
    var id := job.scanId;
    assert !Done(s.db, id);
    assert Ids(s'.dequeued) == Ids(s.dequeued) + {id};
    assert forall any :: Done(s'.db, any) == Done(s.db, any);
    assert forall v, any :: Holds(s', v, any) <==> Holds(s, v, any) || (v == w && any == id);
  }

  /** A worker takes a popped job of a scan that no worker held and no commit completed. */
  lemma TakeKeepsInv(s: State, w: WorkerId, job: Job)
    requires WorkerInv(s) && RowInv(s) && PcInv(s) && RedisInv(s) && s.maxRetries > 0
    requires w !in s.workers && job.scanId in s.db.scans && job.scanId !in Ids(s.dequeued)
    ensures var s' := s.(dequeued := s.dequeued + [job], workers := s.workers[w := Task(job, 0, EnterInitializing)]);
      WorkerInv(s') && RowInv(s') && PcInv(s') && RedisInv(s')
  {
    var s' := s.(dequeued := s.dequeued + [job], workers := s.workers[w := Task(job, 0, EnterInitializing)]);
    var id := job.scanId;
    TakeKeepsRows(s, s', w, job, EnterInitializing);
    hide RowInv, RedisInv;
    forall v <- s'.workers ensures TaskInv(s', s'.workers[v]) {
      if v != w {
        assert TaskInv(s, s.workers[v]);
      }
    }
    forall v | v in s.workers ensures s.workers[v].job.scanId != id {
      assert s.workers[v].job.scanId in Ids(s.dequeued);
    }
  }

  lemma PopKeepsInv(s: State, w: WorkerId)
    requires Inv(s) && w !in s.workers && s.queue != []
    ensures Inv(Apply(s, Pop(w)))
  {
    PopIsOldest(s);
    TakeKeepsInv(s, w, s.queue[|s.queue| - 1]);
    hide Reverse, RowInv, RedisInv, PcInv, WorkerInv, Ids;
    var s' := Apply(s, Pop(w));
    FrameInv(s.(dequeued := s'.dequeued, workers := s'.workers), s');
  }

  lemma OtherKeepsInv(s: State, step: Step)
    requires Inv(s) && Enabled(s, step) && (step.GiveUp? || step.PhaseExpires? || step.Tick?)
    ensures Inv(Apply(s, step))
  {
    FrameInv(s, Apply(s, step));
  }

  /** The invariant survives every step of every actor. */
  lemma StepKeepsInv(s: State, step: Step)
    requires Inv(s) && Enabled(s, step)
    ensures Inv(Apply(s, step))
  {
    hide Inv, Advance;
    match step
    case InsertScan(id, imageId, trigger) => InsertKeepsInv(s, id, imageId, trigger);
    case Enqueue(id, imageRef) => EnqueueKeepsInv(s, id, imageRef);
    case Cancel(id) => CancelKeepsInv(s, id);
    case Pop(w) => PopKeepsInv(s, w);
    case Crash(w) => ReleaseKeepsInv(s, w);
    case Work(w, out) => AdvanceKeepsInv(s, w, out);
    case _ => OtherKeepsInv(s, step);
  }
}
