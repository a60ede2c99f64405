/** What the scan job protocol promises over whole runs, from an empty deployment. */
module Guarantees {
  import opened Wrappers
  import opened Tables
  import opened Persist
  import opened Protocol

  ghost predicate Reachable(s: State) {
    exists s0 :: Init(s0) && Reaches(s0, s)
  }

  /** An empty deployment. */
  function Empty(maxRetries: nat): State {
    State(Db(map[], [], [], [], [], []), [], map[], [], 0, {}, map[], [], [], maxRetries)
  }

  lemma {:induction false} RunKeepsInv(s: State, steps: seq<Step>, t: State)
    requires Inv(s) && Run(s, steps, t)
    ensures Inv(t)
    decreases |steps|
  {
    hide Inv, Apply, Enabled;
    if steps != [] {
      StepKeepsInv(s, steps[0]);
      RunKeepsInv(Apply(s, steps[0]), steps[1..], t);
    }
  }

  lemma ReachableInv(s: State)
    requires Reachable(s)
    ensures Inv(s)
  {
    var s0 :| Init(s0) && Reaches(s0, s);
    var steps :| Run(s0, steps, s);
    InitInv(s0);
    RunKeepsInv(s0, steps, s);
  }

  // ---------------------------------------------------------------- runs compose

  lemma ReachesItself(s: State)
    ensures Reaches(s, s)
  {
    assert Run(s, [], s);
  }

  lemma {:induction false} RunConcat(s: State, a: seq<Step>, m: State, b: seq<Step>, t: State)
    requires Run(s, a, m) && Run(m, b, t)
    ensures Run(s, a + b, t)
    decreases |a|
  {
    hide Apply, Enabled;
    if a == [] {
      assert a + b == b;
    } else {
      assert (a + b)[1..] == a[1..] + b;
      RunConcat(Apply(s, a[0]), a[1..], m, b, t);
    }
  }

  lemma ReachesTransitive(s: State, m: State, t: State)
    requires Reaches(s, m) && Reaches(m, t)
    ensures Reaches(s, t)
  {
    var a :| Run(s, a, m);
    var b :| Run(m, b, t);
    RunConcat(s, a, m, b, t);
  }

  lemma OneStep(s: State, step: Step)
    requires Enabled(s, step)
    ensures Reaches(s, Apply(s, step))
  {
    hide Apply, Enabled;
    assert [step][1..] == [];
    assert Run(s, [step], Apply(s, step));
  }

  lemma OneCall(s: State, w: WorkerId, out: Outcome)
    requires w in s.workers && Possible(s, s.workers[w], out)
    ensures Reaches(s, Advance(s, w, out))
  {
    hide Advance, Possible, Reaches;
    OneStep(s, Work(w, out));
  }

  // ---------------------------------------------------------------- completed is final

  /** A worker's call writes to its own scan's rows at most, and to none after its commit. */
  lemma AdvanceIsLocal(s: State, w: WorkerId, out: Outcome)
    requires w in s.workers && Possible(s, s.workers[w], out) && s.workers[w].job.scanId in s.db.scans
    ensures OnlyScan(s.db, Advance(s, w, out).db, s.workers[w].job.scanId)
    ensures AfterCommit(s.workers[w].pc) ==> Advance(s, w, out).db == s.db
  {
    hide Committed, Fits;
    var id := s.workers[w].job.scanId;
    var db' := Advance(s, w, out).db;
    if s.workers[w].pc.CommitTx? && out.error.None? {
      CommitIsLocal(s.db, id, s.workers[w].pc.res, out.version, s.workers[w].pc.since);
    } else {
      assert db'.scans.Keys == s.db.scans.Keys;
      assert db' == s.db.(scans := db'.scans);
    }
  }

  lemma CompletedStep(s: State, step: Step, id: ScanId)
    requires Inv(s) && Enabled(s, step) && Done(s.db, id)
    ensures var db' := Apply(s, step).db;
      Done(db', id) && db'.scans[id] == s.db.scans[id] && StoredFor(db', id) == StoredFor(s.db, id)
  {
    if step.Work? {
      var t := s.workers[step.w];
      assert TaskInv(s, t);
      AdvanceIsLocal(s, step.w, step.out);
      hide Advance;
    }
  }

  lemma {:induction false} CompletedRun(s: State, steps: seq<Step>, t: State, id: ScanId)
    requires Inv(s) && Run(s, steps, t) && Done(s.db, id)
    ensures Done(t.db, id) && t.db.scans[id] == s.db.scans[id] && StoredFor(t.db, id) == StoredFor(s.db, id)
    decreases |steps|
  {
    hide Inv, Apply, Enabled, StoredFor;
    if steps != [] {
      StepKeepsInv(s, steps[0]);
      CompletedStep(s, steps[0], id);
      CompletedRun(Apply(s, steps[0]), steps[1..], t, id);
    }
  }

  /**
   Once a scan is completed, no later step of any producer, worker, retry or cancel changes its status, counters,
   times, error message or stored results; and it started before it completed.
   */
  lemma CompletedIsFinal(s: State, t: State, id: ScanId)
    requires Reachable(s) && Reaches(s, t)
    requires id in s.db.scans && s.db.scans[id].status == Status.Completed
    ensures id in t.db.scans && t.db.scans[id] == s.db.scans[id]
    ensures StoredFor(t.db, id) == StoredFor(s.db, id)
    ensures var r := t.db.scans[id];
      r.startedAt.Some? && r.completedAt.Some? && r.startedAt.value <= r.completedAt.value && r.errorMessage.None?
  {
    ReachableInv(s);
    var steps :| Run(s, steps, t);
    CompletedRun(s, steps, t, id);
    assert Done(s.db, id);
  }

  // ---------------------------------------------------------------- the story of a row

  /** What the columns of a scan's row say with each status. */
  ghost predicate RowShape(r: ScanRow, clock: Time) {
    && (r.startedAt.Some? ==> r.startedAt.value <= clock)
    && (r.status == Pending ==>
          r.startedAt.None? && r.completedAt.None? && r.errorMessage.None? && r.counts == ZERO_COUNTS)
    && (r.status == Running ==> r.startedAt.Some?)
    && (r.status == Status.Completed || r.status == Status.Failed || r.status == Cancelled ==>
          r.completedAt.Some? && r.completedAt.value <= clock)
    && (r.status == Status.Failed ==> r.errorMessage.Some?)
  }

  /** The image and the trigger never change, nor does a start time once it is set. */
  ghost predicate RowKept(a: ScanRow, b: ScanRow) {
    && b.imageId == a.imageId && b.triggeredBy == a.triggeredBy
    && (a.startedAt.Some? ==> b.startedAt == a.startedAt)
  }

  /** The writes of a worker to the row of its own scan. */
  lemma OwnRow(s: State, t: Task, out: Outcome)
    requires Possible(s, t, out) && TaskInv(s, t) && RowShape(s.db.scans[t.job.scanId], s.clock)
    ensures var id, db' := t.job.scanId, DbAfter(s, t, out);
      id in db'.scans && RowShape(db'.scans[id], s.clock) && RowKept(s.db.scans[id], db'.scans[id])
  {
    hide Committed, Fits, Done, Report;
    if t.pc.CommitTx? && out.error.None? {
      CommitRow(s.db, t.job.scanId, t.pc.res, out.version, t.pc.since);
    }
  }

  lemma WorkKeepsRow(s: State, w: WorkerId, out: Outcome, id: ScanId)
    requires Inv(s) && w in s.workers && Possible(s, s.workers[w], out)
    requires id in s.db.scans && RowShape(s.db.scans[id], s.clock)
    ensures var db' := Advance(s, w, out).db;
      id in db'.scans && RowShape(db'.scans[id], s.clock) && RowKept(s.db.scans[id], db'.scans[id])
  {
    HeldIsKnown(s, w);
    hide Inv, RowShape, DbAfter, NextTask, PhaseSet, EventSent, Possible;
    if id == s.workers[w].job.scanId {
      OwnRow(s, s.workers[w], out);
    } else {
      AdvanceIsLocal(s, w, out);
    }
  }

  lemma StepKeepsRow(s: State, step: Step, id: ScanId)
    requires Inv(s) && Enabled(s, step) && id in s.db.scans && RowShape(s.db.scans[id], s.clock)
    ensures var s' := Apply(s, step);
      id in s'.db.scans && RowShape(s'.db.scans[id], s'.clock) && RowKept(s.db.scans[id], s'.db.scans[id])
  {
    hide Inv, Advance, Possible;
    if step.Work? {
      WorkKeepsRow(s, step.w, step.out, id);
      ClockStays(s, step.w, step.out);
    }
  }

  lemma ClockStays(s: State, w: WorkerId, out: Outcome)
    requires w in s.workers && Possible(s, s.workers[w], out)
    ensures Advance(s, w, out).clock == s.clock
  {
    hide DbAfter, NextTask, PhaseSet, EventSent;
  }

  lemma {:induction false} RunKeepsRow(s: State, steps: seq<Step>, t: State, id: ScanId)
    requires Inv(s) && Run(s, steps, t) && id in s.db.scans && RowShape(s.db.scans[id], s.clock)
    ensures id in t.db.scans && RowShape(t.db.scans[id], t.clock) && RowKept(s.db.scans[id], t.db.scans[id])
    decreases |steps|
  {
    hide Inv, Apply, Enabled, RowShape;
    if steps != [] {
      StepKeepsInv(s, steps[0]);
      StepKeepsRow(s, steps[0], id);
      RunKeepsRow(Apply(s, steps[0]), steps[1..], t, id);
    }
  }

  ghost predicate AllShaped(s: State) {
    forall id <- s.db.scans :: RowShape(s.db.scans[id], s.clock)
  }

  lemma StepKeepsShapes(s: State, step: Step)
    requires Inv(s) && Enabled(s, step) && AllShaped(s)
    ensures AllShaped(Apply(s, step))
  {
    hide Inv, RowShape;
    forall id <- Apply(s, step).db.scans ensures RowShape(Apply(s, step).db.scans[id], Apply(s, step).clock) {
      if id in s.db.scans {
        StepKeepsRow(s, step, id);
      } else {
        NewRow(s, step, id);
      }
    }
  }

  lemma NewRow(s: State, step: Step, id: ScanId)
    requires Inv(s) && Enabled(s, step) && id !in s.db.scans && id in Apply(s, step).db.scans
    ensures RowShape(Apply(s, step).db.scans[id], Apply(s, step).clock)
  {
    hide Inv, Advance;
    if step.Work? {
      assert TaskInv(s, s.workers[step.w]) by {
        HeldIsKnown(s, step.w);
      }
      AdvanceIsLocal(s, step.w, step.out);
    }
  }

  lemma HeldIsKnown(s: State, w: WorkerId)
    requires Inv(s) && w in s.workers
    ensures TaskInv(s, s.workers[w])
  {
  }

  lemma {:induction false} RunKeepsShapes(s: State, steps: seq<Step>, t: State)
    requires Inv(s) && Run(s, steps, t) && AllShaped(s)
    ensures AllShaped(t)
    decreases |steps|
  {
    hide Inv, Apply, Enabled, AllShaped;
    if steps != [] {
      StepKeepsInv(s, steps[0]);
      StepKeepsShapes(s, steps[0]);
      RunKeepsShapes(Apply(s, steps[0]), steps[1..], t);
    }
  }

  /** In every reachable state a row's columns fit its status, and later states keep its image, trigger and start. */
  lemma RowStory(s: State, t: State, id: ScanId)
    requires Reachable(s) && Reaches(s, t) && id in s.db.scans
    ensures RowShape(s.db.scans[id], s.clock)
    ensures id in t.db.scans && RowShape(t.db.scans[id], t.clock) && RowKept(s.db.scans[id], t.db.scans[id])
  {
    ReachableInv(s);
    var s0 :| Init(s0) && Reaches(s0, s);
    var before :| Run(s0, before, s);
    var steps :| Run(s, steps, t);
    InitInv(s0);
    assert AllShaped(s0);
    hide Inv, RowShape, RowKept;
    RunKeepsShapes(s0, before, s);
    RunKeepsRow(s, steps, t, id);
  }

  // ---------------------------------------------------------------- results and counters

  /** Results are stored for completed scans only, and the counters always are the histogram of the stored findings. */
  lemma ResultsOnlyWhenCompleted(s: State, id: ScanId)
    requires Reachable(s)
    ensures StoredFor(s.db, id) != NOTHING_STORED ==> id in s.db.scans && s.db.scans[id].status == Status.Completed
    ensures id in s.db.scans ==> s.db.scans[id].counts == Histogram(RowsOf(s.db.findings, id))
  {
    ReachableInv(s);
    if !Done(s.db, id) {
      assert Untouched(s.db, id);
      assert RowsOf(s.db.findings, id) == NOTHING_STORED.findings;
    }
  }

  // ---------------------------------------------------------------- the queue

  /** What the worker side still owes a scan: its job is in the list, or a worker holds it. */
  ghost predicate Queued(s: State, id: ScanId) {
    id in Ids(s.queue)
  }

  ghost predicate Held(s: State, id: ScanId) {
    exists w :: Holds(s, w, id)
  }

  lemma {:induction false} ReverseMembers<T>(q: seq<T>)
    ensures |Reverse(q)| == |q|
    ensures forall i :: 0 <= i < |q| ==> Reverse(q)[i] == q[|q| - 1 - i]
  {
    if q != [] {
      ReverseMembers(q[1..]);
    }
  }

  /** The list is first-in first-out: popped jobs, then the list from its pop end, are the pushed jobs in order. */
  lemma Fifo(s: State)
    requires Reachable(s)
    ensures s.dequeued + Reverse(s.queue) == s.enqueued
    ensures forall i, j :: 0 <= i < j < |s.enqueued| ==> s.enqueued[i].scanId != s.enqueued[j].scanId
  {
    ReachableInv(s);
  }

  /** The histories split: every pushed job is popped or still listed, and no job is both. */
  lemma HistorySplits(s: State)
    requires QueueInv(s)
    ensures Ids(s.enqueued) == Ids(s.dequeued) + Ids(s.queue)
    ensures Ids(s.dequeued) !! Ids(s.queue)
    ensures forall i, j :: 0 <= i < j < |s.queue| ==> s.queue[i].scanId != s.queue[j].scanId
  {
    var n, q := |s.dequeued|, |s.queue|;
    ReverseMembers(s.queue);
    assert forall i :: 0 <= i < q ==> s.enqueued[n + q - 1 - i] == s.queue[i];
    assert forall i :: 0 <= i < n ==> s.enqueued[i] == s.dequeued[i];
    assert forall k :: n <= k < n + q ==> s.enqueued[k] == s.queue[n + q - 1 - k];
    hide Reverse;
    forall d, j | d in s.dequeued && j in s.queue ensures d.scanId != j.scanId {
      var i :| 0 <= i < q && s.queue[i] == j;
      var k :| 0 <= k < n && s.dequeued[k] == d;
      assert s.enqueued[k] == d && s.enqueued[n + q - 1 - i] == j;
    }
    forall i, j | 0 <= i < j < q ensures s.queue[i].scanId != s.queue[j].scanId {
      assert s.enqueued[n + q - 1 - i] == s.queue[i] && s.enqueued[n + q - 1 - j] == s.queue[j];
    }
  }

  /** A scan waits for its producer, sits in the list once, or is held by one worker: never two of these. */
  lemma JobConservation(s: State, id: ScanId)
    requires Reachable(s)
    ensures forall i, j :: 0 <= i < j < |s.queue| ==> s.queue[i].scanId != s.queue[j].scanId
    ensures forall v, w :: Holds(s, v, id) && Holds(s, w, id) ==> v == w
    ensures !(id in s.producers && Queued(s, id)) && !(id in s.producers && Held(s, id))
    ensures !(Queued(s, id) && Held(s, id))
    ensures id in Ids(s.enqueued) <==> id in Ids(s.dequeued) || Queued(s, id)
    ensures Held(s, id) ==> id in Ids(s.dequeued)
  {
    ReachableInv(s);
    HistorySplits(s);
    hide QueueInv;
    assert QueueInv(s);
    DisjointProducers(s);
    if Held(s, id) {
      var w :| Holds(s, w, id);
      assert s.workers[w].job in s.dequeued;
    }
  }

  lemma DisjointProducers(s: State)
    requires QueueInv(s)
    ensures Ids(s.enqueued) !! s.producers
  {
  }

  // ---------------------------------------------------------------- Redis never runs ahead

  /** A "completed" event or phase key implies a completed row with its results, now and for good. */
  lemma NothingAheadOfCommit(s: State, t: State, id: ScanId)
    requires Reachable(s) && Reaches(s, t)
    requires ScanCompleted(id) in s.events || (id in s.phases && s.phases[id] == Phase.Completed)
    ensures id in s.db.scans && s.db.scans[id].status == Status.Completed
    ensures id in t.db.scans && t.db.scans[id] == s.db.scans[id]
    ensures StoredFor(t.db, id) == StoredFor(s.db, id)
  {
    ReachableInv(s);
    CompletedIsFinal(s, t, id);
  }

  /** A scan's "completed" event is published at most once, and nothing about the scan is published after it. */
  lemma CompletedEventIsLast(s: State, i: nat, j: nat)
    requires Reachable(s) && i < |s.events| && j < |s.events|
    requires s.events[i].ScanCompleted? && s.events[j].scanId == s.events[i].scanId
    ensures j <= i
  {
    ReachableInv(s);
  }

  // ---------------------------------------------------------------- the progress endpoint

  datatype Shown = ShownRunning | ShownCompleted | ShownFailed

  /** phaseToStatus on a phase read from Redis. */
  function PhaseToStatus(p: Phase): Shown {
    match p
    case Initializing => ShownRunning
    case Scanning => ShownRunning
    case Persisting => ShownRunning
    case Completed => ShownCompleted
    case Failed => ShownFailed
  }

  /** phaseToStatus on a status read from Postgres: pending, running and cancelled fall to the default. */
  function StatusToStatus(st: Status): Shown {
    match st
    case Completed => ShownCompleted
    case Failed => ShownFailed
    case _ => ShownRunning
  }

  /**
   scanProgress reads Redis in one state and, when that read fails, Postgres in a later one, where `listed` says that
   the scan's image and registry are not deleted.
   */
  function ScanProgress(redis: State, postgres: State, id: ScanId, redisFails: bool, listed: bool): Option<Shown> {
    if !redisFails && id in redis.phases then Some(PhaseToStatus(redis.phases[id]))
    else if listed && id in postgres.db.scans then Some(StatusToStatus(postgres.db.scans[id].status))
    else None
  }

  /** What the endpoint answers in one state, whether or not its read of Redis fails. */
  ghost predicate ProgressIs(s: State, id: ScanId, shown: Shown) {
    forall redisFails :: ScanProgress(s, s, id, redisFails, true) == Some(shown)
  }

  /** Whatever runs between its two reads, the endpoint shows "completed" only for a completed row. */
  lemma ProgressIsHonest(s: State, t: State, id: ScanId, redisFails: bool, listed: bool)
    requires Reachable(s) && Reaches(s, t)
    requires ScanProgress(s, t, id, redisFails, listed) == Some(ShownCompleted)
    ensures id in t.db.scans && t.db.scans[id].status == Status.Completed
    ensures t.db.scans[id].counts == Histogram(RowsOf(t.db.findings, id))
  {
    ReachableInv(s);
    var steps :| Run(s, steps, t);
    RunKeepsInv(s, steps, t);
    if !redisFails && id in s.phases {
      assert Done(s.db, id);
      CompletedRun(s, steps, t, id);
    }
    assert Done(t.db, id);
  }

  // ---------------------------------------------------------------- nothing gets stuck

  /** Some worker is idle. */
  lemma IdleWorker(busy: set<WorkerId>) returns (w: WorkerId)
    ensures w !in busy
  {
    w := 0;
    var below: set<nat> := {};
    while w in busy
      invariant below <= busy && forall v: nat :: v in below <==> v < w
      decreases busy - below
    {
      below, w := below + {w}, w + 1;
    }
  }

  /** From any state with a listed job, the workers can get to it. */
  lemma {:induction false} QueuedCanBeHeld(s: State, id: ScanId) returns (t: State, w: WorkerId)
    requires Queued(s, id) && id in s.db.scans
    ensures Reaches(s, t) && Holds(t, w, id) && t.workers[w].pc == EnterInitializing && t.db == s.db
    decreases |s.queue|
  {
    hide Reaches;
    w := IdleWorker(s.workers.Keys);
    var n := |s.queue| - 1;
    t := Apply(s, Pop(w));
    OneStep(s, Pop(w));
    if s.queue[n].scanId != id {
      var job :| job in s.queue && job.scanId == id;
      assert job in s.queue[..n];
      var dropped := Apply(t, Crash(w));
      OneStep(t, Crash(w));
      assert Queued(dropped, id);
      ReachesTransitive(s, t, dropped);
      t, w := QueuedCanBeHeld(dropped, id);
      ReachesTransitive(s, dropped, t);
    }
  }

  /** Calls left on the way to the commit of `res`. */
  function CallsToCommit(pc: Pc, res: ScanResult): Option<nat> {
    match pc
    case EnterInitializing => Some(6)
    case UpdateRunning => Some(5)
    case EnterScanning => Some(4)
    case ScanImage => Some(3)
    case EnterPersisting(r) => if r == res then Some(2) else None
    case BeginTx(r) => if r == res then Some(1) else None
    case CommitTx(r, _) => if r == res then Some(0) else None
    case _ => None
  }

  lemma {:induction false} HeldCanComplete(s: State, w: WorkerId, res: ScanResult) returns (t: State)
    requires w in s.workers && s.workers[w].job.scanId in s.db.scans && RowsFit(res)
    requires CallsToCommit(s.workers[w].pc, res).Some?
    ensures var id := s.workers[w].job.scanId;
      Reaches(s, t) && Done(t.db, id) && StoredFor(t.db, id) == Wanted(res)
    decreases CallsToCommit(s.workers[w].pc, res).GetOr(0)
  {
    hide Reaches, Committed, RowsFit, Wanted, StoredFor, SetFailed;
    var id, pc := s.workers[w].job.scanId, s.workers[w].pc;
    var out := Outcome(true, None, Some(res), "");
    t := Advance(s, w, out);
    OneCall(s, w, out);
    if pc.CommitTx? {
      CommitReplaces(s.db, id, res, "", pc.since);
      CommitRow(s.db, id, res, "", pc.since);
    } else {
      var m := t;
      t := HeldCanComplete(m, w, res);
      ReachesTransitive(s, m, t);
    }
  }

  /** Whatever has happened, a listed scan can still complete with any result the schema accepts. */
  lemma QueuedCanComplete(s: State, id: ScanId, res: ScanResult)
    requires Reachable(s) && Queued(s, id) && RowsFit(res)
    ensures exists t :: Reaches(s, t) && Done(t.db, id) && StoredFor(t.db, id) == Wanted(res)
  {
    ReachableInv(s);
    HistorySplits(s);
    hide Inv, Reaches, RowsFit, StoredFor, Wanted;
    var m, w := QueuedCanBeHeld(s, id);
    var t := HeldCanComplete(m, w, res);
    ReachesTransitive(s, m, t);
  }
}
