/**
 internal/worker/runner.go: the worker as code. Between any two calls the other actors of the protocol may take any
 number of steps; the code is proved to take protocol steps only, in the protocol's order.
 */
module Runner {
  import opened Wrappers
  import opened Int64
  import opened Tables
  import opened Backend
  import opened Persist
  import opened Protocol
  import opened Guarantees
  import opened Phases

  /** Postgres, Redis and, as ghost state, where every actor stands. */
  class Deployment {
    const pool: Pool
    const maxRetries: nat
    var queue: seq<Job>
    var phases: map<ScanId, Phase>
    var events: seq<Event>
    var clock: Time
    ghost var producers: set<ScanId>
    ghost var workers: map<WorkerId, Task>
    ghost var enqueued: seq<Job>
    ghost var dequeued: seq<Job>

    /** initDefaults replaces a retry limit that is not positive. */
    constructor (pool: Pool, maxRetries: int)
      ensures this.pool == pool && this.maxRetries == if maxRetries <= 0 then 3 else maxRetries
      ensures queue == [] && phases == map[] && events == [] && clock == 0
      ensures producers == {} && workers == map[] && enqueued == [] && dequeued == []
    {
      this.pool := pool;
      this.maxRetries := if maxRetries <= 0 then 3 else maxRetries;
      queue, phases, events, clock := [], map[], [], 0;
      producers, workers, enqueued, dequeued := {}, map[], [], [];
    }

    ghost function View(): State
      reads this, pool
    {
      State(pool.Contents(), queue, phases, events, clock, producers, workers, enqueued, dequeued, maxRetries)
    }
  }

  // ---------------------------------------------------------------- interference

  predicate Own(step: Step, w: WorkerId) {
    step == Pop(w) || step == Crash(w) || (step.Work? && step.w == w)
  }

  /** The others ran from s to t; worker w took no step and did not crash. */
  ghost predicate OthersRan(s: State, steps: seq<Step>, t: State, w: WorkerId) {
    Run(s, steps, t) && forall step <- steps :: !Own(step, w)
  }

  lemma OtherStepKeepsTask(s: State, step: Step, w: WorkerId)
    requires Enabled(s, step) && !Own(step, w)
    ensures var s' := Apply(s, step);
      && s'.maxRetries == s.maxRetries
      && (w in s'.workers <==> w in s.workers)
      && (w in s.workers ==> s'.workers[w] == s.workers[w])
  {
    hide DbAfter, NextTask, PhaseSet, EventSent, Possible, SetCancelled;
  }

  lemma {:induction false} OthersKeepTask(s: State, steps: seq<Step>, t: State, w: WorkerId)
    requires Inv(s) && OthersRan(s, steps, t, w)
    ensures Inv(t) && Reaches(s, t) && t.maxRetries == s.maxRetries
    ensures w in t.workers <==> w in s.workers
    ensures w in s.workers ==> t.workers[w] == s.workers[w]
    decreases |steps|
  {
    hide Inv, Apply, Enabled, Own;
    if steps != [] {
      StepKeepsInv(s, steps[0]);
      OtherStepKeepsTask(s, steps[0], w);
      OthersKeepTask(Apply(s, steps[0]), steps[1..], t, w);
    }
  }

  /**
   Any number of steps of the other actors, none when the worker is alone. Callers see this contract only, so any of
   them is possible.
   */
  method Interfere(d: Deployment, ghost w: WorkerId, alone: bool)
    requires Inv(d.View())
    modifies d, d.pool
    ensures exists steps :: OthersRan(old(d.View()), steps, d.View(), w) && (alone ==> steps == [])
  {
    assert OthersRan(d.View(), [], d.View(), w);
  }

  // ---------------------------------------------------------------- the calls of runPipeline

  /** Worker w made one call, ending as `out`, after the others had run; its next task is `next`. */
  ghost predicate Called(s: State, t: State, w: WorkerId, out: Outcome) {
    exists m :: CalledIn(s, m, t, w, out)
  }

  ghost predicate CalledIn(s: State, m: State, t: State, w: WorkerId, out: Outcome) {
    && (exists steps :: OthersRan(s, steps, m, w))
    && w in m.workers && Possible(m, m.workers[w], out)
    && t == Advance(m, w, out)
  }

  lemma OwnCall(m: State, w: WorkerId, out: Outcome)
    requires Inv(m) && w in m.workers && Possible(m, m.workers[w], out)
    requires !m.workers[w].pc.PublishCompleted? && !m.workers[w].pc.Returned?
    ensures var t := Advance(m, w, out);
      w in t.workers && t.workers[w] == m.workers[w].(pc := NextPc(m.workers[w].pc, out, true, m.clock))
  {
    assert TaskInv(m, m.workers[w]);
    hide Inv, TaskInv, DbAfter, PhaseSet, EventSent, NextPc;
  }

  /** What a caller may use about a call: the invariant and the run so far ... */
  lemma AfterCall(s: State, t: State, w: WorkerId, out: Outcome)
    requires Inv(s) && w in s.workers && Called(s, t, w, out)
    ensures Inv(t) && Reaches(s, t) && t.maxRetries == s.maxRetries
  {
    hide Inv, Possible, Advance, Run, OthersRan, Reaches;
    var m :| CalledIn(s, m, t, w, out);
    var steps :| OthersRan(s, steps, m, w);
    OthersKeepTask(s, steps, m, w);
    AdvanceKeepsInv(m, w, out);
    OneCall(m, w, out);
    ReachesTransitive(s, m, t);
    KeepsLimit(m, w, out);
  }

  /** ... and the worker's own next call. */
  lemma NextCall(s: State, t: State, w: WorkerId, out: Outcome) returns (now: Time)
    requires Inv(s) && w in s.workers && Called(s, t, w, out)
    requires !s.workers[w].pc.PublishCompleted? && !s.workers[w].pc.Returned?
    requires s.workers[w].pc.ScanImage? && out.error.None? ==> out.scanned.Some?
    ensures w in t.workers && t.workers[w] == s.workers[w].(pc := NextPc(s.workers[w].pc, out, true, now))
  {
    hide Inv, Possible, Advance, NextPc, Run, OthersRan, Reaches;
    var m :| CalledIn(s, m, t, w, out);
    var steps :| OthersRan(s, steps, m, w);
    OthersKeepTask(s, steps, m, w);
    OwnCall(m, w, out);
    now := m.clock;
  }

  lemma KeepsLimit(s: State, w: WorkerId, out: Outcome)
    requires w in s.workers && Possible(s, s.workers[w], out)
    ensures Advance(s, w, out).maxRetries == s.maxRetries
  {
    hide DbAfter, PhaseSet, EventSent, NextTask;
  }

  // ---------------------------------------------------------------- what a reported failure leaves

  ghost predicate FailedWith(db: Db, id: ScanId, message: string) {
    id in db.scans && db.scans[id].status == Status.Failed && db.scans[id].errorMessage == Some(message)
  }

  /** The row, the events and the phase key, as long as it is there, show the failure. */
  ghost predicate Reported(s: State, id: ScanId, failure: Failure) {
    && FailedWith(s.db, id, Report(failure)) && ScanFailed(id, Report(failure)) in s.events
    && KeyIs(s, id, Phase.Failed)
  }

  /** Between s0 and t the row was failed first, and then the failure was published. */
  ghost predicate MarkedFirst(s0: State, t: State, id: ScanId, message: string) {
    exists s ::
      && Reaches(s0, s) && FailedWith(s.db, id, message) && Reaches(s, t)
      && |s.events| < |t.events| && t.events[|t.events| - 1] == ScanFailed(id, message)
  }

  /** What an attempt leaves behind: the failure it returned, or the completion. */
  ghost predicate Announced(s: State, id: ScanId, err: Option<Failure>) {
    if err.Some? then Reported(s, id, err.value)
    else ScanCompleted(id) in s.events && KeyIs(s, id, Phase.Completed)
  }

  /** The progress endpoint then shows how the attempt ended, from the key or, without one, from the row. */
  lemma AnnouncedShows(s: State, id: ScanId, err: Option<Failure>)
    requires Announced(s, id, err) && (err.None? ==> Done(s.db, id))
    ensures ProgressIs(s, id, if err.None? then ShownCompleted else ShownFailed)
  {
    hide Report;
  }

  lemma AdvanceKeepsEvents(s: State, w: WorkerId, out: Outcome)
    requires w in s.workers && Possible(s, s.workers[w], out)
    ensures s.events <= Advance(s, w, out).events
  {
    hide DbAfter, PhaseSet, EventSent, NextTask;
  }

  lemma {:induction false} EventsStay(s: State, steps: seq<Step>, t: State)
    requires Run(s, steps, t)
    ensures s.events <= t.events && t.maxRetries == s.maxRetries
    decreases |steps|
  {
    hide Advance, Possible;
    if steps != [] {
      if steps[0].Work? {
        AdvanceKeepsEvents(s, steps[0].w, steps[0].out);
        KeepsLimit(s, steps[0].w, steps[0].out);
      }
      EventsStay(Apply(s, steps[0]), steps[1..], t);
    }
  }

  /** The others keep what was published, and a held scan that has failed. */
  lemma OtherStepKeepsReport(s: State, step: Step, w: WorkerId, message: string)
    requires Inv(s) && Enabled(s, step) && !Own(step, w) && w in s.workers
    ensures s.events <= Apply(s, step).events
    ensures FailedWith(s.db, s.workers[w].job.scanId, message) ==>
      FailedWith(Apply(s, step).db, s.workers[w].job.scanId, message)
  {
    hide Inv, Advance, FailedWith;
    if step.Work? {
      OtherWorkKeepsReport(s, step.w, step.out, w, message);
    } else {
      OtherCallKeepsReport(s, step, s.workers[w].job.scanId, message);
    }
  }

  lemma OtherWorkKeepsReport(s: State, v: WorkerId, out: Outcome, w: WorkerId, message: string)
    requires Inv(s) && v in s.workers && Possible(s, s.workers[v], out) && v != w && w in s.workers
    ensures s.events <= Advance(s, v, out).events
    ensures FailedWith(s.db, s.workers[w].job.scanId, message) ==>
      FailedWith(Advance(s, v, out).db, s.workers[w].job.scanId, message)
  {
    assert TaskInv(s, s.workers[v]);
    assert s.workers[v].job.scanId != s.workers[w].job.scanId;
    hide Inv, TaskInv, Advance, Possible;
    AdvanceIsLocal(s, v, out);
    AdvanceKeepsEvents(s, v, out);
  }

  lemma OtherCallKeepsReport(s: State, step: Step, id: ScanId, message: string)
    requires Enabled(s, step) && !step.Work?
    ensures s.events <= Apply(s, step).events
    ensures FailedWith(s.db, id, message) ==> FailedWith(Apply(s, step).db, id, message)
  {
    hide Advance, Possible;
  }

  lemma {:induction false} OthersKeepReport(s: State, steps: seq<Step>, t: State, w: WorkerId, message: string)
    requires Inv(s) && OthersRan(s, steps, t, w) && w in s.workers
    ensures s.events <= t.events
    ensures FailedWith(s.db, s.workers[w].job.scanId, message) ==> FailedWith(t.db, s.workers[w].job.scanId, message)
    decreases |steps|
  {
    hide Inv, Apply, Enabled, Own, FailedWith;
    if steps != [] {
      StepKeepsInv(s, steps[0]);
      OtherStepKeepsTask(s, steps[0], w);
      OtherStepKeepsReport(s, steps[0], w, message);
      OthersKeepReport(Apply(s, steps[0]), steps[1..], t, w, message);
    }
  }

  lemma {:induction false} OthersTakeEffect(s: State, steps: seq<Step>, t: State, w: WorkerId)
    requires OthersRan(s, steps, t, w)
    ensures PhasesTakeEffect(s, steps, w)
    decreases |steps|
  {
    hide Apply, Enabled;
    if steps != [] {
      assert !Own(steps[0], w);
      OthersTakeEffect(Apply(s, steps[0]), steps[1..], t, w);
    }
  }

  /** A call leaves the key at the phase of the attempt: a phase call that takes effect, or one of the other calls. */
  lemma CallKeepsKey(s: State, t: State, w: WorkerId, out: Outcome)
    requires Inv(s) && w in s.workers && Called(s, t, w, out)
    requires if PhaseCall(s.workers[w].pc) then out.applied else KeyOk(s, w)
    ensures KeyOk(t, w)
    ensures
      var pc := s.workers[w].pc;
      !PhaseCall(pc) && PhaseBefore(pc).Some? ==> KeyIs(t, s.workers[w].job.scanId, PhaseBefore(pc).value)
  {
    hide Inv, Possible, Run, OthersRan, PhaseBefore, PhaseCall, Advance;
    var m :| CalledIn(s, m, t, w, out);
    var steps :| OthersRan(s, steps, m, w);
    OthersKeepTask(s, steps, m, w);
    if !PhaseCall(s.workers[w].pc) {
      OthersTakeEffect(s, steps, m, w);
      RunOfOthers(s, steps, m, w);
      KeyFollowsAttempt(s, steps, m, w);
    }
    OwnCallKeepsKey(m, w, out);
  }

  lemma RunOfOthers(s: State, steps: seq<Step>, t: State, w: WorkerId)
    requires OthersRan(s, steps, t, w)
    ensures Run(s, steps, t)
  {
  }

  lemma CallKeepsReport(s: State, t: State, w: WorkerId, out: Outcome, message: string)
    requires Inv(s) && w in s.workers && Called(s, t, w, out)
    ensures s.events <= t.events
    ensures s.workers[w].pc.FailedPublish? || s.workers[w].pc.Returned? ==>
      (FailedWith(s.db, s.workers[w].job.scanId, message) ==> FailedWith(t.db, s.workers[w].job.scanId, message))
  {
    hide Inv, Possible, Run, OthersRan, FailedWith, PhaseSet, EventSent, NextTask;
    var m :| CalledIn(s, m, t, w, out);
    var steps :| OthersRan(s, steps, m, w);
    OthersKeepTask(s, steps, m, w);
    OthersKeepReport(s, steps, m, w, message);
    AdvanceKeepsEvents(m, w, out);
  }

  /** The scan is completed and holds exactly this result, counted and described in its row. */
  ghost predicate Recorded(db: Db, id: ScanId, res: ScanResult, version: string) {
    && Done(db, id) && StoredFor(db, id) == Wanted(res)
    && Counted(db.scans[id].counts, res.vulnerabilities) && Described(db.scans[id], res.metadata, version)
  }

  lemma CommitRecords(db: Db, id: ScanId, res: ScanResult, version: string, now: Time)
    requires id in db.scans
    ensures Recorded(Committed(db, id, res, version, now), id, res, version)
  {
    CommitReplaces(db, id, res, version, now);
    CommitRow(db, id, res, version, now);
    CommitCounts(db, id, res, version, now);
    hide Committed, Counted, Described, Wanted, StoredFor;
  }

  lemma RecordedIsDone(db: Db, id: ScanId, res: ScanResult, version: string)
    requires Recorded(db, id, res, version)
    ensures Done(db, id)
  {
  }

  // ---------------------------------------------------------------- calls as code

  /** What the scanner gives: any result, or any error. */
  type Answer = Result<ScanResult, Failure>

  /** Worker w is about to make the call `pc` for scan `id`. */
  ghost predicate At(d: Deployment, w: WorkerId, job: Job, attempt: nat, pc: Pc)
    reads d, d.pool
  {
    Inv(d.View()) && w in d.workers && d.workers[w] == Task(job, attempt, pc)
  }

  /** The step of worker w from m to now, recorded in the ghost program counter. */
  ghost method Account(d: Deployment, w: WorkerId, m: State, out: Outcome)
    requires w in m.workers && Possible(m, m.workers[w], out) && d.workers == m.workers
    requires var t := Advance(m, w, out); d.View() == t.(workers := m.workers)
    modifies d`workers
    ensures d.View() == Advance(m, w, out)
  {
    var next := NextTask(m, m.workers[w], out);
    d.workers := if next.Some? then m.workers[w := next.value] else m.workers - {w};
  }

  /** The outcome of a Postgres or Redis call; when `calm`, calls do not fail. */
  method AnyError(calm: bool) returns (err: Option<Failure>, applied: bool)
    ensures calm ==> err.None?
    ensures err.None? ==> applied
    ensures err.Some? ==> !err.value.pull
  {
    var fails: bool :| calm ==> !fails;
    var message: string := *;
    applied := *;
    if fails {
      err := Some(Failure(message, false));
    } else {
      err, applied := None, true;
    }
  }

  /** Interference, with what worker w may rely on afterwards. */
  method Yield(d: Deployment, ghost w: WorkerId, alone: bool)
    requires Inv(d.View()) && w in d.workers
    modifies d, d.pool
    ensures Inv(d.View()) && w in d.workers && d.workers[w] == old(d.workers[w])
    ensures exists steps :: OthersRan(old(d.View()), steps, d.View(), w)
    ensures alone ==> d.View() == old(d.View())
  {
    Interfere(d, w, alone);
    ghost var steps :| OthersRan(old(d.View()), steps, d.View(), w) && (alone ==> steps == []);
    OthersKeepTask(old(d.View()), steps, d.View(), w);
  }

  lemma ScanKnown(s: State, w: WorkerId)
    requires Inv(s) && w in s.workers
    ensures s.workers[w].job.scanId in s.db.scans
  {
    assert TaskInv(s, s.workers[w]);
  }

  /** A call that sets a phase key or publishes an event does nothing else. */
  lemma RedisCallsOnly(s: State, t: Task, out: Outcome)
    ensures PhaseSet(t.pc).Some? ==> DbAfter(s, t, out) == s.db && EventSent(t.job.scanId, t.pc).None?
    ensures EventSent(t.job.scanId, t.pc).Some? ==> DbAfter(s, t, out) == s.db && PhaseSet(t.pc).None?
  {
  }

  method SetScanPhase(d: Deployment, ghost w: WorkerId, id: ScanId, phase: Phase, alone: bool, calm: bool)
    returns (ghost out: Outcome)
    requires Inv(d.View()) && w in d.workers && d.workers[w].job.scanId == id
    requires PhaseSet(d.workers[w].pc) == Some(phase)
    modifies d, d.pool
    ensures alone ==> d.queue == old(d.queue)
    ensures Called(old(d.View()), d.View(), w, out)
    ensures calm ==> out.applied && id in d.phases && d.phases[id] == phase
  {
    hide Inv, OthersRan, NextTask, PhaseSet, EventSent, DbAfter;
    Yield(d, w, alone);
    ghost var m := d.View();
    var err, applied := AnyError(calm);
    out := Outcome(applied, err, None, "");
    assert Possible(m, m.workers[w], out) by {
      PhaseCallPossible(m, w, out);
    }
    RedisCallsOnly(m, m.workers[w], out);
    if applied {
      d.phases := d.phases[id := phase];
    }
    Account(d, w, m, out);
    assert CalledIn(old(d.View()), m, d.View(), w, out);
  }

  lemma PhaseCallPossible(s: State, w: WorkerId, out: Outcome)
    requires w in s.workers && (out.error.None? ==> out.applied)
    requires PhaseSet(s.workers[w].pc).Some? || EventSent(s.workers[w].job.scanId, s.workers[w].pc).Some?
    ensures Possible(s, s.workers[w], out)
  {
    hide Fits;
  }

  method PublishScanEvent(d: Deployment, ghost w: WorkerId, event: Event, alone: bool, calm: bool)
    returns (ghost out: Outcome)
    requires Inv(d.View()) && w in d.workers
    requires EventSent(d.workers[w].job.scanId, d.workers[w].pc) == Some(event)
    modifies d, d.pool
    ensures alone ==> d.queue == old(d.queue)
    ensures Called(old(d.View()), d.View(), w, out)
    ensures calm ==>
      event in d.events && |d.events| > |old(d.events)| && d.events[|d.events| - 1] == event
  {
    hide Inv, OthersRan, NextTask, PhaseSet, EventSent, DbAfter;
    Yield(d, w, alone);
    ghost var m := d.View();
    ghost var steps :| OthersRan(old(d.View()), steps, m, w);
    RunOfOthers(old(d.View()), steps, m, w);
    EventsStay(old(d.View()), steps, m);
    var err, applied := AnyError(calm);
    out := Outcome(applied, err, None, "");
    assert Possible(m, m.workers[w], out) by {
      PhaseCallPossible(m, w, out);
    }
    RedisCallsOnly(m, m.workers[w], out);
    if applied {
      d.events := d.events + [event];
    }
    Account(d, w, m, out);
    assert CalledIn(old(d.View()), m, d.View(), w, out);
  }

  method UpdateScanRunning(d: Deployment, ghost w: WorkerId, id: ScanId, alone: bool, calm: bool)
    returns (err: Option<Failure>, ghost out: Outcome)
    requires Inv(d.View()) && w in d.workers && d.workers[w].job.scanId == id && d.workers[w].pc.UpdateRunning?
    modifies d, d.pool
    ensures alone ==> d.queue == old(d.queue)
    ensures Called(old(d.View()), d.View(), w, out)
    ensures err == out.error && (err.Some? ==> !err.value.pull) && (calm ==> err.None?)
    ensures calm ==> id in d.pool.scans && d.pool.scans[id].status == Running && d.pool.scans[id].startedAt.Some?
  {
    hide Inv, OthersRan, NextTask;
    Yield(d, w, alone);
    ScanKnown(d.View(), w);
    ghost var m := d.View();
    var applied;
    err, applied := AnyError(calm);
    out := Outcome(applied, err, None, "");
    var known := id in d.pool.scans;
    if applied && known {
      var r := d.pool.scans[id];
      d.pool.scans := d.pool.scans[id := r.(
        status := Running, startedAt := if r.startedAt.Some? then r.startedAt else Some(d.clock))];
    }
    Account(d, w, m, out);
    err := if err.None? && !known then Some(NOT_FOUND) else err;
    assert CalledIn(old(d.View()), m, d.View(), w, out);
  }

  method UpdateScanFailed(d: Deployment, ghost w: WorkerId, id: ScanId, message: string, alone: bool, calm: bool)
    returns (ghost out: Outcome)
    requires Inv(d.View()) && w in d.workers && d.workers[w].job.scanId == id
    requires var pc := d.workers[w].pc; (pc.StartFailedMark? || pc.FailedMark?) && message == Report(pc.failure)
    modifies d, d.pool
    ensures alone ==> d.queue == old(d.queue)
    ensures Called(old(d.View()), d.View(), w, out)
    ensures calm ==> FailedWith(d.View().db, id, message) && d.pool.scans[id].completedAt == Some(d.clock)
  {
    hide Inv, OthersRan, NextTask, Report;
    Yield(d, w, alone);
    ScanKnown(d.View(), w);
    ghost var m := d.View();
    var err, applied := AnyError(calm);
    out := Outcome(applied, err, None, "");
    if applied {
      d.pool.scans := d.pool.scans[id := d.pool.scans[id].(
        status := Status.Failed, completedAt := Some(d.clock), errorMessage := Some(message))];
    }
    Account(d, w, m, out);
    assert CalledIn(old(d.View()), m, d.View(), w, out);
  }

  /** The scanner subprocess, which gives this answer. */
  method ScanTheImage(d: Deployment, ghost w: WorkerId, answer: Answer, alone: bool)
    returns (res: Answer, ghost out: Outcome)
    requires Inv(d.View()) && w in d.workers && d.workers[w].pc.ScanImage?
    modifies d, d.pool
    ensures alone ==> d.queue == old(d.queue)
    ensures Called(old(d.View()), d.View(), w, out)
    ensures res == answer
    ensures res.Ok? ==> out.error.None? && out.scanned == Some(res.value)
    ensures res.Err? ==> out.error == Some(res.error)
  {
    hide Inv, OthersRan, NextTask;
    Yield(d, w, alone);
    ghost var m := d.View();
    res := answer;
    match res {
      case Ok(value) => out := Outcome(true, None, Some(value), "");
      case Err(error) => out := Outcome(false, Some(error), None, "");
    }
    Account(d, w, m, out);
    assert CalledIn(old(d.View()), m, d.View(), w, out);
  }

  /** BEGIN, whose time is the now() of the whole transaction. */
  method BeginPersist(d: Deployment, ghost w: WorkerId, alone: bool, calm: bool)
    returns (err: Option<Failure>, now: Time, ghost out: Outcome)
    requires Inv(d.View()) && w in d.workers && d.workers[w].pc.BeginTx?
    modifies d, d.pool
    ensures alone ==> d.queue == old(d.queue)
    ensures Called(old(d.View()), d.View(), w, out)
    ensures err == out.error && (err.Some? ==> !err.value.pull) && (calm ==> err.None?)
    ensures w in d.workers && (err.None? ==> d.workers[w].pc == CommitTx(old(d.workers[w].pc.res), now))
  {
    hide Inv, OthersRan;
    Yield(d, w, alone);
    ghost var m := d.View();
    var applied;
    err, applied := AnyError(calm);
    out := Outcome(applied, err, None, "");
    now := d.clock;
    Account(d, w, m, out);
    assert CalledIn(old(d.View()), m, d.View(), w, out);
  }

  /** The rest of the transaction: all its rows and the completed scan, or nothing. */
  method CommitResults(d: Deployment, ghost w: WorkerId, id: ScanId, res: ScanResult, version: string, now: Time,
                       alone: bool, calm: bool)
    returns (err: Option<Failure>, ghost out: Outcome)
    requires Inv(d.View()) && w in d.workers && d.workers[w].job.scanId == id && d.workers[w].pc == CommitTx(res, now)
    modifies d, d.pool
    ensures alone ==> d.queue == old(d.queue)
    ensures Called(old(d.View()), d.View(), w, out)
    ensures err == out.error && (err.Some? ==> !err.value.pull)
    ensures calm ==> (err.None? <==> RowsFit(res))
    ensures err.None? ==> Recorded(d.View().db, id, res, version)
  {
    hide Inv, OthersRan, NextTask, RowsFit, Committed, Recorded;
    Yield(d, w, alone);
    ScanKnown(d.View(), w);
    ghost var m := d.View();
    var faults: nat -> bool := *;
    if calm {
      faults := _ => false;
    }
    var failed := PersistScanResults(d.pool, id, res, version, now, faults);
    var message: string := *;
    err := if failed.Some? then Some(Failure(message, false)) else None;
    out := Outcome(err.None?, err, None, version);
    if err.None? {
      CommitRecords(m.db, id, res, version, now);
    }
    Account(d, w, m, out);
    assert CalledIn(old(d.View()), m, d.View(), w, out);
  }

  // ---------------------------------------------------------------- the pipeline

  /** One call further on a run from s0: the worker stands at the call that NextPc names. */
  lemma Proceed(s0: State, s: State, t: State, w: WorkerId, out: Outcome)
    requires Reaches(s0, s) && Inv(s) && w in s.workers && Called(s, t, w, out)
    requires !s.workers[w].pc.PublishCompleted? && !s.workers[w].pc.Returned?
    requires s.workers[w].pc.ScanImage? && out.error.None? ==> out.scanned.Some?
    ensures Reaches(s0, t) && Reaches(s, t) && Inv(t) && w in t.workers && t.maxRetries == s.maxRetries
    ensures !s.workers[w].pc.BeginTx? || out.error.Some? ==>
      t.workers[w] == s.workers[w].(pc := NextPc(s.workers[w].pc, out, true, 0))
    ensures t.workers[w].job == s.workers[w].job && t.workers[w].attempt == s.workers[w].attempt
  {
    hide Inv, Called, Reaches;
    AfterCall(s, t, w, out);
    var now := NextCall(s, t, w, out);
    ReachesTransitive(s0, s, t);
  }

  /** The same for the phase key, when phase calls take effect. */
  lemma ProceedKey(s: State, t: State, w: WorkerId, out: Outcome, calm: bool)
    requires Inv(s) && w in s.workers && Called(s, t, w, out)
    requires calm ==> if PhaseCall(s.workers[w].pc) then out.applied else KeyOk(s, w)
    ensures calm ==> KeyOk(t, w)
  {
    hide Inv, Called, KeyOk;
    if calm {
      CallKeepsKey(s, t, w, out);
    }
  }

  lemma EndsFailed(s: State, w: WorkerId, calm: bool)
    requires w in s.workers && s.workers[w].pc.Returned? && (calm ==> KeyOk(s, w))
    ensures calm ==> KeyIs(s, s.workers[w].job.scanId, Phase.Failed)
  {
  }

  /** The failure branch shared by a failed scan and a failed transaction. */
  method ReportFailure(d: Deployment, ghost w: WorkerId, job: Job, ghost attempt: nat, failure: Failure,
                       alone: bool, calm: bool, ghost s0: State)
    requires Reaches(s0, d.View()) && At(d, w, job, attempt, FailedPhase(failure))
    modifies d, d.pool
    ensures alone ==> d.queue == old(d.queue)
    ensures Reaches(s0, d.View()) && At(d, w, job, attempt, Returned(failure))
    ensures calm ==>
      Reported(d.View(), job.scanId, failure) && MarkedFirst(s0, d.View(), job.scanId, Report(failure))
  {
    hide Inv, Called, Reaches, Report, FailedWith, KeyOk, KeyIs, MarkedFirst;
    ghost var s := d.View();
    ghost var out := SetScanPhase(d, w, job.scanId, Phase.Failed, alone, calm);
    Proceed(s0, s, d.View(), w, out);
    ProceedKey(s, d.View(), w, out, calm);
    s := d.View();
    out := UpdateScanFailed(d, w, job.scanId, Report(failure), alone, calm);
    Proceed(s0, s, d.View(), w, out);
    ProceedKey(s, d.View(), w, out, calm);
    s := d.View();
    out := PublishScanEvent(d, w, ScanFailed(job.scanId, Report(failure)), alone, calm);
    CallKeepsReport(s, d.View(), w, out, Report(failure));
    Proceed(s0, s, d.View(), w, out);
    ProceedKey(s, d.View(), w, out, calm);
    EndsFailed(d.View(), w, calm);
    if calm {
      MarkedThenSent(s0, s, d.View(), job.scanId, Report(failure));
    }
  }

  lemma MarkedThenSent(s0: State, s: State, t: State, id: ScanId, message: string)
    requires Reaches(s0, s) && FailedWith(s.db, id, message) && Reaches(s, t)
    requires |s.events| < |t.events| && t.events[|t.events| - 1] == ScanFailed(id, message)
    ensures MarkedFirst(s0, t, id, message)
  {
    hide Reaches, FailedWith;
  }

  /** The other failure branch publishes before it marks the row. */
  method ReportStartFailure(d: Deployment, ghost w: WorkerId, job: Job, ghost attempt: nat, failure: Failure,
                            alone: bool, calm: bool, ghost s0: State)
    requires Reaches(s0, d.View()) && At(d, w, job, attempt, StartFailedPhase(failure))
    modifies d, d.pool
    ensures alone ==> d.queue == old(d.queue)
    ensures Reaches(s0, d.View()) && At(d, w, job, attempt, Returned(failure))
    ensures calm ==> Reported(d.View(), job.scanId, failure)
  {
    hide Inv, Called, Reaches, Report, FailedWith, KeyOk, KeyIs;
    ghost var s := d.View();
    ghost var out := SetScanPhase(d, w, job.scanId, Phase.Failed, alone, calm);
    Proceed(s0, s, d.View(), w, out);
    ProceedKey(s, d.View(), w, out, calm);
    s := d.View();
    out := PublishScanEvent(d, w, ScanFailed(job.scanId, Report(failure)), alone, calm);
    Proceed(s0, s, d.View(), w, out);
    ProceedKey(s, d.View(), w, out, calm);
    s := d.View();
    out := UpdateScanFailed(d, w, job.scanId, Report(failure), alone, calm);
    CallKeepsReport(s, d.View(), w, out, Report(failure));
    Proceed(s0, s, d.View(), w, out);
    ProceedKey(s, d.View(), w, out, calm);
    EndsFailed(d.View(), w, calm);
  }

  /** The "completed" event ends the worker's task. */
  lemma Released(s0: State, s: State, t: State, w: WorkerId, out: Outcome)
    requires Reaches(s0, s) && Inv(s) && w in s.workers && Called(s, t, w, out) && s.workers[w].pc.PublishCompleted?
    ensures Reaches(s0, t) && Reaches(s, t) && Inv(t) && w !in t.workers
  {
    hide Inv, Reaches, OthersRan, Possible, DbAfter, PhaseSet, EventSent;
    AfterCall(s, t, w, out);
    ReachesTransitive(s0, s, t);
    var m :| CalledIn(s, m, t, w, out);
    var steps :| OthersRan(s, steps, m, w);
    OthersKeepTask(s, steps, m, w);
  }

  lemma RecordedStays(s: State, t: State, id: ScanId, res: ScanResult, version: string)
    requires Inv(s) && Reaches(s, t) && Recorded(s.db, id, res, version)
    ensures Recorded(t.db, id, res, version)
  {
    hide Inv, StoredFor, Wanted, Counted, Described;
    var steps :| Run(s, steps, t);
    CompletedRun(s, steps, t, id);
  }

  /** The calls after a commit. */
  method ReportCompletion(d: Deployment, ghost w: WorkerId, job: Job, ghost attempt: nat, alone: bool, calm: bool,
                          ghost s0: State)
    requires Reaches(s0, d.View()) && At(d, w, job, attempt, EnterCompleted)
    modifies d, d.pool
    ensures alone ==> d.queue == old(d.queue)
    ensures Reaches(s0, d.View()) && Reaches(old(d.View()), d.View()) && Inv(d.View()) && w !in d.workers
    ensures calm ==> Announced(d.View(), job.scanId, None)
  {
    hide Inv, Called, Reaches;
    ghost var s := d.View();
    ReachesItself(s);
    ghost var out := SetScanPhase(d, w, job.scanId, Phase.Completed, alone, calm);
    Proceed(s, s, d.View(), w, out);
    ProceedKey(s, d.View(), w, out, calm);
    ghost var m := d.View();
    out := PublishScanEvent(d, w, ScanCompleted(job.scanId), alone, calm);
    if calm {
      CallKeepsKey(m, d.View(), w, out);
    }
    Released(s, m, d.View(), w, out);
    ReachesTransitive(s0, s, d.View());
  }

  /** PersistScanResults and what runPipeline does with its outcome. */
  method StoreResults(d: Deployment, ghost w: WorkerId, job: Job, ghost attempt: nat, res: ScanResult, version: string,
                      alone: bool, calm: bool, ghost s0: State)
    returns (err: Option<Failure>)
    requires Reaches(s0, d.View()) && At(d, w, job, attempt, BeginTx(res))
    modifies d, d.pool
    ensures alone ==> d.queue == old(d.queue)
    ensures Reaches(s0, d.View()) && Inv(d.View())
    ensures calm ==> (err.None? <==> RowsFit(res))
    ensures calm ==> Announced(d.View(), job.scanId, err)
    ensures calm && err.Some? ==> MarkedFirst(s0, d.View(), job.scanId, Report(err.value))
    ensures err.Some? ==> !err.value.pull && At(d, w, job, attempt, Returned(err.value))
    ensures err.None? ==>
      w !in d.workers && Recorded(d.View().db, job.scanId, res, version)
  {
    hide Inv, Called, Reaches, Report, Recorded, RowsFit, Reported, MarkedFirst;
    ghost var s := d.View();
    ghost var out;
    var now;
    err, now, out := BeginPersist(d, w, alone, calm);
    Proceed(s0, s, d.View(), w, out);
    if err.None? {
      s := d.View();
      err, out := CommitResults(d, w, job.scanId, res, version, now, alone, calm);
      Proceed(s0, s, d.View(), w, out);
    }
    if err.Some? {
      ReportFailure(d, w, job, attempt, err.value, alone, calm, s0);
      return;
    }
    s := d.View();
    ReportCompletion(d, w, job, attempt, alone, calm, s0);
    RecordedStays(s, d.View(), job.scanId, res, version);
  }

  /** The calls before the scanner runs. */
  method StartScan(d: Deployment, ghost w: WorkerId, job: Job, ghost attempt: nat, alone: bool, calm: bool)
    returns (err: Option<Failure>)
    requires At(d, w, job, attempt, EnterInitializing)
    modifies d, d.pool
    ensures alone ==> d.queue == old(d.queue)
    ensures Reaches(old(d.View()), d.View()) && (calm ==> err.None?)
    ensures err.None? ==> At(d, w, job, attempt, EnterScanning)
    ensures err.Some? ==> !err.value.pull && At(d, w, job, attempt, Returned(err.value))
  {
    hide Inv, Called, Reaches, Reported;
    ghost var s := d.View();
    ghost var s0 := s;
    ReachesItself(s);
    ghost var out := SetScanPhase(d, w, job.scanId, Initializing, alone, calm);
    Proceed(s0, s, d.View(), w, out);
    s := d.View();
    err, out := UpdateScanRunning(d, w, job.scanId, alone, calm);
    Proceed(s0, s, d.View(), w, out);
    if err.Some? {
      ReportStartFailure(d, w, job, attempt, err.value, alone, calm, s0);
    }
  }

  /** One attempt on its own: nil exactly for a result that fits the schema, or the scanner's own error. */
  ghost predicate AttemptIs(outcome: Option<Failure>, answer: Answer) {
    && (outcome.None? <==> answer.Ok? && RowsFit(answer.value))
    && (answer.Err? ==> outcome == Some(answer.error))
    && (outcome.Some? && outcome.value.pull ==> answer.Err?)
  }

  /**
   runPipeline. Nil means that the scan is completed and holds exactly what the scanner returned in this attempt, and
   that the worker is done with it; an error hands the task back to the retry loop. When no call fails, nil is
   returned exactly for a result that fits the schema and the completion is published, and a scanner error is returned
   as it is; the row then is failed with the reported message, which is published after that. Either way the progress
   endpoint shows how it ended, even when the phase key has expired.
   */
  method RunPipeline(d: Deployment, ghost w: WorkerId, job: Job, ghost attempt: nat, version: string, answer: Answer,
                     alone: bool, calm: bool)
    returns (err: Option<Failure>)
    requires At(d, w, job, attempt, EnterInitializing)
    modifies d, d.pool
    ensures alone ==> d.queue == old(d.queue)
    ensures Reaches(old(d.View()), d.View()) && Inv(d.View())
    ensures calm ==> AttemptIs(err, answer) && Announced(d.View(), job.scanId, err)
    ensures calm ==> ProgressIs(d.View(), job.scanId, if err.None? then ShownCompleted else ShownFailed)
    ensures calm && err.Some? ==> MarkedFirst(old(d.View()), d.View(), job.scanId, Report(err.value))
    ensures err.Some? && err.value.pull ==> answer == Err(err.value)
    ensures err.Some? ==> At(d, w, job, attempt, Returned(err.value))
    ensures err.None? ==>
      w !in d.workers && answer.Ok? && Recorded(d.View().db, job.scanId, answer.value, version)
  {
    hide Inv, Called, Reaches, Report, Recorded, Done, RowsFit, Reported, Announced, ProgressIs, KeyOk, MarkedFirst;
    ghost var s0 := d.View();
    ReachesItself(s0);
    err := StartScan(d, w, job, attempt, alone, calm);
    if err.Some? {
      return;
    }

    ghost var s := d.View();
    ghost var out := SetScanPhase(d, w, job.scanId, Scanning, alone, calm);
    Proceed(s0, s, d.View(), w, out);
    s := d.View();
    var scanned;
    scanned, out := ScanTheImage(d, w, answer, alone);
    Proceed(s0, s, d.View(), w, out);
    if scanned.Err? {
      err := Some(scanned.error);
      ReportFailure(d, w, job, attempt, scanned.error, alone, calm, s0);
      FailureShows(d.View(), job.scanId, scanned.error, calm);
      return;
    }

    s := d.View();
    out := SetScanPhase(d, w, job.scanId, Persisting, alone, calm);
    Proceed(s0, s, d.View(), w, out);
    err := StoreResults(d, w, job, attempt, scanned.value, version, alone, calm, s0);
    if err.None? {
      RecordedIsDone(d.View().db, job.scanId, answer.value, version);
    }
    if calm {
      AnnouncedShows(d.View(), job.scanId, err);
    }
  }

  lemma FailureShows(s: State, id: ScanId, failure: Failure, calm: bool)
    requires calm ==> Reported(s, id, failure)
    ensures calm ==> Announced(s, id, Some(failure)) && ProgressIs(s, id, ShownFailed)
  {
    hide Reported, ProgressIs;
    if calm {
      AnnouncedShows(s, id, Some(failure));
    }
  }

  // ---------------------------------------------------------------- the retry loop

  const MILLISECOND := 1_000_000

  function Pow2(n: nat): nat {
    if n == 0 then 1 else 2 * Pow2(n - 1)
  }

  /** The wait before attempt number `attempt`, counted from 0, in nanoseconds. */
  function Backoff(attempt: nat): int
    requires attempt > 0
  {
    Wrap64(Wrap64(100 * Wrap64(Pow2(attempt - 1))) * MILLISECOND)
  }

  lemma {:induction false} Pow2Monotone(m: nat, n: nat)
    requires m <= n
    ensures Pow2(m) <= Pow2(n)
  {
    if m < n {
      Pow2Monotone(m, n - 1);
    }
  }

  lemma Pow2Known()
    ensures Pow2(36) == 68_719_476_736 && Pow2(37) == 137_438_953_472
  {
    assert Pow2(9) == 512;
    assert Pow2(18) == 262_144;
    assert Pow2(27) == 134_217_728;
  }

  lemma BackoffFits(attempt: nat)
    requires 0 < attempt <= 37
    ensures Backoff(attempt) == 100 * MILLISECOND * Pow2(attempt - 1)
  {
    Pow2Known();
    Pow2Monotone(attempt - 1, 36);
    var p := Pow2(attempt - 1);
    assert Wrap64(p) == p && Wrap64(100 * p) == 100 * p;
  }

  lemma Wrap64Range(x: int)
    ensures Wrap64(x) < 0x8000_0000_0000_0000
  {
  }

  /** The backoff doubles from 100 ms without overflow exactly up to attempt 37, that is, for at most 38 attempts. */
  lemma BackoffExact(attempt: nat)
    requires attempt > 0
    ensures Backoff(attempt) == 100 * MILLISECOND * Pow2(attempt - 1) <==> attempt <= 37
  {
    hide Wrap64;
    Pow2Known();
    if attempt <= 37 {
      BackoffFits(attempt);
    } else {
      Pow2Monotone(37, attempt - 1);
      Wrap64Range(Wrap64(100 * Wrap64(Pow2(attempt - 1))) * MILLISECOND);
    }
  }

  /** The waits between k attempts. */
  function TotalWait(k: nat): int {
    if k <= 1 then 0 else TotalWait(k - 1) + Backoff(k - 1)
  }

  lemma {:induction false} TotalWaitExact(k: nat)
    requires 0 < k <= 38
    ensures TotalWait(k) == 100 * MILLISECOND * (Pow2(k - 1) - 1)
  {
    hide Wrap64, Backoff;
    if k > 1 {
      TotalWaitExact(k - 1);
      BackoffExact(k - 1);
      var p: int := Pow2(k - 2);
      assert Pow2(k - 1) == 2 * p;
      hide Pow2;
      assert TotalWait(k) == 100 * MILLISECOND * (p - 1) + 100 * MILLISECOND * p;
    }
  }

  lemma AfterReturned(s0: State, s: State, t: State, w: WorkerId, out: Outcome)
    requires Reaches(s0, s) && Inv(s) && w in s.workers && Called(s, t, w, out) && s.workers[w].pc.Returned?
    ensures Reaches(s0, t) && Inv(t)
    ensures var task := s.workers[w]; var f := task.pc.failure;
      if f.pull || task.attempt + 1 >= s.maxRetries || out.error.Some? then w !in t.workers
      else w in t.workers && t.workers[w] == Task(task.job, task.attempt + 1, EnterInitializing)
  {
    hide Inv, Reaches, OthersRan, Possible, DbAfter, PhaseSet, EventSent;
    AfterCall(s, t, w, out);
    ReachesTransitive(s0, s, t);
    var m :| CalledIn(s, m, t, w, out);
    var steps :| OthersRan(s, steps, m, w);
    OthersKeepTask(s, steps, m, w);
  }

  /** Between two attempts: give up, or wait and go round again; `cancelled` is a done context during the wait. */
  method Decide(d: Deployment, ghost w: WorkerId, cancelled: bool, alone: bool) returns (ghost out: Outcome)
    requires Inv(d.View()) && w in d.workers && d.workers[w].pc.Returned?
    modifies d, d.pool
    ensures alone ==> d.queue == old(d.queue)
    ensures Called(old(d.View()), d.View(), w, out) && (out.error.Some? <==> cancelled)
  {
    hide Inv, OthersRan, NextTask;
    Yield(d, w, alone);
    ghost var m := d.View();
    out := Outcome(true, if cancelled then Some(Failure("context canceled", false)) else None, None, "");
    Account(d, w, m, out);
    assert CalledIn(old(d.View()), m, d.View(), w, out);
  }

  /** Every attempt went as the scanner's answer for it says. */
  ghost predicate AnswersDecide(log: seq<Option<Failure>>, answers: nat -> Answer) {
    forall i :: 0 <= i < |log| ==> AttemptIs(log[i], answers(i))
  }

  /** Failures that the retry loop goes on after. */
  ghost predicate Retriable(log: seq<Option<Failure>>) {
    forall i :: 0 <= i < |log| ==> log[i].Some? && !log[i].value.pull
  }

  lemma OneMoreAttempt(log: seq<Option<Failure>>, answers: nat -> Answer, outcome: Option<Failure>)
    ensures AnswersDecide(log, answers) && AttemptIs(outcome, answers(|log|)) ==>
      AnswersDecide(log + [outcome], answers)
    ensures Retriable(log) && outcome.Some? && !outcome.value.pull ==> Retriable(log + [outcome])
    ensures (log + [outcome])[..|log|] == log
  {
  }

  /** After a failed attempt: the worker starts the next one or lets go of the job. */
  method AfterFailure(d: Deployment, ghost w: WorkerId, ghost job: Job, attempt: nat, failure: Failure, alone: bool,
                      calm: bool)
    returns (again: bool, cancelled: bool)
    requires At(d, w, job, attempt, Returned(failure)) && attempt < d.maxRetries
    modifies d, d.pool
    ensures alone ==> d.queue == old(d.queue)
    ensures Reaches(old(d.View()), d.View()) && Inv(d.View())
    ensures again <==> !failure.pull && attempt + 1 < d.maxRetries && !cancelled
    ensures cancelled ==> !calm && !failure.pull && attempt + 1 < d.maxRetries
    ensures Announced(old(d.View()), job.scanId, Some(failure)) ==> Announced(d.View(), job.scanId, Some(failure))
    ensures if again then At(d, w, job, attempt + 1, EnterInitializing) else w !in d.workers
  {
    hide Inv, Called, Reaches, Report, FailedWith;
    ghost var s := d.View();
    ReachesItself(s);
    cancelled := false;
    again := !failure.pull && attempt + 1 < d.maxRetries;
    if again {
      cancelled :| calm ==> !cancelled;
    }
    ghost var out := Decide(d, w, cancelled, alone);
    CallKeepsReport(s, d.View(), w, out, Report(failure));
    if KeyOk(s, w) {
      CallKeepsKey(s, d.View(), w, out);
    }
    AfterReturned(s, s, d.View(), w, out);
    again := again && !cancelled;
  }

  /** One turn of the retry loop: an attempt and what follows from it. */
  method Turn(d: Deployment, ghost w: WorkerId, job: Job, attempt: nat, version: string, answer: Answer, alone: bool,
              calm: bool)
    returns (err: Option<Failure>, again: bool, cancelled: bool)
    requires At(d, w, job, attempt, EnterInitializing) && attempt < d.maxRetries
    modifies d, d.pool
    ensures alone ==> d.queue == old(d.queue)
    ensures Reaches(old(d.View()), d.View()) && Inv(d.View())
    ensures again <==> err.Some? && !err.value.pull && attempt + 1 < d.maxRetries && !cancelled
    ensures cancelled ==> !calm && err.Some? && !err.value.pull && attempt + 1 < d.maxRetries
    ensures if again then At(d, w, job, attempt + 1, EnterInitializing) else w !in d.workers
    ensures calm ==> AttemptIs(err, answer) && Announced(d.View(), job.scanId, err)
    ensures calm ==> ProgressIs(d.View(), job.scanId, if err.None? then ShownCompleted else ShownFailed)
    ensures err.None? ==>
      answer.Ok? && Recorded(d.View().db, job.scanId, answer.value, version)
  {
    hide Inv, Called, Reaches, Recorded, Done, AttemptIs, Announced, At, ProgressIs;
    ghost var s := d.View();
    err := RunPipeline(d, w, job, attempt, version, answer, alone, calm);
    again, cancelled := false, false;
    if err.Some? {
      ghost var m := d.View();
      again, cancelled := AfterFailure(d, w, job, attempt, err.value, alone, calm);
      ReachesTransitive(s, m, d.View());
      if calm {
        AnnouncedShows(d.View(), job.scanId, err);
      }
    }
  }

  /**
   processJobWithRetry. `log` is the outcome of each attempt. It stops at the first success, the first pull failure,
   the retry limit or a cancelled wait; nil is returned exactly when the last attempt succeeded, and then the scan
   holds that attempt's results, with the scanner version probed for it. When no call fails and no wait is cancelled,
   the scanner's answers decide everything, and how the last attempt ended is what the row, the events and the progress
   endpoint show.
   */
  method ProcessJobWithRetry(d: Deployment, ghost w: WorkerId, job: Job, versions: nat -> string,
                             answers: nat -> Answer, alone: bool, calm: bool)
    returns (err: Option<Failure>, log: seq<Option<Failure>>, waited: int, cancelled: bool)
    requires At(d, w, job, 0, EnterInitializing)
    modifies d, d.pool
    ensures alone ==> d.queue == old(d.queue)
    ensures Reaches(old(d.View()), d.View()) && Inv(d.View()) && w !in d.workers
    ensures 0 < |log| <= d.maxRetries
    ensures Retriable(log[..|log| - 1])
    ensures err.None? <==> log[|log| - 1].None?
    ensures err.Some? && !cancelled ==> err == log[|log| - 1] && (err.value.pull || |log| == d.maxRetries)
    ensures calm ==> !cancelled && AnswersDecide(log, answers) && Announced(d.View(), job.scanId, err)
    ensures calm ==> ProgressIs(d.View(), job.scanId, if err.None? then ShownCompleted else ShownFailed)
    ensures err.None? ==>
      && answers(|log| - 1).Ok?
      && Recorded(d.View().db, job.scanId, answers(|log| - 1).value, versions(|log| - 1))
    ensures waited == TotalWait(|log|)
  {
    hide Inv, Called, Reaches, Recorded, Backoff, TotalWait, AttemptIs;
    ghost var s0 := d.View();
    ReachesItself(s0);
    PositiveLimit(s0);
    assert Inv(d.View()) && s0.maxRetries == d.maxRetries;
    hide *;
    log, waited, cancelled, err := [], 0, false, None;
    NoAttempts(answers);
    TotalWaitStep(0);
    var attempt := 0;
    while attempt < d.maxRetries
      invariant 0 <= attempt <= d.maxRetries && |log| == attempt
      invariant Retriable(log)
      invariant calm ==> !cancelled && AnswersDecide(log, answers)
      invariant attempt > 0 ==> err == log[attempt - 1] && err.Some?
      invariant calm && attempt == d.maxRetries ==>
        Announced(d.View(), job.scanId, err) && ProgressIs(d.View(), job.scanId, ShownFailed)
      invariant waited == TotalWait(if attempt < d.maxRetries then attempt + 1 else attempt)
      invariant Reaches(s0, d.View()) && Inv(d.View()) && (alone ==> d.queue == old(d.queue))
      invariant if attempt < d.maxRetries then At(d, w, job, attempt, EnterInitializing) else w !in d.workers
    {
      ghost var s := d.View();
      var again;
      err, again, cancelled := Turn(d, w, job, attempt, versions(attempt), answers(attempt), alone, calm);
      ReachesTransitive(s0, s, d.View());
      OneMoreAttempt(log, answers, err);
      log, attempt := log + [err], attempt + 1;
      if cancelled {
        err := Some(Failure("context canceled", false));
        return;
      }
      if err.None? || err.value.pull {
        return;
      }
      if again {
        TotalWaitStep(attempt);
        waited := waited + Backoff(attempt);
      }
    }
  }

  lemma TotalWaitStep(k: nat)
    ensures TotalWait(0) == 0 && TotalWait(1) == 0
    ensures k > 0 ==> TotalWait(k + 1) == TotalWait(k) + Backoff(k)
  {
  }

  lemma NoAttempts(answers: nat -> Answer)
    ensures Retriable([]) && AnswersDecide([], answers)
  {
  }

  lemma PositiveLimit(s: State)
    requires Inv(s)
    ensures s.maxRetries > 0
  {
  }

  // ---------------------------------------------------------------- the pop loop

  /**
   BRPOP: the last entry of the list in the state `m` that the others leave, unless the list is empty or Redis fails.
   */
  method BrPop(d: Deployment, ghost w: WorkerId, alone: bool, calm: bool) returns (job: Option<Job>, ghost m: State)
    requires Inv(d.View()) && w !in d.workers
    modifies d, d.pool
    ensures Reaches(old(d.View()), m) && (alone ==> m == old(d.View()))
    ensures Reaches(old(d.View()), d.View()) && Inv(d.View())
    ensures job.Some? ==>
      && m.queue != [] && job.value == m.queue[|m.queue| - 1] && d.queue == m.queue[..|m.queue| - 1]
      && d.dequeued == m.dequeued + [job.value] && At(d, w, job.value, 0, EnterInitializing)
    ensures job.None? ==> d.View() == m && w !in d.workers && (calm ==> d.queue == [])
  {
    hide Inv, Reaches;
    Interfere(d, w, alone);
    ghost var steps :| OthersRan(old(d.View()), steps, d.View(), w) && (alone ==> steps == []);
    OthersKeepTask(old(d.View()), steps, d.View(), w);
    m := d.View();
    var fails: bool :| calm ==> !fails;
    if fails || d.queue == [] {
      return None, m;
    }
    var n := |d.queue| - 1;
    job := Some(d.queue[n]);
    d.queue := d.queue[..n];
    d.dequeued := d.dequeued + [job.value];
    d.workers := d.workers[w := Task(job.value, 0, EnterInitializing)];
    assert d.View() == Apply(m, Pop(w));
    PopKeepsInv(m, w);
    OneStep(m, Pop(w));
    ReachesTransitive(old(d.View()), m, d.View());
  }

  /** A payload that does not decode is dropped: the worker lets go of the job without a call. */
  ghost method DropJob(d: Deployment, w: WorkerId)
    requires Inv(d.View()) && w in d.workers
    modifies d`workers
    ensures Reaches(old(d.View()), d.View()) && Inv(d.View()) && w !in d.workers
    ensures d.View() == old(d.View()).(workers := old(d.workers) - {w})
  {
    hide Inv, Reaches;
    ghost var s := d.View();
    ReleaseKeepsInv(s, w);
    OneStep(s, Crash(w));
    d.workers := d.workers - {w};
  }

  /** What a turn did with the job it popped; `log` is the outcome of each attempt. */
  datatype Served =
    | Undecoded(job: Job)
    | Handled(job: Job, err: Option<Failure>, log: seq<Option<Failure>>)

  /**
   Only a payload that does not decode is thrown away. Any other job went through the retry loop; nil means that its
   scan is completed with the results of the last attempt. Without faults the scanner's answers decide every attempt,
   and the last outcome is published.
   */
  ghost predicate ServedWell(v: Served, s: State, decodes: Job -> bool, versions: Job -> nat -> string,
                             answers: Job -> nat -> Answer, calm: bool) {
    var id := v.job.scanId;
    && (v.Undecoded? <==> !decodes(v.job))
    && (v.Handled? ==>
          && 0 < |v.log| <= s.maxRetries && Retriable(v.log[..|v.log| - 1])
          && (v.err.None? <==> v.log[|v.log| - 1].None?)
          && (v.err.None? ==>
                && answers(v.job)(|v.log| - 1).Ok?
                && Recorded(s.db, id, answers(v.job)(|v.log| - 1).value, versions(v.job)(|v.log| - 1)))
          && (calm ==>
                && v.err == v.log[|v.log| - 1] && AnswersDecide(v.log, answers(v.job))
                && (if v.err.Some? then ScanFailed(id, Report(v.err.value)) else ScanCompleted(id)) in s.events))
  }

  /** Nothing takes it back. */
  lemma StaysServed(v: Served, s: State, t: State, decodes: Job -> bool, versions: Job -> nat -> string,
                    answers: Job -> nat -> Answer, calm: bool)
    requires Inv(s) && Reaches(s, t) && ServedWell(v, s, decodes, versions, answers, calm)
    ensures ServedWell(v, t, decodes, versions, answers, calm)
  {
    hide Inv, Run, Retriable, AnswersDecide, Recorded, Report;
    var steps :| Run(s, steps, t);
    EventsStay(s, steps, t);
    if v.Handled? && v.err.None? {
      RecordedStays(s, t, v.job.scanId, answers(v.job)(|v.log| - 1).value, versions(v.job)(|v.log| - 1));
    }
  }

  /** The popped jobs were the last entries of the list, from its end on, and the others are left. */
  ghost predicate FromTheEnd(queue: seq<Job>, served: seq<Served>, left: seq<Job>) {
    && |served| <= |queue| && left == queue[..|queue| - |served|]
    && forall i :: 0 <= i < |served| ==> served[i].job == queue[|queue| - 1 - i]
  }

  lemma NoneTaken(queue: seq<Job>)
    ensures FromTheEnd(queue, [], queue)
  {
  }

  lemma TakenFurther(queue: seq<Job>, served: seq<Served>, before: seq<Job>, more: Option<Served>, left: seq<Job>)
    requires FromTheEnd(queue, served, before)
    requires if more.Some? then FromTheEnd(before, [more.value], left) else left == before
    ensures FromTheEnd(queue, if more.Some? then served + [more.value] else served, left)
    ensures |before| == |queue| - |served|
  {
  }

  /** One turn of workerLoop. */
  method Serve(d: Deployment, ghost w: WorkerId, decodes: Job -> bool, versions: Job -> nat -> string,
               answers: Job -> nat -> Answer, alone: bool, calm: bool)
    returns (served: Option<Served>)
    requires Inv(d.View()) && w !in d.workers
    modifies d, d.pool
    ensures Reaches(old(d.View()), d.View()) && Inv(d.View()) && w !in d.workers
    ensures served.Some? ==> ServedWell(served.value, d.View(), decodes, versions, answers, calm)
    ensures alone ==>
      if served.Some? then FromTheEnd(old(d.queue), [served.value], d.queue) else d.queue == old(d.queue)
    ensures alone && calm ==> (served.None? <==> old(d.queue) == [])
  {
    hide Inv, Reaches, Recorded, Report, Retriable, AnswersDecide, KeyIs, FailedWith, ProgressIs;
    ghost var s0 := d.View();
    var job;
    ghost var m;
    job, m := BrPop(d, w, alone, calm);
    if job.None? {
      return None;
    }
    ghost var s := d.View();
    if !decodes(job.value) {
      DropJob(d, w);
      ReachesTransitive(s0, s, d.View());
      return Some(Undecoded(job.value));
    }
    var err, log, waited, cancelled :=
      ProcessJobWithRetry(d, w, job.value, versions(job.value), answers(job.value), alone, calm);
    ReachesTransitive(s0, s, d.View());
    served := Some(Handled(job.value, err, log));
  }

  /**
   workerLoop, for any number of turns until its context is done. `served` lists the jobs that this worker popped, each
   served well. When the worker is alone, they are the oldest entries of the list, in order; without faults there is
   one for each turn, as long as there are entries.
   */
  method WorkerLoop(d: Deployment, ghost w: WorkerId, decodes: Job -> bool, versions: Job -> nat -> string,
                    answers: Job -> nat -> Answer, turns: nat, alone: bool, calm: bool)
    returns (served: seq<Served>)
    requires Inv(d.View()) && w !in d.workers
    modifies d, d.pool
    ensures Reaches(old(d.View()), d.View()) && Inv(d.View()) && w !in d.workers
    ensures |served| <= turns && forall v <- served :: ServedWell(v, d.View(), decodes, versions, answers, calm)
    ensures alone ==> FromTheEnd(old(d.queue), served, d.queue)
    ensures alone && calm ==> |served| == if turns <= |old(d.queue)| then turns else |old(d.queue)|
  {
    hide Inv, Reaches, ServedWell, FromTheEnd;
    ghost var s0 := d.View();
    ReachesItself(s0);
    served := [];
    NoneTaken(d.queue);
    for turn := 0 to turns
      invariant Reaches(s0, d.View()) && Inv(d.View()) && w !in d.workers
      invariant |served| <= turn && forall v <- served :: ServedWell(v, d.View(), decodes, versions, answers, calm)
      invariant alone ==> FromTheEnd(s0.queue, served, d.queue)
      invariant alone && calm ==> |served| == if turn <= |s0.queue| then turn else |s0.queue|
    {
      ghost var s := d.View();
      var more := Serve(d, w, decodes, versions, answers, alone, calm);
      ReachesTransitive(s0, s, d.View());
      forall v <- served ensures ServedWell(v, d.View(), decodes, versions, answers, calm) {
        StaysServed(v, s, d.View(), decodes, versions, answers, calm);
      }
      if alone {
        TakenFurther(s0.queue, served, s.queue, more, d.queue);
      }
      if more.Some? {
        served := served + [more.value];
      }
    }
  }
}
