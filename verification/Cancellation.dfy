/**
 internal/db/scans.go guards CancelScan by the status but guards no worker write, so a cancelled scan can come back.
 This module says exactly when it cannot.
 */
module Cancellation {
  import opened Wrappers
  import opened Tables
  import opened Persist
  import opened Protocol
  import opened Guarantees

  ghost predicate IsCancelled(s: State, id: ScanId) {
    id in s.db.scans && s.db.scans[id].status == Cancelled
  }

  predicate Retries(s: State, t: Task, f: Failure) {
    !f.pull && t.attempt + 1 < s.maxRetries
  }

  /** The worker may still write the scan's row: it has not reached the tail of its last attempt. */
  predicate StillWrites(s: State, t: Task) {
    match t.pc
    case FailedPublish(f) => Retries(s, t, f)
    case Returned(f) => Retries(s, t, f)
    case _ => !AfterCommit(t.pc)
  }

  /** What a caller of CancelScan would have to look at besides the row: the producer, the list and the worker. */
  ghost predicate MayComeBack(s: State, id: ScanId) {
    id in s.producers || Queued(s, id) || exists w :: Holds(s, w, id) && StillWrites(s, s.workers[w])
  }

  // ---------------------------------------------------------------- it cannot come back

  /** A worker past its last write leaves the row alone and never returns to a writing call. */
  lemma LastCalls(s: State, w: WorkerId, out: Outcome)
    requires w in s.workers && Possible(s, s.workers[w], out)
    requires !StillWrites(s, s.workers[w]) && !AfterCommit(s.workers[w].pc)
    ensures Advance(s, w, out).db == s.db
    ensures var next := NextTask(s, s.workers[w], out); next.Some? ==> !StillWrites(s, next.value)
  {
    hide Committed, SetRunning, SetFailed, Fits, Report;
  }

  lemma RowStaysCancelled(s: State, w: WorkerId, out: Outcome, id: ScanId)
    requires Inv(s) && w in s.workers && Possible(s, s.workers[w], out)
    requires IsCancelled(s, id) && !MayComeBack(s, id)
    ensures IsCancelled(Advance(s, w, out), id)
    ensures s.workers[w].job.scanId == id ==> !StillWrites(s, s.workers[w]) && !AfterCommit(s.workers[w].pc)
  {
    var t := s.workers[w];
    assert TaskInv(s, t);
    hide Inv, Advance, OnlyScan, StillWrites;
    if t.job.scanId == id {
      assert Holds(s, w, id);
      LastCalls(s, w, out);
    } else {
      AdvanceIsLocal(s, w, out);
      OtherRowKept(s.db, Advance(s, w, out).db, t.job.scanId, id);
    }
  }

  lemma OtherRowKept(db: Db, db': Db, id: ScanId, other: ScanId)
    requires OnlyScan(db, db', id) && other != id && other in db.scans
    ensures other in db'.scans && db'.scans[other] == db.scans[other]
  {
  }

  lemma StaysCancelledWork(s: State, w: WorkerId, out: Outcome, id: ScanId)
    requires Inv(s) && w in s.workers && Possible(s, s.workers[w], out)
    requires IsCancelled(s, id) && !MayComeBack(s, id)
    ensures var s' := Advance(s, w, out); IsCancelled(s', id) && !MayComeBack(s', id)
  {
    RowStaysCancelled(s, w, out, id);
    hide Inv, DbAfter, PhaseSet, EventSent, Possible, IsCancelled;
    var t := s.workers[w];
    var s' := Advance(s, w, out);
    if t.job.scanId == id {
      LastCalls(s, w, out);
    }
    assert NextTask(s, t, out).Some? ==> NextTask(s, t, out).value.job == t.job;
    hide NextTask, StillWrites;
    forall v | Holds(s', v, id) ensures !StillWrites(s', s'.workers[v]) {
      assert Holds(s, v, id);
    }
  }

  lemma StaysCancelledStep(s: State, step: Step, id: ScanId)
    requires Inv(s) && Enabled(s, step) && IsCancelled(s, id) && !MayComeBack(s, id)
    ensures IsCancelled(Apply(s, step), id) && !MayComeBack(Apply(s, step), id)
  {
    hide Inv, Advance;
    var s' := Apply(s, step);
    if step.Work? {
      StaysCancelledWork(s, step.w, step.out, id);
    } else {
      if step.Pop? {
        assert s.queue[|s.queue| - 1].scanId in Ids(s.queue);
      } else if step.Enqueue? {
        assert Ids(s'.queue) == Ids(s.queue) + {step.id};
      }
      assert Queued(s', id) ==> Queued(s, id);
      forall w | Holds(s', w, id) ensures !StillWrites(s', s'.workers[w]) {
        assert Holds(s, w, id);
      }
    }
  }

  lemma {:induction false} StaysCancelled(s: State, steps: seq<Step>, t: State, id: ScanId)
    requires Inv(s) && Run(s, steps, t) && IsCancelled(s, id) && !MayComeBack(s, id)
    ensures IsCancelled(t, id)
    decreases |steps|
  {
    hide Inv, Apply, Enabled, MayComeBack;
    if steps != [] {
      StepKeepsInv(s, steps[0]);
      StaysCancelledStep(s, steps[0], id);
      StaysCancelled(Apply(s, steps[0]), steps[1..], t, id);
    }
  }

  // ---------------------------------------------------------------- it can come back

  ghost predicate Escapes(s: State, id: ScanId) {
    exists t :: Reaches(s, t) && !IsCancelled(t, id)
  }

  lemma EscapesAfter(s: State, step: Step, id: ScanId)
    requires Enabled(s, step) && Escapes(Apply(s, step), id)
    ensures Escapes(s, id)
  {
    hide Apply, Enabled, IsCancelled, Reaches;
    var t :| Reaches(Apply(s, step), t) && !IsCancelled(t, id);
    OneStep(s, step);
    ReachesTransitive(s, Apply(s, step), t);
  }

  lemma EscapesNow(s: State, id: ScanId)
    requires !IsCancelled(s, id)
    ensures Escapes(s, id)
  {
    ReachesItself(s);
  }

  /** Calls left until the worker writes the row, when the scan, the transaction or the retry goes the short way. */
  function Distance(pc: Pc): nat {
    match pc
    case UpdateRunning => 0
    case FailedMark(_) => 0
    case StartFailedMark(_) => 0
    case EnterInitializing => 1
    case FailedPhase(_) => 1
    case StartFailedPublish(_) => 1
    case Returned(_) => 2
    case CommitTx(_, _) => 2
    case BeginTx(_) => 2
    case ScanImage => 2
    case StartFailedPhase(_) => 2
    case _ => 3
  }

  function ShortWay(pc: Pc): Outcome {
    if pc.ScanImage? || pc.BeginTx? || pc.CommitTx? then Outcome(false, Some(Failure("", false)), None, "")
    else Outcome(true, None, None, "")
  }

  lemma {:induction false} HeldEscapes(s: State, w: WorkerId, id: ScanId)
    requires Holds(s, w, id) && id in s.db.scans && StillWrites(s, s.workers[w])
    ensures Escapes(s, id)
    decreases Distance(s.workers[w].pc)
  {
    hide Committed, Fits, Escapes;
    var step := Work(w, ShortWay(s.workers[w].pc));
    var s' := Apply(s, step);
    if !IsCancelled(s', id) {
      EscapesNow(s', id);
    } else {
      HeldEscapes(s', w, id);
    }
    EscapesAfter(s, step, id);
  }

  lemma QueuedEscapes(s: State, id: ScanId)
    requires Queued(s, id) && id in s.db.scans
    ensures Escapes(s, id)
  {
    hide IsCancelled, Reaches;
    var m, w := QueuedCanBeHeld(s, id);
    HeldEscapes(m, w, id);
    var t :| Reaches(m, t) && !IsCancelled(t, id);
    ReachesTransitive(s, m, t);
  }

  /** A cancelled scan stays cancelled in every future if and only if nothing that may still write it is left. */
  lemma CancelledIsFinalIff(s: State, id: ScanId)
    requires Reachable(s) && IsCancelled(s, id)
    ensures (forall t :: Reaches(s, t) ==> IsCancelled(t, id)) <==> !MayComeBack(s, id)
  {
    ReachableInv(s);
    if MayComeBack(s, id) {
      if id in s.producers {
        var s' := Apply(s, Enqueue(id, ""));
        assert s'.queue[0].scanId == id;
        QueuedEscapes(s', id);
        EscapesAfter(s, Enqueue(id, ""), id);
      } else if Queued(s, id) {
        QueuedEscapes(s, id);
      } else {
        var w :| Holds(s, w, id) && StillWrites(s, s.workers[w]);
        HeldEscapes(s, w, id);
      }
    } else {
      forall t | Reaches(s, t) ensures IsCancelled(t, id) {
        var steps :| Run(s, steps, t);
        StaysCancelled(s, steps, t, id);
      }
    }
  }

  lemma Stepped(s: State, step: Step)
    requires Reachable(s) && Enabled(s, step)
    ensures Reachable(Apply(s, step))
  {
    hide Apply, Enabled, Reaches;
    var s0 :| Init(s0) && Reaches(s0, s);
    OneStep(s, step);
    ReachesTransitive(s0, s, Apply(s, step));
  }

  /** Both cases occur: a scan cancelled after its job was pushed, and one whose producer gave up before. */
  lemma BothOccur(image: ImageId) returns (back: State, gone: State)
    ensures Reachable(back) && IsCancelled(back, 0) && MayComeBack(back, 0)
    ensures Reachable(gone) && IsCancelled(gone, 0) && !MayComeBack(gone, 0)
  {
    hide Reachable;
    var s0 := Empty(1);
    assert Reachable(s0) by {
      EmptyIsReachable();
    }
    var s1 := Apply(s0, InsertScan(0, image, Manual));
    Stepped(s0, InsertScan(0, image, Manual));
    var s2 := Apply(s1, Enqueue(0, ""));
    Stepped(s1, Enqueue(0, ""));
    back := Apply(s2, Cancel(0));
    Stepped(s2, Cancel(0));
    assert back.queue[0].scanId == 0;
    var s3 := Apply(s1, GiveUp(0));
    Stepped(s1, GiveUp(0));
    gone := Apply(s3, Cancel(0));
    Stepped(s3, Cancel(0));
  }

  lemma EmptyIsReachable()
    ensures Reachable(Empty(1))
  {
    ReachesItself(Empty(1));
  }
}
