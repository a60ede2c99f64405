/**
 At most one open (pending or running) scan an image: which steps of the protocol keep it, and which do not. Producers
 check for an open scan before they insert one, if at all, and no worker checks before it sets a scan running.
 */
module OpenScans {
  import opened Wrappers
  import opened Tables
  import opened Persist
  import opened Protocol
  import opened Guarantees

  ghost predicate OneOpen(scans: Scans) {
    forall i, j :: (i in scans && j in scans && Open(scans[i].status) && Open(scans[j].status) &&
                    scans[i].imageId == scans[j].imageId) ==> i == j
  }

  /** Another scan of the image of scan `id` is open. */
  ghost predicate Rivalled(scans: Scans, id: ScanId) {
    id in scans && exists other ::
      other in scans && other != id && scans[other].imageId == scans[id].imageId && Open(scans[other].status)
  }

  /** An insert for a busy image, or a worker that sets a scan running beside an open one. */
  ghost predicate Doubles(s: State, step: Step) {
    || (step.InsertScan? && Busy(s.db.scans, step.imageId))
    || (step.Work? && step.w in s.workers && s.workers[step.w].pc.UpdateRunning? && step.out.applied &&
        Rivalled(s.db.scans, s.workers[step.w].job.scanId))
  }

  /** No scan opens and none changes its image. */
  ghost predicate Closes(a: Scans, b: Scans) {
    && b.Keys == a.Keys
    && forall id <- a :: b[id].imageId == a[id].imageId && (Open(b[id].status) ==> Open(a[id].status))
  }

  lemma ClosingKeepsOneOpen(a: Scans, b: Scans)
    requires Closes(a, b) && OneOpen(a)
    ensures OneOpen(b)
  {
  }

  lemma InsertKeepsOneOpenIff(scans: Scans, id: ScanId, image: ImageId, trigger: Trigger)
    requires OneOpen(scans) && id !in scans
    ensures OneOpen(scans[id := PendingRow(image, trigger)]) <==> !Busy(scans, image)
  {
    var after := scans[id := PendingRow(image, trigger)];
    assert Open(after[id].status);
    if Busy(scans, image) {
      var other :| other in scans && scans[other].imageId == image && Open(scans[other].status);
      assert after[other] == scans[other];
    }
  }

  lemma RunningKeepsOneOpenIff(db: Db, id: ScanId, now: Time)
    requires OneOpen(db.scans) && id in db.scans
    ensures OneOpen(SetRunning(db, id, now).scans) <==> !Rivalled(db.scans, id)
  {
    var after := SetRunning(db, id, now).scans;
    assert Open(after[id].status) && after[id].imageId == db.scans[id].imageId;
    if Rivalled(db.scans, id) {
      var other :| other in db.scans && other != id && db.scans[other].imageId == db.scans[id].imageId &&
                   Open(db.scans[other].status);
      assert after[other] == db.scans[other];
    }
  }

  /** Every other call of a worker leaves the rows alone or closes the worker's scan. */
  lemma OtherCallsClose(s: State, w: WorkerId, out: Outcome)
    requires w in s.workers && Possible(s, s.workers[w], out)
    requires !(s.workers[w].pc.UpdateRunning? && out.applied)
    ensures Closes(s.db.scans, Advance(s, w, out).db.scans)
  {
    hide Wanted, Fits, NextTask, PhaseSet, EventSent, Histogram;
    var t := s.workers[w];
    assert Advance(s, w, out).db == DbAfter(s, t, out);
  }

  lemma WorkKeepsOneOpenIff(s: State, w: WorkerId, out: Outcome)
    requires w in s.workers && Possible(s, s.workers[w], out) && s.workers[w].job.scanId in s.db.scans
    requires OneOpen(s.db.scans)
    ensures OneOpen(Advance(s, w, out).db.scans) <==> !Doubles(s, Work(w, out))
  {
    hide Possible, OneOpen, Rivalled, Wanted;
    var t := s.workers[w];
    if t.pc.UpdateRunning? && out.applied {
      assert Advance(s, w, out).db == SetRunning(s.db, t.job.scanId, s.clock);
      RunningKeepsOneOpenIff(s.db, t.job.scanId, s.clock);
    } else {
      OtherCallsClose(s, w, out);
      ClosingKeepsOneOpen(s.db.scans, Advance(s, w, out).db.scans);
    }
  }

  /** A step keeps at most one open scan an image if and only if it does not double one. */
  lemma StepKeepsOneOpenIff(s: State, step: Step)
    requires Inv(s) && Enabled(s, step) && OneOpen(s.db.scans)
    ensures OneOpen(Apply(s, step).db.scans) <==> !Doubles(s, step)
  {
    if step.InsertScan? {
      hide Inv, OneOpen, Busy;
      InsertKeepsOneOpenIff(s.db.scans, step.id, step.imageId, step.trigger);
    } else if step.Work? {
      assert TaskInv(s, s.workers[step.w]);
      hide Inv, Advance, OneOpen, Doubles;
      WorkKeepsOneOpenIff(s, step.w, step.out);
    } else {
      hide Inv, OneOpen, Advance;
      assert Closes(s.db.scans, Apply(s, step).db.scans);
      ClosingKeepsOneOpen(s.db.scans, Apply(s, step).db.scans);
    }
  }

  // ---------------------------------------------------------------- whole runs

  ghost predicate AlwaysOneOpen(s: State, steps: seq<Step>)
    decreases |steps|
  {
    OneOpen(s.db.scans) && (steps == [] || (Enabled(s, steps[0]) && AlwaysOneOpen(Apply(s, steps[0]), steps[1..])))
  }

  ghost predicate NeverDoubles(s: State, steps: seq<Step>)
    decreases |steps|
  {
    steps == [] || (Enabled(s, steps[0]) && !Doubles(s, steps[0]) && NeverDoubles(Apply(s, steps[0]), steps[1..]))
  }

  /** A run never shows two open scans of one image if and only if none of its steps doubles one. */
  lemma {:induction false} RunKeepsOneOpenIff(s: State, steps: seq<Step>, t: State)
    requires Inv(s) && Run(s, steps, t) && OneOpen(s.db.scans)
    ensures AlwaysOneOpen(s, steps) <==> NeverDoubles(s, steps)
    decreases |steps|
  {
    hide Inv, Apply, Enabled, Doubles, OneOpen;
    if steps != [] {
      var m := Apply(s, steps[0]);
      StepKeepsOneOpenIff(s, steps[0]);
      StepKeepsInv(s, steps[0]);
      if OneOpen(m.db.scans) {
        RunKeepsOneOpenIff(m, steps[1..], t);
      }
    }
  }

  lemma {:induction false} LastIsOneOpen(s: State, steps: seq<Step>, t: State)
    requires Run(s, steps, t) && AlwaysOneOpen(s, steps)
    ensures OneOpen(t.db.scans)
    decreases |steps|
  {
    hide Apply, Enabled, OneOpen;
    if steps != [] {
      LastIsOneOpen(Apply(s, steps[0]), steps[1..], t);
    }
  }

  /**
   After an insert in state s, the run shows at most one open scan an image in all its states if and only if the image
   was idle at the insert and no later step doubles one; then its last state does too.
   */
  ghost predicate OneOpenAfter(s: State, id: ScanId, image: ImageId, trigger: Trigger, after: seq<Step>, t: State)
    requires id !in s.db.scans
  {
    var insert := InsertScan(id, image, trigger);
    OneOpen(s.db.scans) ==>
      && (AlwaysOneOpen(s, [insert] + after) <==>
            !Busy(s.db.scans, image) && NeverDoubles(Apply(s, insert), after))
      && (!Busy(s.db.scans, image) && NeverDoubles(Apply(s, insert), after) ==> OneOpen(t.db.scans))
  }

  lemma InsertedRunOneOpen(s: State, id: ScanId, image: ImageId, trigger: Trigger, after: seq<Step>, t: State)
    requires Inv(s) && id !in s.db.scans && Run(Apply(s, InsertScan(id, image, trigger)), after, t)
    ensures OneOpenAfter(s, id, image, trigger, after, t)
  {
    var insert := InsertScan(id, image, trigger);
    var steps := [insert] + after;
    assert steps[0] == insert && steps[1..] == after;
    assert Enabled(s, insert) && (Doubles(s, insert) <==> Busy(s.db.scans, image));
    hide Inv, Apply, Enabled, Doubles, OneOpen, Busy;
    if OneOpen(s.db.scans) {
      assert Run(s, steps, t);
      RunKeepsOneOpenIff(s, steps, t);
      assert NeverDoubles(s, steps) <==> !Doubles(s, insert) && NeverDoubles(Apply(s, insert), after);
      if AlwaysOneOpen(s, steps) {
        LastIsOneOpen(s, steps, t);
      }
    }
  }

  /** Runs from s0 to m without a doubling step. */
  ghost predicate Single(s0: State, steps: seq<Step>, m: State) {
    Run(s0, steps, m) && NeverDoubles(s0, steps)
  }

  lemma {:induction false} OneMore(s0: State, steps: seq<Step>, m: State, step: Step)
    requires Single(s0, steps, m) && Enabled(m, step) && !Doubles(m, step)
    ensures Single(s0, steps + [step], Apply(m, step))
    decreases |steps|
  {
    hide Apply, Enabled, Doubles;
    if steps == [] {
      var t := Apply(m, step);
      assert steps + [step] == [step] && [step][1..] == [];
      assert Run(t, [], t) && NeverDoubles(t, []);
      assert Run(m, [step], t) && NeverDoubles(m, [step]);
    } else {
      assert (steps + [step])[1..] == steps[1..] + [step];
      OneMore(Apply(s0, steps[0]), steps[1..], m, step);
    }
  }

  /** A first scan that a worker has taken and a user has cancelled before the worker set it running. */
  lemma CancelledInHand(image: ImageId) returns (steps: seq<Step>, s: State)
    ensures Single(Empty(1), steps, s)
    ensures s.db.scans == map[0 := PendingRow(image, Manual).(status := Cancelled, completedAt := Some(0))]
    ensures s.workers == map[0 := Task(Job(0, ""), 0, UpdateRunning)]
  {
    var insert, push, pop, phase, cancel :=
      InsertScan(0, image, Manual), Enqueue(0, ""), Pop(0), Work(0, Outcome(true, None, None, "")), Cancel(0);
    var s0 := Empty(1);
    assert Single(s0, [], s0);
    OneMore(s0, [], s0, insert);
    var s1 := Apply(s0, insert);
    OneMore(s0, [] + [insert], s1, push);
    var s2 := Apply(s1, push);
    OneMore(s0, [] + [insert] + [push], s2, pop);
    var s3 := Apply(s2, pop);
    assert s3.workers == map[0 := Task(Job(0, ""), 0, EnterInitializing)];
    OneMore(s0, [] + [insert] + [push] + [pop], s3, phase);
    var s4 := Apply(s3, phase);
    OneMore(s0, [] + [insert] + [push] + [pop] + [phase], s4, cancel);
    steps, s := [] + [insert] + [push] + [pop] + [phase] + [cancel], Apply(s4, cancel);
  }

  /** Then a second scan of the image, which is idle. */
  lemma SecondInserted(image: ImageId) returns (steps: seq<Step>, s: State)
    ensures Single(Empty(1), steps, s)
    ensures 0 in s.db.scans && 1 in s.db.scans && s.db.scans.Keys == {0, 1}
    ensures s.db.scans[0].imageId == image && s.db.scans[0].status == Cancelled
    ensures s.db.scans[1] == PendingRow(image, Manual)
    ensures s.workers == map[0 := Task(Job(0, ""), 0, UpdateRunning)]
  {
    var before, m := CancelledInHand(image);
    var insert := InsertScan(1, image, Manual);
    OneMore(Empty(1), before, m, insert);
    steps, s := before + [insert], Apply(m, insert);
  }

  /**
   The workers alone break it: a run in which every insert found its image idle, and whose next step, a worker setting
   a cancelled scan running, leaves two open scans of the image.
   */
  lemma WorkerReopens(image: ImageId) returns (steps: seq<Step>, s: State, step: Step)
    ensures Single(Empty(1), steps, s) && Reachable(s) && OneOpen(s.db.scans)
    ensures step.Work? && Enabled(s, step) && !OneOpen(Apply(s, step).db.scans)
  {
    steps, s := SecondInserted(image);
    step := Work(0, Outcome(true, None, None, ""));
    assert Init(Empty(1)) && Reaches(Empty(1), s);
    ReachableInv(s);
    hide Inv, Single, Reachable;
    assert OneOpen(s.db.scans);
    assert Rivalled(s.db.scans, 0);
    StepKeepsOneOpenIff(s, step);
  }

  lemma OneInserted(image: ImageId) returns (s: State)
    ensures s == Apply(Empty(1), InsertScan(0, image, Manual)) && Reachable(s)
  {
    var s0 := Empty(1);
    s := Apply(s0, InsertScan(0, image, Manual));
    OneStep(s0, InsertScan(0, image, Manual));
    assert Init(s0);
  }

  /**
   The last state alone does not tell: a scan inserted for a busy image leaves one open scan again as soon as the first
   one is cancelled, though no step after the insert doubles any.
   */
  lemma ClosingHeals(image: ImageId) returns (s: State, t: State)
    ensures Reachable(s) && OneOpen(s.db.scans) && Busy(s.db.scans, image) && 1 !in s.db.scans
    ensures var m := Apply(s, InsertScan(1, image, Manual));
      Run(m, [Cancel(0)], t) && NeverDoubles(m, [Cancel(0)]) && OneOpen(t.db.scans)
  {
    s := OneInserted(image);
    hide Reaches;
    assert s.db.scans[0] == PendingRow(image, Manual);
    var m := Apply(s, InsertScan(1, image, Manual));
    t := Apply(m, Cancel(0));
    assert [Cancel(0)][1..] == [];
    assert Run(t, [], t) && NeverDoubles(t, []);
    assert t.db.scans[0].status == Cancelled;
  }
}
