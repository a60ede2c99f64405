/** The phase key in Redis: what it shows of a worker's attempt, as long as it has not expired. */
module Phases {
  import opened Wrappers
  import opened Tables
  import opened Protocol
  import opened Guarantees

  /** The phase an attempt is in before the call `pc`; none where the call may follow one phase or another. */
  function PhaseBefore(pc: Pc): Option<Phase> {
    match pc
    case EnterInitializing | FailedPhase(_) => None
    case UpdateRunning | EnterScanning | StartFailedPhase(_) => Some(Initializing)
    case ScanImage | EnterPersisting(_) => Some(Scanning)
    case BeginTx(_) | CommitTx(_, _) | EnterCompleted => Some(Persisting)
    case PublishCompleted => Some(Phase.Completed)
    case StartFailedPublish(_) | StartFailedMark(_) | FailedMark(_) | FailedPublish(_) | Returned(_) =>
      Some(Phase.Failed)
  }

  /** The calls of setScanPhase. */
  predicate PhaseCall(pc: Pc) {
    || pc.EnterInitializing? || pc.EnterScanning? || pc.EnterPersisting? || pc.EnterCompleted?
    || pc.StartFailedPhase? || pc.FailedPhase?
  }

  /** The key, if it is there, shows this phase. */
  predicate KeyIs(s: State, id: ScanId, phase: Phase) {
    id in s.phases ==> s.phases[id] == phase
  }

  /** The key of the scan that worker w holds shows the phase its attempt is in. */
  ghost predicate KeyOk(s: State, w: WorkerId) {
    w in s.workers && PhaseBefore(s.workers[w].pc).Some? ==>
      KeyIs(s, s.workers[w].job.scanId, PhaseBefore(s.workers[w].pc).value)
  }

  /** Worker w's phase calls in state s take effect. */
  predicate TakesEffect(s: State, step: Step, w: WorkerId) {
    step.Work? && step.w == w && w in s.workers && PhaseCall(s.workers[w].pc) ==> step.out.applied
  }

  /** So they do along the run. */
  ghost predicate PhasesTakeEffect(s: State, steps: seq<Step>, w: WorkerId)
    decreases |steps|
  {
    steps == [] ||
    (Enabled(s, steps[0]) && TakesEffect(s, steps[0], w) && PhasesTakeEffect(Apply(s, steps[0]), steps[1..], w))
  }

  /** The progress endpoint shows an attempt as running until it commits or fails, whatever the row says. */
  lemma ShownWhileRunning(s: State, t: State, w: WorkerId, listed: bool)
    requires w in s.workers && KeyOk(s, w) && s.workers[w].job.scanId in s.phases
    requires var pc := s.workers[w].pc;
      || pc.UpdateRunning? || pc.EnterScanning? || pc.ScanImage? || pc.EnterPersisting? || pc.BeginTx? || pc.CommitTx?
      || pc.EnterCompleted?
    ensures ScanProgress(s, t, s.workers[w].job.scanId, false, listed) == Some(ShownRunning)
  {
  }

  lemma OwnCallKeepsKey(s: State, w: WorkerId, out: Outcome)
    requires w in s.workers && Possible(s, s.workers[w], out)
    requires if PhaseCall(s.workers[w].pc) then out.applied else KeyOk(s, w)
    ensures KeyOk(Advance(s, w, out), w)
    ensures !PhaseCall(s.workers[w].pc) ==> Advance(s, w, out).phases == s.phases
  {
    hide DbAfter, EventSent;
  }

  lemma OtherCallKeepsKey(s: State, v: WorkerId, out: Outcome, w: WorkerId)
    requires Inv(s) && v in s.workers && Possible(s, s.workers[v], out) && v != w && KeyOk(s, w)
    ensures KeyOk(Advance(s, v, out), w)
  {
    hide DbAfter, EventSent, PhaseSet, NextTask, PhaseBefore, Possible;
    assert w in s.workers ==> s.workers[v].job.scanId != s.workers[w].job.scanId;
  }

  lemma StepKeepsKey(s: State, step: Step, w: WorkerId)
    requires Inv(s) && Enabled(s, step) && TakesEffect(s, step, w) && KeyOk(s, w)
    ensures KeyOk(Apply(s, step), w)
  {
    hide Inv, Advance, Possible;
    if step.Work? {
      if step.w == w {
        OwnCallKeepsKey(s, w, step.out);
      } else {
        OtherCallKeepsKey(s, step.w, step.out, w);
      }
    }
  }

  /**
   While every phase call of a worker takes effect, the key of its scan, as long as it is there, shows the phase of the
   attempt: "scanning" while the scanner runs, "persisting" during the transaction, and what became of it at the end.
   Nothing that others do can put another phase there.
   */
  lemma {:induction false} KeyFollowsAttempt(s: State, steps: seq<Step>, t: State, w: WorkerId)
    requires Inv(s) && Run(s, steps, t) && PhasesTakeEffect(s, steps, w) && KeyOk(s, w)
    ensures Inv(t) && KeyOk(t, w)
    decreases |steps|
  {
    hide Inv, Apply, Enabled, KeyOk, TakesEffect;
    if steps != [] {
      StepKeepsInv(s, steps[0]);
      StepKeepsKey(s, steps[0], w);
      KeyFollowsAttempt(Apply(s, steps[0]), steps[1..], t, w);
    }
  }
}
