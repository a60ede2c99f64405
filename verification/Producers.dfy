/**
 The producers and the canceller as code: the scan handlers of internal/api, the webhook goroutine, and CancelScan.
 Between any two of their calls the other actors of the protocol may take any number of steps.
 */
module Producers {
  import opened Wrappers
  import opened Tables
  import opened Protocol
  import opened Guarantees
  import opened OpenScans
  import opened Runner
  import opened RegistrySync
  import opened ImageRef
  import opened Catalog

  // ---------------------------------------------------------------- interference

  predicate Submits(step: Step, id: ScanId) {
    step == GiveUp(id) || (step.Enqueue? && step.id == id)
  }

  /** The others ran from s to t, and none of them submitted scan `id`. */
  ghost predicate Elsewhere(s: State, steps: seq<Step>, t: State, id: ScanId) {
    Run(s, steps, t) && forall step <- steps :: !Submits(step, id)
  }

  /** Before its job is pushed, a scan can only be cancelled. */
  predicate Unclaimed(r: ScanRow, image: ImageId, trigger: Trigger) {
    && (r.status == Pending || r.status == Cancelled)
    && r.(status := Pending, completedAt := None) ==
       ScanRow(image, Pending, trigger, None, None, None, None, ZERO_COUNTS, None, None, None, None)
  }

  lemma NobodyHolds(s: State, id: ScanId, w: WorkerId)
    requires Inv(s) && id in s.producers && w in s.workers
    ensures s.workers[w].job.scanId != id && s.workers[w].job.scanId in s.db.scans
  {
    assert TaskInv(s, s.workers[w]);
    var job := s.workers[w].job;
    assert job in s.dequeued && job in s.enqueued;
    assert job.scanId in Ids(s.enqueued);
  }

  lemma ElsewhereStep(s: State, step: Step, id: ScanId, image: ImageId, trigger: Trigger)
    requires Inv(s) && Enabled(s, step) && !Submits(step, id)
    requires id in s.producers && id in s.db.scans && Unclaimed(s.db.scans[id], image, trigger)
    ensures
      var s' := Apply(s, step);
      id in s'.producers && id in s'.db.scans && Unclaimed(s'.db.scans[id], image, trigger)
  {
    hide Inv, Advance;
    if step.Work? {
      NobodyHolds(s, id, step.w);
      AdvanceIsLocal(s, step.w, step.out);
      WorkKeepsProducers(s, step.w, step.out);
    }
  }

  lemma WorkKeepsProducers(s: State, w: WorkerId, out: Outcome)
    requires w in s.workers && Possible(s, s.workers[w], out)
    ensures Advance(s, w, out).producers == s.producers
  {
    hide DbAfter, PhaseSet, EventSent, NextTask;
  }

  lemma {:induction false} ElsewhereKeeps(s: State, steps: seq<Step>, t: State, id: ScanId, image: ImageId,
                                          trigger: Trigger)
    requires Inv(s) && Elsewhere(s, steps, t, id)
    requires id in s.producers && id in s.db.scans && Unclaimed(s.db.scans[id], image, trigger)
    ensures Inv(t) && Reaches(s, t)
    ensures id in t.producers && id in t.db.scans && Unclaimed(t.db.scans[id], image, trigger)
    decreases |steps|
  {
    hide Inv, Apply, Enabled, Submits, Unclaimed;
    if steps != [] {
      StepKeepsInv(s, steps[0]);
      ElsewhereStep(s, steps[0], id, image, trigger);
      ElsewhereKeeps(Apply(s, steps[0]), steps[1..], t, id, image, trigger);
    }
  }

  /** Any number of steps of the other actors. Callers see this contract only, so any of them is possible. */
  method Interfere(d: Deployment, ghost id: ScanId, alone: bool)
    requires Inv(d.View())
    modifies d, d.pool
    ensures exists steps :: Elsewhere(old(d.View()), steps, d.View(), id) && (alone ==> steps == [])
  {
    assert Elsewhere(d.View(), [], d.View(), id);
  }

  /** Anyone may run, unless the caller is alone. */
  method OthersRun(d: Deployment, alone: bool)
    requires Inv(d.View())
    modifies d, d.pool
    ensures Inv(d.View()) && Reaches(old(d.View()), d.View())
    ensures alone ==> d.View() == old(d.View())
  {
    ReachesItself(d.View());
  }

  // ---------------------------------------------------------------- insert, then push

  /** A row's generated id. */
  method FreshId(scans: Scans) returns (id: ScanId)
    ensures id !in scans
  {
    ghost var w := IdleWorker(scans.Keys);
    id :| id !in scans;
  }

  /** InsertScheduledScan and its siblings for the other triggers; an error may hide a row that no producer knows of. */
  method InsertScanRow(d: Deployment, image: ImageId, trigger: Trigger, calm: bool)
    returns (r: Option<ScanId>, ghost id: ScanId)
    modifies d, d.pool
    ensures calm ==> r.Some?
    ensures r.Some? ==> r.value == id
    ensures id !in old(d.pool.scans)
    ensures var inserted := Apply(old(d.View()), InsertScan(id, image, trigger));
      if r.Some? then d.View() == inserted
      else d.View() == old(d.View()) || d.View() == Apply(inserted, GiveUp(id))
  {
    var newId := FreshId(d.pool.scans);
    id := newId;
    var fault: bool :| calm ==> !fault;
    var applied: bool := *;
    if fault && !applied {
      return None, id;
    }
    d.pool.scans := d.pool.scans[newId := PendingRow(image, trigger)];
    d.producers := d.producers + {id};
    if fault {
      d.producers := d.producers - {id};
      return None, id;
    }
    r := Some(newId);
  }

  /** scanqueue.Enqueue: LPUSH, whose error may hide a pushed job. */
  method PushJob(d: Deployment, id: ScanId, imageRef: string, calm: bool) returns (ok: bool)
    requires id in d.producers
    modifies d
    ensures calm ==> ok
    ensures ok ==> d.View() == Apply(old(d.View()), Enqueue(id, imageRef))
    ensures !ok ==>
      d.View() == Apply(old(d.View()), Enqueue(id, imageRef)) || d.View() == Apply(old(d.View()), GiveUp(id))
  {
    var fault: bool :| calm ==> !fault;
    var applied: bool := *;
    d.producers := d.producers - {id};
    if !fault || applied {
      var job := Job(id, imageRef);
      d.queue := [job] + d.queue;
      d.enqueued := d.enqueued + [job];
    }
    ok := !fault;
  }

  lemma ProducersHaveRows(s: State)
    requires Inv(s)
    ensures s.producers <= s.db.scans.Keys
  {
  }

  /** Scan `id` was inserted in state s, and from there the run went on to t by the steps `after`. */
  ghost predicate InsertedIn(s: State, id: ScanId, image: ImageId, trigger: Trigger, after: seq<Step>, t: State) {
    id !in s.db.scans && Run(Apply(s, InsertScan(id, image, trigger)), after, t)
  }

  /**
   The end of every producer: a pending row, then its job. Success means that the job of a new, unclaimed scan of the
   image was pushed last; a failure may strand the row, but never leaves a producer that could push it later. `after`
   is the run from the insert on, if there was one. `looksUp` producers make another query between the two, and give
   up when it fails; when `alone`, no other actor runs in between.
   */
  method Submit(d: Deployment, image: ImageId, imageRef: string, trigger: Trigger, looksUp: bool, alone: bool,
                calm: bool)
    returns (ok: bool, ghost id: ScanId, ghost after: Option<seq<Step>>)
    requires Inv(d.View())
    modifies d, d.pool
    ensures Inv(d.View()) && Reaches(old(d.View()), d.View())
    ensures calm ==> ok
    ensures ok ==> after.Some?
    ensures id !in old(d.pool.scans) && id !in d.producers
    ensures after.None? ==> d.View() == old(d.View())
    ensures after.Some? ==> InsertedIn(old(d.View()), id, image, trigger, after.value, d.View())
    ensures ok ==>
      && id in d.pool.scans && Unclaimed(d.pool.scans[id], image, trigger)
      && d.queue != [] && d.queue[0] == Job(id, imageRef)
    ensures alone && after.Some? ==>
      || after.value == [Enqueue(id, imageRef)]
      || (!ok && after.value == [GiveUp(id)])
  {
    hide Inv, Reaches, Apply, Enabled, Run, Unclaimed;
    ghost var s0 := d.View();
    ReachesItself(s0);
    after := None;
    var scan;
    scan, id := InsertScanRow(d, image, trigger, calm);
    Inserted(s0, id, image, trigger);
    InsertEnabled(s0, id, image, trigger);
    ghost var s1 := Apply(s0, InsertScan(id, image, trigger));
    RunItself(s1);
    if scan.None? {
      if d.View() != s0 {
        RunOneMore(s1, [], s1, GiveUp(id));
        after := Some([] + [GiveUp(id)]);
      }
      return false, id, after;
    }
    Interfere(d, id, alone);
    ghost var s2 := d.View();
    ghost var steps :| Elsewhere(s1, steps, s2, id) && (alone ==> steps == []);
    ElsewhereKeeps(s1, steps, s2, id, image, trigger);
    ReachesTransitive(s0, s1, s2);
    JobPushed(s2, id, imageRef);
    RunOneMore(s1, steps, s2, GiveUp(id));
    RunOneMore(s1, steps, s2, Enqueue(id, imageRef));
    var fault: bool :| calm || !looksUp ==> !fault;
    if fault {
      d.producers := d.producers - {id};
      GaveUp(s2, id);
      ReachesTransitive(s0, s2, d.View());
      return false, id, Some(steps + [GiveUp(id)]);
    }
    ok := PushJob(d, scan.value, imageRef, calm);
    ReachesTransitive(s0, s2, d.View());
    after := Some(steps + [if d.View() == Apply(s2, Enqueue(id, imageRef)) then Enqueue(id, imageRef) else GiveUp(id)]);
  }

  lemma InsertEnabled(s: State, id: ScanId, image: ImageId, trigger: Trigger)
    ensures Enabled(s, InsertScan(id, image, trigger)) <==> id !in s.db.scans
  {
  }

  lemma RunItself(s: State)
    ensures Run(s, [], s)
  {
  }

  lemma RunOneMore(s: State, steps: seq<Step>, m: State, step: Step)
    requires Run(s, steps, m) && Enabled(m, step)
    ensures Run(s, steps + [step], Apply(m, step))
  {
    hide Apply, Enabled;
    var t := Apply(m, step);
    assert [step][1..] == [] && Run(t, [], t);
    assert Run(m, [step], t);
    RunConcat(s, steps, m, [step], t);
  }

  lemma Inserted(s: State, id: ScanId, image: ImageId, trigger: Trigger)
    requires Inv(s) && id !in s.db.scans
    ensures
      var m := Apply(s, InsertScan(id, image, trigger));
      && Inv(m) && Reaches(s, m)
      && id in m.producers && id in m.db.scans && Unclaimed(m.db.scans[id], image, trigger) && Enabled(m, GiveUp(id))
      && var given := Apply(m, GiveUp(id)); Inv(given) && Reaches(s, given) && id !in given.producers
    ensures id !in s.producers
  {
    ProducersHaveRows(s);
    hide Inv, Reaches;
    var m := Apply(s, InsertScan(id, image, trigger));
    StepKeepsInv(s, InsertScan(id, image, trigger));
    OneStep(s, InsertScan(id, image, trigger));
    StepKeepsInv(m, GiveUp(id));
    OneStep(m, GiveUp(id));
    ReachesTransitive(s, m, Apply(m, GiveUp(id)));
  }

  lemma GaveUp(s: State, id: ScanId)
    requires id in s.producers
    ensures Apply(s, GiveUp(id)) == s.(producers := s.producers - {id})
  {
  }

  lemma JobPushed(s: State, id: ScanId, imageRef: string)
    requires Inv(s) && id in s.producers
    ensures
      var pushed, given := Apply(s, Enqueue(id, imageRef)), Apply(s, GiveUp(id));
      && Inv(pushed) && Reaches(s, pushed) && Inv(given) && Reaches(s, given)
      && pushed.queue != [] && pushed.queue[0] == Job(id, imageRef)
      && pushed.db == s.db && id !in pushed.producers && id !in given.producers
      && Enabled(s, Enqueue(id, imageRef)) && Enabled(s, GiveUp(id))
  {
    hide Inv, Reaches;
    StepKeepsInv(s, Enqueue(id, imageRef));
    OneStep(s, Enqueue(id, imageRef));
    StepKeepsInv(s, GiveUp(id));
    OneStep(s, GiveUp(id));
  }

  /** The run from an insert on shows one open scan an image exactly if the image was idle and no later step doubles. */
  lemma InsertedOneOpen(s: State, id: ScanId, image: ImageId, trigger: Trigger, after: seq<Step>, t: State)
    requires Inv(s) && InsertedIn(s, id, image, trigger, after, t)
    ensures OneOpenAfter(s, id, image, trigger, after, t)
  {
    hide OneOpenAfter, Inv, Apply, Run;
    InsertedRunOneOpen(s, id, image, trigger, after, t);
  }

  // ---------------------------------------------------------------- the handlers

  /**
   createScan; None is a 404 answer, which an image that cannot be scanned always gets, and so does every caller whose
   image lookup fails; Some(false) is a 500 answer, which a caller also gets when only the final read fails. It never
   looks for an open scan.
   */
  method CreateScan(d: Deployment, t: ImageTable, regs: Registries, hostOf: string -> Option<string>, image: ImageId,
                    calm: bool)
    returns (created: Option<bool>, ghost id: ScanId, ghost after: Option<seq<Step>>)
    requires Inv(d.View())
    modifies d, d.pool
    ensures Inv(d.View()) && Reaches(old(d.View()), d.View())
    ensures image !in Refs(t.images, regs, hostOf) ==> created.None?
    ensures created.None? ==> d.View() == old(d.View())
    ensures calm && image in Refs(t.images, regs, hostOf) ==> created == Some(true)
    ensures created == Some(true) ==>
      && after.Some? && InsertedIn(old(d.View()), id, image, Manual, after.value, d.View())
      && OneOpenAfter(old(d.View()), id, image, Manual, after.value, d.View())
      && id in d.pool.scans && Unclaimed(d.pool.scans[id], image, Manual)
      && d.queue != [] && d.queue[0] == Job(id, Refs(t.images, regs, hostOf)[image])
  {
    hide Inv, Reaches, BuildImagePullRef, Unclaimed, InsertedIn, OneOpenAfter;
    ReachesItself(d.View());
    id, after := 0, None;
    var fault: bool :| calm ==> !fault;
    if fault || !Scannable(t.images, regs, image) {
      return None, id, after;
    }
    var r := t.images[image];
    var ref := BuildImagePullRef(regs[r.registryId].url, r.repository, r.tag, hostOf);
    var ok;
    ok, id, after := Submit(d, image, ref, Manual, false, false, calm);
    if after.Some? {
      InsertedOneOpen(old(d.View()), id, image, Manual, after.value, d.View());
    }
    var unread: bool :| calm ==> !unread;
    created := Some(ok && !unread);
  }

  /** rerunScan: a new scan of the same image, whatever became of the previous one. */
  method RerunScan(d: Deployment, t: ImageTable, regs: Registries, hostOf: string -> Option<string>, previous: ScanId,
                   calm: bool)
    returns (created: Option<bool>, ghost id: ScanId, ghost after: Option<seq<Step>>)
    requires Inv(d.View())
    modifies d, d.pool
    ensures Inv(d.View()) && Reaches(old(d.View()), d.View())
    ensures created.None? ==> d.View() == old(d.View())
    ensures previous !in old(d.pool.scans) ==> created.None?
    ensures previous in old(d.pool.scans) ==>
      var image, refs := old(d.pool.scans)[previous].imageId, Refs(t.images, regs, hostOf);
      && (image !in refs ==> created.None?)
      && (calm && image in refs ==> created == Some(true))
      && (created == Some(true) ==>
            && id != previous && after.Some?
            && InsertedIn(old(d.View()), id, image, Manual, after.value, d.View())
            && OneOpenAfter(old(d.View()), id, image, Manual, after.value, d.View())
            && id in d.pool.scans && Unclaimed(d.pool.scans[id], image, Manual)
            && d.queue != [] && d.queue[0] == Job(id, refs[image]))
  {
    hide Inv, Reaches, BuildImagePullRef, Unclaimed, InsertedIn, OneOpenAfter;
    ReachesItself(d.View());
    id, after := 0, None;
    var fault: bool :| calm ==> !fault;
    if fault || previous !in d.pool.scans {
      return None, id, after;
    }
    var image := d.pool.scans[previous].imageId;
    if !Scannable(t.images, regs, image) {
      return None, id, after;
    }
    var r := t.images[image];
    var ref := BuildImagePullRef(regs[r.registryId].url, r.repository, r.tag, hostOf);
    var ok;
    ok, id, after := Submit(d, image, ref, Manual, true, false, calm);
    if after.Some? {
      InsertedOneOpen(old(d.View()), id, image, Manual, after.value, d.View());
    }
    var unread: bool :| calm ==> !unread;
    created := Some(ok && !unread);
  }

  type EventId = nat

  /** The webhook_events table: which stored events are marked processed. */
  class WebhookEvents {
    var processed: map<EventId, bool>

    constructor ()
      ensures processed == map[]
    {
      processed := map[];
    }

    /** InsertWebhookEvent; an error may hide a row. */
    method Insert(calm: bool) returns (id: Option<EventId>, ghost inserted: EventId)
      modifies this
      ensures calm ==> id.Some?
      ensures inserted !in old(processed) && (id.Some? ==> id.value == inserted)
      ensures processed == old(processed)[inserted := false] || (id.None? && processed == old(processed))
    {
      ghost var w := IdleWorker(processed.Keys);
      var newId: EventId :| newId !in processed;
      inserted := newId;
      var fault: bool :| calm ==> !fault;
      var applied: bool := *;
      if !fault || applied {
        processed := processed[newId := false];
      }
      id := if fault then None else Some(newId);
    }

    /** MarkWebhookEventProcessed, whose errors are logged at most. */
    method MarkProcessed(id: EventId, calm: bool)
      requires id in processed
      modifies this
      ensures processed == old(processed)[id := true] || (!calm && processed == old(processed))
    {
      var fault: bool :| calm ==> !fault;
      var applied: bool := *;
      if !fault || applied {
        processed := processed[id := true];
      }
    }
  }

  datatype Handled = Skipped | Submitted | Dropped

  /** The check and, for an idle image, the scan; other actors may run in between. */
  method SubmitIfIdle(d: Deployment, image: ImageId, imageRef: string, calm: bool)
    returns (handled: Handled, ghost id: ScanId, ghost at: State, ghost after: Option<seq<Step>>)
    requires Inv(d.View())
    modifies d, d.pool
    ensures Inv(d.View()) && Reaches(old(d.View()), d.View())
    ensures calm ==> handled == if Busy(old(d.pool.scans), image) then Skipped else Submitted
    ensures handled == Skipped ==> d.View() == old(d.View())
    ensures handled == Submitted ==>
      && Reaches(old(d.View()), at) && after.Some?
      && InsertedIn(at, id, image, Webhook, after.value, d.View())
      && OneOpenAfter(at, id, image, Webhook, after.value, d.View())
      && id in d.pool.scans && Unclaimed(d.pool.scans[id], image, Webhook)
      && d.queue != [] && d.queue[0] == Job(id, imageRef)
  {
    hide Inv, Reaches, Unclaimed, Busy, InsertedIn, OneOpenAfter;
    ghost var s0 := d.View();
    ReachesItself(s0);
    id, at, after := 0, s0, None;
    var fault: bool :| calm ==> !fault;
    if fault {
      return Dropped, id, at, after;
    }
    if Busy(d.pool.scans, image) {
      return Skipped, id, at, after;
    }
    OthersRun(d, false);
    at := d.View();
    var ok;
    ok, id, after := Submit(d, image, imageRef, Webhook, false, false, calm);
    if after.Some? {
      InsertedOneOpen(at, id, image, Webhook, after.value, d.View());
    }
    ReachesTransitive(s0, at, d.View());
    handled := if ok then Submitted else Dropped;
  }

  /**
   processAsync. The event is stored first, and marked processed only after it was skipped or submitted. The image is
   upserted before the check; a busy one is skipped. The check is not atomic with the insert: the scan is inserted in
   the state `at`, where another actor may have made the image busy.
   */
  method ProcessAsync(d: Deployment, t: ImageTable, stored: WebhookEvents, registryId: RegistryId, registryUrl: string,
                      repository: string, tag: string, now: Time, hostOf: string -> Option<string>, calm: bool)
    returns (handled: Handled, image: Option<ImageId>, ghost event: EventId, ghost id: ScanId, ghost at: State,
             ghost after: Option<seq<Step>>)
    requires Inv(d.View()) && t.Valid()
    modifies d, d.pool, t, stored
    ensures Inv(d.View()) && Reaches(old(d.View()), d.View()) && t.Valid()
    ensures event !in old(stored.processed)
    ensures
      || (!calm && stored.processed == old(stored.processed))
      || (!calm && stored.processed == old(stored.processed)[event := false])
      || (handled != Dropped && stored.processed == old(stored.processed)[event := true])
    ensures image.Some? ==>
      image.value in t.images && t.images[image.value].deletedAt.None? &&
      KeyOf(t.images[image.value]) == Key(registryId, repository, tag)
    ensures Upserted(old(t.images), t.images, Key(registryId, repository, tag), old(t.nextId), now)
    ensures image.None? ==> handled == Dropped && d.View() == old(d.View())
    ensures calm ==> image.Some? && (if Busy(old(d.pool.scans), image.value) then handled == Skipped
                                     else handled == Submitted)
    ensures handled == Skipped ==> d.View() == old(d.View())
    ensures handled == Submitted ==>
      && Reaches(old(d.View()), at) && after.Some?
      && InsertedIn(at, id, image.value, Webhook, after.value, d.View())
      && OneOpenAfter(at, id, image.value, Webhook, after.value, d.View())
      && id in d.pool.scans && Unclaimed(d.pool.scans[id], image.value, Webhook)
      && d.queue != [] && d.queue[0] == Job(id, BuildImagePullRef(registryUrl, repository, tag, hostOf))
  {
    hide Inv, Reaches, BuildImagePullRef, Unclaimed, Busy, Active, InsertedIn, OneOpenAfter;
    ghost var s0 := d.View();
    ReachesItself(s0);
    id, at, after := 0, s0, None;
    var eventId;
    eventId, event := stored.Insert(calm);
    if eventId.None? {
      return Dropped, None, event, id, at, after;
    }
    image := t.UpsertImage(registryId, repository, tag, now, calm);
    if image.None? {
      return Dropped, None, event, id, at, after;
    }
    var ref := BuildImagePullRef(registryUrl, repository, tag, hostOf);
    handled, id, at, after := SubmitIfIdle(d, image.value, ref, calm);
    if handled != Dropped {
      stored.MarkProcessed(eventId.value, calm);
    }
  }

  /** CancelScan: only a pending or running scan, and the caller learns whether it was one. */
  method CancelScan(d: Deployment, id: ScanId, calm: bool) returns (ok: bool)
    requires Inv(d.View())
    modifies d.pool
    ensures Inv(d.View()) && Reaches(old(d.View()), d.View())
    ensures d.View() == old(d.View()) || d.View() == Apply(old(d.View()), Cancel(id))
    ensures calm ==>
      (ok <==>
       id in old(d.pool.scans)
       && (old(d.pool.scans)[id].status == Pending || old(d.pool.scans)[id].status == Running))
    ensures ok ==> d.pool.scans != old(d.pool.scans)
    ensures d.pool.scans == old(d.pool.scans) ||
      (id in old(d.pool.scans)
       && (old(d.pool.scans)[id].status == Pending || old(d.pool.scans)[id].status == Running)
       && d.pool.scans ==
          old(d.pool.scans)[id := old(d.pool.scans)[id].(status := Cancelled, completedAt := Some(d.clock))])
  {
    hide Inv, Reaches;
    ghost var s := d.View();
    ReachesItself(s);
    CancelKeepsInv(s, id);
    OneStep(s, Cancel(id));
    var fault: bool :| calm ==> !fault;
    var applied: bool := *;
    if fault && !applied {
      return false;
    }
    if id in d.pool.scans && Open(d.pool.scans[id].status) {
      d.pool.scans := d.pool.scans[id := d.pool.scans[id].(status := Cancelled, completedAt := Some(d.clock))];
      return !fault;
    }
    ok := false;
  }

  // ---------------------------------------------------------------- what producers do not promise

  /** Manual scans do not look for a running one: from any state, an image can get two open scans. */
  lemma OpenScansPileUp(s: State, image: ImageId) returns (t: State, i: ScanId, j: ScanId)
    ensures Reaches(s, t) && i != j && i in t.db.scans && j in t.db.scans
    ensures t.db.scans[i] == PendingRow(image, Manual) && t.db.scans[j] == PendingRow(image, Manual)
  {
    hide Reaches;
    i := IdleWorker(s.db.scans.Keys);
    var m := Apply(s, InsertScan(i, image, Manual));
    OneStep(s, InsertScan(i, image, Manual));
    j := IdleWorker(m.db.scans.Keys);
    t := Apply(m, InsertScan(j, image, Manual));
    OneStep(m, InsertScan(j, image, Manual));
    ReachesTransitive(s, m, t);
  }
}
