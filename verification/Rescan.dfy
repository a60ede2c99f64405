/**
 internal/scheduler/tasks.go: the passes that queue rescans, beside any other actors or alone. Any call may fail.
 */
module Rescan {
  import opened Wrappers
  import Int64
  import opened Text
  import opened Tables
  import opened Protocol
  import opened Guarantees
  import opened OpenScans
  import opened Runner
  import opened RegistrySync
  import opened ImageRef
  import opened Catalog
  import opened Producers
  import opened Durations

  // ---------------------------------------------------------------- what a pass may add

  /** Between a and b only scheduled scans of idle images in `who` appeared, one an image, and jobs for them. */
  ghost predicate Gain(a: State, b: State, refs: map<ImageId, string>, who: set<ImageId>) {
    && b == a.(db := a.db.(scans := b.db.scans), queue := b.queue, enqueued := b.enqueued)
    && NewScans(a.db.scans, b.db.scans, who)
    && NewJobs(a, b, refs)
  }

  ghost predicate NewScans(a: Scans, b: Scans, who: set<ImageId>) {
    && (forall id <- a :: id in b && b[id] == a[id])
    && (forall id <- b :: id !in a ==>
          b[id] == PendingRow(b[id].imageId, Schedule) && b[id].imageId in who && !Busy(a, b[id].imageId))
    && (forall i, j :: (i in b && j in b && i !in a && j !in a && b[i].imageId == b[j].imageId) ==> i == j)
  }

  /** The list grew at its head by jobs of new scans, each with the reference of its own image. */
  ghost predicate NewJobs(a: State, b: State, refs: map<ImageId, string>) {
    && |a.queue| <= |b.queue| && b.queue == Pushed(a, b) + a.queue
    && forall job <- Pushed(a, b) ::
         && job.scanId in b.db.scans && job.scanId !in a.db.scans
         && b.db.scans[job.scanId].imageId in refs && job.imageRef == refs[b.db.scans[job.scanId].imageId]
  }

  function Pushed(a: State, b: State): seq<Job>
    requires |a.queue| <= |b.queue|
  {
    b.queue[..|b.queue| - |a.queue|]
  }

  /** Every new scan got its job. */
  ghost predicate AllPushed(a: State, b: State) {
    |a.queue| <= |b.queue| && forall id <- b.db.scans :: id !in a.db.scans ==> id in Ids(Pushed(a, b))
  }

  /** The images with a new scan. */
  function Gained(a: Scans, b: Scans): set<ImageId> {
    set id | id in b && id !in a :: b[id].imageId
  }

  lemma GainItself(a: State, refs: map<ImageId, string>, who: set<ImageId>)
    ensures Gain(a, a, refs, who) && AllPushed(a, a)
  {
    assert a.queue == [] + a.queue;
  }

  lemma NewScansTransitive(a: Scans, b: Scans, c: Scans, who: set<ImageId>, more: set<ImageId>)
    requires NewScans(a, b, who) && NewScans(b, c, more)
    ensures NewScans(a, c, who + more)
  {
    forall image | Busy(a, image) ensures Busy(b, image) {
      var id :| id in a && a[id].imageId == image && Open(a[id].status);
      assert b[id] == a[id];
    }
    forall id <- b | id !in a ensures Busy(b, b[id].imageId) {
      assert b[id].status == Pending;
    }
    hide Busy;
  }

  lemma NewJobsTransitive(a: State, b: State, c: State, refs: map<ImageId, string>)
    requires NewJobs(a, b, refs) && NewJobs(b, c, refs)
    requires forall id <- a.db.scans :: id in b.db.scans
    requires forall id <- b.db.scans :: id in c.db.scans && c.db.scans[id] == b.db.scans[id]
    ensures NewJobs(a, c, refs)
    ensures AllPushed(a, b) && AllPushed(b, c) ==> AllPushed(a, c)
  {
    assert Pushed(a, c) == Pushed(b, c) + Pushed(a, b);
    assert Ids(Pushed(a, c)) == Ids(Pushed(b, c)) + Ids(Pushed(a, b));
  }

  lemma GainTransitive(a: State, b: State, c: State, refs: map<ImageId, string>, who: set<ImageId>, more: set<ImageId>)
    requires Gain(a, b, refs, who) && Gain(b, c, refs, more)
    ensures Gain(a, c, refs, who + more)
    ensures AllPushed(a, b) && AllPushed(b, c) ==> AllPushed(a, c)
    ensures forall image :: Busy(b.db.scans, image) ==> Busy(c.db.scans, image)
  {
    NewScansTransitive(a.db.scans, b.db.scans, c.db.scans, who, more);
    NewJobsTransitive(a, b, c, refs);
    BusyStays(b.db.scans, c.db.scans, more);
    hide NewJobs, AllPushed, Busy, NewScans;
  }

  lemma BusyStays(a: Scans, b: Scans, who: set<ImageId>)
    requires NewScans(a, b, who)
    ensures forall image :: Busy(a, image) ==> Busy(b, image)
  {
    forall image | Busy(a, image) ensures Busy(b, image) {
      var id :| id in a && a[id].imageId == image && Open(a[id].status);
      assert b[id] == a[id];
    }
  }

  /** Whatever a pass gains, it keeps at most one open scan an image. */
  lemma GainKeepsOneOpen(a: State, b: State, refs: map<ImageId, string>, who: set<ImageId>)
    requires Gain(a, b, refs, who)
    ensures OneOpen(a.db.scans) ==> OneOpen(b.db.scans)
  {
    hide NewJobs, Busy;
    var s, s' := a.db.scans, b.db.scans;
    if OneOpen(s) {
      forall i, j | && i in s' && j in s' && Open(s'[i].status) && Open(s'[j].status)
                    && s'[i].imageId == s'[j].imageId
        ensures i == j
      {
        OpenIsBusy(s, i);
        OpenIsBusy(s, j);
      }
    }
  }

  lemma OpenIsBusy(scans: Scans, id: ScanId)
    ensures id in scans && Open(scans[id].status) ==> Busy(scans, scans[id].imageId)
  {
  }

  /** If all of `who` ends up busy, exactly the idle ones of `who` gained a scan. */
  lemma GainedExactly(a: Scans, b: Scans, who: set<ImageId>)
    requires NewScans(a, b, who)
    requires forall image <- who :: Busy(b, image)
    ensures Gained(a, b) == set image <- who | !Busy(a, image)
  {
    forall image <- who | !Busy(a, image) ensures image in Gained(a, b) {
      var id :| id in b && b[id].imageId == image && Open(b[id].status);
    }
  }

  /** New scans and new list entries match one to one. */
  lemma OneJobPerNewScan(a: State, b: State, refs: map<ImageId, string>, who: set<ImageId>)
    requires Gain(a, b, refs, who) && AllPushed(a, b) && QueueInv(b)
    ensures Ids(Pushed(a, b)) == b.db.scans.Keys - a.db.scans.Keys
    ensures forall i, j :: 0 <= i < j < |Pushed(a, b)| ==> Pushed(a, b)[i].scanId != Pushed(a, b)[j].scanId
  {
    HistorySplits(b);
  }

  // ---------------------------------------------------------------- enqueueScheduledScan

  datatype EnqueueError = NotFound | CallFailed

  /** A row inserted for an idle image, and then its job or none. */
  lemma ScheduledScan(a: State, id: ScanId, image: ImageId, refs: map<ImageId, string>)
    requires Inv(a) && id !in a.db.scans && !Busy(a.db.scans, image) && image in refs
    ensures
      var m := Apply(a, InsertScan(id, image, Schedule));
      var given, pushed := Apply(m, GiveUp(id)), Apply(m, Enqueue(id, refs[image]));
      && Inv(given) && Reaches(a, given) && Gain(a, given, refs, {image})
      && Inv(pushed) && Reaches(a, pushed) && Gain(a, pushed, refs, {image})
      && AllPushed(a, pushed) && Busy(pushed.db.scans, image)
  {
    hide Inv, Reaches;
    var m := Apply(a, InsertScan(id, image, Schedule));
    var given, pushed := Apply(m, GiveUp(id)), Apply(m, Enqueue(id, refs[image]));
    StepKeepsInv(a, InsertScan(id, image, Schedule));
    OneStep(a, InsertScan(id, image, Schedule));
    StepKeepsInv(m, GiveUp(id));
    OneStep(m, GiveUp(id));
    ReachesTransitive(a, m, given);
    StepKeepsInv(m, Enqueue(id, refs[image]));
    OneStep(m, Enqueue(id, refs[image]));
    ReachesTransitive(a, m, pushed);
    ProducersHaveRows(a);
    assert given.producers == a.producers && pushed.producers == a.producers;
    assert m.db.scans[id].status == Pending;
    assert Pushed(a, given) == [] && Pushed(a, pushed) == [Job(id, refs[image])];
    assert given.queue == [] + a.queue;
  }

  /** One scan that a pass inserted: the state of its busy check and the state of its insert. */
  datatype Own = Own(image: ImageId, id: ScanId, check: State, at: State)

  /** Between s0 and t, the image was found idle, and then the scan was inserted. */
  ghost predicate OwnInsert(s0: State, own: Own, refs: map<ImageId, string>, t: State) {
    && own.image in refs
    && Reaches(s0, own.check) && !Busy(own.check.db.scans, own.image)
    && Reaches(own.check, own.at) && own.id !in own.at.db.scans
    && Reaches(Apply(own.at, InsertScan(own.id, own.image, Schedule)), t)
  }

  /** The image was busy in some state between s0 and t. */
  ghost predicate WasBusy(s0: State, image: ImageId, t: State) {
    exists m :: Reaches(s0, m) && Busy(m.db.scans, image) && Reaches(m, t)
  }

  lemma BusyNow(s0: State, image: ImageId, t: State)
    requires Reaches(s0, t) && Busy(t.db.scans, image)
    ensures WasBusy(s0, image, t)
  {
    ReachesItself(t);
  }

  lemma WasBusyLonger(a: State, s0: State, image: ImageId, t: State, b: State)
    requires Reaches(a, s0) && WasBusy(s0, image, t) && Reaches(t, b)
    ensures WasBusy(a, image, b)
  {
    hide Reaches, Busy;
    var m :| Reaches(s0, m) && Busy(m.db.scans, image) && Reaches(m, t);
    ReachesTransitive(a, s0, m);
    ReachesTransitive(m, t, b);
  }

  lemma OwnInsertLonger(a: State, s0: State, own: Own, refs: map<ImageId, string>, t: State, b: State)
    requires Reaches(a, s0) && OwnInsert(s0, own, refs, t) && Reaches(t, b)
    ensures OwnInsert(a, own, refs, b)
  {
    hide Reaches, Busy, Apply;
    ReachesTransitive(a, s0, own.check);
    ReachesTransitive(Apply(own.at, InsertScan(own.id, own.image, Schedule)), t, b);
  }

  /** What Submit leaves of a turn, whoever ran in between ... */
  lemma OwnTurn(s0: State, check: State, at: State, id: ScanId, image: ImageId, refs: map<ImageId, string>,
                after: seq<Step>, t: State)
    requires Reaches(s0, check) && !Busy(check.db.scans, image) && Reaches(check, at) && image in refs
    requires InsertedIn(at, id, image, Schedule, after, t)
    ensures OwnInsert(s0, Own(image, id, check, at), refs, t) && WasBusy(s0, image, t)
  {
    var insert := InsertScan(id, image, Schedule);
    var m := Apply(at, insert);
    assert m.db.scans[id].status == Pending;
    assert Reaches(m, t);
    hide Reaches, Apply;
    OneStep(at, insert);
    ReachesTransitive(s0, check, at);
    ReachesTransitive(s0, at, m);
  }

  // ---------------------------------------------------------------- turns and passes

  /** A turn for one image, from state a to b: one own insert at most, and, when alone, nothing but its scan and job. */
  ghost predicate TurnDone(alone: bool, a: State, b: State, refs: map<ImageId, string>, image: ImageId,
                           own: Option<Own>) {
    && Inv(b) && Reaches(a, b)
    && (own.Some? ==> own.value.image == image && OwnInsert(a, own.value, refs, b))
    && (alone ==> Gain(a, b, refs, {image} * refs.Keys))
  }

  /** The image was busy at some time between a and b, and when nobody else ran it still is. */
  ghost predicate Backed(alone: bool, a: State, image: ImageId, b: State) {
    WasBusy(a, image, b) && (alone ==> Busy(b.db.scans, image))
  }

  /** A turn without an error. */
  ghost predicate TurnOk(alone: bool, a: State, b: State, refs: map<ImageId, string>, image: ImageId) {
    && (image in refs ==> Backed(alone, a, image, b))
    && (alone ==> AllPushed(a, b))
  }

  /** What a pass has done since its listing in state l. */
  ghost predicate PassDone(alone: bool, l: State, t: State, refs: map<ImageId, string>, who: set<ImageId>,
                           owns: seq<Own>) {
    && Inv(t) && Reaches(l, t)
    && (forall own <- owns :: own.image in who && OwnInsert(l, own, refs, t))
    && (alone ==> Gain(l, t, refs, who))
  }

  /** What an undisturbed pass has achieved for the images it is through with. */
  ghost predicate PassOk(alone: bool, l: State, t: State, through: set<ImageId>) {
    && (forall image <- through :: Backed(alone, l, image, t))
    && (alone ==> AllPushed(l, t))
  }

  lemma PassStarts(alone: bool, l: State, refs: map<ImageId, string>, who: set<ImageId>)
    requires Inv(l)
    ensures PassDone(alone, l, l, refs, who, []) && PassOk(alone, l, l, {})
  {
    ReachesItself(l);
    GainItself(l, refs, who);
  }

  function With(owns: seq<Own>, own: Option<Own>): seq<Own> {
    owns + if own.Some? then [own.value] else []
  }

  lemma PassTurn(alone: bool, l: State, a: State, b: State, refs: map<ImageId, string>, who: set<ImageId>,
                 owns: seq<Own>, image: ImageId, own: Option<Own>)
    requires PassDone(alone, l, a, refs, who, owns) && TurnDone(alone, a, b, refs, image, own)
    requires image in refs ==> image in who
    ensures PassDone(alone, l, b, refs, who, With(owns, own))
  {
    hide Inv, Reaches, Gain, OwnInsert;
    ReachesTransitive(l, a, b);
    ReachesItself(l);
    ReachesItself(b);
    forall o <- With(owns, own) ensures o.image in who && OwnInsert(l, o, refs, b) {
      if o in owns {
        OwnInsertLonger(l, l, o, refs, a, b);
      } else {
        OwnInRefs(a, o, refs, b);
        OwnInsertLonger(l, a, o, refs, b, b);
      }
    }
    if alone {
      GainTransitive(l, a, b, refs, who, {image} * refs.Keys);
      assert who + {image} * refs.Keys == who;
    }
  }

  lemma OwnInRefs(s0: State, own: Own, refs: map<ImageId, string>, t: State)
    requires OwnInsert(s0, own, refs, t)
    ensures own.image in refs
  {
  }

  lemma PassTurnOk(alone: bool, l: State, a: State, b: State, refs: map<ImageId, string>, who: set<ImageId>,
                   owns: seq<Own>, image: ImageId, own: Option<Own>, through: set<ImageId>)
    requires PassDone(alone, l, a, refs, who, owns) && TurnDone(alone, a, b, refs, image, own)
    requires PassOk(alone, l, a, through) && TurnOk(alone, a, b, refs, image)
    ensures PassOk(alone, l, b, through + {image} * refs.Keys)
  {
    hide Inv, Reaches, Gain, OwnInsert, WasBusy, Busy, AllPushed;
    ReachesItself(l);
    ReachesItself(b);
    forall x <- through + {image} * refs.Keys ensures WasBusy(l, x, b) {
      if x in through {
        WasBusyLonger(l, l, x, a, b);
      } else {
        WasBusyLonger(l, a, x, b, b);
      }
    }
    if alone {
      GainTransitive(l, a, b, refs, who, {image} * refs.Keys);
    }
  }

  /** An undisturbed pass alone: exactly the idle candidates gained a scan, each with its job. */
  lemma PassEnds(l: State, t: State, refs: map<ImageId, string>, who: set<ImageId>, owns: seq<Own>)
    requires PassDone(true, l, t, refs, who, owns) && PassOk(true, l, t, who)
    ensures Gain(l, t, refs, who) && AllPushed(l, t)
    ensures forall image <- who :: Busy(t.db.scans, image)
    ensures Gained(l.db.scans, t.db.scans) == set image <- who | !Busy(l.db.scans, image)
  {
    hide Inv, Reaches, Busy, AllPushed, WasBusy, OwnInsert;
    GainedExactly(l.db.scans, t.db.scans, who);
  }

  lemma PassKeepsOneOpen(alone: bool, l: State, t: State, refs: map<ImageId, string>, who: set<ImageId>, owns: seq<Own>)
    requires PassDone(alone, l, t, refs, who, owns)
    ensures alone && OneOpen(l.db.scans) ==> OneOpen(t.db.scans)
  {
    hide Inv, Reaches, Gain, OneOpen;
    if alone {
      GainKeepsOneOpen(l, t, refs, who);
    }
  }

  // ---------------------------------------------------------------- enqueueScheduledScan as code

  lemma RunOne(s: State, step: Step, t: State)
    requires Run(s, [step], t)
    ensures Enabled(s, step) && t == Apply(s, step)
  {
    hide Enabled, Apply;
    assert [step][1..] == [];
  }

  /** ... and when nobody did. */
  lemma AloneTurn(s0: State, id: ScanId, image: ImageId, refs: map<ImageId, string>, pushed: bool, t: State)
    requires Inv(s0) && !Busy(s0.db.scans, image) && image in refs
    requires InsertedIn(s0, id, image, Schedule, [if pushed then Enqueue(id, refs[image]) else GiveUp(id)], t)
    ensures Gain(s0, t, refs, {image})
    ensures pushed ==> AllPushed(s0, t) && Busy(t.db.scans, image)
  {
    hide Inv, Reaches, Gain, AllPushed, Busy, Apply, Enabled;
    InsertEnabled(s0, id, image, Schedule);
    RunOne(Apply(s0, InsertScan(id, image, Schedule)), if pushed then Enqueue(id, refs[image]) else GiveUp(id), t);
    ScheduledScan(s0, id, image, refs);
  }

  /**
   Whatever runs between its calls, an enqueue inserts one scan at most, `own`, for an image that it found idle; nil
   means that the image was busy at some time, and the job of an inserted scan was pushed last. When `alone`, the image
   is busy at the end, and no more than its one scan and job appear.
   */
  method EnqueueScheduledScan(d: Deployment, t: ImageTable, regs: Registries, hostOf: string -> Option<string>,
                              image: ImageId, alone: bool, calm: bool)
    returns (err: Option<EnqueueError>, ghost own: Option<Own>)
    requires Inv(d.View())
    modifies d, d.pool
    ensures TurnDone(alone, old(d.View()), d.View(), Refs(t.images, regs, hostOf), image, own)
    ensures err.None? || err.value.NotFound? ==>
      TurnOk(alone, old(d.View()), d.View(), Refs(t.images, regs, hostOf), image)
    ensures err.None? ==> Backed(alone, old(d.View()), image, d.View())
    ensures err.None? && own.Some? ==>
      d.queue != [] && d.queue[0] == Job(own.value.id, Refs(t.images, regs, hostOf)[image])
    ensures calm ==> err.None? || err.value.NotFound?
    ensures err == Some(NotFound) ==> image !in Refs(t.images, regs, hostOf) && own.None?
    ensures alone && err == Some(NotFound) ==> d.View() == old(d.View()) && !Busy(d.pool.scans, image)
    ensures alone && OneOpen(old(d.pool.scans)) ==> OneOpen(d.pool.scans)
  {
    hide Inv, Gain, AllPushed, Reaches, Apply, BuildImagePullRef, Busy, WasBusy, OwnInsert, OneOpen, InsertedIn;
    ghost var s0 := d.View();
    ghost var refs := Refs(t.images, regs, hostOf);
    own := None;
    ReachesItself(s0);
    GainItself(s0, refs, {image} * refs.Keys);
    var fault: bool :| calm ==> !fault;
    if fault {
      return Some(CallFailed), own;
    }
    OthersRun(d, alone);
    ghost var check := d.View();
    if Busy(d.pool.scans, image) {
      BusyNow(s0, image, check);
      return None, own;
    }
    OthersRun(d, alone);
    ReachesTransitive(s0, check, d.View());
    fault :| calm ==> !fault;
    if fault {
      return Some(CallFailed), own;
    }
    if !Scannable(t.images, regs, image) {
      return Some(NotFound), own;
    }
    assert {image} * refs.Keys == {image};
    var detail := t.images[image];
    ghost var at := d.View();
    var ref := BuildImagePullRef(regs[detail.registryId].url, detail.repository, detail.tag, hostOf);
    var ok;
    ghost var id, after;
    ok, id, after := Submit(d, image, ref, Schedule, false, alone, calm);
    ReachesTransitive(s0, at, d.View());
    err := if ok then None else Some(CallFailed);
    if after.Some? {
      OwnTurn(s0, check, at, id, image, refs, after.value, d.View());
      own := Some(Own(image, id, check, at));
      if alone {
        AloneTurn(s0, id, image, refs, after.value == [Enqueue(id, ref)], d.View());
        GainKeepsOneOpen(s0, d.View(), refs, {image});
      }
    }
  }

  // ---------------------------------------------------------------- the periodic pass

  predicate CompletedOf(scans: Scans, id: ScanId, image: ImageId) {
    id in scans && scans[id].imageId == image && scans[id].status == Status.Completed
  }

  /** SELECT MAX(completed_at) over the image's completed scans. */
  ghost predicate IsLastScan(scans: Scans, image: ImageId, last: Option<Time>) {
    && (last.Some? ==> exists id :: CompletedOf(scans, id, image) && scans[id].completedAt == last)
    && forall id :: CompletedOf(scans, id, image) && scans[id].completedAt.Some? ==>
         last.Some? && scans[id].completedAt.value <= last.value
  }

  method LastScan(scans: Scans, image: ImageId) returns (last: Option<Time>)
    ensures IsLastScan(scans, image, last)
  {
    last := None;
    var rest := scans.Keys;
    while rest != {}
      invariant rest <= scans.Keys
      invariant last.Some? ==> exists id :: CompletedOf(scans, id, image) && scans[id].completedAt == last
      invariant forall id :: id !in rest && CompletedOf(scans, id, image) && scans[id].completedAt.Some? ==>
        last.Some? && scans[id].completedAt.value <= last.value
      decreases rest
    {
      var id :| id in rest;
      rest := rest - {id};
      var r := scans[id];
      if CompletedOf(scans, id, image) && r.completedAt.Some? && (last.None? || last.value < r.completedAt.value) {
        last := r.completedAt;
      }
    }
  }

  /** No completed scan, or the last one ended before the cutoff. */
  ghost predicate Stale(scans: Scans, image: ImageId, cutoff: int) {
    || !(exists id :: CompletedOf(scans, id, image))
    || exists last: Time :: IsLastScan(scans, image, Some(last)) && last < cutoff
  }

  /** In a reachable state: stale images are those whose completed scans all ended before the cutoff. */
  lemma StaleIff(s: State, image: ImageId, cutoff: int)
    requires Reachable(s)
    ensures Stale(s.db.scans, image, cutoff) <==>
      forall id <- s.db.scans :: s.db.scans[id].imageId == image && s.db.scans[id].status == Status.Completed ==>
        s.db.scans[id].completedAt.Some? && s.db.scans[id].completedAt.value < cutoff
  {
    hide Reachable;
    forall id <- s.db.scans | s.db.scans[id].status == Status.Completed ensures s.db.scans[id].completedAt.Some? {
      CompletedHasEnded(s, id);
    }
    if exists id :: CompletedOf(s.db.scans, id, image) {
      var some :| CompletedOf(s.db.scans, some, image);
      var id := LatestOf(s.db.scans, image, s.db.scans.Keys);
      assert IsLastScan(s.db.scans, image, s.db.scans[id].completedAt);
    } else {
      forall id <- s.db.scans | s.db.scans[id].imageId == image ensures s.db.scans[id].status != Status.Completed {
        assert !CompletedOf(s.db.scans, id, image);
      }
    }
  }

  lemma CompletedHasEnded(s: State, id: ScanId)
    requires Reachable(s) && id in s.db.scans && s.db.scans[id].status == Status.Completed
    ensures s.db.scans[id].completedAt.Some?
  {
    hide Reachable, Reaches;
    ReachesItself(s);
    RowStory(s, s, id);
  }

  /** The last one to end among some completed scans of an image. */
  lemma {:induction false} LatestOf(scans: Scans, image: ImageId, ids: set<ScanId>) returns (last: ScanId)
    requires ids <= scans.Keys && exists id <- ids :: CompletedOf(scans, id, image)
    requires forall id <- ids :: CompletedOf(scans, id, image) ==> scans[id].completedAt.Some?
    ensures last in ids && CompletedOf(scans, last, image) && scans[last].completedAt.Some?
    ensures forall id <- ids :: CompletedOf(scans, id, image) ==>
      scans[id].completedAt.value <= scans[last].completedAt.value
    decreases ids
  {
    hide CompletedOf;
    var id :| id in ids && CompletedOf(scans, id, image);
    var rest := ids - {id};
    last := id;
    if exists other <- rest :: CompletedOf(scans, other, image) {
      var best := LatestOf(scans, image, rest);
      if scans[id].completedAt.value < scans[best].completedAt.value {
        last := best;
      }
    }
  }

  ghost function StaleImages(scans: Scans, images: Images, regs: Registries, cutoff: int): set<ImageId> {
    set image | image in images && Scannable(images, regs, image) && Stale(scans, image, cutoff)
  }

  /** ListImageIDsStaleForRescan, in any order. */
  method ListStale(scans: Scans, images: Images, regs: Registries, cutoff: int) returns (ids: seq<ImageId>)
    ensures forall image :: image in ids <==> image in StaleImages(scans, images, regs, cutoff)
    ensures forall i, j :: 0 <= i < j < |ids| ==> ids[i] != ids[j]
  {
    hide Scannable, IsLastScan, CompletedOf;
    ids := [];
    var rest := images.Keys;
    while rest != {}
      invariant rest <= images.Keys
      invariant forall image :: image in ids <==> image in StaleImages(scans, images, regs, cutoff) && image !in rest
      invariant forall i, j :: 0 <= i < j < |ids| ==> ids[i] != ids[j]
      decreases rest
    {
      var image :| image in rest;
      rest := rest - {image};
      var last := LastScan(scans, image);
      var scanned := exists id | id in scans :: CompletedOf(scans, id, image);
      StaleByLast(scans, image, last, cutoff);
      if Scannable(images, regs, image) && (!scanned || (last.Some? && last.value < cutoff)) {
        ids := ids + [image];
      }
    }
  }

  lemma StaleByLast(scans: Scans, image: ImageId, last: Option<Time>, cutoff: int)
    requires IsLastScan(scans, image, last)
    ensures Stale(scans, image, cutoff) <==>
      !(exists id | id in scans :: CompletedOf(scans, id, image)) || (last.Some? && last.value < cutoff)
  {
    if exists id :: CompletedOf(scans, id, image) {
      var id :| CompletedOf(scans, id, image);
      assert id in scans;
    }
  }

  ghost predicate DistinctImages(owns: seq<Own>) {
    forall i, j :: 0 <= i < j < |owns| ==> owns[i].image != owns[j].image
  }

  /**
   runPeriodicRescan with its cutoff, from its listing in state `listed` on. Whatever fails and whoever runs in between,
   its own inserts `owns` are for images that were stale at the listing and idle at their check, one an image, and a
   clean pass saw every stale image busy. When alone, a clean pass gives exactly the idle stale images a scan, with its
   job.
   */
  method RunPeriodicRescan(d: Deployment, t: ImageTable, regs: Registries, hostOf: string -> Option<string>,
                           cutoff: int, alone: bool, calm: bool)
    returns (clean: bool, ghost listed: State, ghost owns: seq<Own>)
    requires Inv(d.View())
    modifies d, d.pool
    ensures Reaches(old(d.View()), listed) && (alone ==> listed == old(d.View()))
    ensures PassDone(alone, listed, d.View(), Refs(t.images, regs, hostOf),
                     StaleImages(listed.db.scans, t.images, regs, cutoff), owns)
    ensures DistinctImages(owns)
    ensures calm ==> clean
    ensures clean ==> PassOk(alone, listed, d.View(), StaleImages(listed.db.scans, t.images, regs, cutoff))
    ensures alone && OneOpen(old(d.pool.scans)) ==> OneOpen(d.pool.scans)
    ensures alone && clean ==>
      Gained(old(d.pool.scans), d.pool.scans) ==
      set image <- StaleImages(old(d.pool.scans), t.images, regs, cutoff) | !Busy(old(d.pool.scans), image)
  {
    hide Inv, Reaches, Busy, StaleImages, Gained, Refs, Stale, Scannable, OneOpen, PassDone, PassOk, TurnDone, TurnOk,
      DistinctImages;
    OthersRun(d, alone);
    listed, owns := d.View(), [];
    ghost var refs := Refs(t.images, regs, hostOf);
    ghost var who := StaleImages(listed.db.scans, t.images, regs, cutoff);
    PassStarts(alone, listed, refs, who);
    NoOwns();
    StaleHaveRefs(listed.db.scans, t.images, regs, hostOf, cutoff);
    var fault: bool :| calm ==> !fault;
    if fault {
      return false, listed, owns;
    }
    var ids := ListStale(d.pool.scans, t.images, regs, cutoff);
    clean := true;
    assert First(ids, 0) == {};
    for i := 0 to |ids|
      invariant PassDone(alone, listed, d.View(), refs, who, owns)
      invariant alone && OneOpen(listed.db.scans) ==> OneOpen(d.pool.scans)
      invariant DistinctImages(owns) && forall own <- owns :: own.image in ids[..i]
      invariant calm ==> clean
      invariant clean ==> PassOk(alone, listed, d.View(), First(ids, i))
    {
      var done: bool :| calm ==> !done;
      if done {
        return false, listed, owns;
      }
      PassInv(alone, listed, d.View(), refs, who, owns);
      ghost var s := d.View();
      var err;
      ghost var own;
      err, own := EnqueueScheduledScan(d, t, regs, hostOf, ids[i], alone, calm);
      assert ids[i] in who;
      PassTurn(alone, listed, s, d.View(), refs, who, owns, ids[i], own);
      if clean && err.None? {
        PassTurnOk(alone, listed, s, d.View(), refs, who, owns, ids[i], own, First(ids, i));
        OneMoreImage(ids, i, refs.Keys);
      }
      OneMoreOwn(owns, own, ids, i, s, refs, d.View(), alone);
      owns := With(owns, own);
      PassKeepsOneOpen(alone, listed, d.View(), refs, who, owns);
      clean := clean && err.None?;
    }
    if clean {
      AllListed(ids, who);
      if alone {
        PassEnds(listed, d.View(), refs, who, owns);
      }
    }
  }

  lemma NoOwns()
    ensures DistinctImages([])
  {
  }

  lemma PassInv(alone: bool, l: State, t: State, refs: map<ImageId, string>, who: set<ImageId>, owns: seq<Own>)
    requires PassDone(alone, l, t, refs, who, owns)
    ensures Inv(t) && Reaches(l, t)
  {
  }

  /** The first n listed images. */
  function First(ids: seq<ImageId>, n: nat): set<ImageId>
    requires n <= |ids|
  {
    set image | image in ids[..n]
  }

  lemma OneMoreImage(ids: seq<ImageId>, i: nat, keys: set<ImageId>)
    requires i < |ids| && ids[i] in keys
    ensures First(ids, i) + {ids[i]} * keys == First(ids, i + 1)
  {
    assert ids[..i + 1] == ids[..i] + [ids[i]];
  }

  lemma AllListed(ids: seq<ImageId>, who: set<ImageId>)
    requires forall image :: image in ids <==> image in who
    ensures First(ids, |ids|) == who
  {
    assert ids[..|ids|] == ids;
  }

  lemma OneMoreOwn(owns: seq<Own>, own: Option<Own>, ids: seq<ImageId>, i: nat, a: State, refs: map<ImageId, string>,
                   b: State, alone: bool)
    requires i < |ids| && forall j, k :: 0 <= j < k < |ids| ==> ids[j] != ids[k]
    requires TurnDone(alone, a, b, refs, ids[i], own)
    requires DistinctImages(owns) && forall o <- owns :: o.image in ids[..i]
    ensures DistinctImages(With(owns, own)) && forall o <- With(owns, own) :: o.image in ids[..i + 1]
  {
    hide Inv, Reaches, Gain, OwnInsert;
    assert ids[..i + 1] == ids[..i] + [ids[i]];
    assert ids[i] !in ids[..i];
    assert forall k :: 0 <= k < |owns| ==> owns[k] in owns;
  }

  lemma StaleHaveRefs(scans: Scans, images: Images, regs: Registries, hostOf: string -> Option<string>, cutoff: int)
    ensures StaleImages(scans, images, regs, cutoff) <= Refs(images, regs, hostOf).Keys
  {
    hide Stale, Scannable, BuildImagePullRef;
  }

  // ---------------------------------------------------------------- the target pass

  datatype Target = Target(imageId: ImageId, frequency: string, deletedAt: Option<Time>)

  /** Never scanned, or scanned longer ago than the target's frequency. */
  ghost predicate Due(scans: Scans, target: Target, now: int, fractions: Fractions) {
    && target.deletedAt.None?
    && var every := ParseFrequency(target.frequency, fractions);
       every.Some? && forall id :: CompletedOf(scans, id, target.imageId) && scans[id].completedAt.Some? ==>
         now - scans[id].completedAt.value > every.value
  }

  ghost function DueImages(scans: Scans, targets: seq<Target>, refs: map<ImageId, string>, now: int,
                           fractions: Fractions): set<ImageId> {
    set target | target in targets && Due(scans, target, now, fractions) && target.imageId in refs :: target.imageId
  }

  datatype TargetRow = TargetRow(target: Target, last: Option<Time>)

  ghost predicate Listed(scans: Scans, targets: seq<Target>, row: TargetRow) {
    && row.target in targets && row.target.deletedAt.None?
    && IsLastScan(scans, row.target.imageId, row.last)
  }

  /** ListTargetsDueForRescan: every target that is not deleted, with its image's last scan. */
  method ListTargets(scans: Scans, targets: seq<Target>) returns (rows: seq<TargetRow>)
    ensures forall row <- rows :: Listed(scans, targets, row)
    ensures forall target <- targets :: target.deletedAt.None? ==> exists row <- rows :: row.target == target
  {
    hide IsLastScan;
    rows := [];
    for i := 0 to |targets|
      invariant forall row <- rows :: Listed(scans, targets, row)
      invariant forall k :: 0 <= k < i && targets[k].deletedAt.None? ==> exists row <- rows :: row.target == targets[k]
    {
      if targets[i].deletedAt.None? {
        var last := LastScan(scans, targets[i].imageId);
        ghost var before := rows;
        rows := rows + [TargetRow(targets[i], last)];
        assert forall row :: row in rows <==> row in before || row == TargetRow(targets[i], last);
      }
    }
  }

  /** A frequency in days, like "7d", is refused, so its target is never due, however old its last scan is. */
  lemma DayTargetsAreNeverDue(scans: Scans, target: Target, now: int, fractions: Fractions)
    requires 'd' in TrimSpace(target.frequency)
    ensures !Due(scans, target, now, fractions)
  {
    hide TrimSpace;
    DaysAreRefused(target.frequency, fractions);
  }

  lemma DueByLast(scans: Scans, targets: seq<Target>, row: TargetRow, now: int, fractions: Fractions)
    requires Listed(scans, targets, row)
    ensures Due(scans, row.target, now, fractions) <==>
      var every := ParseFrequency(row.target.frequency, fractions);
      every.Some? && (row.last.None? || now - row.last.value > every.value)
  {
  }

  /** A target with a frequency of w hours is due when every completed scan of its image ended longer ago than that. */
  lemma DueAfterHours(scans: Scans, target: Target, w: string, now: int, fractions: Fractions)
    requires target.frequency == w + "h" && Digits(w) && w != "" && Number(w) * 3_600_000_000_000 <= Int64.MAX
    ensures Due(scans, target, now, fractions) <==>
      && target.deletedAt.None?
      && forall id <- scans ::
           scans[id].imageId == target.imageId && scans[id].status == Status.Completed && scans[id].completedAt.Some?
           ==> now - scans[id].completedAt.value > Number(w) * 3_600_000_000_000
  {
    hide ParseFrequency, Digits, Number;
    UnitValues(w, fractions);
  }

  /** The turn of one due target: a busy image or one that is gone needs nothing. */
  method RescanTarget(d: Deployment, t: ImageTable, regs: Registries, hostOf: string -> Option<string>, image: ImageId,
                      alone: bool, calm: bool)
    returns (ok: bool, ghost own: Option<Own>)
    requires Inv(d.View())
    modifies d, d.pool
    ensures TurnDone(alone, old(d.View()), d.View(), Refs(t.images, regs, hostOf), image, own)
    ensures calm ==> ok
    ensures ok ==> TurnOk(alone, old(d.View()), d.View(), Refs(t.images, regs, hostOf), image)
  {
    hide Inv, Reaches, Gain, AllPushed, Busy, Refs, OneOpen, WasBusy, OwnInsert;
    ghost var s := d.View();
    ghost var refs := Refs(t.images, regs, hostOf);
    own := None;
    ReachesItself(s);
    GainItself(s, refs, {image} * refs.Keys);
    var fault: bool :| calm ==> !fault;
    if fault {
      return false, own;
    }
    OthersRun(d, alone);
    ghost var m := d.View();
    if Busy(d.pool.scans, image) {
      BusyNow(s, image, m);
      return true, own;
    }
    var err;
    err, own := EnqueueScheduledScan(d, t, regs, hostOf, image, alone, calm);
    ok := err.None? || err.value.NotFound?;
    TurnLonger(alone, s, m, d.View(), refs, image, own, ok);
  }

  lemma TurnLonger(alone: bool, s: State, a: State, b: State, refs: map<ImageId, string>, image: ImageId,
                   own: Option<Own>, ok: bool)
    requires Reaches(s, a) && (alone ==> a == s)
    requires TurnDone(alone, a, b, refs, image, own) && (ok ==> TurnOk(alone, a, b, refs, image))
    ensures TurnDone(alone, s, b, refs, image, own) && (ok ==> TurnOk(alone, s, b, refs, image))
  {
    hide Inv, Reaches, Gain, AllPushed, Busy, WasBusy, OwnInsert;
    ReachesTransitive(s, a, b);
    ReachesItself(b);
    if own.Some? {
      OwnInsertLonger(s, a, own.value, refs, b, b);
    }
    if ok && image in refs {
      WasBusyLonger(s, a, image, b, b);
    }
  }

  /** The images due among the first n rows. */
  ghost function Upto(scans: Scans, rows: seq<TargetRow>, n: nat, refs: map<ImageId, string>, now: int,
                      fractions: Fractions): set<ImageId>
    requires n <= |rows|
  {
    set k | 0 <= k < n && Due(scans, rows[k].target, now, fractions) && rows[k].target.imageId in refs ::
      rows[k].target.imageId
  }

  lemma Through(scans: Scans, rows: seq<TargetRow>, n: nat, refs: map<ImageId, string>, now: int, fractions: Fractions)
    requires n <= |rows|
    ensures n == 0 ==> Upto(scans, rows, n, refs, now, fractions) == {}
    ensures n < |rows| ==>
      var before := Upto(scans, rows, n, refs, now, fractions);
      Upto(scans, rows, n + 1, refs, now, fractions) ==
        if Due(scans, rows[n].target, now, fractions) then before + {rows[n].target.imageId} * refs.Keys else before
  {
    hide Due;
  }

  lemma DueIsListed(scans: Scans, targets: seq<Target>, row: TargetRow, refs: map<ImageId, string>, now: int,
                    fractions: Fractions)
    requires row.target in targets
    ensures Due(scans, row.target, now, fractions) && row.target.imageId in refs ==>
      row.target.imageId in DueImages(scans, targets, refs, now, fractions)
  {
    hide Due;
  }

  lemma AllDue(scans: Scans, targets: seq<Target>, rows: seq<TargetRow>, refs: map<ImageId, string>, now: int,
               fractions: Fractions)
    requires forall row <- rows :: Listed(scans, targets, row)
    requires forall target <- targets :: target.deletedAt.None? ==> exists row <- rows :: row.target == target
    ensures Upto(scans, rows, |rows|, refs, now, fractions) == DueImages(scans, targets, refs, now, fractions)
  {
    hide ParseFrequency, IsLastScan;
    var all, due := Upto(scans, rows, |rows|, refs, now, fractions), DueImages(scans, targets, refs, now, fractions);
    forall image <- due ensures image in all {
      var target :| target in targets && Due(scans, target, now, fractions) && target.imageId == image;
      var k :| 0 <= k < |rows| && rows[k].target == target;
    }
    assert forall k :: 0 <= k < |rows| ==> rows[k] in rows;
  }

  /** The turn of a due target, as part of the pass; `through` collects the images it is through with. */
  method TargetStep(d: Deployment, t: ImageTable, regs: Registries, hostOf: string -> Option<string>, image: ImageId,
                    alone: bool, calm: bool, ghost l: State, ghost who: set<ImageId>, ghost owns: seq<Own>,
                    ghost through: set<ImageId>, ghost clean: bool)
    returns (ok: bool, ghost more: seq<Own>)
    requires PassDone(alone, l, d.View(), Refs(t.images, regs, hostOf), who, owns)
    requires image in Refs(t.images, regs, hostOf) ==> image in who
    requires clean ==> PassOk(alone, l, d.View(), through)
    modifies d, d.pool
    ensures PassDone(alone, l, d.View(), Refs(t.images, regs, hostOf), who, more)
    ensures calm ==> ok
    ensures clean && ok ==> PassOk(alone, l, d.View(), through + {image} * Refs(t.images, regs, hostOf).Keys)
  {
    hide Inv, Reaches, Refs, PassDone, PassOk, TurnDone, TurnOk;
    ghost var s, refs := d.View(), Refs(t.images, regs, hostOf);
    PassInv(alone, l, s, refs, who, owns);
    ghost var own;
    ok, own := RescanTarget(d, t, regs, hostOf, image, alone, calm);
    more := With(owns, own);
    PassTurn(alone, l, s, d.View(), refs, who, owns, image, own);
    if clean && ok {
      PassTurnOk(alone, l, s, d.View(), refs, who, owns, image, own, through);
    }
  }

  /**
   runTargetRescan, from its listing in state `listed` on. Whatever fails and whoever runs in between, its own inserts
   are for images of targets that were due at the listing, each idle at its check; a clean pass saw all that can be
   scanned busy. When alone, exactly the idle ones gain a scan, one each even when targets share the image, with its
   job.
   */
  method RunTargetRescan(d: Deployment, t: ImageTable, regs: Registries, hostOf: string -> Option<string>,
                         targets: seq<Target>, now: int, fractions: Fractions, alone: bool, calm: bool)
    returns (clean: bool, ghost listed: State, ghost owns: seq<Own>)
    requires Inv(d.View())
    modifies d, d.pool
    ensures Reaches(old(d.View()), listed) && (alone ==> listed == old(d.View()))
    ensures PassDone(alone, listed, d.View(), Refs(t.images, regs, hostOf),
                     DueImages(listed.db.scans, targets, Refs(t.images, regs, hostOf), now, fractions), owns)
    ensures calm ==> clean
    ensures clean ==>
      PassOk(alone, listed, d.View(),
             DueImages(listed.db.scans, targets, Refs(t.images, regs, hostOf), now, fractions))
    ensures alone && OneOpen(old(d.pool.scans)) ==> OneOpen(d.pool.scans)
    ensures alone && clean ==>
      Gained(old(d.pool.scans), d.pool.scans) ==
      set image <- DueImages(old(d.pool.scans), targets, Refs(t.images, regs, hostOf), now, fractions)
        | !Busy(old(d.pool.scans), image)
  {
    hide Inv, Reaches, Busy, Gained, Refs, ParseFrequency, Due, OneOpen, PassDone, PassOk, TurnDone, TurnOk, Upto;
    hide DueImages, IsLastScan;
    OthersRun(d, alone);
    listed, owns := d.View(), [];
    ghost var refs := Refs(t.images, regs, hostOf);
    ghost var who := DueImages(listed.db.scans, targets, refs, now, fractions);
    PassStarts(alone, listed, refs, who);
    var fault: bool :| calm ==> !fault;
    if fault {
      return false, listed, owns;
    }
    var rows := ListTargets(d.pool.scans, targets);
    clean := true;
    Through(listed.db.scans, rows, 0, refs, now, fractions);
    for i := 0 to |rows|
      invariant PassDone(alone, listed, d.View(), refs, who, owns)
      invariant alone && OneOpen(listed.db.scans) ==> OneOpen(d.pool.scans)
      invariant calm ==> clean
      invariant clean ==> PassOk(alone, listed, d.View(), Upto(listed.db.scans, rows, i, refs, now, fractions))
    {
      var done: bool :| calm ==> !done;
      if done {
        return false, listed, owns;
      }
      var row := rows[i];
      var every := ParseFrequency(row.target.frequency, fractions);
      DueByLast(listed.db.scans, targets, row, now, fractions);
      DueIsListed(listed.db.scans, targets, row, refs, now, fractions);
      Through(listed.db.scans, rows, i, refs, now, fractions);
      if every.Some? && (row.last.None? || now - row.last.value > every.value) {
        var ok;
        ok, owns := TargetStep(d, t, regs, hostOf, row.target.imageId, alone, calm, listed, who, owns,
                               Upto(listed.db.scans, rows, i, refs, now, fractions), clean);
        PassKeepsOneOpen(alone, listed, d.View(), refs, who, owns);
        clean := clean && ok;
      }
    }
    if clean {
      AllDue(listed.db.scans, targets, rows, refs, now, fractions);
      if alone {
        PassEnds(listed, d.View(), refs, who, owns);
      }
    }
  }

}
