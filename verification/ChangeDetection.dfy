/**
 runChangeDetection of internal/scheduler/tasks.go, beside any other actors or alone. `digests` holds the answer of
 every registry that gave one; an image without an answer is a failed connector or GetDigest call.
 */
module ChangeDetection {
  import opened Wrappers
  import opened Text
  import opened Tables
  import opened Protocol
  import opened Guarantees
  import opened OpenScans
  import opened Runner
  import opened RegistrySync
  import opened Catalog
  import opened Producers
  import opened ImageRef
  import opened Rescan

  type Digests = map<ImageId, string>

  function NormalizeDigest(s: string): string {
    ToLower(TrimSpace(s))
  }

  predicate SameDigest(stored: Option<string>, remote: string) {
    stored.Some? && NormalizeDigest(stored.value) == NormalizeDigest(remote)
  }

  /** Without white space and capital letters. */
  predicate PlainDigest(s: string) {
    forall c <- s :: !IsSpace(c) && !('A' <= c <= 'Z')
  }

  /** Digests agree when they are the same text up to letter case and white space around: plain ones when equal. */
  lemma SameDigestIff(stored: string, remote: string)
    ensures SameDigest(Some(stored), remote) <==> SameText(TrimSpace(stored), TrimSpace(remote))
    ensures PlainDigest(stored) && PlainDigest(remote) ==> (SameDigest(Some(stored), remote) <==> stored == remote)
  {
    LowerIff(TrimSpace(stored), TrimSpace(remote));
    if PlainDigest(stored) && PlainDigest(remote) {
      PlainNormal(stored);
      PlainNormal(remote);
    }
    hide TrimSpace, ToLower, SameText, PlainDigest;
  }

  lemma PlainNormal(s: string)
    requires PlainDigest(s)
    ensures NormalizeDigest(s) == s
  {
    hide TrimSpace, ToLower, IsSpace;
    assert s != "" ==> s[0] in s && s[|s| - 1] in s;
    TrimSpaceKeeps(s);
    NoCapitals(s);
  }

  /** The images whose registry answers another digest than the stored one. */
  ghost function ChangedImages(images: Images, regs: Registries, digests: Digests): set<ImageId> {
    set image | image in images && Scannable(images, regs, image) && image in digests &&
      !SameDigest(images[image].digest, digests[image])
  }

  /**
   Only digests of images in `who` moved, each to the remote one, and only of images that were busy at some time between
   l and t.
   */
  ghost predicate DigestsMoved(a: Images, b: Images, digests: Digests, who: set<ImageId>, alone: bool, l: State,
                               t: State) {
    && b.Keys == a.Keys
    && forall image <- a :: b[image] == a[image] ||
         (image in who && image in digests && Backed(alone, l, image, t) &&
          b[image] == a[image].(digest := Some(digests[image])))
  }

  /** The stored digest of the image agrees with the remote one. */
  ghost predicate UpToDate(images: Images, image: ImageId, digests: Digests) {
    image in images && image in digests && SameDigest(images[image].digest, digests[image])
  }

  lemma MovedKeepsRefs(a: Images, b: Images, digests: Digests, who: set<ImageId>, alone: bool, l: State, t: State,
                       regs: Registries, hostOf: string -> Option<string>)
    requires DigestsMoved(a, b, digests, who, alone, l, t)
    ensures Refs(b, regs, hostOf) == Refs(a, regs, hostOf)
  {
    hide BuildImagePullRef, Backed;
  }

  /** ListImagesForChangeDetection, in any order. */
  method ListScannable(images: Images, regs: Registries) returns (ids: seq<ImageId>)
    ensures forall image :: image in ids <==> Scannable(images, regs, image)
    ensures forall i, j :: 0 <= i < j < |ids| ==> ids[i] != ids[j]
  {
    ids := [];
    var rest := images.Keys;
    while rest != {}
      invariant rest <= images.Keys
      invariant forall image :: image in ids <==> Scannable(images, regs, image) && image !in rest
      invariant forall i, j :: 0 <= i < j < |ids| ==> ids[i] != ids[j]
      decreases rest
    {
      var image :| image in rest;
      rest := rest - {image};
      if Scannable(images, regs, image) {
        ids := ids + [image];
      }
    }
  }

  /** Everything a turn for one image may do to the images table. */
  ghost predicate OneMoved(a: Images, b: Images, digests: Digests, image: ImageId, alone: bool, l: State, t: State) {
    b == a ||
    (image in a && image in digests && !SameDigest(a[image].digest, digests[image]) && Backed(alone, l, image, t) &&
     b == a[image := a[image].(digest := Some(digests[image]))])
  }

  predicate Changed(image: ImageId, stored: Option<string>, digests: Digests) {
    image in digests && !SameDigest(stored, digests[image])
  }

  /** The turn of one listed image: a scan first, the digest only after the enqueue returned nil. */
  method CheckImage(d: Deployment, t: ImageTable, regs: Registries, hostOf: string -> Option<string>, image: ImageId,
                    stored: Option<string>, digests: Digests, alone: bool, calm: bool)
    returns (ok: bool, ghost own: Option<Own>)
    requires Inv(d.View()) && t.Valid() && image in t.images && t.images[image].deletedAt.None?
    requires t.images[image].digest == stored
    modifies d, d.pool, t
    ensures t.Valid()
    ensures TurnDone(alone, old(d.View()), d.View(), old(Refs(t.images, regs, hostOf)), image, own)
    ensures !Changed(image, stored, digests) ==> own.None? && d.View() == old(d.View())
    ensures OneMoved(old(t.images), t.images, digests, image, alone, old(d.View()), d.View())
    ensures calm && image in old(Refs(t.images, regs, hostOf)) && image in digests ==> ok
    ensures ok ==> UpToDate(t.images, image, digests)
    ensures ok && Changed(image, stored, digests) ==>
      TurnOk(alone, old(d.View()), d.View(), old(Refs(t.images, regs, hostOf)), image)
  {
    hide Inv, Gain, AllPushed, Reaches, Busy, Refs, NormalizeDigest, OwnInsert, WasBusy, Backed, TurnOk;
    ghost var s := d.View();
    own := None;
    ReachesItself(s);
    GainItself(s, Refs(t.images, regs, hostOf), {image} * Refs(t.images, regs, hostOf).Keys);
    if image !in digests {
      return false, own;
    }
    var remote := digests[image];
    if SameDigest(stored, remote) {
      return true, own;
    }
    var err;
    err, own := EnqueueScheduledScan(d, t, regs, hostOf, image, alone, calm);
    if err.Some? {
      return false, own;
    }
    ok := t.UpdateImageDigest(image, remote, calm);
  }

  /** Only the row of one image may differ. */
  ghost predicate SameBut(a: Images, b: Images, image: ImageId) {
    forall other <- a :: other != image ==> other in b && b[other] == a[other]
  }

  lemma BackedLonger(alone: bool, l: State, a: State, b: State, refs: map<ImageId, string>, more: set<ImageId>,
                     image: ImageId)
    requires Backed(alone, l, image, a) && Reaches(a, b) && (alone ==> Gain(a, b, refs, more))
    ensures Backed(alone, l, image, b)
  {
    hide Reaches, Busy, WasBusy;
    ReachesItself(l);
    WasBusyLonger(l, l, image, a, b);
    if alone {
      hide NewJobs;
      BusyStays(a.db.scans, b.db.scans, more);
    }
  }

  lemma BackedEarlier(alone: bool, l: State, a: State, b: State, image: ImageId)
    requires Reaches(l, a) && Backed(alone, a, image, b)
    ensures Backed(alone, l, image, b)
  {
    hide Reaches, Busy, WasBusy;
    ReachesItself(b);
    WasBusyLonger(l, a, image, b, b);
  }

  /** One turn keeps the table within the pass's bounds and the images checked before up to date. */
  lemma TurnKeepsBounds(a: Images, b: Images, c: Images, digests: Digests, who: set<ImageId>, image: ImageId,
                        alone: bool, l: State, m: State, t: State)
    requires DigestsMoved(a, b, digests, who, alone, l, m) && OneMoved(b, c, digests, image, alone, m, t)
    requires image in a && b[image] == a[image]
    requires Changed(image, a[image].digest, digests) ==> image in who
    requires forall other :: Backed(alone, l, other, m) ==> Backed(alone, l, other, t)
    requires forall other :: Backed(alone, m, other, t) ==> Backed(alone, l, other, t)
    ensures DigestsMoved(a, c, digests, who, alone, l, t)
    ensures SameBut(b, c, image)
  {
    hide Backed, SameDigest;
  }

  /** The first n listed images are up to date. */
  ghost predicate Checked(ids: seq<ImageId>, n: nat, images: Images, digests: Digests) {
    n <= |ids| && forall k :: 0 <= k < n ==> UpToDate(images, ids[k], digests)
  }

  /** The others still have the rows they were listed with. */
  ghost predicate Waiting(ids: seq<ImageId>, n: nat, images: Images, listed: Images) {
    forall k :: n <= k < |ids| ==> ids[k] in images && ids[k] in listed && images[ids[k]] == listed[ids[k]]
  }

  lemma WaitingShrinks(ids: seq<ImageId>, n: nat, listed: Images, b: Images, c: Images)
    requires n < |ids| && Waiting(ids, n, b, listed) && SameBut(b, c, ids[n])
    requires forall i, j :: 0 <= i < j < |ids| ==> ids[i] != ids[j]
    ensures Waiting(ids, n + 1, c, listed)
  {
  }

  lemma CheckedGrows(ids: seq<ImageId>, n: nat, b: Images, c: Images, digests: Digests)
    requires n < |ids| && Checked(ids, n, b, digests) && SameBut(b, c, ids[n]) && UpToDate(c, ids[n], digests)
    requires forall i, j :: 0 <= i < j < |ids| ==> ids[i] != ids[j]
    ensures Checked(ids, n + 1, c, digests)
  {
    hide SameDigest;
    forall k | 0 <= k < n ensures UpToDate(c, ids[k], digests) {
      assert UpToDate(b, ids[k], digests) && ids[k] != ids[n];
    }
  }

  /** The state of the pass after its turns so far, in the protocol and in the images table. */
  ghost predicate DetectionDone(alone: bool, l: State, t: State, refs: map<ImageId, string>, who: set<ImageId>,
                                owns: seq<Own>, a: Images, b: Images, digests: Digests) {
    PassDone(alone, l, t, refs, who, owns) && DigestsMoved(a, b, digests, who, alone, l, t)
  }

  lemma DetectionTurn(alone: bool, l: State, m: State, t: State, refs: map<ImageId, string>, who: set<ImageId>,
                      owns: seq<Own>, a: Images, b: Images, c: Images, digests: Digests, image: ImageId,
                      own: Option<Own>)
    requires DetectionDone(alone, l, m, refs, who, owns, a, b, digests)
    requires TurnDone(alone, m, t, refs, image, own) && OneMoved(b, c, digests, image, alone, m, t)
    requires image in a && b[image] == a[image]
    requires image in refs && Changed(image, a[image].digest, digests) ==> image in who
    requires image in refs
    requires !Changed(image, a[image].digest, digests) ==> own.None? && t == m
    ensures DetectionDone(alone, l, t, refs, who, With(owns, own), a, c, digests)
    ensures SameBut(b, c, image)
  {
    hide Inv, Reaches, Gain, OwnInsert, Backed, SameDigest, DigestsMoved, OneMoved, SameBut;
    forall other | Backed(alone, l, other, m) ensures Backed(alone, l, other, t) {
      BackedLonger(alone, l, m, t, refs, {image} * refs.Keys, other);
    }
    forall other | Backed(alone, m, other, t) ensures Backed(alone, l, other, t) {
      BackedEarlier(alone, l, m, t, other);
    }
    TurnKeepsBounds(a, b, c, digests, who, image, alone, l, m, t);
    if Changed(image, a[image].digest, digests) {
      PassTurn(alone, l, m, t, refs, who, owns, image, own);
    } else {
      assert With(owns, own) == owns;
    }
  }

  /** The images of `who` among the first n listed ones. */
  ghost function Upto(ids: seq<ImageId>, n: nat, who: set<ImageId>): set<ImageId>
    requires n <= |ids|
  {
    set k | 0 <= k < n && ids[k] in who :: ids[k]
  }

  lemma Through(ids: seq<ImageId>, n: nat, who: set<ImageId>)
    requires n <= |ids|
    ensures n == 0 ==> Upto(ids, n, who) == {}
    ensures n < |ids| ==>
      Upto(ids, n + 1, who) == if ids[n] in who then Upto(ids, n, who) + {ids[n]} else Upto(ids, n, who)
  {
  }

  lemma ChangedAreListed(ids: seq<ImageId>, images: Images, regs: Registries, digests: Digests)
    requires forall image :: image in ids <==> Scannable(images, regs, image)
    ensures Upto(ids, |ids|, ChangedImages(images, regs, digests)) == ChangedImages(images, regs, digests)
  {
    hide Scannable, SameDigest;
  }

  /** The turn of one listed image, as part of the pass. */
  method DetectionStep(d: Deployment, t: ImageTable, regs: Registries, hostOf: string -> Option<string>,
                       rows: Images, ids: seq<ImageId>, i: nat, digests: Digests, alone: bool, calm: bool,
                       ghost l: State, ghost owns: seq<Own>, ghost clean: bool)
    returns (ok: bool, ghost more: seq<Own>)
    requires t.Valid() && i < |ids| && forall j, k :: 0 <= j < k < |ids| ==> ids[j] != ids[k]
    requires forall image <- ids :: Scannable(rows, regs, image)
    requires DetectionDone(alone, l, d.View(), Refs(rows, regs, hostOf), ChangedImages(rows, regs, digests), owns,
                           rows, t.images, digests)
    requires Waiting(ids, i, t.images, rows)
    requires clean ==>
      && Checked(ids, i, t.images, digests)
      && PassOk(alone, l, d.View(), Upto(ids, i, ChangedImages(rows, regs, digests)))
    modifies d, d.pool, t
    ensures t.Valid()
    ensures DetectionDone(alone, l, d.View(), Refs(rows, regs, hostOf), ChangedImages(rows, regs, digests), more,
                          rows, t.images, digests)
    ensures Waiting(ids, i + 1, t.images, rows)
    ensures calm && ids[i] in digests ==> ok
    ensures clean && ok ==>
      && Checked(ids, i + 1, t.images, digests)
      && PassOk(alone, l, d.View(), Upto(ids, i + 1, ChangedImages(rows, regs, digests)))
  {
    hide Inv, Reaches, Busy, Refs, Gained, SameDigest, OneMoved, Scannable, UpToDate, Checked, SameBut, OneOpen, Upto;
    hide PassDone, PassOk, TurnDone, TurnOk, DetectionDone, Backed;
    var image := ids[i];
    ghost var s, images, refs, who := d.View(), t.images, Refs(rows, regs, hostOf), ChangedImages(rows, regs, digests);
    DetectionRefs(alone, l, s, refs, who, owns, rows, images, digests, regs, hostOf);
    ScannableRows(rows, regs, hostOf);
    ghost var own;
    ok, own := CheckImage(d, t, regs, hostOf, image, rows[image].digest, digests, alone, calm);
    more := With(owns, own);
    DetectionTurn(alone, l, s, d.View(), refs, who, owns, rows, images, t.images, digests, image, own);
    WaitingShrinks(ids, i, rows, images, t.images);
    if clean && ok {
      CheckedGrows(ids, i, images, t.images, digests);
      Through(ids, i, who);
      if image in who {
        assert {image} * refs.Keys == {image};
        DetectionTurnOk(alone, l, s, d.View(), refs, who, owns, rows, images, digests, image, own, Upto(ids, i, who));
      }
    }
  }

  /**
   runChangeDetection, from its listing in state `listed` on. Whatever fails and whoever runs in between, its own
   inserts are for images whose digest changed, each idle at its check, and a digest moves only for an image that was
   busy at some time, to the remote one. A clean pass leaves every stored digest up to date. When alone, it gives a new
   scan, with its job, to exactly the changed images that were idle: the digest of a busy one moves without a scan of
   its own.
   */
  method RunChangeDetection(d: Deployment, t: ImageTable, regs: Registries, hostOf: string -> Option<string>,
                            digests: Digests, alone: bool, calm: bool)
    returns (clean: bool, ghost listed: State, ghost owns: seq<Own>)
    requires Inv(d.View()) && t.Valid()
    modifies d, d.pool, t
    ensures t.Valid() && Reaches(old(d.View()), listed) && (alone ==> listed == old(d.View()))
    ensures DetectionDone(alone, listed, d.View(), old(Refs(t.images, regs, hostOf)),
                          old(ChangedImages(t.images, regs, digests)), owns, old(t.images), t.images, digests)
    ensures calm && (forall image :: Scannable(old(t.images), regs, image) ==> image in digests) ==> clean
    ensures clean ==>
      && PassOk(alone, listed, d.View(), old(ChangedImages(t.images, regs, digests)))
      && forall image :: Scannable(old(t.images), regs, image) ==> UpToDate(t.images, image, digests)
    ensures alone && OneOpen(old(d.pool.scans)) ==> OneOpen(d.pool.scans)
    ensures alone && clean ==>
      Gained(old(d.pool.scans), d.pool.scans) ==
      set image <- old(ChangedImages(t.images, regs, digests)) | !Busy(old(d.pool.scans), image)
  {
    hide Inv, Reaches, Busy, Refs, Gained, SameDigest, Scannable, UpToDate, Checked, Waiting, OneOpen, PassOk, Upto;
    hide DetectionDone, ChangedImages;
    OthersRun(d, alone);
    listed, owns := d.View(), [];
    ghost var images0, refs := t.images, Refs(t.images, regs, hostOf);
    ghost var who := ChangedImages(images0, regs, digests);
    DetectionStarts(alone, listed, refs, who, images0, digests);
    var fault: bool :| calm ==> !fault;
    if fault {
      return false, listed, owns;
    }
    var rows := t.images;
    var ids := ListScannable(rows, regs);
    AllWaiting(ids, rows, regs);
    clean := true;
    Through(ids, 0, who);
    for i := 0 to |ids|
      invariant t.Valid() && DetectionDone(alone, listed, d.View(), refs, who, owns, images0, t.images, digests)
      invariant alone && OneOpen(listed.db.scans) ==> OneOpen(d.pool.scans)
      invariant Waiting(ids, i, t.images, rows)
      invariant calm && (forall image <- ids :: image in digests) ==> clean
      invariant clean ==> Checked(ids, i, t.images, digests) && PassOk(alone, listed, d.View(), Upto(ids, i, who))
    {
      var done: bool :| calm ==> !done;
      if done {
        return false, listed, owns;
      }
      var ok;
      ok, owns := DetectionStep(d, t, regs, hostOf, rows, ids, i, digests, alone, calm, listed, owns, clean);
      DetectionOneOpen(alone, listed, d.View(), refs, who, owns, images0, t.images, digests);
      clean := clean && ok;
    }
    if clean {
      AllChecked(ids, t.images, digests);
      ChangedAreListed(ids, rows, regs, digests);
      if alone {
        DetectionEnds(listed, d.View(), refs, who, owns, images0, t.images, digests);
      }
    }
  }

  lemma AllWaiting(ids: seq<ImageId>, rows: Images, regs: Registries)
    requires forall image <- ids :: Scannable(rows, regs, image)
    ensures Waiting(ids, 0, rows, rows)
  {
    forall k | 0 <= k < |ids| ensures ids[k] in rows {
      assert ids[k] in ids;
    }
  }

  lemma DetectionStarts(alone: bool, l: State, refs: map<ImageId, string>, who: set<ImageId>, images: Images,
                        digests: Digests)
    requires Inv(l)
    ensures DetectionDone(alone, l, l, refs, who, [], images, images, digests)
    ensures PassOk(alone, l, l, {}) && Checked([], 0, images, digests)
    ensures forall ids :: Checked(ids, 0, images, digests)
  {
    hide Inv, Reaches, Gain, AllPushed;
    PassStarts(alone, l, refs, who);
  }

  lemma DetectionRefs(alone: bool, l: State, s: State, refs: map<ImageId, string>, who: set<ImageId>, owns: seq<Own>,
                      a: Images, b: Images, digests: Digests, regs: Registries, hostOf: string -> Option<string>)
    requires DetectionDone(alone, l, s, refs, who, owns, a, b, digests)
    ensures Inv(s) && Reaches(l, s) && Refs(b, regs, hostOf) == Refs(a, regs, hostOf)
  {
    hide Inv, Reaches, Gain, OwnInsert;
    MovedKeepsRefs(a, b, digests, who, alone, l, s, regs, hostOf);
  }

  lemma DetectionTurnOk(alone: bool, l: State, m: State, t: State, refs: map<ImageId, string>, who: set<ImageId>,
                        owns: seq<Own>, a: Images, b: Images, digests: Digests, image: ImageId, own: Option<Own>,
                        through: set<ImageId>)
    requires DetectionDone(alone, l, m, refs, who, owns, a, b, digests)
    requires TurnDone(alone, m, t, refs, image, own) && TurnOk(alone, m, t, refs, image) && PassOk(alone, l, m, through)
    ensures PassOk(alone, l, t, through + {image} * refs.Keys)
  {
    hide PassDone, TurnDone, TurnOk, PassOk, DigestsMoved;
    PassTurnOk(alone, l, m, t, refs, who, owns, image, own, through);
  }

  lemma DetectionOneOpen(alone: bool, l: State, t: State, refs: map<ImageId, string>, who: set<ImageId>, owns: seq<Own>,
                         a: Images, b: Images, digests: Digests)
    requires DetectionDone(alone, l, t, refs, who, owns, a, b, digests)
    ensures alone && OneOpen(l.db.scans) ==> OneOpen(t.db.scans)
  {
    hide PassDone, DigestsMoved, OneOpen;
    PassKeepsOneOpen(alone, l, t, refs, who, owns);
  }

  lemma DetectionEnds(l: State, t: State, refs: map<ImageId, string>, who: set<ImageId>, owns: seq<Own>, a: Images,
                      b: Images, digests: Digests)
    requires DetectionDone(true, l, t, refs, who, owns, a, b, digests) && PassOk(true, l, t, who)
    ensures Gained(l.db.scans, t.db.scans) == set image <- who | !Busy(l.db.scans, image)
  {
    hide PassDone, PassOk, DigestsMoved, Busy, Gained, Gain, AllPushed;
    PassEnds(l, t, refs, who, owns);
  }

  lemma AllChecked(ids: seq<ImageId>, images: Images, digests: Digests)
    requires Checked(ids, |ids|, images, digests)
    ensures forall image <- ids :: UpToDate(images, image, digests)
  {
    hide UpToDate;
  }

  lemma ScannableRows(images: Images, regs: Registries, hostOf: string -> Option<string>)
    ensures forall image :: Scannable(images, regs, image) ==>
      image in images && images[image].deletedAt.None? && image in Refs(images, regs, hostOf)
  {
  }

  // ---------------------------------------------------------------- content that no scan of the pass sees

  /** A changed image that was busy has its digest advanced by a clean pass, and gains no scan of the new content. */
  lemma BusyChangeGoesUnscanned(l: State, t: State, refs: map<ImageId, string>, owns: seq<Own>, a: Images, b: Images,
                                regs: Registries, digests: Digests, image: ImageId)
    requires DetectionDone(true, l, t, refs, ChangedImages(a, regs, digests), owns, a, b, digests)
    requires forall other :: Scannable(a, regs, other) ==> UpToDate(b, other, digests)
    requires image in ChangedImages(a, regs, digests) && Busy(l.db.scans, image)
    ensures UpToDate(b, image, digests) && b[image].digest == Some(digests[image])
    ensures image !in Gained(l.db.scans, t.db.scans)
  {
    hide Inv, Reaches, OwnInsert, Busy, NewJobs, Backed, NormalizeDigest;
  }

  /** Such an image occurs: its first scan is still pending when its tag is pushed again. */
  lemma BusyChangeOccurs(url: string) returns (l: State, a: Images, regs: Registries, digests: Digests)
    ensures Reachable(l) && 0 in ChangedImages(a, regs, digests) && Busy(l.db.scans, 0)
  {
    var s0 := Empty(1);
    var insert := InsertScan(0, 0, Manual);
    l := Apply(s0, insert);
    OneStep(s0, insert);
    assert Init(s0);
    hide Reaches;
    assert l.db.scans[0].status == Pending;
    a := map[0 := ImageRow(0, "library/a", "1", None, 0, None)];
    regs, digests := map[0 := Registry(url, None)], map[0 := "sha256:0"];
  }

  // ---------------------------------------------------------------- content that a pass does scan

  /** Which images a pass takes for changed, on the texts of the two digests. */
  lemma ChangedIff(images: Images, regs: Registries, digests: Digests, image: ImageId)
    ensures image in ChangedImages(images, regs, digests) <==>
      && Scannable(images, regs, image) && image in digests
      && (images[image].digest.None? ||
          !SameText(TrimSpace(images[image].digest.value), TrimSpace(digests[image])))
  {
    hide SameText, TrimSpace, NormalizeDigest;
    if image in images && image in digests && images[image].digest.Some? {
      SameDigestIff(images[image].digest.value, digests[image]);
    }
  }

  /** A clean pass alone gives an idle image with new content a pending scheduled scan, and stores its new digest. */
  lemma IdleChangeIsScanned(l: State, t: State, refs: map<ImageId, string>, owns: seq<Own>, a: Images, b: Images,
                            regs: Registries, digests: Digests, image: ImageId)
    requires DetectionDone(true, l, t, refs, ChangedImages(a, regs, digests), owns, a, b, digests)
    requires PassOk(true, l, t, ChangedImages(a, regs, digests))
    requires forall other :: Scannable(a, regs, other) ==> UpToDate(b, other, digests)
    requires Scannable(a, regs, image) && image in digests && !Busy(l.db.scans, image)
    requires a[image].digest.None? || !SameText(TrimSpace(a[image].digest.value), TrimSpace(digests[image]))
    ensures exists id <- t.db.scans :: id !in l.db.scans && t.db.scans[id] == PendingRow(image, Schedule)
    ensures b[image].digest == Some(digests[image])
  {
    ChangedIff(a, regs, digests, image);
    DetectionEnds(l, t, refs, ChangedImages(a, regs, digests), owns, a, b, digests);
    hide Inv, Reaches, OwnInsert, Busy, NewJobs, Backed, NormalizeDigest, TrimSpace, SameText, Scannable, PassOk;
    assert image in Gained(l.db.scans, t.db.scans);
  }

  /** Such an image occurs, for any two digests: nothing was ever scanned, and the tag was pushed again. */
  lemma IdleChangeOccurs(url: string, stored: string, remote: string)
    returns (l: State, a: Images, regs: Registries, digests: Digests)
    requires PlainDigest(stored) && PlainDigest(remote) && stored != remote
    ensures Reachable(l) && !Busy(l.db.scans, 0) && 0 in a && 0 in digests
    ensures a[0].digest == Some(stored) && digests[0] == remote && 0 in ChangedImages(a, regs, digests)
  {
    l := Empty(1);
    assert Init(l);
    ReachesItself(l);
    hide Reaches, TrimSpace, SameText, NormalizeDigest, PlainDigest;
    a := map[0 := ImageRow(0, "library/a", "1", Some(stored), 0, None)];
    regs, digests := map[0 := Registry(url, None)], map[0 := remote];
    SameDigestIff(stored, remote);
  }

  // ---------------------------------------------------------------- the second pass

  lemma NothingGained(a: State, b: State, refs: map<ImageId, string>)
    requires Gain(a, b, refs, {})
    ensures b.db == a.db && b.queue == a.queue
  {
    assert b.db.scans == a.db.scans;
    HasMember(Pushed(a, b));
  }

  lemma HasMember<T>(s: seq<T>)
    ensures s == [] || exists x :: x in s
  {
    if s != [] {
      assert s[0] in s;
    }
  }

  lemma CleanPassLeavesNoChange(a: Images, b: Images, regs: Registries, digests: Digests, who: set<ImageId>,
                                alone: bool, l: State, t: State)
    requires DigestsMoved(a, b, digests, who, alone, l, t)
    requires forall image :: Scannable(a, regs, image) ==> UpToDate(b, image, digests)
    ensures ChangedImages(b, regs, digests) == {}
  {
    hide Backed, NormalizeDigest;
    forall image | image in b && Scannable(b, regs, image) ensures UpToDate(b, image, digests) {
      assert Scannable(a, regs, image);
    }
  }

  /**
   After a clean pass (from images a to b), any pass against the same remote digests, whenever and beside whomever it
   runs and whatever fails in it (from its listing in s and images b to s' and images c), inserts no scan of its own and
   moves no digest; when alone it changes nothing.
   */
  lemma SecondDetectionDoesNothing(a: Images, b: Images, c: Images, l: State, t: State, s: State, s': State,
                                   regs: Registries, hostOf: string -> Option<string>, digests: Digests, first: bool,
                                   alone: bool, before: seq<Own>, owns: seq<Own>)
    requires DetectionDone(first, l, t, Refs(a, regs, hostOf), ChangedImages(a, regs, digests), before, a, b, digests)
    requires forall image :: Scannable(a, regs, image) ==> UpToDate(b, image, digests)
    requires DetectionDone(alone, s, s', Refs(b, regs, hostOf), ChangedImages(b, regs, digests), owns, b, c, digests)
    ensures owns == [] && c == b
    ensures alone ==> s'.db == s.db && s'.queue == s.queue
  {
    hide Gain, Refs, Backed, Inv, Reaches, OwnInsert, Busy;
    CleanPassLeavesNoChange(a, b, regs, digests, ChangedImages(a, regs, digests), first, l, t);
    HasMember(owns);
    if alone {
      NothingGained(s, s', Refs(b, regs, hostOf));
    }
  }
}
