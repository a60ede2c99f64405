/** Reconciling the images table with what the registries list (scheduler/tasks.go, registries_store.go). */
module RegistrySync {
  import opened Wrappers
  import opened Tables

  type RegistryId = nat

  datatype ImageRow = ImageRow(
    registryId: RegistryId, repository: string, tag: string, digest: Option<string>,
    lastSeenAt: Time, deletedAt: Option<Time>)

  datatype Key = Key(registryId: RegistryId, repository: string, tag: string)

  function KeyOf(r: ImageRow): Key {
    Key(r.registryId, r.repository, r.tag)
  }

  type Images = map<ImageId, ImageRow>

  /** The keys of the rows with deleted_at IS NULL. */
  function Active(images: Images): set<Key> {
    set id <- images | images[id].deletedAt.None? :: KeyOf(images[id])
  }

  ghost predicate UniqueActive(images: Images) {
    forall a, b ::
      (a in images && b in images && images[a].deletedAt.None? && images[b].deletedAt.None? &&
       KeyOf(images[a]) == KeyOf(images[b])) ==> a == b
  }

  // ---------------------------------------------------------------- what a registry answers

  /** None is a failed ListTags call. */
  datatype Repo = Repo(name: string, tags: Option<seq<string>>)

  /** None is a failed connector or a failed ListRepositories call. */
  type Listing = Option<seq<Repo>>

  function Names(repos: seq<Repo>): set<string> {
    set r <- repos :: r.name
  }

  /** The answer lists the key. */
  ghost predicate Lists(listing: Listing, repository: string, tag: string) {
    listing.Some? && exists r <- listing.value :: r.name == repository && r.tags.Some? && tag in r.tags.value
  }

  /** The answer leaves the key out: another repository list, or a tag list of its repository without the tag. */
  ghost predicate Omits(listing: Listing, repository: string, tag: string) {
    && listing.Some?
    && ((listing.value != [] && repository !in Names(listing.value)) ||
        exists r <- listing.value :: r.name == repository && r.tags.Some? && tag !in r.tags.value)
  }

  // ---------------------------------------------------------------- what no failure can break

  /** Rows are never removed, revived or given another key; only listed keys appear and only omitted ones go. */
  ghost predicate Evolves(old_: Images, new_: Images, remote: map<RegistryId, Listing>) {
    && (forall id <- old_ :: id in new_ && RowEvolves(old_[id], new_[id], remote))
    && (forall id <- new_ :: id !in old_ ==>
          var r := new_[id]; r.registryId in remote && Lists(remote[r.registryId], r.repository, r.tag))
  }

  ghost predicate RowEvolves(r: ImageRow, r': ImageRow, remote: map<RegistryId, Listing>) {
    && KeyOf(r') == KeyOf(r) && r'.digest == r.digest
    && (r.deletedAt.Some? ==> r' == r)
    && (r.registryId !in remote || remote[r.registryId].None? ==> r' == r)
    && (r.deletedAt.None? && r'.deletedAt.Some? ==> Omits(remote[r.registryId], r.repository, r.tag))
  }

  lemma EvolvesTransitive(a: Images, b: Images, c: Images, remote: map<RegistryId, Listing>)
    requires Evolves(a, b, remote) && Evolves(b, c, remote)
    ensures Evolves(a, c, remote)
  {
    hide Lists, Omits;
    forall id <- a ensures id in c && RowEvolves(a[id], c[id], remote) {
      assert RowEvolves(a[id], b[id], remote) && RowEvolves(b[id], c[id], remote);
    }
    forall id <- c | id !in a
      ensures var r := c[id]; r.registryId in remote && Lists(remote[r.registryId], r.repository, r.tag)
    {
      if id in b {
        assert RowEvolves(b[id], c[id], remote);
        assert KeyOf(b[id]) == KeyOf(c[id]);
      }
    }
  }

  /** Nothing but last_seen_at differs. */
  ghost predicate SameRows(a: Images, b: Images) {
    && b.Keys == a.Keys
    && forall id <- a :: b[id].(lastSeenAt := a[id].lastSeenAt) == a[id]
  }

  /** UPDATE images SET deleted_at = now() WHERE deleted_at IS NULL AND hit. */
  function SoftDelete(images: Images, hit: Key -> bool, now: Time): Images {
    map id | id in images ::
      var r := images[id];
      if r.deletedAt.None? && hit(KeyOf(r)) then r.(deletedAt := Some(now)) else r
  }

  lemma SoftDeleteActive(images: Images, hit: Key -> bool, now: Time)
    ensures Active(SoftDelete(images, hit, now)) == set k <- Active(images) | !hit(k)
    ensures UniqueActive(images) ==> UniqueActive(SoftDelete(images, hit, now))
  {
    var after := SoftDelete(images, hit, now);
    forall k | k in Active(images) && !hit(k) ensures k in Active(after) {
      var id :| id in images && images[id].deletedAt.None? && KeyOf(images[id]) == k;
      assert after[id] == images[id];
    }
  }

  // ---------------------------------------------------------------- the pass, on sets of keys

  predicate StaleTag(k: Key, registryId: RegistryId, repository: string, keep: seq<string>) {
    k.registryId == registryId && k.repository == repository && k.tag !in keep
  }

  predicate StaleRepository(k: Key, registryId: RegistryId, live: seq<Repo>) {
    live != [] && k.registryId == registryId && k.repository !in Names(live)
  }

  function TagKeys(registryId: RegistryId, repository: string, tags: seq<string>): set<Key> {
    set t <- tags :: Key(registryId, repository, t)
  }

  function AfterRepo(active: set<Key>, registryId: RegistryId, r: Repo): set<Key> {
    if r.tags.None? then active
    else
      set k <- active + TagKeys(registryId, r.name, r.tags.value) | !StaleTag(k, registryId, r.name, r.tags.value)
  }

  function AfterRepos(active: set<Key>, registryId: RegistryId, repos: seq<Repo>): set<Key> {
    if repos == [] then active
    else AfterRepo(AfterRepos(active, registryId, repos[..|repos| - 1]), registryId, repos[|repos| - 1])
  }

  function AfterRegistry(active: set<Key>, registryId: RegistryId, listing: Listing): set<Key> {
    if listing.None? then active
    else set k <- AfterRepos(active, registryId, listing.value) | !StaleRepository(k, registryId, listing.value)
  }

  /** An error-free, uncancelled pass. */
  function AfterSync(active: set<Key>, regs: seq<RegistryId>, remote: map<RegistryId, Listing>): set<Key>
    requires forall r <- regs :: r in remote
  {
    if regs == [] then active
    else
      var n := |regs| - 1;
      AfterRegistry(AfterSync(active, regs[..n], remote), regs[n], remote[regs[n]])
  }

  // ---------------------------------------------------------------- what the pass leaves active

  /** The tag list of the last successful answer for a repository. */
  function LastTags(repos: seq<Repo>, repository: string): Option<seq<string>> {
    if repos == [] then None
    else
      var r := repos[|repos| - 1];
      if r.name == repository && r.tags.Some? then r.tags else LastTags(repos[..|repos| - 1], repository)
  }

  lemma {:induction false} AfterReposKey(active: set<Key>, registryId: RegistryId, repos: seq<Repo>, k: Key)
    ensures k in AfterRepos(active, registryId, repos) <==>
      if k.registryId == registryId && LastTags(repos, k.repository).Some?
      then k.tag in LastTags(repos, k.repository).value
      else k in active
  {
    if repos != [] {
      AfterReposKey(active, registryId, repos[..|repos| - 1], k);
    }
  }

  /** What a key should be after the pass: as last listed, gone with its repository, or as before. */
  ghost predicate Expected(active: set<Key>, regs: seq<RegistryId>, remote: map<RegistryId, Listing>, k: Key)
    requires forall r <- regs :: r in remote
  {
    if k.registryId !in regs || remote[k.registryId].None? then k in active
    else
      var repos := remote[k.registryId].value;
      var last := LastTags(repos, k.repository);
      if last.Some? then k.tag in last.value
      else if repos != [] && k.repository !in Names(repos) then false
      else k in active
  }

  lemma {:induction false} LastTagsNamed(repos: seq<Repo>, repository: string)
    ensures LastTags(repos, repository).Some? ==> repository in Names(repos)
    ensures LastTags(repos, repository).Some? ==>
      exists r <- repos :: r.name == repository && r.tags == LastTags(repos, repository)
    ensures (exists r <- repos :: r.name == repository && r.tags.Some?) ==> LastTags(repos, repository).Some?
  {
    if repos != [] {
      var front, r := repos[..|repos| - 1], repos[|repos| - 1];
      LastTagsNamed(front, repository);
      assert forall q <- repos :: q in front || q == r;
    }
  }

  /** An error-free pass leaves every key of every registry exactly as the registry lists it. */
  lemma {:induction false} ExactReconciliation(active: set<Key>, regs: seq<RegistryId>,
                                               remote: map<RegistryId, Listing>, k: Key)
    requires forall r <- regs :: r in remote
    requires forall i, j :: 0 <= i < j < |regs| ==> regs[i] != regs[j]
    ensures k in AfterSync(active, regs, remote) <==> Expected(active, regs, remote, k)
  {
    if regs != [] {
      var front, reg := regs[..|regs| - 1], regs[|regs| - 1];
      ExactReconciliation(active, front, remote, k);
      assert k.registryId in regs <==> k.registryId in front || k.registryId == reg;
      if remote[reg].Some? {
        AfterReposKey(AfterSync(active, front, remote), reg, remote[reg].value, k);
        LastTagsNamed(remote[reg].value, k.repository);
      }
    }
  }

  /** When every tag list arrives and repeated entries agree, the active keys of a registry are its listing. */
  lemma ActiveEqualsListing(active: set<Key>, regs: seq<RegistryId>, remote: map<RegistryId, Listing>, k: Key)
    requires forall r <- regs :: r in remote
    requires forall i, j :: 0 <= i < j < |regs| ==> regs[i] != regs[j]
    requires k.registryId in regs && remote[k.registryId].Some? && remote[k.registryId].value != []
    requires forall r <- remote[k.registryId].value :: r.tags.Some?
    requires forall r, q :: r in remote[k.registryId].value && q in remote[k.registryId].value && r.name == q.name ==>
      r.tags == q.tags
    ensures k in AfterSync(active, regs, remote) <==> Lists(remote[k.registryId], k.repository, k.tag)
  {
    ExactReconciliation(active, regs, remote, k);
    LastTagsNamed(remote[k.registryId].value, k.repository);
  }

  // ---------------------------------------------------------------- progress of a pass, whatever fails

  /** The table already shows what the registries list and nothing they omit. */
  ghost predicate Settled(active: set<Key>, remote: map<RegistryId, Listing>) {
    forall k: Key {:trigger k in active} :: k.registryId in remote ==>
      && (Lists(remote[k.registryId], k.repository, k.tag) ==> k in active)
      && (Omits(remote[k.registryId], k.repository, k.tag) ==> k !in active)
  }

  ghost predicate Progress(a: Images, b: Images, remote: map<RegistryId, Listing>) {
    && Evolves(a, b, remote)
    && (UniqueActive(a) ==> UniqueActive(b))
    && (Settled(Active(a), remote) ==> SameRows(a, b))
  }

  lemma SameRowsActive(a: Images, b: Images)
    requires SameRows(a, b)
    ensures Active(b) == Active(a)
    ensures UniqueActive(a) ==> UniqueActive(b)
  {
    forall id <- a
      ensures KeyOf(b[id]) == KeyOf(a[id]) && b[id].deletedAt == a[id].deletedAt
    {
      assert b[id].(lastSeenAt := a[id].lastSeenAt) == a[id];
    }
  }

  lemma ProgressTransitive(a: Images, b: Images, c: Images, remote: map<RegistryId, Listing>)
    requires Progress(a, b, remote) && Progress(b, c, remote)
    ensures Progress(a, c, remote)
  {
    EvolvesTransitive(a, b, c, remote);
    hide Evolves, UniqueActive;
    if Settled(Active(a), remote) {
      SameRowsActive(a, b);
      assert SameRows(a, c);
    }
  }

  lemma ProgressItself(a: Images, remote: map<RegistryId, Listing>)
    ensures Progress(a, a, remote)
  {
  }

  /** UpsertImage finding a row: only last_seen_at of rows with the key may move. */
  ghost predicate Touched(a: Images, b: Images, k: Key) {
    && b.Keys == a.Keys
    && forall id <- a :: b[id] == a[id] ||
         (a[id].deletedAt.None? && KeyOf(a[id]) == k && b[id] == a[id].(lastSeenAt := b[id].lastSeenAt))
  }

  /** What an upsert, answered or not, may do: nothing, touch a row with the key, or insert one where there is none. */
  ghost predicate Upserted(a: Images, b: Images, k: Key, id: ImageId, now: Time) {
    || b == a
    || (exists i :: i in a && a[i].deletedAt.None? && KeyOf(a[i]) == k && b == a[i := a[i].(lastSeenAt := now)])
    || (k !in Active(a) && b == a[id := ImageRow(k.registryId, k.repository, k.tag, None, now, None)])
  }

  lemma TouchProgress(a: Images, b: Images, k: Key, remote: map<RegistryId, Listing>)
    requires Touched(a, b, k) && k.registryId in remote && remote[k.registryId].Some?
    ensures Progress(a, b, remote) && Active(b) == Active(a)
  {
    hide Lists, Omits;
    assert SameRows(a, b);
    SameRowsActive(a, b);
  }

  lemma InsertProgress(a: Images, id: ImageId, r: ImageRow, remote: map<RegistryId, Listing>)
    requires id !in a && r.deletedAt.None? && KeyOf(r) !in Active(a)
    requires r.registryId in remote && Lists(remote[r.registryId], r.repository, r.tag)
    ensures Progress(a, a[id := r], remote) && Active(a[id := r]) == Active(a) + {KeyOf(r)}
  {
    var b := a[id := r];
    hide Lists, Omits;
    assert Evolves(a, b, remote);
    assert !Settled(Active(a), remote);
    hide Evolves, Settled;
    forall k | k in Active(a) + {KeyOf(r)} ensures k in Active(b) {
      if k in Active(a) {
        var i :| i in a && a[i].deletedAt.None? && KeyOf(a[i]) == k;
        assert b[i] == a[i];
      } else {
        assert b[id] == r;
      }
    }
    forall i | i in a && a[i].deletedAt.None? ensures KeyOf(a[i]) != KeyOf(r) {
      assert KeyOf(a[i]) in Active(a);
    }
  }

  lemma SoftDeleteProgress(a: Images, hit: Key -> bool, now: Time, remote: map<RegistryId, Listing>)
    requires forall k :: hit(k) ==>
      k.registryId in remote && remote[k.registryId].Some? && Omits(remote[k.registryId], k.repository, k.tag)
    ensures Progress(a, SoftDelete(a, hit, now), remote)
    ensures Active(SoftDelete(a, hit, now)) == set k <- Active(a) | !hit(k)
  {
    hide Lists, Omits;
    SoftDeleteActive(a, hit, now);
    if Settled(Active(a), remote) {
      forall id | id in a && a[id].deletedAt.None? ensures !hit(KeyOf(a[id])) {
        var k := KeyOf(a[id]);
        assert k in Active(a);
      }
    }
  }

  // ---------------------------------------------------------------- the images table

  class ImageTable {
    var images: Images
    var nextId: ImageId

    constructor ()
      ensures images == map[] && Valid()
    {
      images, nextId := map[], 0;
    }

    ghost predicate Valid()
      reads this
    {
      forall id <- images :: id < nextId
    }

    /** UpsertImage; an error may hide a statement that took effect. */
    method UpsertImage(registryId: RegistryId, repository: string, tag: string, now: Time, calm: bool)
      returns (id: Option<ImageId>)
      requires Valid()
      modifies this
      ensures Valid()
      ensures calm ==> id.Some?
      ensures Upserted(old(images), images, Key(registryId, repository, tag), old(nextId), now)
      ensures id.Some? ==>
        && id.value in images && images[id.value].deletedAt.None?
        && KeyOf(images[id.value]) == Key(registryId, repository, tag)
        && images[id.value].lastSeenAt == now
      ensures id.Some? && Key(registryId, repository, tag) !in old(Active(images)) ==>
        images == old(images)[old(nextId) := ImageRow(registryId, repository, tag, None, now, None)]
    {
      var k := Key(registryId, repository, tag);
      var fault: bool :| calm ==> !fault;
      var applied: bool := *;
      if fault && !applied {
        return None;
      }
      if i :| i in images && images[i].deletedAt.None? && KeyOf(images[i]) == k {
        images := images[i := images[i].(lastSeenAt := now)];
        return if fault then None else Some(i);
      }
      id := if fault then None else Some(nextId);
      images := images[nextId := ImageRow(registryId, repository, tag, None, now, None)];
      nextId := nextId + 1;
    }

    /** UpdateImageDigest; an error may hide an update that took effect. */
    method UpdateImageDigest(id: ImageId, digest: string, calm: bool) returns (ok: bool)
      requires Valid()
      modifies this
      ensures Valid()
      ensures calm ==> ok
      ensures images == old(images) ||
        (id in old(images) && old(images)[id].deletedAt.None? &&
         images == old(images)[id := old(images)[id].(digest := Some(digest))])
      ensures ok && id in old(images) && old(images)[id].deletedAt.None? ==>
        images == old(images)[id := old(images)[id].(digest := Some(digest))]
    {
      var fault: bool :| calm ==> !fault;
      var applied: bool := *;
      if (!fault || applied) && id in images && images[id].deletedAt.None? {
        images := images[id := images[id].(digest := Some(digest))];
      }
      ok := !fault;
    }

    /** SoftDeleteImageTagsNotIn; an error may hide an update that took effect. */
    method SoftDeleteImageTagsNotIn(registryId: RegistryId, repository: string, keep: seq<string>, now: Time,
                                    calm: bool)
      returns (ok: bool)
      requires Valid()
      modifies this`images
      ensures Valid()
      ensures calm ==> ok
      ensures var after := SoftDelete(old(images), k => StaleTag(k, registryId, repository, keep), now);
        images == after || (!ok && images == old(images))
    {
      var fault: bool :| calm ==> !fault;
      var applied: bool := *;
      if !fault || applied {
        images := map id | id in images ::
          var r := images[id];
          if r.deletedAt.None? && r.registryId == registryId && r.repository == repository && r.tag !in keep
          then r.(deletedAt := Some(now)) else r;
      }
      ok := !fault;
    }

    /** SoftDeleteImagesForRepositoriesNotIn, which sends no statement for an empty list. */
    method SoftDeleteImagesForRepositoriesNotIn(registryId: RegistryId, live: seq<Repo>, now: Time, calm: bool)
      returns (ok: bool)
      requires Valid()
      modifies this`images
      ensures Valid()
      ensures calm || live == [] ==> ok
      ensures var after := SoftDelete(old(images), k => StaleRepository(k, registryId, live), now);
        images == after || (!ok && images == old(images))
    {
      if live == [] {
        assert images == SoftDelete(images, k => StaleRepository(k, registryId, live), now);
        return true;
      }
      var fault: bool :| calm ==> !fault;
      var applied: bool := *;
      if !fault || applied {
        images := map id | id in images ::
          var r := images[id];
          if r.deletedAt.None? && r.registryId == registryId && r.repository !in Names(live)
          then r.(deletedAt := Some(now)) else r;
      }
      ok := !fault;
    }
  }

  // ---------------------------------------------------------------- the times a pass writes

  /** Only `now` is written: to last_seen_at, to deleted_at of rows that go, and to new rows, which have no digest. */
  ghost predicate Stamped(a: Images, b: Images, now: Time) {
    && (forall id <- a :: id in b && RowStamped(a[id], b[id], now))
    && (forall id <- b :: id !in a ==>
          RowStamped(b[id].(digest := None, lastSeenAt := now, deletedAt := None), b[id], now))
  }

  predicate RowStamped(r: ImageRow, r': ImageRow, now: Time) {
    && KeyOf(r') == KeyOf(r) && r'.digest == r.digest
    && (r'.lastSeenAt == r.lastSeenAt || r'.lastSeenAt == now)
    && (r'.deletedAt == r.deletedAt || (r.deletedAt.None? && r'.deletedAt == Some(now)))
  }

  lemma StampedTransitive(a: Images, b: Images, c: Images, now: Time)
    requires Stamped(a, b, now) && Stamped(b, c, now)
    ensures Stamped(a, c, now)
  {
    forall id <- a ensures id in c && RowStamped(a[id], c[id], now) {
      assert RowStamped(a[id], b[id], now) && RowStamped(b[id], c[id], now);
    }
    forall id <- c | id !in a
      ensures RowStamped(c[id].(digest := None, lastSeenAt := now, deletedAt := None), c[id], now)
    {
      if id in b {
        assert RowStamped(b[id], c[id], now);
      }
    }
  }

  /** The active row of the key was seen at `now`. */
  ghost predicate SeenKey(images: Images, k: Key, now: Time) {
    forall id <- images :: images[id].deletedAt.None? && KeyOf(images[id]) == k ==> images[id].lastSeenAt == now
  }

  lemma StaysSeen(a: Images, b: Images, k: Key, now: Time)
    requires Stamped(a, b, now) && SeenKey(a, k, now)
    ensures SeenKey(b, k, now)
  {
    forall id <- b | b[id].deletedAt.None? && KeyOf(b[id]) == k ensures b[id].lastSeenAt == now {
      if id in a {
        assert RowStamped(a[id], b[id], now);
      }
    }
  }

  /** Every image that these entries of a listing list was seen at `now`. */
  ghost predicate SeenListed(images: Images, registryId: RegistryId, repos: seq<Repo>, now: Time) {
    forall k: Key :: k.registryId == registryId && Lists(Some(repos), k.repository, k.tag) ==> SeenKey(images, k, now)
  }

  lemma OneMoreEntry(a: Images, b: Images, registryId: RegistryId, repos: seq<Repo>, i: nat, now: Time)
    requires i < |repos| && Stamped(a, b, now) && SeenListed(a, registryId, repos[..i], now)
    requires repos[i].tags.Some? ==>
      forall tag <- repos[i].tags.value :: SeenKey(b, Key(registryId, repos[i].name, tag), now)
    ensures SeenListed(b, registryId, repos[..i + 1], now)
  {
    hide Stamped, SeenKey;
    forall k: Key | k.registryId == registryId && Lists(Some(repos[..i + 1]), k.repository, k.tag)
      ensures SeenKey(b, k, now)
    {
      var r :| r in repos[..i + 1] && r.name == k.repository && r.tags.Some? && k.tag in r.tags.value;
      if r in repos[..i] {
        StaysSeen(a, b, k, now);
      } else {
        assert r == repos[i] && k == Key(registryId, repos[i].name, k.tag);
      }
    }
  }

  /** An active image that one of these registries lists. */
  ghost predicate Listed(r: ImageRow, regs: seq<RegistryId>, remote: map<RegistryId, Listing>) {
    && r.deletedAt.None? && r.registryId in regs && r.registryId in remote
    && Lists(remote[r.registryId], r.repository, r.tag)
  }

  /** Every image that one of these registries lists was seen at `now`. */
  ghost predicate SeenAll(images: Images, regs: seq<RegistryId>, remote: map<RegistryId, Listing>, now: Time) {
    forall id <- images ::
      var r := images[id];
      Listed(r, regs, remote) ==> r.lastSeenAt == now
  }

  lemma OneMoreRegistry(a: Images, b: Images, regs: seq<RegistryId>, i: nat, remote: map<RegistryId, Listing>,
                        now: Time)
    requires i < |regs| && regs[i] in remote && Stamped(a, b, now) && SeenAll(a, regs[..i], remote, now)
    requires remote[regs[i]].Some? ==> SeenListed(b, regs[i], remote[regs[i]].value, now)
    ensures SeenAll(b, regs[..i + 1], remote, now)
  {
    hide Lists;
    assert regs[..i + 1] == regs[..i] + [regs[i]];
    forall id <- b | Listed(b[id], regs[..i + 1], remote) ensures b[id].lastSeenAt == now {
      if b[id].registryId == regs[i] {
        ListsSome(remote[regs[i]], b[id].repository, b[id].tag);
        assert SeenKey(b, KeyOf(b[id]), now);
      } else if id in a {
        assert RowStamped(a[id], b[id], now);
      }
    }
  }

  // ---------------------------------------------------------------- the pass as code

  /**
   One upsert of a listed tag. `clean` says that no statement failed and the context was not done; `calm` rules such
   failures out.
   */
  method SyncTag(t: ImageTable, registryId: RegistryId, repository: string, tag: string, now: Time,
                 calm: bool, ghost remote: map<RegistryId, Listing>)
    returns (clean: bool)
    requires t.Valid() && registryId in remote && Lists(remote[registryId], repository, tag)
    modifies t
    ensures t.Valid() && Progress(old(t.images), t.images, remote)
    ensures calm ==> clean
    ensures clean ==> Active(t.images) == old(Active(t.images)) + {Key(registryId, repository, tag)}
    ensures Stamped(old(t.images), t.images, now)
    ensures clean && UniqueActive(old(t.images)) ==> SeenKey(t.images, Key(registryId, repository, tag), now)
  {
    hide Lists, Progress, Active, SameRows, UniqueActive, SeenKey, Stamped;
    ghost var a, newId := t.images, t.nextId;
    ghost var k := Key(registryId, repository, tag);
    var id := t.UpsertImage(registryId, repository, tag, now, calm);
    clean := id.Some?;
    ListsSome(remote[registryId], repository, tag);
    if Touched(a, t.images, k) {
      TouchProgress(a, t.images, k, remote);
    } else {
      InsertProgress(a, newId, t.images[newId], remote);
    }
    UpsertStamps(a, t.images, k, newId, now);
    KeepsUnique(a, t.images, remote);
    if clean && UniqueActive(a) {
      OneIsAll(t.images, id.value, now);
    }
  }

  lemma UpsertStamps(a: Images, b: Images, k: Key, id: ImageId, now: Time)
    requires Upserted(a, b, k, id, now) && id !in a
    ensures Stamped(a, b, now)
  {
    hide Active;
  }

  lemma KeepsUnique(a: Images, b: Images, remote: map<RegistryId, Listing>)
    requires Progress(a, b, remote)
    ensures UniqueActive(a) ==> UniqueActive(b)
  {
  }

  lemma OneIsAll(images: Images, id: ImageId, now: Time)
    requires UniqueActive(images) && id in images && images[id].deletedAt.None? && images[id].lastSeenAt == now
    ensures SeenKey(images, KeyOf(images[id]), now)
  {
  }

  lemma DeleteStamps(a: Images, hit: Key -> bool, now: Time)
    ensures Stamped(a, SoftDelete(a, hit, now), now) && Stamped(a, a, now)
  {
  }

  lemma ListsSome(listing: Listing, repository: string, tag: string)
    requires Lists(listing, repository, tag)
    ensures listing.Some?
  {
  }

  /** One repository of a registry's listing: upsert its tags, then soft-delete the others. */
  method SyncRepository(t: ImageTable, registryId: RegistryId, repos: seq<Repo>, i: nat, now: Time,
                        calm: bool, ghost remote: map<RegistryId, Listing>)
    returns (clean: bool)
    requires t.Valid() && registryId in remote && remote[registryId] == Some(repos) && i < |repos|
    modifies t
    ensures t.Valid() && Progress(old(t.images), t.images, remote)
    ensures calm ==> clean
    ensures clean ==> Active(t.images) == AfterRepo(old(Active(t.images)), registryId, repos[i])
    ensures Stamped(old(t.images), t.images, now)
    ensures clean && UniqueActive(old(t.images)) && repos[i].tags.Some? ==>
      forall tag <- repos[i].tags.value :: SeenKey(t.images, Key(registryId, repos[i].name, tag), now)
  {
    hide Progress, Lists, Omits, Active, Stamped, SeenKey, UniqueActive;
    ghost var a := t.images;
    ProgressItself(a, remote);
    DeleteStamps(a, _ => false, now);
    var r := repos[i];
    if r.tags.None? {
      return true;
    }
    clean := true;
    var tags := r.tags.value;
    for n := 0 to |tags|
      invariant t.Valid() && Progress(a, t.images, remote) && (calm ==> clean)
      invariant clean ==> Active(t.images) == Active(a) + TagKeys(registryId, r.name, tags[..n])
      invariant Stamped(a, t.images, now)
      invariant clean && UniqueActive(a) ==>
        forall j :: 0 <= j < n ==> SeenKey(t.images, Key(registryId, r.name, tags[j]), now)
    {
      ListedTag(repos, i, tags[n]);
      ghost var b := t.images;
      var ok := SyncTag(t, registryId, r.name, tags[n], now, calm, remote);
      ProgressTransitive(a, b, t.images, remote);
      StampedTransitive(a, b, t.images, now);
      KeepsUnique(a, b, remote);
      StaySeen(b, t.images, registryId, r.name, tags[..n], now);
      clean := clean && ok;
      assert tags[..n + 1] == tags[..n] + [tags[n]];
    }
    assert tags[..|tags|] == tags;
    ghost var b := t.images;
    var ok := t.SoftDeleteImageTagsNotIn(registryId, r.name, tags, now, calm);
    StaleTagsOmitted(repos, i);
    SoftDeleteProgress(b, k => StaleTag(k, registryId, r.name, tags), now, remote);
    ProgressItself(b, remote);
    ProgressTransitive(a, b, t.images, remote);
    DeleteStamps(b, k => StaleTag(k, registryId, r.name, tags), now);
    StampedTransitive(a, b, t.images, now);
    StaySeen(b, t.images, registryId, r.name, tags, now);
    clean := clean && ok;
  }

  lemma StaySeen(a: Images, b: Images, registryId: RegistryId, repository: string, tags: seq<string>, now: Time)
    requires Stamped(a, b, now)
    ensures forall tag <- tags ::
      SeenKey(a, Key(registryId, repository, tag), now) ==> SeenKey(b, Key(registryId, repository, tag), now)
  {
    hide Stamped, SeenKey;
    forall tag <- tags | SeenKey(a, Key(registryId, repository, tag), now)
      ensures SeenKey(b, Key(registryId, repository, tag), now)
    {
      StaysSeen(a, b, Key(registryId, repository, tag), now);
    }
  }

  lemma ListedTag(repos: seq<Repo>, i: nat, tag: string)
    requires i < |repos| && repos[i].tags.Some? && tag in repos[i].tags.value
    ensures Lists(Some(repos), repos[i].name, tag)
  {
  }

  lemma StaleTagsOmitted(repos: seq<Repo>, i: nat)
    requires i < |repos| && repos[i].tags.Some?
    ensures forall k, registryId :: StaleTag(k, registryId, repos[i].name, repos[i].tags.value) ==>
      Omits(Some(repos), k.repository, k.tag)
  {
  }

  lemma StaleRepositoriesOmitted(repos: seq<Repo>)
    ensures forall k, registryId :: StaleRepository(k, registryId, repos) ==> Omits(Some(repos), k.repository, k.tag)
  {
  }

  method SyncRegistry(t: ImageTable, registryId: RegistryId, now: Time, calm: bool, remote: map<RegistryId, Listing>)
    returns (clean: bool)
    requires t.Valid() && registryId in remote
    modifies t
    ensures t.Valid() && Progress(old(t.images), t.images, remote)
    ensures calm ==> clean
    ensures clean ==> Active(t.images) == AfterRegistry(old(Active(t.images)), registryId, remote[registryId])
    ensures Stamped(old(t.images), t.images, now)
    ensures clean && UniqueActive(old(t.images)) && remote[registryId].Some? ==>
      SeenListed(t.images, registryId, remote[registryId].value, now)
  {
    hide Progress, Lists, Omits, Active, AfterRepo, StaleTag, Stamped, UniqueActive, SeenKey, SeenListed;
    ghost var a := t.images;
    ProgressItself(a, remote);
    DeleteStamps(a, _ => false, now);
    if remote[registryId].None? {
      return true;
    }
    clean := true;
    var repos := remote[registryId].value;
    NoEntries(a, registryId, now);
    for i := 0 to |repos|
      invariant t.Valid() && Progress(a, t.images, remote) && (calm ==> clean)
      invariant clean ==> Active(t.images) == AfterRepos(Active(a), registryId, repos[..i])
      invariant Stamped(a, t.images, now)
      invariant clean && UniqueActive(a) ==> SeenListed(t.images, registryId, repos[..i], now)
    {
      var done: bool :| calm ==> !done;
      if done {
        return false;
      }
      ghost var b := t.images;
      var ok := SyncRepository(t, registryId, repos, i, now, calm, remote);
      ProgressTransitive(a, b, t.images, remote);
      StampedTransitive(a, b, t.images, now);
      KeepsUnique(a, b, remote);
      if clean && ok && UniqueActive(a) {
        OneMoreEntry(b, t.images, registryId, repos, i, now);
      }
      clean := clean && ok;
      assert repos[..i + 1][..i] == repos[..i];
    }
    assert repos[..|repos|] == repos;
    ghost var b := t.images;
    var ok := t.SoftDeleteImagesForRepositoriesNotIn(registryId, repos, now, calm);
    StaleRepositoriesOmitted(repos);
    SoftDeleteProgress(b, k => StaleRepository(k, registryId, repos), now, remote);
    ProgressItself(b, remote);
    ProgressTransitive(a, b, t.images, remote);
    DeleteStamps(b, k => StaleRepository(k, registryId, repos), now);
    StampedTransitive(a, b, t.images, now);
    if SeenListed(b, registryId, repos, now) {
      StayListed(b, t.images, registryId, repos, now);
    }
    clean := clean && ok;
  }

  lemma NoEntries(images: Images, registryId: RegistryId, now: Time)
    ensures SeenListed(images, registryId, [], now)
  {
  }

  lemma StayListed(a: Images, b: Images, registryId: RegistryId, repos: seq<Repo>, now: Time)
    requires Stamped(a, b, now) && SeenListed(a, registryId, repos, now)
    ensures SeenListed(b, registryId, repos, now)
  {
    hide Stamped, SeenKey, Lists;
    forall k: Key | k.registryId == registryId && Lists(Some(repos), k.repository, k.tag) ensures SeenKey(b, k, now) {
      StaysSeen(a, b, k, now);
    }
  }

  /**
   runRegistrySync over the registries listed in Postgres, under any pattern of connector errors, failed statements
   and cancellation. A clean pass is the pass on sets of keys, and has seen every listed image; any pass makes Progress
   and writes no other time than its own.
   */
  method RunRegistrySync(t: ImageTable, regs: seq<RegistryId>, now: Time, calm: bool, remote: map<RegistryId, Listing>)
    returns (clean: bool)
    requires t.Valid() && forall r <- regs :: r in remote
    modifies t
    ensures t.Valid() && Progress(old(t.images), t.images, remote)
    ensures calm ==> clean
    ensures clean ==> Active(t.images) == AfterSync(old(Active(t.images)), regs, remote)
    ensures Stamped(old(t.images), t.images, now)
    ensures clean && UniqueActive(old(t.images)) ==> SeenAll(t.images, regs, remote, now)
  {
    hide Progress, Active, AfterRegistry, Stamped, SeenListed, UniqueActive, SeenAll;
    ghost var a := t.images;
    ProgressItself(a, remote);
    DeleteStamps(a, _ => false, now);
    NoRegistries(a, remote, now);
    clean := true;
    for i := 0 to |regs|
      invariant t.Valid() && Progress(a, t.images, remote) && (calm ==> clean)
      invariant clean ==> Active(t.images) == AfterSync(Active(a), regs[..i], remote)
      invariant Stamped(a, t.images, now)
      invariant clean && UniqueActive(a) ==> SeenAll(t.images, regs[..i], remote, now)
    {
      var done: bool :| calm ==> !done;
      if done {
        return false;
      }
      ghost var b := t.images;
      var ok := SyncRegistry(t, regs[i], now, calm, remote);
      ProgressTransitive(a, b, t.images, remote);
      StampedTransitive(a, b, t.images, now);
      KeepsUnique(a, b, remote);
      if clean && ok && UniqueActive(a) {
        OneMoreRegistry(b, t.images, regs, i, remote, now);
      }
      clean := clean && ok;
      assert regs[..i + 1][..i] == regs[..i];
    }
    assert regs[..|regs|] == regs;
  }

  lemma NoRegistries(images: Images, remote: map<RegistryId, Listing>, now: Time)
    ensures SeenAll(images, [], remote, now)
  {
  }

  // ---------------------------------------------------------------- safety and the second pass

  /** Successful answers for one repository agree. */
  ghost predicate Agrees(listing: Listing) {
    listing.Some? ==> forall r, q ::
      r in listing.value && q in listing.value && r.name == q.name && r.tags.Some? && q.tags.Some? ==> r.tags == q.tags
  }

  /** The repository is listed, but every ListTags call for it failed. */
  ghost predicate NoTagLists(listing: Listing, repository: string) {
    && listing.Some? && repository in Names(listing.value)
    && forall q <- listing.value :: q.name == repository ==> q.tags.None?
  }

  /** What every pass keeps, whatever fails: listed images, repositories without a tag list, silent registries. */
  lemma SafeUnderFailure(a: Images, b: Images, remote: map<RegistryId, Listing>, id: ImageId)
    requires Progress(a, b, remote) && id in a
    ensures id in b && KeyOf(b[id]) == KeyOf(a[id]) && b[id].digest == a[id].digest
    ensures var r := a[id];
      && (r.registryId !in remote || remote[r.registryId].None? ==> b[id] == r)
      && (r.registryId in remote && r.deletedAt.None? ==>
           var listing := remote[r.registryId];
           && (Agrees(listing) && Lists(listing, r.repository, r.tag) ==> b[id].deletedAt.None?)
           && (NoTagLists(listing, r.repository) ==> b[id].deletedAt.None?))
  {
    assert RowEvolves(a[id], b[id], remote);
  }

  /** After a clean pass over agreeing answers the table is settled ... */
  lemma CleanPassSettles(active: set<Key>, regs: seq<RegistryId>, remote: map<RegistryId, Listing>)
    requires forall r :: r in regs <==> r in remote
    requires forall i, j :: 0 <= i < j < |regs| ==> regs[i] != regs[j]
    requires forall r <- remote :: Agrees(remote[r])
    ensures Settled(AfterSync(active, regs, remote), remote)
  {
    forall k: Key | k.registryId in remote
      ensures Lists(remote[k.registryId], k.repository, k.tag) ==> k in AfterSync(active, regs, remote)
      ensures Omits(remote[k.registryId], k.repository, k.tag) ==> k !in AfterSync(active, regs, remote)
    {
      ExactReconciliation(active, regs, remote, k);
      if remote[k.registryId].Some? {
        LastTagsNamed(remote[k.registryId].value, k.repository);
      }
    }
  }

  /** ... so a second pass against the same answers, however it fails, adds and deletes nothing. */
  lemma SecondPassChangesNothing(a: Images, b: Images, c: Images, regs: seq<RegistryId>,
                                 remote: map<RegistryId, Listing>)
    requires forall r :: r in regs <==> r in remote
    requires forall i, j :: 0 <= i < j < |regs| ==> regs[i] != regs[j]
    requires forall r <- remote :: Agrees(remote[r])
    requires Active(b) == AfterSync(Active(a), regs, remote) && Progress(b, c, remote)
    ensures SameRows(b, c)
  {
    CleanPassSettles(Active(a), regs, remote);
  }
}
