/**
 UpsertImage of internal/db/registries_store.go as the two statements it is, a SELECT and then an INSERT or UPDATE, run
 by any number of actors at once. The images table has no unique index: this module says exactly when two active rows
 of one key cannot appear.
 */
module UpsertRace {
  import opened Wrappers
  import opened Tables
  import opened RegistrySync

  type ActorId = nat

  /** What an actor's SELECT found. */
  datatype Intent = Intent(key: Key, found: Option<ImageId>)

  datatype Race = Race(images: Images, nextId: ImageId, intents: map<ActorId, Intent>)

  datatype Move =
    | Select(actor: ActorId, key: Key, found: Option<ImageId>)
    | Write(actor: ActorId, now: Time)
    | Abandon(actor: ActorId)
    | Remove(ids: set<ImageId>, now: Time)
    | SetDigest(id: ImageId, digest: string)

  ghost predicate Valid(r: Race) {
    forall id <- r.images :: id < r.nextId
  }

  ghost predicate Able(r: Race, m: Move) {
    match m
    case Select(_, key, found) =>
      if found.Some? then
        found.value in r.images && r.images[found.value].deletedAt.None? && KeyOf(r.images[found.value]) == key
      else key !in Active(r.images)
    case Write(actor, _) => actor in r.intents
    case _ => true
  }

  function NewRow(key: Key, now: Time): ImageRow {
    ImageRow(key.registryId, key.repository, key.tag, None, now, None)
  }

  function Moved(r: Race, m: Move): Race
    requires Able(r, m)
  {
    match m
    case Select(actor, key, found) => r.(intents := r.intents[actor := Intent(key, found)])
    case Write(actor, now) =>
      var intent := r.intents[actor];
      var left := r.(intents := r.intents - {actor});
      if intent.found.None? then
        left.(images := r.images[r.nextId := NewRow(intent.key, now)], nextId := r.nextId + 1)
      else if intent.found.value in r.images then
        left.(images := r.images[intent.found.value := r.images[intent.found.value].(lastSeenAt := now)])
      else left
    case Abandon(actor) => r.(intents := r.intents - {actor})
    case Remove(ids, now) =>
      r.(images := map id | id in r.images ::
           if id in ids && r.images[id].deletedAt.None? then r.images[id].(deletedAt := Some(now)) else r.images[id])
    case SetDigest(id, digest) =>
      if id in r.images && r.images[id].deletedAt.None? then
        r.(images := r.images[id := r.images[id].(digest := Some(digest))])
      else r
  }

  /** An INSERT whose SELECT found no row, after another actor has inserted one. */
  ghost predicate Late(r: Race, m: Move) {
    m.Write? && m.actor in r.intents && r.intents[m.actor].found.None? && r.intents[m.actor].key in Active(r.images)
  }

  /** No row appears, and none becomes active or changes its key. */
  ghost predicate Thins(a: Images, b: Images) {
    forall id <- b :: id in a && KeyOf(b[id]) == KeyOf(a[id]) && (b[id].deletedAt.None? ==> a[id].deletedAt.None?)
  }

  lemma ThinningKeepsUnique(a: Images, b: Images)
    requires Thins(a, b) && UniqueActive(a)
    ensures UniqueActive(b)
  {
  }

  lemma InsertKeepsUniqueIff(a: Images, id: ImageId, key: Key, now: Time)
    requires UniqueActive(a) && id !in a
    ensures UniqueActive(a[id := NewRow(key, now)]) <==> key !in Active(a)
  {
    var b := a[id := NewRow(key, now)];
    assert KeyOf(b[id]) == key && b[id].deletedAt.None?;
    if key in Active(a) {
      var other :| other in a && a[other].deletedAt.None? && KeyOf(a[other]) == key;
      assert b[other] == a[other];
    } else {
      forall other | other in a && a[other].deletedAt.None? ensures KeyOf(a[other]) != key {
        assert KeyOf(a[other]) in Active(a);
      }
    }
  }

  /** A move keeps at most one active row a key if and only if it is not a late insert. */
  lemma MoveKeepsUniqueIff(r: Race, m: Move)
    requires Valid(r) && Able(r, m) && UniqueActive(r.images)
    ensures Valid(Moved(r, m))
    ensures UniqueActive(Moved(r, m).images) <==> !Late(r, m)
  {
    if m.Write? && r.intents[m.actor].found.None? {
      InsertKeepsUniqueIff(r.images, r.nextId, r.intents[m.actor].key, m.now);
    } else {
      hide UniqueActive, Active;
      assert Thins(r.images, Moved(r, m).images);
      ThinningKeepsUnique(r.images, Moved(r, m).images);
    }
  }

  // ---------------------------------------------------------------- whole runs

  ghost predicate Played(r: Race, moves: seq<Move>)
    decreases |moves|
  {
    moves == [] || (Able(r, moves[0]) && Played(Moved(r, moves[0]), moves[1..]))
  }

  ghost predicate AlwaysUnique(r: Race, moves: seq<Move>)
    requires Played(r, moves)
    decreases |moves|
  {
    UniqueActive(r.images) && (moves == [] || AlwaysUnique(Moved(r, moves[0]), moves[1..]))
  }

  ghost predicate NeverLate(r: Race, moves: seq<Move>)
    requires Played(r, moves)
    decreases |moves|
  {
    moves == [] || (!Late(r, moves[0]) && NeverLate(Moved(r, moves[0]), moves[1..]))
  }

  /** A run never shows two active rows of one key if and only if none of its inserts is late. */
  lemma {:induction false} RunKeepsUniqueIff(r: Race, moves: seq<Move>)
    requires Valid(r) && UniqueActive(r.images) && Played(r, moves)
    ensures AlwaysUnique(r, moves) <==> NeverLate(r, moves)
    decreases |moves|
  {
    hide UniqueActive, Late, Moved, Able, Valid;
    if moves != [] {
      MoveKeepsUniqueIff(r, moves[0]);
      if UniqueActive(Moved(r, moves[0]).images) {
        RunKeepsUniqueIff(Moved(r, moves[0]), moves[1..]);
      }
    }
  }

  // ---------------------------------------------------------------- one upsert at a time, and two at once

  /** With nobody in between, an upsert does what ImageTable.UpsertImage promises, and is never late. */
  lemma UndisturbedUpsert(r: Race, actor: ActorId, key: Key, found: Option<ImageId>, now: Time)
    requires Valid(r) && Able(r, Select(actor, key, found))
    ensures var m := Moved(r, Select(actor, key, found));
      && Able(m, Write(actor, now)) && !Late(m, Write(actor, now))
      && Upserted(r.images, Moved(m, Write(actor, now)).images, key, r.nextId, now)
  {
    hide Active;
  }

  /** Two upserts of one new key whose SELECTs both come first leave two active rows. */
  lemma TwoAtOnce(key: Key) returns (moves: seq<Move>)
    ensures Played(Race(map[], 0, map[]), moves) && !AlwaysUnique(Race(map[], 0, map[]), moves)
  {
    var r0 := Race(map[], 0, map[]);
    var a, b, c, e := Select(0, key, None), Select(1, key, None), Write(0, 0), Write(1, 0);
    moves := [a, b, c, e];
    assert Active(r0.images) == {};
    var r1 := Moved(r0, a);
    var r2 := Moved(r1, b);
    var r3 := Moved(r2, c);
    assert r3.images == map[0 := NewRow(key, 0)] && r3.intents == map[1 := Intent(key, None)];
    assert KeyOf(r3.images[0]) in Active(r3.images);
    assert Late(r3, e);
    assert moves[1..] == [b, c, e] && [b, c, e][1..] == [c, e] && [c, e][1..] == [e] && [e][1..] == [];
    var r4 := Moved(r3, e);
    assert Played(r4, []);
    assert Played(r3, [e]) && !NeverLate(r3, [e]);
    assert Played(r2, [c, e]) && !NeverLate(r2, [c, e]);
    assert Played(r1, [b, c, e]) && !NeverLate(r1, [b, c, e]);
    assert !NeverLate(r0, moves);
    RunKeepsUniqueIff(r0, moves);
  }
}
