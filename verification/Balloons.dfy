/** The stored records, the changes one critical section makes to them, and what reaches the disk. */
module Balloons {
  import opened Words
  import opened Options

  type Id = nat
  type Pid = nat
  type Blob = seq<Byte>

  const STATS_TYPE: UInt16 := 200
  const NANOS := 1_000_000_000

  datatype RatingInfo = RatingInfo(total: Int64, count: UInt32, initial: Int64)

  /** The part of a record that is fixed when it is posted. */
  datatype Posting = Posting(
    owner: Pid, size: UInt32, name: string, dataType: UInt16, meta: Blob, tags: seq<string>,
    createdAt: nat, updatedAt: nat, slot: Option<UInt16>)

  /** `wall` is the posting time in nanoseconds since 1970. */
  datatype Balloon = Balloon(
    id: Id, post: Posting, wall: int, complete: bool, buffers: map<Slot, seq<Blob>>,
    ratingSum: Int64, ratingN: UInt32, ratings: map<Slot, RatingInfo>)

  type Store = map<Id, Balloon>

  /** "One active balloon" is a rule per owner and data type. */
  type Key = (Pid, UInt16)

  function KeyOf(b: Balloon): Key {
    (b.post.owner, b.post.dataType)
  }

  predicate Active(b: Balloon, key: Key) {
    b.complete && KeyOf(b) == key
  }

  /** Per-slot ratings seeded from the initial values of a post. */
  function Seed(initials: map<Slot, Int64>): map<Slot, RatingInfo> {
    map s | s in initials :: RatingInfo(initials[s], 0, initials[s])
  }

  /** A record as a post creates it; only the meta-binary post creates it complete. */
  function NewBalloon(id: Id, post: Posting, wall: int, complete: bool, initials: map<Slot, Int64>): Balloon {
    Balloon(id, post, wall, complete, map[], 0, 0, Seed(initials))
  }

  /** What every post creates: no buffers, no ratings yet, slots at their initial values. */
  predicate Untouched(b: Balloon) {
    && b.buffers == map[] && b.ratingSum == 0 && b.ratingN == 0
    && forall s <- b.ratings :: b.ratings[s].total == b.ratings[s].initial && b.ratings[s].count == 0
  }

  // ----- operations ---------------------------------------------------------------------------

  datatype Op =
    | Posted(b: Balloon)
    | Completed(id: Id)
    | Removed(id: Id)
    | Rated(id: Id, slot: Slot, value: Int64)
    | Queued(id: Id, wireSlot: UInt32, buf: Blob)
    | Cleared(id: Id, wireSlot: UInt32)
    | Restarted(now: int)
    | Wiped  // a start that finds no file it can read

  function RatingAt(b: Balloon, slot: Slot): RatingInfo {
    if slot in b.ratings then b.ratings[slot] else RatingInfo(0, 0, 0)
  }

  function QueueAt(b: Balloon, slot: Slot): seq<Blob> {
    if slot in b.buffers then b.buffers[slot] else []
  }

  /** One more rating in a slot; a slot never seen starts from zero. */
  function AddRating(ratings: map<Slot, RatingInfo>, slot: Slot, value: Int64): map<Slot, RatingInfo> {
    var info := if slot in ratings then ratings[slot] else RatingInfo(0, 0, 0);
    ratings[slot := RatingInfo(S64(info.total + value), U32(info.count + 1), info.initial)]
  }

  function Rate(b: Balloon, slot: Slot, value: Int64): Balloon {
    b.(ratingSum := S64(b.ratingSum + value),
       ratingN := U32(b.ratingN + 1),
       ratings := AddRating(b.ratings, slot, value))
  }

  /** The effect of one operation; operations on an absent record change nothing. */
  function Apply(m: Store, op: Op): Store {
    match op
    case Posted(b) => m[b.id := b]
    case Completed(id) => if id in m then m[id := m[id].(complete := true)] else m
    case Removed(id) => m - {id}
    case Rated(id, slot, value) => if id in m then m[id := Rate(m[id], slot, value)] else m
    case Queued(id, u, buf) =>
      if id in m then
        m[id := m[id].(buffers := m[id].buffers[SlotOf(u) := QueueAt(m[id], SlotOf(u)) + [buf]])]
      else m
    case Cleared(id, u) => if id in m then m[id := m[id].(buffers := m[id].buffers - {SlotOf(u)})] else m
    case Restarted(now) => map id | id in m :: Restore(Project(m[id]), now)
    case Wiped => map[]
  }

  function Replay(m: Store, ops: seq<Op>): Store {
    if ops == [] then m else Apply(Replay(m, ops[..|ops| - 1]), ops[|ops| - 1])
  }

  lemma ReplaySnoc(m: Store, ops: seq<Op>, op: Op)
    ensures Replay(m, ops + [op]) == Apply(Replay(m, ops), op)
  {
    assert (ops + [op])[..|ops|] == ops;
  }

  lemma {:induction false} ReplayConcat(m: Store, a: seq<Op>, b: seq<Op>)
    ensures Replay(m, a + b) == Replay(Replay(m, a), b)
  {
    if b == [] {
      assert a + b == a;
    } else {
      var b' := b[..|b| - 1];
      assert (a + b)[..|a + b| - 1] == a + b';
      ReplayConcat(m, a, b');
    }
  }

  // ----- the data file ------------------------------------------------------------------------

  /** A record without its buffers, its posting time cut to seconds. */
  datatype Persisted = Persisted(
    id: Id, post: Posting, wallUnix: int, complete: bool,
    ratingSum: Int64, ratingN: UInt32, ratings: map<Slot, RatingInfo>)

  function Project(b: Balloon): Persisted {
    Persisted(b.id, b.post, b.wall / NANOS, b.complete, b.ratingSum, b.ratingN, b.ratings)
  }

  /** A stored posting time of zero is read as "unknown" and replaced by the current time. */
  function Restore(p: Persisted, now: int): Balloon {
    Balloon(p.id, p.post, if p.wallUnix == 0 then now else p.wallUnix * NANOS,
            p.complete, map[], p.ratingSum, p.ratingN, p.ratings)
  }

  function ProjectAll(m: Store): map<Id, Persisted> {
    map id | id in m :: Project(m[id])
  }

  /** The file is a list; a later entry replaces an earlier one with the same id. */
  function AsMap(list: seq<Persisted>): map<Id, Persisted> {
    if list == [] then map[]
    else var p := list[|list| - 1]; AsMap(list[..|list| - 1])[p.id := p]
  }

  function Load(list: seq<Persisted>, now: int): Store {
    if list == [] then map[]
    else var p := list[|list| - 1]; Load(list[..|list| - 1], now)[p.id := Restore(p, now)]
  }

  /** The id counter a fresh process has after loading the list. */
  function NextAfter(list: seq<Persisted>): nat {
    if list == [] then 1
    else
      var n := NextAfter(list[..|list| - 1]);
      var p := list[|list| - 1];
      if p.id >= n then p.id + 1 else n
  }

  /** `list` is a flush of `m`, its records in any order. */
  predicate Flushes(list: seq<Persisted>, m: Store) {
    |list| == |m| && AsMap(list) == ProjectAll(m)
  }

  /** What a server that starts from nothing writes: positive ids, known posting times. */
  predicate GoodFile(list: seq<Persisted>) {
    forall id <- AsMap(list) :: id > 0 && AsMap(list)[id].wallUnix != 0
  }

  lemma {:induction false} LoadRestoresEach(list: seq<Persisted>, now: int)
    ensures Load(list, now) == map id | id in AsMap(list) :: Restore(AsMap(list)[id], now)
  {
    if list == [] {
    } else {
      LoadRestoresEach(list[..|list| - 1], now);
    }
  }

  lemma {:induction false} AsMapEntries(list: seq<Persisted>)
    ensures forall id <- AsMap(list) :: AsMap(list)[id].id == id && AsMap(list)[id] in list
    ensures forall p <- list :: p.id in AsMap(list)
  {
    if list == [] {
    } else {
      var l' := list[..|list| - 1];
      AsMapEntries(l');
      assert list == l' + [list[|list| - 1]];
    }
  }

  /** The counter is the least number at or above 1 that exceeds every id: independent of list order. */
  lemma {:induction false} NextAfterIsLeast(list: seq<Persisted>)
    ensures NextAfter(list) >= 1
    ensures forall p <- list :: p.id < NextAfter(list)
    ensures NextAfter(list) == 1 || exists p <- list :: p.id + 1 == NextAfter(list)
  {
    if list == [] {
    } else {
      var l' := list[..|list| - 1];
      var p := list[|list| - 1];
      NextAfterIsLeast(l');
      assert list == l' + [p];
      assert p in list;
    }
  }

  /** Records saved in any order and loaded again: buffers emptied, posting time cut to whole seconds. */
  lemma SaveLoadRoundTrip(m: Store, list: seq<Persisted>, now: int, id: Id)
    requires Flushes(list, m)
    ensures Load(list, now).Keys == m.Keys
    ensures id in m && m[id].wall / NANOS != 0 ==>
              Load(list, now)[id] == m[id].(buffers := map[], wall := m[id].wall / NANOS * NANOS)
    ensures id in m && m[id].wall / NANOS == 0 ==>
              Load(list, now)[id] == m[id].(buffers := map[], wall := now)
    ensures Load(list, now) == Apply(m, Restarted(now))
  {
    LoadRestoresEach(list, now);
    assert forall k :: k in Load(list, now) <==> k in m;
  }

  /** Loading keeps each record under its own id, below the reseeded counter. */
  lemma LoadReseedsIds(m: Store, list: seq<Persisted>, now: int)
    requires Flushes(list, m)
    requires forall id <- m :: m[id].id == id
    ensures forall id <- Load(list, now) :: Load(list, now)[id].id == id && id < NextAfter(list)
    ensures NextAfter(list) == 1 || NextAfter(list) - 1 in m
  {
    LoadRestoresEach(list, now);
    AsMapEntries(list);
    NextAfterIsLeast(list);
    if NextAfter(list) != 1 {
      var p :| p in list && p.id + 1 == NextAfter(list);
      assert p.id in AsMap(list);
    }
  }

  /** The reseeded counter depends on what was saved, not on the order it was written in. */
  lemma ReseedIgnoresOrder(m: Store, list: seq<Persisted>, other: seq<Persisted>)
    requires Flushes(list, m) && Flushes(other, m)
    ensures NextAfter(list) == NextAfter(other)
  {
    AsMapEntries(list);
    AsMapEntries(other);
    NextAfterIsLeast(list);
    NextAfterIsLeast(other);
    assert forall id :: id in AsMap(list) <==> id in AsMap(other);
  }
}
