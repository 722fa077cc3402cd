/** What each operation and each post comes to, field by field. */
module Meanings {
  import opened Words
  import opened Balloons

  /** `r` is `x` wrapped to 64 bits with sign, or to 32 bits without. */
  ghost predicate Wraps64(r: int, x: int) {
    -0x8000_0000_0000_0000 <= r < 0x8000_0000_0000_0000 && (r - x) % 0x1_0000_0000_0000_0000 == 0
  }

  ghost predicate Wraps32(r: int, x: int) {
    0 <= r < 0x1_0000_0000 && (r - x) % 0x1_0000_0000 == 0
  }

  lemma S64Wraps(x: int)
    ensures Wraps64(S64(x), x)
  {
    var k := (x + TWO_63) / TWO_64;
    assert S64(x) - x == -k * TWO_64;
  }

  lemma U32Wraps(x: int)
    ensures Wraps32(U32(x), x)
  {
    var k := x / TWO_32;
    assert U32(x) - x == -k * TWO_32;
  }

  /** A wire slot names the signed byte with its lowest eight bits. */
  lemma SlotIsLowByte(u: UInt32)
    ensures -128 <= SlotOf(u) < 128 && (u - SlotOf(u)) % 256 == 0
  {
  }

  // ----- posts, completions, removals ---------------------------------------------------------

  lemma PostMeans(m: Store, b: Balloon)
    ensures Apply(m, Posted(b)) == m[b.id := b]
  {
  }

  /** The record, if there is one, becomes complete; nothing else changes. */
  lemma CompletionMeans(m: Store, id: Id)
    ensures Apply(m, Completed(id)).Keys == m.Keys
    ensures forall i <- m :: Apply(m, Completed(id))[i] == if i == id then m[i].(complete := true) else m[i]
  {
  }

  /** The record, complete or not, is gone; nothing else changes. */
  lemma RemovalMeans(m: Store, id: Id)
    ensures Apply(m, Removed(id)) == m - {id}
  {
  }

  // ----- ratings ------------------------------------------------------------------------------

  /** One slot changes, from zero if it is new; both of its sums wrap. */
  lemma SlotRatingMeans(ratings: map<Slot, RatingInfo>, slot: Slot, value: Int64)
    ensures var now := AddRating(ratings, slot, value);
            && now.Keys == ratings.Keys + {slot}
            && (forall s <- ratings :: s != slot ==> now[s] == ratings[s])
            && var had := slot in ratings;
               && Wraps64(now[slot].total, (if had then ratings[slot].total else 0) + value)
               && Wraps32(now[slot].count, (if had then ratings[slot].count else 0) + 1)
               && now[slot].initial == if had then ratings[slot].initial else 0
  {
    var info := if slot in ratings then ratings[slot] else RatingInfo(0, 0, 0);
    S64Wraps(info.total + value);
    U32Wraps(info.count + 1);
  }

  /** A rating adds to the totals of its record and to one slot of it, which starts from zero; both wrap. */
  lemma RatingMeans(m: Store, id: Id, slot: Slot, value: Int64)
    ensures Apply(m, Rated(id, slot, value)).Keys == m.Keys
    ensures forall i <- m :: i != id ==> Apply(m, Rated(id, slot, value))[i] == m[i]
    ensures id in m ==>
              var was, now := m[id], Apply(m, Rated(id, slot, value))[id];
              && now == was.(ratingSum := now.ratingSum, ratingN := now.ratingN, ratings := now.ratings)
              && Wraps64(now.ratingSum, was.ratingSum + value) && Wraps32(now.ratingN, was.ratingN + 1)
              && now.ratings.Keys == was.ratings.Keys + {slot}
              && (forall s <- was.ratings :: s != slot ==> now.ratings[s] == was.ratings[s])
              && var had := slot in was.ratings;
                 && Wraps64(now.ratings[slot].total, (if had then was.ratings[slot].total else 0) + value)
                 && Wraps32(now.ratings[slot].count, (if had then was.ratings[slot].count else 0) + 1)
                 && now.ratings[slot].initial == if had then was.ratings[slot].initial else 0
  {
    if id in m {
      S64Wraps(m[id].ratingSum + value);
      U32Wraps(m[id].ratingN + 1);
      SlotRatingMeans(m[id].ratings, slot, value);
    }
  }

  // ----- buffer queues ------------------------------------------------------------------------

  /** A buffer goes to the end of the one queue that its wire slot names; nothing else changes. */
  lemma QueueingMeans(m: Store, id: Id, u: UInt32, buf: Blob, s: Slot)
    requires (u - s) % 256 == 0
    ensures Apply(m, Queued(id, u, buf)).Keys == m.Keys
    ensures forall i <- m :: i != id ==> Apply(m, Queued(id, u, buf))[i] == m[i]
    ensures id in m ==>
              var was := m[id].buffers;
              Apply(m, Queued(id, u, buf))[id] ==
                m[id].(buffers := was[s := if s in was then was[s] + [buf] else [buf]])
  {
    assert SlotOf(u) == s && [] + [buf] == [buf];
  }

  /** The one queue that the wire slot names is forgotten; nothing else changes. */
  lemma ClearingMeans(m: Store, id: Id, u: UInt32, s: Slot)
    requires (u - s) % 256 == 0
    ensures Apply(m, Cleared(id, u)).Keys == m.Keys
    ensures forall i <- m :: i != id ==> Apply(m, Cleared(id, u))[i] == m[i]
    ensures id in m ==> Apply(m, Cleared(id, u))[id] == m[id].(buffers := m[id].buffers - {s})
  {
    assert SlotOf(u) == s;
  }

  // ----- the data file ------------------------------------------------------------------------

  /** What a start makes of a record: no buffers, the time cut to seconds, or the current one if it was zero. */
  lemma RestartMeans(m: Store, now: int)
    ensures Apply(m, Restarted(now)).Keys == m.Keys
    ensures forall i <- m ::
              Apply(m, Restarted(now))[i] ==
                m[i].(buffers := map[], wall := var seconds := m[i].wall / 1_000_000_000;
                                                if seconds == 0 then now else seconds * 1_000_000_000)
  {
  }

  lemma {:induction false} LastEntryStays(list: seq<Persisted>, i: nat)
    requires i < |list| && forall j :: i < j < |list| ==> list[j].id != list[i].id
    ensures list[i].id in AsMap(list) && AsMap(list)[list[i].id] == list[i]
  {
    if i == |list| - 1 {
    } else {
      LastEntryStays(list[..|list| - 1], i);
    }
  }

  /** The last entry with its id is loaded, field by field, and no other id is. */
  lemma LoadMeans(list: seq<Persisted>, i: nat, now: int)
    requires i < |list| && forall j :: i < j < |list| ==> list[j].id != list[i].id
    ensures var p := list[i];
            && p.id in Load(list, now)
            && Load(list, now)[p.id] ==
                 Balloon(p.id, p.post, if p.wallUnix == 0 then now else p.wallUnix * 1_000_000_000, p.complete,
                         map[], p.ratingSum, p.ratingN, p.ratings)
    ensures forall id <- Load(list, now) :: exists p <- list :: p.id == id
  {
    LastEntryStays(list, i);
    LoadRestoresEach(list, now);
    AsMapEntries(list);
  }

  /** What a flush writes of a record. */
  lemma FlushMeans(m: Store, list: seq<Persisted>)
    requires Flushes(list, m) && forall id <- m :: m[id].id == id
    ensures |list| == |m|
    ensures forall p <- list :: p.id in m && var b := m[p.id];
              p == Persisted(b.id, b.post, b.wall / 1_000_000_000, b.complete, b.ratingSum, b.ratingN, b.ratings)
    ensures forall id <- m :: exists p <- list :: p.id == id
  {
    ListHasNoRepeats(list);
    AsMapEntries(list);
    assert ProjectAll(m).Keys == m.Keys && |ProjectAll(m)| == |ProjectAll(m).Keys|;
    forall id | id in m ensures exists p <- list :: p.id == id {
      assert id in ProjectAll(m) && AsMap(list)[id] in list;
    }
    forall p | p in list ensures p.id in m && AsMap(list)[p.id] == p {
      assert p.id in ProjectAll(m);
      assert AsMap(list)[p.id] == p;
    }
  }

  /** As many ids as entries: every entry is the one under its id. */
  lemma {:induction false} ListHasNoRepeats(list: seq<Persisted>)
    ensures |AsMap(list)| <= |list|
    ensures |AsMap(list)| == |list| ==> forall p <- list :: p.id in AsMap(list) && AsMap(list)[p.id] == p
  {
    if list == [] {
    } else {
      var before, p := list[..|list| - 1], list[|list| - 1];
      ListHasNoRepeats(before);
      AsMapEntries(before);
      assert list == before + [p];
      assert AsMap(list).Keys == AsMap(before).Keys + {p.id};
      if p.id in AsMap(before) {
        assert AsMap(list).Keys == AsMap(before).Keys;
        assert |AsMap(list)| == |AsMap(list).Keys| && |AsMap(before)| == |AsMap(before).Keys|;
      } else {
        assert |AsMap(list)| == |AsMap(list).Keys| && |AsMap(before)| == |AsMap(before).Keys|;
      }
    }
  }
}
