/** The record store as it runs: handlers that change records in place, each against its operation. */
module RecordStore {
  import opened Words
  import opened Options
  import opened Balloons
  import opened Search

  /** What a post carries once decoded. */
  datatype PostParam = PostParam(
    size: UInt32, name: string, dataType: UInt16, meta: Blob, tags: seq<string>,
    initials: map<Slot, Int64>, slot: Option<UInt16>)

  function PostingOf(pid: Pid, p: PostParam, now: nat): Posting {
    Posting(pid, p.size, p.name, p.dataType, p.meta, p.tags, now, now, p.slot)
  }

  datatype QueueParam = QueueParam(id: Id, wireSlot: UInt32)

  datatype Code = Success | NotFound

  /** Sorts the records a search collected and deals them into result sets. */
  method DealSorted(unsorted: seq<Balloon>, resultSetCount: Byte)
      returns (sets: seq<seq<Balloon>>, ghost pool: seq<Balloon>)
    ensures multiset(Flatten(sets)) == multiset(unsorted)
    ensures multiset(pool) == multiset(unsorted) && NewestFirst(pool)
    ensures RoundRobin(pool, SetCount(|pool|, if resultSetCount == 0 then 1 else resultSetCount), sets)
  {
    var count := resultSetCount;
    if count == 0 {
      count := 1;
    }
    var sorted := SortSlice(unsorted);
    pool := sorted;
    sets := SplitIntoSets(sorted, count);
  }

  /** Adds to every record of the result sets what goes with it. */
  method AnswerSets(sets: seq<seq<Balloon>>, ghost m: Store, stats: map<Pid, Id>,
                    ratings: map<Pid, map<Slot, RatingInfo>>, nameOf: Pid -> string)
      returns (answer: seq<seq<Offer>>)
    requires StatsOfOwners(m, m.Keys, stats, ratings)
    ensures Offers(answer, sets, m, nameOf)
  {
    answer := seq(|sets|, j requires 0 <= j < |sets| =>
                seq(|sets[j]|, k requires 0 <= k < |sets[j]| => OfferOf(sets[j][k], stats, ratings, nameOf)));
    forall j, k | 0 <= j < |sets| && 0 <= k < |sets[j]| ensures Accompanied(answer[j][k], m, nameOf) {
      OfferIsAccompanied(sets[j][k], m, stats, ratings, nameOf);
    }
  }

  /** All that a search does after it has released the lock. */
  method AnswerSearch(unsorted: seq<Balloon>, resultSetCount: Byte, ghost m: Store, stats: map<Pid, Id>,
                      ratings: map<Pid, map<Slot, RatingInfo>>, nameOf: Pid -> string)
      returns (answer: seq<seq<Offer>>, ghost sets: seq<seq<Balloon>>, ghost pool: seq<Balloon>)
    requires StatsOfOwners(m, m.Keys, stats, ratings)
    ensures multiset(pool) == multiset(unsorted) && NewestFirst(pool)
    ensures multiset(Flatten(sets)) == multiset(pool)
    ensures RoundRobin(pool, SetCount(|pool|, if resultSetCount == 0 then 1 else resultSetCount), sets)
    ensures Offers(answer, sets, m, nameOf)
  {
    var dealt;
    dealt, pool := DealSorted(unsorted, resultSetCount);
    sets := dealt;
    answer := AnswerSets(dealt, m, stats, ratings, nameOf);
  }

  /** The records under these ids. */
  function Pick(m: Store, ids: set<Id>): set<Balloon> {
    set id | id in ids && id in m :: m[id]
  }

  lemma PickOneMore(pool: seq<Balloon>, m: Store, done: set<Id>, id: Id)
    requires id in m && id !in done && (forall k <- m :: m[k].id == k)
    requires multiset(pool) == multiset(Pick(m, done))
    ensures multiset(pool + [m[id]]) == multiset(Pick(m, done + {id}))
  {
    assert Pick(m, done + {id}) == Pick(m, done) + {m[id]};
    assert m[id] !in Pick(m, done);
  }

  /** A loop that takes `id` off what is left picks its record if it is one of `ids`. */
  lemma PickNext(pool: seq<Balloon>, m: Store, ids: set<Id>, left: set<Id>, id: Id)
    requires id in m && id in left && (forall k <- m :: m[k].id == k)
    requires multiset(pool) == multiset(Pick(m, ids - left))
    ensures multiset(if id in ids then pool + [m[id]] else pool) == multiset(Pick(m, ids - (left - {id})))
  {
    if id in ids {
      PickOneMore(pool, m, ids - left, id);
      assert ids - (left - {id}) == ids - left + {id};
    } else {
      assert ids - (left - {id}) == ids - left;
    }
  }

  /** The newest stats record of the player among these, if any. */
  ghost predicate StatsAmong(m: Store, ids: set<Id>, pid: Pid, stats: Option<Id>) {
    && ids <= m.Keys
    && match stats
       case Some(r) => NewestAmong(m, ids, pid, r)
       case None => forall id <- ids :: !Active(m[id], (pid, STATS_TYPE))
  }

  /** Each owner with a stats record among these is listed with a newest one and its ratings. */
  ghost predicate StatsOfOwners(m: Store, ids: set<Id>, stats: map<Pid, Id>,
                                ratings: map<Pid, map<Slot, RatingInfo>>)
    requires ids <= m.Keys
  {
    && ratings.Keys == stats.Keys
    && (forall owner <- stats :: NewestAmong(m, ids, owner, stats[owner]) && ratings[owner] == m[stats[owner]].ratings)
    && (forall id <- ids, owner :: Active(m[id], (owner, STATS_TYPE)) ==> owner in stats)
  }

  lemma StatsOfOwnersNext(m: Store, left: set<Id>, stats: map<Pid, Id>, ratings: map<Pid, map<Slot, RatingInfo>>, id: Id)
    requires StatsOfOwners(m, m.Keys - left, stats, ratings) && id in m && id in left
    ensures var b, owner, seen := m[id], m[id].post.owner, m.Keys - (left - {id});
            if Active(b, (owner, STATS_TYPE))
               && (owner !in stats || b.post.createdAt >= m[stats[owner]].post.createdAt)
            then StatsOfOwners(m, seen, stats[owner := id], ratings[owner := b.ratings])
            else StatsOfOwners(m, seen, stats, ratings)
  {
    assert m.Keys - (left - {id}) == m.Keys - left + {id};
  }

  /** A loop that takes `id` off what is left keeps the newest stats record of this player. */
  lemma StatsAmongNext(m: Store, left: set<Id>, pid: Pid, stats: Option<Id>, id: Id)
    requires StatsAmong(m, m.Keys - left, pid, stats) && id in m && id in left
    ensures var better := Active(m[id], (pid, STATS_TYPE))
                          && (stats.None? || m[id].post.createdAt > m[stats.value].post.createdAt);
            StatsAmong(m, m.Keys - (left - {id}), pid, if better then Some(id) else stats)
  {
  }

  lemma NoneSeen(mine: seq<Balloon>, m: Store, ids: set<Id>, seen: set<Id>)
    requires multiset(mine) == multiset(Pick(m, ids))
    requires forall id <- ids :: id in m ==> m[id].id !in seen
    ensures forall i :: 0 <= i < |mine| ==> mine[i].id !in seen
  {
    forall i | 0 <= i < |mine| ensures mine[i].id !in seen {
      assert mine[i] in multiset(mine);
      assert mine[i] in Pick(m, ids);
    }
  }

  function CompleteIds(m: Store, dataType: UInt16): set<Id> {
    set id | id in m && m[id].complete && (dataType == 0 || m[id].post.dataType == dataType)
  }

  lemma PoolHasNoRepeats(pool: seq<Balloon>, all: set<Balloon>)
    requires multiset(pool) == multiset(all)
    ensures forall a, b :: 0 <= a < b < |pool| ==> pool[a] != pool[b]
  {
    forall a, b | 0 <= a < b < |pool| ensures pool[a] != pool[b] {
      assert pool == pool[..b] + pool[b..];
      assert pool[a] in pool[..b] && pool[b] in pool[b..];
      assert multiset(pool)[pool[a]] <= 1;
    }
  }

  /** The first hundred of a sorted list hold nothing older than what is cut off. */
  lemma CutOff(sorted: seq<Balloon>)
    requires NewestFirst(sorted)
    ensures var top := if |sorted| > 100 then sorted[..100] else sorted;
            && |top| <= 100 && top <= sorted && (forall b <- top :: b in sorted)
            && forall b <- sorted :: b in top || (|top| == 100 && forall o <- top :: b.post.createdAt <= o.post.createdAt)
  {
    var top := if |sorted| > 100 then sorted[..100] else sorted;
    forall i | 0 <= i < |sorted|
      ensures sorted[i] in top || (|top| == 100 && forall b <- top :: sorted[i].post.createdAt <= b.post.createdAt)
    {
      if i < |top| {
        assert top[i] == sorted[i];
      }
    }
  }

  /** The first hundred of the sorted matches: all of them, or none older than what is cut off. */
  lemma TopOfSorted(m: Store, dataType: UInt16, sorted: seq<Balloon>)
    requires forall id <- m :: m[id].id == id
    requires NewestFirst(sorted) && multiset(sorted) == multiset(Pick(m, CompleteIds(m, dataType)))
    ensures var top := if |sorted| > 100 then sorted[..100] else sorted;
            && (forall b <- top :: b.id in m && m[b.id] == b && b.complete && (dataType == 0 || b.post.dataType == dataType))
            && (forall i, j :: 0 <= i < j < |top| ==>
                  top[i].id != top[j].id && top[i].post.createdAt >= top[j].post.createdAt)
            && forall id <- m :: m[id].complete && (dataType == 0 || m[id].post.dataType == dataType) ==>
                 || m[id] in top
                 || (|top| == 100 && forall b <- top :: m[id].post.createdAt <= b.post.createdAt)
  {
    SortedMatches(m, dataType, sorted);
    CutOff(sorted);
  }

  /** A list of the matches in some order: each once, as it is stored, and nothing else. */
  lemma SortedMatches(m: Store, dataType: UInt16, sorted: seq<Balloon>)
    requires forall id <- m :: m[id].id == id
    requires multiset(sorted) == multiset(Pick(m, CompleteIds(m, dataType)))
    ensures forall b <- sorted :: b.id in m && m[b.id] == b && b.complete && (dataType == 0 || b.post.dataType == dataType)
    ensures forall i, j :: 0 <= i < j < |sorted| ==> sorted[i].id != sorted[j].id
    ensures forall id <- m :: m[id].complete && (dataType == 0 || m[id].post.dataType == dataType) ==> m[id] in sorted
  {
    var all := Pick(m, CompleteIds(m, dataType));
    PoolHasNoRepeats(sorted, all);
    forall b | b in sorted
      ensures b.id in m && m[b.id] == b && b.complete && (dataType == 0 || b.post.dataType == dataType)
    {
      assert b in multiset(sorted);
      assert b in all;
    }
    forall i, j | 0 <= i < j < |sorted| ensures sorted[i].id != sorted[j].id {
      assert sorted[i] in sorted && sorted[j] in sorted;
    }
    forall id | id in m && m[id].complete && (dataType == 0 || m[id].post.dataType == dataType)
      ensures m[id] in sorted
    {
      assert id in CompleteIds(m, dataType) && m[id] in all;
      assert m[id] in multiset(sorted);
    }
  }

  lemma InSetsIsPicked(m: Store, ids: set<Id>, pool: seq<Balloon>, n: nat, sets: seq<seq<Balloon>>, j: nat, k: nat)
    requires RoundRobin(pool, n, sets) && multiset(pool) == multiset(Pick(m, ids))
    requires j < |sets| && k < |sets[j]| && forall i <- m :: m[i].id == i
    ensures sets[j][k].id in ids && sets[j][k].id in m && sets[j][k] == m[sets[j][k].id]
  {
    var b := sets[j][k];
    assert Cell(k, n, j) < |pool| && b == pool[Cell(k, n, j)];
    assert b in multiset(pool);
    assert b in Pick(m, ids);
  }

  /** What a search answers: each eligible record at exactly one place, and nothing else. */
  lemma OfferedExactlyOnce(m: Store, ids: set<Id>, pool: seq<Balloon>, n: nat, sets: seq<seq<Balloon>>, id: Id)
      returns (j: nat, k: nat)
    requires n > 0 && RoundRobin(pool, n, sets) && multiset(pool) == multiset(Pick(m, ids))
    requires id in ids && id in m && forall i <- m :: m[i].id == i
    ensures j < |sets| && k < |sets[j]| && sets[j][k] == m[id]
    ensures forall j', k' :: 0 <= j' < |sets| && 0 <= k' < |sets[j']| ==>
              sets[j'][k'].id in ids && ((j', k') != (j, k) ==> sets[j'][k'].id != id)
  {
    assert m[id] in Pick(m, ids);
    assert m[id] in multiset(pool);
    j, k := PlaceOf(pool, n, sets, m[id]);
    PoolHasNoRepeats(pool, Pick(m, ids));
    forall j', k' | 0 <= j' < |sets| && 0 <= k' < |sets[j']|
      ensures sets[j'][k'].id in ids && ((j', k') != (j, k) ==> sets[j'][k'].id != id)
    {
      InSetsIsPicked(m, ids, pool, n, sets, j', k');
      if (j', k') != (j, k) {
        NoRepeats(pool, n, sets, j, k, j', k');
      }
    }
  }

  /** An empty list of types asks for every type. */
  predicate Wanted(types: seq<UInt16>, t: UInt16) {
    types == [] || t in types
  }

  function OwnIds(m: Store, pid: Pid, types: seq<UInt16>): set<Id> {
    set id | id in m && m[id].complete && m[id].post.owner == pid
             && m[id].post.dataType != STATS_TYPE && Wanted(types, m[id].post.dataType)
  }

  /** One result of a search: a record and what goes with it; no friends are known here. */
  datatype Offer = Offer(b: Balloon, ownerDataId: Id, ownerName: string, isFriend: bool, ownerRatings: map<Slot, RatingInfo>)

  function OfferOf(b: Balloon, stats: map<Pid, Id>, ratings: map<Pid, map<Slot, RatingInfo>>, nameOf: Pid -> string): Offer {
    var owner := b.post.owner;
    Offer(b, if owner in stats then stats[owner] else 0, nameOf(owner), false,
          if owner in ratings then ratings[owner] else map[])
  }

  predicate HasStats(m: Store, owner: Pid) {
    exists id <- m :: Active(m[id], (owner, STATS_TYPE))
  }

  /** With the record go its owner's name, and a newest stats record of the owner if there is one. */
  ghost predicate Accompanied(o: Offer, m: Store, nameOf: Pid -> string) {
    && o.ownerName == nameOf(o.b.post.owner) && !o.isFriend
    && if HasStats(m, o.b.post.owner)
       then NewestAmong(m, m.Keys, o.b.post.owner, o.ownerDataId) && o.ownerRatings == m[o.ownerDataId].ratings
       else o.ownerDataId == 0 && o.ownerRatings == map[]
  }

  lemma OfferIsAccompanied(b: Balloon, m: Store, stats: map<Pid, Id>, ratings: map<Pid, map<Slot, RatingInfo>>,
                           nameOf: Pid -> string)
    requires StatsOfOwners(m, m.Keys, stats, ratings)
    ensures Accompanied(OfferOf(b, stats, ratings, nameOf), m, nameOf)
  {
    var owner := b.post.owner;
    if owner in stats {
      assert NewestAmong(m, m.Keys, owner, stats[owner]);
    } else {
      assert forall id <- m.Keys :: !Active(m[id], (owner, STATS_TYPE));
    }
  }

  /** The sets as they are sent, each record with what goes with it. */
  ghost predicate Offers(answer: seq<seq<Offer>>, sets: seq<seq<Balloon>>, m: Store, nameOf: Pid -> string) {
    && |answer| == |sets|
    && forall j :: 0 <= j < |sets| ==>
         && |answer[j]| == |sets[j]|
         && forall k :: 0 <= k < |sets[j]| ==> answer[j][k].b == sets[j][k] && Accompanied(answer[j][k], m, nameOf)
  }

  /** The offers are the records that the filter lets through, field by field, each in one place. */
  lemma OffersAreEligible(m: Store, pid: Pid, want: UInt16, seen: set<Id>, pool: seq<Balloon>, count: Byte,
                          sets: seq<seq<Balloon>>, answer: seq<seq<Offer>>, nameOf: Pid -> string)
    requires forall i <- m :: m[i].id == i
    requires multiset(pool) == multiset(Pick(m, EligibleIds(m, pid, want, seen)))
    requires RoundRobin(pool, SetCount(|pool|, if count == 0 then 1 else count), sets) && Offers(answer, sets, m, nameOf)
    ensures forall j, k :: 0 <= j < |answer| && 0 <= k < |answer[j]| ==>
              var b := answer[j][k].b;
              && b.id in m && m[b.id] == b && b.complete && b.post.owner != pid && b.post.dataType != 200
              && (want == 0 || b.post.dataType == want) && b.id !in seen
    ensures forall id <- m ::
              && m[id].complete && m[id].post.owner != pid && m[id].post.dataType != 200
              && (want == 0 || m[id].post.dataType == want) && id !in seen ==>
                exists j, k :: 0 <= j < |answer| && 0 <= k < |answer[j]| && answer[j][k].b == m[id]
    ensures forall j, k, j', k' :: 0 <= j < |answer| && 0 <= k < |answer[j]| && 0 <= j' < |answer| && 0 <= k' < |answer[j']| ==>
              (j, k) == (j', k') || answer[j][k].b.id != answer[j'][k'].b.id
  {
    var n, ids := SetCount(|pool|, if count == 0 then 1 else count), EligibleIds(m, pid, want, seen);
    forall j, k | 0 <= j < |sets| && 0 <= k < |sets[j]|
      ensures sets[j][k].id in ids && sets[j][k].id in m && sets[j][k] == m[sets[j][k].id]
    {
      InSetsIsPicked(m, ids, pool, n, sets, j, k);
    }
    forall id | id in ids ensures exists j, k :: 0 <= j < |answer| && 0 <= k < |answer[j]| && answer[j][k].b == m[id] {
      var j, k := OfferedExactlyOnce(m, ids, pool, n, sets, id);
      assert answer[j][k].b == m[id];
    }
    forall j, k, j', k' | 0 <= j < |answer| && 0 <= k < |answer[j]| && 0 <= j' < |answer| && 0 <= k' < |answer[j']|
                          && (j, k) != (j', k')
      ensures answer[j][k].b.id != answer[j'][k'].b.id
    {
      PoolHasNoRepeats(pool, Pick(m, ids));
      NoRepeats(pool, n, sets, j, k, j', k');
    }
  }

  /** How the offers are dealt: as many sets as asked for, at most one each, in turn and newest first in each. */
  lemma OffersAreDealt(pool: seq<Balloon>, count: Byte, sets: seq<seq<Balloon>>)
    requires RoundRobin(pool, SetCount(|pool|, if count == 0 then 1 else count), sets) && NewestFirst(pool)
    ensures |sets| == var c := if count == 0 then 1 else count; if 0 < |pool| < c then |pool| else c
    ensures forall j, k, k' :: 0 <= j < |sets| && 0 <= k < k' < |sets[j]| ==>
              sets[j][k].post.createdAt >= sets[j][k'].post.createdAt
  {
    forall j | 0 <= j < |sets|
      ensures forall a, b :: 0 <= a < b < |sets[j]| ==> sets[j][a].post.createdAt >= sets[j][b].post.createdAt
    {
      SetsKeepOrder(pool, |sets|, sets, j);
    }
  }

  /** What goes with an offer: the owner's name, and a newest complete stats record of the owner, or zeros. */
  lemma OfferMeans(o: Offer, m: Store, nameOf: Pid -> string, id: Id)
    requires Accompanied(o, m, nameOf)
    ensures o.ownerName == nameOf(o.b.post.owner) && !o.isFriend
    ensures id in m && m[id].complete && m[id].post.owner == o.b.post.owner && m[id].post.dataType == 200 ==>
              && o.ownerDataId in m && var stats := m[o.ownerDataId];
              && stats.complete && stats.post.owner == o.b.post.owner && stats.post.dataType == 200
              && stats.post.createdAt >= m[id].post.createdAt && o.ownerRatings == stats.ratings
    ensures (forall i <- m :: !m[i].complete || m[i].post.owner != o.b.post.owner || m[i].post.dataType != 200) ==>
              o.ownerDataId == 0 && o.ownerRatings == map[]
  {
  }

  /** What a listing says of one of the player's own balloons. */
  datatype OwnInfo = OwnInfo(
    id: Id, dataType: UInt16, meta: Blob, createdAt: nat, updatedAt: nat, cleared: bool,
    ratings: map<Slot, RatingInfo>, buffers: map<Slot, seq<Blob>>)

  function OwnInfoOf(b: Balloon, cleared: bool): OwnInfo {
    OwnInfo(b.id, b.post.dataType, b.post.meta, b.post.createdAt, b.post.updatedAt, cleared, b.ratings, map[])
  }

  /** What a listing says of the player's stats record; it is dated with the time of the answer. */
  datatype StatsInfo = StatsInfo(
    id: Id, dataType: UInt16, meta: Blob, at: nat, ratings: map<Slot, RatingInfo>, buffers: map<Slot, seq<Blob>>)

  /** The part of a listing about stats: a newest complete stats record of the player as it is stored, else zeros. */
  ghost predicate SendsStats(m: Store, pid: Pid, at: nat, stats: Option<Id>, answer: StatsInfo) {
    && answer.at == at && answer.buffers == map[]
    && match stats
       case Some(r) =>
         && r in m && m[r].complete && m[r].post.owner == pid && m[r].post.dataType == 200
         && (forall id <- m :: m[id].complete && m[id].post.owner == pid && m[id].post.dataType == 200 ==>
               m[id].post.createdAt <= m[r].post.createdAt)
         && answer.id == r && answer.dataType == 200
         && answer.meta == m[r].post.meta && answer.ratings == m[r].ratings
       case None =>
         && (forall id <- m :: !m[id].complete || m[id].post.owner != pid || m[id].post.dataType != 200)
         && answer.id == 0 && answer.dataType == 0 && answer.meta == [] && answer.ratings == map[]
  }

  lemma StatsAreSent(m: Store, pid: Pid, at: nat, stats: Option<Id>, answer: StatsInfo)
    requires StatsAmong(m, m.Keys, pid, stats) && forall id <- m :: m[id].id == id
    requires answer == if stats.None? then StatsInfo(0, 0, [], at, map[], map[])
                       else var b := m[stats.value]; StatsInfo(b.id, b.post.dataType, b.post.meta, at, b.ratings, map[])
    ensures SendsStats(m, pid, at, stats, answer)
  {
  }

  /** The list of a listing: each of the player's balloons of the types asked for, as it is stored and never cleared. */
  lemma ListingMeans(m: Store, pid: Pid, types: seq<UInt16>, mine: seq<Balloon>, infos: seq<OwnInfo>)
    requires forall id <- m :: m[id].id == id
    requires multiset(mine) == multiset(Pick(m, OwnIds(m, pid, types))) && NewestFirst(mine)
    requires |infos| == |mine| && forall i :: 0 <= i < |infos| ==> infos[i] == OwnInfoOf(mine[i], false)
    ensures forall i :: 0 <= i < |infos| ==>
              var o := infos[i];
              && o.id in m && var b := m[o.id];
              && b.complete && b.post.owner == pid && b.post.dataType != 200 && (types == [] || b.post.dataType in types)
              && o.dataType == b.post.dataType && o.meta == b.post.meta && o.createdAt == b.post.createdAt
              && o.updatedAt == b.post.updatedAt && o.ratings == b.ratings && o.buffers == map[] && !o.cleared
    ensures forall id <- m ::
              && m[id].complete && m[id].post.owner == pid && m[id].post.dataType != 200
              && (types == [] || m[id].post.dataType in types) ==>
                exists i :: 0 <= i < |infos| && infos[i].id == id
    ensures forall i, j :: 0 <= i < j < |infos| ==> infos[i].id != infos[j].id && infos[i].createdAt >= infos[j].createdAt
  {
    var ids := OwnIds(m, pid, types);
    forall i | 0 <= i < |mine| ensures mine[i].id in ids && mine[i].id in m && mine[i] == m[mine[i].id] {
      assert mine[i] in multiset(mine);
      assert mine[i] in Pick(m, ids);
    }
    forall id | id in m && m[id].complete && m[id].post.owner == pid && m[id].post.dataType != 200
                && (types == [] || m[id].post.dataType in types)
      ensures exists i :: 0 <= i < |infos| && infos[i].id == id
    {
      assert id in ids;
      assert m[id] in Pick(m, ids);
      assert m[id] in multiset(mine);
      var i :| 0 <= i < |mine| && mine[i] == m[id];
      assert infos[i].id == id;
    }
    PoolHasNoRepeats(mine, Pick(m, ids));
  }

  /** `b` is posted, and one other complete record of its owner and type is removed, if there is any. */
  ghost predicate PostReplaces(before: Store, after: Store, b: Balloon, victim: Option<Id>) {
    match victim
    case Some(o) =>
      && o in before && o != b.id && before[o].complete
      && before[o].post.owner == b.post.owner && before[o].post.dataType == b.post.dataType
      && after == before[b.id := b] - {o}
    case None =>
      && (forall o <- before :: o == b.id || !before[o].complete
                                || before[o].post.owner != b.post.owner || before[o].post.dataType != b.post.dataType)
      && after == before[b.id := b]
  }

  /** What the clean-up finds among the records with `b` in place is what there was besides `b` before. */
  lemma ReplacesBeside(before: Store, posted: Store, b: Balloon, victim: Option<Id>)
    requires posted == before[b.id := b]
    requires victim.None? ==>
               forall o <- posted :: o == b.id || !posted[o].complete
                 || posted[o].post.owner != b.post.owner || posted[o].post.dataType != b.post.dataType
    requires victim.Some? ==>
               && victim.value in before && victim.value != b.id && before[victim.value].complete
               && before[victim.value].post.owner == b.post.owner && before[victim.value].post.dataType == b.post.dataType
    ensures PostReplaces(before, if victim.Some? then posted - {victim.value} else posted, b, victim)
  {
    assert forall o <- before :: o in posted;
  }

  lemma PostedStays(before: Store, after: Store, b: Balloon, victim: Option<Id>)
    requires PostReplaces(before, after, b, victim)
    ensures b.id in after && after[b.id] == b
  {
  }

  predicate InSlot(b: Balloon, owner: Pid, slot: UInt16) {
    && b.complete && b.post.owner == owner && b.post.dataType != STATS_TYPE
    && (b.post.slot == None || b.post.slot.value == slot)
  }

  lemma FewerValues<K, V>(m: map<K, V>, keys: set<K>)
    ensures (m - keys).Values <= m.Values
  {
    forall v | v in (m - keys).Values ensures v in m.Values {
      var k :| k in m - keys && (m - keys)[k] == v;
      assert k in m && m[k] == v;
    }
  }

  /** All records but those left are on the list. */
  predicate Listed(recs: seq<Persisted>, m: Store, left: set<Id>) {
    left <= m.Keys && |recs| + |left| == |m.Keys| && AsMap(recs) == map id | id in m.Keys - left :: Project(m[id])
  }

  lemma ListedOneMore(recs: seq<Persisted>, m: Store, left: set<Id>, id: Id)
    requires Listed(recs, m, left) && id in left && m[id].id == id
    ensures Listed(recs + [Project(m[id])], m, left - {id})
  {
    assert (recs + [Project(m[id])])[..|recs|] == recs;
  }

  lemma ListedAll(recs: seq<Persisted>, m: Store)
    requires Listed(recs, m, {})
    ensures Flushes(recs, m)
  {
    assert m.Keys - {} == m.Keys;
  }

  predicate Targets(op: Op, id: Id) {
    match op
    case Rated(i, _, _) => i == id
    case Queued(i, _, _) => i == id
    case Cleared(i, _) => i == id
    case _ => false
  }

  /** A batch on `m0` that has answered its first |results| operations has come to `m`. */
  ghost predicate Batch(m0: Store, m: Store, ops: seq<Op>, results: seq<Code>) {
    && |results| <= |ops|
    && m == Replay(m0, ops[..|results|]) && m.Keys == m0.Keys
    && forall j, id :: 0 <= j < |results| && Targets(ops[j], id) ==> (results[j] == Success <==> id in m0)
  }

  lemma BatchStep(m0: Store, m: Store, m': Store, ops: seq<Op>, results: seq<Code>, result: Code)
    requires Batch(m0, m, ops, results) && |results| < |ops|
    requires m' == Apply(m, ops[|results|]) && m'.Keys == m.Keys
    requires forall id :: Targets(ops[|results|], id) ==> (result == Success <==> id in m)
    ensures Batch(m0, m', ops, results + [result])
  {
    assert ops[..|results| + 1][..|results|] == ops[..|results|];
  }

  /** A batch whose parameters outnumber its operations: those left over are answered NotFound. */
  ghost predicate PartBatch(m0: Store, m: Store, ops: seq<Op>, results: seq<Code>) {
    var n := if |results| < |ops| then |results| else |ops|;
    Batch(m0, m, ops, results[..n]) && forall j :: |ops| <= j < |results| ==> results[j] == NotFound
  }

  lemma PartBatchStep(m0: Store, m: Store, m': Store, ops: seq<Op>, results: seq<Code>, result: Code)
    requires PartBatch(m0, m, ops, results) && |results| < |ops|
    requires m' == Apply(m, ops[|results|]) && m'.Keys == m.Keys
    requires forall id :: Targets(ops[|results|], id) ==> (result == Success <==> id in m)
    ensures PartBatch(m0, m', ops, results + [result])
  {
    assert results[..|results|] == results;
    BatchStep(m0, m, m', ops, results, result);
    assert (results + [result])[..|results| + 1] == results + [result];
  }

  lemma PartBatchSkip(m0: Store, m: Store, ops: seq<Op>, results: seq<Code>)
    requires PartBatch(m0, m, ops, results) && |results| >= |ops|
    ensures PartBatch(m0, m, ops, results + [NotFound])
  {
    assert (results + [NotFound])[..|ops|] == results[..|ops|];
  }

  lemma PartBatchDone(m0: Store, m: Store, ops: seq<Op>, results: seq<Code>)
    requires PartBatch(m0, m, ops, results) && |results| >= |ops|
    ensures m == Replay(m0, ops)
    ensures forall j, id :: 0 <= j < |ops| && Targets(ops[j], id) ==> (results[j] == Success <==> id in m0)
    ensures forall j :: |ops| <= j < |results| ==> results[j] == NotFound
  {
    var done := results[..|ops|];
    assert ops[..|done|] == ops;
    assert forall j :: 0 <= j < |ops| ==> done[j] == results[j];
  }

  /** The ratings a batch applies: targets and values paired up to the shorter list. */
  function PairUp(targets: seq<(Id, Slot)>, values: seq<Int64>): (ops: seq<Op>)
    ensures |ops| == if |values| < |targets| then |values| else |targets|
    ensures forall i :: 0 <= i < |ops| ==> ops[i] == Rated(targets[i].0, targets[i].1, values[i])
  {
    seq(if |values| < |targets| then |values| else |targets|,
        i requires 0 <= i < |values| && i < |targets| => Rated(targets[i].0, targets[i].1, values[i]))
  }

  function QueueOps(params: seq<QueueParam>, buffers: seq<Blob>): (ops: seq<Op>)
    ensures |ops| == if |buffers| < |params| then |buffers| else |params|
    ensures forall i :: 0 <= i < |ops| ==> ops[i] == Queued(params[i].id, params[i].wireSlot, buffers[i])
  {
    seq(if |buffers| < |params| then |buffers| else |params|,
        i requires 0 <= i < |buffers| && i < |params| => Queued(params[i].id, params[i].wireSlot, buffers[i]))
  }

  function ClearOps(params: seq<QueueParam>): (ops: seq<Op>)
    ensures |ops| == |params|
    ensures forall i :: 0 <= i < |ops| ==> ops[i] == Cleared(params[i].id, params[i].wireSlot)
  {
    seq(|params|, i requires 0 <= i < |params| => Cleared(params[i].id, params[i].wireSlot))
  }

  class BalloonRecord {
    const id: Id
    const post: Posting
    const wall: int
    var complete: bool
    var buffers: map<Slot, seq<Blob>>
    var ratingSum: Int64
    var ratingN: UInt32
    var ratings: map<Slot, RatingInfo>

    function Value(): Balloon
      reads this
    {
      Balloon(id, post, wall, complete, buffers, ratingSum, ratingN, ratings)
    }

    constructor (b: Balloon)
      ensures Value() == b
    {
      id, post, wall := b.id, b.post, b.wall;
      complete, buffers := b.complete, b.buffers;
      ratingSum, ratingN, ratings := b.ratingSum, b.ratingN, b.ratings;
    }

    /** Applies one rating to a slot; the per-record totals are the caller's. */
    method AddRating(slot: Slot, value: Int64)
      modifies this`ratings
      ensures ratings == Balloons.AddRating(old(ratings), slot, value)
    {
      var info := if slot in ratings then ratings[slot] else RatingInfo(0, 0, 0);
      info := info.(total := S64(info.total + value));
      info := info.(count := U32(info.count + 1));
      ratings := ratings[slot := info];
    }
  }

  class DataStore {
    var records: map<Id, BalloonRecord>
    var nextId: nat
    var dirty: bool
    var found: map<Pid, set<Id>>

    /** A mark names an id already drawn and, while its record lives, one of another owner. */
    ghost predicate MarkOk(pid: Pid, id: Id)
      reads this`records, this`nextId
    {
      id < nextId && (id in records ==> records[id].post.owner != pid)
    }

    /** Records sit under their own ids, below the counter; no player holds a mark on an own record. */
    ghost predicate Valid()
      reads this`records, this`nextId, this`found
    {
      && nextId > 0
      && (forall id <- records :: records[id].id == id && id < nextId)
      && (forall pid <- found, id <- found[pid] :: MarkOk(pid, id))
    }

    ghost function View(): Store
      reads this`records, records.Values
    {
      map id | id in records :: records[id].Value()
    }

    /** If `r` is all that was written or placed, only its entry of the view has changed. */
    twostate lemma OneChanged(new r: BalloonRecord)
      requires old(Valid()) && records == old(records)[r.id := r]
      requires forall o <- old(records).Values :: o != r ==> unchanged(o)
      ensures View() == old(View())[r.id := r.Value()]
    {
      forall id | id in records && id != r.id ensures id in old(View()) && View()[id] == old(View())[id] {
        assert old(records)[id] in old(records).Values && records[id] != r;
      }
    }

    // ----- loading and flushing ---------------------------------------------------------------

    method LoadOne(p: Persisted, now: int)
      requires Valid() && found == map[]
      modifies this`records, this`nextId
      ensures Valid() && fresh(records.Values - old(records.Values))
      ensures View() == old(View())[p.id := Restore(p, now)]
      ensures nextId == if p.id >= old(nextId) then p.id + 1 else old(nextId)
    {
      var r := new BalloonRecord(Restore(p, now));
      records := records[p.id := r];
      OneChanged(r);
      if p.id >= nextId {
        nextId := p.id + 1;
      }
    }

    /** A fresh process that loads the file. */
    constructor (list: seq<Persisted>, now: int)
      ensures Valid() && fresh(records.Values)
      ensures View() == Load(list, now) && nextId == NextAfter(list) && !dirty && found == map[]
    {
      records, nextId, dirty, found := map[], 1, false, map[];
      new;
      var i := 0;
      while i < |list|
        invariant 0 <= i <= |list| && Valid() && !dirty && found == map[]
        invariant fresh(records.Values)
        invariant View() == Load(list[..i], now) && nextId == NextAfter(list[..i])
      {
        assert list[..i + 1][..i] == list[..i];
        LoadOne(list[i], now);
        i := i + 1;
      }
      assert list[..i] == list;
    }

    /** One turn of the flusher: takes the dirty flag, then lists every record in some order. */
    method Flush() returns (list: Option<seq<Persisted>>)
      requires Valid()
      modifies this`dirty
      ensures Valid() && !dirty && View() == old(View())
      ensures list.Some? <==> old(dirty)
      ensures list.Some? ==> Flushes(list.value, View())
    {
      if !dirty {
        return None;
      }
      dirty := false;
      var recs := ListRecords();
      list := Some(recs);
    }

    method ListRecords() returns (recs: seq<Persisted>)
      requires Valid()
      ensures Flushes(recs, View())
    {
      recs := [];
      var left := records.Keys;
      ghost var m := View();
      assert m.Keys == records.Keys;
      while left != {}
        invariant left <= records.Keys
        invariant Listed(recs, m, left)
      {
        var id :| id in left;
        ListedOneMore(recs, m, left, id);
        recs, left := recs + [Project(records[id].Value())], left - {id};
      }
      ListedAll(recs, m);
    }

    // ----- posting ----------------------------------------------------------------------------

    /** Draws the next id; the record is inserted in a later section. */
    method DrawId() returns (id: Id)
      requires Valid()
      modifies this`nextId
      ensures Valid() && id == old(nextId) && nextId == id + 1
      ensures 0 < id && id !in records && forall pid <- found :: id !in found[pid]
    {
      id := nextId;
      nextId := nextId + 1;
    }

    method Insert(b: Balloon)
      requires Valid() && b.id < nextId && b.id !in records
      requires forall pid <- found :: b.id !in found[pid]
      modifies this`records
      ensures Valid() && fresh(records.Values - old(records.Values))
      ensures View() == Apply(old(View()), Posted(b))
    {
      var r := new BalloonRecord(b);
      records := records[b.id := r];
    }

    /** The part both posts share: draw an id, build the record, insert it, mark dirty. */
    method Post(pid: Pid, p: PostParam, now: nat, wall: int, complete: bool) returns (id: Id)
      requires Valid()
      modifies this`records, this`nextId, this`dirty
      ensures Valid() && fresh(records.Values - old(records.Values))
      ensures id == old(nextId) && nextId == id + 1 && dirty && id !in old(View())
      ensures View() == Apply(old(View()), Posted(NewBalloon(id, PostingOf(pid, p, now), wall, complete, p.initials)))
    {
      id := DrawId();
      Insert(NewBalloon(id, PostingOf(pid, p, now), wall, complete, p.initials));
      dirty := true;
    }

    method PreparePostObject(pid: Pid, p: PostParam, now: nat, wall: int) returns (id: Id)
      requires Valid()
      modifies this`records, this`nextId, this`dirty
      ensures Valid() && fresh(records.Values - old(records.Values))
      ensures id == old(nextId) && nextId == id + 1 && dirty && id !in old(View())
      ensures View() == Apply(old(View()), Posted(NewBalloon(id, PostingOf(pid, p, now), wall, false, p.initials)))
    {
      id := Post(pid, p, now, wall, false);
    }

    /**
     * Removes one other complete record of this owner and type, whichever the map yields first, and
     * returns its id; 0 for none. `victim` tells a removed record with id 0 from none.
     */
    method DeletePreviousBalloon(owner: Pid, dataType: UInt16, keep: Id)
        returns (replaced: Id, ghost victim: Option<Id>)
      requires Valid()
      modifies this`records, this`dirty
      ensures Valid() && records.Values <= old(records.Values)
      ensures match victim
              case Some(id) =>
                && id in old(View()) && id != keep && old(View())[id].complete
                && old(View())[id].post.owner == owner && old(View())[id].post.dataType == dataType
                && View() == old(View()) - {id}
              case None =>
                && View() == old(View())
                && forall id <- View() :: id == keep || !View()[id].complete
                                          || View()[id].post.owner != owner || View()[id].post.dataType != dataType
      ensures replaced == (if victim.Some? then victim.value else 0) && dirty == (old(dirty) || replaced != 0)
    {
      replaced, victim := 0, None;
      var left := records.Keys;
      while left != {}
        invariant left <= records.Keys && records == old(records) && dirty == old(dirty)
        invariant replaced == 0 && victim == None
        invariant forall id <- records.Keys - left ::
                    id == keep || !records[id].complete
                    || records[id].post.owner != owner || records[id].post.dataType != dataType
      {
        var id :| id in left;
        left := left - {id};
        var r := records[id];
        if id != keep && r.post.owner == owner && r.post.dataType == dataType && r.complete {
          replaced, victim := id, Some(id);
          FewerValues(records, {id});
          records := records - {id};
          break;
        }
      }
      if replaced != 0 {
        dirty := true;
      }
    }

    method PostMetaBinary(pid: Pid, p: PostParam, now: nat, wall: int)
        returns (id: Id, replaced: Id, ghost victim: Option<Id>)
      requires Valid()
      modifies this`records, this`nextId, this`dirty
      ensures Valid() && fresh(records.Values - old(records.Values))
      ensures id == old(nextId) && nextId == id + 1 && dirty && id !in old(View())
      ensures PostReplaces(old(View()), View(), NewBalloon(id, PostingOf(pid, p, now), wall, true, p.initials), victim)
      ensures replaced == if victim.Some? then victim.value else 0
    {
      id := Post(pid, p, now, wall, true);
      replaced, victim := DeletePreviousBalloon(pid, p.dataType, id);
      ReplacesBeside(old(View()), old(View())[id := NewBalloon(id, PostingOf(pid, p, now), wall, true, p.initials)],
                     NewBalloon(id, PostingOf(pid, p, now), wall, true, p.initials), victim);
    }

    method CompletePostObject(id: Id, ok: bool)
      requires Valid()
      modifies this`records, this`dirty, records.Values
      ensures Valid() && dirty
      ensures View() == Apply(old(View()), if ok then Completed(id) else Removed(id))
      ensures !ok ==> View() == old(View()) - {id}
      ensures ok ==>
                && View().Keys == old(View()).Keys
                && forall i <- View() ::
                     View()[i] == if i == id then old(View())[i].(complete := true) else old(View())[i]
    {
      if id in records && ok {
        var r := records[id];
        r.complete := true;
        OneChanged(r);
      } else if id in records && !ok {
        records := records - {id};
      }
      dirty := true;
    }

    method DeleteObject(id: Id)
      requires Valid()
      modifies this`records, this`dirty
      ensures Valid() && dirty
      ensures View() == Apply(old(View()), Removed(id))
      ensures View() == old(View()) - {id}
    {
      records := records - {id};
      dirty := true;
    }

    // ----- ratings ----------------------------------------------------------------------------

    /** The locked section of a single rating, and of each step of a batch. */
    method RateLocked(id: Id, slot: Slot, value: Int64) returns (result: Code)
      requires Valid()
      modifies records.Values
      ensures Valid() && View().Keys == old(View()).Keys
      ensures View() == Apply(old(View()), Rated(id, slot, value))
      ensures result == Success <==> id in old(View())
    {
      if id !in records {
        return NotFound;
      }
      var r := records[id];
      r.ratingSum := S64(r.ratingSum + value);
      r.ratingN := U32(r.ratingN + 1);
      r.AddRating(slot, value);
      assert r.Value() == Rate(old(r.Value()), slot, value);
      OneChanged(r);
      result := Success;
    }

    method RateObject(id: Id, slot: Slot, value: Int64)
      requires Valid()
      modifies this`dirty, records.Values
      ensures Valid() && dirty
      ensures View() == Apply(old(View()), Rated(id, slot, value))
    {
      var _ := RateLocked(id, slot, value);
      dirty := true;
    }

    /** Rates the paired prefix, one target after the other; unknown targets are skipped. */
    method RateEach(targets: seq<(Id, Slot)>, values: seq<Int64>) returns (results: seq<Code>)
      requires Valid()
      modifies this`dirty, records.Values
      ensures Valid() && dirty && View().Keys == old(View()).Keys
      ensures var reqs := PairUp(targets, values);
              && View() == Replay(old(View()), reqs)
              && |results| == |reqs|
              && forall i :: 0 <= i < |reqs| ==> (results[i] == Success <==> reqs[i].id in old(View()))
    {
      var n := |targets|;
      if |values| < n {
        n := |values|;
      }
      ghost var reqs, m := PairUp(targets, values), View();
      results := [];
      var i := 0;
      while i < n
        invariant 0 <= i <= n == |reqs| && |results| == i && Valid()
        invariant Batch(m, View(), reqs, results)
      {
        ghost var before := View();
        var result := RateLocked(targets[i].0, targets[i].1, values[i]);
        BatchStep(m, before, View(), reqs, results, result);
        results := results + [result];
        i := i + 1;
      }
      assert reqs[..i] == reqs;
      dirty := true;
    }

    /** The batch; if asked, each rated target is answered with its totals after the whole batch. */
    method RateObjects(targets: seq<(Id, Slot)>, values: seq<Int64>, fetch: bool)
        returns (totals: seq<(Int64, UInt32)>, results: seq<Code>)
      requires Valid()
      modifies this`dirty, records.Values
      ensures Valid() && dirty
      ensures var reqs := PairUp(targets, values);
              && View() == Replay(old(View()), reqs)
              && |results| == |totals| == |reqs|
              && (forall i :: 0 <= i < |reqs| ==> (results[i] == Success <==> reqs[i].id in old(View())))
              && (forall i :: 0 <= i < |reqs| ==>
                    totals[i] == if fetch && reqs[i].id in View()
                                 then (View()[reqs[i].id].ratingSum, View()[reqs[i].id].ratingN) else (0, 0))
    {
      results := RateEach(targets, values);
      totals := [];
      ghost var reqs, m := PairUp(targets, values), View();
      var i := 0;
      while i < |results|
        invariant 0 <= i <= |results| == |reqs| && |totals| == i
        invariant forall j :: 0 <= j < i ==>
                    totals[j] == if fetch && reqs[j].id in m
                                 then (m[reqs[j].id].ratingSum, m[reqs[j].id].ratingN) else (0, 0)
      {
        if fetch && results[i] == Success {
          var r := records[targets[i].0];
          totals := totals + [(r.ratingSum, r.ratingN)];
        } else {
          totals := totals + [(0, 0)];
        }
        i := i + 1;
      }
    }

    // ----- buffer queues ----------------------------------------------------------------------

    method AddToBufferQueue(id: Id, u: UInt32, buf: Blob) returns (result: Code)
      requires Valid()
      modifies records.Values
      ensures Valid() && View().Keys == old(View()).Keys
      ensures View() == Apply(old(View()), Queued(id, u, buf))
      ensures result == Success <==> id in old(View())
    {
      if id !in records {
        return NotFound;
      }
      var r, slot := records[id], SlotOf(u);
      r.buffers := r.buffers[slot := (if slot in r.buffers then r.buffers[slot] else []) + [buf]];
      OneChanged(r);
      result := Success;
    }

    /** Pairs parameters with buffers by index; a parameter without a buffer is answered NotFound. */
    method AddToBufferQueues(params: seq<QueueParam>, buffers: seq<Blob>) returns (results: seq<Code>)
      requires Valid()
      modifies records.Values
      ensures Valid()
      ensures View() == Replay(old(View()), QueueOps(params, buffers))
      ensures |results| == |params|
      ensures forall i :: 0 <= i < |params| ==>
                (results[i] == Success <==> params[i].id in old(View()) && i < |buffers|)
    {
      ghost var ops, m := QueueOps(params, buffers), View();
      results := [];
      var i := 0;
      while i < |params|
        invariant 0 <= i <= |params| && |results| == i && Valid()
        invariant PartBatch(m, View(), ops, results)
      {
        ghost var before := View();
        if i < |buffers| {
          var result := AddToBufferQueue(params[i].id, params[i].wireSlot, buffers[i]);
          PartBatchStep(m, before, View(), ops, results, result);
          results := results + [result];
        } else {
          PartBatchSkip(m, View(), ops, results);
          results := results + [NotFound];
        }
        i := i + 1;
      }
      PartBatchDone(m, View(), ops, results);
    }

    method GetBufferQueue(id: Id, u: UInt32) returns (bufs: seq<Blob>)
      requires Valid()
      ensures bufs == if id in View() && SlotOf(u) in View()[id].buffers then View()[id].buffers[SlotOf(u)] else []
    {
      bufs := [];
      if id in records && SlotOf(u) in records[id].buffers {
        bufs := records[id].buffers[SlotOf(u)];
      }
    }

    method GetBufferQueues(params: seq<QueueParam>) returns (lists: seq<seq<Blob>>, results: seq<Code>)
      requires Valid()
      ensures |lists| == |results| == |params|
      ensures forall i :: 0 <= i < |params| ==>
                && (results[i] == Success <==> params[i].id in View())
                && lists[i] == if params[i].id in View() && SlotOf(params[i].wireSlot) in View()[params[i].id].buffers
                               then View()[params[i].id].buffers[SlotOf(params[i].wireSlot)] else []
    {
      lists, results := [], [];
      var i := 0;
      while i < |params|
        invariant 0 <= i <= |params| && |lists| == |results| == i
        invariant forall j :: 0 <= j < i ==>
                && (results[j] == Success <==> params[j].id in View())
                && lists[j] == if params[j].id in View() && SlotOf(params[j].wireSlot) in View()[params[j].id].buffers
                               then View()[params[j].id].buffers[SlotOf(params[j].wireSlot)] else []
      {
        var bufs := GetBufferQueue(params[i].id, params[i].wireSlot);
        lists, results := lists + [bufs], results + [if params[i].id in records then Success else NotFound];
        i := i + 1;
      }
    }

    method ClearBufferQueue(id: Id, u: UInt32) returns (result: Code)
      requires Valid()
      modifies records.Values
      ensures Valid() && View().Keys == old(View()).Keys
      ensures View() == Apply(old(View()), Cleared(id, u))
      ensures result == Success <==> id in old(View())
    {
      if id !in records {
        return NotFound;
      }
      var r := records[id];
      r.buffers := r.buffers - {SlotOf(u)};
      OneChanged(r);
      result := Success;
    }

    method ClearBufferQueues(params: seq<QueueParam>) returns (results: seq<Code>)
      requires Valid()
      modifies records.Values
      ensures Valid()
      ensures View() == Replay(old(View()), ClearOps(params))
      ensures |results| == |params|
      ensures forall i :: 0 <= i < |params| ==> (results[i] == Success <==> params[i].id in old(View()))
    {
      ghost var ops, m := ClearOps(params), View();
      results := [];
      var i := 0;
      while i < |params|
        invariant 0 <= i <= |params| == |ops| && |results| == i && Valid()
        invariant Batch(m, View(), ops, results)
      {
        ghost var before := View();
        var result := ClearBufferQueue(params[i].id, params[i].wireSlot);
        BatchStep(m, before, View(), ops, results, result);
        results := results + [result];
        i := i + 1;
      }
      assert ops[..i] == ops;
    }

    // ----- reading ----------------------------------------------------------------------------

    function FoundBy(pid: Pid): set<Id>
      reads this`found
    {
      if pid in found then found[pid] else {}
    }

    /** What the player has already found, read under its own lock before the records are. */
    method ReadFound(pid: Pid) returns (seen: set<Id>)
      ensures seen == FoundBy(pid)
    {
      seen := {};
      if pid in found {
        seen := found[pid];
      }
    }

    /** Collects what a search by this player may offer, in map order. */
    method CollectEligible(pid: Pid, want: UInt16, seen: set<Id>) returns (pool: seq<Balloon>)
      requires Valid()
      ensures multiset(pool) == multiset(Pick(View(), EligibleIds(View(), pid, want, seen)))
    {
      pool := [];
      var left := records.Keys;
      ghost var m, ids := View(), EligibleIds(View(), pid, want, seen);
      while left != {}
        invariant left <= records.Keys
        invariant multiset(pool) == multiset(Pick(m, ids - left))
      {
        var id :| id in left;
        PickNext(pool, m, ids, left, id);
        left := left - {id};
        var b := records[id].Value();
        assert b == m[id];
        if !b.complete || b.post.owner == pid || b.post.dataType == STATS_TYPE
           || (want != 0 && b.post.dataType != want) || b.id in seen {
          continue;
        }
        pool := pool + [b];
      }
      assert ids - left == ids;
    }

    /** For each owner with a complete stats record, a newest one and its ratings. */
    method NewestStatsByOwner() returns (stats: map<Pid, Id>, ratings: map<Pid, map<Slot, RatingInfo>>)
      requires Valid()
      ensures StatsOfOwners(View(), View().Keys, stats, ratings)
    {
      stats, ratings := map[], map[];
      var at: map<Pid, nat> := map[];
      var left := records.Keys;
      ghost var m := View();
      assert m.Keys == records.Keys;
      while left != {}
        invariant left <= m.Keys && at.Keys == stats.Keys
        invariant StatsOfOwners(m, m.Keys - left, stats, ratings)
        invariant forall owner <- stats :: at[owner] == m[stats[owner]].post.createdAt
      {
        var id :| id in left;
        StatsOfOwnersNext(m, left, stats, ratings, id);
        left := left - {id};
        var b := records[id].Value();
        assert m[id] == b;
        var owner := b.post.owner;
        if b.complete && b.post.dataType == STATS_TYPE && b.post.createdAt >= (if owner in at then at[owner] else 0) {
          at := at[owner := b.post.createdAt];
          stats := stats[owner := id];
          ratings := ratings[owner := b.ratings];
        }
      }
      assert m.Keys - left == m.Keys;
    }

    /**
     * The search: finds, then records, then sorted outside the lock and dealt into result sets.
     * `nameOf` is what the name lookup says of each player at the time.
     */
    method SearchBalloon(pid: Pid, want: UInt16, resultSetCount: Byte, nameOf: Pid -> string)
        returns (answer: seq<seq<Offer>>, ghost sets: seq<seq<Balloon>>, ghost pool: seq<Balloon>)
      requires Valid()
      // what is offered
      ensures forall j, k :: 0 <= j < |answer| && 0 <= k < |answer[j]| ==>
                var b := answer[j][k].b;
                && b.id in View() && View()[b.id] == b && b.complete && b.post.owner != pid && b.post.dataType != 200
                && (want == 0 || b.post.dataType == want) && !(pid in found && b.id in found[pid])
      ensures forall id <- View() ::
                && View()[id].complete && View()[id].post.owner != pid && View()[id].post.dataType != 200
                && (want == 0 || View()[id].post.dataType == want) && !(pid in found && id in found[pid]) ==>
                  exists j, k :: 0 <= j < |answer| && 0 <= k < |answer[j]| && answer[j][k].b == View()[id]
      ensures forall j, k, j', k' :: 0 <= j < |answer| && 0 <= k < |answer[j]| && 0 <= j' < |answer| && 0 <= k' < |answer[j']| ==>
                (j, k) == (j', k') || answer[j][k].b.id != answer[j'][k'].b.id
      // in what order, and how it is dealt
      ensures multiset(pool) == multiset(Pick(View(), EligibleIds(View(), pid, want, FoundBy(pid))))
      ensures NewestFirst(pool) && multiset(Flatten(sets)) == multiset(pool)
      ensures RoundRobin(pool, SetCount(|pool|, if resultSetCount == 0 then 1 else resultSetCount), sets)
      ensures Offers(answer, sets, View(), nameOf)
    {
      ghost var m := View();
      var seen := ReadFound(pid);
      var unsorted := CollectEligible(pid, want, seen);
      var stats, ratings := NewestStatsByOwner();
      assert View() == m;
      answer, sets, pool := AnswerSearch(unsorted, resultSetCount, m, stats, ratings, nameOf);
      assert View() == m;
      OffersAreEligible(m, pid, want, seen, pool, resultSetCount, sets, answer, nameOf);
    }

    /** Every complete record of the type (0 for any), in map order. */
    method CollectComplete(dataType: UInt16) returns (pool: seq<Balloon>)
      requires Valid()
      ensures multiset(pool) == multiset(Pick(View(), CompleteIds(View(), dataType)))
    {
      pool := [];
      var left := records.Keys;
      ghost var m, ids := View(), CompleteIds(View(), dataType);
      while left != {}
        invariant left <= records.Keys
        invariant multiset(pool) == multiset(Pick(m, ids - left))
      {
        var id :| id in left;
        PickNext(pool, m, ids, left, id);
        left := left - {id};
        var b := records[id].Value();
        assert b == m[id];
        if b.complete && (dataType == 0 || b.post.dataType == dataType) {
          pool := pool + [b];
        }
      }
      assert ids - left == ids;
    }

    /** The newest complete records of the type, at most a hundred: none left out is newer than one returned. */
    method SearchObject(dataType: UInt16) returns (matches: seq<Balloon>)
      requires Valid()
      ensures forall b <- matches ::
                b.id in View() && View()[b.id] == b && b.complete && (dataType == 0 || b.post.dataType == dataType)
      ensures forall i, j :: 0 <= i < j < |matches| ==>
                matches[i].id != matches[j].id && matches[i].post.createdAt >= matches[j].post.createdAt
      ensures |matches| <= 100
      ensures forall id <- View() ::
                View()[id].complete && (dataType == 0 || View()[id].post.dataType == dataType) ==>
                  || View()[id] in matches
                  || (|matches| == 100 && forall b <- matches :: View()[id].post.createdAt <= b.post.createdAt)
    {
      var pool := CollectComplete(dataType);
      var sorted := SortSlice(pool);
      matches := sorted;
      if |matches| > 100 {
        matches := matches[..100];
      }
      TopOfSorted(View(), dataType, sorted);
    }

    /** One pass over the records: the player's balloons of the wanted types, and newest stats record. */
    method CollectOwn(pid: Pid, types: seq<UInt16>) returns (pool: seq<Balloon>, stats: Option<Id>)
      requires Valid()
      ensures multiset(pool) == multiset(Pick(View(), OwnIds(View(), pid, types)))
      ensures StatsAmong(View(), View().Keys, pid, stats)
    {
      pool, stats := [], None;
      var left := records.Keys;
      ghost var m, ids := View(), OwnIds(View(), pid, types);
      assert m.Keys == records.Keys;
      while left != {}
        invariant left <= m.Keys
        invariant multiset(pool) == multiset(Pick(m, ids - left))
        invariant StatsAmong(m, m.Keys - left, pid, stats)
      {
        var id :| id in left;
        PickNext(pool, m, ids, left, id);
        StatsAmongNext(m, left, pid, stats, id);
        left := left - {id};
        var b := records[id].Value();
        assert b == m[id];
        if b.complete && b.post.owner == pid {
          if b.post.dataType == STATS_TYPE {
            if stats.None? || b.post.createdAt > records[stats.value].post.createdAt {
              stats := Some(id);
            }
          } else if Wanted(types, b.post.dataType) {
            pool := pool + [b];
          }
        }
      }
      assert ids - left == ids && m.Keys - left == m.Keys;
    }

    /** Sorts what was collected and looks each up among the player's own finds, where none can be. */
    method ListOwn(pid: Pid, types: seq<UInt16>, pool: seq<Balloon>, seen: set<Id>)
        returns (infos: seq<OwnInfo>, ghost mine: seq<Balloon>)
      requires Valid() && seen == FoundBy(pid)
      requires multiset(pool) == multiset(Pick(View(), OwnIds(View(), pid, types)))
      ensures NewestFirst(mine) && multiset(mine) == multiset(pool)
      ensures |infos| == |mine| && forall i :: 0 <= i < |infos| ==> infos[i] == OwnInfoOf(mine[i], false)
    {
      var sorted := SortSlice(pool);
      mine := sorted;
      NoneSeen(mine, View(), OwnIds(View(), pid, types), seen);
      infos := seq(|sorted|, i requires 0 <= i < |sorted| => OwnInfoOf(sorted[i], sorted[i].id in seen));
    }

    /** The listing's last part: the newest stats record, or all zeros. */
    method StatsAnswer(stats: Option<Id>, at: nat) returns (answer: StatsInfo)
      requires Valid() && (stats.Some? ==> stats.value in View())
      ensures match stats
              case Some(r) =>
                var b := View()[r]; answer == StatsInfo(b.id, b.post.dataType, b.post.meta, at, b.ratings, map[])
              case None => answer == StatsInfo(0, 0, [], at, map[], map[])
    {
      if stats.None? {
        return StatsInfo(0, 0, [], at, map[], map[]);
      }
      var r := records[stats.value];
      answer := StatsInfo(r.id, r.post.dataType, r.post.meta, at, r.ratings, map[]);
    }

    /** The player's own balloons of the wanted types with their "cleared" bits, and newest stats record. */
    method FetchMyInfos(pid: Pid, types: seq<UInt16>, at: nat)
        returns (infos: seq<OwnInfo>, answer: StatsInfo, ghost stats: Option<Id>)
      requires Valid()
      ensures forall i :: 0 <= i < |infos| ==>
                var o := infos[i];
                && o.id in View() && var b := View()[o.id];
                && b.complete && b.post.owner == pid && b.post.dataType != 200 && (types == [] || b.post.dataType in types)
                && o.dataType == b.post.dataType && o.meta == b.post.meta && o.createdAt == b.post.createdAt
                && o.updatedAt == b.post.updatedAt && o.ratings == b.ratings && o.buffers == map[] && !o.cleared
      ensures forall id <- View() ::
                && View()[id].complete && View()[id].post.owner == pid && View()[id].post.dataType != 200
                && (types == [] || View()[id].post.dataType in types) ==>
                  exists i :: 0 <= i < |infos| && infos[i].id == id
      ensures forall i, j :: 0 <= i < j < |infos| ==> infos[i].id != infos[j].id && infos[i].createdAt >= infos[j].createdAt
      ensures SendsStats(View(), pid, at, stats, answer)
    {
      ghost var m := View();
      var seen := ReadFound(pid);
      var pool, newest := CollectOwn(pid, types);
      ghost var mine;
      infos, mine := ListOwn(pid, types, pool, seen);
      answer := StatsAnswer(newest, at);
      stats := newest;
      assert View() == m;
      ListingMeans(m, pid, types, mine, infos);
      StatsAreSent(m, pid, at, stats, answer);
    }

    /** The owner's newest balloon in the slot; records posted without a slot match any slot. */
    method GetPersistenceInfo(owner: Pid, slot: UInt16) returns (best: Option<Id>)
      requires Valid()
      ensures best.Some? ==>
                && best.value in View() && var b := View()[best.value];
                && b.complete && b.post.owner == owner && b.post.dataType != 200
                && (b.post.slot == None || b.post.slot == Some(slot))
      ensures forall id <- View() ::
                && View()[id].complete && View()[id].post.owner == owner && View()[id].post.dataType != 200
                && (View()[id].post.slot == None || View()[id].post.slot == Some(slot)) ==>
                  best.Some? && View()[id].post.createdAt <= View()[best.value].post.createdAt
    {
      best := None;
      var left := records.Keys;
      while left != {}
        invariant left <= records.Keys
        invariant best.Some? ==> best.value in records && InSlot(records[best.value].Value(), owner, slot)
        invariant forall id <- records.Keys - left :: InSlot(records[id].Value(), owner, slot) ==>
                    best.Some? && records[id].post.createdAt <= records[best.value].post.createdAt
      {
        var id :| id in left;
        left := left - {id};
        var r := records[id];
        if r.complete && r.post.owner == owner && r.post.dataType != STATS_TYPE {
          if r.post.slot == None || r.post.slot.value == slot {
            if best.None? || r.post.createdAt > records[best.value].post.createdAt {
              best := Some(id);
            }
          }
        }
      }
    }

    /** Credits a download: the record must still exist and belong to someone else. */
    method CreditDownload(id: Id, requester: Pid)
      requires Valid()
      modifies this`found
      ensures Valid()
      ensures found == if id in View() && View()[id].post.owner != requester
                       then old(found)[requester := (if requester in old(found) then old(found)[requester] else {}) + {id}]
                       else old(found)
    {
      if id in records && records[id].post.owner != requester {
        if requester !in found {
          found := found[requester := {}];
        }
        found := found[requester := found[requester] + {id}];
      }
    }
  }
}
