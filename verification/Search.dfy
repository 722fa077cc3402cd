/** The balloon search: which records are offered, in what order, and in which result sets. */
module Search {
  import opened Words
  import opened Arith
  import opened Balloons

  /** The filter of a search by `pid` for data type `want` (0 for any) that has seen these finds. */
  predicate Eligible(b: Balloon, pid: Pid, want: UInt16, seen: set<Id>) {
    && b.complete
    && b.post.owner != pid
    && b.post.dataType != STATS_TYPE
    && (want == 0 || b.post.dataType == want)
    && b.id !in seen
  }

  function EligibleIds(m: Store, pid: Pid, want: UInt16, seen: set<Id>): set<Id> {
    set id | id in m && Eligible(m[id], pid, want, seen)
  }

  /** A possible answer to "the stats record of this player": a newest complete stats record of the player. */
  ghost predicate NewestStats(m: Store, pid: Pid, r: Id) {
    NewestAmong(m, m.Keys, pid, r)
  }

  ghost predicate NewestAmong(m: Store, ids: set<Id>, pid: Pid, r: Id)
    requires ids <= m.Keys
  {
    && r in ids && Active(m[r], (pid, STATS_TYPE))
    && forall o <- ids :: Active(m[o], (pid, STATS_TYPE)) ==> m[o].post.createdAt <= m[r].post.createdAt
  }

  // ----- order --------------------------------------------------------------------------------

  predicate NewestFirst(s: seq<Balloon>) {
    forall i, j :: 0 <= i < j < |s| ==> s[i].post.createdAt >= s[j].post.createdAt
  }

  /** The place of `b`: in front of the first record that is not newer. */
  function Place(b: Balloon, s: seq<Balloon>): (n: nat)
    ensures n <= |s|
    ensures forall i :: 0 <= i < n ==> s[i].post.createdAt > b.post.createdAt
    ensures n < |s| ==> s[n].post.createdAt <= b.post.createdAt
  {
    if s == [] || s[0].post.createdAt <= b.post.createdAt then 0 else 1 + Place(b, s[1..])
  }

  function Insert(b: Balloon, s: seq<Balloon>): (r: seq<Balloon>) {
    s[..Place(b, s)] + [b] + s[Place(b, s)..]
  }

  lemma InsertKeepsOrder(b: Balloon, s: seq<Balloon>)
    requires NewestFirst(s)
    ensures NewestFirst(Insert(b, s))
    ensures multiset(Insert(b, s)) == multiset(s) + multiset{b}
  {
    var n := Place(b, s);
    assert s == s[..n] + s[n..];
  }

  function SortByTime(s: seq<Balloon>): seq<Balloon> {
    if s == [] then [] else Insert(s[|s| - 1], SortByTime(s[..|s| - 1]))
  }

  lemma {:induction false} SortByTimeSorts(s: seq<Balloon>)
    ensures NewestFirst(SortByTime(s)) && multiset(SortByTime(s)) == multiset(s)
  {
    if s == [] {
    } else {
      var s' := s[..|s| - 1];
      SortByTimeSorts(s');
      InsertKeepsOrder(s[|s| - 1], SortByTime(s'));
      assert s == s' + [s[|s| - 1]];
    }
  }

  /** Stands for the library sort: callers learn that it permutes and orders, not how it breaks ties. */
  method SortSlice(s: seq<Balloon>) returns (r: seq<Balloon>)
    ensures NewestFirst(r) && multiset(r) == multiset(s)
  {
    r := SortByTime(s);
    SortByTimeSorts(s);
  }

  // ----- result sets --------------------------------------------------------------------------

  /** At most one set per candidate; an empty pool keeps the requested number of (empty) sets. */
  function SetCount(size: nat, requested: int): (n: nat)
    ensures n > 0
    ensures size > 0 ==> n <= size
    ensures size > 0 && requested > 0 ==> n == if requested < size then requested else size
    ensures requested <= 0 ==> n == 1
    ensures size == 0 && requested > 0 ==> n == requested
  {
    var n := if requested <= 0 then 1 else requested;
    if size > 0 && n > size then size else n
  }

  function Flatten<T>(sets: seq<seq<T>>): seq<T> {
    if sets == [] then [] else sets[0] + Flatten(sets[1..])
  }

  /** The pool index behind position k of set j, dealing to n sets in turn. */
  function Cell(k: int, n: int, j: int): int {
    k * n + j
  }

  /** Set j has a position k exactly when the pool reaches that cell, and holds what is there. */
  ghost predicate RoundRobin<T>(pool: seq<T>, n: nat, sets: seq<seq<T>>) {
    && |sets| == n
    && (forall j, k {:trigger Cell(k, n, j)} :: 0 <= j < n && 0 <= k ==> (k < |sets[j]| <==> Cell(k, n, j) < |pool|))
    && (forall j, k :: 0 <= j < n && 0 <= k < |sets[j]| ==> sets[j][k] == pool[Cell(k, n, j)])
  }

  lemma CellOrder(k: int, k': int, n: nat, j: nat, j': nat)
    requires j < n && j' < n && k < k'
    ensures Cell(k, n, j) < Cell(k', n, j')
  {
    MulOrder(k + 1, k', n);
    Distribute(k, 1, n);
  }

  lemma CellOf(i: nat, n: nat)
    requires n > 0
    ensures 0 <= i / n && 0 <= i % n < n && Cell(i / n, n, i % n) == i
  {
  }

  lemma CellDivMod(k: nat, n: nat, j: nat)
    requires j < n
    ensures Cell(k, n, j) / n == k && Cell(k, n, j) % n == j
  {
    var a := Cell(k, n, j);
    var q, r := a / n, a % n;
    assert a == Cell(q, n, r);
    if q < k {
      CellOrder(q, k, n, r, j);
    } else if k < q {
      CellOrder(k, q, n, j, r);
    }
  }

  /** The next item goes to the end of set i % n. */
  lemma DealOne<T>(pool: seq<T>, n: nat, sets: seq<seq<T>>, x: T, j: nat, q: nat)
    requires j < n && Cell(q, n, j) == |pool|
    requires RoundRobin(pool, n, sets)
    ensures RoundRobin(pool + [x], n, sets[j := sets[j] + [x]])
  {
    var after := sets[j := sets[j] + [x]];
    CellOrder(q - 1, q, n, j, j);
    assert |sets[j]| == q by {
      assert q == 0 || Cell(q - 1, n, j) < |pool|;
    }
    forall a, k {:trigger Cell(k, n, a)} | 0 <= a < n && 0 <= k
      ensures k < |after[a]| <==> Cell(k, n, a) < |pool| + 1
    {
      if k < q {
        CellOrder(k, q, n, a, j);
      } else if q < k {
        CellOrder(q, k, n, j, a);
      } else {
        assert Cell(q, n, a) - Cell(q, n, j) == a - j;
      }
    }
  }

  lemma {:induction false} FlattenUpdate<T>(sets: seq<seq<T>>, j: nat, x: T)
    requires j < |sets|
    ensures multiset(Flatten(sets[j := sets[j] + [x]])) == multiset(Flatten(sets)) + multiset{x}
  {
    var after := sets[j := sets[j] + [x]];
    if j == 0 {
      assert after[1..] == sets[1..];
    } else {
      assert after[1..] == sets[1..][j - 1 := sets[1..][j - 1] + [x]];
      FlattenUpdate(sets[1..], j - 1, x);
    }
  }

  lemma {:induction false} FlattenEmpty<T>(sets: seq<seq<T>>)
    requires forall s <- sets :: s == []
    ensures Flatten(sets) == []
  {
    if sets == [] {
    } else {
      assert sets[0] in sets && forall s <- sets[1..] :: s in sets;
      FlattenEmpty(sets[1..]);
    }
  }

  /** `sets` deal out exactly this pool over n sets. */
  ghost predicate Dealt<T>(pool: seq<T>, n: nat, sets: seq<seq<T>>) {
    RoundRobin(pool, n, sets) && multiset(Flatten(sets)) == multiset(pool)
  }

  lemma DealNext<T>(pool: seq<T>, i: nat, n: nat, sets: seq<seq<T>>)
    requires i < |pool| && n > 0 && Dealt(pool[..i], n, sets)
    ensures Dealt(pool[..i + 1], n, sets[i % n := sets[i % n] + [pool[i]]])
  {
    CellOf(i, n);
    DealOne(pool[..i], n, sets, pool[i], i % n, i / n);
    FlattenUpdate(sets, i % n, pool[i]);
    assert pool[..i + 1] == pool[..i] + [pool[i]];
  }

  lemma DealNone<T>(n: nat)
    ensures Dealt<T>([], n, seq(n, _ => []))
  {
    FlattenEmpty<T>(seq(n, _ => []));
    forall j, k {:trigger Cell(k, n, j)} | 0 <= j < n && 0 <= k ensures Cell(k, n, j) >= 0 {
      assert k * n >= 0;
    }
  }

  /** The cap the split computes before it deals. */
  method CapCount(size: nat, requested: int) returns (n: nat)
    ensures n == SetCount(size, requested)
  {
    n := if requested <= 0 then 1 else requested;
    if size > 0 && n > size {
      n := size;
    }
  }

  method SplitIntoSets<T>(pool: seq<T>, requested: int) returns (sets: seq<seq<T>>)
    ensures Dealt(pool, SetCount(|pool|, requested), sets)
  {
    var n := CapCount(|pool|, requested);
    sets := seq(n, _ => []);
    DealNone<T>(n);
    var i := 0;
    while i < |pool|
      invariant 0 <= i <= |pool|
      invariant Dealt(pool[..i], n, sets)
    {
      DealNext(pool, i, n, sets);
      sets := sets[i % n := sets[i % n] + [pool[i]]];
      i := i + 1;
    }
    assert pool[..i] == pool;
  }

  /** No set is empty unless the pool is, and sizes differ by at most one, larger sets first. */
  lemma SetsAreBalanced<T>(pool: seq<T>, requested: int, sets: seq<seq<T>>, i: nat, j: nat)
    requires RoundRobin(pool, SetCount(|pool|, requested), sets)
    requires i < j < |sets|
    ensures pool != [] ==> |sets[i]| > 0 && |sets[j]| > 0
    ensures |sets[j]| <= |sets[i]| <= |sets[j]| + 1
  {
    var n := SetCount(|pool|, requested);
    var a, b := |sets[i]|, |sets[j]|;
    assert Cell(0, n, i) == i && Cell(0, n, j) == j;
    assert |pool| <= Cell(a, n, i) < Cell(a, n, j);
    CellOrder(b, b + 1, n, j, i);
    assert |pool| <= Cell(b, n, j) < Cell(b + 1, n, i);
  }

  /** Reading the sets round-robin gives back the pool. */
  lemma RoundRobinRestores<T>(pool: seq<T>, n: nat, sets: seq<seq<T>>)
    requires n > 0 && RoundRobin(pool, n, sets)
    ensures forall i :: 0 <= i < |pool| ==> i / n < |sets[i % n]| && sets[i % n][i / n] == pool[i]
  {
    forall i | 0 <= i < |pool| ensures i / n < |sets[i % n]| && sets[i % n][i / n] == pool[i] {
      CellOf(i, n);
    }
  }

  /** Whatever is in the pool has a place in the sets. */
  lemma PlaceOf<T>(pool: seq<T>, n: nat, sets: seq<seq<T>>, x: T) returns (j: nat, k: nat)
    requires n > 0 && RoundRobin(pool, n, sets) && x in pool
    ensures j < |sets| && k < |sets[j]| && sets[j][k] == x
  {
    var i :| 0 <= i < |pool| && pool[i] == x;
    CellOf(i, n);
    j, k := i % n, i / n;
  }

  /** No set has an older record before a newer one. */
  lemma SetsKeepOrder(pool: seq<Balloon>, n: nat, sets: seq<seq<Balloon>>, j: nat)
    requires RoundRobin(pool, n, sets) && j < n && NewestFirst(pool)
    ensures forall a, b :: 0 <= a < b < |sets[j]| ==> sets[j][a].post.createdAt >= sets[j][b].post.createdAt
  {
    forall a, b | 0 <= a < b < |sets[j]|
      ensures sets[j][a].post.createdAt >= sets[j][b].post.createdAt
    {
      CellOrder(a, b, n, j, j);
    }
  }

  /** Position k of set j holds what the pool has at k * n + j. */
  lemma RoundRobinPositions<T>(pool: seq<T>, n: nat, sets: seq<seq<T>>, j: nat, k: nat)
    requires RoundRobin(pool, n, sets) && j < |sets| && k < |sets[j]|
    ensures 0 <= k * n + j < |pool| && sets[j][k] == pool[k * n + j]
  {
    assert Cell(k, n, j) == k * n + j && k * n >= 0;
  }

  /** In a pool without repeats, no two places in the sets hold the same record. */
  lemma NoRepeats<T>(pool: seq<T>, n: nat, sets: seq<seq<T>>, j: nat, k: nat, j': nat, k': nat)
    requires RoundRobin(pool, n, sets)
    requires forall a, b :: 0 <= a < b < |pool| ==> pool[a] != pool[b]
    requires j < n && k < |sets[j]| && j' < n && k' < |sets[j']| && (j, k) != (j', k')
    ensures sets[j][k] != sets[j'][k']
  {
    CellDivMod(k, n, j);
    CellDivMod(k', n, j');
    var a, b := Cell(k, n, j), Cell(k', n, j');
    assert a != b && sets[j][k] == pool[a] && sets[j'][k'] == pool[b];
  }

  /** A requested count of 3 on an empty pool yields three empty sets, not one. */
  lemma EmptyPoolSets(sets: seq<seq<Balloon>>, requested: int)
    requires RoundRobin([], SetCount(0, requested), sets)
    ensures |sets| == (if requested <= 0 then 1 else requested) && forall s <- sets :: s == []
    ensures |sets| == 1 <==> requested <= 1
  {
    forall j | 0 <= j < |sets| ensures sets[j] == [] {
      assert Cell(0, |sets|, j) == j;
    }
  }
}
