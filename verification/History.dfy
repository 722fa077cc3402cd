/** What a log of operations says about one record, and that the replayed records agree with it. */
module History {
  import opened Words
  import opened Balloons

  /** `op` starts an empty queue for this record and wire slot. */
  predicate Empties(op: Op, id: Id, u: UInt32) {
    match op
    case Posted(b) => b.id == id
    case Cleared(i, v) => i == id && v % 256 == u % 256
    case Restarted(_) => true
    case _ => false
  }

  /** The position just after the last operation that emptied the queue; 0 if there is none. */
  function Emptied(log: seq<Op>, id: Id, u: UInt32): (n: nat)
    ensures n <= |log|
    ensures n > 0 ==> Empties(log[n - 1], id, u)
    ensures forall i :: n <= i < |log| ==> !Empties(log[i], id, u)
  {
    if log == [] then 0
    else if Empties(log[|log| - 1], id, u) then |log|
    else Emptied(log[..|log| - 1], id, u)
  }

  /** The buffers these operations add to the record, at any wire slot congruent to `u` modulo 256. */
  function Added(ops: seq<Op>, id: Id, u: UInt32): seq<Blob> {
    if ops == [] then []
    else
      var before := Added(ops[..|ops| - 1], id, u);
      match ops[|ops| - 1]
      case Queued(i, v, buf) => if i == id && v % 256 == u % 256 then before + [buf] else before
      case _ => before
  }

  /** What one operation that does not empty the queue does to it. */
  lemma OpOnQueue(m: Store, op: Op, id: Id, u: UInt32)
    requires id in Apply(m, op) && !Empties(op, id, u)
    ensures id in m
    ensures QueueAt(Apply(m, op)[id], SlotOf(u)) ==
              if op.Queued? && op.id == id && op.wireSlot % 256 == u % 256
              then QueueAt(m[id], SlotOf(u)) + [op.buf]
              else QueueAt(m[id], SlotOf(u))
  {
    if op.Queued? || op.Cleared? {
      SameSlot(op.wireSlot, u);
    }
  }

  lemma OpEmptiesQueue(m: Store, op: Op, id: Id, u: UInt32)
    requires id in Apply(m, op) && Empties(op, id, u)
    requires op.Posted? ==> Untouched(op.b)
    ensures QueueAt(Apply(m, op)[id], SlotOf(u)) == []
  {
    if op.Cleared? {
      SameSlot(op.wireSlot, u);
    }
  }

  lemma AddedSnoc(ops: seq<Op>, op: Op, id: Id, u: UInt32)
    ensures Added(ops + [op], id, u) ==
              if op.Queued? && op.id == id && op.wireSlot % 256 == u % 256
              then Added(ops, id, u) + [op.buf] else Added(ops, id, u)
  {
    assert (ops + [op])[..|ops|] == ops;
  }

  /** One more operation, which does not empty the queue, on records and on the log since position n. */
  lemma QueueFollows(m: Store, log: seq<Op>, op: Op, n: nat, id: Id, u: UInt32)
    requires id in Apply(m, op) && !Empties(op, id, u) && n <= |log|
    requires id in m ==> QueueAt(m[id], SlotOf(u)) == Added(log[n..], id, u)
    ensures QueueAt(Apply(m, op)[id], SlotOf(u)) == Added((log + [op])[n..], id, u)
  {
    OpOnQueue(m, op, id, u);
    AddedSnoc(log[n..], op, id, u);
    assert (log + [op])[n..] == log[n..] + [op];
  }

  /** Every queue holds, in order, exactly the buffers added since it was last emptied. */
  lemma {:induction false} QueueRefinesLog(base: Store, log: seq<Op>, id: Id, u: UInt32)
    requires forall i <- base :: base[i].buffers == map[]
    requires forall op <- log :: op.Posted? ==> Untouched(op.b)
    requires id in Replay(base, log)
    ensures QueueAt(Replay(base, log)[id], SlotOf(u)) == Added(log[Emptied(log, id, u)..], id, u)
  {
    if log != [] {
      var l', op := log[..|log| - 1], log[|log| - 1];
      var m, n := Replay(base, l'), Emptied(log, id, u);
      if Empties(op, id, u) {
        OpEmptiesQueue(m, op, id, u);
      } else {
        OpOnQueue(m, op, id, u);
        QueueRefinesLog(base, l', id, u);
        assert log == l' + [op];
        QueueFollows(m, l', op, n, id, u);
      }
    }
  }

  // ----- ratings ------------------------------------------------------------------------------

  /** The position just after the last post of this id; 0 if it was never posted in this log. */
  function Birth(log: seq<Op>, id: Id): (n: nat)
    ensures n <= |log|
    ensures n > 0 ==> log[n - 1].Posted? && log[n - 1].b.id == id
    ensures forall i :: n <= i < |log| ==> !(log[i].Posted? && log[i].b.id == id)
  {
    if log == [] then 0
    else
      var op := log[|log| - 1];
      if op.Posted? && op.b.id == id then |log| else Birth(log[..|log| - 1], id)
  }

  /** The sum of the values logged for this record and slot. */
  function LoggedSum(ops: seq<Op>, id: Id, slot: Slot): int {
    if ops == [] then 0
    else
      var before := LoggedSum(ops[..|ops| - 1], id, slot);
      match ops[|ops| - 1]
      case Rated(i, s, value) => if i == id && s == slot then before + value else before
      case _ => before
  }

  function LoggedCount(ops: seq<Op>, id: Id, slot: Slot): nat {
    if ops == [] then 0
    else
      var before := LoggedCount(ops[..|ops| - 1], id, slot);
      match ops[|ops| - 1]
      case Rated(i, s, _) => if i == id && s == slot then before + 1 else before
      case _ => before
  }

  /** The record as it was when it came into being: by its last post, or in the loaded file. */
  function Newborn(base: Store, log: seq<Op>, id: Id): Balloon
    requires Birth(log, id) > 0 || id in base
  {
    if Birth(log, id) > 0 then log[Birth(log, id) - 1].b else base[id]
  }

  lemma LoggedSnoc(ops: seq<Op>, op: Op, id: Id, slot: Slot)
    ensures var hit := op.Rated? && op.id == id && op.slot == slot;
            && LoggedSum(ops + [op], id, slot) == LoggedSum(ops, id, slot) + (if hit then op.value else 0)
            && LoggedCount(ops + [op], id, slot) == LoggedCount(ops, id, slot) + (if hit then 1 else 0)
  {
    assert (ops + [op])[..|ops|] == ops;
  }

  /** `cur` is what `born` becomes after `count` ratings that sum to `sum`. */
  predicate Accrued(cur: RatingInfo, born: RatingInfo, sum: int, count: nat) {
    cur == RatingInfo(S64(born.total + sum), U32(born.count + count), born.initial)
  }

  /** The slot of the record now held under `id` is that of `born` plus what `ops` logged for it. */
  predicate SlotFollows(m: Store, born: Balloon, ops: seq<Op>, id: Id, slot: Slot) {
    && id in m
    && m[id].post == born.post
    && Accrued(RatingAt(m[id], slot), RatingAt(born, slot), LoggedSum(ops, id, slot), LoggedCount(ops, id, slot))
  }

  lemma OpOnSlot(m: Store, op: Op, born: Balloon, ops: seq<Op>, id: Id, slot: Slot)
    requires id in Apply(m, op) && !(op.Posted? && op.b.id == id)
    requires SlotFollows(m, born, ops, id, slot)
    ensures SlotFollows(Apply(m, op), born, ops + [op], id, slot)
  {
    LoggedSnoc(ops, op, id, slot);
    if op.Rated? && op.id == id && op.slot == slot {
      S64Absorbs(RatingAt(born, slot).total + LoggedSum(ops, id, slot), op.value);
      U32Absorbs(RatingAt(born, slot).count + LoggedCount(ops, id, slot), 1);
    }
  }

  /** An operation that does not post the record leaves where it was born, and as what. */
  lemma BirthStays(base: Store, log: seq<Op>, op: Op, id: Id)
    requires !(op.Posted? && op.b.id == id) && (Birth(log, id) > 0 || id in base)
    ensures Birth(log + [op], id) == Birth(log, id) && Newborn(base, log + [op], id) == Newborn(base, log, id)
  {
    assert (log + [op])[..|log|] == log;
  }

  lemma OpAfterLog(base: Store, log: seq<Op>, op: Op, id: Id, slot: Slot)
    requires id in Replay(base, log + [op]) && !(op.Posted? && op.b.id == id) && (Birth(log, id) > 0 || id in base)
    requires SlotFollows(Replay(base, log), Newborn(base, log, id), log[Birth(log, id)..], id, slot)
    ensures Birth(log + [op], id) == Birth(log, id)
    ensures SlotFollows(Replay(base, log + [op]), Newborn(base, log + [op], id), (log + [op])[Birth(log, id)..], id, slot)
  {
    var n := Birth(log, id);
    ReplaySnoc(base, log, op);
    BirthStays(base, log, op, id);
    OpOnSlot(Replay(base, log), op, Newborn(base, log, id), log[n..], id, slot);
    assert (log + [op])[n..] == log[n..] + [op];
  }

  /** Each slot is its initial state plus everything logged for it since, across saves and loads. */
  lemma {:induction false} SlotRefinesLog(base: Store, log: seq<Op>, id: Id, slot: Slot)
    requires id in Replay(base, log)
    ensures Birth(log, id) > 0 || id in base
    ensures SlotFollows(Replay(base, log), Newborn(base, log, id), log[Birth(log, id)..], id, slot)
  {
    var n := Birth(log, id);
    if n == |log| {
      assert log[n..] == [];
    } else {
      var l', op := log[..|log| - 1], log[|log| - 1];
      assert id in Replay(base, l');
      SlotRefinesLog(base, l', id, slot);
      assert log == l' + [op];
      OpAfterLog(base, l', op, id, slot);
    }
  }

  // ----- the redundant totals -----------------------------------------------------------------

  /** Sum over the first `n` slots, from -128 up, of what each has gained over its initial value. */
  function GainUpTo(ratings: map<Slot, RatingInfo>, n: nat): int
    requires n <= 256
  {
    if n == 0 then 0
    else
      var s: Slot := n - 129;
      GainUpTo(ratings, n - 1) + if s in ratings then ratings[s].total - ratings[s].initial else 0
  }

  function CountUpTo(ratings: map<Slot, RatingInfo>, n: nat): nat
    requires n <= 256
  {
    if n == 0 then 0
    else
      var s: Slot := n - 129;
      CountUpTo(ratings, n - 1) + if s in ratings then ratings[s].count else 0
  }

  /** The per-record totals agree with the per-slot entries. */
  predicate LedgerAgrees(b: Balloon) {
    && b.ratingSum == S64(GainUpTo(b.ratings, 256))
    && b.ratingN == U32(CountUpTo(b.ratings, 256))
  }

  lemma {:induction false} SumsUpdate(ratings: map<Slot, RatingInfo>, slot: Slot, info: RatingInfo, n: nat)
    requires n <= 256
    ensures var was := if slot in ratings then ratings[slot] else RatingInfo(0, 0, 0);
            && GainUpTo(ratings[slot := info], n) == GainUpTo(ratings, n) +
                 (if slot + 129 <= n then info.total - info.initial - (was.total - was.initial) else 0)
            && CountUpTo(ratings[slot := info], n) == CountUpTo(ratings, n) +
                 (if slot + 129 <= n then info.count - was.count else 0)
  {
    if n == 0 {
    } else {
      SumsUpdate(ratings, slot, info, n - 1);
    }
  }

  lemma {:induction false} SumsOfUntouched(b: Balloon, n: nat)
    requires n <= 256 && Untouched(b)
    ensures GainUpTo(b.ratings, n) == 0 && CountUpTo(b.ratings, n) == 0
  {
    if n == 0 {
    } else {
      SumsOfUntouched(b, n - 1);
    }
  }

  /** Shifting a sum by a multiple of the modulus does not show after wrapping. */
  lemma S64Cong(a: int, b: int, k: int)
    requires a == b + k * TWO_64
    ensures S64(a) == S64(b)
  {
    assert (b + TWO_63 + k * TWO_64) % TWO_64 == (b + TWO_63) % TWO_64;
  }

  lemma U32Cong(a: int, b: int, k: int)
    requires a == b + k * TWO_32
    ensures U32(a) == U32(b)
  {
    assert (b + k * TWO_32) % TWO_32 == b % TWO_32;
  }

  lemma RateKeepsSum(b: Balloon, slot: Slot, value: Int64)
    requires b.ratingSum == S64(GainUpTo(b.ratings, 256))
    ensures Rate(b, slot, value).ratingSum == S64(GainUpTo(Rate(b, slot, value).ratings, 256))
  {
    var was, gain := RatingAt(b, slot), GainUpTo(b.ratings, 256);
    var info := RatingInfo(S64(was.total + value), U32(was.count + 1), was.initial);
    SumsUpdate(b.ratings, slot, info, 256);
    S64Absorbs(gain, value);
    var j := (was.total + value + TWO_63) / TWO_64;
    assert info.total == was.total + value - j * TWO_64;
    S64Cong(gain + info.total - was.total, gain + value, -j);
  }

  lemma RateKeepsCount(b: Balloon, slot: Slot, value: Int64)
    requires b.ratingN == U32(CountUpTo(b.ratings, 256))
    ensures Rate(b, slot, value).ratingN == U32(CountUpTo(Rate(b, slot, value).ratings, 256))
  {
    var was, count := RatingAt(b, slot), CountUpTo(b.ratings, 256);
    var info := RatingInfo(S64(was.total + value), U32(was.count + 1), was.initial);
    SumsUpdate(b.ratings, slot, info, 256);
    U32Absorbs(count, 1);
    var k := (was.count + 1) / TWO_32;
    assert info.count == was.count + 1 - k * TWO_32;
    U32Cong(count + info.count - was.count, count + 1, -k);
  }

  lemma RateKeepsLedger(b: Balloon, slot: Slot, value: Int64)
    requires LedgerAgrees(b)
    ensures LedgerAgrees(Rate(b, slot, value))
  {
    RateKeepsSum(b, slot, value);
    RateKeepsCount(b, slot, value);
  }

  lemma OpKeepsLedger(m: Store, op: Op, id: Id)
    requires id in Apply(m, op) && !(op.Posted? && op.b.id == id)
    ensures id in m && (LedgerAgrees(m[id]) ==> LedgerAgrees(Apply(m, op)[id]))
  {
    if op.Rated? && op.id == id && LedgerAgrees(m[id]) {
      RateKeepsLedger(m[id], op.slot, op.value);
    }
  }

  /** Posts create agreeing ledgers, and no run of operations, saves and loads breaks one. */
  lemma {:induction false} LedgerOverLog(base: Store, log: seq<Op>, id: Id)
    requires id in Replay(base, log)
    ensures Birth(log, id) > 0 || id in base
    ensures LedgerAgrees(Newborn(base, log, id)) ==> LedgerAgrees(Replay(base, log)[id])
  {
    if Birth(log, id) == |log| {
    } else {
      var l', op := log[..|log| - 1], log[|log| - 1];
      OpKeepsLedger(Replay(base, l'), op, id);
      LedgerOverLog(base, l', id);
      assert log == l' + [op];
      BirthStays(base, l', op, id);
    }
  }

  /** The slot holds its initial value plus the ratings in `ops`. */
  predicate SlotCounts(b: Balloon, ops: seq<Op>, id: Id, slot: Slot) {
    && RatingAt(b, slot).total == S64(RatingAt(b, slot).initial + LoggedSum(ops, id, slot))
    && RatingAt(b, slot).count == U32(LoggedCount(ops, id, slot))
  }

  lemma AccruedFromUntouched(m: Store, born: Balloon, ops: seq<Op>, id: Id, slot: Slot)
    requires Untouched(born) && SlotFollows(m, born, ops, id, slot)
    ensures SlotCounts(m[id], ops, id, slot)
  {
  }

  /** For a record posted in this log: totals agree with slots, and slots with its log entries alone. */
  lemma PostedLedger(base: Store, log: seq<Op>, id: Id, slot: Slot)
    requires forall op <- log :: op.Posted? ==> Untouched(op.b)
    requires id in Replay(base, log) && Birth(log, id) > 0
    ensures LedgerAgrees(Replay(base, log)[id])
    ensures SlotCounts(Replay(base, log)[id], log[Birth(log, id)..], id, slot)
  {
    var born := Newborn(base, log, id);
    assert log[Birth(log, id) - 1] in log && Untouched(born);
    SlotRefinesLog(base, log, id, slot);
    AccruedFromUntouched(Replay(base, log), born, log[Birth(log, id)..], id, slot);
    UntouchedLedger(born);
    LedgerOverLog(base, log, id);
  }

  lemma UntouchedLedger(b: Balloon)
    requires Untouched(b)
    ensures LedgerAgrees(b)
  {
    SumsOfUntouched(b, 256);
  }
}
