/** The nested structures of a post and of a search answer, and that reading undoes writing. */
module Framing {
  import opened Words
  import opened Options
  import opened Balloons
  import opened Wire

  // ----- permissions --------------------------------------------------------------------------

  datatype PermissionParam = PermissionParam(level: Byte, pids: seq<nat>, extra: seq<Byte>)

  function SkipPids(c: Cursor, n: nat): Cursor
    decreases n
  {
    if n == 0 then c else SkipPids(ReadU(c, 8).1, n - 1)
  }

  /** Skips a permission: a level, then a list of player ids. */
  function SkipPermission(c: Cursor, headers: bool): Cursor {
    var (p, outer) := Open(c, headers);
    var p1 := ReadU(p, 1).1;
    var (n, p2) := ReadU(p1, 4);
    Close(SkipPids(p2, n), outer, headers)
  }

  function PutPids(pids: seq<nat>, tail: seq<Byte>): seq<Byte> {
    if pids == [] then tail else PutU(pids[0], 8, PutPids(pids[1..], tail))
  }

  function PermissionBody(p: PermissionParam, tail: seq<Byte>): seq<Byte> {
    PutU(p.level, 1, PutU(|p.pids|, 4, PutPids(p.pids, tail)))
  }

  function PutPermission(p: PermissionParam, headers: bool, tail: seq<Byte>): seq<Byte> {
    Wrap(PermissionBody(p, p.extra), headers, tail)
  }

  predicate GoodPids(pids: seq<nat>) {
    forall i :: 0 <= i < |pids| ==> pids[i] < Pow256(8)
  }

  lemma {:induction false} PidsReadBack(pids: seq<nat>, tail: seq<Byte>)
    requires GoodPids(pids)
    ensures SkipPids(Cursor(PutPids(pids, tail), true), |pids|) == Cursor(tail, true)
  {
    if pids == [] {
    } else {
      UReadsBack(pids[0], 8, PutPids(pids[1..], tail));
      PidsReadBack(pids[1..], tail);
    }
  }

  lemma {:induction false} PidsAppend(pids: seq<nat>, a: seq<Byte>, b: seq<Byte>)
    ensures PutPids(pids, a) + b == PutPids(pids, a + b)
  {
    if pids == [] {
    } else {
      PidsAppend(pids[1..], a, b);
      PutUAppends(pids[0], 8, PutPids(pids[1..], a), b);
    }
  }

  lemma PermissionBodyReadsBack(p: PermissionParam, tail: seq<Byte>)
    requires |p.pids| < Pow256(4) && GoodPids(p.pids)
    ensures var c := Cursor(PermissionBody(p, tail), true);
            SkipPids(ReadU(ReadU(c, 1).1, 4).1, ReadU(ReadU(c, 1).1, 4).0) == Cursor(tail, true)
  {
    UReadsBack(p.level, 1, PutU(|p.pids|, 4, PutPids(p.pids, tail)));
    UReadsBack(|p.pids|, 4, PutPids(p.pids, tail));
    PidsReadBack(p.pids, tail);
  }

  lemma PermissionBodyAppends(p: PermissionParam, a: seq<Byte>, b: seq<Byte>)
    ensures PermissionBody(p, a) + b == PermissionBody(p, a + b)
  {
    PidsAppend(p.pids, a, b);
    PutUAppends(|p.pids|, 4, PutPids(p.pids, a), b);
    PutUAppends(p.level, 1, PutU(|p.pids|, 4, PutPids(p.pids, a)), b);
  }

  /** The reader lands exactly behind the permission: always with headers, without only if nothing trails. */
  lemma PermissionRoundTrip(p: PermissionParam, headers: bool, tail: seq<Byte>)
    requires |p.pids| < Pow256(4) && GoodPids(p.pids)
    requires |PermissionBody(p, p.extra)| < Pow256(4)
    ensures SkipPermission(Cursor(PutPermission(p, headers, tail), true), headers) ==
              Cursor(if headers then tail else p.extra + tail, true)
    ensures (SkipPermission(Cursor(PutPermission(p, headers, tail), true), headers) == Cursor(tail, true))
              <==> (headers || p.extra == [])
  {
    OpenWrapped(PermissionBody(p, p.extra), headers, tail);
    PermissionBodyReadsBack(p, p.extra);
    PermissionBodyAppends(p, p.extra, tail);
    PermissionBodyReadsBack(p, p.extra + tail);
    assert |p.extra + tail| == |p.extra| + |tail|;
    if p.extra == [] {
      assert p.extra + tail == tail;
    }
  }

  // ----- the persistence slot -----------------------------------------------------------------

  const NOT_PERSISTENT: UInt16 := 0xFFFF

  datatype PersistenceParam = PersistenceParam(slot: UInt16, deleteLast: bool, extra: seq<Byte>)

  function ReadPersistence(c: Cursor, headers: bool): (Option<nat>, Cursor) {
    var (p, outer) := Open(c, headers);
    var (slot, p1) := ReadU(p, 2);
    var p2 := ReadU(p1, 1).1;
    var c' := Close(p2, outer, headers);
    (if !p2.ok || !c'.ok || slot == NOT_PERSISTENT then None else Some(slot), c')
  }

  function PersistenceBody(p: PersistenceParam, tail: seq<Byte>): seq<Byte> {
    PutU(p.slot, 2, PutU(if p.deleteLast then 1 else 0, 1, tail))
  }

  function PutPersistence(p: PersistenceParam, headers: bool, tail: seq<Byte>): seq<Byte> {
    Wrap(PersistenceBody(p, p.extra), headers, tail)
  }

  lemma PersistenceBodyReadsBack(p: PersistenceParam, tail: seq<Byte>)
    ensures ReadU(Cursor(PersistenceBody(p, tail), true), 2).0 == p.slot
    ensures ReadU(ReadU(Cursor(PersistenceBody(p, tail), true), 2).1, 1).1 == Cursor(tail, true)
  {
    var last := if p.deleteLast then 1 else 0;
    WordSizes();
    UReadsBack(p.slot, 2, PutU(last, 1, tail));
    UReadsBack(last, 1, tail);
  }

  /** 0xFFFF reads as "none", every other slot as itself. */
  lemma PersistenceRoundTrip(p: PersistenceParam, headers: bool, tail: seq<Byte>)
    requires |p.extra| + 3 < Pow256(4)
    ensures ReadPersistence(Cursor(PutPersistence(p, headers, tail), true), headers) ==
              (if p.slot == NOT_PERSISTENT then None else Some(p.slot),
               Cursor(if headers then tail else p.extra + tail, true))
  {
    OpenWrapped(PersistenceBody(p, p.extra), headers, tail);
    PersistenceBodyReadsBack(p, p.extra);
    PersistenceBodyReadsBack(p, p.extra + tail);
    var last := if p.deleteLast then 1 else 0;
    PutUAppends(last, 1, p.extra, tail);
    PutUAppends(p.slot, 2, PutU(last, 1, p.extra), tail);
  }

  // ----- rating initialisers ------------------------------------------------------------------

  datatype InitParam = InitParam(
    slot: Slot, flag: Byte, internalFlag: Byte, lockType: Byte, initial: Int64,
    rangeMin: int, rangeMax: int, periodHour: int, periodDuration: int,
    innerExtra: seq<Byte>, outerExtra: seq<Byte>)

  predicate GoodInit(p: InitParam) {
    && Fits(p.rangeMin, 4) && Fits(p.rangeMax, 4) && Fits(p.periodHour, 1) && Fits(p.periodDuration, 2)
    && |p.innerExtra| + |p.outerExtra| + 100 < Pow256(4)
  }

  /** Skips the three flags, reads the initial value, skips the ranges and the period. */
  function ReadInitFields(c: Cursor): (Int64, Cursor) {
    WordSizes();
    var c3 := ReadU(ReadU(ReadU(c, 1).1, 1).1, 1).1;
    var (initial, c4) := ReadS(c3, 8);
    (initial, ReadS(ReadS(ReadS(ReadS(c4, 4).1, 4).1, 1).1, 2).1)
  }

  /** One element: slot and initial value if both structures were read without error. */
  function ReadInit(c: Cursor, headers: bool): (Option<(Slot, Int64)>, Cursor) {
    WordSizes();
    var (ws, outer) := Open(c, headers);
    var (slot, ws1) := ReadS(ws, 1);
    var (p, ws2) := Open(ws1, headers);
    var (initial, p') := ReadInitFields(p);
    var ws' := Close(p', ws2, headers);
    (if ws'.ok && p'.ok then Some((slot, initial)) else None, Close(ws', outer, headers))
  }

  /** Reads one element into what the earlier ones gave; an element with an error adds nothing. */
  function AddInit(c: Cursor, headers: bool, sofar: map<Slot, Int64>): (map<Slot, Int64>, Cursor) {
    var (entry, c') := ReadInit(c, headers);
    (if entry.Some? then sofar[entry.value.0 := entry.value.1] else sofar, c')
  }

  function ReadInits(c: Cursor, headers: bool, n: nat, sofar: map<Slot, Int64>): (map<Slot, Int64>, Cursor)
    decreases n
  {
    if n == 0 then (sofar, c)
    else
      var (next, c') := AddInit(c, headers, sofar);
      ReadInits(c', headers, n - 1, next)
  }

  function ReadInitParams(c: Cursor, headers: bool): (map<Slot, Int64>, Cursor) {
    var (n, c') := ReadU(c, 4);
    ReadInits(c', headers, n, map[])
  }

  function InitFields(p: InitParam, tail: seq<Byte>): seq<Byte>
    requires GoodInit(p)
  {
    InitFieldsFit(p);
    PutU(p.flag, 1, PutU(p.internalFlag, 1, PutU(p.lockType, 1, PutS(p.initial, 8,
      PutS(p.rangeMin, 4, PutS(p.rangeMax, 4, PutS(p.periodHour, 1, PutS(p.periodDuration, 2, tail))))))))
  }

  lemma InitFieldsFit(p: InitParam)
    ensures Fits(p.initial, 8) && Fits(p.slot, 1)
  {
    WordSizes();
  }

  function InitBody(p: InitParam, headers: bool, tail: seq<Byte>): seq<Byte>
    requires GoodInit(p)
  {
    InitFieldsFit(p);
    PutS(p.slot, 1, Wrap(InitFields(p, p.innerExtra), headers, tail))
  }

  function PutInit(p: InitParam, headers: bool, tail: seq<Byte>): seq<Byte>
    requires GoodInit(p)
  {
    Wrap(InitBody(p, headers, p.outerExtra), headers, tail)
  }

  function PutInits(ps: seq<InitParam>, headers: bool, tail: seq<Byte>): seq<Byte>
    requires forall i :: 0 <= i < |ps| ==> GoodInit(ps[i])
  {
    if ps == [] then tail else PutInit(ps[0], headers, PutInits(ps[1..], headers, tail))
  }

  function PutInitParams(ps: seq<InitParam>, headers: bool, tail: seq<Byte>): seq<Byte>
    requires forall i :: 0 <= i < |ps| ==> GoodInit(ps[i])
  {
    PutU(|ps|, 4, PutInits(ps, headers, tail))
  }

  lemma InitFieldsReadBack(p: InitParam, tail: seq<Byte>)
    requires GoodInit(p)
    ensures ReadInitFields(Cursor(InitFields(p, tail), true)) == (p.initial, Cursor(tail, true))
  {
    InitFieldsFit(p);
    var t8 := PutS(p.periodDuration, 2, tail);
    var t7 := PutS(p.periodHour, 1, t8);
    var t6 := PutS(p.rangeMax, 4, t7);
    var t5 := PutS(p.rangeMin, 4, t6);
    var t4 := PutS(p.initial, 8, t5);
    var t3 := PutU(p.lockType, 1, t4);
    var t2 := PutU(p.internalFlag, 1, t3);
    UReadsBack(p.flag, 1, t2);
    UReadsBack(p.internalFlag, 1, t3);
    UReadsBack(p.lockType, 1, t4);
    SReadsBack(p.initial, 8, t5);
    SReadsBack(p.rangeMin, 4, t6);
    SReadsBack(p.rangeMax, 4, t7);
    SReadsBack(p.periodHour, 1, t8);
    SReadsBack(p.periodDuration, 2, tail);
  }

  lemma InitFieldsAppend(p: InitParam, a: seq<Byte>, b: seq<Byte>)
    requires GoodInit(p)
    ensures InitFields(p, a) + b == InitFields(p, a + b)
    ensures |InitFields(p, a)| == 22 + |a|
  {
    InitFieldsFit(p);
    var t8 := PutS(p.periodDuration, 2, a);
    var t7 := PutS(p.periodHour, 1, t8);
    var t6 := PutS(p.rangeMax, 4, t7);
    var t5 := PutS(p.rangeMin, 4, t6);
    var t4 := PutS(p.initial, 8, t5);
    var t3 := PutU(p.lockType, 1, t4);
    var t2 := PutU(p.internalFlag, 1, t3);
    PutUAppends(Twos(p.periodDuration, 2), 2, a, b);
    PutUAppends(Twos(p.periodHour, 1), 1, t8, b);
    PutUAppends(Twos(p.rangeMax, 4), 4, t7, b);
    PutUAppends(Twos(p.rangeMin, 4), 4, t6, b);
    PutUAppends(Twos(p.initial, 8), 8, t5, b);
    PutUAppends(p.lockType, 1, t4, b);
    PutUAppends(p.internalFlag, 1, t3, b);
    PutUAppends(p.flag, 1, t2, b);
  }

  /** Trailing fields the reader does not know are harmless behind a header. */
  predicate Readable(p: InitParam, headers: bool) {
    GoodInit(p) && (headers || (p.innerExtra == [] && p.outerExtra == []))
  }

  predicate AllReadable(ps: seq<InitParam>, headers: bool) {
    forall i :: 0 <= i < |ps| ==> Readable(ps[i], headers)
  }

  lemma InitReadsBack(p: InitParam, headers: bool, tail: seq<Byte>)
    requires Readable(p, headers)
    ensures ReadInit(Cursor(PutInit(p, headers, tail), true), headers) ==
              (Some((p.slot, p.initial)), Cursor(tail, true))
  {
    InitFieldsFit(p);
    InitFieldsAppend(p, p.innerExtra, p.outerExtra);
    var fields := InitFields(p, p.innerExtra);
    if headers {
      OpenWrapped(InitBody(p, true, p.outerExtra), true, tail);
      SReadsBack(p.slot, 1, Wrap(fields, true, p.outerExtra));
      OpenWrapped(fields, true, p.outerExtra);
      InitFieldsReadBack(p, p.innerExtra);
    } else {
      InitFieldsAppend(p, [], tail);
      PutUAppends(Twos(p.slot, 1), 1, InitFields(p, []), tail);
      assert fields + p.outerExtra == InitFields(p, []) && [] + tail == tail;
      SReadsBack(p.slot, 1, InitFields(p, tail));
      InitFieldsReadBack(p, tail);
    }
  }

  /** Later entries replace earlier ones with the same slot. */
  function Collect(ps: seq<InitParam>, sofar: map<Slot, Int64>): map<Slot, Int64> {
    if ps == [] then sofar else Collect(ps[1..], sofar[ps[0].slot := ps[0].initial])
  }

  lemma OneInitReadsBack(p: InitParam, headers: bool, after: seq<Byte>, n: nat, sofar: map<Slot, Int64>)
    requires Readable(p, headers)
    ensures ReadInits(Cursor(PutInit(p, headers, after), true), headers, n + 1, sofar) ==
              ReadInits(Cursor(after, true), headers, n, sofar[p.slot := p.initial])
  {
    InitReadsBack(p, headers, after);
  }

  lemma {:induction false} InitsReadBack(ps: seq<InitParam>, headers: bool, tail: seq<Byte>, sofar: map<Slot, Int64>)
    requires AllReadable(ps, headers)
    ensures ReadInits(Cursor(PutInits(ps, headers, tail), true), headers, |ps|, sofar) ==
              (Collect(ps, sofar), Cursor(tail, true))
  {
    if ps == [] {
    } else {
      var after := PutInits(ps[1..], headers, tail);
      OneInitReadsBack(ps[0], headers, after, |ps| - 1, sofar);
      InitsReadBack(ps[1..], headers, tail, sofar[ps[0].slot := ps[0].initial]);
    }
  }

  /** Reading a written list gives each slot its last initial value, and leaves exactly what follows. */
  lemma InitParamsRoundTrip(ps: seq<InitParam>, headers: bool, tail: seq<Byte>)
    requires |ps| < Pow256(4) && AllReadable(ps, headers)
    ensures ReadInitParams(Cursor(PutInitParams(ps, headers, tail), true), headers) ==
              (Collect(ps, map[]), Cursor(tail, true))
  {
    UReadsBack(|ps|, 4, PutInits(ps, headers, tail));
    InitsReadBack(ps, headers, tail, map[]);
  }

  lemma {:induction false} LastInitWins(ps: seq<InitParam>, sofar: map<Slot, Int64>, i: nat)
    requires i < |ps| && forall j :: i < j < |ps| ==> ps[j].slot != ps[i].slot
    ensures ps[i].slot in Collect(ps, sofar) && Collect(ps, sofar)[ps[i].slot] == ps[i].initial
  {
    var next := sofar[ps[0].slot := ps[0].initial];
    if i == 0 {
      CollectKeeps(ps[1..], next, ps[0].slot);
    } else {
      LastInitWins(ps[1..], next, i - 1);
    }
  }

  /** No slot is collected that no entry names. */
  lemma {:induction false} CollectsNamed(ps: seq<InitParam>, sofar: map<Slot, Int64>, slot: Slot)
    requires slot in Collect(ps, sofar)
    ensures slot in sofar || exists i :: 0 <= i < |ps| && ps[i].slot == slot
  {
    if ps == [] {
    } else {
      CollectsNamed(ps[1..], sofar[ps[0].slot := ps[0].initial], slot);
      if i :| 0 <= i < |ps| - 1 && ps[1..][i].slot == slot {
        assert ps[i + 1].slot == slot;
      }
    }
  }

  lemma {:induction false} CollectKeeps(ps: seq<InitParam>, sofar: map<Slot, Int64>, slot: Slot)
    requires forall i :: 0 <= i < |ps| ==> ps[i].slot != slot
    ensures slot in Collect(ps, sofar) <==> slot in sofar
    ensures slot in sofar ==> Collect(ps, sofar)[slot] == sofar[slot]
  {
    if ps == [] {
    } else {
      CollectKeeps(ps[1..], sofar[ps[0].slot := ps[0].initial], slot);
    }
  }

  // ----- rating maps --------------------------------------------------------------------------

  type Entry = (Slot, RatingInfo)

  /** Total, count and initial value. */
  type Info = (int, nat, int)

  function ReadRatingFields(c: Cursor): (Info, Cursor) {
    var (total, c1) := ReadS(c, 8);
    var (count, c2) := ReadU(c1, 4);
    var (initial, c3) := ReadS(c2, 8);
    ((total, count, initial), c3)
  }

  function ReadRatingInfo(c: Cursor, headers: bool): (Info, Cursor) {
    var (v, outer) := Open(c, headers);
    var (info, v') := ReadRatingFields(v);
    (info, Close(v', outer, headers))
  }

  function ReadEntries(c: Cursor, headers: bool, n: nat): (seq<(int, Info)>, Cursor)
    decreases n
  {
    if n == 0 then ([], c)
    else
      var (k, c1) := ReadS(c, 1);
      var (v, c2) := ReadRatingInfo(c1, headers);
      var (rest, c3) := ReadEntries(c2, headers, n - 1);
      ([(k, v)] + rest, c3)
  }

  function ReadRatings(c: Cursor, headers: bool): (seq<(int, Info)>, Cursor) {
    var (n, c') := ReadU(c, 4);
    ReadEntries(c', headers, n)
  }

  lemma EntryFits(e: Entry)
    ensures Fits(e.0, 1) && Fits(e.1.total, 8) && Fits(e.1.initial, 8) && e.1.count < Pow256(4)
  {
    WordSizes();
  }

  function RatingBody(e: Entry, tail: seq<Byte>): seq<Byte> {
    EntryFits(e);
    PutS(e.1.total, 8, PutU(e.1.count, 4, PutS(e.1.initial, 8, tail)))
  }

  function PutEntries(es: seq<Entry>, headers: bool, tail: seq<Byte>): seq<Byte> {
    if es == [] then tail
    else
      EntryFits(es[0]);
      PutS(es[0].0, 1, Wrap(RatingBody(es[0], []), headers, PutEntries(es[1..], headers, tail)))
  }

  function PutRatings(es: seq<Entry>, headers: bool, tail: seq<Byte>): seq<Byte> {
    PutU(|es|, 4, PutEntries(es, headers, tail))
  }

  lemma RatingBodyAppends(e: Entry, tail: seq<Byte>)
    ensures RatingBody(e, []) + tail == RatingBody(e, tail)
  {
    EntryFits(e);
    PutUAppends(Twos(e.1.initial, 8), 8, [], tail);
    PutUAppends(e.1.count, 4, PutS(e.1.initial, 8, []), tail);
    PutUAppends(Twos(e.1.total, 8), 8, PutU(e.1.count, 4, PutS(e.1.initial, 8, [])), tail);
    assert [] + tail == tail;
  }

  lemma RatingFieldsReadBack(e: Entry, tail: seq<Byte>)
    ensures ReadRatingFields(Cursor(RatingBody(e, tail), true)) == (InfoOf(e), Cursor(tail, true))
  {
    EntryFits(e);
    SReadsBack(e.1.total, 8, PutU(e.1.count, 4, PutS(e.1.initial, 8, tail)));
    UReadsBack(e.1.count, 4, PutS(e.1.initial, 8, tail));
    SReadsBack(e.1.initial, 8, tail);
  }

  lemma RatingReadsBack(e: Entry, headers: bool, tail: seq<Byte>)
    ensures ReadRatingInfo(Cursor(Wrap(RatingBody(e, []), headers, tail), true), headers) ==
              (InfoOf(e), Cursor(tail, true))
  {
    OpenWrapped(RatingBody(e, []), headers, tail);
    RatingBodyAppends(e, tail);
    RatingFieldsReadBack(e, tail);
    RatingFieldsReadBack(e, []);
  }

  function InfoOf(e: Entry): Info {
    (e.1.total as int, e.1.count as nat, e.1.initial as int)
  }

  function Plain(es: seq<Entry>): seq<(int, Info)> {
    if es == [] then [] else [(es[0].0 as int, InfoOf(es[0]))] + Plain(es[1..])
  }

  lemma OneEntryReadsBack(e: Entry, headers: bool, after: seq<Byte>, n: nat)
    ensures Fits(e.0, 1)
    ensures var (rest, c) := ReadEntries(Cursor(after, true), headers, n);
            ReadEntries(Cursor(PutS(e.0, 1, Wrap(RatingBody(e, []), headers, after)), true), headers, n + 1) ==
              ([(e.0 as int, InfoOf(e))] + rest, c)
  {
    EntryFits(e);
    SReadsBack(e.0, 1, Wrap(RatingBody(e, []), headers, after));
    RatingReadsBack(e, headers, after);
  }

  lemma {:induction false} EntriesReadBack(es: seq<Entry>, headers: bool, tail: seq<Byte>)
    ensures ReadEntries(Cursor(PutEntries(es, headers, tail), true), headers, |es|) ==
              (Plain(es), Cursor(tail, true))
  {
    if es == [] {
    } else {
      OneEntryReadsBack(es[0], headers, PutEntries(es[1..], headers, tail), |es| - 1);
      EntriesReadBack(es[1..], headers, tail);
    }
  }

  /** A ratings map written in any order reads back entry by entry, and leaves exactly what follows. */
  lemma RatingsRoundTrip(es: seq<Entry>, headers: bool, tail: seq<Byte>)
    requires |es| < Pow256(4)
    ensures ReadRatings(Cursor(PutRatings(es, headers, tail), true), headers) == (Plain(es), Cursor(tail, true))
  {
    UReadsBack(|es|, 4, PutEntries(es, headers, tail));
    EntriesReadBack(es, headers, tail);
  }
}
