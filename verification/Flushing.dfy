/** Turns of the flusher: what they leave in the data file, and exactly when that is all there is. */
module Flushing {
  import opened Balloons
  import opened RecordSteps
  import opened RecordInvariants

  // ----- turns --------------------------------------------------------------------------------

  /** The flusher opens the file and writes its list. */
  ghost function WriteOut(c: Core): Core
    requires c.flusher.Holding?
  {
    Next(Next(c, FlushOpen(true)), FlushWrite(true))
  }

  /** The flusher runs on, alone and without a failure, to the end of the turn it is in. */
  ghost function FinishTurn(c: Core, list: seq<Persisted>): Core
    requires Flushes(list, c.recs)
  {
    match c.flusher
    case Idle => c
    case Swapped => WriteOut(Next(c, FlushSnap(list)))
    case Holding(_) => WriteOut(c)
    case Writing(_) => Next(c, FlushWrite(true))
  }

  /** One whole turn of the flusher with nothing else running. */
  ghost function FlushTurn(c: Core, list: seq<Persisted>): Core
    requires c.flusher.Idle? && Flushes(list, c.recs)
  {
    if !c.dirty then c else FinishTurn(Next(c, FlushSwap), list)
  }

  /** The turn the flusher is in, and one more. */
  ghost function Settle(c: Core, list: seq<Persisted>): Core
    requires Flushes(list, c.recs)
  {
    FinishTurnWrites(c, list);
    FlushTurn(FinishTurn(c, list), list)
  }

  lemma WriteOutWrites(c: Core)
    requires c.flusher.Holding?
    ensures WriteOut(c) == c.(flusher := Idle, disk := Whole(c.flusher.image))
  {
    var c1 := Next(c, FlushOpen(true));
    assert c1 == c.(flusher := Writing(c.flusher.image), disk := Unreadable) by {
      assert c.log + [] == c.log;
    }
    assert c1.log + [] == c1.log;
  }

  lemma FinishTurnWrites(c: Core, list: seq<Persisted>)
    requires Flushes(list, c.recs)
    ensures FinishTurn(c, list) ==
              c.(flusher := Idle, disk := match c.flusher
                                          case Idle => c.disk
                                          case Swapped => Whole(Image(list, c.log))
                                          case Holding(image) => Whole(image)
                                          case Writing(image) => Whole(image))
  {
    assert c.log + [] == c.log;
    if c.flusher.Swapped? {
      WriteOutWrites(Next(c, FlushSnap(list)));
    } else if c.flusher.Holding? {
      WriteOutWrites(c);
    }
  }

  lemma SettleWrites(c: Core, list: seq<Persisted>)
    requires Flushes(list, c.recs)
    ensures var c' := Settle(c, list);
            && c'.flusher.Idle? && !c'.dirty && c'.recs == c.recs && c'.tasks == c.tasks
            && c'.disk == if c.dirty || c.flusher.Swapped? then Whole(Image(list, c.log))
                          else if c.flusher.Has() then Whole(c.flusher.image)
                          else c.disk
  {
    FinishTurnWrites(c, list);
    var c1 := FinishTurn(c, list);
    if c1.dirty {
      assert c1.log + [] == c1.log;
      FinishTurnWrites(Next(c1, FlushSwap), list);
    }
  }

  // ----- when the file is complete ------------------------------------------------------------

  /** What a start would load is what the records are. */
  predicate FileIsComplete(c: Core) {
    AsMap(Stored(c.disk)) == ProjectAll(c.recs)
  }

  /** Left alone, the flusher completes the file if and only if it has cause to write, or nothing to make good. */
  lemma FlushCompletesExactlyWhen(c: Core, list: seq<Persisted>)
    requires Flushes(list, c.recs)
    ensures FileIsComplete(Settle(c, list)) <==>
              (c.dirty || c.flusher.Swapped? || AsMap(Latest(c)) == ProjectAll(c.recs))
  {
    SettleWrites(c, list);
  }

  /** Once every request has set its mark: the flusher completes the file if and only if no update was lost. */
  lemma QuiescentFlushIsComplete(c: Core, list: seq<Persisted>, now: int)
    requires !SomeoneOwes(c.tasks) && Flushes(list, c.recs)
    ensures FileIsComplete(Settle(c, list)) <==> NoLostUpdate(c)
    ensures NoLostUpdate(c) ==> Reboot(Settle(c, list), now).recs == Apply(c.recs, Restarted(now))
  {
    FlushCompletesExactlyWhen(c, list);
    SettleWrites(c, list);
    if NoLostUpdate(c) {
      LoadRestoresEach(Stored(Settle(c, list).disk), now);
    }
  }

  /**
   * A failure with no mark set or owed leaves the file complete if and only if it was so before: if the
   * file cannot be opened, when it held the very list, and if the write breaks off, when there is no record.
   */
  lemma FailedFlushExactlyWhen(c: Core, list: seq<Persisted>)
    requires NoLostUpdate(c) && !c.dirty && !SomeoneOwes(c.tasks) && Flushes(list, c.recs)
    ensures c.flusher.Holding? ==>
              (FileIsComplete(Settle(Next(c, FlushOpen(false)), list)) <==>
                (AsMap(Stored(c.disk)) == AsMap(c.flusher.image.list)))
    ensures c.flusher.Writing? ==>
              (FileIsComplete(Settle(Next(c, FlushWrite(false)), list)) <==> c.recs == map[])
  {
    if c.flusher.Holding? {
      FlushCompletesExactlyWhen(Next(c, FlushOpen(false)), list);
    } else if c.flusher.Writing? {
      FlushCompletesExactlyWhen(Next(c, FlushWrite(false)), list);
      assert ProjectAll(c.recs).Keys == c.recs.Keys;
    }
  }

  /** A process that has just started has lost nothing unless a stored posting time was zero and is now not. */
  lemma StartIsCompleteExactlyWhen(file: File, now: int)
    ensures NoLostUpdate(Boot(file, now)) <==>
              (forall id <- AsMap(Stored(file)) :: AsMap(Stored(file))[id].wallUnix != 0 || now / NANOS == 0)
  {
    LoadedIsCurrent(Stored(file), now);
  }

  // ----- what reaches the file ----------------------------------------------------------------

  /** Steps on the records alone. */
  ghost predicate CanAct(c: Core, acts: seq<Action>)
    decreases |acts|, 0
  {
    acts == [] || (CanAct(c, acts[..|acts| - 1]) && Enabled(Act(c, acts[..|acts| - 1]), acts[|acts| - 1]))
  }

  ghost function Act(c: Core, acts: seq<Action>): Core
    requires CanAct(c, acts)
    decreases |acts|, 1
  {
    if acts == [] then c else Next(Act(c, acts[..|acts| - 1]), acts[|acts| - 1])
  }

  /** The turn has not come to its end. */
  predicate KeepsList(a: Action) {
    !a.FlushWrite? && (a.FlushOpen? ==> a.ok)
  }

  lemma {:induction false} HeldUntilWritten(c: Core, acts: seq<Action>)
    requires c.flusher.Has() && CanAct(c, acts) && forall a <- acts :: KeepsList(a)
    ensures Act(c, acts).flusher.Has() && Act(c, acts).flusher.image == c.flusher.image
  {
    if acts == [] {
    } else {
      var before := acts[..|acts| - 1];
      assert acts[|acts| - 1] in acts && forall x <- before :: x in acts;
      HeldUntilWritten(c, before);
    }
  }

  /** After a turn that succeeds, a crash recovers everything logged when its snapshot was taken. */
  lemma TurnRecoversSnapshot(c: Core, list: seq<Persisted>, between: seq<Action>)
    requires c.flusher.Swapped? && Flushes(list, c.recs)
    requires CanAct(Next(c, FlushSnap(list)), between) && forall a <- between :: KeepsList(a)
    requires Enabled(Act(Next(c, FlushSnap(list)), between), FlushWrite(true))
    ensures Next(Act(Next(c, FlushSnap(list)), between), FlushWrite(true)).disk == Whole(Image(list, c.log))
  {
    HeldUntilWritten(Next(c, FlushSnap(list)), between);
  }
}
