/** The whole server: records, finds and restarts, and what holds in every run of it. */
module System {
  import opened Words
  import opened Options
  import opened Balloons
  import opened History
  import opened Search
  import opened Tokens
  import opened RecordSteps
  import opened RecordInvariants
  import opened Flushing
  import opened FindSteps
  import opened FindInvariants

  datatype Sys = Sys(core: Core, finder: Finder)

  datatype Step = Record(a: Action) | Find(f: FindAction) | Restart(now: int)

  ghost predicate CanStep(s: Sys, e: Step) {
    match e
    case Record(a) => Enabled(s.core, a)
    case Find(f) => CanFind(s.core, s.finder, f)
    case Restart(now) => true
  }

  function After(s: Sys, e: Step): Sys
    requires CanStep(s, e)
  {
    match e
    case Record(a) => s.(core := Next(s.core, a))
    case Find(f) => s.(finder := FindNext(s.core, s.finder, f))
    case Restart(now) => Sys(Reboot(s.core, now), NoFinds(s.finder.clock))
  }

  /** The data file before the first start: it holds some list, or cannot be read. */
  function FirstFile(list: Option<seq<Persisted>>): File {
    if list.Some? then Whole(Image(list.value, [])) else Unreadable
  }

  /** What is there before the first operation. */
  function FirstRecords(list: Option<seq<Persisted>>): Store {
    Load(Stored(FirstFile(list)), 0)
  }

  /** The first process: any data file, nothing in flight. */
  function Start(list: Option<seq<Persisted>>, clock: int, now: int): Sys {
    Sys(Boot(FirstFile(list), now), NoFinds(clock))
  }

  /** The steps can be taken in order from `s`; `Exec` is where they lead. */
  ghost predicate CanRun(s: Sys, run: seq<Step>)
    decreases |run|, 0
  {
    run == [] || (CanRun(s, run[..|run| - 1]) && CanStep(Exec(s, run[..|run| - 1]), run[|run| - 1]))
  }

  ghost function Exec(s: Sys, run: seq<Step>): Sys
    requires CanRun(s, run)
    decreases |run|, 1
  {
    if run == [] then s else After(Exec(s, run[..|run| - 1]), run[|run| - 1])
  }

  lemma Extend(s: Sys, run: seq<Step>, e: Step)
    requires CanRun(s, run) && CanStep(Exec(s, run), e)
    ensures CanRun(s, run + [e]) && Exec(s, run + [e]) == After(Exec(s, run), e)
  {
    assert (run + [e])[..|run|] == run;
  }

  // ----- the invariant ------------------------------------------------------------------------

  ghost predicate Inv(base: Store, s: Sys) {
    && (forall id <- base :: base[id].buffers == map[])
    && CoreInv(base, s.core)
    && Marks(s.core, s.finder)
    && Evidence(s.finder)
    && TraceOk(base, s.core.log, s.finder.trace)
  }

  lemma InvStep(base: Store, s: Sys, e: Step)
    requires Inv(base, s) && CanStep(s, e)
    ensures Inv(base, After(s, e))
  {
    match e {
      case Record(a) =>
        CoreInvStep(base, s.core, a);
        MarksRecordStep(s.core, a, s.finder);
        TraceRecordStep(base, s.core, a, s.finder.trace);
      case Find(f) =>
        MarksFindStep(s.core, s.finder, f);
        EvidenceStep(s.core, s.finder, f);
        TraceFindStep(base, s.core, s.finder, f);
      case Restart(now) =>
        CoreInvReboot(base, s.core, now);
    }
  }

  lemma {:induction false} InvRun(base: Store, s: Sys, run: seq<Step>)
    requires Inv(base, s) && CanRun(s, run)
    ensures Inv(base, Exec(s, run))
  {
    if run == [] {
    } else {
      InvRun(base, s, run[..|run| - 1]);
      InvStep(base, Exec(s, run[..|run| - 1]), run[|run| - 1]);
    }
  }

  /** Every state of every run from any data file, through any number of restarts. */
  lemma Reachable(list: Option<seq<Persisted>>, clock: int, now: int, run: seq<Step>)
    requires CanRun(Start(list, clock, now), run)
    ensures Inv(FirstRecords(list), Exec(Start(list, clock, now), run))
  {
    CoreInvStart(FirstFile(list), now);
    LoadRestoresEach(Stored(FirstFile(list)), 0);
    InvRun(FirstRecords(list), Start(list, clock, now), run);
  }

  // ----- identifiers --------------------------------------------------------------------------

  /** No insert overwrites a record. */
  lemma InsertsAreFresh(base: Store, s: Sys, t: nat)
    requires Inv(base, s) && CanStep(s, Record(Insert(t)))
    ensures s.core.tasks[t].b.id !in s.core.recs
    ensures After(s, Record(Insert(t))).core.recs == s.core.recs[s.core.tasks[t].b.id := s.core.tasks[t].b]
  {
  }

  /** A deletion and a failed upload leave no record under the id, complete or not, and every other as it was. */
  lemma RemovalsRemove(base: Store, s: Sys, t: nat, id: Id)
    requires Inv(base, s) && t !in s.core.tasks
    ensures After(s, Record(Delete(t, id))).core.recs == s.core.recs - {id}
    ensures After(s, Record(CompletePost(t, id, false))).core.recs == s.core.recs - {id}
  {
  }

  /** A successful upload completes the record, if there still is one, and changes nothing else. */
  lemma CompletionsComplete(base: Store, s: Sys, t: nat, id: Id)
    requires Inv(base, s) && t !in s.core.tasks
    ensures var before, after := s.core.recs, After(s, Record(CompletePost(t, id, true))).core.recs;
            && after.Keys == before.Keys
            && forall i <- before :: after[i] == if i == id then before[i].(complete := true) else before[i]
  {
  }

  /** The ids of two posts in flight differ, wherever each of them stands. */
  lemma InFlightIdsDiffer(base: Store, s: Sys, t: nat, u: nat)
    requires Inv(base, s) && t in s.core.tasks && u in s.core.tasks && t != u
    requires Carries(s.core.tasks[t]) && Carries(s.core.tasks[u])
    ensures s.core.tasks[t].b.id != s.core.tasks[u].b.id
    ensures 0 < s.core.tasks[t].b.id < s.core.nextId
  {
    assert CarriedOk(s.core, s.core.tasks[t]);
  }

  /** The clean-up owes a dirty mark exactly when it removed a record, except for a record with id 0. */
  lemma ZeroMeansNothingReplaced(base: Store, s: Sys, t: nat, victim: Option<Id>)
    requires Inv(base, s) && CanStep(s, Record(Cleanup(t, victim)))
    ensures var after := After(s, Record(Cleanup(t, victim))).core;
            ((t in after.tasks && after.tasks[t] == Mutated) <==> after.recs != s.core.recs)
              <==> victim != Some(0)
    ensures ZeroFree(s.core) ==> victim != Some(0)
  {
    if victim.Some? {
      assert victim.value in s.core.recs;
      assert victim.value !in Apply(s.core.recs, Removed(victim.value));
    }
  }

  // ----- flushing -----------------------------------------------------------------------------

  /** No flush fails and every post has a posting time; restarts and all else may happen. */
  predicate FaultlessRun(run: seq<Step>) {
    forall e <- run :: e.Record? ==> Faultless(e.a)
  }

  /** Without faults, from a state without them, no update is ever lost. */
  lemma {:induction false} HealthyRun(base: Store, s: Sys, run: seq<Step>)
    requires Inv(base, s) && CanRun(s, run) && Healthy(s.core) && FaultlessRun(run)
    ensures Healthy(Exec(s, run).core)
  {
    if run == [] {
    } else {
      var before, e := run[..|run| - 1], run[|run| - 1];
      assert e in run && forall x <- before :: x in run;
      HealthyRun(base, s, before);
      InvRun(base, s, before);
      match e {
        case Record(a) => HealthyStep(Exec(s, before).core, a);
        case Find(f) =>
        case Restart(now) => HealthyBoot(Exec(s, before).core.disk, now);
      }
    }
  }

  /**
   * From a file without faults, whatever the interleaving: any difference between the records and the
   * file has someone left to notice it, and once all marks are set, the flusher completes the file.
   */
  lemma HealthyFromStart(list: Option<seq<Persisted>>, clock: int, now: int, run: seq<Step>,
                         flushed: seq<Persisted>, later: int)
    requires GoodFile(Stored(FirstFile(list))) && CanRun(Start(list, clock, now), run) && FaultlessRun(run)
    requires Flushes(flushed, Exec(Start(list, clock, now), run).core.recs)
    ensures var c := Exec(Start(list, clock, now), run).core;
            AsMap(Latest(c)) == ProjectAll(c.recs) || c.dirty || c.flusher.Swapped? || SomeoneOwes(c.tasks)
    ensures var c := Exec(Start(list, clock, now), run).core;
            !SomeoneOwes(c.tasks) ==>
              && FileIsComplete(Settle(c, flushed))
              && Reboot(Settle(c, flushed), later).recs == Apply(c.recs, Restarted(later))
  {
    HealthyBoot(FirstFile(list), now);
    Reachable(list, clock, now, []);
    HealthyRun(FirstRecords(list), Start(list, clock, now), run);
    var c := Exec(Start(list, clock, now), run).core;
    if !SomeoneOwes(c.tasks) {
      QuiescentFlushIsComplete(c, flushed, later);
    }
  }

  /** The step is no restart, and none that can leave a difference unnoticed. */
  predicate Notices(e: Step) {
    !e.Restart? && (e.Record? ==> !Forgets(e.a))
  }

  lemma {:induction false} NothingForgotten(s: Sys, run: seq<Step>)
    requires CanRun(s, run) && NoLostUpdate(s.core) && forall e <- run :: Notices(e)
    ensures NoLostUpdate(Exec(s, run).core)
  {
    if run == [] {
    } else {
      var before, e := run[..|run| - 1], run[|run| - 1];
      assert e in run && forall x <- before :: x in run;
      NothingForgotten(s, before);
      if e.Record? {
        NoLostUpdateStep(Exec(s, before).core, e.a);
      }
    }
  }

  /** Whatever was forgotten before, from a snapshot on no update is lost until the next fault. */
  lemma NoticedSinceSnapshot(s: Sys, list: seq<Persisted>, run: seq<Step>)
    requires CanStep(s, Record(FlushSnap(list))) && CanRun(After(s, Record(FlushSnap(list))), run)
    requires forall e <- run :: Notices(e)
    ensures NoLostUpdate(Exec(After(s, Record(FlushSnap(list))), run).core)
  {
    SnapshotNotices(s.core, list);
    NothingForgotten(After(s, Record(FlushSnap(list))), run);
  }

  // ----- crashes ------------------------------------------------------------------------------

  /** These are the records after a restart that lost no more than the operations behind some point, at `from` or later. */
  ghost predicate PrefixRecovered(base: Store, log: seq<Op>, from: nat, recs: Store, now: int) {
    exists n :: from <= n <= |log| && recs == Apply(Replay(base, log[..n]), Restarted(now))
  }

  /** At that point, or later, there was no record at all. */
  ghost predicate WasEmpty(base: Store, log: seq<Op>, from: nat) {
    exists n :: from <= n <= |log| && Replay(base, log[..n]) == map[]
  }

  lemma RestartedEmpty(m: Store, now: int)
    ensures Apply(m, Restarted(now)) == map[] <==> m == map[]
  {
    assert Apply(m, Restarted(now)).Keys == m.Keys;
  }

  /**
   * A crash recovers a whole prefix of the operations if and only if the file can be read, unless
   * there was nothing to recover; from a file that cannot be read the process starts empty, at id 1.
   */
  lemma CrashRecoversPrefix(base: Store, s: Sys, from: nat, now: int)
    requires Inv(base, s) && (s.core.disk.Whole? ==> from <= |s.core.disk.image.ops|)
    ensures PrefixRecovered(base, s.core.log, from, Reboot(s.core, now).recs, now) <==>
              (s.core.disk.Whole? || WasEmpty(base, s.core.log, from))
    ensures s.core.disk.Whole? ==>
              var ops := s.core.disk.image.ops;
              ops <= s.core.log && Reboot(s.core, now).recs == Apply(Replay(base, ops), Restarted(now))
    ensures s.core.disk.Unreadable? ==> Reboot(s.core, now).recs == map[] && Reboot(s.core, now).nextId == 1
  {
    var log := s.core.log;
    if s.core.disk.Whole? {
      var ops := s.core.disk.image.ops;
      LoggedReboot(base, s.core, now);
      ReplaySnoc(base, ops, Restarted(now));
      assert log[..|ops|] == ops;
    } else {
      forall n: nat | n <= |log|
        ensures Apply(Replay(base, log[..n]), Restarted(now)) == map[] <==> Replay(base, log[..n]) == map[]
      {
        RestartedEmpty(Replay(base, log[..n]), now);
      }
    }
  }

  /** Within a process, the file becomes unreadable when it is opened, and stays so if the write breaks off. */
  lemma RecoveryNeverShrinks(base: Store, s: Sys, e: Step)
    requires Inv(base, s) && CanStep(s, e) && !e.Restart? && s.core.disk.Whole?
    ensures After(s, e).core.disk.Whole? <==> (e != Record(FlushOpen(true)) && e != Record(FlushWrite(false)))
    ensures After(s, e).core.disk.Whole? ==> s.core.disk.image.ops <= After(s, e).core.disk.image.ops
  {
  }

  /** What the file held is in the log, in a list on its way, and in any file that can be read. */
  ghost predicate Retains(c: Core, ops: seq<Op>) {
    && ops <= c.log
    && (c.disk.Whole? ==> ops <= c.disk.image.ops)
    && (c.flusher.Has() ==> ops <= c.flusher.image.ops)
  }

  lemma RetainsStep(c: Core, a: Action, ops: seq<Op>)
    requires Enabled(c, a) && Retains(c, ops)
    ensures Retains(Next(c, a), ops)
  {
    assert c.log <= Next(c, a).log;
  }

  lemma {:induction false} RetainsRun(s: Sys, run: seq<Step>, ops: seq<Op>)
    requires CanRun(s, run) && Retains(s.core, ops) && forall e <- run :: !e.Restart?
    ensures Retains(Exec(s, run).core, ops)
  {
    if run == [] {
    } else {
      var before, e := run[..|run| - 1], run[|run| - 1];
      assert e in run && forall x <- before :: x in run;
      RetainsRun(s, before, ops);
      if e.Record? {
        RetainsStep(Exec(s, before).core, e.a, ops);
      }
    }
  }

  /**
   * From any moment at which the file can be read, to any later one in the process: a crash then keeps
   * all that the file held if and only if it can still be read, or there was no record at some time since.
   */
  lemma CrashKeepsFileExactlyWhen(base: Store, s: Sys, run: seq<Step>, now: int)
    requires Inv(base, s) && CanRun(s, run) && s.core.disk.Whole? && forall e <- run :: !e.Restart?
    ensures var c, ops := Exec(s, run).core, s.core.disk.image.ops;
            && ops <= c.log && (c.disk.Whole? ==> ops <= c.disk.image.ops)
            && (PrefixRecovered(base, c.log, |ops|, Reboot(c, now).recs, now) <==>
                 (c.disk.Whole? || WasEmpty(base, c.log, |ops|)))
  {
    RetainsRun(s, run, s.core.disk.image.ops);
    InvRun(base, s, run);
    CrashRecoversPrefix(base, Exec(s, run), |s.core.disk.image.ops|, now);
  }

  // ----- what the log says --------------------------------------------------------------------

  /** A queue read in any reachable state returns what was added since it was last emptied. */
  lemma QueuesInEveryRun(base: Store, s: Sys, id: Id, u: UInt32)
    requires Inv(base, s) && id in s.core.recs
    ensures QueueAt(s.core.recs[id], SlotOf(u)) == Added(s.core.log[Emptied(s.core.log, id, u)..], id, u)
  {
    LogFacts(base, s.core);
    QueueRefinesLog(base, s.core.log, id, u);
  }

  /** Records posted since the first file was loaded have ledgers that agree with the log. */
  lemma LedgersInEveryRun(base: Store, s: Sys, id: Id, slot: Slot)
    requires Inv(base, s) && id in s.core.recs && Birth(s.core.log, id) > 0
    ensures LedgerAgrees(s.core.recs[id])
    ensures SlotCounts(s.core.recs[id], s.core.log[Birth(s.core.log, id)..], id, slot)
  {
    LogFacts(base, s.core);
    PostedLedger(base, s.core.log, id, slot);
  }

  // ----- one active balloon -------------------------------------------------------------------

  /** With no clean-up due, no upload completed, and at most one loaded, at most one is active. */
  lemma AtMostOneActive(base: Store, s: Sys, key: Key)
    requires Inv(base, s)
    ensures |ActiveIds(s.core.recs, key)| <=
              AtLeastOne(|ActiveIds(s.core.loaded, key)|) + |CleanupsDue(s.core.tasks, key)| + s.core.uploads[key]
    ensures CleanupsDue(s.core.tasks, key) == {} && key !in s.core.uploads && |ActiveIds(s.core.loaded, key)| <= 1 ==>
              |ActiveIds(s.core.recs, key)| <= 1
  {
    assert FewActive(s.core, key);
  }

  /** A completed upload keeps the rule if and only if nothing of its owner and type was active before. */
  lemma CompletionKeepsRule(base: Store, s: Sys, t: nat, id: Id)
    requires Inv(base, s) && CanStep(s, Record(CompletePost(t, id, true)))
    requires id in s.core.recs && !s.core.recs[id].complete
    ensures var key, after := KeyOf(s.core.recs[id]), After(s, Record(CompletePost(t, id, true))).core.recs;
            |ActiveIds(after, key)| <= 1 <==> ActiveIds(s.core.recs, key) == {}
  {
    var key, after := KeyOf(s.core.recs[id]), After(s, Record(CompletePost(t, id, true))).core.recs;
    assert ActiveIds(after, key) == ActiveIds(s.core.recs, key) + {id};
    assert id !in ActiveIds(s.core.recs, key);
  }

  /** A clean-up with no victim is one that found no other complete record of its owner and type. */
  lemma CleanupFinds(base: Store, s: Sys, t: nat, victim: Option<Id>, id: Id)
    requires Inv(base, s) && CanStep(s, Record(Cleanup(t, victim)))
    ensures After(s, Record(Cleanup(t, victim))).core.recs ==
              if victim.Some? then s.core.recs - {victim.value} else s.core.recs
    ensures var b := s.core.tasks[t].b;
            id in s.core.recs && id != b.id && s.core.recs[id].complete
            && s.core.recs[id].post.owner == b.post.owner && s.core.recs[id].post.dataType == b.post.dataType ==>
              victim.Some?
    ensures victim.Some? ==> victim.value in s.core.recs
  {
    assert victim.None? && id in s.core.recs ==> !Predecessor(s.core.recs, id, s.core.tasks[t].b);
  }

  /** Ratings and buffers take effect and are logged, all of them and in their order. */
  lemma BatchesApply(base: Store, s: Sys, a: Action)
    requires Inv(base, s) && CanStep(s, Record(a)) && (a.RateAll? || a.Buffer?)
    ensures After(s, Record(a)).core.recs == Replay(s.core.recs, a.ops)
    ensures After(s, Record(a)).core.log == s.core.log + a.ops
  {
  }

  /** A clean-up removes at most one record: never its own, never another owner's or type's. */
  lemma CleanupSpares(base: Store, s: Sys, t: nat, victim: Option<Id>, id: Id)
    requires Inv(base, s) && CanStep(s, Record(Cleanup(t, victim)))
    requires id in s.core.recs
    requires var b, r := s.core.tasks[t].b, s.core.recs[id];
             id == b.id || !r.complete || r.post.owner != b.post.owner || r.post.dataType != b.post.dataType || Some(id) != victim
    ensures var after := After(s, Record(Cleanup(t, victim))).core.recs;
            id in after && after[id] == s.core.recs[id]
  {
  }

  // ----- found-marks --------------------------------------------------------------------------

  /** No player ever holds a mark on an own record, so the "cleared" bit of a listing is never set. */
  lemma NoSelfMarks(base: Store, s: Sys, pid: Pid, id: Id, t: nat)
    requires Inv(base, s) && id in s.core.recs && s.core.recs[id].post.owner == pid
    ensures (pid, id) !in s.finder.found
    ensures forall seen :: MayRead(s.finder, t, seen) && s.finder.tasks[t].pid == pid ==> id !in seen
  {
    assert (pid, id) in s.finder.found ==> Foreign(s.core, (pid, id).0, (pid, id).1);
  }

  /** The bit, always false, says whether anyone has popped the balloon exactly when no one holds a mark on it. */
  lemma ClearedBitIsRightWhenUnfound(base: Store, s: Sys, id: Id, t: nat, seen: set<Id>)
    requires Inv(base, s) && id in s.core.recs && MayRead(s.finder, t, seen)
    requires s.core.recs[id].post.owner == s.finder.tasks[t].pid
    ensures var popped := exists m <- s.finder.found :: m.1 == id;
            (id in seen <==> popped) <==> !popped
  {
    NoSelfMarks(base, s, s.finder.tasks[t].pid, id, t);
  }

  /** Every mark goes back to a download prepared while the record was complete, and made in time. */
  lemma MarkHasHistory(base: Store, s: Sys, pid: Pid, id: Id)
      returns (i: nat, j: nat, k: nat, tok: string, token: Token)
    requires Inv(base, s) && (pid, id) in s.finder.found
    ensures i < j < k < |s.finder.trace|
    ensures s.finder.trace[i].Prepared? && s.finder.trace[i].pid == pid && s.finder.trace[i].id == id
    ensures s.finder.trace[i].at <= |s.core.log|
    ensures var past := Replay(base, s.core.log[..s.finder.trace[i].at]); id in past && past[id].complete
    ensures s.finder.trace[j] == Issued(tok, token) && token.id == id && token.requester == pid && !token.upload
    ensures s.finder.trace[k].Downloaded? && s.finder.trace[k].tok == tok
    ensures s.finder.trace[k].pid == pid && s.finder.trace[k].id == id && s.finder.trace[k].time <= token.expires
  {
    var trace := s.finder.trace;
    assert Earned(trace, pid, id);
    var k', token' :| 0 <= k' < |trace| && DownloadAt(trace, k', token', pid, id);
    k, token, tok := k', token', trace[k'].tok;
    j :| 0 <= j < k && trace[j] == Issued(tok, token) && PreparedBefore(trace, j, token.requester, token.id);
    i :| 0 <= i < j && trace[i].Prepared? && trace[i].pid == pid && trace[i].id == id;
    assert PreparedOk(base, s.core.log, trace[i]);
  }

  /** A later search task of this player, if any, has seen the mark. */
  ghost predicate SeesMark(s: Sys, pid: Pid, id: Id, t: nat) {
    && (pid, id) in s.finder.found
    && (t in s.finder.tasks && s.finder.tasks[t].Looking? && s.finder.tasks[t].pid == pid ==>
          id in s.finder.tasks[t].seen)
  }

  lemma SeesMarkStep(s: Sys, e: Step, pid: Pid, id: Id, t: nat)
    requires CanStep(s, e) && !e.Restart? && SeesMark(s, pid, id, t)
    ensures SeesMark(After(s, e), pid, id, t)
  {
    assert (pid, id) in s.finder.found && (pid, id).0 == pid;
    assert id in SeenBy(s.finder.found, pid);
  }

  lemma {:induction false} MarksStayVisible(s: Sys, run: seq<Step>, pid: Pid, id: Id, t: nat)
    requires CanRun(s, run) && SeesMark(s, pid, id, t)
    requires forall e <- run :: !e.Restart?
    ensures SeesMark(Exec(s, run), pid, id, t)
  {
    if run == [] {
    } else {
      MarksStayVisible(s, run[..|run| - 1], pid, id, t);
      SeesMarkStep(Exec(s, run[..|run| - 1]), run[|run| - 1], pid, id, t);
    }
  }

  /** Once marked, a record is in no answer to a search that begins later in the same process. */
  lemma NeverOfferedAgain(base: Store, s: Sys, run: seq<Step>, pid: Pid, id: Id, t: nat, want: UInt16,
                          seen: set<Id>)
    requires Inv(base, s) && CanRun(s, run) && (forall e <- run :: !e.Restart?)
    requires (pid, id) in s.finder.found && t !in s.finder.tasks
    ensures var s' := Exec(s, run);
            MayRead(s'.finder, t, seen) && s'.finder.tasks[t].pid == pid ==>
              id !in EligibleIds(s'.core.recs, pid, want, seen)
  {
    InvRun(base, s, run);
    MarksStayVisible(s, run, pid, id, t);
  }

  lemma NotDownloadedNotEarned(trace: seq<Event>, pid: Pid, id: Id)
    requires forall e <- trace :: e.Downloaded? ==> e.pid != pid || e.id != id
    ensures !Earned(trace, pid, id)
  {
    forall k, token: Token | 0 <= k < |trace| ensures !DownloadAt(trace, k, token, pid, id) {
      assert trace[k] in trace;
    }
  }

  /** A live, complete, matching balloon of someone else that was never downloaded is always offered. */
  lemma AlwaysOffered(base: Store, s: Sys, t: nat, id: Id, want: UInt16, seen: set<Id>)
    requires Inv(base, s) && MayRead(s.finder, t, seen)
    requires id in s.core.recs
    requires var b, pid := s.core.recs[id], s.finder.tasks[t].pid;
             && b.complete && b.post.owner != pid && b.post.dataType != STATS_TYPE
             && (want == 0 || b.post.dataType == want)
             && forall e <- s.finder.trace :: e.Downloaded? ==> e.pid != pid || e.id != id
    ensures id in EligibleIds(s.core.recs, s.finder.tasks[t].pid, want, seen)
  {
    var pid := s.finder.tasks[t].pid;
    NotDownloadedNotEarned(s.finder.trace, pid, id);
    assert (pid, id) !in s.finder.found;
  }

  /** Nothing else is offered: what a search reads as eligible is complete, another's, of the type asked for, and not found. */
  lemma OfferedOnlyWhen(base: Store, s: Sys, t: nat, id: Id, want: UInt16, seen: set<Id>)
    requires Inv(base, s) && MayRead(s.finder, t, seen)
    ensures id in EligibleIds(s.core.recs, s.finder.tasks[t].pid, want, seen) <==>
              (&& id in s.core.recs && s.core.recs[id].complete && s.core.recs[id].post.owner != s.finder.tasks[t].pid
               && s.core.recs[id].post.dataType != 200 && (want == 0 || s.core.recs[id].post.dataType == want)
               && id !in seen)
    ensures id in EligibleIds(s.core.recs, s.finder.tasks[t].pid, want, seen) ==> id !in s.finder.tasks[t].seen
  {
    assert id in s.core.recs ==> s.core.recs[id].id == id;
  }

  /** A download that was served goes on to a credit exactly if its record is still there and is another's. */
  lemma CreditedExactlyWhen(base: Store, s: Sys, t: nat)
    requires Inv(base, s) && CanStep(s, Find(CheckOwner(t)))
    ensures var was, after := s.finder.tasks[t], After(s, Find(CheckOwner(t))).finder;
            && after.found == s.finder.found
            && (t in after.tasks <==> was.id in s.core.recs && s.core.recs[was.id].post.owner != was.requester)
            && (t in after.tasks ==> after.tasks[t] == Crediting(was.id, was.requester))
  {
  }

  /** The credit makes exactly one mark, for this player and record. */
  lemma CreditMarks(base: Store, s: Sys, t: nat)
    requires Inv(base, s) && CanStep(s, Find(Credit(t)))
    ensures After(s, Find(Credit(t))).finder.found ==
              s.finder.found + {(s.finder.tasks[t].requester, s.finder.tasks[t].id)}
  {
  }

  /** A token is issued for the request that asked for it, and for ten minutes. */
  lemma IssuesForTenMinutes(base: Store, s: Sys, t: nat, tok: string, now: int, end: int, after: Table)
    requires Inv(base, s) && CanStep(s, Find(Issue(t, tok, now, end, after)))
    ensures var was, token := s.finder.tasks[t], After(s, Find(Issue(t, tok, now, end, after))).finder.issued[tok];
            && token.id == was.id && token.requester == was.requester && token.upload == was.upload
            && token.expires == now + 600_000_000_000
  {
  }

  /** From any reachable state on, the swept token table decides as one never swept. */
  lemma SweptTableDecidesAlike(base: Store, s: Sys, tok: string, id: Id, at: int)
    requires Inv(base, s) && s.finder.clock <= at
    ensures Accepts(s.finder.tokens, tok, id, at) <==> Accepts(s.finder.issued, tok, id, at)
  {
    SweepingIsInvisible(s.finder.tokens, s.finder.issued, s.finder.clock, tok, id, at);
  }

  /** Neither the process ends nor the task goes on. */
  predicate Elsewhere(e: Step, t: nat) {
    && !e.Restart?
    && (e.Find? ==>
          match e.f
          case AskUpload(u, _) => u != t
          case PrepareGet(u, _, _) => u != t
          case Issue(u, _, _, _, _) => u != t
          case Lookup(u, _, _) => u != t
          case Admit(u, _, _) => u != t
          case CheckOwner(u) => u != t
          case Credit(u) => u != t
          case Look(u, _) => u != t
          case Answer(u) => u != t)
  }

  lemma TaskStaysStep(s: Sys, e: Step, t: nat)
    requires CanStep(s, e) && Elsewhere(e, t) && t in s.finder.tasks
    ensures t in After(s, e).finder.tasks && After(s, e).finder.tasks[t] == s.finder.tasks[t]
  {
  }

  lemma {:induction false} TaskStays(s: Sys, run: seq<Step>, t: nat)
    requires CanRun(s, run) && t in s.finder.tasks && forall e <- run :: Elsewhere(e, t)
    ensures t in Exec(s, run).finder.tasks && Exec(s, run).finder.tasks[t] == s.finder.tasks[t]
  {
    if run == [] {
    } else {
      var before := run[..|run| - 1];
      assert run[|run| - 1] in run && forall e <- before :: e in run;
      TaskStays(s, before, t);
      TaskStaysStep(Exec(s, before), run[|run| - 1], t);
    }
  }

  /**
   * A request looks its token up, then anything may happen before it reads the clock: it is still
   * decided as by the table never swept, as that stood at the lookup.
   */
  lemma LookupDecidesAlike(base: Store, s: Sys, t: nat, tok: string, id: Id, run: seq<Step>, now: int, hasBlob: bool)
    requires Inv(base, s) && CanStep(s, Find(Lookup(t, tok, id)))
    requires var s1 := After(s, Find(Lookup(t, tok, id)));
             CanRun(s1, run) && (forall e <- run :: Elsewhere(e, t)) && CanStep(Exec(s1, run), Find(Admit(t, now, hasBlob)))
    ensures var s2 := Exec(After(s, Find(Lookup(t, tok, id))), run);
            var after := After(s2, Find(Admit(t, now, hasBlob)));
            (t in after.finder.tasks) <==>
              (&& tok in s.finder.issued && s.finder.issued[tok].id == id && now <= s.finder.issued[tok].expires
               && !s.finder.issued[tok].upload && s.finder.issued[tok].requester != 0 && hasBlob)
  {
    var s1 := After(s, Find(Lookup(t, tok, id)));
    InvStep(base, s, Find(Lookup(t, tok, id)));
    TaskStays(s1, run, t);
    assert TaskEvidence(s1.finder.trace, s1.finder.tasks[t]);
  }
}
