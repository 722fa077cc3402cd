/** What every step on the records keeps, whatever the interleaving. */
module RecordInvariants {
  import opened Words
  import opened Options
  import opened Sets
  import opened Balloons
  import opened RecordSteps

  // ----- operations that leave the shape of the store alone -----------------------------------

  /** Records may have disappeared; those left differ at most in ratings and buffers. */
  predicate Narrower(m: Store, m': Store) {
    forall id <- m' :: id in m && m'[id].id == m[id].id && m'[id].post == m[id].post
                       && m'[id].wall == m[id].wall && m'[id].complete == m[id].complete
  }

  predicate Narrows(op: Op) {
    op.Removed? || op.Rated? || op.Queued? || op.Cleared?
  }

  lemma {:induction false} ReplayNarrows(m: Store, ops: seq<Op>)
    requires forall op <- ops :: Narrows(op)
    ensures Narrower(m, Replay(m, ops))
  {
    if ops == [] {
    } else {
      var before := ops[..|ops| - 1];
      assert Narrows(ops[|ops| - 1]) && forall op <- before :: op in ops;
      ReplayNarrows(m, before);
    }
  }

  lemma {:induction false} BuffersAreNotPersisted(m: Store, ops: seq<Op>)
    requires forall op <- ops :: op.Queued? || op.Cleared?
    ensures ProjectAll(Replay(m, ops)) == ProjectAll(m)
  {
    if ops == [] {
    } else {
      var before := ops[..|ops| - 1];
      assert ops[|ops| - 1] in ops && forall op <- before :: op in ops;
      BuffersAreNotPersisted(m, before);
    }
  }

  lemma ReplayOne(m: Store, op: Op)
    ensures Replay(m, [op]) == Apply(m, op)
  {
    assert [op][..0] == [];
  }

  lemma StepLogs(c: Core, a: Action)
    requires Enabled(c, a)
    ensures Next(c, a).log == c.log + OpsOf(c, a)
    ensures Next(c, a).recs == Replay(c.recs, OpsOf(c, a))
  {
    StepReplays(c, a);
  }

  lemma StepReplays(c: Core, a: Action)
    requires Enabled(c, a)
    ensures RecsAfter(c, a) == Replay(c.recs, OpsOf(c, a))
  {
    match a {
      case Insert(t) => ReplayOne(c.recs, Posted(c.tasks[t].b));
      case Cleanup(t, victim) =>
        if victim.Some? {
          ReplayOne(c.recs, Removed(victim.value));
        }
      case CompletePost(t, id, ok) => ReplayOne(c.recs, if ok then Completed(id) else Removed(id));
      case Delete(t, id) => ReplayOne(c.recs, Removed(id));
      case RateAll(t, ops) =>
      case Buffer(ops) =>
      case Draw(t, post, wall, complete, initials) =>
      case MarkDirty(t) =>
      case FlushSwap =>
      case FlushSnap(list) =>
      case FlushOpen(ok) =>
      case FlushWrite(ok) =>
    }
  }

  /** Only inserts and completions do more to the records than narrow them. */
  lemma StepNarrows(c: Core, a: Action)
    requires Enabled(c, a) && !a.Insert? && !a.CompletePost?
    ensures Narrower(c.recs, Next(c, a).recs)
  {
    StepLogs(c, a);
    ReplayNarrows(c.recs, OpsOf(c, a));
  }

  lemma DrawnTasksStay(c: Core, a: Action, t: nat)
    requires Enabled(c, a) && !a.Draw? && t in Next(c, a).tasks && Next(c, a).tasks[t].Drawn?
    ensures t in c.tasks && c.tasks[t] == Next(c, a).tasks[t]
  {
  }

  /** Nothing was drawn or inserted: records only disappear or change their counters and flags. */
  predicate Quiet(c: Core, c': Core) {
    && c'.nextId == c.nextId
    && (forall id <- c'.recs :: id in c.recs && c'.recs[id].id == c.recs[id].id
                                && c'.recs[id].post == c.recs[id].post && c'.recs[id].wall == c.recs[id].wall)
    && (forall t <- c'.tasks :: c'.tasks[t].Drawn? ==> t in c.tasks && c.tasks[t] == c'.tasks[t])
  }

  lemma QuietStep(c: Core, a: Action)
    requires Enabled(c, a) && !a.Draw? && !a.Insert?
    ensures Quiet(c, Next(c, a))
  {
    if !a.CompletePost? {
      StepNarrows(c, a);
    }
    forall t | t in Next(c, a).tasks && Next(c, a).tasks[t].Drawn?
      ensures t in c.tasks && c.tasks[t] == Next(c, a).tasks[t]
    {
      DrawnTasksStay(c, a, t);
    }
  }

  // ----- identifiers --------------------------------------------------------------------------

  /** A post in flight, from the draw of its id to the end of its clean-up. */
  predicate Carries(task: Task) {
    task.Drawn? || task.Inserted? || task.Marked?
  }

  /** The id of a post in flight was drawn; until the insert it is in no record. */
  predicate CarriedOk(c: Core, task: Task)
    requires Carries(task)
  {
    && 0 < task.b.id < c.nextId
    && (task.Drawn? ==> task.b.id !in c.recs && Untouched(task.b))
  }

  /** Live and in-flight ids are below the counter, and no two posts in flight share one. */
  ghost predicate Ids(c: Core) {
    && c.nextId > 0
    && (forall id <- c.recs :: c.recs[id].id == id && id < c.nextId)
    && (forall t <- c.tasks :: Carries(c.tasks[t]) ==> CarriedOk(c, c.tasks[t]))
    && (forall t <- c.tasks, t' <- c.tasks ::
          t != t' && Carries(c.tasks[t]) && Carries(c.tasks[t']) ==> c.tasks[t].b.id != c.tasks[t'].b.id)
  }

  lemma BootIds(file: File, now: int)
    ensures Ids(Boot(file, now))
  {
    LoadRestoresEach(Stored(file), now);
    AsMapEntries(Stored(file));
    NextAfterIsLeast(Stored(file));
  }

  /** A step that draws nothing leaves each post in flight with the record it carried before. */
  lemma CarriersStay(c: Core, a: Action, t: nat)
    requires Enabled(c, a) && !a.Draw? && t in Next(c, a).tasks && Carries(Next(c, a).tasks[t])
    ensures t in c.tasks && Carries(c.tasks[t]) && Next(c, a).tasks[t].b == c.tasks[t].b
    ensures Next(c, a).tasks[t].Drawn? ==> c.tasks[t].Drawn? && !(a.Insert? && a.t == t)
  {
  }

  lemma IdsDraw(c: Core, a: Action)
    requires Ids(c) && Enabled(c, a) && a.Draw?
    ensures Ids(Next(c, a))
  {
  }

  lemma IdsInsert(c: Core, t: nat)
    requires Ids(c) && Enabled(c, Insert(t))
    ensures Ids(Next(c, Insert(t)))
  {
  }

  lemma IdsQuiet(c: Core, a: Action)
    requires Ids(c) && Enabled(c, a) && !a.Draw? && !a.Insert?
    ensures Ids(Next(c, a))
  {
    QuietStep(c, a);
    var c' := Next(c, a);
    forall t | t in c'.tasks && Carries(c'.tasks[t])
      ensures t in c.tasks && Carries(c.tasks[t]) && c'.tasks[t].b == c.tasks[t].b && CarriedOk(c', c'.tasks[t])
    {
      CarriersStay(c, a, t);
    }
  }

  lemma IdsStep(c: Core, a: Action)
    requires Ids(c) && Enabled(c, a)
    ensures Ids(Next(c, a))
  {
    if a.Draw? {
      IdsDraw(c, a);
    } else if a.Insert? {
      IdsInsert(c, a.t);
    } else {
      IdsQuiet(c, a);
    }
  }

  /** Neither the records nor any file hold id 0. */
  ghost predicate ZeroFree(c: Core) {
    && 0 !in c.recs && 0 !in AsMap(Stored(c.disk))
    && (c.flusher.Has() ==> 0 !in AsMap(c.flusher.image.list))
  }

  /** Ids are drawn from 1 on, so id 0 never appears unless the first file held it. */
  lemma ZeroFreeStep(c: Core, a: Action)
    requires Ids(c) && ZeroFree(c) && Enabled(c, a)
    ensures ZeroFree(Next(c, a))
  {
    if !a.Draw? && !a.Insert? {
      QuietStep(c, a);
    }
  }

  // ----- the records and the data file reflect the log ----------------------------------------

  ghost predicate ImageOk(base: Store, image: Image, log: seq<Op>) {
    && AsMap(image.list) == ProjectAll(Replay(base, image.ops))
    && image.ops <= log
  }

  /** A list being written is at least as recent as the one in the file. */
  ghost predicate FilesOk(base: Store, c: Core) {
    && (c.disk.Whole? ==> ImageOk(base, c.disk.image, c.log))
    && (c.flusher.Has() ==> ImageOk(base, c.flusher.image, c.log))
    && (c.disk.Whole? && c.flusher.Has() ==> c.disk.image.ops <= c.flusher.image.ops)
  }

  ghost predicate Logged(base: Store, c: Core) {
    && c.recs == Replay(base, c.log)
    && FilesOk(base, c)
    && (forall op <- c.log :: op.Posted? ==> Untouched(op.b))
  }

  lemma SnapOk(base: Store, c: Core, list: seq<Persisted>)
    requires c.recs == Replay(base, c.log) && Flushes(list, c.recs)
    ensures ImageOk(base, Image(list, c.log), c.log)
  {
  }

  lemma FilesStep(base: Store, c: Core, a: Action)
    requires Ids(c) && Logged(base, c) && Enabled(c, a)
    ensures FilesOk(base, Next(c, a))
  {
    StepLogs(c, a);
    assert c.log <= Next(c, a).log;
    if a.FlushSnap? {
      SnapOk(base, c, a.list);
    }
  }

  lemma LoggedStep(base: Store, c: Core, a: Action)
    requires Ids(c) && Logged(base, c) && Enabled(c, a)
    ensures Logged(base, Next(c, a))
  {
    FilesStep(base, c, a);
    StepLogs(c, a);
    ReplayConcat(base, c.log, OpsOf(c, a));
    PostsAreUntouched(c, a);
  }

  lemma PostsAreUntouched(c: Core, a: Action)
    requires Ids(c) && Enabled(c, a)
    ensures forall op <- OpsOf(c, a) :: op.Posted? ==> Untouched(op.b)
  {
  }

  /** What a file would load is what the operations it reflects amount to. */
  lemma RecoveredIsStored(base: Store, c: Core)
    requires FilesOk(base, c)
    ensures AsMap(Stored(c.disk)) == ProjectAll(Replay(base, Recovered(c.disk)))
  {
    if c.disk.Unreadable? {
      ReplayOne(base, Wiped);
    }
  }

  lemma LoggedReboot(base: Store, c: Core, now: int)
    requires Logged(base, c)
    ensures Logged(base, Reboot(c, now))
  {
    RecoveredIsStored(base, c);
    LoadRestoresEach(Stored(c.disk), now);
    ReplaySnoc(base, Recovered(c.disk), Restarted(now));
  }

  // ----- no lost update -----------------------------------------------------------------------

  /** The list on its way to the file, if there is one, else what the file holds. */
  function Latest(c: Core): seq<Persisted> {
    if c.flusher.Has() then c.flusher.image.list else Stored(c.disk)
  }

  predicate SomeoneOwes(tasks: map<nat, Task>) {
    exists t <- tasks :: Owing(tasks[t])
  }

  /** Any difference between the records and the last list taken has someone left to notice it. */
  ghost predicate NoLostUpdate(c: Core) {
    || AsMap(Latest(c)) == ProjectAll(c.recs)
    || c.dirty
    || c.flusher.Swapped?
    || SomeoneOwes(c.tasks)
  }

  /**
   * The steps that can leave a difference unnoticed: a flush that fails, and the removal of a record
   * with id 0, which the clean-up takes for no removal at all.
   */
  predicate Forgets(a: Action) {
    match a
    case FlushOpen(ok) => !ok
    case FlushWrite(ok) => !ok
    case Cleanup(t, victim) => victim == Some(0)
    case _ => false
  }

  lemma NoLostUpdateStep(c: Core, a: Action)
    requires NoLostUpdate(c) && Enabled(c, a) && !Forgets(a)
    ensures NoLostUpdate(Next(c, a))
  {
    var c' := Next(c, a);
    match a {
      case Draw(t, post, wall, complete, initials) => StillOwing(c.tasks, c'.tasks, t);
      case Insert(t) => assert Owing(c'.tasks[t]);
      case Cleanup(t, victim) =>
        if victim == None {
          StillOwing(c.tasks, c'.tasks, t);
        } else if victim.value != 0 {
          assert Owing(c'.tasks[t]);
        }
      case CompletePost(t, id, ok) => assert Owing(c'.tasks[t]);
      case Delete(t, id) => assert Owing(c'.tasks[t]);
      case RateAll(t, ops) => assert Owing(c'.tasks[t]);
      case Buffer(ops) => BuffersAreNotPersisted(c.recs, ops);
      case MarkDirty(t) =>
      case FlushSwap =>
      case FlushSnap(list) =>
      case FlushOpen(ok) =>
      case FlushWrite(ok) =>
    }
  }

  /** Every snapshot makes good what was forgotten before. */
  lemma SnapshotNotices(c: Core, list: seq<Persisted>)
    requires Enabled(c, FlushSnap(list))
    ensures NoLostUpdate(Next(c, FlushSnap(list)))
  {
  }

  /** Exactly when a step of the kind that can forget does so: the flag is clear, and what is left on its way or in the file differs. */
  lemma ForgetsExactlyWhen(c: Core, a: Action)
    requires Enabled(c, a) && Forgets(a)
    ensures var others := SomeoneOwes(c.tasks);
            NoLostUpdate(Next(c, a)) <==>
              match a
              case FlushOpen(ok) => c.dirty || others || AsMap(Stored(c.disk)) == ProjectAll(c.recs)
              case FlushWrite(ok) => c.dirty || others || c.recs == map[]
              case Cleanup(t, victim) =>
                c.dirty || others || c.flusher.Swapped? || AsMap(Latest(c)) == ProjectAll(c.recs - {0})
              case _ => true
  {
    if a.Cleanup? {
      StillOwing(c.tasks, c.tasks - {a.t}, a.t);
      assert SomeoneOwes(c.tasks - {a.t}) ==> SomeoneOwes(c.tasks);
    } else if a.FlushWrite? {
      assert ProjectAll(c.recs).Keys == c.recs.Keys;
    }
  }

  /** Every record, and every one about to be inserted, has a posting time. */
  ghost predicate Dated(c: Core) {
    && (forall id <- c.recs :: c.recs[id].wall / NANOS != 0)
    && (forall t <- c.tasks :: c.tasks[t].Drawn? ==> c.tasks[t].b.wall / NANOS != 0)
  }

  /** No change is lost, there is no id 0, and no record is without a posting time. */
  ghost predicate Healthy(c: Core) {
    && NoLostUpdate(c) && ZeroFree(c) && Dated(c)
    && GoodFile(Stored(c.disk)) && (c.flusher.Has() ==> GoodFile(c.flusher.image.list))
  }

  /** No flush fails, and a post has a posting time. */
  predicate Faultless(a: Action) {
    && (a.FlushOpen? ==> a.ok)
    && (a.FlushWrite? ==> a.ok)
    && (a.Draw? ==> a.wall / NANOS != 0)
  }

  lemma HealthyStep(c: Core, a: Action)
    requires Ids(c) && Healthy(c) && Enabled(c, a) && Faultless(a)
    ensures Healthy(Next(c, a))
  {
    ZeroFreeStep(c, a);
    DatedStep(c, a);
    NoLostUpdateStep(c, a);
  }

  lemma DatedStep(c: Core, a: Action)
    requires Dated(c) && Enabled(c, a) && Faultless(a)
    ensures Dated(Next(c, a))
  {
    if !a.Draw? && !a.Insert? {
      QuietStep(c, a);
    }
  }

  lemma HealthyBoot(file: File, now: int)
    requires GoodFile(Stored(file))
    ensures Healthy(Boot(file, now))
  {
    LoadRestoresEach(Stored(file), now);
    AsMapEntries(Stored(file));
    LoadedIsCurrent(Stored(file), now);
  }

  /** A step of a request that owed nothing leaves every other request's debt standing. */
  lemma StillOwing(tasks: map<nat, Task>, tasks': map<nat, Task>, t: nat)
    requires t in tasks ==> !Owing(tasks[t])
    requires forall u <- tasks :: u != t ==> u in tasks' && tasks'[u] == tasks[u]
    ensures SomeoneOwes(tasks) ==> SomeoneOwes(tasks')
  {
    if u :| u in tasks && Owing(tasks[u]) {
      assert Owing(tasks'[u]);
    }
  }

  // ----- one active balloon -------------------------------------------------------------------

  function ActiveIds(m: Store, key: Key): set<Id> {
    set id | id in m && Active(m[id], key)
  }

  lemma ActiveMeans(m: Store, owner: Pid, dataType: UInt16, id: Id)
    ensures id in ActiveIds(m, (owner, dataType)) <==>
              (id in m && m[id].complete && m[id].post.owner == owner && m[id].post.dataType == dataType)
  {
  }

  /** A meta-binary post that has inserted its record and not yet cleaned up. */
  predicate CleanupDue(task: Task, key: Key) {
    (task.Inserted? || task.Marked?) && task.b.complete && KeyOf(task.b) == key
  }

  function CleanupsDue(tasks: map<nat, Task>, key: Key): set<nat> {
    set t | t in tasks && CleanupDue(tasks[t], key)
  }

  function AtLeastOne(n: nat): nat {
    if n == 0 then 1 else n
  }

  ghost predicate FewActive(c: Core, key: Key) {
    |ActiveIds(c.recs, key)| <=
      AtLeastOne(|ActiveIds(c.loaded, key)|) + |CleanupsDue(c.tasks, key)| + c.uploads[key]
  }

  lemma PostCount(m: Store, b: Balloon, key: Key)
    ensures |ActiveIds(m[b.id := b], key)| <= |ActiveIds(m, key)| + if Active(b, key) then 1 else 0
  {
    SizeWithin(ActiveIds(m[b.id := b], key), ActiveIds(m, key), b.id);
  }

  lemma OneMoreDue(tasks: map<nat, Task>, t: nat, b: Balloon, key: Key)
    requires t in tasks && tasks[t].Drawn?
    ensures |CleanupsDue(tasks[t := Inserted(b)], key)| == |CleanupsDue(tasks, key)| + if Active(b, key) then 1 else 0
  {
    var due := CleanupsDue(tasks, key);
    assert CleanupsDue(tasks[t := Inserted(b)], key) == if Active(b, key) then due + {t} else due;
  }

  lemma InsertCount(c: Core, t: nat, key: Key)
    requires FewActive(c, key) && Enabled(c, Insert(t))
    ensures FewActive(Next(c, Insert(t)), key)
  {
    PostCount(c.recs, c.tasks[t].b, key);
    OneMoreDue(c.tasks, t, c.tasks[t].b, key);
  }

  /** After a clean-up that found nothing, only the kept record can be active; else one fewer is. */
  lemma VictimCount(m: Store, b: Balloon, victim: Option<Id>)
    requires match victim
             case Some(id) => Predecessor(m, id, b)
             case None => forall id <- m :: !Predecessor(m, id, b)
    ensures victim.Some? ==> |ActiveIds(m - {victim.value}, KeyOf(b))| == |ActiveIds(m, KeyOf(b))| - 1
    ensures victim.None? ==> |ActiveIds(m, KeyOf(b))| <= 1
  {
    var before := ActiveIds(m, KeyOf(b));
    match victim {
      case Some(id) => assert ActiveIds(m - {id}, KeyOf(b)) == before - {id} && id in before;
      case None =>
        assert before <= {b.id};
        SubsetSize(before, {b.id});
    }
  }

  lemma RemovalCount(m: Store, id: Id, key: Key)
    ensures |ActiveIds(m - {id}, key)| <= |ActiveIds(m, key)|
  {
    SubsetSize(ActiveIds(m - {id}, key), ActiveIds(m, key));
  }

  lemma CleanupTasks(c: Core, t: nat, victim: Option<Id>, key: Key)
    requires CanCleanup(c, t, victim) && c.tasks[t].b.complete
    ensures |CleanupsDue(Next(c, Cleanup(t, victim)).tasks, key)| ==
              |CleanupsDue(c.tasks, key)| - if KeyOf(c.tasks[t].b) == key then 1 else 0
  {
    var due := CleanupsDue(c.tasks, key);
    assert CleanupsDue(c.tasks - {t}, key) == due - {t};
    assert CleanupsDue(c.tasks[t := Mutated], key) == due - {t};
  }

  lemma CleanupCount(c: Core, t: nat, victim: Option<Id>, key: Key)
    requires FewActive(c, key) && CanCleanup(c, t, victim) && c.tasks[t].b.complete
    ensures FewActive(Next(c, Cleanup(t, victim)), key)
  {
    CleanupTasks(c, t, victim, key);
    if KeyOf(c.tasks[t].b) == key {
      VictimCount(c.recs, c.tasks[t].b, victim);
    } else if victim.Some? {
      RemovalCount(c.recs, victim.value, key);
    }
  }

  lemma CompletionSize(m: Store, id: Id, ok: bool, key: Key)
    ensures var grows := ok && id in m && !m[id].complete && KeyOf(m[id]) == key;
            |ActiveIds(Apply(m, if ok then Completed(id) else Removed(id)), key)| <=
              |ActiveIds(m, key)| + if grows then 1 else 0
  {
    SizeWithin(ActiveIds(Apply(m, if ok then Completed(id) else Removed(id)), key), ActiveIds(m, key), id);
  }

  lemma CompleteCount(c: Core, t: nat, id: Id, ok: bool, key: Key)
    requires Ids(c) && FewActive(c, key) && Enabled(c, CompletePost(t, id, ok))
    ensures FewActive(Next(c, CompletePost(t, id, ok)), key)
  {
    CompletionSize(c.recs, id, ok, key);
    assert CleanupsDue(c.tasks[t := Mutated], key) == CleanupsDue(c.tasks, key);
  }

  lemma DueStays(c: Core, a: Action, t: nat, key: Key)
    requires Enabled(c, a) && !a.Insert? && !a.Cleanup?
    ensures t in CleanupsDue(Next(c, a).tasks, key) <==> t in CleanupsDue(c.tasks, key)
  {
  }

  /** Steps that neither activate a record nor settle a clean-up. */
  lemma OtherCount(c: Core, a: Action, key: Key)
    requires FewActive(c, key) && Enabled(c, a)
    requires !a.Insert? && !a.Cleanup? && !a.CompletePost?
    ensures FewActive(Next(c, a), key)
  {
    var c' := Next(c, a);
    forall t ensures t in CleanupsDue(c'.tasks, key) <==> t in CleanupsDue(c.tasks, key) {
      DueStays(c, a, t, key);
    }
    assert CleanupsDue(c'.tasks, key) == CleanupsDue(c.tasks, key);
    StepNarrows(c, a);
    SubsetSize(ActiveIds(c'.recs, key), ActiveIds(c.recs, key));
  }

  /** Only meta-binary posts, whose records are complete, reach the clean-up. */
  predicate MarkedComplete(c: Core) {
    forall t <- c.tasks :: c.tasks[t].Marked? ==> c.tasks[t].b.complete
  }

  ghost predicate OneActive(c: Core) {
    MarkedComplete(c) && forall key: Key :: FewActive(c, key)
  }

  lemma OneActiveStep(c: Core, a: Action)
    requires Ids(c) && OneActive(c) && Enabled(c, a)
    ensures OneActive(Next(c, a))
  {
    forall key: Key ensures FewActive(Next(c, a), key) {
      match a {
        case Insert(t) => InsertCount(c, t, key);
        case Cleanup(t, victim) => CleanupCount(c, t, victim, key);
        case CompletePost(t, id, ok) => CompleteCount(c, t, id, ok, key);
        case Draw(t, post, wall, complete, initials) => OtherCount(c, a, key);
        case RateAll(t, ops) => OtherCount(c, a, key);
        case Buffer(ops) => OtherCount(c, a, key);
        case MarkDirty(t) => OtherCount(c, a, key);
        case Delete(t, id) => OtherCount(c, a, key);
        case FlushSwap => OtherCount(c, a, key);
        case FlushSnap(list) => OtherCount(c, a, key);
        case FlushOpen(ok) => OtherCount(c, a, key);
        case FlushWrite(ok) => OtherCount(c, a, key);
      }
    }
  }

  // ----- all of them --------------------------------------------------------------------------

  ghost predicate CoreInv(base: Store, c: Core) {
    Ids(c) && Logged(base, c) && OneActive(c)
  }

  lemma RestoredIsCurrent(p: Persisted, now: int)
    ensures Project(Restore(p, now)) == p <==> (p.wallUnix != 0 || now / NANOS == 0)
  {
  }

  /** A freshly loaded process has nothing to flush, unless a stored posting time was zero and is now not. */
  lemma LoadedIsCurrent(list: seq<Persisted>, now: int)
    ensures (ProjectAll(Load(list, now)) == AsMap(list))
              <==> (forall id <- AsMap(list) :: AsMap(list)[id].wallUnix != 0 || now / NANOS == 0)
  {
    LoadRestoresEach(list, now);
    AsMapEntries(list);
    var m := AsMap(list);
    forall id | id in m
      ensures Project(Restore(m[id], now)) == m[id] <==> (m[id].wallUnix != 0 || now / NANOS == 0)
    {
      RestoredIsCurrent(m[id], now);
    }
    assert forall id <- m :: ProjectAll(Load(list, now))[id] == Project(Restore(m[id], now));
  }

  /** The first process starts like every later one: its history begins with the file as it stands. */
  lemma CoreInvStart(file: File, now: int)
    requires Recovered(file) == [] || file.Unreadable?
    ensures CoreInv(Load(Stored(file), 0), Boot(file, now))
  {
    var base := Load(Stored(file), 0);
    LoadedIsCurrent(Stored(file), 0);
    LoadRestoresEach(Stored(file), 0);
    LoadRestoresEach(Stored(file), now);
    ReplayOne(base, Wiped);
    ReplaySnoc(base, Recovered(file), Restarted(now));
    BootIds(file, now);
  }

  lemma LogFacts(base: Store, c: Core)
    requires CoreInv(base, c)
    ensures c.recs == Replay(base, c.log)
    ensures forall op <- c.log :: op.Posted? ==> Untouched(op.b)
  {
  }

  lemma CoreInvStep(base: Store, c: Core, a: Action)
    requires CoreInv(base, c) && Enabled(c, a)
    ensures CoreInv(base, Next(c, a))
  {
    IdsStep(c, a);
    LoggedStep(base, c, a);
    OneActiveStep(c, a);
  }

  lemma CoreInvReboot(base: Store, c: Core, now: int)
    requires CoreInv(base, c)
    ensures CoreInv(base, Reboot(c, now))
  {
    BootIds(c.disk, now);
    LoggedReboot(base, c, now);
  }
}
