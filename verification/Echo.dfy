/** When a post's record survives, and that a posted stats record is what its owner gets back. */
module Echo {
  import opened Options
  import opened Sets
  import opened Balloons
  import opened Search
  import opened RecordSteps
  import opened RecordInvariants
  import opened RecordStore
  import opened System

  /** The step makes a record of this owner and type active. */
  predicate Activates(c: Core, a: Action, key: Key)
    requires a.Insert? ==> a.t in c.tasks && c.tasks[a.t].Drawn?
  {
    match a
    case Insert(t) => Active(c.tasks[t].b, key)
    case CompletePost(t, id, ok) => ok && id in c.recs && !c.recs[id].complete && KeyOf(c.recs[id]) == key
    case _ => false
  }

  lemma ActiveOnlyShrinks(c: Core, a: Action, key: Key)
    requires Ids(c) && Enabled(c, a) && !Activates(c, a, key)
    ensures ActiveIds(Next(c, a).recs, key) <= ActiveIds(c.recs, key)
  {
    if !a.Insert? && !a.CompletePost? {
      StepNarrows(c, a);
    }
  }

  lemma SurvivorKeepsPost(c: Core, a: Action, id: Id)
    requires Ids(c) && Enabled(c, a) && id in c.recs && id in Next(c, a).recs
    ensures Next(c, a).recs[id].post == c.recs[id].post
    ensures c.recs[id].complete ==> Next(c, a).recs[id].complete
  {
    if !a.Insert? && !a.CompletePost? {
      StepNarrows(c, a);
    }
  }

  // ----- survival -----------------------------------------------------------------------------

  /** The step asks for this very record to be removed. */
  predicate Discards(a: Action, id: Id) {
    match a
    case Delete(t, i) => i == id
    case CompletePost(t, i, ok) => i == id && !ok
    case _ => false
  }

  /** The step neither restarts the server, nor activates a record of this key, nor discards `id`. */
  predicate Leaves(s: Sys, e: Step, id: Id, key: Key)
    requires CanStep(s, e)
  {
    && !e.Restart?
    && (e.Record? ==> !Activates(s.core, e.a, key) && !Discards(e.a, id))
  }

  ghost predicate Undisturbed(s: Sys, run: seq<Step>, id: Id, key: Key)
    requires CanRun(s, run)
    decreases |run|
  {
    run == [] ||
    var before := run[..|run| - 1];
    Undisturbed(s, before, id, key) && Leaves(Exec(s, before), run[|run| - 1], id, key)
  }

  /** The post's record is in place, and the only clean-up due for its owner and type is its own. */
  ghost predicate Safe(c: Core, t: nat, b: Balloon) {
    && b.complete && b.id in c.recs && c.recs[b.id].post == b.post && c.recs[b.id].complete
    && (forall u <- c.tasks :: CleanupDue(c.tasks[u], KeyOf(b)) ==> u == t && c.tasks[t].b == b)
  }

  lemma SafeStep(c: Core, a: Action, t: nat, b: Balloon)
    requires Ids(c) && MarkedComplete(c) && Enabled(c, a) && Safe(c, t, b)
    requires !Activates(c, a, KeyOf(b)) && !Discards(a, b.id)
    ensures Safe(Next(c, a), t, b)
  {
    SafeRecord(c, a, t, b);
    SurvivorKeepsPost(c, a, b.id);
    var c' := Next(c, a);
    forall u | u in c'.tasks && CleanupDue(c'.tasks[u], KeyOf(b)) ensures u == t && c'.tasks[t].b == b {
      DueBefore(c, a, u, KeyOf(b));
    }
  }

  lemma SafeFromCleanup(c: Core, u: nat, victim: Option<Id>, t: nat, b: Balloon)
    requires MarkedComplete(c) && Enabled(c, Cleanup(u, victim)) && Safe(c, t, b)
    ensures victim != Some(b.id)
  {
    assert victim == Some(b.id) ==> CleanupDue(c.tasks[u], KeyOf(b));
  }

  lemma SafeRecord(c: Core, a: Action, t: nat, b: Balloon)
    requires Ids(c) && MarkedComplete(c) && Enabled(c, a) && Safe(c, t, b) && !Discards(a, b.id)
    ensures b.id in Next(c, a).recs
  {
    match a {
      case Cleanup(u, victim) => SafeFromCleanup(c, u, victim, t, b);
      case RateAll(u, ops) => RatingsAndBuffersKeepIds(c.recs, ops);
      case Buffer(ops) => RatingsAndBuffersKeepIds(c.recs, ops);
      case Draw(u, post, wall, complete, initials) =>
      case Insert(u) =>
      case MarkDirty(u) =>
      case CompletePost(u, id, ok) =>
      case Delete(u, id) =>
      case FlushSwap =>
      case FlushSnap(list) =>
      case FlushOpen(ok) =>
      case FlushWrite(ok) =>
    }
  }

  lemma {:induction false} RatingsAndBuffersKeepIds(m: Store, ops: seq<Op>)
    requires forall op <- ops :: op.Rated? || op.Queued? || op.Cleared?
    ensures Replay(m, ops).Keys == m.Keys
  {
    if ops == [] {
    } else {
      var before := ops[..|ops| - 1];
      assert ops[|ops| - 1] in ops && forall op <- before :: op in ops;
      RatingsAndBuffersKeepIds(m, before);
    }
  }

  lemma DueBefore(c: Core, a: Action, u: nat, key: Key)
    requires Enabled(c, a) && u in Next(c, a).tasks && CleanupDue(Next(c, a).tasks[u], key)
    requires !Activates(c, a, key)
    ensures u in c.tasks && CleanupDue(c.tasks[u], key) && Next(c, a).tasks[u].b == c.tasks[u].b
  {
  }

  lemma {:induction false} SafeRun(base: Store, s: Sys, run: seq<Step>, t: nat, b: Balloon)
    requires Inv(base, s) && CanRun(s, run) && Safe(s.core, t, b)
    requires Undisturbed(s, run, b.id, KeyOf(b))
    ensures Safe(Exec(s, run).core, t, b)
  {
    if run == [] {
    } else {
      var before, e := run[..|run| - 1], run[|run| - 1];
      SafeRun(base, s, before, t, b);
      InvRun(base, s, before);
      if e.Record? {
        SafeStep(Exec(s, before).core, e.a, t, b);
      }
    }
  }

  lemma InsertIsSafe(c: Core, t: nat)
    requires Ids(c) && Enabled(c, Insert(t)) && c.tasks[t].b.complete
    requires CleanupsDue(c.tasks, KeyOf(c.tasks[t].b)) == {}
    ensures Safe(Next(c, Insert(t)), t, c.tasks[t].b)
  {
    var b := c.tasks[t].b;
    assert forall u <- c.tasks :: CleanupDue(c.tasks[u], KeyOf(b)) ==> u in CleanupsDue(c.tasks, KeyOf(b));
  }

  /** If no clean-up of this owner and type is due at the insert, the record stays through every later run. */
  lemma PostSurvives(base: Store, s: Sys, t: nat, run: seq<Step>)
    requires Inv(base, s) && CanStep(s, Record(Insert(t))) && s.core.tasks[t].b.complete
    requires CleanupsDue(s.core.tasks, KeyOf(s.core.tasks[t].b)) == {}
    requires var b, s1 := s.core.tasks[t].b, After(s, Record(Insert(t)));
             CanRun(s1, run) && Undisturbed(s1, run, b.id, KeyOf(b))
    ensures var b, m := s.core.tasks[t].b, Exec(After(s, Record(Insert(t))), run).core.recs;
            b.id in m && m[b.id].post == b.post && m[b.id].complete
  {
    InsertIsSafe(s.core, t);
    InvStep(base, s, Record(Insert(t)));
    SafeRun(base, After(s, Record(Insert(t))), run, t, s.core.tasks[t].b);
  }

  /** Some later run, which asks nothing of the record, loses it. */
  ghost predicate CanBeLost(s: Sys, id: Id, key: Key) {
    exists run :: LosesIn(s, run, id, key)
  }

  ghost predicate LosesIn(s: Sys, run: seq<Step>, id: Id, key: Key) {
    CanRun(s, run) && Undisturbed(s, run, id, key) && id !in Exec(s, run).core.recs
  }

  /** Another request's clean-up takes the record for its predecessor. */
  lemma MarkedCleanupRemoves(s: Sys, u: nat, b: Balloon)
    requires u in s.core.tasks && s.core.tasks[u].Marked?
    requires KeyOf(s.core.tasks[u].b) == KeyOf(b) && s.core.tasks[u].b.id != b.id
    requires b.id in s.core.recs && Active(s.core.recs[b.id], KeyOf(b))
    ensures CanStep(s, Record(Cleanup(u, Some(b.id)))) && Leaves(s, Record(Cleanup(u, Some(b.id))), b.id, KeyOf(b))
    ensures b.id !in After(s, Record(Cleanup(u, Some(b.id)))).core.recs
  {
    assert Predecessor(s.core.recs, b.id, s.core.tasks[u].b);
  }

  /** A due clean-up marks dirty first, if its request has not yet. */
  lemma DueCleanupCanRemove(s: Sys, u: nat, b: Balloon) returns (run: seq<Step>)
    requires u in s.core.tasks && CleanupDue(s.core.tasks[u], KeyOf(b)) && s.core.tasks[u].b.id != b.id
    requires b.id in s.core.recs && Active(s.core.recs[b.id], KeyOf(b))
    ensures LosesIn(s, run, b.id, KeyOf(b))
  {
    var remove := Record(Cleanup(u, Some(b.id)));
    if s.core.tasks[u].Marked? {
      MarkedCleanupRemoves(s, u, b);
      run := [];
      Append(s, run, remove, b.id, KeyOf(b));
    } else {
      var mark := Record(MarkDirty(u));
      Append(s, [], mark, b.id, KeyOf(b));
      run := [] + [mark];
      MarkedCleanupRemoves(After(s, mark), u, b);
      Append(s, run, remove, b.id, KeyOf(b));
    }
    run := run + [remove];
  }

  lemma Append(s: Sys, run: seq<Step>, e: Step, id: Id, key: Key)
    requires CanRun(s, run) && Undisturbed(s, run, id, key)
    requires CanStep(Exec(s, run), e) && Leaves(Exec(s, run), e, id, key)
    ensures CanRun(s, run + [e]) && Undisturbed(s, run + [e], id, key)
    ensures Exec(s, run + [e]) == After(Exec(s, run), e)
  {
    Extend(s, run, e);
    assert (run + [e])[..|run|] == run;
  }

  /** A successful post can lose its record to another post if and only if one has its clean-up due at the insert. */
  lemma PostCanBeLostExactlyWhen(base: Store, s: Sys, t: nat)
    requires Inv(base, s) && CanStep(s, Record(Insert(t))) && s.core.tasks[t].b.complete
    ensures var b := s.core.tasks[t].b;
            CanBeLost(After(s, Record(Insert(t))), b.id, KeyOf(b)) <==> CleanupsDue(s.core.tasks, KeyOf(b)) != {}
  {
    var b, s1 := s.core.tasks[t].b, After(s, Record(Insert(t)));
    var due := CleanupsDue(s.core.tasks, KeyOf(b));
    if due == {} {
      forall run ensures !LosesIn(s1, run, b.id, KeyOf(b)) {
        if CanRun(s1, run) && Undisturbed(s1, run, b.id, KeyOf(b)) {
          PostSurvives(base, s, t, run);
        }
      }
    } else {
      var u :| u in due;
      InFlightIdsDiffer(base, s, t, u);
      var run := DueCleanupCanRemove(s1, u, b);
    }
  }

  // ----- the echo -----------------------------------------------------------------------------

  /** The post's record is in place, and at most one predecessor is still to be cleaned up by it. */
  ghost predicate Settling(c: Core, t: nat, b: Balloon) {
    && b.complete && b.id in c.recs && c.recs[b.id].post == b.post && c.recs[b.id].complete
    && (|| ActiveIds(c.recs, KeyOf(b)) == {b.id}
        || (&& t in c.tasks && (c.tasks[t] == Inserted(b) || c.tasks[t] == Marked(b))
            && |ActiveIds(c.recs, KeyOf(b)) - {b.id}| <= 1))
  }

  lemma InsertSettles(c: Core, t: nat)
    requires Ids(c) && Enabled(c, Insert(t)) && c.tasks[t].b.complete
    requires |ActiveIds(c.recs, KeyOf(c.tasks[t].b))| <= 1
    ensures Settling(Next(c, Insert(t)), t, c.tasks[t].b)
  {
    var b := c.tasks[t].b;
    assert ActiveIds(c.recs[b.id := b], KeyOf(b)) - {b.id} == ActiveIds(c.recs, KeyOf(b));
  }

  /** The post's own clean-up leaves its record the only active one. */
  lemma OwnCleanupSettles(c: Core, t: nat, b: Balloon, victim: Option<Id>)
    requires CanCleanup(c, t, victim) && c.tasks[t] == Marked(b)
    requires b.id in c.recs && Active(c.recs[b.id], KeyOf(b)) && |ActiveIds(c.recs, KeyOf(b)) - {b.id}| <= 1
    ensures ActiveIds(Next(c, Cleanup(t, victim)).recs, KeyOf(b)) == {b.id}
  {
    var key := KeyOf(b);
    var rest := ActiveIds(c.recs, key) - {b.id};
    match victim {
      case Some(id) =>
        assert id in rest;
        assert |rest - {id}| == 0;
        assert ActiveIds(c.recs - {id}, key) == ActiveIds(c.recs, key) - {id};
      case None =>
        assert rest == {};
    }
  }

  lemma SettlingStep(c: Core, a: Action, t: nat, b: Balloon)
    requires Ids(c) && Enabled(c, a) && Settling(c, t, b)
    requires !Activates(c, a, KeyOf(b)) && b.id in Next(c, a).recs
    ensures Settling(Next(c, a), t, b)
  {
    var c', key := Next(c, a), KeyOf(b);
    ActiveOnlyShrinks(c, a, key);
    SurvivorKeepsPost(c, a, b.id);
    assert b.id in ActiveIds(c'.recs, key);
    if ActiveIds(c.recs, key) != {b.id} {
      SubsetSize(ActiveIds(c'.recs, key) - {b.id}, ActiveIds(c.recs, key) - {b.id});
      if a.Cleanup? && a.t == t {
        OwnCleanupSettles(c, t, b, a.victim);
      } else {
        OthersLeaveTask(c, a, t);
      }
    }
  }

  lemma OthersLeaveTask(c: Core, a: Action, t: nat)
    requires Enabled(c, a) && t in c.tasks && (c.tasks[t].Inserted? || c.tasks[t].Marked?)
    requires !(a.Cleanup? && a.t == t) && (c.tasks[t].Inserted? ==> c.tasks[t].b.complete)
    ensures t in Next(c, a).tasks
    ensures Next(c, a).tasks[t] == c.tasks[t] || Next(c, a).tasks[t] == Marked(c.tasks[t].b)
  {
  }

  lemma {:induction false} SettlingRun(base: Store, s: Sys, run: seq<Step>, t: nat, b: Balloon)
    requires Inv(base, s) && CanRun(s, run) && Safe(s.core, t, b) && Settling(s.core, t, b)
    requires Undisturbed(s, run, b.id, KeyOf(b))
    ensures Settling(Exec(s, run).core, t, b)
  {
    if run == [] {
    } else {
      var before, e := run[..|run| - 1], run[|run| - 1];
      SettlingRun(base, s, before, t, b);
      InvRun(base, s, before);
      SafeRun(base, s, run, t, b);
      if e.Record? {
        SettlingStep(Exec(s, before).core, e.a, t, b);
      }
    }
  }

  /**
   * From a state with at most one complete stats record of the player and no clean-up of one due,
   * a stats post comes back once it has cleaned up, whatever the clocks said and whatever else has
   * run in between, short of another stats post and of a request to remove this very record.
   */
  lemma PostedStatsComeBack(base: Store, s: Sys, t: nat, run: seq<Step>, pid: Pid, r: Id)
    requires Inv(base, s) && CanStep(s, Record(Insert(t)))
    requires var b := s.core.tasks[t].b; b.complete && KeyOf(b) == (pid, STATS_TYPE)
    requires |ActiveIds(s.core.recs, (pid, STATS_TYPE))| <= 1
    requires CleanupsDue(s.core.tasks, (pid, STATS_TYPE)) == {}
    requires var s1 := After(s, Record(Insert(t)));
             CanRun(s1, run) && Undisturbed(s1, run, s.core.tasks[t].b.id, (pid, STATS_TYPE))
    requires var c := Exec(After(s, Record(Insert(t))), run).core;
             t in c.tasks ==> !CleanupDue(c.tasks[t], (pid, STATS_TYPE))
    ensures var b, m := s.core.tasks[t].b, Exec(After(s, Record(Insert(t))), run).core.recs;
            && (NewestStats(m, pid, r) <==> r == b.id)
            && b.id in m && m[b.id].post == b.post
  {
    var b, s1 := s.core.tasks[t].b, After(s, Record(Insert(t)));
    InsertSettles(s.core, t);
    InsertIsSafe(s.core, t);
    InvStep(base, s, Record(Insert(t)));
    SettlingRun(base, s1, run, t, b);
    OnlyActiveIsNewest(Exec(s1, run).core.recs, b.id, pid, r);
  }

  /**
   * The echo at the answer: in the state that PostedStatsComeBack describes, whatever listing the
   * handler may give carries the id, the type and the payload that were posted, and the record's ratings.
   */
  lemma ListingEchoesPost(base: Store, s: Sys, t: nat, run: seq<Step>, pid: Pid, at: nat, stats: Option<Id>, answer: StatsInfo)
    requires Inv(base, s) && CanStep(s, Record(Insert(t)))
    requires var b := s.core.tasks[t].b; b.complete && b.post.owner == pid && b.post.dataType == 200
    requires |ActiveIds(s.core.recs, (pid, STATS_TYPE))| <= 1
    requires CleanupsDue(s.core.tasks, (pid, STATS_TYPE)) == {}
    requires var s1 := After(s, Record(Insert(t)));
             CanRun(s1, run) && Undisturbed(s1, run, s.core.tasks[t].b.id, (pid, STATS_TYPE))
    requires var c := Exec(After(s, Record(Insert(t))), run).core;
             t in c.tasks ==> !CleanupDue(c.tasks[t], (pid, STATS_TYPE))
    requires SendsStats(Exec(After(s, Record(Insert(t))), run).core.recs, pid, at, stats, answer)
    ensures var b, m := s.core.tasks[t].b, Exec(After(s, Record(Insert(t))), run).core.recs;
            && answer.id == b.id && answer.dataType == 200 && answer.meta == b.post.meta && answer.at == at
            && b.id in m && answer.ratings == m[b.id].ratings
  {
    var b, m := s.core.tasks[t].b, Exec(After(s, Record(Insert(t))), run).core.recs;
    PostedStatsComeBack(base, s, t, run, pid, b.id);
    assert m[b.id].complete && m[b.id].post.owner == pid && m[b.id].post.dataType == 200;
    PostedStatsComeBack(base, s, t, run, pid, stats.value);
  }

  lemma OnlyActiveIsNewest(m: Store, id: Id, pid: Pid, r: Id)
    requires ActiveIds(m, (pid, STATS_TYPE)) == {id}
    ensures id in m && (NewestStats(m, pid, r) <==> r == id)
  {
    assert forall o <- m :: Active(m[o], (pid, STATS_TYPE)) ==> o in ActiveIds(m, (pid, STATS_TYPE));
    assert id in ActiveIds(m, (pid, STATS_TYPE));
  }

  /** Run alone, a meta-binary post leaves max(1, active before) active: one exactly from at most one. */
  lemma OneActiveAfterPost(m: Store, b: Balloon, victim: Option<Id>)
    requires b.complete && b.id !in m
    requires var m' := m[b.id := b];
             match victim
             case Some(id) => Predecessor(m', id, b)
             case None => forall id <- m' :: !Predecessor(m', id, b)
    ensures var m' := m[b.id := b];
            var after := if victim.Some? then m' - {victim.value} else m';
            && |ActiveIds(after, KeyOf(b))| == AtLeastOne(|ActiveIds(m, KeyOf(b))|)
            && (|ActiveIds(after, KeyOf(b))| == 1 <==> |ActiveIds(m, KeyOf(b))| <= 1)
  {
    var m', key := m[b.id := b], KeyOf(b);
    assert ActiveIds(m', key) == ActiveIds(m, key) + {b.id};
    VictimCount(m', b, victim);
    assert forall x <- ActiveIds(m, key) :: Predecessor(m', x, b);
    if victim == None {
      assert ActiveIds(m, key) == {};
    } else {
      assert victim.value in ActiveIds(m, key);
    }
  }
}
