/** Runs that show what can go wrong, and that what the theorems speak of does happen. */
module Races {
  import opened Options
  import opened Balloons
  import opened RecordSteps
  import opened RecordInvariants
  import opened Tokens
  import opened FindSteps
  import opened System

  /** From a server that starts with this file, the steps lead to this state. */
  ghost predicate Reaches(list: seq<Persisted>, run: seq<Step>, s: Sys) {
    CanRun(Start(Some(list), 0, 0), run) && Exec(Start(Some(list), 0, 0), run) == s
  }

  lemma Go(list: seq<Persisted>, run: seq<Step>, s: Sys, e: Step) returns (run': seq<Step>, s': Sys)
    requires Reaches(list, run, s) && CanStep(s, e)
    ensures Reaches(list, run', s') && s' == After(s, e) && run' == run + [e]
  {
    Extend(Start(Some(list), 0, 0), run, e);
    run', s' := run + [e], After(s, e);
  }

  /** From an empty server, the steps lead to these records and tasks. */
  ghost predicate Leads(run: seq<Step>, c: Core) {
    Reaches([], run, Sys(c, NoFinds(0)))
  }

  lemma Take(run: seq<Step>, c: Core, a: Action) returns (run': seq<Step>, c': Core)
    requires Leads(run, c) && Enabled(c, a)
    ensures Leads(run', c') && c' == Next(c, a)
  {
    var s;
    run', s := Go([], run, Sys(c, NoFinds(0)), Record(a));
    c' := s.core;
  }

  lemma EmptyServer() returns (run: seq<Step>, c: Core)
    ensures Leads(run, c) && c == Core(map[], 1, false, map[], Idle, Whole(Image([], [])), [Restarted(0)], map[], multiset{})
  {
    run, c := [], Boot(FirstFile(Some([])), 0);
    assert c.log == [Restarted(0)];
  }

  lemma TwoPostsDrawn(post: Posting, wall: int, b1: Balloon, b2: Balloon) returns (run: seq<Step>, c: Core)
    requires b1 == NewBalloon(1, post, wall, true, map[]) && b2 == NewBalloon(2, post, wall, true, map[])
    ensures Leads(run, c)
    ensures c.tasks == map[1 := Drawn(b1), 2 := Drawn(b2)] && c.recs == map[] && c.log == [Restarted(0)]
  {
    run, c := EmptyServer();
    run, c := Take(run, c, Draw(1, post, wall, true, map[]));
    run, c := Take(run, c, Draw(2, post, wall, true, map[]));
  }

  lemma TwoPostsInserted(post: Posting, wall: int, b1: Balloon, b2: Balloon) returns (run: seq<Step>, c: Core)
    requires b1 == NewBalloon(1, post, wall, true, map[]) && b2 == NewBalloon(2, post, wall, true, map[])
    ensures Leads(run, c)
    ensures c.tasks == map[1 := Inserted(b1), 2 := Inserted(b2)] && c.recs == map[1 := b1, 2 := b2]
    ensures c.log == [Restarted(0), Posted(b1), Posted(b2)]
  {
    run, c := TwoPostsDrawn(post, wall, b1, b2);
    run, c := Take(run, c, Insert(1));
    run, c := Take(run, c, Insert(2));
  }

  /** A step that does no more than set the flag for a meta-binary post. */
  lemma MarkAfterInsert(c: Core, t: nat)
    requires t in c.tasks && c.tasks[t].Inserted? && c.tasks[t].b.complete
    ensures Enabled(c, MarkDirty(t))
    ensures Next(c, MarkDirty(t)) == c.(dirty := true, tasks := c.tasks[t := Marked(c.tasks[t].b)])
  {
    assert c.log + [] == c.log;
  }

  lemma MarkAfterChange(c: Core, t: nat)
    requires t in c.tasks && c.tasks[t] == Mutated
    ensures Enabled(c, MarkDirty(t))
    ensures Next(c, MarkDirty(t)) == c.(dirty := true, tasks := c.tasks - {t})
  {
    assert c.log + [] == c.log;
  }

  lemma SnapEffect(c: Core, list: seq<Persisted>)
    requires c.dirty && c.flusher == Idle && Flushes(list, c.recs)
    ensures Enabled(c, FlushSwap) && Enabled(Next(c, FlushSwap), FlushSnap(list))
    ensures Next(Next(c, FlushSwap), FlushSnap(list)) == c.(dirty := false, flusher := Holding(Image(list, c.log)))
  {
    assert c.log + [] == c.log;
    assert Next(c, FlushSwap) == c.(dirty := false, flusher := Swapped);
  }

  /** A turn of the flusher, up to its snapshot. */
  lemma BeginTurn(list: seq<Persisted>, run0: seq<Step>, s0: Sys, flushed: seq<Persisted>) returns (run: seq<Step>, s: Sys)
    requires Reaches(list, run0, s0) && s0.core.dirty && s0.core.flusher == Idle && Flushes(flushed, s0.core.recs)
    ensures Reaches(list, run, s) && run == run0 + [Record(FlushSwap), Record(FlushSnap(flushed))]
    ensures s == s0.(core := s0.core.(dirty := false, flusher := Holding(Image(flushed, s0.core.log))))
  {
    SnapEffect(s0.core, flushed);
    run, s := Go(list, run0, s0, Record(FlushSwap));
    run, s := Go(list, run, s, Record(FlushSnap(flushed)));
  }

  /** Both posts have inserted before either cleans up. */
  lemma TwoPostsOverlap(post: Posting, wall: int, b1: Balloon, b2: Balloon) returns (run: seq<Step>, c: Core)
    requires b1 == NewBalloon(1, post, wall, true, map[]) && b2 == NewBalloon(2, post, wall, true, map[])
    ensures Leads(run, c)
    ensures c.tasks == map[1 := Marked(b1), 2 := Marked(b2)] && c.recs == map[1 := b1, 2 := b2]
    ensures c.log == [Restarted(0), Posted(b1), Posted(b2)]
  {
    run, c := TwoPostsInserted(post, wall, b1, b2);
    MarkAfterInsert(c, 1);
    run, c := Take(run, c, MarkDirty(1));
    MarkAfterInsert(c, 2);
    run, c := Take(run, c, MarkDirty(2));
  }

  lemma CleanupRemoves(c: Core, t: nat, id: Id)
    requires t in c.tasks && c.tasks[t].Marked? && id != 0 && Predecessor(c.recs, id, c.tasks[t].b)
    ensures Enabled(c, Cleanup(t, Some(id)))
    ensures var c' := Next(c, Cleanup(t, Some(id)));
            c'.tasks == c.tasks[t := Mutated] && c'.recs == c.recs - {id} && c'.log == c.log + [Removed(id)]
  {
  }

  lemma FirstCleansSecond(post: Posting, wall: int, b1: Balloon, b2: Balloon) returns (run: seq<Step>, c: Core)
    requires b1 == NewBalloon(1, post, wall, true, map[]) && b2 == NewBalloon(2, post, wall, true, map[])
    ensures Leads(run, c)
    ensures c.tasks == map[1 := Mutated, 2 := Marked(b2)] && c.recs == map[1 := b1]
    ensures c.log == [Restarted(0), Posted(b1), Posted(b2), Removed(2)]
  {
    run, c := TwoPostsOverlap(post, wall, b1, b2);
    CleanupRemoves(c, 1, 2);
    run, c := Take(run, c, Cleanup(1, Some(2)));
  }

  /** Two posts that overlap can each delete the other's record: both succeed and nothing is left. */
  lemma OverlappingPostsLoseBoth(post: Posting, wall: int) returns (run: seq<Step>, c: Core)
    ensures Leads(run, c)
    ensures c.tasks == map[] && c.recs == map[]
    ensures var b1, b2 := NewBalloon(1, post, wall, true, map[]), NewBalloon(2, post, wall, true, map[]);
            c.log == [Restarted(0), Posted(b1), Posted(b2), Removed(2), Removed(1)]
  {
    var b1, b2 := NewBalloon(1, post, wall, true, map[]), NewBalloon(2, post, wall, true, map[]);
    run, c := FirstCleansSecond(post, wall, b1, b2);
    CleanupRemoves(c, 2, 1);
    run, c := Take(run, c, Cleanup(2, Some(1)));
    run, c := Take(run, c, MarkDirty(1));
    run, c := Take(run, c, MarkDirty(2));
  }

  /** One upload from draw to mark, from any state in which nothing is in flight. */
  lemma Upload(run0: seq<Step>, c0: Core, post: Posting, wall: int) returns (run: seq<Step>, c: Core)
    requires Leads(run0, c0) && c0.tasks == map[]
    ensures Leads(run, c) && c.tasks == map[] && c.nextId == c0.nextId + 1
    ensures c.recs == c0.recs[c0.nextId := NewBalloon(c0.nextId, post, wall, false, map[])]
  {
    run, c := Take(run0, c0, Draw(1, post, wall, false, map[]));
    run, c := Take(run, c, Insert(1));
    run, c := Take(run, c, MarkDirty(1));
  }

  lemma Finish(run0: seq<Step>, c0: Core, id: Id) returns (run: seq<Step>, c: Core)
    requires Leads(run0, c0) && c0.tasks == map[] && id in c0.recs
    ensures Leads(run, c) && c.tasks == map[]
    ensures c.recs == c0.recs[id := c0.recs[id].(complete := true)]
  {
    run, c := Take(run0, c0, CompletePost(1, id, true));
    run, c := Take(run, c, MarkDirty(1));
  }

  /** Two completed uploads leave two active balloons of one owner and type, with nothing in flight. */
  lemma UploadsLeaveTwoActive(post: Posting, wall: int) returns (run: seq<Step>, c: Core)
    ensures Leads(run, c) && c.tasks == map[]
    ensures |ActiveIds(c.recs, (post.owner, post.dataType))| == 2
  {
    run, c := EmptyServer();
    run, c := Upload(run, c, post, wall);
    run, c := Upload(run, c, post, wall);
    run, c := Finish(run, c, 1);
    run, c := Finish(run, c, 2);
    assert ActiveIds(c.recs, (post.owner, post.dataType)) == {1, 2};
  }

  /** One post alone, from an empty server to its end. */
  lemma PostOnce(post: Posting, wall: int) returns (run: seq<Step>, c: Core)
    ensures Leads(run, c) && c.tasks == map[] && c.dirty && c.flusher == Idle && Stored(c.disk) == []
    ensures c.recs == map[1 := NewBalloon(1, post, wall, true, map[])]
  {
    run, c := EmptyServer();
    run, c := Take(run, c, Draw(1, post, wall, true, map[]));
    run, c := Take(run, c, Insert(1));
    run, c := Take(run, c, MarkDirty(1));
    run, c := Take(run, c, Cleanup(1, None));
  }

  /** A turn that cannot open the file: the mark is gone and the file is as before. */
  lemma FailedTurn(run0: seq<Step>, c0: Core, list: seq<Persisted>) returns (run: seq<Step>, c: Core)
    requires Leads(run0, c0) && c0.tasks == map[] && c0.dirty && c0.flusher == Idle && Flushes(list, c0.recs)
    ensures Leads(run, c) && c.tasks == map[] && !c.dirty && c.flusher == Idle
    ensures c.disk == c0.disk && c.recs == c0.recs
  {
    var s;
    run, s := BeginTurn([], run0, Sys(c0, NoFinds(0)), list);
    run, c := Take(run, s.core, FlushOpen(false));
  }

  /** A turn that fails is not tried again: at rest, with nothing marked, the file lacks the post. */
  lemma FailedWriteIsForgotten(post: Posting, wall: int) returns (run: seq<Step>, c: Core)
    ensures Leads(run, c) && c.tasks == map[] && !c.dirty && c.flusher == Idle
    ensures AsMap(Stored(c.disk)) == map[] && c.recs.Keys == {1}
  {
    run, c := PostOnce(post, wall);
    var p := Project(c.recs[1]);
    assert [p][..0] == [] && AsMap([p]) == map[1 := p] && c.recs.Keys == {1};
    run, c := FailedTurn(run, c, [p]);
  }

  /** From any file: a request that changes nothing sets the flag. */
  lemma FlagSet(list: seq<Persisted>, id: Id) returns (run: seq<Step>, s: Sys)
    requires id !in Load(list, 0)
    ensures Reaches(list, run, s) && FaultlessRun(run)
    ensures s.core.recs == Load(list, 0) && s.core.dirty && s.core.flusher == Idle
  {
    run, s := [], Start(Some(list), 0, 0);
    run, s := Go(list, run, s, Record(Delete(1, id)));
    MarkAfterChange(s.core, 1);
    run, s := Go(list, run, s, Record(MarkDirty(1)));
  }

  lemma OpenThenCrash(list: seq<Persisted>, run0: seq<Step>, s0: Sys, now: int) returns (run: seq<Step>, s: Sys)
    requires Reaches(list, run0, s0) && FaultlessRun(run0) && s0.core.flusher.Holding?
    ensures Reaches(list, run, s) && FaultlessRun(run)
    ensures s.core.recs == map[] && s.core.nextId == 1 && s.core.disk == Unreadable
  {
    run, s := Go(list, run0, s0, Record(FlushOpen(true)));
    run, s := Go(list, run, s, Restart(now));
  }

  /** From any file: the process dies while it rewrites the file, and the next one has no record and starts at id 1. */
  lemma CrashInWriteLosesAll(list: seq<Persisted>, flushed: seq<Persisted>, id: Id, now: int)
      returns (run: seq<Step>, s: Sys)
    requires Flushes(flushed, Load(list, 0)) && id !in Load(list, 0)
    ensures Reaches(list, run, s) && FaultlessRun(run)
    ensures s.core.recs == map[] && s.core.nextId == 1 && s.core.disk == Unreadable
  {
    run, s := FlagSet(list, id);
    run, s := BeginTurn(list, run, s, flushed);
    run, s := OpenThenCrash(list, run, s, now);
  }

  lemma PairFlushes(m: Store, b0: Balloon, b1: Balloon)
    requires m == map[b0.id := b0, b1.id := b1] && b0.id != b1.id
    ensures Flushes([Project(b0), Project(b1)], m)
  {
    var p0, p1 := Project(b0), Project(b1);
    assert [p0, p1][..1] == [p0] && [p0][..0] == [];
    assert AsMap([p0]) == map[b0.id := p0];
    assert m.Keys == {b0.id, b1.id};
  }

  lemma OneStored(p: Persisted)
    ensures Load([p], 0) == map[p.id := Restore(p, 0)] && NextAfter([p]) == p.id + 1
  {
    assert [p][..0] == [];
  }

  /** A file with a complete record under id 0, and a post of the same owner and type: its clean-up is due. */
  lemma PostBesideZero(p: Persisted, wall: int) returns (run: seq<Step>, s: Sys)
    requires p.id == 0 && p.complete
    ensures Reaches([p], run, s) && s.core.dirty && s.core.flusher == Idle
    ensures var b := NewBalloon(1, p.post, wall, true, map[]);
            s.core.recs == map[0 := Restore(p, 0), 1 := b] && s.core.tasks == map[1 := Marked(b)]
  {
    OneStored(p);
    run, s := [], Start(Some([p]), 0, 0);
    run, s := Go([p], run, s, Record(Draw(1, p.post, wall, true, map[])));
    run, s := Go([p], run, s, Record(Insert(1)));
    MarkAfterInsert(s.core, 1);
    run, s := Go([p], run, s, Record(MarkDirty(1)));
  }

  lemma ZeroCleanupEffect(c: Core, t: nat)
    requires t in c.tasks && c.tasks[t].Marked? && Predecessor(c.recs, 0, c.tasks[t].b)
    ensures Enabled(c, Cleanup(t, Some(0)))
    ensures Next(c, Cleanup(t, Some(0))) == c.(recs := c.recs - {0}, tasks := c.tasks - {t}, log := c.log + [Removed(0)])
  {
  }

  /** Behind a snapshot, the clean-up removes the record and marks nothing. */
  lemma ZeroCleanedUp(p: Persisted, wall: int) returns (run: seq<Step>, s: Sys)
    requires p.id == 0 && p.complete
    ensures Reaches([p], run, s) && s.core.tasks == map[] && !s.core.dirty && 0 !in s.core.recs
    ensures s.core.flusher.Holding? && 0 in AsMap(s.core.flusher.image.list)
  {
    run, s := PostBesideZero(p, wall);
    PairFlushes(s.core.recs, s.core.recs[0], s.core.recs[1]);
    run, s := BeginTurn([p], run, s, [Project(s.core.recs[0]), Project(s.core.recs[1])]);
    ZeroCleanupEffect(s.core, 1);
    run, s := Go([p], run, s, Record(Cleanup(1, Some(0))));
  }

  /** At rest, with every write done, the file still has the record with id 0. */
  lemma ZeroStaysInFile(p: Persisted, wall: int) returns (run: seq<Step>, s: Sys)
    requires p.id == 0 && p.complete
    ensures Reaches([p], run, s) && s.core.tasks == map[] && !s.core.dirty && s.core.flusher == Idle
    ensures 0 in AsMap(Stored(s.core.disk)) && 0 !in s.core.recs
  {
    run, s := ZeroCleanedUp(p, wall);
    run, s := Go([p], run, s, Record(FlushOpen(true)));
    run, s := Go([p], run, s, Record(FlushWrite(true)));
  }

  /** A player downloads the balloon of another, up to the moment the find is credited. */
  lemma Downloaded(post: Posting, wall: int, pid: Pid, tok: string) returns (run: seq<Step>, s: Sys)
    requires pid != 0 && pid != post.owner
    ensures Reaches([], run, s) && s.core.recs == map[1 := NewBalloon(1, post, wall, true, map[])]
    ensures s.finder.tasks == map[2 := Crediting(1, pid)] && s.finder.found == {}
  {
    var c;
    run, c := PostOnce(post, wall);
    s := Sys(c, NoFinds(0));
    run, s := Go([], run, s, Find(PrepareGet(2, pid, 1)));
    var table := map[tok := Token(1, pid, false, TTL)];
    assert s.finder.tokens[tok := NewToken(s.finder.tasks[2], 0)] == table;
    run, s := Go([], run, s, Find(Issue(2, tok, 0, 0, table)));
    run, s := Go([], run, s, Find(Lookup(2, tok, 1)));
    run, s := Go([], run, s, Find(Admit(2, 0, true)));
    run, s := Go([], run, s, Find(CheckOwner(2)));
  }

  /** A found-mark is made, and the owner's listing does not show it: the cleared bit is wrong. */
  lemma FoundIsNotShown(post: Posting, wall: int, pid: Pid, tok: string) returns (run: seq<Step>, s: Sys)
    requires pid != 0 && pid != post.owner
    ensures Reaches([], run, s) && 1 in s.core.recs && s.core.recs[1].post.owner == post.owner
    ensures (pid, 1) in s.finder.found && MayRead(s.finder, 3, {})
    ensures s.finder.tasks[3].pid == post.owner && forall seen :: MayRead(s.finder, 3, seen) ==> 1 !in seen
  {
    run, s := Downloaded(post, wall, pid, tok);
    run, s := Go([], run, s, Find(Credit(2)));
    run, s := Go([], run, s, Find(Look(3, post.owner)));
    assert s.finder.found == {(pid, 1)};
    assert SeenBy(s.finder.found, post.owner) == {};
  }
}
