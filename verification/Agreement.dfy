/** A handler run alone is one schedule of the step relation. */
module Agreement {
  import opened Words
  import opened Options
  import opened Balloons
  import opened RecordSteps
  import opened RecordInvariants
  import opened RecordStore

  /** The meta-binary post taken step by step with nothing in between: up to its clean-up. */
  ghost function InsertAlone(c: Core, t: nat, b: Balloon, victim: Option<Id>): Core
    requires t !in c.tasks && CanPostAlone(c, b, victim)
  {
    var c1 := Next(c, Draw(t, b.post, b.wall, true, InitialsOf(b)));
    Next(Next(c1, Insert(t)), MarkDirty(t))
  }

  /** The whole post. */
  ghost function PostAlone(c: Core, t: nat, b: Balloon, victim: Option<Id>): Core
    requires t !in c.tasks && CanPostAlone(c, b, victim)
  {
    InsertAloneAgrees(c, t, b, victim);
    CleanupAlone(InsertAlone(c, t, b, victim), t, victim)
  }

  /** The clean-up, and the mark it owes if it removed anything but a record with id 0. */
  ghost function CleanupAlone(c: Core, t: nat, victim: Option<Id>): Core
    requires CanCleanup(c, t, victim)
  {
    var c' := Next(c, Cleanup(t, victim));
    if victim.Some? && victim.value != 0 then Next(c', MarkDirty(t)) else c'
  }

  function InitialsOf(b: Balloon): map<Slot, Int64> {
    map s | s in b.ratings :: b.ratings[s].initial
  }

  ghost predicate CanPostAlone(c: Core, b: Balloon, victim: Option<Id>) {
    && b == NewBalloon(c.nextId, b.post, b.wall, true, InitialsOf(b))
    && var m := Apply(c.recs, Posted(b));
       match victim
       case Some(id) => Predecessor(m, id, b)
       case None => forall id <- m :: !Predecessor(m, id, b)
  }

  lemma InsertAloneAgrees(c: Core, t: nat, b: Balloon, victim: Option<Id>)
    requires t !in c.tasks && CanPostAlone(c, b, victim)
    ensures InsertAlone(c, t, b, victim) ==
              c.(recs := Apply(c.recs, Posted(b)), nextId := c.nextId + 1, dirty := true,
                 tasks := c.tasks[t := Marked(b)], log := c.log + [Posted(b)])
  {
    var c1 := Next(c, Draw(t, b.post, b.wall, true, InitialsOf(b)));
    assert c1.tasks[t] == Drawn(b);
    var c2 := Next(c1, Insert(t));
    var c3 := Next(c2, MarkDirty(t));
    assert c3.tasks == c.tasks[t := Marked(b)];
    assert c3.log == c.log + [Posted(b)];
  }

  lemma CleanupAloneAgrees(c: Core, t: nat, victim: Option<Id>)
    requires CanCleanup(c, t, victim) && c.dirty
    ensures CleanupAlone(c, t, victim) ==
              c.(recs := if victim.Some? then Apply(c.recs, Removed(victim.value)) else c.recs,
                 tasks := c.tasks - {t},
                 log := c.log + if victim.Some? then [Removed(victim.value)] else [])
  {
    var c' := Next(c, Cleanup(t, victim));
    assert c'.tasks - {t} == c.tasks - {t};
    if victim.Some? && victim.value != 0 {
      assert Next(c', MarkDirty(t)).log == c'.log;
    }
  }

  /** Its net effect: the record posted, the predecessor gone, the flag set, no request left over. */
  lemma PostAloneAgrees(c: Core, t: nat, b: Balloon, victim: Option<Id>)
    requires Ids(c) && t !in c.tasks && CanPostAlone(c, b, victim)
    ensures var posted := Apply(c.recs, Posted(b));
            PostAlone(c, t, b, victim) ==
              c.(recs := if victim.Some? then Apply(posted, Removed(victim.value)) else posted,
                 nextId := c.nextId + 1, dirty := true,
                 log := c.log + [Posted(b)] + if victim.Some? then [Removed(victim.value)] else [])
    ensures PostReplaces(c.recs, PostAlone(c, t, b, victim).recs, b, victim)
  {
    InsertAloneAgrees(c, t, b, victim);
    var c3 := InsertAlone(c, t, b, victim);
    assert c3.tasks - {t} == c.tasks;
    CleanupAloneAgrees(c3, t, victim);
    assert victim.None? ==> forall o <- c3.recs :: !Predecessor(c3.recs, o, b);
    ReplacesBeside(c.recs, c3.recs, b, victim);
  }
}
