/**
 * The record store as a step relation. Every request runs through its critical sections one at a
 * time, interleaved arbitrarily with any number of other requests and with the flusher.
 */
module RecordSteps {
  import opened Words
  import opened Options
  import opened Balloons

  /** Where a request that changes records stands, between two of its atomic sections. */
  datatype Task =
    | Drawn(b: Balloon)     // a post: id drawn, record built, not inserted yet
    | Inserted(b: Balloon)  // a post: inserted, the dirty mark is due
    | Marked(b: Balloon)    // a meta-binary post: the clean-up of its predecessor is due
    | Mutated               // a section has changed the records, the dirty mark is due

  /** A flushed list and, as history, the operations it reflects. */
  datatype Image = Image(list: seq<Persisted>, ops: seq<Op>)

  /** The data file. A missing one and one cut short in the middle of a write alike load as nothing. */
  datatype File = Whole(image: Image) | Unreadable

  /** What a start would load. */
  function Stored(file: File): seq<Persisted> {
    if file.Whole? then file.image.list else []
  }

  /** The operations that what it would load reflects. */
  function Recovered(file: File): seq<Op> {
    if file.Whole? then file.image.ops else [Wiped]
  }

  /** Writing begins when the file has been opened, and thereby emptied. */
  datatype Flusher = Idle | Swapped | Holding(image: Image) | Writing(image: Image) {
    predicate Has() {
      Holding? || Writing?
    }
  }

  datatype Core = Core(
    recs: Store, nextId: nat, dirty: bool, tasks: map<nat, Task>, flusher: Flusher, disk: File,
    // history variables: no step depends on them
    log: seq<Op>,            // the operations the records reflect
    loaded: Store,           // the records this process loaded
    uploads: multiset<Key>)  // incomplete-to-complete transitions in this process

  datatype Action =
    | Draw(t: nat, post: Posting, wall: int, complete: bool, initials: map<Slot, Int64>)
    | Insert(t: nat)
    | MarkDirty(t: nat)
    | Cleanup(t: nat, victim: Option<Id>)
    | CompletePost(t: nat, id: Id, ok: bool)
    | Delete(t: nat, id: Id)
    | RateAll(t: nat, ops: seq<Op>)
    | Buffer(ops: seq<Op>)
    | FlushSwap
    | FlushSnap(list: seq<Persisted>)
    | FlushOpen(ok: bool)   // opening empties the file, failing to leaves it as it was
    | FlushWrite(ok: bool)  // a write that fails leaves a part of the list; neither failure is reported

  /** A predecessor the clean-up may remove: another complete record of the same owner and type. */
  predicate Predecessor(m: Store, id: Id, b: Balloon) {
    id in m && id != b.id && Active(m[id], KeyOf(b))
  }

  predicate CanCleanup(c: Core, t: nat, victim: Option<Id>) {
    && t in c.tasks && c.tasks[t].Marked?
    && match victim
       case Some(id) => Predecessor(c.recs, id, c.tasks[t].b)
       case None => forall id <- c.recs :: !Predecessor(c.recs, id, c.tasks[t].b)
  }

  ghost predicate Enabled(c: Core, a: Action) {
    match a
    case Draw(t, post, wall, complete, initials) => t !in c.tasks
    case Insert(t) => t in c.tasks && c.tasks[t].Drawn?
    case MarkDirty(t) => t in c.tasks && Owing(c.tasks[t])
    case Cleanup(t, victim) => CanCleanup(c, t, victim)
    case CompletePost(t, id, ok) => t !in c.tasks
    case Delete(t, id) => t !in c.tasks
    case RateAll(t, ops) => t !in c.tasks && forall op <- ops :: op.Rated?
    case Buffer(ops) => forall op <- ops :: op.Queued? || op.Cleared?
    case FlushSwap => c.flusher.Idle? && c.dirty
    case FlushSnap(list) => c.flusher.Swapped? && Flushes(list, c.recs)
    case FlushOpen(ok) => c.flusher.Holding?
    case FlushWrite(ok) => c.flusher.Writing?
  }

  /** The request has changed the records and not yet set the dirty flag. */
  predicate Owing(task: Task) {
    task.Inserted? || task.Mutated?
  }

  /** The operations a step logs. */
  function OpsOf(c: Core, a: Action): seq<Op>
    requires Enabled(c, a)
  {
    match a
    case Insert(t) => [Posted(c.tasks[t].b)]
    case Cleanup(t, victim) => if victim.Some? then [Removed(victim.value)] else []
    case CompletePost(t, id, ok) => [if ok then Completed(id) else Removed(id)]
    case Delete(t, id) => [Removed(id)]
    case RateAll(t, ops) => ops
    case Buffer(ops) => ops
    case _ => []
  }

  function RecsAfter(c: Core, a: Action): Store
    requires Enabled(c, a)
  {
    match a
    case Insert(t) => Apply(c.recs, Posted(c.tasks[t].b))
    case Cleanup(t, victim) => if victim.Some? then Apply(c.recs, Removed(victim.value)) else c.recs
    case CompletePost(t, id, ok) => Apply(c.recs, if ok then Completed(id) else Removed(id))
    case Delete(t, id) => Apply(c.recs, Removed(id))
    case RateAll(t, ops) => Replay(c.recs, ops)
    case Buffer(ops) => Replay(c.recs, ops)
    case _ => c.recs
  }

  /** Where the requests stand; the clean-up uses 0 for "nothing replaced" and owes a mark only otherwise. */
  function TasksAfter(c: Core, a: Action): map<nat, Task>
    requires Enabled(c, a)
  {
    match a
    case Draw(t, post, wall, complete, initials) =>
      c.tasks[t := Drawn(NewBalloon(c.nextId, post, wall, complete, initials))]
    case Insert(t) => c.tasks[t := Inserted(c.tasks[t].b)]
    case MarkDirty(t) =>
      if c.tasks[t].Inserted? && c.tasks[t].b.complete then c.tasks[t := Marked(c.tasks[t].b)] else c.tasks - {t}
    case Cleanup(t, victim) =>
      var replaced := if victim.Some? then victim.value else 0;
      if replaced != 0 then c.tasks[t := Mutated] else c.tasks - {t}
    case CompletePost(t, id, ok) => c.tasks[t := Mutated]
    case Delete(t, id) => c.tasks[t := Mutated]
    case RateAll(t, ops) => c.tasks[t := Mutated]
    case _ => c.tasks
  }

  function FlusherAfter(c: Core, a: Action): Flusher
    requires Enabled(c, a)
  {
    match a
    case FlushSwap => Swapped
    case FlushSnap(list) => Holding(Image(list, c.log))
    case FlushOpen(ok) => if ok then Writing(c.flusher.image) else Idle
    case FlushWrite(ok) => Idle
    case _ => c.flusher
  }

  function FileAfter(c: Core, a: Action): File
    requires Enabled(c, a)
  {
    match a
    case FlushOpen(ok) => if ok then Unreadable else c.disk
    case FlushWrite(ok) => if ok then Whole(c.flusher.image) else Unreadable
    case _ => c.disk
  }

  function UploadsAfter(c: Core, a: Action): multiset<Key> {
    if a.CompletePost? && a.ok && a.id in c.recs && !c.recs[a.id].complete
    then c.uploads + multiset{KeyOf(c.recs[a.id])} else c.uploads
  }

  function Next(c: Core, a: Action): Core
    requires Enabled(c, a)
  {
    Core(
      RecsAfter(c, a),
      if a.Draw? then c.nextId + 1 else c.nextId,
      if a.MarkDirty? then true else if a.FlushSwap? then false else c.dirty,
      TasksAfter(c, a),
      FlusherAfter(c, a),
      FileAfter(c, a),
      c.log + OpsOf(c, a),
      c.loaded,
      UploadsAfter(c, a))
  }

  /** A process that has just loaded this file; what it had in memory only is gone. */
  function Boot(file: File, now: int): Core {
    var recs := Load(Stored(file), now);
    Core(recs, NextAfter(Stored(file)), false, map[], Idle, file,
         Recovered(file) + [Restarted(now)], recs, multiset{})
  }

  /** The process dies at any point and a new one loads what the file holds. */
  function Reboot(c: Core, now: int): Core {
    Boot(c.disk, now)
  }
}
