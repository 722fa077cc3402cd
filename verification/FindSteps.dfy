/** Tokens, downloads, found-marks and searches as a step relation beside the records. */
module FindSteps {
  import opened Options
  import opened Balloons
  import opened Tokens
  import opened RecordSteps

  /** Where a request that downloads or searches stands, between two of its atomic sections. */
  datatype Find =
    | Tokening(id: Id, requester: Pid, upload: bool)  // a token is due
    | Presented(tok: string, id: Id, since: int, entry: Option<Token>, unswept: Option<Token>)
      // a token was looked up, the expiry test is due; `unswept` is what a table never swept held
    | Fetching(id: Id, requester: Pid)   // a download was served, the owner check is due
    | Crediting(id: Id, requester: Pid)  // the owner check passed, the found-mark is due
    | Looking(pid: Pid, seen: set<Id>)   // a search or listing: finds read, records not read yet

  datatype Event =
    | Prepared(pid: Pid, id: Id, at: nat)  // a download was prepared when `at` operations were logged
    | Issued(tok: string, token: Token)
    | Downloaded(tok: string, id: Id, pid: Pid, time: int)

  datatype Finder = Finder(
    tasks: map<nat, Find>, tokens: Table, clock: int, found: set<(Pid, Id)>,
    // history variables
    issued: Table,      // the token table, never swept
    trace: seq<Event>)  // downloads prepared, tokens issued, downloads served in this process

  datatype FindAction =
    | AskUpload(t: nat, id: Id)
    | PrepareGet(t: nat, pid: Pid, id: Id)
    | Issue(t: nat, tok: string, now: int, end: int, after: Table)
    | Lookup(t: nat, tok: string, id: Id)
    | Admit(t: nat, now: int, hasBlob: bool)
    | CheckOwner(t: nat)
    | Credit(t: nat)
    | Look(t: nat, pid: Pid)
    | Answer(t: nat)

  /** The finds are a live map, so a mark made since the look may be read or not. */
  predicate MayRead(f: Finder, t: nat, seen: set<Id>) {
    && t in f.tasks && f.tasks[t].Looking?
    && f.tasks[t].seen <= seen <= SeenBy(f.found, f.tasks[t].pid)
  }

  function SeenBy(found: set<(Pid, Id)>, pid: Pid): set<Id> {
    set f | f in found && f.0 == pid :: f.1
  }

  predicate CanIssue(f: Finder, t: nat, tok: string, now: int, end: int, after: Table) {
    && t in f.tasks && f.tasks[t].Tokening? && f.clock <= now <= end
    && Sweep(f.tokens[tok := NewToken(f.tasks[t], now)], now, end, after)
  }

  /** The clock is read outside the token lock, so only the lookup's own time bounds the reading. */
  predicate CanAdmit(f: Finder, t: nat, now: int) {
    t in f.tasks && f.tasks[t].Presented? && f.tasks[t].since <= now
  }

  predicate CanFind(c: Core, f: Finder, a: FindAction) {
    match a
    case AskUpload(t, id) => t !in f.tasks && id < c.nextId
    case PrepareGet(t, pid, id) => t !in f.tasks && id in c.recs && c.recs[id].complete
    case Issue(t, tok, now, end, after) => CanIssue(f, t, tok, now, end, after)
    case Lookup(t, tok, id) => t !in f.tasks
    case Admit(t, now, hasBlob) => CanAdmit(f, t, now)
    case CheckOwner(t) => t in f.tasks && f.tasks[t].Fetching?
    case Credit(t) => t in f.tasks && f.tasks[t].Crediting?
    case Look(t, pid) => t !in f.tasks
    case Answer(t) => t in f.tasks && f.tasks[t].Looking?
  }

  function NewToken(task: Find, now: int): Token
    requires task.Tokening?
  {
    Token(task.id, task.requester, task.upload, now + TTL)
  }

  function Assign(f: Finder, t: nat, task: Find): Finder {
    f.(tasks := f.tasks[t := task])
  }

  function End(f: Finder, t: nat): Finder {
    f.(tasks := f.tasks - {t})
  }

  function AfterIssue(f: Finder, t: nat, tok: string, now: int, end: int, after: Table): Finder
    requires CanIssue(f, t, tok, now, end, after)
  {
    var token := NewToken(f.tasks[t], now);
    End(f.(tokens := after, issued := f.issued[tok := token], clock := end,
           trace := f.trace + [Issued(tok, token)]), t)
  }

  function AfterLookup(f: Finder, t: nat, tok: string, id: Id): Finder {
    Assign(f, t, Presented(tok, id, f.clock, Entry(f.tokens, tok), Entry(f.issued, tok)))
  }

  /** The blob is served to a download token; a token made for a player goes on to the owner check. */
  function AfterAdmit(f: Finder, t: nat, now: int, hasBlob: bool): Finder
    requires CanAdmit(f, t, now)
  {
    var task := f.tasks[t];
    var f' := f.(clock := if f.clock < now then now else f.clock);
    if Admits(task.entry, task.id, now) && !task.entry.value.upload && hasBlob && task.entry.value.requester != 0 then
      var pid := task.entry.value.requester;
      Assign(f'.(trace := f.trace + [Downloaded(task.tok, task.id, pid, now)]), t, Fetching(task.id, pid))
    else
      End(f', t)
  }

  function AfterCheck(c: Core, f: Finder, t: nat): Finder
    requires t in f.tasks && f.tasks[t].Fetching?
  {
    var id, pid := f.tasks[t].id, f.tasks[t].requester;
    if id in c.recs && c.recs[id].post.owner != pid then Assign(f, t, Crediting(id, pid)) else End(f, t)
  }

  function AfterCredit(f: Finder, t: nat): Finder
    requires t in f.tasks && f.tasks[t].Crediting?
  {
    End(f.(found := f.found + {(f.tasks[t].requester, f.tasks[t].id)}), t)
  }

  function FindNext(c: Core, f: Finder, a: FindAction): Finder
    requires CanFind(c, f, a)
  {
    match a
    case AskUpload(t, id) => Assign(f, t, Tokening(id, 0, true))
    case PrepareGet(t, pid, id) =>
      Assign(f.(trace := f.trace + [Prepared(pid, id, |c.log|)]), t, Tokening(id, pid, false))
    case Issue(t, tok, now, end, after) => AfterIssue(f, t, tok, now, end, after)
    case Lookup(t, tok, id) => AfterLookup(f, t, tok, id)
    case Admit(t, now, hasBlob) => AfterAdmit(f, t, now, hasBlob)
    case CheckOwner(t) => AfterCheck(c, f, t)
    case Credit(t) => AfterCredit(f, t)
    case Look(t, pid) => Assign(f, t, Looking(pid, SeenBy(f.found, pid)))
    case Answer(t) => End(f, t)
  }

  /** Nothing about tokens or finds survives a restart. */
  function NoFinds(clock: int): Finder {
    Finder(map[], map[], clock, {}, map[], [])
  }
}
