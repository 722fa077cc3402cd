/** What every step keeps about tokens and found-marks. */
module FindInvariants {
  import opened Options
  import opened Balloons
  import opened Tokens
  import opened RecordSteps
  import opened RecordInvariants
  import opened FindSteps

  // ----- found-marks --------------------------------------------------------------------------

  /** `id` is not about to be inserted, and is not a record of this player. */
  ghost predicate Foreign(c: Core, pid: Pid, id: Id) {
    && id < c.nextId
    && (id in c.recs ==> c.recs[id].post.owner != pid)
    && (forall t <- c.tasks :: c.tasks[t].Drawn? ==> c.tasks[t].b.id != id)
  }

  ghost predicate Marks(c: Core, f: Finder) {
    && (forall m <- f.found :: Foreign(c, m.0, m.1))
    && (forall t <- f.tasks :: f.tasks[t].Crediting? ==> Foreign(c, f.tasks[t].requester, f.tasks[t].id))
    && (forall t <- f.tasks :: f.tasks[t].Looking? ==> f.tasks[t].seen <= SeenBy(f.found, f.tasks[t].pid))
  }

  lemma ForeignStep(c: Core, a: Action, pid: Pid, id: Id)
    requires Ids(c) && Enabled(c, a) && Foreign(c, pid, id)
    ensures Foreign(Next(c, a), pid, id)
  {
    if !a.Draw? && !a.Insert? {
      QuietStep(c, a);
    }
  }

  lemma MarksRecordStep(c: Core, a: Action, f: Finder)
    requires Ids(c) && Enabled(c, a) && Marks(c, f)
    ensures Marks(Next(c, a), f)
  {
    forall pid, id | Foreign(c, pid, id) ensures Foreign(Next(c, a), pid, id) {
      ForeignStep(c, a, pid, id);
    }
  }

  lemma MarksFindStep(c: Core, f: Finder, a: FindAction)
    requires Ids(c) && Marks(c, f) && CanFind(c, f, a)
    ensures Marks(c, FindNext(c, f, a))
  {
  }

  // ----- evidence for every found-mark --------------------------------------------------------

  /** A download of `id` was prepared for `pid` among the first n events. */
  ghost predicate PreparedBefore(trace: seq<Event>, n: nat, pid: Pid, id: Id)
    requires n <= |trace|
  {
    exists i :: 0 <= i < n && trace[i].Prepared? && trace[i].pid == pid && trace[i].id == id
  }

  /** The token was issued among the first n events, after its download was prepared. */
  ghost predicate IssuedBefore(trace: seq<Event>, n: nat, tok: string, token: Token)
    requires n <= |trace|
  {
    exists j :: 0 <= j < n && trace[j] == Issued(tok, token) && PreparedBefore(trace, j, token.requester, token.id)
  }

  /** Event k is a download of `id` by `pid`, with a token issued before and not expired. */
  ghost predicate DownloadAt(trace: seq<Event>, k: nat, token: Token, pid: Pid, id: Id)
    requires k < |trace|
  {
    && trace[k].Downloaded? && trace[k].pid == pid && trace[k].id == id
    && token.requester == pid && token.id == id && !token.upload && trace[k].time <= token.expires
    && IssuedBefore(trace, k, trace[k].tok, token)
  }

  ghost predicate Earned(trace: seq<Event>, pid: Pid, id: Id) {
    exists k, token: Token :: 0 <= k < |trace| && DownloadAt(trace, k, token, pid, id)
  }

  /** A prepared download names a record that was complete when that many operations were logged. */
  ghost predicate PreparedOk(base: Store, log: seq<Op>, e: Event) {
    e.Prepared? ==> e.at <= |log| && var m := Replay(base, log[..e.at]); e.id in m && m[e.id].complete
  }

  ghost predicate TraceOk(base: Store, log: seq<Op>, trace: seq<Event>) {
    forall e <- trace :: PreparedOk(base, log, e)
  }

  /** Every token, download in progress and found-mark has its history in the trace. */
  ghost predicate Evidence(f: Finder) {
    && Mirrors(f.tokens, f.issued, f.clock)
    && (forall k <- f.issued :: !f.issued[k].upload ==> IssuedBefore(f.trace, |f.trace|, k, f.issued[k]))
    && (forall t <- f.tasks :: TaskEvidence(f.trace, f.tasks[t]))
    && (forall m <- f.found :: Earned(f.trace, m.0, m.1))
  }

  /** The entry is the never-swept table's, which had expired by the lookup if none was found. */
  ghost predicate LookupEvidence(trace: seq<Event>, tok: string, since: int, entry: Option<Token>, unswept: Option<Token>) {
    if entry.Some? then entry == unswept && (entry.value.upload || IssuedBefore(trace, |trace|, tok, entry.value))
    else unswept.Some? ==> unswept.value.expires < since
  }

  ghost predicate TaskEvidence(trace: seq<Event>, task: Find) {
    match task
    case Tokening(id, pid, upload) => upload || PreparedBefore(trace, |trace|, pid, id)
    case Presented(tok, id, since, entry, unswept) => LookupEvidence(trace, tok, since, entry, unswept)
    case Fetching(id, pid) => Earned(trace, pid, id)
    case Crediting(id, pid) => Earned(trace, pid, id)
    case Looking(_, _) => true
  }

  lemma TraceRecordStep(base: Store, c: Core, a: Action, trace: seq<Event>)
    requires Enabled(c, a) && TraceOk(base, c.log, trace)
    ensures TraceOk(base, Next(c, a).log, trace)
  {
    StepLogs(c, a);
    forall e | e in trace && e.Prepared? ensures PreparedOk(base, Next(c, a).log, e) {
      assert Next(c, a).log[..e.at] == c.log[..e.at];
    }
  }

  lemma TraceFindStep(base: Store, c: Core, f: Finder, a: FindAction)
    requires c.recs == Replay(base, c.log) && CanFind(c, f, a) && TraceOk(base, c.log, f.trace)
    ensures TraceOk(base, c.log, FindNext(c, f, a).trace)
  {
    assert c.log[..|c.log|] == c.log;
  }

  lemma PreparedStays(trace: seq<Event>, e: Event, n: nat, pid: Pid, id: Id)
    requires n <= |trace| && PreparedBefore(trace, n, pid, id)
    ensures PreparedBefore(trace + [e], n, pid, id) && PreparedBefore(trace + [e], |trace| + 1, pid, id)
  {
    var i :| 0 <= i < n && trace[i].Prepared? && trace[i].pid == pid && trace[i].id == id;
    assert (trace + [e])[i] == trace[i];
  }

  lemma IssuedStays(trace: seq<Event>, e: Event, n: nat, tok: string, token: Token)
    requires n <= |trace| && IssuedBefore(trace, n, tok, token)
    ensures IssuedBefore(trace + [e], n, tok, token) && IssuedBefore(trace + [e], |trace| + 1, tok, token)
  {
    var j :| 0 <= j < n && trace[j] == Issued(tok, token) && PreparedBefore(trace, j, token.requester, token.id);
    PreparedStays(trace, e, j, token.requester, token.id);
    assert (trace + [e])[j] == trace[j];
  }

  lemma EarnedStays(trace: seq<Event>, e: Event, pid: Pid, id: Id)
    requires Earned(trace, pid, id)
    ensures Earned(trace + [e], pid, id)
  {
    var k, token: Token :| 0 <= k < |trace| && DownloadAt(trace, k, token, pid, id);
    IssuedStays(trace, e, k, trace[k].tok, token);
    assert DownloadAt(trace + [e], k, token, pid, id);
  }

  /** One more event takes nothing away from what the trace shows. */
  lemma EvidenceStays(f: Finder, e: Event)
    requires Evidence(f)
    ensures Evidence(f.(trace := f.trace + [e]))
  {
    forall k | k in f.issued && !f.issued[k].upload
      ensures IssuedBefore(f.trace + [e], |f.trace| + 1, k, f.issued[k])
    {
      IssuedStays(f.trace, e, |f.trace|, k, f.issued[k]);
    }
    forall t | t in f.tasks ensures TaskEvidence(f.trace + [e], f.tasks[t]) {
      var task := f.tasks[t];
      if task.Tokening? && !task.upload {
        PreparedStays(f.trace, e, |f.trace|, task.requester, task.id);
      } else if task.Presented? && task.entry.Some? && !task.entry.value.upload {
        IssuedStays(f.trace, e, |f.trace|, task.tok, task.entry.value);
      } else if task.Fetching? || task.Crediting? {
        EarnedStays(f.trace, e, task.requester, task.id);
      }
    }
    forall m | m in f.found ensures Earned(f.trace + [e], m.0, m.1) {
      EarnedStays(f.trace, e, m.0, m.1);
    }
  }

  lemma IssueEvidence(f: Finder, t: nat, tok: string, now: int, end: int, after: Table)
    requires Evidence(f) && CanIssue(f, t, tok, now, end, after)
    ensures Evidence(AfterIssue(f, t, tok, now, end, after))
  {
    var token := NewToken(f.tasks[t], now);
    var e := Issued(tok, token);
    EvidenceStays(f, e);
    IssueMirrors(f.tokens, f.issued, f.clock, tok, token, now, end, after);
    if !token.upload {
      PreparedStays(f.trace, e, |f.trace|, token.requester, token.id);
      assert (f.trace + [e])[|f.trace|] == e;
      assert IssuedBefore(f.trace + [e], |f.trace| + 1, tok, token);
    }
  }

  lemma LookupHasEvidence(f: Finder, t: nat, tok: string, id: Id)
    requires Evidence(f)
    ensures Evidence(AfterLookup(f, t, tok, id))
  {
    assert tok in f.issued || tok in f.tokens ==> tok in f.issued.Keys + f.tokens.Keys;
  }

  lemma AdmitEvidence(f: Finder, t: nat, now: int, hasBlob: bool)
    requires Evidence(f) && CanAdmit(f, t, now)
    ensures Evidence(AfterAdmit(f, t, now, hasBlob))
  {
    var task, k := f.tasks[t], |f.trace|;
    assert TaskEvidence(f.trace, task);
    if Admits(task.entry, task.id, now) && !task.entry.value.upload {
      var token := task.entry.value;
      var e := Downloaded(task.tok, task.id, token.requester, now);
      EvidenceStays(f, e);
      IssuedStays(f.trace, e, k, task.tok, token);
      assert DownloadAt(f.trace + [e], k, token, token.requester, task.id);
    }
  }

  lemma EvidenceStep(c: Core, f: Finder, a: FindAction)
    requires Evidence(f) && CanFind(c, f, a)
    ensures Evidence(FindNext(c, f, a))
  {
    match a {
      case Issue(t, tok, now, end, after) => IssueEvidence(f, t, tok, now, end, after);
      case Lookup(t, tok, id) => LookupHasEvidence(f, t, tok, id);
      case Admit(t, now, hasBlob) => AdmitEvidence(f, t, now, hasBlob);
      case PrepareGet(t, pid, id) =>
        EvidenceStays(f, Prepared(pid, id, |c.log|));
        assert (f.trace + [Prepared(pid, id, |c.log|)])[|f.trace|] == Prepared(pid, id, |c.log|);
      case AskUpload(t, id) =>
      case CheckOwner(t) =>
      case Credit(t) =>
      case Look(t, pid) =>
      case Answer(t) =>
    }
  }
}
