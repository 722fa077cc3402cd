/** The call counters: three critical sections per call, interleaved over any number of calls. */
module Dashboard {
  import opened Sets

  type Pid = nat

  datatype Call = Call(pid: Pid, proto: nat, rmc: nat, addr: string)

  datatype Player = Player(firstSeen: int, lastSeen: int, ip: string, calls: nat, lastProto: nat, lastMethod: nat)

  datatype Event = Event(at: int, pid: Pid, proto: nat, rmc: nat)

  /** The counters; `logged` is history: every event ever appended. */
  datatype Stats = Stats(
    total: nat, players: map<Pid, Player>, sessions: nat, events: seq<Event>, counts: map<string, nat>,
    logged: seq<Event>)

  const KEPT := 100

  function CountCall(s: Stats): Stats {
    s.(total := s.total + 1)
  }

  /** The section under the player lock. */
  function SeePlayer(s: Stats, c: Call, first: int, last: int): Stats {
    var p := if c.pid in s.players then s.players[c.pid] else Player(first, 0, "", 0, 0, 0);
    var p' := p.(lastSeen := last, calls := p.calls + 1, lastProto := c.proto, lastMethod := c.rmc,
                 ip := if c.addr != "" then c.addr else p.ip);
    s.(players := s.players[c.pid := p'],
       sessions := if c.pid in s.players then s.sessions else s.sessions + 1)
  }

  function LastKept(events: seq<Event>): seq<Event> {
    if |events| > KEPT then events[|events| - KEPT..] else events
  }

  /** The section under the event lock; `name` is the method's display name. */
  function LogEvent(s: Stats, c: Call, now: int, name: string): Stats {
    var e := Event(now, c.pid, c.proto, c.rmc);
    s.(events := LastKept(s.events + [e]), logged := s.logged + [e],
       counts := s.counts[name := (if name in s.counts then s.counts[name] else 0) + 1])
  }

  /** The last hundred, in the order they were logged. */
  lemma LastKeptMeans(events: seq<Event>)
    ensures |LastKept(events)| == if |events| < 100 then |events| else 100
    ensures LastKept(events) == events[|events| - |LastKept(events)|..]
  {
  }

  /** What the player's section does, field by field. */
  lemma SeeingMeans(s: Stats, c: Call, first: int, last: int)
    ensures var after := SeePlayer(s, c, first, last);
            && after.total == s.total && after.events == s.events && after.counts == s.counts && after.logged == s.logged
            && after.players.Keys == s.players.Keys + {c.pid}
            && (forall p <- s.players :: p != c.pid ==> after.players[p] == s.players[p])
            && var known, now := c.pid in s.players, after.players[c.pid];
               && after.sessions == s.sessions + (if known then 0 else 1)
               && now.firstSeen == (if known then s.players[c.pid].firstSeen else first) && now.lastSeen == last
               && now.calls == (if known then s.players[c.pid].calls else 0) + 1
               && now.lastProto == c.proto && now.lastMethod == c.rmc
               && now.ip == (if c.addr != "" then c.addr else if known then s.players[c.pid].ip else "")
  {
  }

  /** What the event's section does, field by field. */
  lemma LoggingMeans(s: Stats, c: Call, now: int, name: string)
    requires |s.events| <= 100
    ensures var after, e := LogEvent(s, c, now, name), Event(now, c.pid, c.proto, c.rmc);
            && after.total == s.total && after.players == s.players && after.sessions == s.sessions
            && after.logged == s.logged + [e]
            && after.events == (if |s.events| < 100 then s.events + [e] else s.events[1..] + [e])
    ensures var after := LogEvent(s, c, now, name);
            && after.counts.Keys == s.counts.Keys + {name}
            && (forall k <- s.counts :: k != name ==> after.counts[k] == s.counts[k])
            && after.counts[name] == (if name in s.counts then s.counts[name] else 0) + 1
  {
  }

  // ----- sums over maps -----------------------------------------------------------------------

  ghost function SumCalls(players: map<Pid, Player>): nat {
    if players == map[] then 0
    else var k :| k in players; players[k].calls + SumCalls(players - {k})
  }

  ghost function SumCounts(counts: map<string, nat>): nat {
    if counts == map[] then 0
    else var k :| k in counts; counts[k] + SumCounts(counts - {k})
  }

  /** The sum may be taken in any order. */
  lemma {:induction false} SumCallsTake(players: map<Pid, Player>, k: Pid)
    requires k in players
    ensures SumCalls(players) == players[k].calls + SumCalls(players - {k})
  {
    var j :| j in players && SumCalls(players) == players[j].calls + SumCalls(players - {j});
    if j == k {
    } else {
      SumCallsTake(players - {j}, k);
      SumCallsTake(players - {k}, j);
      assert players - {j} - {k} == players - {k} - {j};
    }
  }

  lemma {:induction false} SumCountsTake(counts: map<string, nat>, k: string)
    requires k in counts
    ensures SumCounts(counts) == counts[k] + SumCounts(counts - {k})
  {
    var j :| j in counts && SumCounts(counts) == counts[j] + SumCounts(counts - {j});
    if j == k {
    } else {
      SumCountsTake(counts - {j}, k);
      SumCountsTake(counts - {k}, j);
      assert counts - {j} - {k} == counts - {k} - {j};
    }
  }

  lemma SeePlayerAddsOne(s: Stats, c: Call, first: int, last: int)
    ensures SumCalls(SeePlayer(s, c, first, last).players) == SumCalls(s.players) + 1
  {
    var after := SeePlayer(s, c, first, last).players;
    SumCallsTake(after, c.pid);
    assert after - {c.pid} == s.players - {c.pid};
    if c.pid in s.players {
      SumCallsTake(s.players, c.pid);
    } else {
      assert s.players - {c.pid} == s.players;
    }
  }

  lemma LogEventAddsOne(s: Stats, c: Call, now: int, name: string)
    ensures SumCounts(LogEvent(s, c, now, name).counts) == SumCounts(s.counts) + 1
  {
    var after := LogEvent(s, c, now, name).counts;
    SumCountsTake(after, name);
    assert after - {name} == s.counts - {name};
    if name in s.counts {
      SumCountsTake(s.counts, name);
    } else {
      assert s.counts - {name} == s.counts;
    }
  }

  // ----- interleavings ------------------------------------------------------------------------

  /** A call that has been counted, or counted and seen, and is not finished. */
  datatype Progress = Counted(c: Call) | Seen(c: Call)

  datatype Board = Board(stats: Stats, calls: map<nat, Progress>)

  datatype Step =
    | Begin(t: nat, c: Call)
    | See(t: nat, first: int, last: int)
    | Log(t: nat, now: int, name: string)

  predicate CanStep(b: Board, e: Step) {
    match e
    case Begin(t, c) => t !in b.calls && c.pid != 0
    case See(t, _, _) => t in b.calls && b.calls[t].Counted?
    case Log(t, _, _) => t in b.calls && b.calls[t].Seen?
  }

  function After(b: Board, e: Step): Board
    requires CanStep(b, e)
  {
    match e
    case Begin(t, c) => Board(CountCall(b.stats), b.calls[t := Counted(c)])
    case See(t, first, last) => Board(SeePlayer(b.stats, b.calls[t].c, first, last), b.calls[t := Seen(b.calls[t].c)])
    case Log(t, now, name) => Board(LogEvent(b.stats, b.calls[t].c, now, name), b.calls - {t})
  }

  function CountedCalls(b: Board): set<nat> {
    set t | t in b.calls && b.calls[t].Counted?
  }

  /** Each counter is behind the one before it by exactly the calls between their sections. */
  ghost predicate Inv(b: Board) {
    && b.stats.total == SumCalls(b.stats.players) + |CountedCalls(b)|
    && b.stats.total == SumCounts(b.stats.counts) + |b.calls.Keys|
    && b.stats.sessions == |b.stats.players.Keys|
    && b.stats.events == LastKept(b.stats.logged)
    && |b.stats.logged| == SumCounts(b.stats.counts)
  }

  lemma InvBegin(b: Board, t: nat, c: Call)
    requires Inv(b) && CanStep(b, Begin(t, c))
    ensures Inv(After(b, Begin(t, c)))
  {
    var b' := After(b, Begin(t, c));
    assert CountedCalls(b') == CountedCalls(b) + {t};
    assert b'.calls.Keys == b.calls.Keys + {t};
  }

  lemma InvSee(b: Board, t: nat, first: int, last: int)
    requires Inv(b) && CanStep(b, See(t, first, last))
    ensures Inv(After(b, See(t, first, last)))
  {
    var b' := After(b, See(t, first, last));
    SeePlayerAddsOne(b.stats, b.calls[t].c, first, last);
    assert CountedCalls(b') == CountedCalls(b) - {t};
    assert b'.calls.Keys == b.calls.Keys;
    assert b'.stats.players.Keys == b.stats.players.Keys + {b.calls[t].c.pid};
  }

  lemma LastKeptStep(events: seq<Event>, logged: seq<Event>, e: Event)
    requires events == LastKept(logged)
    ensures LastKept(events + [e]) == LastKept(logged + [e])
  {
  }

  lemma InvLog(b: Board, t: nat, now: int, name: string)
    requires Inv(b) && CanStep(b, Log(t, now, name))
    ensures Inv(After(b, Log(t, now, name)))
  {
    var b' := After(b, Log(t, now, name));
    var c := b.calls[t].c;
    LogEventAddsOne(b.stats, c, now, name);
    LastKeptStep(b.stats.events, b.stats.logged, Event(now, c.pid, c.proto, c.rmc));
    assert CountedCalls(b') == CountedCalls(b);
    assert b'.calls.Keys == b.calls.Keys - {t};
  }

  lemma InvStep(b: Board, e: Step)
    requires Inv(b) && CanStep(b, e)
    ensures Inv(After(b, e))
  {
    match e {
      case Begin(t, c) => InvBegin(b, t, c);
      case See(t, first, last) => InvSee(b, t, first, last);
      case Log(t, now, name) => InvLog(b, t, now, name);
    }
  }

  ghost predicate CanRun(b: Board, run: seq<Step>)
    decreases |run|, 0
  {
    run == [] || (CanRun(b, run[..|run| - 1]) && CanStep(Exec(b, run[..|run| - 1]), run[|run| - 1]))
  }

  ghost function Exec(b: Board, run: seq<Step>): Board
    requires CanRun(b, run)
    decreases |run|, 1
  {
    if run == [] then b else After(Exec(b, run[..|run| - 1]), run[|run| - 1])
  }

  const EMPTY := Board(Stats(0, map[], 0, [], map[], []), map[])

  lemma {:induction false} InvRun(run: seq<Step>)
    requires CanRun(EMPTY, run)
    ensures Inv(Exec(EMPTY, run))
  {
    if run == [] {
    } else {
      InvRun(run[..|run| - 1]);
      InvStep(Exec(EMPTY, run[..|run| - 1]), run[|run| - 1]);
    }
  }

  /** Methods never exceed player calls, which never exceed the total; all agree when nothing is in flight. */
  lemma CountersAreOrdered(run: seq<Step>)
    requires CanRun(EMPTY, run)
    ensures var b := Exec(EMPTY, run);
            && SumCounts(b.stats.counts) <= SumCalls(b.stats.players) <= b.stats.total
            && (b.calls == map[] ==> SumCounts(b.stats.counts) == SumCalls(b.stats.players) == b.stats.total)
            && b.stats.sessions == |b.stats.players.Keys|
            && |b.stats.events| == (if |b.stats.logged| < 100 then |b.stats.logged| else 100)
            && b.stats.events == b.stats.logged[|b.stats.logged| - |b.stats.events|..]
            && |b.stats.logged| == SumCounts(b.stats.counts)
  {
    InvRun(run);
    var b := Exec(EMPTY, run);
    SubsetSize(CountedCalls(b), b.calls.Keys);
  }

  // ----- as it runs ---------------------------------------------------------------------------

  class Counters {
    var total: nat
    var players: map<Pid, Player>
    var sessions: nat
    var events: seq<Event>
    var counts: map<string, nat>
    ghost var logged: seq<Event>

    ghost function View(): Stats
      reads this
    {
      Stats(total, players, sessions, events, counts, logged)
    }

    /** Calls without a player id are not counted; the others pass the three sections in order. */
    method NoteCall(c: Call, first: int, last: int, now: int, name: string)
      modifies this
      ensures View() == if c.pid == 0 then old(View())
                        else LogEvent(SeePlayer(CountCall(old(View())), c, first, last), c, now, name)
    {
      if c.pid == 0 {
        return;
      }
      total := total + 1;
      NotePlayer(c, first, last);
      NoteEvent(c, now, name);
    }

    method NotePlayer(c: Call, first: int, last: int)
      modifies this`players, this`sessions
      ensures View() == SeePlayer(old(View()), c, first, last)
    {
      var p: Player;
      if c.pid in players {
        p := players[c.pid];
      } else {
        p := Player(first, 0, "", 0, 0, 0);
        sessions := sessions + 1;
      }
      p := p.(lastSeen := last);
      p := p.(calls := p.calls + 1);
      p := p.(lastProto := c.proto, lastMethod := c.rmc);
      if c.addr != "" {
        p := p.(ip := c.addr);
      }
      players := players[c.pid := p];
    }

    method NoteEvent(c: Call, now: int, name: string)
      modifies this`events, this`counts, this`logged
      ensures View() == LogEvent(old(View()), c, now, name)
    {
      var e := Event(now, c.pid, c.proto, c.rmc);
      events := events + [e];
      logged := logged + [e];
      if |events| > KEPT {
        events := events[|events| - KEPT..];
      }
      counts := counts[name := (if name in counts then counts[name] else 0) + 1];
    }
  }
}
