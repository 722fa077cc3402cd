/** Object tokens: issued with an expiry, swept opportunistically, checked on use. */
module Tokens {
  import opened Options
  import opened Balloons

  datatype Token = Token(id: Id, requester: Pid, upload: bool, expires: int)

  type Table = map<string, Token>

  /** Ten minutes, in nanoseconds. */
  const TTL := 600 * NANOS

  /** What a lookup finds. */
  function Entry(table: Table, tok: string): Option<Token> {
    if tok in table then Some(table[tok]) else None
  }

  /** The check made of every entry that a request looks up; the clock is read after the lookup. */
  predicate Admits(entry: Option<Token>, id: Id, at: int) {
    entry.Some? && entry.value.id == id && at <= entry.value.expires
  }

  predicate Accepts(table: Table, tok: string, id: Id, at: int) {
    Admits(Entry(table, tok), id, at)
  }

  /** A sweep whose clock readings lie between `start` and `end`: it may race with an expiry in between. */
  predicate Sweep(before: Table, start: int, end: int, after: Table) {
    && after.Keys <= before.Keys
    && (forall k <- after :: after[k] == before[k])
    && (forall k <- before :: k !in after ==> before[k].expires < end)
    && (forall k <- before :: before[k].expires < start ==> k !in after)
  }

  /** `tokens` is `issued` without some tokens, all of them expired by `clock`. */
  predicate Mirrors(tokens: Table, issued: Table, clock: int) {
    forall k <- issued.Keys + tokens.Keys ::
      && k in issued
      && (if k in tokens then tokens[k] == issued[k] else issued[k].expires < clock)
  }

  /** From now on the swept table accepts exactly what a table never swept would. */
  lemma SweepingIsInvisible(tokens: Table, issued: Table, clock: int, tok: string, id: Id, at: int)
    requires Mirrors(tokens, issued, clock) && clock <= at
    ensures Accepts(tokens, tok, id, at) <==> Accepts(issued, tok, id, at)
    ensures Accepts(issued, tok, id, at) <==> (tok in issued && issued[tok].id == id && at <= issued[tok].expires)
  {
    assert tok in issued || tok in tokens ==> tok in issued.Keys + tokens.Keys;
  }

  /** Issuing a token, even one that repeats an old string, and sweeping keeps the tables in step. */
  lemma IssueMirrors(tokens: Table, issued: Table, clock: int, tok: string, info: Token,
                     now: int, end: int, after: Table)
    requires Mirrors(tokens, issued, clock) && clock <= now <= end
    requires Sweep(tokens[tok := info], now, end, after)
    ensures Mirrors(after, issued[tok := info], end)
  {
    forall k | k in issued[tok := info].Keys + after.Keys
      ensures k in issued[tok := info]
      ensures if k in after then after[k] == issued[tok := info][k] else issued[tok := info][k].expires < end
    {
      assert k != tok ==> k in issued.Keys + tokens.Keys;
    }
  }

  class ObjectTokens {
    var tokens: Table
    var clock: int
    /** What the table would hold had it never been swept. */
    ghost var issued: Table

    ghost predicate Valid()
      reads this
    {
      Mirrors(tokens, issued, clock)
    }

    constructor (start: int)
      ensures Valid() && tokens == map[] && issued == map[] && clock == start
    {
      tokens, issued, clock := map[], map[], start;
    }

    /** The clock never runs backwards between readings. */
    method Now() returns (t: int)
      modifies this`clock
      ensures old(clock) <= clock == t
    {
      var elapsed: int :| elapsed >= 0;
      clock := clock + elapsed;
      t := clock;
    }

    /** `now` is the clock reading the expiry is counted from. */
    method NewToken(tok: string, id: Id, requester: Pid, upload: bool) returns (ghost now: int)
      requires Valid()
      modifies this
      ensures Valid() && old(clock) <= now <= clock
      ensures var info := Token(id, requester, upload, now + 600_000_000_000);
              && issued == old(issued)[tok := info]
              && tokens.Keys <= old(tokens).Keys + {tok} && (forall k <- tokens :: tokens[k] == old(tokens)[tok := info][k])
              && (forall k <- old(tokens) :: k != tok && k !in tokens ==> old(tokens)[k].expires < clock)
              && (forall k <- old(tokens) :: k != tok && old(tokens)[k].expires < now ==> k !in tokens)
    {
      var issue := Now();
      now := issue;
      var info := Token(id, requester, upload, issue + TTL);
      tokens := tokens[tok := info];
      issued := issued[tok := info];
      ghost var table := tokens;
      var left := tokens.Keys;
      while left != {}
        invariant left <= tokens.Keys <= table.Keys
        invariant now <= clock
        invariant issued == old(issued)[tok := info]
        invariant forall k <- tokens :: tokens[k] == table[k]
        invariant forall k <- table :: k !in tokens ==> table[k].expires < clock
        invariant forall k <- tokens :: k !in left ==> now <= table[k].expires
      {
        var k :| k in left;
        left := left - {k};
        var t := Now();
        if t > tokens[k].expires {
          tokens := tokens - {k};
        }
      }
      assert Sweep(table, now, clock, tokens);
      IssueMirrors(old(tokens), old(issued), old(clock), tok, info, now, clock, tokens);
    }

    /** Looks the token up, then reads the clock: the answer is the never-swept table's. */
    method Check(tok: string, id: Id) returns (info: Option<Token>)
      requires Valid()
      modifies this`clock
      ensures Valid() && old(clock) <= clock
      ensures info == if tok in issued && issued[tok].id == id && clock <= issued[tok].expires then Some(issued[tok]) else None
    {
      var t := Now();
      SweepingIsInvisible(tokens, issued, clock, tok, id, clock);
      assert tok in tokens ==> tok in issued.Keys + tokens.Keys;
      if tok !in tokens || tokens[tok].id != id || t > tokens[tok].expires {
        info := None;
      } else {
        info := Some(tokens[tok]);
      }
    }
  }
}
