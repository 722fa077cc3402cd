/** The readers and writers as they run, on streams whose cursor advances; each against its function. */
module Streams {
  import opened Words
  import opened Options
  import opened Balloons
  import opened Wire
  import opened Framing

  class StreamIn {
    const headers: bool
    var rest: seq<Byte>
    var ok: bool

    function Cur(): Cursor
      reads this
    {
      Cursor(rest, ok)
    }

    constructor (bytes: seq<Byte>, ok: bool, headers: bool)
      ensures Cur() == Cursor(bytes, ok) && this.headers == headers
    {
      this.rest, this.ok, this.headers := bytes, ok, headers;
    }

    method U(n: nat) returns (v: nat)
      modifies this
      ensures (v, Cur()) == ReadU(old(Cur()), n)
    {
      if ok && n <= |rest| {
        v := FromLE(rest[..n]);
        rest := rest[n..];
      } else {
        v, rest, ok := 0, [], false;
      }
    }

    method S(n: nat) returns (v: int)
      modifies this
      ensures (v, Cur()) == ReadS(old(Cur()), n)
    {
      var u := U(n);
      v := FromTwos(u, n);
    }

    /** A stream over the next length-prefixed block, which this stream skips. */
    method Substream() returns (sub: StreamIn)
      requires headers
      modifies this
      ensures fresh(sub) && sub.headers
      ensures var (n, c) := ReadU(old(Cur()), 4);
              if c.ok && n <= |c.rest|
              then sub.Cur() == Cursor(c.rest[..n], true) && Cur() == Cursor(c.rest[n..], true)
              else sub.Cur() == Cur() == Cursor([], false)
    {
      var n := U(4);
      if ok && n <= |rest| {
        sub := new StreamIn(rest[..n], true, true);
        rest := rest[n..];
      } else {
        sub := new StreamIn([], false, true);
        rest, ok := [], false;
      }
    }
  }

  /** Without headers the structure is read from the enclosing stream itself. */
  method ReadStructHeader(in_: StreamIn) returns (p: StreamIn)
    modifies in_
    ensures p.headers == in_.headers
    ensures if in_.headers then fresh(p) else p == in_
    ensures (p.Cur(), in_.Cur()) == Open(old(in_.Cur()), in_.headers)
  {
    if !in_.headers {
      return in_;
    }
    var _ := in_.U(1);
    p := in_.Substream();
  }

  method ReadPermission(in_: StreamIn)
    modifies in_
    ensures in_.Cur() == SkipPermission(old(in_.Cur()), in_.headers)
  {
    var p := ReadStructHeader(in_);
    ghost var outer := in_.Cur();
    var _ := p.U(1);
    var n := p.U(4);
    ghost var list := p.Cur();
    var i := 0;
    while i < n
      invariant 0 <= i <= n
      invariant SkipPids(p.Cur(), n - i) == SkipPids(list, n)
      invariant p != in_ ==> in_.Cur() == outer
    {
      var _ := p.U(8);
      i := i + 1;
    }
  }

  method ReadPersistenceSlot(in_: StreamIn) returns (slot: Option<nat>)
    modifies in_
    ensures (slot, in_.Cur()) == ReadPersistence(old(in_.Cur()), in_.headers)
  {
    var p := ReadStructHeader(in_);
    var v := p.U(2);
    var _ := p.U(1);
    if !p.ok || !in_.ok || v == NOT_PERSISTENT {
      slot := None;
    } else {
      slot := Some(v);
    }
  }

  method ReadSlot(ws: StreamIn) returns (slot: Slot)
    modifies ws
    ensures (slot as int, ws.Cur()) == ReadS(old(ws.Cur()), 1)
  {
    WordSizes();
    slot := ws.S(1);
  }

  method ReadInitElement(in_: StreamIn) returns (entry: Option<(Slot, Int64)>)
    modifies in_
    ensures (entry, in_.Cur()) == ReadInit(old(in_.Cur()), in_.headers)
  {
    var ws := ReadStructHeader(in_);
    var slot := ReadSlot(ws);
    var p := ReadStructHeader(ws);
    var initial := ReadInitBody(p);
    entry := if ws.ok && p.ok then Some((slot, initial)) else None;
  }

  method ReadInitBody(p: StreamIn) returns (initial: Int64)
    modifies p
    ensures (initial, p.Cur()) == ReadInitFields(old(p.Cur()))
  {
    WordSizes();
    var _ := p.U(1);  // flag
    var _ := p.U(1);  // internal flag
    var _ := p.U(1);  // lock type
    initial := p.S(8);
    var _ := p.S(4);  // range minimum
    var _ := p.S(4);  // range maximum
    var _ := p.S(1);  // period hour
    var _ := p.S(2);  // period duration
  }

  method AddInitElement(in_: StreamIn, sofar: map<Slot, Int64>) returns (out: map<Slot, Int64>)
    modifies in_
    ensures (out, in_.Cur()) == AddInit(old(in_.Cur()), in_.headers, sofar)
  {
    out := sofar;
    var entry := ReadInitElement(in_);
    if entry.Some? {
      out := out[entry.value.0 := entry.value.1];
    }
  }

  /** Keeps each slot's initial value, the last one if a slot repeats. */
  method ReadRatingInitParams(in_: StreamIn) returns (out: map<Slot, Int64>)
    modifies in_
    ensures (out, in_.Cur()) == ReadInitParams(old(in_.Cur()), in_.headers)
  {
    out := map[];
    var n := in_.U(4);
    ghost var whole := ReadInits(in_.Cur(), in_.headers, n, map[]);
    var i := 0;
    while i < n
      invariant 0 <= i <= n
      invariant ReadInits(in_.Cur(), in_.headers, n - i, out) == whole
    {
      out := AddInitElement(in_, out);
      i := i + 1;
    }
  }

  class StreamOut {
    const headers: bool
    var bytes: seq<Byte>

    constructor (headers: bool)
      ensures bytes == [] && this.headers == headers
    {
      this.headers, bytes := headers, [];
    }

    method U(v: nat, n: nat)
      modifies this
      ensures bytes == old(bytes) + PutU(v, n, [])
    {
      bytes := bytes + LE(v, n);
    }

    method S(v: int, n: nat)
      requires Fits(v, n)
      modifies this
      ensures bytes == old(bytes) + PutS(v, n, [])
    {
      U(Twos(v, n), n);
    }
  }

  /** Writes one rating as its own structure: into a stream of its own if there are headers. */
  method WriteRatingInfo(o: StreamOut, e: Entry)
    modifies o
    ensures o.bytes == old(o.bytes) + Wrap(RatingBody(e, []), o.headers, [])
  {
    var sub := new StreamOut(o.headers);
    var target := if o.headers then sub else o;
    ghost var start := target.bytes;
    EntryFits(e);
    target.S(e.1.total, 8);
    target.U(e.1.count, 4);
    target.S(e.1.initial, 8);
    assert target.bytes == start + RatingBody(e, []);
    if o.headers {
      o.U(0, 1);
      o.U(|sub.bytes|, 4);
      o.bytes := o.bytes + sub.bytes;
    }
  }

  method WriteEntry(o: StreamOut, e: Entry)
    modifies o
    ensures o.bytes == old(o.bytes) + Single(e, o.headers)
  {
    EntryFits(e);
    Assoc(o.bytes, PutS(e.0, 1, []), Wrap(RatingBody(e, []), o.headers, []));
    o.S(e.0, 1);
    WriteRatingInfo(o, e);
  }

  /** `es` lists the entries of `m` outside `left`, each once. */
  ghost predicate Lists(es: seq<Entry>, m: map<Slot, RatingInfo>, left: set<Slot>) {
    && left <= m.Keys && |es| + |left| == |m|
    && (forall k <- m.Keys - left :: (k, m[k]) in es)
    && (forall e <- es :: e.0 in m && m[e.0] == e.1)
  }

  /** Writes the map in whatever order it yields its entries: `es` is that order. */
  method WriteRatings(o: StreamOut, m: map<Slot, RatingInfo>) returns (ghost es: seq<Entry>)
    modifies o
    ensures Lists(es, m, {})
    ensures o.bytes == old(o.bytes) + PutRatings(es, o.headers, [])
  {
    o.U(|m|, 4);
    es := [];
    ghost var start := o.bytes;
    var left := m.Keys;
    while left != {}
      invariant Lists(es, m, left)
      invariant o.bytes == start + PutEntries(es, o.headers, [])
    {
      var k :| k in left;
      left := left - {k};
      EntriesSnoc(es, (k, m[k]), o.headers);
      Assoc(start, PutEntries(es, o.headers, []), Single((k, m[k]), o.headers));
      WriteEntry(o, (k, m[k]));
      es := es + [(k, m[k])];
    }
    ghost var all := PutEntries(es, o.headers, []);
    PutUAppends(|m|, 4, [], all);
    assert [] + all == all;
    Assoc(old(o.bytes), PutU(|m|, 4, []), all);
  }

  lemma Assoc<T>(a: seq<T>, b: seq<T>, c: seq<T>)
    ensures a + b + c == a + (b + c)
  {
  }

  /** One entry on its own. */
  function Single(e: Entry, headers: bool): seq<Byte> {
    EntryFits(e);
    PutS(e.0, 1, []) + Wrap(RatingBody(e, []), headers, [])
  }

  lemma SingleInFront(e: Entry, headers: bool, tail: seq<Byte>)
    ensures Fits(e.0, 1)
    ensures Single(e, headers) + tail == PutS(e.0, 1, Wrap(RatingBody(e, []), headers, tail))
  {
    EntryFits(e);
    var body := RatingBody(e, []);
    var u := Twos(e.0, 1);
    PutUAppends(u, 1, [], Wrap(body, headers, []));
    assert [] + Wrap(body, headers, []) == Wrap(body, headers, []);
    PutUAppends(u, 1, Wrap(body, headers, []), tail);
    WrapAppends(body, headers, tail);
  }

  lemma WrapAppends(body: seq<Byte>, headers: bool, tail: seq<Byte>)
    ensures Wrap(body, headers, []) + tail == Wrap(body, headers, tail)
  {
    assert body + [] == body;
    PutUAppends(|body|, 4, body, tail);
    PutUAppends(0, 1, PutU(|body|, 4, body), tail);
  }

  lemma {:induction false} EntriesSnoc(es: seq<Entry>, e: Entry, headers: bool)
    ensures PutEntries(es + [e], headers, []) == PutEntries(es, headers, []) + Single(e, headers)
  {
    if es == [] {
      SingleInFront(e, headers, []);
      assert [e][1..] == [] && PutEntries([], headers, []) == [];
      assert [] + [e] == [e] && Single(e, headers) + [] == Single(e, headers);
    } else {
      assert (es + [e])[1..] == es[1..] + [e];
      EntriesSnoc(es[1..], e, headers);
      SingleInFront(es[0], headers, PutEntries(es[1..], headers, []));
      SingleInFront(es[0], headers, PutEntries((es + [e])[1..], headers, []));
      Assoc(Single(es[0], headers), PutEntries(es[1..], headers, []), Single(e, headers));
    }
  }
}
