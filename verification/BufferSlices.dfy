/**
 * Buffer queues as growable slices over shared backing arrays. A reader takes a slice header under
 * the lock and serialises it after releasing the lock, while appends go on.
 */
module BufferSlices {
  import opened Words
  import opened Balloons

  type QueueKey = (Id, Slot)

  /** A slice header: the first `len` elements of a backing array whose capacity is its length. */
  datatype Header = Header(arr: array<Blob>, len: nat)

  class BufferQueues {
    var heads: map<QueueKey, Header>
    /** Every header handed to a reader, with what it held at that moment. */
    ghost var handed: seq<(Header, seq<Blob>)>
    /** Every backing array that a queue or a handed header refers to. */
    ghost var arrays: set<array<Blob>>

    /** No array backs two queues, and no handed header reaches beyond the queue's newest one. */
    ghost predicate Valid()
      reads this, arrays
    {
      && (forall k <- heads :: heads[k].arr in arrays && heads[k].len <= heads[k].arr.Length)
      && (forall k <- heads, l <- heads :: k != l ==> heads[k].arr != heads[l].arr)
      && (forall h <- handed :: h.0.arr in arrays && h.0.len <= h.0.arr.Length && h.0.arr[..h.0.len] == h.1)
      && (forall h <- handed, k <- heads :: h.0.arr == heads[k].arr ==> h.0.len <= heads[k].len)
    }

    ghost function Queue(k: QueueKey): seq<Blob>
      reads this, arrays
      requires Valid()
    {
      if k in heads then heads[k].arr[..heads[k].len] else []
    }

    constructor ()
      ensures Valid() && heads == map[] && handed == [] && arrays == {}
    {
      heads, handed, arrays := map[], [], {};
    }

    /** Appends in place while there is capacity, else to a larger copy with room to spare. */
    method Append(k: QueueKey, buf: Blob, spare: nat)
      requires Valid()
      modifies this`heads, this`arrays, if k in heads then {heads[k].arr} else {}
      ensures old(arrays) <= arrays && fresh(arrays - old(arrays))
      ensures Valid() && Queue(k) == old(Queue(k)) + [buf]
      ensures heads.Keys == old(heads.Keys) + {k} && handed == old(handed)
      ensures (k in old(heads) && heads[k].arr == old(heads)[k].arr) || fresh(heads[k].arr)
      ensures forall l <- heads :: l != k ==> heads[l] == old(heads)[l]
      ensures forall l <- heads :: l != k ==> Queue(l) == old(Queue(l))
    {
      if k in heads && heads[k].len < heads[k].arr.Length {
        AppendInPlace(k, buf);
      } else {
        AppendToCopy(k, buf, spare);
      }
    }

    method AppendInPlace(k: QueueKey, buf: Blob)
      requires Valid() && k in heads && heads[k].len < heads[k].arr.Length
      modifies this`heads, heads[k].arr
      ensures Valid() && Queue(k) == old(Queue(k)) + [buf]
      ensures heads == old(heads)[k := Header(old(heads)[k].arr, old(heads)[k].len + 1)]
      ensures forall l <- heads :: l != k ==> Queue(l) == old(Queue(l))
    {
      var h := heads[k];
      h.arr[h.len] := buf;
      heads := heads[k := Header(h.arr, h.len + 1)];
    }

    method AppendToCopy(k: QueueKey, buf: Blob, spare: nat)
      requires Valid()
      modifies this`heads, this`arrays
      ensures old(arrays) <= arrays && fresh(arrays - old(arrays))
      ensures Valid() && Queue(k) == old(Queue(k)) + [buf]
      ensures k in heads && fresh(heads[k].arr) && heads == old(heads)[k := heads[k]]
      ensures forall l <- heads :: l != k ==> Queue(l) == old(Queue(l))
    {
      var empty := new Blob[0];
      var h := if k in heads then heads[k] else Header(empty, 0);
      var grown := Grow(h, buf, h.len + 1 + spare);
      heads, arrays := heads[k := Header(grown, h.len + 1)], arrays + {grown};
    }

    /** A copy of the header's elements in a new array of this capacity, with one more behind them. */
    static method Grow(h: Header, buf: Blob, capacity: nat) returns (grown: array<Blob>)
      requires h.len <= h.arr.Length && h.len < capacity
      ensures fresh(grown) && grown.Length == capacity && grown[..h.len + 1] == h.arr[..h.len] + [buf]
    {
      grown := new Blob[capacity](_ => []);
      var i := 0;
      while i < h.len
        invariant 0 <= i <= h.len && grown[..i] == h.arr[..i]
      {
        grown[i] := h.arr[i];
        i := i + 1;
      }
      grown[h.len] := buf;
    }

    /** Forgets the queue; its backing array lives on for readers that hold a header. */
    method Clear(k: QueueKey)
      requires Valid()
      modifies this`heads
      ensures Valid() && Queue(k) == []
      ensures heads == old(heads) - {k}
      ensures forall l <- heads :: Queue(l) == old(Queue(l))
    {
      heads := heads - {k};
    }

    /** Takes the header under the lock. */
    method Take(k: QueueKey) returns (h: Header)
      requires Valid()
      modifies this`handed, this`arrays
      ensures old(arrays) <= arrays && fresh(arrays - old(arrays))
      ensures Valid() && handed == old(handed) + [(h, Queue(k))]
      ensures heads == old(heads) && forall l <- heads :: Queue(l) == old(Queue(l))
    {
      if k in heads {
        h := heads[k];
      } else {
        var empty := new Blob[0];
        h := Header(empty, 0);
      }
      handed, arrays := handed + [(h, h.arr[..h.len])], arrays + {h.arr};
    }
  }

  /** What other requests do to the queues; `Head` is another reader taking a header. */
  datatype QueueOp = Add(k: QueueKey, buf: Blob, spare: nat) | Drop(k: QueueKey) | Head(k: QueueKey)

  method Run(q: BufferQueues, ops: seq<QueueOp>)
    requires q.Valid()
    modifies q, q.arrays
    ensures q.Valid() && old(q.handed) <= q.handed
    ensures old(q.arrays) <= q.arrays && fresh(q.arrays - old(q.arrays))
  {
    var n := 0;
    while n < |ops|
      invariant 0 <= n <= |ops| && q.Valid() && old(q.handed) <= q.handed
      invariant old(q.arrays) <= q.arrays && fresh(q.arrays - old(q.arrays))
    {
      match ops[n] {
        case Add(l, buf, spare) => q.Append(l, buf, spare);
        case Drop(l) => q.Clear(l);
        case Head(l) => var _ := q.Take(l);
      }
      n := n + 1;
    }
  }

  /** Other requests go on, then one element of a header taken earlier is read. */
  method ReadElement(q: BufferQueues, h: Header, ghost i: nat, j: nat, ops: seq<QueueOp>) returns (buf: Blob)
    requires q.Valid() && i < |q.handed| && q.handed[i].0 == h && j < h.len
    modifies q, q.arrays
    ensures q.Valid() && old(q.handed) <= q.handed
    ensures old(q.arrays) <= q.arrays && fresh(q.arrays - old(q.arrays))
    ensures h.len == |old(q.handed)[i].1| && buf == old(q.handed)[i].1[j]
  {
    Run(q, ops);
    assert q.handed[i] == old(q.handed)[i] && q.handed[i] in q.handed;
    buf := h.arr[j];
    assert buf == h.arr[..h.len][j];
  }

  /**
   * Serialises a header taken at any earlier time, element by element; `between` is what other
   * requests do before each element is read. The answer is exactly what the queue held at the taking.
   */
  method Serialise(q: BufferQueues, h: Header, ghost i: nat, between: nat -> seq<QueueOp>) returns (bufs: seq<Blob>)
    requires q.Valid() && i < |q.handed| && q.handed[i].0 == h
    modifies q, q.arrays
    ensures q.Valid() && bufs == old(q.handed)[i].1
  {
    ghost var held := q.handed[i].1;
    assert q.handed[i] in q.handed && |held| == h.len;
    bufs := [];
    var j := 0;
    while j < h.len
      invariant 0 <= j <= h.len && q.Valid() && old(q.handed) <= q.handed
      invariant old(q.arrays) <= q.arrays && fresh(q.arrays - old(q.arrays))
      invariant bufs == held[..j]
    {
      assert q.handed[i] == old(q.handed)[i];
      var buf := ReadElement(q, h, i, j, between(j));
      bufs := bufs + [buf];
      j := j + 1;
    }
  }

  /** Whatever other requests do from the taking of the header to its last element, the answer is the queue at the start. */
  method ReadDuring(q: BufferQueues, k: QueueKey, between: nat -> seq<QueueOp>) returns (bufs: seq<Blob>)
    requires q.Valid()
    modifies q, q.arrays
    ensures q.Valid() && bufs == old(q.Queue(k))
  {
    var h := q.Take(k);
    bufs := Serialise(q, h, |q.handed| - 1, between);
  }
}
