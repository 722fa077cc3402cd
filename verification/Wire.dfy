/** Little-endian fields and the cursor that reads them; a failed read sticks. */
module Wire {
  import opened Words

  function Pow256(n: nat): (p: nat)
    ensures p > 0
  {
    if n == 0 then 1 else 256 * Pow256(n - 1)
  }

  function LE(v: nat, n: nat): (s: seq<Byte>)
    ensures |s| == n
  {
    if n == 0 then [] else [v % 256] + LE(v / 256, n - 1)
  }

  /** The sizes in use: 1, 2, 4 and 8 bytes. */
  lemma WordSizes()
    ensures Pow256(1) == 0x100 && Pow256(2) == 0x1_0000 && Pow256(4) == TWO_32 && Pow256(8) == TWO_64
  {
    assert Pow256(4) == 256 * 256 * 256 * 256;
    assert Pow256(8) == 256 * 256 * 256 * 256 * Pow256(4);
  }

  function FromLE(s: seq<Byte>): (v: nat)
    ensures v < Pow256(|s|)
  {
    if s == [] then 0 else s[0] + 256 * FromLE(s[1..])
  }

  lemma {:induction false} FromLEOfLE(v: nat, n: nat)
    requires v < Pow256(n)
    ensures FromLE(LE(v, n)) == v
  {
    if n == 0 {
    } else {
      FromLEOfLE(v / 256, n - 1);
      assert LE(v, n)[1..] == LE(v / 256, n - 1);
    }
  }

  /** Two's complement in n bytes. */
  function Twos(v: int, n: nat): int {
    if v < 0 then v + Pow256(n) else v
  }

  function FromTwos(u: nat, n: nat): (v: int)
    ensures u < Pow256(n) ==> Fits(v, n)
  {
    if 2 * u >= Pow256(n) then u - Pow256(n) else u
  }

  predicate Fits(v: int, n: nat) {
    0 <= 2 * v + Pow256(n) && 2 * v < Pow256(n)
  }

  /** What is left to read, and whether every read so far succeeded. */
  datatype Cursor = Cursor(rest: seq<Byte>, ok: bool)

  function ReadU(c: Cursor, n: nat): (r: (nat, Cursor))
    ensures r.0 < Pow256(n)
  {
    if c.ok && n <= |c.rest| then (FromLE(c.rest[..n]), Cursor(c.rest[n..], true))
    else (0, Cursor([], false))
  }

  function ReadS(c: Cursor, n: nat): (r: (int, Cursor))
    ensures Fits(r.0, n)
  {
    var (u, c') := ReadU(c, n);
    (FromTwos(u, n), c')
  }

  /** Fields are written in front of what follows them. */
  function PutU(v: nat, n: nat, tail: seq<Byte>): seq<Byte> {
    LE(v, n) + tail
  }

  function PutS(v: int, n: nat, tail: seq<Byte>): seq<Byte>
    requires Fits(v, n)
  {
    PutU(Twos(v, n), n, tail)
  }

  lemma UReadsBack(v: nat, n: nat, tail: seq<Byte>)
    requires v < Pow256(n)
    ensures ReadU(Cursor(PutU(v, n, tail), true), n) == (v, Cursor(tail, true))
  {
    FromLEOfLE(v, n);
    assert PutU(v, n, tail)[..n] == LE(v, n) && PutU(v, n, tail)[n..] == tail;
  }

  lemma SReadsBack(v: int, n: nat, tail: seq<Byte>)
    requires Fits(v, n)
    ensures ReadS(Cursor(PutS(v, n, tail), true), n) == (v, Cursor(tail, true))
  {
    UReadsBack(Twos(v, n), n, tail);
  }

  lemma PutUAppends(v: nat, n: nat, a: seq<Byte>, b: seq<Byte>)
    ensures PutU(v, n, a) + b == PutU(v, n, a + b)
  {
    assert LE(v, n) + a + b == LE(v, n) + (a + b);
  }

  // ----- structures ---------------------------------------------------------------------------

  /** A structure's own cursor, and the cursor behind it. Without headers they are one and the same. */
  function Open(c: Cursor, headers: bool): (Cursor, Cursor) {
    if !headers then (c, c)
    else
      var c1 := ReadU(c, 1).1;
      var (n, c2) := ReadU(c1, 4);
      if c2.ok && n <= |c2.rest| then (Cursor(c2.rest[..n], true), Cursor(c2.rest[n..], true))
      else (Cursor([], false), Cursor([], false))
  }

  /** Where the enclosing cursor stands once the structure's own cursor has been read to `body`. */
  function Close(body: Cursor, outer: Cursor, headers: bool): Cursor {
    if headers then outer else body
  }

  /** A structure in front of `tail`: version 0, length, body, or the bare body without headers. */
  function Wrap(body: seq<Byte>, headers: bool, tail: seq<Byte>): seq<Byte> {
    if headers then PutU(0, 1, PutU(|body|, 4, body + tail)) else body + tail
  }

  /** With headers, opening gives exactly the body, and leaves exactly what follows it. */
  lemma OpenWrapped(body: seq<Byte>, headers: bool, tail: seq<Byte>)
    requires |body| < Pow256(4)
    ensures Open(Cursor(Wrap(body, headers, tail), true), headers) ==
              if headers then (Cursor(body, true), Cursor(tail, true))
              else (Cursor(body + tail, true), Cursor(body + tail, true))
  {
    if headers {
      UReadsBack(0, 1, PutU(|body|, 4, body + tail));
      UReadsBack(|body|, 4, body + tail);
      assert (body + tail)[..|body|] == body && (body + tail)[|body|..] == tail;
    }
  }
}
