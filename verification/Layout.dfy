/** Where the fields of each structure stand, in bytes, whatever writes or reads them. */
module Layout {
  import opened Words
  import opened Options
  import opened Wire
  import opened Framing
  import opened PostRequests

  /** The value of two and of four bytes, the lowest first. */
  function Word(bs: seq<Byte>, at: nat): nat
    requires at + 2 <= |bs|
  {
    var lo: int, hi: int := bs[at], bs[at + 1];
    lo + 0x100 * hi
  }

  function Long(bs: seq<Byte>, at: nat): nat
    requires at + 4 <= |bs|
  {
    Word(bs, at) + 0x1_0000 * Word(bs, at + 2)
  }

  function Quad(bs: seq<Byte>, at: nat): nat
    requires at + 8 <= |bs|
  {
    Long(bs, at) + 0x1_0000_0000 * Long(bs, at + 4)
  }

  /** The same as signed. */
  function SignedQuad(bs: seq<Byte>, at: nat): int
    requires at + 8 <= |bs|
  {
    var v := Quad(bs, at);
    if v < 0x8000_0000_0000_0000 then v else v - 0x1_0000_0000_0000_0000
  }

  // ----- fields -------------------------------------------------------------------------------

  lemma {:induction false} FromLESplits(s: seq<Byte>, k: nat)
    requires k <= |s|
    ensures FromLE(s) == FromLE(s[..k]) + Pow256(k) * FromLE(s[k..])
  {
    if k == 0 {
      assert s[0..] == s;
    } else {
      FromLESplits(s[1..], k - 1);
      assert s[1..][..k - 1] == s[..k][1..] && s[1..][k - 1..] == s[k..];
      Times256(Pow256(k - 1), FromLE(s[k..]));
    }
  }

  lemma Times256(p: nat, v: nat)
    ensures 256 * (p * v) == (256 * p) * v
  {
  }

  lemma ByteAt(c: Cursor)
    requires c.ok && |c.rest| >= 1
    ensures ReadU(c, 1) == (c.rest[0], Cursor(c.rest[1..], true))
  {
    assert c.rest[..1][1..] == [];
  }

  lemma WordAt(c: Cursor)
    requires c.ok && |c.rest| >= 2
    ensures ReadU(c, 2) == (Word(c.rest, 0), Cursor(c.rest[2..], true))
  {
    var s := c.rest[..2];
    assert s[1..][1..] == [] && s[1..][0] == c.rest[1];
    assert FromLE(s[1..]) == c.rest[1];
  }

  lemma LongAt(c: Cursor)
    requires c.ok && |c.rest| >= 4
    ensures ReadU(c, 4) == (Long(c.rest, 0), Cursor(c.rest[4..], true))
  {
    var s := c.rest[..4];
    FromLESplits(s, 2);
    WordAt(Cursor(s, true));
    WordAt(Cursor(s[2..], true));
    assert s[2..][..2] == s[2..];
    WordSizes();
  }

  lemma QuadAt(c: Cursor)
    requires c.ok && |c.rest| >= 8
    ensures ReadU(c, 8) == (Quad(c.rest, 0), Cursor(c.rest[8..], true))
    ensures ReadS(c, 8) == (SignedQuad(c.rest, 0), Cursor(c.rest[8..], true))
  {
    var s := c.rest[..8];
    FromLESplits(s, 4);
    LongAt(Cursor(s, true));
    LongAt(Cursor(s[4..], true));
    assert s[4..][..4] == s[4..];
    WordSizes();
  }

  // ----- structures ---------------------------------------------------------------------------

  /** With headers: a version byte, a length in four bytes, and then that many bytes of the structure. */
  lemma HeaderLayout(bs: seq<Byte>)
    requires |bs| >= 5 && 5 + Long(bs, 1) <= |bs|
    ensures Open(Cursor(bs, true), true) ==
              (Cursor(bs[5..5 + Long(bs, 1)], true), Cursor(bs[5 + Long(bs, 1)..], true))
  {
    var n := Long(bs, 1);
    ByteAt(Cursor(bs, true));
    LongAt(Cursor(bs[1..], true));
    assert Long(bs[1..], 0) == n && bs[1..][4..] == bs[5..];
    assert bs[5..][..n] == bs[5..5 + n] && bs[5..][n..] == bs[5 + n..];
  }

  /** A persistence slot: two bytes, then one more. */
  lemma PersistenceLayout(bs: seq<Byte>)
    requires |bs| >= 3
    ensures ReadPersistence(Cursor(bs, true), false) ==
              (if Word(bs, 0) == 0xFFFF then None else Some(Word(bs, 0)), Cursor(bs[3..], true))
  {
    WordAt(Cursor(bs, true));
    ByteAt(Cursor(bs[2..], true));
    assert bs[2..][1..] == bs[3..];
  }

  lemma {:induction false} PidsLayout(bs: seq<Byte>, n: nat)
    requires 8 * n <= |bs|
    ensures SkipPids(Cursor(bs, true), n) == Cursor(bs[8 * n..], true)
  {
    if n == 0 {
    } else {
      PidsLayout(bs[8..], n - 1);
      assert bs[8..][8 * (n - 1)..] == bs[8 * n..];
    }
  }

  /** A permission: one byte, a count in four bytes, and eight bytes for each player. */
  lemma PermissionLayout(bs: seq<Byte>)
    requires |bs| >= 5 && 5 + 8 * Long(bs, 1) <= |bs|
    ensures SkipPermission(Cursor(bs, true), false) == Cursor(bs[5 + 8 * Long(bs, 1)..], true)
  {
    var n := Long(bs, 1);
    ByteAt(Cursor(bs, true));
    LongAt(Cursor(bs[1..], true));
    assert Long(bs[1..], 0) == n && bs[1..][4..] == bs[5..];
    PidsLayout(bs[5..], n);
    assert bs[5..][8 * n..] == bs[5 + 8 * n..];
  }

  lemma Skip(bs: seq<Byte>, at: nat, n: nat)
    requires at + n <= |bs|
    ensures ReadU(Cursor(bs[at..], true), n).1 == Cursor(bs[at + n..], true)
  {
    assert bs[at..][n..] == bs[at + n..];
  }

  /** A rating initialiser: the initial value stands behind three bytes, and eleven more follow it. */
  lemma InitLayout(bs: seq<Byte>)
    requires |bs| >= 22
    ensures ReadInitFields(Cursor(bs, true)) == (SignedQuad(bs, 3), Cursor(bs[22..], true))
  {
    assert bs[0..] == bs;
    Skip(bs, 0, 1);
    Skip(bs, 1, 1);
    Skip(bs, 2, 1);
    QuadAt(Cursor(bs[3..], true));
    assert SignedQuad(bs[3..], 0) == SignedQuad(bs, 3) && bs[3..][8..] == bs[11..];
    Skip(bs, 11, 4);
    Skip(bs, 15, 4);
    Skip(bs, 19, 1);
    Skip(bs, 20, 2);
  }

  /** A rating initialiser that is too short is an error. */
  lemma ShortInit(bs: seq<Byte>)
    requires |bs| < 22
    ensures !ReadInitFields(Cursor(bs, true)).1.ok
  {
    var c3 := ReadU(ReadU(ReadU(Cursor(bs, true), 1).1, 1).1, 1).1;
    var c4 := ReadS(c3, 8).1;
    var c6 := ReadS(ReadS(c4, 4).1, 4).1;
    assert c3.ok ==> |c3.rest| == |bs| - 3;
    assert c4.ok ==> |c4.rest| == |bs| - 11;
    assert c6.ok ==> |c6.rest| == |bs| - 19;
  }

  /** With headers, an element counts exactly if its initialiser is long enough; the next one is read in any case. */
  lemma ShortInitIsSkipped(slot: Slot, body: seq<Byte>, extra: seq<Byte>, tail: seq<Byte>)
    requires |body| + |extra| + 6 < Pow256(4)
    ensures Fits(slot, 1)
    ensures var element := Wrap(PutS(slot, 1, Wrap(body, true, extra)), true, tail);
            ReadInit(Cursor(element, true), true) ==
              (if |body| >= 22 then Some((slot, SignedQuad(body, 3))) else None, Cursor(tail, true))
  {
    WordSizes();
    var inner := Wrap(body, true, extra);
    OpenWrapped(PutS(slot, 1, inner), true, tail);
    SReadsBack(slot, 1, inner);
    OpenWrapped(body, true, extra);
    if |body| >= 22 {
      InitLayout(body);
    } else {
      ShortInit(body);
    }
  }

  /** A rating: total in eight bytes, count in four, initial value in eight. */
  lemma RatingLayout(bs: seq<Byte>)
    requires |bs| >= 20
    ensures ReadRatingFields(Cursor(bs, true)) ==
              ((SignedQuad(bs, 0), Long(bs, 8), SignedQuad(bs, 12)), Cursor(bs[20..], true))
  {
    QuadAt(Cursor(bs, true));
    LongAt(Cursor(bs[8..], true));
    assert bs[8..][4..] == bs[12..] && Long(bs[8..], 0) == Long(bs, 8);
    QuadAt(Cursor(bs[12..], true));
    assert bs[12..][8..] == bs[20..] && SignedQuad(bs[12..], 0) == SignedQuad(bs, 12);
  }

  /** A blob or a string: its length in two bytes, then its bytes. */
  lemma BlobLayout(bs: seq<Byte>, at: nat)
    requires at + 2 <= |bs| && at + 2 + Word(bs, at) <= |bs|
    ensures var end := at + 2 + Word(bs, at);
            ReadBlob(Cursor(bs[at..], true)) == (bs[at + 2..end], Cursor(bs[end..], true))
  {
    var n := Word(bs, at);
    WordAt(Cursor(bs[at..], true));
    assert Word(bs[at..], 0) == n && bs[at..][2..] == bs[at + 2..];
    assert bs[at + 2..][..n] == bs[at + 2..at + 2 + n] && bs[at + 2..][n..] == bs[at + 2 + n..];
  }

  /** A post: size, name, type, meta binary, two permissions, flag, period, reference, tags. */
  lemma PostLayout(r: Request, tail: seq<Byte>)
    requires GoodRequest(r, false)
    ensures PutHead(r, false, tail) ==
              LE(r.head.size, 4) + (LE(|r.head.name|, 2) + (TextBytes(r.head.name) +
              (LE(r.head.dataType, 2) + (LE(|r.head.meta|, 2) + (r.head.meta + PutTail(r, false, tail))))))
    ensures PutTail(r, false, tail) ==
              PermissionBody(r.permission, []) + (PermissionBody(r.delPermission, []) +
              (LE(r.flag, 4) + (LE(r.period, 2) + (LE(r.reference, 4) +
              (LE(|r.head.tags|, 4) + PutTexts(r.head.tags, tail))))))
  {
  }
}
