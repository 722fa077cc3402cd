/** Fixed-width integers as the server's language defines them: additions wrap, conversions truncate. */
module Words {
  const TWO_32 := 0x1_0000_0000
  const TWO_63 := 0x8000_0000_0000_0000
  const TWO_64 := 0x1_0000_0000_0000_0000

  type Byte = b: int | 0 <= b < 256
  type UInt16 = u: int | 0 <= u < 0x1_0000
  type UInt32 = u: int | 0 <= u < TWO_32
  type Int64 = v: int | -TWO_63 <= v < TWO_63
  type Slot = s: int | -128 <= s < 128

  function U32(x: int): UInt32 {
    x % TWO_32
  }

  function S64(x: int): Int64 {
    (x + TWO_63) % TWO_64 - TWO_63
  }

  /** The conversion `int8(u)` of an unsigned wire slot. */
  function SlotOf(u: UInt32): (s: Slot)
    ensures (u - s) % 256 == 0
  {
    var w := u % 256;
    if w < 128 then w else w - 256
  }

  lemma S64Absorbs(a: int, b: int)
    ensures S64(S64(a) + b) == S64(a + b)
  {
    var k := (a + TWO_63) / TWO_64;
    assert S64(a) == a - k * TWO_64;
    assert (a + b + TWO_63 - k * TWO_64) % TWO_64 == (a + b + TWO_63) % TWO_64;
  }

  lemma U32Absorbs(a: int, b: int)
    ensures U32(U32(a) + b) == U32(a + b)
  {
    var k := a / TWO_32;
    assert U32(a) == a - k * TWO_32;
    assert (a + b - k * TWO_32) % TWO_32 == (a + b) % TWO_32;
  }

  /** Two wire slots address the same queue exactly when they agree modulo 256. */
  lemma SameSlot(u: UInt32, v: UInt32)
    ensures SlotOf(u) == SlotOf(v) <==> u % 256 == v % 256
  {
  }
}

module Options {
  datatype Option<+T> = None | Some(value: T)
}

module Sets {
  lemma SubsetSize<T>(a: set<T>, b: set<T>)
    requires a <= b
    ensures |a| <= |b|
  {
    if a == {} {
    } else {
      var x :| x in a;
      SubsetSize(a - {x}, b - {x});
    }
  }

  /** Adding one element, or dropping one, moves the size by at most one. */
  lemma SizeWithin<T>(a: set<T>, b: set<T>, x: T)
    requires a <= b + {x}
    ensures |a| <= |b| + 1
    ensures x !in a || x in b ==> |a| <= |b|
  {
    SubsetSize(a, b + {x});
    if x !in a {
      SubsetSize(a, b);
    }
  }
}

module Arith {
  lemma MulOrder(a: int, b: int, k: nat)
    requires a <= b
    ensures a * k <= b * k
  {
    assert (b - a) * k >= 0;
  }

  lemma Distribute(a: int, b: int, k: int)
    ensures (a + b) * k == a * k + b * k
  {
  }
}
