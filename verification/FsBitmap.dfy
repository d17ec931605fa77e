/**
 * The free bitmap as it is on disk: blocks of bytes, eight blocks to a byte.  Its bits, read in order, are
 * the sequence the rest of the file system works with.
 */
module FsBitmap {
  import opened Common
  import opened FsSpec

  const BPB: nat := 8 * BSIZE            // bits in a bitmap block

  /** The bit of a byte for a block number. */
  function Mask(b: nat): (m: bv8)
    ensures m == 1 || m == 2 || m == 4 || m == 8 || m == 16 || m == 32 || m == 64 || m == 128
  {
    var k := b % 8;
    if k == 0 then 1 else if k == 1 then 2 else if k == 2 then 4 else if k == 3 then 8
    else if k == 4 then 16 else if k == 5 then 32 else if k == 6 then 64 else 128
  }

  lemma MaskIsOne(b: nat, c: nat)
    ensures Mask(b) == Mask(c) <==> b % 8 == c % 8
  {
  }

  /** Setting or clearing one bit of a byte leaves the others. */
  lemma OneBit(x: bv8, m: bv8, k: bv8)
    requires m == 1 || m == 2 || m == 4 || m == 8 || m == 16 || m == 32 || m == 64 || m == 128
    requires k == 1 || k == 2 || k == 4 || k == 8 || k == 16 || k == 32 || k == 64 || k == 128
    ensures (x | m) & k != 0 <==> k == m || x & k != 0
    ensures x & !m & k != 0 <==> k != m && x & k != 0
  {
  }

  predicate Shaped(data: seq<seq<bv8>>, size: nat) {
    && size <= |data| * BPB
    && forall i :: 0 <= i < |data| ==> |data[i]| == BSIZE
  }

  function Byte(data: seq<seq<bv8>>, b: nat): bv8
    requires Shaped(data, b + 1)
  {
    InShape(data, b);
    data[b / BPB][b % BPB / 8]
  }

  lemma InShape(data: seq<seq<bv8>>, b: nat)
    requires Shaped(data, b + 1)
    ensures b / BPB < |data| && |data[b / BPB]| == BSIZE && b % BPB / 8 < BSIZE
  {
    assert b < |data| * BPB;
    assert b / BPB < |data|;
  }

  predicate Bit(data: seq<seq<bv8>>, b: nat)
    requires Shaped(data, b + 1)
  {
    Byte(data, b) & Mask(b) != 0
  }

  function WithByte(data: seq<seq<bv8>>, b: nat, x: bv8): seq<seq<bv8>>
    requires Shaped(data, b + 1)
  {
    InShape(data, b);
    data[b / BPB := data[b / BPB][b % BPB / 8 := x]]
  }

  /** Two block numbers share a byte and a bit of it only if they are equal. */
  lemma OtherPlace(b: nat, c: nat)
    requires b / BPB == c / BPB && b % BPB / 8 == c % BPB / 8 && b % 8 == c % 8
    ensures b == c
  {
    assert b % BPB % 8 == b % 8 && c % BPB % 8 == c % 8 by { Inner(b); Inner(c); }
  }

  lemma Inner(b: nat)
    ensures b % BPB % 8 == b % 8
  {
    assert b == b / BPB * BPB + b % BPB;
    assert b == 8 * (b / BPB * BSIZE) + b % BPB;
  }

  lemma Changed(data: seq<seq<bv8>>, size: nat, b: nat, x: bv8, c: nat)
    requires Shaped(data, size) && b < size && c < size
    ensures Shaped(WithByte(data, b, x), size)
    ensures Byte(WithByte(data, b, x), c) ==
            if c / BPB == b / BPB && c % BPB / 8 == b % BPB / 8 then x else Byte(data, c)
  {
    InShape(data, b);
    InShape(data, c);
  }

  lemma BitSet(data: seq<seq<bv8>>, size: nat, b: nat, c: nat)
    requires Shaped(data, size) && b < size && c < size
    ensures Shaped(WithByte(data, b, Byte(data, b) | Mask(b)), size)
    ensures Bit(WithByte(data, b, Byte(data, b) | Mask(b)), c) <==> c == b || Bit(data, c)
  {
    hide Byte, WithByte, Mask;
    Changed(data, size, b, Byte(data, b) | Mask(b), c);
    Settle(data, size, b, c);
  }

  lemma BitCleared(data: seq<seq<bv8>>, size: nat, b: nat, c: nat)
    requires Shaped(data, size) && b < size && c < size
    ensures Shaped(WithByte(data, b, Byte(data, b) & !Mask(b)), size)
    ensures Bit(WithByte(data, b, Byte(data, b) & !Mask(b)), c) <==> c != b && Bit(data, c)
  {
    hide Byte, WithByte, Mask;
    Changed(data, size, b, Byte(data, b) & !Mask(b), c);
    Settle(data, size, b, c);
  }

  lemma Settle(data: seq<seq<bv8>>, size: nat, b: nat, c: nat)
    requires Shaped(data, size) && b < size && c < size
    ensures c / BPB == b / BPB && c % BPB / 8 == b % BPB / 8 ==>
              && Byte(data, c) == Byte(data, b) && (Mask(c) == Mask(b) <==> c == b)
              && ((Byte(data, b) | Mask(b)) & Mask(c) != 0 <==> c == b || Bit(data, c))
              && (Byte(data, b) & !Mask(b) & Mask(c) != 0 <==> c != b && Bit(data, c))
  {
    if c / BPB == b / BPB && c % BPB / 8 == b % BPB / 8 {
      MaskIsOne(c, b);
      if c % 8 == b % 8 {
        OtherPlace(c, b);
      }
      OneBit(Byte(data, b), Mask(b), Mask(c));
    }
  }

  /** The bits in order. */
  function BitsOf(data: seq<seq<bv8>>, size: nat): (s: seq<bool>)
    requires Shaped(data, size)
    ensures |s| == size && forall b :: 0 <= b < size ==> s[b] == Bit(data, b)
  {
    seq(size, b requires 0 <= b < size => Bit(data, b))
  }

  function Marked(data: seq<seq<bv8>>, b: nat): seq<seq<bv8>>
    requires Shaped(data, b + 1)
  {
    WithByte(data, b, Byte(data, b) | Mask(b))
  }

  function Cleared(data: seq<seq<bv8>>, b: nat): seq<seq<bv8>>
    requires Shaped(data, b + 1)
  {
    WithByte(data, b, Byte(data, b) & !Mask(b))
  }

  lemma MarkedBits(data: seq<seq<bv8>>, size: nat, b: nat)
    requires Shaped(data, size) && b < size
    ensures Shaped(Marked(data, b), size) && BitsOf(Marked(data, b), size) == BitsOf(data, size)[b := true]
  {
    hide Bit, BitsOf, Byte, WithByte, Mask;
    BitSet(data, size, b, b);
    forall c | 0 <= c < size ensures BitsOf(Marked(data, b), size)[c] == BitsOf(data, size)[b := true][c] {
      BitSet(data, size, b, c);
    }
  }

  lemma ClearedBits(data: seq<seq<bv8>>, size: nat, b: nat)
    requires Shaped(data, size) && b < size
    ensures Shaped(Cleared(data, b), size) && BitsOf(Cleared(data, b), size) == BitsOf(data, size)[b := false]
  {
    hide Bit, BitsOf, Byte, WithByte, Mask;
    BitCleared(data, size, b, b);
    forall c | 0 <= c < size ensures BitsOf(Cleared(data, b), size)[c] == BitsOf(data, size)[b := false][c] {
      BitCleared(data, size, b, c);
    }
  }

  class Bitmap {
    const size: nat
    var data: seq<seq<bv8>>

    ghost predicate Valid()
      reads this
    {
      Shaped(data, size)
    }

    ghost function Bits(): seq<bool>
      requires Valid()
      reads this
    {
      BitsOf(data, size)
    }

    /** balloc: the first clear bit is set, and no other bit changes; None is the panic "out of blocks". */
    method Balloc() returns (r: Option<nat>)
      requires Valid()
      modifies this
      ensures Valid()
      ensures r.None? ==> data == old(data) && forall c :: 0 <= c < size ==> old(Bits())[c]
      ensures r.Some? ==>
                && r.value < size && !old(Bits())[r.value] && (forall c :: 0 <= c < r.value ==> old(Bits())[c])
                && Bits() == old(Bits())[r.value := true]
    {
      hide Bit, Byte, WithByte, Mask, BitsOf, Marked, Shaped;
      var b := 0;
      while b < size
        invariant data == old(data) && b % BPB == 0
        invariant forall c :: 0 <= c < b && c < size ==> BitsOf(data, size)[c]
      {
        var bi := 0;
        while bi < BPB && b + bi < size
          invariant bi <= BPB && data == old(data)
          invariant forall c :: 0 <= c < b + bi && c < size ==> BitsOf(data, size)[c]
        {
          BitAt(data, size, b, bi);
          var m := Mask(bi);
          if data[b / BPB][bi / 8] & m == 0 {
            MarkedBits(data, size, b + bi);
            data := data[b / BPB := data[b / BPB][bi / 8 := data[b / BPB][bi / 8] | m]];
            return Some(b + bi);
          }
          bi := bi + 1;
        }
        b := b + BPB;
      }
      return None;
    }

    /** bfree: that bit is cleared, and no other bit changes, in its byte or elsewhere. */
    method Bfree(b: nat)
      requires Valid() && b < size && Bits()[b]       // else panic "freeing free block"
      modifies this
      ensures Valid() && Bits() == old(Bits())[b := false]
    {
      hide Bit, Byte, WithByte, Mask, BitsOf, Cleared, Shaped;
      var bi := b % BPB;
      BitAt(data, size, b - bi, bi);
      ClearedBits(data, size, b);
      var m := Mask(bi);
      data := data[b / BPB := data[b / BPB][bi / 8 := data[b / BPB][bi / 8] & !m]];
    }
  }

  /** Where bit b + bi is, for the first bit `b` of a bitmap block. */
  lemma BitAt(data: seq<seq<bv8>>, size: nat, b: nat, bi: nat)
    requires Shaped(data, size) && b % BPB == 0 && bi < BPB && b + bi < size
    ensures b / BPB < |data| && bi / 8 < |data[b / BPB]| && (b + bi) / BPB == b / BPB && Shaped(data, b + bi + 1)
    ensures var x := data[b / BPB][bi / 8];
            && (BitsOf(data, size)[b + bi] <==> x & Mask(bi) != 0)
            && Marked(data, b + bi) == data[b / BPB := data[b / BPB][bi / 8 := x | Mask(bi)]]
            && Cleared(data, b + bi) == data[b / BPB := data[b / BPB][bi / 8 := x & !Mask(bi)]]
  {
    Placed(b, bi);
    InShape(data, b + bi);
    ByteIs(data, b + bi);
    hide Byte, WithByte, Mask;
    assert BitsOf(data, size)[b + bi] == Bit(data, b + bi);
  }

  lemma Placed(b: nat, bi: nat)
    requires b % BPB == 0 && bi < BPB
    ensures (b + bi) / BPB == b / BPB && (b + bi) % BPB == bi && Mask(b + bi) == Mask(bi)
  {
    assert b == b / BPB * BPB;
    Inner(b + bi);
    SameMask(b + bi, bi);
  }

  lemma SameMask(b: nat, c: nat)
    requires b % 8 == c % 8
    ensures Mask(b) == Mask(c)
  {
  }

  lemma ByteIs(data: seq<seq<bv8>>, b: nat)
    requires Shaped(data, b + 1)
    ensures b / BPB < |data| && b % BPB / 8 < |data[b / BPB]|
    ensures Byte(data, b) == data[b / BPB][b % BPB / 8] && (Bit(data, b) <==> Byte(data, b) & Mask(b) != 0)
    ensures forall x :: WithByte(data, b, x) == data[b / BPB := data[b / BPB][b % BPB / 8 := x]]
  {
    InShape(data, b);
  }
}
