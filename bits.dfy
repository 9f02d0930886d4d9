/** MSB-first serialisation of 8-bit values, as the DX4050 firmware clocks
    them over its data line: bit position 0 of a sequence is bit 7 of the
    byte. */
module Bits {

  /** The single-bit mask tested at position `k` of an MSB-first transfer:
      0x80 at position 0, halved at every further position. */
  function Mask(k: nat): (m: bv8)
    requires k < 8
  {
    if k == 0 then 0x80 else Mask(k - 1) / 2
  }

  /** The eight masks, 0x80 down to 0x01. */
  lemma MaskTable()
    ensures Mask(0) == 0x80 && Mask(1) == 0x40 && Mask(2) == 0x20 && Mask(3) == 0x10
    ensures Mask(4) == 0x08 && Mask(5) == 0x04 && Mask(6) == 0x02 && Mask(7) == 0x01
  {
    assert Mask(1) == 0x40;
    assert Mask(2) == 0x20;
    assert Mask(3) == 0x10;
    assert Mask(4) == 0x08;
    assert Mask(5) == 0x04;
    assert Mask(6) == 0x02;
  }

  /** The loop variable of the firmware's bit loops after `k` halvings of
      0x80: the mask of position `k`, and 0 once all 8 positions are done. */
  function Weight(k: nat): bv8
    requires k <= 8
  {
    if k == 8 then 0 else Mask(k)
  }

  /** Halving walks to the next position; the sending loops stop at 0 or at
      8 after 8 or 4 positions. */
  lemma WeightHalf(k: nat)
    requires k < 8
    ensures Weight(k) / 2 == Weight(k + 1)
    ensures Weight(k) > 0 && Weight(8) == 0
    ensures Weight(k) > 8 <==> k < 4
    ensures Weight(k) == Mask(k)
  {
    MaskTable();
  }

  /** The 8 bits of `b`, most significant first. */
  function BitsOf(b: bv8): (bits: seq<bool>)
    ensures |bits| == 8
  {
    [b & 0x80 != 0, b & 0x40 != 0, b & 0x20 != 0, b & 0x10 != 0,
     b & 0x08 != 0, b & 0x04 != 0, b & 0x02 != 0, b & 0x01 != 0]
  }

  /** Position `k` of the serialised byte is the bit the firmware's sending
      loop tests with the mask of that position. */
  lemma BitsOfAt(b: bv8, k: nat)
    requires k < 8
    ensures BitsOf(b)[k] == (b & Mask(k) != 0)
  {
    MaskTable();
    var bits := BitsOf(b);
    if k == 0 {
    } else if k == 1 {
    } else if k == 2 {
    } else if k == 3 {
    } else if k == 4 {
    } else if k == 5 {
    } else if k == 6 {
    } else {
      assert k == 7;
    }
  }

  /** The receive accumulator after the first `n` samples of `bits`, taken
      from bit position `first` on: `Mask(first + k)` OR-ed in for every set
      `bits[k]`, k < n. */
  function PackPrefix(bits: seq<bool>, first: nat, n: nat): bv8
    requires n <= |bits| && first + n <= 8
  {
    if n == 0 then 0
    else PackPrefix(bits, first, n - 1) | (if bits[n - 1] then Mask(first + n - 1) else 0)
  }

  /** The value formed from all of `bits` placed at positions `first` on. */
  function Pack(bits: seq<bool>, first: nat): bv8
    requires first + |bits| <= 8
  {
    PackPrefix(bits, first, |bits|)
  }

  /** OR-ing the mask of the next position into the receive accumulator
      when the next sample is high extends the packed prefix by one. */
  lemma AccumulateStep(acc0: bv8, acc: bv8, bits: seq<bool>, first: nat, n: nat)
    requires n < |bits| && first + n < 8
    requires acc == acc0 | PackPrefix(bits, first, n)
    ensures acc0 | PackPrefix(bits, first, n + 1) == if bits[n] then acc | Mask(first + n) else acc
  {
  }

  /** An accumulator that starts at 0 holds exactly what was OR-ed in. */
  lemma OrZero(x: bv8)
    ensures 0 | x == x
  {
  }

  /** Eight samples from position 0 form a byte bit by bit. */
  lemma PackByte(bits: seq<bool>)
    requires |bits| == 8
    ensures Pack(bits, 0)
            == (if bits[0] then 0x80 else 0) | (if bits[1] then 0x40 else 0)
             | (if bits[2] then 0x20 else 0) | (if bits[3] then 0x10 else 0)
             | (if bits[4] then 0x08 else 0) | (if bits[5] then 0x04 else 0)
             | (if bits[6] then 0x02 else 0) | (if bits[7] then 0x01 else 0)
  {
    MaskTable();
    assert PackPrefix(bits, 0, 1) == (if bits[0] then 0x80 else 0);
    assert PackPrefix(bits, 0, 2) == PackPrefix(bits, 0, 1) | (if bits[1] then 0x40 else 0);
    assert PackPrefix(bits, 0, 3) == PackPrefix(bits, 0, 2) | (if bits[2] then 0x20 else 0);
    assert PackPrefix(bits, 0, 4) == PackPrefix(bits, 0, 3) | (if bits[3] then 0x10 else 0);
    assert PackPrefix(bits, 0, 5) == PackPrefix(bits, 0, 4) | (if bits[4] then 0x08 else 0);
    assert PackPrefix(bits, 0, 6) == PackPrefix(bits, 0, 5) | (if bits[5] then 0x04 else 0);
    assert PackPrefix(bits, 0, 7) == PackPrefix(bits, 0, 6) | (if bits[6] then 0x02 else 0);
  }

  /** Four samples from position 4 form a low nibble bit by bit. */
  lemma PackNibble(bits: seq<bool>)
    requires |bits| == 4
    ensures Pack(bits, 4)
            == (if bits[0] then 0x08 else 0) | (if bits[1] then 0x04 else 0)
             | (if bits[2] then 0x02 else 0) | (if bits[3] then 0x01 else 0)
  {
    MaskTable();
    assert PackPrefix(bits, 4, 1) == (if bits[0] then 0x08 else 0);
    assert PackPrefix(bits, 4, 2) == PackPrefix(bits, 4, 1) | (if bits[1] then 0x04 else 0);
    assert PackPrefix(bits, 4, 3) == PackPrefix(bits, 4, 2) | (if bits[2] then 0x02 else 0);
  }

  /** Receiving the 8 bits a byte was sent as gives the byte back. */
  lemma PackBitsOf(b: bv8)
    ensures Pack(BitsOf(b), 0) == b
  {
    PackByte(BitsOf(b));
  }

  /** Sending a received byte reproduces the 8 sampled bits. */
  lemma BitsOfPack(bits: seq<bool>)
    requires |bits| == 8
    ensures BitsOf(Pack(bits, 0)) == bits
  {
    PackByte(bits);
  }

  /** A value packed into the low nibble (positions 4..7) leaves the high
      nibble clear, and it equals 0x0C exactly for the samples 1,1,0,0. */
  lemma LowNibble(bits: seq<bool>)
    requires |bits| == 4
    ensures Pack(bits, 4) & 0xF0 == 0
    ensures Pack(bits, 4) == 0x0C <==> bits == [true, true, false, false]
  {
    PackNibble(bits);
    if Pack(bits, 4) == 0x0C {
      assert bits[0] && bits[1] && !bits[2] && !bits[3];
    }
  }

  /** Receiving the low 4 bits of a byte into positions 4..7 gives its low
      nibble. */
  lemma PackLowNibbleOf(b: bv8)
    ensures Pack(BitsOf(b)[4..], 4) == b & 0x0F
  {
    PackNibble(BitsOf(b)[4..]);
  }
}
