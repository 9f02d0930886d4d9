/** The i2c EEPROM of a RICOH cartridge chip as the SG2100N and SP112
    resetters reach it through their i2c master library: 256 bytes of
    memory behind an address pointer that counts up after every byte. */
module Eeprom {

  /** A memory address; the firmware hands the library 8-bit values. */
  type Address = a: int | 0 <= a < 256

  /** The 256 bytes of the chip. */
  type Memory = m: seq<bv8> | |m| == 256 witness seq(256, _ => 0)

  /** The address `i` bytes past `start`, computed in 8 bits as the
      firmware's `whereStart + i` is and as the chip's pointer wraps. */
  function Offset(start: Address, i: nat): Address
  {
    (start + i) % 256
  }

  /** Whether `a` is one of the `n` addresses from `start` on. */
  predicate InRange(a: Address, start: Address, n: nat)
  {
    (a - start) % 256 < n
  }

  /** The address `i` steps past `start` is in a range from `start`
      exactly when the range is longer than `i`. */
  lemma OffsetInRange(start: Address, i: nat, n: nat)
    requires i < 256
    ensures (Offset(start, i) - start) % 256 == i
    ensures InRange(Offset(start, i), start, n) <==> i < n
  {
    if start + i >= 256 {
      assert Offset(start, i) == start + i - 256;
    }
  }

  /** A range that does not run past 0xFF is an interval. */
  lemma InRangeInterval(a: Address, start: Address, n: nat)
    requires start + n <= 256
    ensures InRange(a, start, n) <==> start <= a < start + n
  {
  }

  /** The range of `n + 1` addresses adds the address `n` steps along. */
  lemma InRangeStep(a: Address, start: Address, n: nat)
    requires n < 256
    ensures InRange(a, start, n + 1) <==> InRange(a, start, n) || a == Offset(start, n)
  {
    OffsetInRange(start, n, n);
  }

  /** The address after `start + i` is `start + i + 1`, both in 8 bits. */
  lemma OffsetNext(start: Address, i: nat)
    ensures Offset(Offset(start, i), 1) == Offset(start, i + 1)
  {
  }

  /** `data` written into consecutive addresses from `start` on. */
  function Store(m: Memory, start: Address, data: seq<bv8>): Memory
    requires |data| <= 256
  {
    seq(256, a requires 0 <= a < 256 => if InRange(a, start, |data|) then data[(a - start) % 256] else m[a])
  }

  /** After a store, the addresses from `start` on hold `data` and every
      other address keeps its byte. */
  lemma StoreAt(m: Memory, start: Address, data: seq<bv8>, i: nat, a: Address)
    requires |data| <= 256 && i < |data|
    ensures Store(m, start, data)[Offset(start, i)] == data[i]
    ensures !InRange(a, start, |data|) ==> Store(m, start, data)[a] == m[a]
  {
    OffsetInRange(start, i, |data|);
  }

  /** Storing nothing leaves the memory as it was. */
  lemma StoreNothing(m: Memory, start: Address)
    ensures Store(m, start, []) == m
  {
  }

  /** One more byte stored is one more byte put at the next address: a
      run of `i2c_write` calls after one word address stores the run. */
  lemma StoreStep(m: Memory, start: Address, data: seq<bv8>, v: bv8)
    requires |data| < 256
    ensures Store(m, start, data + [v]) == Store(m, start, data)[Offset(start, |data|) := v]
  {
    var longer := Store(m, start, data + [v]);
    var written := Store(m, start, data)[Offset(start, |data|) := v];
    forall a | 0 <= a < 256
      ensures longer[a] == written[a]
    {
      InRangeStep(a, start, |data|);
      OffsetInRange(start, |data|, |data|);
    }
  }

  /** `n` copies of `v` from `start` on. */
  function Fill(m: Memory, start: Address, n: nat, v: bv8): Memory
    requires n <= 256
  {
    Store(m, start, seq(n, _ => v))
  }

  /** After a fill, the range holds `v` and every other address keeps its
      byte. */
  lemma FillAt(m: Memory, start: Address, n: nat, v: bv8, a: Address)
    requires n <= 256
    ensures Fill(m, start, n, v)[a] == if InRange(a, start, n) then v else m[a]
  {
  }

  /** One more byte filled is one more single-byte write. */
  lemma FillStep(m: Memory, start: Address, n: nat, v: bv8)
    requires n < 256
    ensures Fill(m, start, n + 1, v) == Fill(m, start, n, v)[Offset(start, n) := v]
  {
    var longer := Fill(m, start, n + 1, v);
    var written := Fill(m, start, n, v)[Offset(start, n) := v];
    forall a | 0 <= a < 256
      ensures longer[a] == written[a]
    {
      InRangeStep(a, start, n);
      FillAt(m, start, n + 1, v, a);
      FillAt(m, start, n, v, a);
    }
  }

  /** The `n` bytes a sequential read from `start` returns. */
  function Fetch(m: Memory, start: Address, n: nat): (bytes: seq<bv8>)
    ensures |bytes| == n
  {
    seq(n, i requires 0 <= i < n => m[Offset(start, i)])
  }

  /** The firmware's `readByte |= ...` over `bytes`, starting from 0. */
  function OrFold(bytes: seq<bv8>): bv8
  {
    if bytes == [] then 0 else OrFold(bytes[..|bytes| - 1]) | bytes[|bytes| - 1]
  }

  /** The firmware's `readByte &= ...` over `bytes`, starting from 0xFF. */
  function AndFold(bytes: seq<bv8>): bv8
  {
    if bytes == [] then 0xFF else AndFold(bytes[..|bytes| - 1]) & bytes[|bytes| - 1]
  }

  /** The OR of a run of bytes is 0 exactly when every byte is 0. */
  lemma {:induction false} OrFoldZero(bytes: seq<bv8>)
    ensures OrFold(bytes) == 0 <==> forall i :: 0 <= i < |bytes| ==> bytes[i] == 0
    decreases |bytes|
  {
    if bytes != [] {
      var n := |bytes| - 1;
      OrFoldZero(bytes[..n]);
      assert forall i :: 0 <= i < n ==> bytes[..n][i] == bytes[i];
    }
  }

  /** The AND of a run of bytes is 0xFF exactly when every byte is 0xFF. */
  lemma {:induction false} AndFoldOnes(bytes: seq<bv8>)
    ensures AndFold(bytes) == 0xFF <==> forall i :: 0 <= i < |bytes| ==> bytes[i] == 0xFF
    decreases |bytes|
  {
    if bytes != [] {
      var n := |bytes| - 1;
      AndFoldOnes(bytes[..n]);
      assert forall i :: 0 <= i < n ==> bytes[..n][i] == bytes[i];
    }
  }

  /** Reading one more byte ORs it into the fold. */
  lemma OrFoldStep(m: Memory, start: Address, n: nat)
    ensures OrFold(Fetch(m, start, n + 1)) == OrFold(Fetch(m, start, n)) | m[Offset(start, n)]
  {
    assert Fetch(m, start, n + 1)[..n] == Fetch(m, start, n);
  }

  /** Reading one more byte ANDs it into the fold. */
  lemma AndFoldStep(m: Memory, start: Address, n: nat)
    ensures AndFold(Fetch(m, start, n + 1)) == AndFold(Fetch(m, start, n)) & m[Offset(start, n)]
  {
    assert Fetch(m, start, n + 1)[..n] == Fetch(m, start, n);
  }

  /** Every byte of a read of the `n` bytes from `start` is `v` exactly
      when every address of the range holds `v`. */
  lemma FetchAll(m: Memory, start: Address, n: nat, v: bv8)
    requires n <= 256
    ensures (forall i :: 0 <= i < n ==> Fetch(m, start, n)[i] == v)
            <==> (forall a: Address :: InRange(a, start, n) ==> m[a] == v)
  {
    var bytes := Fetch(m, start, n);
    if forall i :: 0 <= i < n ==> bytes[i] == v {
      forall a: Address | InRange(a, start, n)
        ensures m[a] == v
      {
        var i := (a - start) % 256;
        OffsetInRange(start, i, n);
        assert bytes[i] == m[Offset(start, i)];
      }
    } else {
      var i :| 0 <= i < n && bytes[i] != v;
      OffsetInRange(start, i, n);
      assert InRange(Offset(start, i), start, n) && m[Offset(start, i)] != v;
    }
  }

  /** A read of the `n` bytes from `start` ORs to 0 exactly when every
      address of the range holds 0. */
  lemma FetchZeros(m: Memory, start: Address, n: nat)
    requires n <= 256
    ensures OrFold(Fetch(m, start, n)) == 0 <==> forall a: Address :: InRange(a, start, n) ==> m[a] == 0
  {
    OrFoldZero(Fetch(m, start, n));
    FetchAll(m, start, n, 0);
  }

  /** A read of the `n` bytes from `start` ANDs to 0xFF exactly when every
      address of the range holds 0xFF. */
  lemma FetchOnes(m: Memory, start: Address, n: nat)
    requires n <= 256
    ensures AndFold(Fetch(m, start, n)) == 0xFF <==> forall a: Address :: InRange(a, start, n) ==> m[a] == 0xFF
  {
    AndFoldOnes(Fetch(m, start, n));
    FetchAll(m, start, n, 0xFF);
  }

  /** How many bytes `checkZeros`/`checkOnes` read for a count of
      `howMany`: the loop reads `howMany - 1` in int arithmetic, then one
      more, so a count of 0 still reads one byte. */
  function ReadCount(howMany: nat): (n: nat)
    ensures n >= 1 && (howMany > 0 ==> n == howMany)
  {
    if howMany == 0 then 1 else howMany
  }

  /** The i2c bus with one cartridge chip on it, as the i2c master library
      presents it. */
  class Bus {
    /** Device addresses (write mode) the connected chip acknowledges;
        empty when no chip is connected. */
    const present: set<int>
    /** The chip's memory. */
    var memory: Memory
    /** The chip's address pointer. */
    var pointer: Address

    constructor (present: set<int>, memory: Memory)
      ensures this.present == present && this.memory == memory && pointer == 0
    {
      this.present := present;
      this.memory := memory;
      pointer := 0;
    }

    /** `i2c_start`: 0 when a chip acknowledges `dev`, 1 otherwise. */
    method Start(dev: int) returns (status: int)
      ensures status == 0 <==> dev in present
      ensures status == 0 || status == 1
    {
      if dev in present {
        status := 0;
      } else {
        status := 1;
      }
    }

    /** A write-mode start to `dev` followed by a word address: the
        pointer moves to `at`. */
    method SetAddress(dev: int, at: Address)
      requires dev in present
      modifies this`pointer
      ensures pointer == at
    {
      pointer := at;
    }

    /** `i2c_write` of a data byte: stored at the pointer, which moves on. */
    method Put(v: bv8)
      modifies this`memory, this`pointer
      ensures memory == old(memory)[old(pointer) := v]
      ensures pointer == Offset(old(pointer), 1)
    {
      memory := memory[pointer := v];
      pointer := Offset(pointer, 1);
    }

    /** `i2c_readAck` or `i2c_readNak`: the byte at the pointer, which
        moves on. */
    method Get() returns (v: bv8)
      modifies this`pointer
      ensures v == memory[old(pointer)]
      ensures pointer == Offset(old(pointer), 1)
    {
      v := memory[pointer];
      pointer := Offset(pointer, 1);
    }
  }
}
