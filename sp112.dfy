/** The RICOH SP112 toner chip resetter: on a button press it checks that
    the chip at bus address 0xA6 answers and carries the standard cartridge
    type, rewrites the type, toner levels and EDP code, zeroes the rest of
    the counters and reads the written bytes back. */
module Sp112 {
  import opened Eeprom

  /** Bus address of the cartridge chip. */
  const ChipAddr := 0xA6

  const ChipDataSize := 11
  const CartridgeTypeSize := 2

  /** The type bytes of a standard cartridge. */
  const CartridgeType: seq<bv8> := [32, 0]

  /** What the read-back must find: the type 3, 1, 1, the initial toner
      level 100, the EDP code "407166" in ASCII and the toner level 100. */
  const DataToCheck: seq<bv8> := [3, 1, 1, 100, 52, 48, 55, 49, 54, 54, 100]

  /** The blink count handed to the LED: 1 for a reset chip, 2 for a wrong
      cartridge type, 3 for any other error; no report when the button was
      not pressed. */
  datatype Report = NoCycle | Blink(count: nat)

  /** The cartridge type check: both bytes equal the standard type. */
  predicate TypeAccepted(t: seq<bv8>)
    requires |t| == CartridgeTypeSize
  {
    forall i :: 0 <= i < CartridgeTypeSize ==> t[i] == CartridgeType[i]
  }

  /** Accepted type bytes are exactly 32, 0. */
  lemma TypeAcceptedBytes(t: seq<bv8>)
    requires |t| == CartridgeTypeSize
    ensures TypeAccepted(t) <==> t == [32, 0]
  {
  }

  // ---------------------------------------------------------------------
  // The reset script

  /** The standard cartridge type bytes and where the script writes them. */
  const StandardType: seq<bv8> := [3, 1, 1]
  const StandardTypeAt: Address := 0x04

  /** The EDP code "407166" in ASCII and where the script writes it. */
  const EdpCode: seq<bv8> := [52, 48, 55, 49, 54, 54]
  const EdpCodeAt: Address := 0x0A

  /** The size of a page of the chip's EEPROM; a multi-byte write wraps
      within its page. */
  const PageSize := 8

  /** The memory after the script's writes, in program order. */
  function ResetWrites(m: Memory): Memory
  {
    var m1 := Store(m, StandardTypeAt, StandardType);
    var m2 := Fill(m1, 0x07, 1, 0x00);
    var m3 := m2[0x08 := 100];
    var m4 := Fill(m3, 0x09, 1, 0x00);
    var m5 := Store(m4, EdpCodeAt, EdpCode);
    var m6 := Fill(m5, 0x18, 20, 0x00);
    var m7 := m6[0x2C := 100];
    Fill(m7, 0x2D, 83, 0x00)
  }

  /** Addresses the script zeroes: 0x07, 0x09, 0x18-0x2B and 0x2D-0x7F. */
  predicate ResetZero(a: Address)
  {
    a == 0x07 || a == 0x09 || 0x18 <= a <= 0x2B || 0x2D <= a <= 0x7F
  }

  /** The script writes 3, 1, 1 at 0x04-0x06, 100 at 0x08 and 0x2C, the
      EDP code at 0x0A-0x0F and 0 at its zero addresses, and leaves every
      other address alone. */
  lemma ResetWritesAt(m: Memory, a: Address)
    ensures ResetWrites(m)[a] ==
      if 0x04 <= a <= 0x06 then StandardType[a - 0x04]
      else if a == 0x08 || a == 0x2C then 100
      else if 0x0A <= a <= 0x0F then EdpCode[a - 0x0A]
      else if ResetZero(a) then 0
      else m[a]
  {
    var m1 := Store(m, StandardTypeAt, StandardType);
    var m2 := Fill(m1, 0x07, 1, 0x00);
    var m3 := m2[0x08 := 100];
    var m4 := Fill(m3, 0x09, 1, 0x00);
    var m5 := Store(m4, EdpCodeAt, EdpCode);
    var m6 := Fill(m5, 0x18, 20, 0x00);
    var m7 := m6[0x2C := 100];
    InRangeInterval(a, 0x04, 3);
    FillAt(m1, 0x07, 1, 0x00, a);
    InRangeInterval(a, 0x07, 1);
    FillAt(m3, 0x09, 1, 0x00, a);
    InRangeInterval(a, 0x09, 1);
    InRangeInterval(a, 0x0A, 6);
    FillAt(m5, 0x18, 20, 0x00, a);
    InRangeInterval(a, 0x18, 20);
    FillAt(m7, 0x2D, 83, 0x00, a);
    InRangeInterval(a, 0x2D, 83);
  }

  /** The two multi-byte writes stay inside one 8-byte EEPROM page, so a
      chip that wraps page writes stores them where a sequential write
      would. */
  lemma PageWritesFit()
    ensures StandardTypeAt / PageSize == (StandardTypeAt + |StandardType| - 1) / PageSize
    ensures EdpCodeAt / PageSize == (EdpCodeAt + |EdpCode| - 1) / PageSize
  {
  }

  /** The 11 bytes the read-back collects: 0x04-0x06, 0x08, 0x0A-0x0F and
      0x2C, in that order. */
  function ReadBack(m: Memory): (data: seq<bv8>)
    ensures |data| == ChipDataSize
  {
    Fetch(m, 0x04, 3) + Fetch(m, 0x08, 1) + Fetch(m, 0x0A, 6) + Fetch(m, 0x2C, 1)
  }

  /** The read-back byte by byte. */
  lemma ReadBackAt(m: Memory)
    ensures ReadBack(m) == [m[0x04], m[0x05], m[0x06], m[0x08], m[0x0A], m[0x0B], m[0x0C], m[0x0D],
                            m[0x0E], m[0x0F], m[0x2C]]
  {
    assert Fetch(m, 0x04, 3) == [m[0x04], m[0x05], m[0x06]];
    assert Fetch(m, 0x08, 1) == [m[0x08]];
    assert Fetch(m, 0x0A, 6) == [m[0x0A], m[0x0B], m[0x0C], m[0x0D], m[0x0E], m[0x0F]];
    assert Fetch(m, 0x2C, 1) == [m[0x2C]];
  }

  /** `zerosCheck` of the script: the four zero checks OR-ed into 0. */
  function ZerosCheck(m: Memory): bv8
  {
    0 | OrFold(Fetch(m, 0x07, 1)) | OrFold(Fetch(m, 0x09, 1)) | OrFold(Fetch(m, 0x18, 20))
      | OrFold(Fetch(m, 0x2D, 83))
  }

  /** The zero checks pass exactly when every zero address holds 0. */
  lemma ZerosMeaning(m: Memory)
    ensures ZerosCheck(m) == 0 <==> forall a: Address :: ResetZero(a) ==> m[a] == 0
  {
    FetchZeros(m, 0x07, 1);
    FetchZeros(m, 0x09, 1);
    FetchZeros(m, 0x18, 20);
    FetchZeros(m, 0x2D, 83);
    forall a: Address
      ensures ResetZero(a) <==> (|| InRange(a, 0x07, 1) || InRange(a, 0x09, 1) || InRange(a, 0x18, 20)
                                 || InRange(a, 0x2D, 83))
    {
      InRangeInterval(a, 0x07, 1);
      InRangeInterval(a, 0x09, 1);
      InRangeInterval(a, 0x18, 20);
      InRangeInterval(a, 0x2D, 83);
    }
  }

  /** The bytes the script writes at the read-back addresses are exactly
      the expected data. */
  lemma ScriptReadsBack(m: Memory)
    ensures ReadBack(ResetWrites(m)) == DataToCheck
  {
    var w := ResetWrites(m);
    ReadBackAt(w);
    ResetWritesAt(m, 0x04);
    ResetWritesAt(m, 0x05);
    ResetWritesAt(m, 0x06);
    ResetWritesAt(m, 0x08);
    ResetWritesAt(m, 0x0A);
    ResetWritesAt(m, 0x0B);
    ResetWritesAt(m, 0x0C);
    ResetWritesAt(m, 0x0D);
    ResetWritesAt(m, 0x0E);
    ResetWritesAt(m, 0x0F);
    ResetWritesAt(m, 0x2C);
  }

  /** On a memory where writes persist, every zero check passes. */
  lemma ScriptZeroes(m: Memory)
    ensures ZerosCheck(ResetWrites(m)) == 0
  {
    var w := ResetWrites(m);
    forall a: Address | ResetZero(a)
      ensures w[a] == 0
    {
      ResetWritesAt(m, a);
    }
    ZerosMeaning(w);
  }

  // ---------------------------------------------------------------------
  // One button press

  /** What the firmware keeps between button presses, and the chip. */
  datatype State = State(memory: Memory, pointer: Address, readData: seq<bv8>,
                         readCartridgeType: seq<bv8>, cartridgeTypeOk: bool, resettedOk: bool)

  /** The report and the new state of one button press on a bus where the
      chip acknowledges `present`. */
  function Cycle(present: set<int>, s: State): (Report, State)
  {
    if ChipAddr !in present then (Blink(3), s)
    else
      var t := Fetch(s.memory, 0, CartridgeTypeSize);
      var typed := s.(pointer := CartridgeTypeSize, readCartridgeType := t, cartridgeTypeOk := TypeAccepted(t));
      if !TypeAccepted(t) then (Blink(2), typed)
      else
        var m := ResetWrites(s.memory);
        var data := ReadBack(m);
        var verified := data == DataToCheck && ZerosCheck(m) == 0;
        (if verified then Blink(1) else Blink(3),
         typed.(memory := m, pointer := 0x80, readData := data, resettedOk := data == DataToCheck))
  }

  /** How a press ends: 3 blinks with nothing read or written when the chip
      does not answer; 2 blinks and nothing written on a wrong type;
      otherwise the reset script. */
  lemma CycleOutcomes(present: set<int>, s: State)
    ensures var (report, after) := Cycle(present, s);
      && (ChipAddr !in present ==> report == Blink(3) && after == s)
      && (ChipAddr in present && !TypeAccepted(Fetch(s.memory, 0, CartridgeTypeSize)) ==>
            report == Blink(2) && after.memory == s.memory)
      && (ChipAddr in present && TypeAccepted(Fetch(s.memory, 0, CartridgeTypeSize)) ==>
            after.memory == ResetWrites(s.memory))
  {
  }

  /** On a chip whose memory keeps what is written, a press on an answering
      chip of the standard type always ends with 1 blink. */
  lemma ScriptVerifies(present: set<int>, s: State)
    requires ChipAddr in present && TypeAccepted(Fetch(s.memory, 0, CartridgeTypeSize))
    ensures Cycle(present, s).0 == Blink(1)
    ensures Cycle(present, s).1.resettedOk
  {
    ScriptReadsBack(s.memory);
    ScriptZeroes(s.memory);
  }

  // ---------------------------------------------------------------------
  // The firmware

  /** The resetter's globals and the bus it drives. */
  class Resetter {
    const bus: Bus
    const readData: array<bv8>
    const readCartridgeType: array<bv8>
    var cartridgeTypeOk: bool
    var resettedOk: bool
    var startResetting: bool

    predicate Valid()
    {
      readData.Length == ChipDataSize && readCartridgeType.Length == CartridgeTypeSize
      && readData != readCartridgeType
    }

    /** The globals and the chip, as one value. */
    function Snapshot(): State
      reads this, bus, readData, readCartridgeType
    {
      State(bus.memory, bus.pointer, readData[..], readCartridgeType[..], cartridgeTypeOk, resettedOk)
    }

    constructor (bus: Bus)
      ensures Valid() && this.bus == bus
      ensures readData[..] == seq(ChipDataSize, _ => 0) && readCartridgeType[..] == [0, 0]
      ensures !cartridgeTypeOk && !resettedOk && !startResetting
    {
      this.bus := bus;
      readData := new bv8[ChipDataSize](_ => 0);
      readCartridgeType := new bv8[CartridgeTypeSize](_ => 0);
      cartridgeTypeOk := false;
      resettedOk := false;
      startResetting := false;
    }

    /** The button interrupt requests a cycle. */
    method ButtonInterrupt()
      modifies this`startResetting
      ensures startResetting
    {
      startResetting := true;
    }

    /** The two type bytes, read from address 0 over the start that found
        the chip. */
    method ReadCartridgeType()
      requires Valid() && ChipAddr in bus.present
      modifies bus`pointer, readCartridgeType
      ensures readCartridgeType[..] == Fetch(bus.memory, 0, CartridgeTypeSize)
      ensures bus.pointer == CartridgeTypeSize
    {
      bus.SetAddress(ChipAddr, 0);
      var b0 := bus.Get();
      readCartridgeType[0] := b0;
      var b1 := bus.Get();
      readCartridgeType[1] := b1;
      assert readCartridgeType[..] == Fetch(bus.memory, 0, CartridgeTypeSize);
    }

    /** The type check loop: false at the first byte that differs from the
        standard type, true when both match. */
    method CheckCartridgeType()
      requires Valid()
      modifies this`cartridgeTypeOk
      ensures cartridgeTypeOk == TypeAccepted(readCartridgeType[..])
    {
      var i := 0;
      while i < CartridgeTypeSize
        invariant 0 <= i <= CartridgeTypeSize
        invariant forall j :: 0 <= j < i ==> readCartridgeType[j] == CartridgeType[j]
        invariant i > 0 ==> cartridgeTypeOk
      {
        if readCartridgeType[i] != CartridgeType[i] {
          cartridgeTypeOk := false;
          return;
        }
        cartridgeTypeOk := true;
        i := i + 1;
      }
    }

    /** `writeZeros`: `howMany` single-byte writes of 0 at `whereStart + i`
        in 8-bit arithmetic. */
    method WriteZeros(howMany: nat, whereStart: Address)
      requires ChipAddr in bus.present && howMany < 256
      modifies bus`memory, bus`pointer
      ensures bus.memory == Fill(old(bus.memory), whereStart, howMany, 0x00)
      ensures bus.pointer == if howMany == 0 then old(bus.pointer) else Offset(whereStart, howMany)
    {
      var i := 0;
      while i < howMany
        invariant 0 <= i <= howMany
        invariant bus.memory == Fill(old(bus.memory), whereStart, i, 0x00)
        invariant bus.pointer == if i == 0 then old(bus.pointer) else Offset(whereStart, i)
      {
        FillStep(old(bus.memory), whereStart, i, 0x00);
        OffsetNext(whereStart, i);
        bus.SetAddress(ChipAddr, Offset(whereStart, i));
        bus.Put(0x00);
        i := i + 1;
      }
    }

    /** `checkZeros`: the OR of a sequential read from `whereStart`,
        `howMany - 1` bytes acknowledged and one more. */
    method CheckZeros(howMany: nat, whereStart: Address) returns (readByte: bv8)
      requires ChipAddr in bus.present && howMany < 256
      modifies bus`pointer
      ensures readByte == OrFold(Fetch(bus.memory, whereStart, ReadCount(howMany)))
      ensures bus.pointer == Offset(whereStart, ReadCount(howMany))
    {
      readByte := 0;
      bus.SetAddress(ChipAddr, whereStart);
      var i := 0;
      assert Fetch(bus.memory, whereStart, 0) == [];
      while i < howMany - 1
        invariant 0 <= i <= ReadCount(howMany) - 1
        invariant bus.pointer == Offset(whereStart, i)
        invariant readByte == OrFold(Fetch(bus.memory, whereStart, i))
      {
        OrFoldStep(bus.memory, whereStart, i);
        OffsetNext(whereStart, i);
        var b := bus.Get();
        readByte := readByte | b;
        i := i + 1;
      }
      assert i == ReadCount(howMany) - 1;
      OrFoldStep(bus.memory, whereStart, i);
      OffsetNext(whereStart, i);
      var b := bus.Get();
      readByte := readByte | b;
    }

    /** The standard type 3, 1, 1 written as one transaction from 0x04. */
    method WriteStandardType()
      requires ChipAddr in bus.present
      modifies bus`memory, bus`pointer
      ensures bus.memory == Store(old(bus.memory), StandardTypeAt, StandardType)
      ensures bus.pointer == 0x07
    {
      ghost var m := bus.memory;
      bus.SetAddress(ChipAddr, StandardTypeAt);
      StoreNothing(m, 0x04);
      StoreStep(m, 0x04, [], 3);
      bus.Put(3);
      StoreStep(m, 0x04, [3], 1);
      bus.Put(1);
      StoreStep(m, 0x04, [3, 1], 1);
      bus.Put(1);
      assert [3, 1] + [1 as bv8] == StandardType;
    }

    /** The EDP code written as one transaction from 0x0A. */
    method WriteEdpCode()
      requires ChipAddr in bus.present
      modifies bus`memory, bus`pointer
      ensures bus.memory == Store(old(bus.memory), EdpCodeAt, EdpCode)
      ensures bus.pointer == 0x10
    {
      ghost var m := bus.memory;
      bus.SetAddress(ChipAddr, EdpCodeAt);
      StoreNothing(m, 0x0A);
      StoreStep(m, 0x0A, [], 52);
      bus.Put(52);
      StoreStep(m, 0x0A, [52], 48);
      bus.Put(48);
      StoreStep(m, 0x0A, [52, 48], 55);
      bus.Put(55);
      StoreStep(m, 0x0A, [52, 48, 55], 49);
      bus.Put(49);
      StoreStep(m, 0x0A, [52, 48, 55, 49], 54);
      bus.Put(54);
      StoreStep(m, 0x0A, [52, 48, 55, 49, 54], 54);
      bus.Put(54);
      assert [52, 48, 55, 49, 54] + [54 as bv8] == EdpCode;
    }

    /** The script's writes: the type bytes, the initial toner level, the
        EDP code and the toner level, with zero runs between them. */
    method WriteScript()
      requires ChipAddr in bus.present
      modifies bus`memory, bus`pointer
      ensures bus.memory == ResetWrites(old(bus.memory))
      ensures bus.pointer == 0x80
    {
      WriteStandardType();
      WriteZeros(1, 0x07);
      bus.SetAddress(ChipAddr, 0x08);
      bus.Put(100);
      WriteZeros(1, 0x09);
      WriteEdpCode();
      WriteZeros(20, 0x18);
      bus.SetAddress(ChipAddr, 0x2C);
      bus.Put(100);
      WriteZeros(83, 0x2D);
    }

    /** The read-back of the type bytes into `readData[0..3]`. */
    method ReadStandardType()
      requires Valid() && ChipAddr in bus.present
      modifies bus`pointer, readData
      ensures readData[0] == bus.memory[0x04] && readData[1] == bus.memory[0x05]
      ensures readData[2] == bus.memory[0x06]
      ensures readData[3..] == old(readData[3..])
      ensures bus.pointer == 0x07
    {
      bus.SetAddress(ChipAddr, 0x04);
      var b := bus.Get();
      readData[0] := b;
      b := bus.Get();
      readData[1] := b;
      b := bus.Get();
      readData[2] := b;
    }

    /** The read-back of the EDP code into `readData[4..10]`. */
    method ReadEdpCode()
      requires Valid() && ChipAddr in bus.present
      modifies bus`pointer, readData
      ensures readData[4] == bus.memory[0x0A] && readData[5] == bus.memory[0x0B]
      ensures readData[6] == bus.memory[0x0C] && readData[7] == bus.memory[0x0D]
      ensures readData[8] == bus.memory[0x0E] && readData[9] == bus.memory[0x0F]
      ensures readData[..4] == old(readData[..4]) && readData[10] == old(readData[10])
      ensures bus.pointer == 0x10
    {
      bus.SetAddress(ChipAddr, 0x0A);
      var b := bus.Get();
      readData[4] := b;
      assert bus.pointer == 0x0B;
      b := bus.Get();
      readData[5] := b;
      assert bus.pointer == 0x0C;
      b := bus.Get();
      readData[6] := b;
      assert bus.pointer == 0x0D;
      b := bus.Get();
      readData[7] := b;
      assert bus.pointer == 0x0E;
      b := bus.Get();
      readData[8] := b;
      assert bus.pointer == 0x0F;
      b := bus.Get();
      readData[9] := b;
    }

    /** The one-byte read-back of address `at` into `readData[k]`. */
    method ReadOne(at: Address, k: nat)
      requires Valid() && ChipAddr in bus.present && k < ChipDataSize
      modifies bus`pointer, readData
      ensures readData[..] == old(readData[..])[k := bus.memory[at]]
      ensures bus.pointer == Offset(at, 1)
    {
      bus.SetAddress(ChipAddr, at);
      var b := bus.Get();
      readData[k] := b;
    }

    /** The read-back of the 11 checked bytes into `readData`. */
    method ReadBackData()
      requires Valid() && ChipAddr in bus.present
      modifies bus`pointer, readData
      ensures readData[..] == ReadBack(bus.memory)
      ensures bus.pointer == 0x2D
    {
      ReadStandardType();
      ReadOne(0x08, 3);
      ReadEdpCode();
      ReadOne(0x2C, 10);
      ReadBackAt(bus.memory);
      assert readData[..] == [readData[0], readData[1], readData[2], readData[3], readData[4], readData[5],
                              readData[6], readData[7], readData[8], readData[9], readData[10]];
    }

    /** The four zero checks OR-ed into `zerosCheck`. */
    method ZeroChecks() returns (zerosCheck: bv8)
      requires ChipAddr in bus.present
      modifies bus`pointer
      ensures zerosCheck == ZerosCheck(bus.memory)
      ensures bus.pointer == 0x80
    {
      zerosCheck := 0;
      var z := CheckZeros(1, 0x07);
      zerosCheck := zerosCheck | z;
      z := CheckZeros(1, 0x09);
      zerosCheck := zerosCheck | z;
      z := CheckZeros(20, 0x18);
      zerosCheck := zerosCheck | z;
      z := CheckZeros(83, 0x2D);
      zerosCheck := zerosCheck | z;
    }

    /** The reset check loop: false at the first byte read back that
        differs from the expected data, true when all 11 match. */
    method CheckReset()
      requires Valid()
      modifies this`resettedOk
      ensures resettedOk == (readData[..] == DataToCheck)
    {
      var i := 0;
      while i < ChipDataSize
        invariant 0 <= i <= ChipDataSize
        invariant forall j :: 0 <= j < i ==> readData[j] == DataToCheck[j]
        invariant i > 0 ==> resettedOk
      {
        if readData[i] != DataToCheck[i] {
          resettedOk := false;
          return;
        }
        resettedOk := true;
        i := i + 1;
      }
      assert readData[..] == DataToCheck;
    }

    /** The script for a chip of the standard type: writes, read-back,
        zero checks, verdict. */
    method ResetChip() returns (report: Report)
      requires Valid() && ChipAddr in bus.present
      modifies bus`memory, bus`pointer, readData, this`resettedOk
      ensures bus.memory == ResetWrites(old(bus.memory))
      ensures readData[..] == ReadBack(bus.memory)
      ensures resettedOk == (ReadBack(bus.memory) == DataToCheck)
      ensures report == if ReadBack(bus.memory) == DataToCheck && ZerosCheck(bus.memory) == 0 then Blink(1) else Blink(3)
      ensures bus.pointer == 0x80
    {
      WriteScript();
      ReadBackData();
      var zerosCheck := ZeroChecks();
      CheckReset();
      if resettedOk && zerosCheck == 0 {
        report := Blink(1);
      } else {
        report := Blink(3);
      }
    }

    /** One pass of the main loop: nothing unless the button was pressed;
        otherwise the press as `Cycle` describes it, and the request is
        cleared. */
    method RunCycle() returns (report: Report)
      requires Valid()
      modifies this, bus`memory, bus`pointer, readData, readCartridgeType
      ensures !old(startResetting) ==> report == NoCycle && Snapshot() == old(Snapshot())
      ensures old(startResetting) ==> (report, Snapshot()) == Cycle(bus.present, old(Snapshot()))
      ensures !startResetting
    {
      if !startResetting {
        report := NoCycle;
        return;
      }
      var isChipOk := bus.Start(ChipAddr);
      if isChipOk == 0 {
        ReadCartridgeType();
        CheckCartridgeType();
        if !cartridgeTypeOk {
          report := Blink(2);
        } else {
          report := ResetChip();
        }
      } else {
        report := Blink(3);
      }
      startResetting := false;
    }
  }
}
