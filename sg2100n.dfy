/** The RICOH SG2100N gel and waste-tank chip resetter: on a button press
    it finds the chip on the i2c bus, checks its type bytes, rewrites the
    ink level and counters of a gel chip (or zeroes a waste-tank chip) and
    reads the written bytes back. */
module Sg2100n {
  import opened Eeprom

  /** Bus addresses of the cyan, magenta, yellow and black gel chips and of
      the waste-tank chip, in the order they are searched. */
  const ChipsAddr: seq<int> := [0xA2, 0xA4, 0xA6, 0xA0, 0xA8]

  const ChipTypeSize := 2
  const ChipDataSize := 1

  /** The type bytes of a gel chip and of a waste-tank chip. */
  const GelType: seq<bv8> := [227, 18]
  const WasteType: seq<bv8> := [227, 1]

  /** The ink level a reset gel chip must read back. */
  const DataToCheck: seq<bv8> := [100]

  /** The argument pair handed to the LED reporter: mode 0 with error 1, 2
      or 3, or the number (1 to 5) of the chip reset; no report when the
      button was not pressed. */
  datatype Report = NoCycle | Blink(mode: nat, errorMode: nat)

  // ---------------------------------------------------------------------
  // Finding the chip

  /** The search from table position `k` on: position + 1 of the first
      address a chip acknowledges, or 0. */
  function FirstPresent(present: set<int>, k: nat): (r: nat)
    requires k <= 5
    ensures r <= 5
    decreases 5 - k
  {
    if k == 5 then 0
    else if ChipsAddr[k] in present then k + 1
    else FirstPresent(present, k + 1)
  }

  /** The search answers with the first acknowledged address: every earlier
      one is silent, and 0 means all five are. */
  lemma {:induction false} FirstPresentFirst(present: set<int>, k: nat)
    requires k <= 5
    ensures var r := FirstPresent(present, k);
      && (r == 0 || k < r)
      && (r > 0 ==> ChipsAddr[r - 1] in present)
      && forall j :: k <= j < (if r == 0 then 5 else r - 1) ==> ChipsAddr[j] !in present
    decreases 5 - k
  {
    if k < 5 && ChipsAddr[k] !in present {
      FirstPresentFirst(present, k + 1);
    }
  }

  // ---------------------------------------------------------------------
  // Chip type

  /** Each type byte matches the gel chip's or the waste-tank chip's byte
      at that position. */
  predicate TypeAccepted(t: seq<bv8>)
    requires |t| == ChipTypeSize
  {
    forall i :: 0 <= i < ChipTypeSize ==> t[i] == GelType[i] || t[i] == WasteType[i]
  }

  /** The accepted type bytes are exactly {227, 18} and {227, 1}. */
  lemma TypeAcceptedBytes(t: seq<bv8>)
    requires |t| == ChipTypeSize
    ensures TypeAccepted(t) <==> t == [227, 18] || t == [227, 1]
  {
    if TypeAccepted(t) {
      assert t[0] == 227 && (t[1] == 18 || t[1] == 1);
    }
  }

  // ---------------------------------------------------------------------
  // The gel chip script

  /** The memory after the gel script's writes, in program order. */
  function GelWrites(m: Memory): Memory
  {
    var m1 := Fill(m, 0x06, 1, 0x00);
    var m2 := Fill(m1, 0x07, 1, 0xFF);
    var m3 := m2[0x08 := 100];
    var m4 := Fill(m3, 0x09, 1, 0x00);
    var m5 := Fill(m4, 0x10, 6, 0xFF);
    var m6 := Fill(m5, 0x18, 8, 0xFF);
    var m7 := Fill(m6, 0x28, 1, 0xFF);
    var m8 := Fill(m7, 0x29, 1, 0x00);
    var m9 := Fill(m8, 0x2A, 22, 0xFF);
    var m10 := Fill(m9, 0x43, 11, 0xFF);
    Fill(m10, 0x4F, 49, 0xFF)
  }

  /** Addresses the gel script zeroes. */
  predicate GelZero(a: Address)
  {
    a == 0x06 || a == 0x09 || a == 0x29
  }

  /** Addresses the gel script sets to 0xFF. */
  predicate GelOne(a: Address)
  {
    || a == 0x07 || 0x10 <= a <= 0x15 || 0x18 <= a <= 0x1F || a == 0x28
    || 0x2A <= a <= 0x3F || 0x43 <= a <= 0x4D || 0x4F <= a <= 0x7F
  }

  /** The gel script zeroes its zero addresses, sets 0x08 to 100 and its
      ones addresses to 0xFF, and leaves every other address alone. */
  lemma GelWritesAt(m: Memory, a: Address)
    ensures GelWrites(m)[a] == if GelZero(a) then 0 else if a == 0x08 then 100 else if GelOne(a) then 0xFF else m[a]
  {
    var m1 := Fill(m, 0x06, 1, 0x00);
    var m2 := Fill(m1, 0x07, 1, 0xFF);
    var m3 := m2[0x08 := 100];
    var m4 := Fill(m3, 0x09, 1, 0x00);
    var m5 := Fill(m4, 0x10, 6, 0xFF);
    var m6 := Fill(m5, 0x18, 8, 0xFF);
    var m7 := Fill(m6, 0x28, 1, 0xFF);
    var m8 := Fill(m7, 0x29, 1, 0x00);
    var m9 := Fill(m8, 0x2A, 22, 0xFF);
    var m10 := Fill(m9, 0x43, 11, 0xFF);
    FillAt(m, 0x06, 1, 0x00, a);
    InRangeInterval(a, 0x06, 1);
    FillAt(m1, 0x07, 1, 0xFF, a);
    InRangeInterval(a, 0x07, 1);
    FillAt(m3, 0x09, 1, 0x00, a);
    InRangeInterval(a, 0x09, 1);
    FillAt(m4, 0x10, 6, 0xFF, a);
    InRangeInterval(a, 0x10, 6);
    FillAt(m5, 0x18, 8, 0xFF, a);
    InRangeInterval(a, 0x18, 8);
    FillAt(m6, 0x28, 1, 0xFF, a);
    InRangeInterval(a, 0x28, 1);
    FillAt(m7, 0x29, 1, 0x00, a);
    InRangeInterval(a, 0x29, 1);
    FillAt(m8, 0x2A, 22, 0xFF, a);
    InRangeInterval(a, 0x2A, 22);
    FillAt(m9, 0x43, 11, 0xFF, a);
    InRangeInterval(a, 0x43, 11);
    FillAt(m10, 0x4F, 49, 0xFF, a);
    InRangeInterval(a, 0x4F, 49);
  }

  /** `zerosCheck` of the gel script: the three zero checks OR-ed into 0. */
  function GelZerosCheck(m: Memory): bv8
  {
    0 | OrFold(Fetch(m, 0x06, 1)) | OrFold(Fetch(m, 0x09, 1)) | OrFold(Fetch(m, 0x29, 1))
  }

  /** `onesCheck` of the gel script: the seven ones checks AND-ed into 0xFF. */
  function GelOnesCheck(m: Memory): bv8
  {
    0xFF & AndFold(Fetch(m, 0x07, 1)) & AndFold(Fetch(m, 0x10, 6)) & AndFold(Fetch(m, 0x18, 8))
      & AndFold(Fetch(m, 0x28, 1)) & AndFold(Fetch(m, 0x2A, 22)) & AndFold(Fetch(m, 0x43, 11))
      & AndFold(Fetch(m, 0x4F, 49))
  }

  /** The gel script's verdict on the memory it reads back: the ink level
      reads 100, the zero checks OR to 0 and the ones checks AND to 0xFF. */
  predicate GelVerified(m: Memory)
  {
    [m[0x08]] == DataToCheck && GelZerosCheck(m) == 0 && GelOnesCheck(m) == 0xFF
  }

  /** The zero checks pass exactly when every zero address holds 0. */
  lemma GelZerosMeaning(m: Memory)
    ensures GelZerosCheck(m) == 0 <==> forall a: Address :: GelZero(a) ==> m[a] == 0
  {
    FetchZeros(m, 0x06, 1);
    FetchZeros(m, 0x09, 1);
    FetchZeros(m, 0x29, 1);
    forall a: Address
      ensures (GelZero(a) <==> InRange(a, 0x06, 1) || InRange(a, 0x09, 1) || InRange(a, 0x29, 1))
    {
      InRangeInterval(a, 0x06, 1);
      InRangeInterval(a, 0x09, 1);
      InRangeInterval(a, 0x29, 1);
    }
  }

  /** The ones checks pass exactly when every ones address holds 0xFF. */
  lemma GelOnesMeaning(m: Memory)
    ensures GelOnesCheck(m) == 0xFF <==> forall a: Address :: GelOne(a) ==> m[a] == 0xFF
  {
    FetchOnes(m, 0x07, 1);
    FetchOnes(m, 0x10, 6);
    FetchOnes(m, 0x18, 8);
    FetchOnes(m, 0x28, 1);
    FetchOnes(m, 0x2A, 22);
    FetchOnes(m, 0x43, 11);
    FetchOnes(m, 0x4F, 49);
    forall a: Address
      ensures GelOne(a) <==> (|| InRange(a, 0x07, 1) || InRange(a, 0x10, 6) || InRange(a, 0x18, 8)
                               || InRange(a, 0x28, 1) || InRange(a, 0x2A, 22) || InRange(a, 0x43, 11)
                               || InRange(a, 0x4F, 49))
    {
      InRangeInterval(a, 0x07, 1);
      InRangeInterval(a, 0x10, 6);
      InRangeInterval(a, 0x18, 8);
      InRangeInterval(a, 0x28, 1);
      InRangeInterval(a, 0x2A, 22);
      InRangeInterval(a, 0x43, 11);
      InRangeInterval(a, 0x4F, 49);
    }
  }

  /** On a memory where writes persist, the gel script's read-back always
      passes. */
  lemma GelScriptVerifies(m: Memory)
    ensures GelVerified(GelWrites(m))
  {
    var w := GelWrites(m);
    GelWritesAt(m, 0x08);
    forall a: Address | GelZero(a)
      ensures w[a] == 0
    {
      GelWritesAt(m, a);
    }
    forall a: Address | GelOne(a)
      ensures w[a] == 0xFF
    {
      GelWritesAt(m, a);
    }
    GelZerosMeaning(w);
    GelOnesMeaning(w);
  }

  // ---------------------------------------------------------------------
  // The waste-tank chip script

  /** The memory after the waste-tank script's three zero runs. */
  function WasteWrites(m: Memory): Memory
  {
    Fill(Fill(Fill(m, 0x04, 5, 0x00), 0x14, 74, 0x00), 0x5F, 160, 0x00)
  }

  /** Addresses the waste-tank script zeroes: 0x04-0x08, 0x14-0x5D and
      0x5F-0xFE. */
  predicate WasteZero(a: Address)
  {
    0x04 <= a <= 0x08 || 0x14 <= a <= 0x5D || 0x5F <= a <= 0xFE
  }

  /** The waste-tank script zeroes its ranges and leaves every other
      address (0x5E and 0xFF among them) alone. */
  lemma WasteWritesAt(m: Memory, a: Address)
    ensures WasteWrites(m)[a] == if WasteZero(a) then 0 else m[a]
  {
    var m1 := Fill(m, 0x04, 5, 0x00);
    var m2 := Fill(m1, 0x14, 74, 0x00);
    FillAt(m, 0x04, 5, 0x00, a);
    InRangeInterval(a, 0x04, 5);
    FillAt(m1, 0x14, 74, 0x00, a);
    InRangeInterval(a, 0x14, 74);
    FillAt(m2, 0x5F, 160, 0x00, a);
    InRangeInterval(a, 0x5F, 160);
  }

  /** `zerosCheck` of the waste-tank script. */
  function WasteZerosCheck(m: Memory): bv8
  {
    0 | OrFold(Fetch(m, 0x04, 5)) | OrFold(Fetch(m, 0x14, 74)) | OrFold(Fetch(m, 0x5F, 160))
  }

  /** The waste-tank check passes exactly when every zeroed address reads
      0. */
  lemma WasteZerosMeaning(m: Memory)
    ensures WasteZerosCheck(m) == 0 <==> forall a: Address :: WasteZero(a) ==> m[a] == 0
  {
    FetchZeros(m, 0x04, 5);
    FetchZeros(m, 0x14, 74);
    FetchZeros(m, 0x5F, 160);
    forall a: Address
      ensures (WasteZero(a) <==> InRange(a, 0x04, 5) || InRange(a, 0x14, 74) || InRange(a, 0x5F, 160))
    {
      InRangeInterval(a, 0x04, 5);
      InRangeInterval(a, 0x14, 74);
      InRangeInterval(a, 0x5F, 160);
    }
  }

  /** On a memory where writes persist, the waste-tank check always
      passes. */
  lemma WasteScriptVerifies(m: Memory)
    ensures WasteZerosCheck(WasteWrites(m)) == 0
  {
    var w := WasteWrites(m);
    forall a: Address | WasteZero(a)
      ensures w[a] == 0
    {
      WasteWritesAt(m, a);
    }
    WasteZerosMeaning(w);
  }

  // ---------------------------------------------------------------------
  // One button press

  /** What the firmware keeps between button presses, and the chip. */
  datatype State = State(memory: Memory, pointer: Address, readData: seq<bv8>,
                         readChipType: seq<bv8>, chipTypeOk: bool, resettedOk: bool)

  /** The report and the new state of one button press on a bus where the
      chip acknowledges `present`. */
  function Cycle(present: set<int>, s: State): (Report, State)
  {
    var found := FirstPresent(present, 0);
    if found == 0 then (Blink(0, 1), s)
    else
      var t := Fetch(s.memory, 0, ChipTypeSize);
      var typed := s.(pointer := ChipTypeSize, readChipType := t, chipTypeOk := TypeAccepted(t));
      if !TypeAccepted(t) then (Blink(0, 2), typed)
      else if found - 1 < 4 then
        var m := GelWrites(s.memory);
        (if GelVerified(m) then Blink(found, 0) else Blink(0, 3),
         typed.(memory := m, pointer := 0x80, readData := [m[0x08]], resettedOk := [m[0x08]] == DataToCheck))
      else
        var m := WasteWrites(s.memory);
        (if WasteZerosCheck(m) == 0 then Blink(found, 0) else Blink(0, 3),
         typed.(memory := m, pointer := 0xFF))
  }

  /** How a press ends: error 1 and nothing read or written when no chip
      answers; error 2 and nothing written when the type bytes are not
      accepted; otherwise the gel or waste-tank script, by the position of
      the chip found. */
  lemma CycleOutcomes(present: set<int>, s: State)
    ensures var (report, after) := Cycle(present, s);
      var found := FirstPresent(present, 0);
      && (report == Blink(0, 1) <==> found == 0)
      && (found == 0 ==> after == s)
      && (found != 0 && !TypeAccepted(Fetch(s.memory, 0, ChipTypeSize)) ==>
            report == Blink(0, 2) && after.memory == s.memory)
      && (found != 0 && TypeAccepted(Fetch(s.memory, 0, ChipTypeSize)) ==>
            after.memory == if found <= 4 then GelWrites(s.memory) else WasteWrites(s.memory))
  {
  }

  /** On a chip whose memory keeps what is written, a press that finds an
      accepted chip always ends reporting that chip reset: error 3 cannot
      happen. This rests on the bus answering every start. A real EEPROM
      ignores its address while it completes a write, and the waste-tank
      read-back starts right after the last write without waiting for the
      chip. */
  lemma ScriptsVerify(present: set<int>, s: State)
    ensures var found := FirstPresent(present, 0);
      found != 0 && TypeAccepted(Fetch(s.memory, 0, ChipTypeSize)) ==> Cycle(present, s).0 == Blink(found, 0)
    ensures Cycle(present, s).0 != Blink(0, 3)
  {
    GelScriptVerifies(s.memory);
    WasteScriptVerifies(s.memory);
  }

  // ---------------------------------------------------------------------
  // The firmware

  /** The resetter's globals and the bus it drives. */
  class Resetter {
    const bus: Bus
    const readData: array<bv8>
    const readChipType: array<bv8>
    var chipTypeOk: bool
    var resettedOk: bool
    var startResetting: bool

    predicate Valid()
    {
      readData.Length == ChipDataSize && readChipType.Length == ChipTypeSize && readData != readChipType
    }

    /** The globals and the chip, as one value. */
    function Snapshot(): State
      reads this, bus, readData, readChipType
    {
      State(bus.memory, bus.pointer, readData[..], readChipType[..], chipTypeOk, resettedOk)
    }

    constructor (bus: Bus)
      ensures Valid() && this.bus == bus
      ensures readData[..] == [0] && readChipType[..] == [0, 0]
      ensures !chipTypeOk && !resettedOk && !startResetting
    {
      this.bus := bus;
      readData := new bv8[ChipDataSize](_ => 0);
      readChipType := new bv8[ChipTypeSize](_ => 0);
      chipTypeOk := false;
      resettedOk := false;
      startResetting := false;
    }

    /** The button interrupt requests a cycle. */
    method ButtonInterrupt()
      modifies this`startResetting
      ensures startResetting
    {
      startResetting := true;
    }

    /** `findChip`: tries the five addresses in table order. */
    method FindChip() returns (found: nat)
      ensures found == FirstPresent(bus.present, 0)
      ensures found > 0 ==> found <= 5 && ChipsAddr[found - 1] in bus.present
    {
      var i := 0;
      while i < 5
        invariant 0 <= i <= 5
        invariant FirstPresent(bus.present, 0) == FirstPresent(bus.present, i)
      {
        var status := bus.Start(ChipsAddr[i]);
        if status == 0 {
          return i + 1;
        }
        i := i + 1;
      }
      return 0;
    }

    /** The two type bytes, read from address 0 over the start `findChip`
        left open. */
    method ReadChipType(dev: int)
      requires Valid() && dev in bus.present
      modifies bus`pointer, readChipType
      ensures readChipType[..] == Fetch(bus.memory, 0, ChipTypeSize)
      ensures bus.pointer == ChipTypeSize
    {
      bus.SetAddress(dev, 0);
      var b0 := bus.Get();
      readChipType[0] := b0;
      var b1 := bus.Get();
      readChipType[1] := b1;
      assert readChipType[..] == Fetch(bus.memory, 0, ChipTypeSize);
    }

    /** The type check loop: false at the first byte that matches neither
        known type, true when both match. */
    method CheckChipType()
      requires Valid()
      modifies this`chipTypeOk
      ensures chipTypeOk == TypeAccepted(readChipType[..])
    {
      var i := 0;
      while i < ChipTypeSize
        invariant 0 <= i <= ChipTypeSize
        invariant forall j :: 0 <= j < i ==> readChipType[j] == GelType[j] || readChipType[j] == WasteType[j]
        invariant i > 0 ==> chipTypeOk
      {
        if readChipType[i] != GelType[i] && readChipType[i] != WasteType[i] {
          chipTypeOk := false;
          return;
        }
        chipTypeOk := true;
        i := i + 1;
      }
    }

    /** `writeZeros`: `howMany` single-byte writes of 0 at `whereStart + i`
        in 8-bit arithmetic. */
    method WriteZeros(chipAddr: int, howMany: nat, whereStart: Address)
      requires chipAddr in bus.present && howMany < 256
      modifies bus`memory, bus`pointer
      ensures bus.memory == Fill(old(bus.memory), whereStart, howMany, 0x00)
      ensures bus.pointer == if howMany == 0 then old(bus.pointer) else Offset(whereStart, howMany)
    {
      var i := 0;
      while i < howMany
        invariant 0 <= i <= howMany
        invariant bus.memory == Fill(old(bus.memory), whereStart, i, 0x00)
        invariant bus.pointer == if i == 0 then old(bus.pointer) else Offset(whereStart, i)
      {
        FillStep(old(bus.memory), whereStart, i, 0x00);
        OffsetNext(whereStart, i);
        bus.SetAddress(chipAddr, Offset(whereStart, i));
        bus.Put(0x00);
        i := i + 1;
      }
    }

    /** `writeOnes`: `howMany` single-byte writes of 0xFF at
        `whereStart + i` in 8-bit arithmetic. */
    method WriteOnes(chipAddr: int, howMany: nat, whereStart: Address)
      requires chipAddr in bus.present && howMany < 256
      modifies bus`memory, bus`pointer
      ensures bus.memory == Fill(old(bus.memory), whereStart, howMany, 0xFF)
      ensures bus.pointer == if howMany == 0 then old(bus.pointer) else Offset(whereStart, howMany)
    {
      var i := 0;
      while i < howMany
        invariant 0 <= i <= howMany
        invariant bus.memory == Fill(old(bus.memory), whereStart, i, 0xFF)
        invariant bus.pointer == if i == 0 then old(bus.pointer) else Offset(whereStart, i)
      {
        FillStep(old(bus.memory), whereStart, i, 0xFF);
        OffsetNext(whereStart, i);
        bus.SetAddress(chipAddr, Offset(whereStart, i));
        bus.Put(0xFF);
        i := i + 1;
      }
    }

    /** `checkZeros`: the OR of a sequential read from `whereStart`,
        `howMany - 1` bytes acknowledged and one more. */
    method CheckZeros(chipAddr: int, howMany: nat, whereStart: Address) returns (readByte: bv8)
      requires chipAddr in bus.present && howMany < 256
      modifies bus`pointer
      ensures readByte == OrFold(Fetch(bus.memory, whereStart, ReadCount(howMany)))
      ensures bus.pointer == Offset(whereStart, ReadCount(howMany))
    {
      readByte := 0;
      bus.SetAddress(chipAddr, whereStart);
      var i := 0;
      while i < howMany - 1
        invariant 0 <= i <= ReadCount(howMany) - 1
        invariant bus.pointer == Offset(whereStart, i)
        invariant readByte == OrFold(Fetch(bus.memory, whereStart, i))
      {
        OrFoldStep(bus.memory, whereStart, i);
        OffsetNext(whereStart, i);
        var b := bus.Get();
        readByte := readByte | b;
        i := i + 1;
      }
      OrFoldStep(bus.memory, whereStart, i);
      OffsetNext(whereStart, i);
      var b := bus.Get();
      readByte := readByte | b;
    }

    /** `checkOnes`: the AND of a sequential read from `whereStart`,
        `howMany - 1` bytes acknowledged and one more. */
    method CheckOnes(chipAddr: int, howMany: nat, whereStart: Address) returns (readByte: bv8)
      requires chipAddr in bus.present && howMany < 256
      modifies bus`pointer
      ensures readByte == AndFold(Fetch(bus.memory, whereStart, ReadCount(howMany)))
      ensures bus.pointer == Offset(whereStart, ReadCount(howMany))
    {
      readByte := 0xFF;
      bus.SetAddress(chipAddr, whereStart);
      var i := 0;
      while i < howMany - 1
        invariant 0 <= i <= ReadCount(howMany) - 1
        invariant bus.pointer == Offset(whereStart, i)
        invariant readByte == AndFold(Fetch(bus.memory, whereStart, i))
      {
        AndFoldStep(bus.memory, whereStart, i);
        OffsetNext(whereStart, i);
        var b := bus.Get();
        readByte := readByte & b;
        i := i + 1;
      }
      AndFoldStep(bus.memory, whereStart, i);
      OffsetNext(whereStart, i);
      var b := bus.Get();
      readByte := readByte & b;
    }

    /** The gel script's writes: ranges of 0 and 0xFF and the ink level
        100 at 0x08. */
    method WriteGel(dev: int)
      requires dev in bus.present
      modifies bus`memory, bus`pointer
      ensures bus.memory == GelWrites(old(bus.memory))
      ensures bus.pointer == 0x80
    {
      WriteZeros(dev, 1, 0x06);
      WriteOnes(dev, 1, 0x07);
      bus.SetAddress(dev, 0x08);
      bus.Put(100);
      WriteZeros(dev, 1, 0x09);
      WriteOnes(dev, 6, 0x10);
      WriteOnes(dev, 8, 0x18);
      WriteOnes(dev, 1, 0x28);
      WriteZeros(dev, 1, 0x29);
      WriteOnes(dev, 22, 0x2A);
      WriteOnes(dev, 11, 0x43);
      WriteOnes(dev, 49, 0x4F);
    }

    /** The reset check loop: false at the first byte read back that
        differs from the expected data, true when all match. */
    method CheckReset()
      requires Valid()
      modifies this`resettedOk
      ensures resettedOk == (readData[..] == DataToCheck)
    {
      var i := 0;
      while i < ChipDataSize
        invariant 0 <= i <= ChipDataSize
        invariant forall j :: 0 <= j < i ==> readData[j] == DataToCheck[j]
        invariant i > 0 ==> resettedOk
      {
        if readData[i] != DataToCheck[i] {
          resettedOk := false;
          return;
        }
        resettedOk := true;
        i := i + 1;
      }
      assert readData[..] == DataToCheck;
    }

    /** The gel script's three zero checks OR-ed into `zerosCheck`. */
    method GelZeroChecks(dev: int) returns (zerosCheck: bv8)
      requires dev in bus.present
      modifies bus`pointer
      ensures zerosCheck == GelZerosCheck(bus.memory)
      ensures bus.pointer == 0x2A
    {
      zerosCheck := 0;
      var z := CheckZeros(dev, 1, 0x06);
      zerosCheck := zerosCheck | z;
      z := CheckZeros(dev, 1, 0x09);
      zerosCheck := zerosCheck | z;
      z := CheckZeros(dev, 1, 0x29);
      zerosCheck := zerosCheck | z;
    }

    /** The gel script's seven ones checks AND-ed into `onesCheck`. */
    method GelOnesChecks(dev: int) returns (onesCheck: bv8)
      requires dev in bus.present
      modifies bus`pointer
      ensures onesCheck == GelOnesCheck(bus.memory)
      ensures bus.pointer == 0x80
    {
      onesCheck := 0xFF;
      var o := CheckOnes(dev, 1, 0x07);
      onesCheck := onesCheck & o;
      o := CheckOnes(dev, 6, 0x10);
      onesCheck := onesCheck & o;
      o := CheckOnes(dev, 8, 0x18);
      onesCheck := onesCheck & o;
      o := CheckOnes(dev, 1, 0x28);
      onesCheck := onesCheck & o;
      o := CheckOnes(dev, 22, 0x2A);
      onesCheck := onesCheck & o;
      o := CheckOnes(dev, 11, 0x43);
      onesCheck := onesCheck & o;
      o := CheckOnes(dev, 49, 0x4F);
      onesCheck := onesCheck & o;
    }

    /** The gel script's read-back: the ink level into `readData`, the
        zero checks and the ones checks, then the verdict for the chip at
        table position `foundChip`. */
    method VerifyGel(dev: int, foundChip: nat) returns (report: Report)
      requires Valid() && dev in bus.present
      modifies bus`pointer, readData, this`resettedOk
      ensures readData[..] == [bus.memory[0x08]]
      ensures resettedOk == ([bus.memory[0x08]] == DataToCheck)
      ensures report == if GelVerified(bus.memory) then Blink(foundChip + 1, 0) else Blink(0, 3)
      ensures bus.pointer == 0x80
    {
      bus.SetAddress(dev, 0x08);
      var level := bus.Get();
      readData[0] := level;
      var zerosCheck := GelZeroChecks(dev);
      var onesCheck := GelOnesChecks(dev);
      assert readData[..] == [bus.memory[0x08]];
      CheckReset();
      if resettedOk && zerosCheck == 0 && onesCheck == 0xFF {
        report := Blink(foundChip + 1, 0);
      } else {
        report := Blink(0, 3);
      }
    }

    /** The waste-tank script: three zero runs, read back with three zero
        checks. */
    method ResetWaste(dev: int, foundChip: nat) returns (report: Report)
      requires dev in bus.present
      modifies bus`memory, bus`pointer
      ensures bus.memory == WasteWrites(old(bus.memory))
      ensures report == if WasteZerosCheck(bus.memory) == 0 then Blink(foundChip + 1, 0) else Blink(0, 3)
      ensures bus.pointer == 0xFF
    {
      var zerosCheck: bv8 := 0;
      WriteZeros(dev, 5, 0x04);
      WriteZeros(dev, 74, 0x14);
      WriteZeros(dev, 160, 0x5F);

      var z := CheckZeros(dev, 5, 0x04);
      zerosCheck := zerosCheck | z;
      z := CheckZeros(dev, 74, 0x14);
      zerosCheck := zerosCheck | z;
      z := CheckZeros(dev, 160, 0x5F);
      zerosCheck := zerosCheck | z;

      if zerosCheck == 0 {
        report := Blink(foundChip + 1, 0);
      } else {
        report := Blink(0, 3);
      }
    }

    /** One pass of the main loop: nothing unless the button was pressed;
        otherwise the press as `Cycle` describes it, and the request is
        cleared. */
    method RunCycle() returns (report: Report)
      requires Valid()
      modifies this, bus`memory, bus`pointer, readData, readChipType
      ensures !old(startResetting) ==> report == NoCycle && Snapshot() == old(Snapshot())
      ensures old(startResetting) ==> (report, Snapshot()) == Cycle(bus.present, old(Snapshot()))
      ensures !startResetting
    {
      if !startResetting {
        report := NoCycle;
        return;
      }
      var foundChip := FindChip();
      if foundChip != 0 {
        foundChip := foundChip - 1;
        var dev := ChipsAddr[foundChip];
        ReadChipType(dev);
        CheckChipType();
        if !chipTypeOk {
          report := Blink(0, 2);
        } else if foundChip < 4 {
          WriteGel(dev);
          report := VerifyGel(dev, foundChip);
        } else {
          report := ResetWaste(dev, foundChip);
        }
      } else {
        report := Blink(0, 1);
      }
      startResetting := false;
    }
  }
}
