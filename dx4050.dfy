/** The DX4050 protocol engine: the firmware's port registers, its two
    global buffers and the routines that drive a cartridge chip bit by bit
    over the enable, clock and data lines of port C. */
module Dx4050 {
  import opened Bits
  import opened Port
  import opened Dx4050Spec

  /** The clock and data lines are where `p` has them, and the other bits
      and the enable line are as in `q`. */
  predicate SameFrame(q: bv8, p: bv8)
  {
    Others(p) == Others(q) && High(p, EN) == High(q, EN)
  }

  /** Clears `size` leading entries of a buffer. */
  method ClearArray(arrayToClear: array<bv8>, sizeOfArray: nat)
    requires sizeOfArray <= arrayToClear.Length
    modifies arrayToClear
    ensures forall k :: 0 <= k < sizeOfArray ==> arrayToClear[k] == 0
    ensures forall k :: sizeOfArray <= k < arrayToClear.Length ==> arrayToClear[k] == old(arrayToClear[k])
  {
    var i := 0;
    while i < sizeOfArray
      invariant 0 <= i <= sizeOfArray
      invariant forall k :: 0 <= k < i ==> arrayToClear[k] == 0
      invariant forall k :: i <= k < arrayToClear.Length ==> arrayToClear[k] == old(arrayToClear[k])
    {
      arrayToClear[i] := 0;
      i := i + 1;
    }
  }

  /** The firmware's view of one cartridge chip: port C, its direction
      register, the chip lines' history, the bits the chip drives back and
      the two global buffers. */
  class ChipLink {
    /** PORTC; only the enable, clock and data bits are ever written. */
    var portC: bv8
    /** DDRC. */
    var ddrC: bv8
    /** Every enable pulse, sent bit and sampled bit so far. */
    var trace: seq<Event>
    /** What the connected chip drives on the data line at each sample. */
    const line: seq<bool>
    /** How many bits have been sampled from `line`. */
    var cursor: nat
    /** The ground-detect input PINC0: high when no chip is connected. */
    const gndDet: bool
    /** The 32-byte memory image of the last block read. */
    const cartridgeChipData: array<bv8>
    /** The 4 bytes to write back. */
    const resetChipData: array<bv8>
    /** Set by the button interrupt, cleared when a cycle is over. */
    var startResetting: bool

    /** The two global buffers have their declared sizes and are distinct. */
    ghost predicate Valid()
    {
      && cartridgeChipData.Length == DataReadSize && resetChipData.Length == DataWriteSize
      && cartridgeChipData != resetChipData
    }

    /** The state after the port set-up at the top of `main`. */
    constructor (line: seq<bool>, gndDet: bool)
      ensures Valid() && fresh(cartridgeChipData) && fresh(resetChipData)
      ensures this.line == line && this.gndDet == gndDet && cursor == 0 && trace == []
      ensures portC == 0x30 && ddrC == DdrOutput && !startResetting
      ensures forall k :: 0 <= k < DataReadSize ==> cartridgeChipData[k] == 0
      ensures forall k :: 0 <= k < DataWriteSize ==> resetChipData[k] == 0
    {
      this.line := line;
      this.gndDet := gndDet;
      cartridgeChipData := new bv8[DataReadSize](_ => 0);
      resetChipData := new bv8[DataWriteSize](_ => 0);
      cursor := 0;
      trace := [];
      startResetting := false;
      new;
      ddrC := DdrOutput;
      portC := 0x30;
      portC := Lower(portC, EN);
      portC := Lower(portC, CLK);
      portC := Lower(portC, DATA);
      AllLow(0x30, portC);
    }

    /** The button interrupt: it only raises the pending flag. */
    method ButtonInterrupt()
      modifies this`startResetting
      ensures startResetting
    {
      startResetting := true;
    }

    /** Pulses the enable line and leaves it high: the start of a
        transaction. */
    method PulseAndSetEn()
      modifies this`portC, this`trace
      ensures portC == Raise(old(portC), EN)
      ensures trace == old(trace) + [Arm]
    {
      portC := Raise(portC, EN);
      portC := Lower(portC, EN);
      portC := Raise(portC, EN);
      SameLevels(Raise(old(portC), EN), portC);
      trace := trace + [Arm];
    }

    /** One bit out: clock low, data set to the bit, clock high. */
    method ClockOut(bit: bool, setup: Delay)
      modifies this`portC, this`trace
      ensures trace == old(trace) + [Send(bit, setup)]
      ensures SameFrame(old(portC), portC)
      ensures High(portC, CLK) && High(portC, DATA) == bit
    {
      portC := Lower(portC, CLK);
      if bit {
        portC := Raise(portC, DATA);
      } else {
        portC := Lower(portC, DATA);
      }
      portC := Raise(portC, CLK);
      trace := trace + [Send(bit, setup)];
    }

    /** One bit in: clock low, clock high, sample the data line. */
    method ClockIn() returns (bit: bool)
      modifies this`portC, this`trace, this`cursor
      ensures bit == Level(line, old(cursor))
      ensures cursor == old(cursor) + 1
      ensures trace == old(trace) + [Sample(bit)]
      ensures SameFrame(old(portC), portC) && High(portC, DATA) == High(old(portC), DATA)
      ensures High(portC, CLK)
    {
      portC := Lower(portC, CLK);
      portC := Raise(portC, CLK);
      bit := cursor < |line| && line[cursor];
      assert bit == Level(line, cursor);
      trace := trace + [Sample(bit)];
      cursor := cursor + 1;
    }

    /** The firmware's sending loop `for (i = 128; i > limit; i /= 2)`:
        the high nibble of `value` when `limit` is 8, all of it when 0. */
    method SendBits(value: bv8, limit: bv8, setup: Delay)
      requires limit == 0 || limit == 8
      modifies this`portC, this`trace
      ensures limit == 0 ==> trace == old(trace) + Sends(BitsOf(value), setup)
      ensures limit == 8 ==> trace == old(trace) + Sends(BitsOf(value)[..4], setup)
      ensures SameFrame(old(portC), portC)
    {
      ghost var width := if limit == 0 then 8 else 4;
      ghost var n := 0;
      var i: bv8 := 128;
      MaskTable();
      while i > limit
        invariant 0 <= n <= width
        invariant i == Weight(n)
        invariant (i > limit) == (n < width)
        invariant trace == old(trace) + Sends(BitsOf(value)[..n], setup)
        invariant SameFrame(old(portC), portC)
        decreases width - n
      {
        WeightHalf(n);
        BitsOfAt(value, n);
        ghost var sent := Sends(BitsOf(value)[..n], setup);
        ClockOut(value & i != 0, setup);
        SendsStep(BitsOf(value), n, setup);
        AppendAssoc(old(trace), sent, [Send(BitsOf(value)[n], setup)]);
        i := i / 2;
        n := n + 1;
      }
      assert BitsOf(value)[..8] == BitsOf(value);
    }

    /** The firmware's sampling loop `for (bitNum = start; bitNum > 0;
        bitNum /= 2)`, OR-ing each high sample into `acc`: 4 samples onto
        bit values 8..1 when `start` is 8, 8 samples onto 128..1 when 128. */
    method SampleBits(acc0: bv8, start: bv8) returns (acc: bv8)
      requires start == 8 || start == 128
      modifies this`portC, this`trace, this`cursor
      ensures var n := if start == 8 then 4 else 8;
        && cursor == old(cursor) + n
        && acc == acc0 | Pack(Window(line, old(cursor), n), 8 - n)
        && trace == old(trace) + Samples(Window(line, old(cursor), n))
      ensures SameFrame(old(portC), portC) && High(portC, DATA) == High(old(portC), DATA)
    {
      ghost var width := if start == 8 then 4 else 8;
      ghost var first := 8 - width;
      ghost var from := cursor;
      ghost var bits := Window(line, from, width);
      ghost var n := 0;
      acc := acc0;
      var bitNum := start;
      MaskTable();
      while bitNum > 0
        invariant 0 <= n <= width
        invariant bitNum == Weight(first + n)
        invariant cursor == from + n
        invariant acc == acc0 | PackPrefix(bits, first, n)
        invariant trace == old(trace) + Samples(bits[..n])
        invariant SameFrame(old(portC), portC) && High(portC, DATA) == High(old(portC), DATA)
        decreases width - n
      {
        WeightHalf(first + n);
        var bit := ClockIn();
        assert bit == bits[n];
        SamplesStep(bits, n);
        AppendAssoc(old(trace), Samples(bits[..n]), [Sample(bit)]);
        AccumulateStep(acc0, acc, bits, first, n);
        if bit {
          acc := acc | bitNum;
        }
        bitNum := bitNum / 2;
        n := n + 1;
      }
      assert bits[..n] == bits;
    }

    /** The byte loop shared by the frame sender and the counter writer:
        every byte most significant bit first at the given setup delay,
        clock and data pulled low after each byte. */
    method SendByteSeq(bytes: seq<bv8>, setup: Delay)
      modifies this`portC, this`trace
      ensures trace == old(trace) + SendBytes(bytes, setup)
      ensures SameFrame(old(portC), portC)
      ensures |bytes| > 0 ==> !High(portC, CLK) && !High(portC, DATA)
      ensures |bytes| == 0 ==> portC == old(portC)
    {
      var pos := 0;
      while pos < |bytes|
        invariant 0 <= pos <= |bytes|
        invariant trace == old(trace) + SendBytes(bytes[..pos], setup)
        invariant SameFrame(old(portC), portC)
        invariant pos > 0 ==> !High(portC, CLK) && !High(portC, DATA)
        invariant pos == 0 ==> portC == old(portC)
      {
        var temp := bytes[pos];
        ghost var sent := SendBytes(bytes[..pos], setup);
        SendBits(temp, 0, setup);
        portC := Lower(portC, CLK);
        portC := Lower(portC, DATA);
        assert bytes[..pos + 1] == bytes[..pos] + [temp];
        SendBytesSnoc(bytes[..pos], temp, setup);
        AppendAssoc(old(trace), sent, Sends(BitsOf(temp), setup));
        pos := pos + 1;
      }
      assert bytes[..pos] == bytes;
    }

    /** Sends a fixed frame: data line driven, enable pulse, every byte most
        significant bit first, enable low. A non-empty frame leaves all
        three lines low. */
    method SendData(dataToSend: seq<bv8>)
      modifies this`portC, this`trace, this`ddrC
      ensures trace == old(trace) + FrameEvents(dataToSend)
      ensures ddrC == DdrOutput
      ensures Others(portC) == Others(old(portC)) && !High(portC, EN)
      ensures |dataToSend| > 0 ==> portC == Others(old(portC))
    {
      ddrC := DdrOutput;
      PulseAndSetEn();
      SendByteSeq(dataToSend, Delay40kHz);
      AppendAssoc(old(trace), [Arm], SendBytes(dataToSend, Delay40kHz));
      portC := Lower(portC, EN);
      if |dataToSend| > 0 {
        AllLow(old(portC), portC);
      }
    }

    /** One discovery probe up to the acknowledge check: enable pulse, the
        high nibble of `addr`, then 4 samples OR-ed into `chipResponse`. The
        enable line stays high; clock and data end low, data driven. */
    method Probe(addr: bv8, chipResponse: bv8) returns (response: bv8)
      modifies this`portC, this`trace, this`cursor, this`ddrC
      ensures response == chipResponse | Response(line, old(cursor))
      ensures cursor == old(cursor) + 4
      ensures trace == old(trace) + ProbeEvents(addr, Window(line, old(cursor), 4))
      ensures ddrC == DdrOutput
      ensures Others(portC) == Others(old(portC)) && !High(portC, CLK) && !High(portC, DATA)
    {
      PulseAndSetEn();
      SendBits(addr, 8, Delay40kHz);
      portC := Lower(portC, CLK);
      portC := Lower(portC, DATA);
      ddrC := DdrInput;
      response := SampleBits(chipResponse, 8);
      portC := Lower(portC, CLK);
      ddrC := DdrOutput;
      portC := Lower(portC, DATA);
    }

    /** The line releases after the acknowledge check: clock, data and
        enable low when the chip answered, only enable low (the others are
        low already) when it did not. */
    method EndProbe(acknowledged: bool)
      requires ddrC == DdrOutput && !High(portC, CLK) && !High(portC, DATA)
      modifies this`portC, this`ddrC
      ensures portC == Others(old(portC)) && ddrC == DdrOutput
    {
      if acknowledged {
        portC := Lower(portC, CLK);
        portC := Lower(portC, DATA);
        portC := Lower(portC, EN);
        ddrC := DdrOutput;
      } else {
        portC := Lower(portC, EN);
      }
      AllLow(old(portC), portC);
    }

    /** Probe `addrNum` of discovery, from the enable pulse to the line
        releases: the firmware's response variable starts at 0, so it ends
        as the chip's 4-bit answer, and it is the acknowledge nibble exactly
        when the chip acknowledged. */
    method ProbeChip(addrNum: nat) returns (chipResponse: bv8)
      requires addrNum < 4
      modifies this`portC, this`trace, this`cursor, this`ddrC
      ensures chipResponse == Response(line, old(cursor))
      ensures chipResponse == Ack <==> Acked(line, old(cursor))
      ensures cursor == old(cursor) + 4
      ensures trace == old(trace) + ProbeEvents(ReadAddrs[addrNum], Window(line, old(cursor), 4))
      ensures portC == Others(old(portC)) && ddrC == DdrOutput
    {
      var actualAddress := ReadAddrs[addrNum];
      chipResponse := Probe(actualAddress, 0);
      OrZero(Response(line, old(cursor)));
      ResponseAck(line, old(cursor));
      EndProbe(chipResponse == Ack);
    }

    /** The probe loop of discovery: the four read addresses in table
        order until one is acknowledged. */
    method ProbeAddresses() returns (found: nat)
      modifies this`portC, this`trace, this`cursor, this`ddrC
      ensures found == Probed(line, old(cursor), 0)
      ensures cursor == old(cursor) + 4 * ProbeCount(false, found)
      ensures trace == old(trace) + DiscoveryEvents(line, old(cursor), ProbeCount(false, found))
      ensures portC == Others(old(portC)) && ddrC == DdrOutput
    {
      ghost var from := cursor;
      var addrNum := 0;
      while addrNum < 4
        invariant 0 <= addrNum <= 4
        invariant cursor == from + 4 * addrNum
        invariant trace == old(trace) + DiscoveryEvents(line, from, addrNum)
        invariant Probed(line, from, 0) == Probed(line, from, addrNum)
        invariant portC == if addrNum == 0 then old(portC) else Others(old(portC))
        invariant addrNum > 0 ==> ddrC == DdrOutput
      {
        OthersTwice(old(portC));
        ghost var before := DiscoveryEvents(line, from, addrNum);
        ghost var probe := ProbeEvents(ReadAddrs[addrNum], Window(line, from + 4 * addrNum, 4));
        assert DiscoveryEvents(line, from, addrNum + 1) == before + probe;
        var chipResponse := ProbeChip(addrNum);
        AppendAssoc(old(trace), before, probe);
        if chipResponse == Ack {
          assert Probed(line, from, addrNum) == addrNum + 1;
          return addrNum + 1;
        }
        addrNum := addrNum + 1;
      }
      return 0;
    }

    /** Discovery: nothing when the ground-detect input reads high;
        otherwise the four read addresses are probed in table order and the
        first one answering with the acknowledge nibble gives the colour. */
    method FindConnectedChip() returns (found: nat)
      modifies this`portC, this`trace, this`cursor, this`ddrC
      ensures found == Discovered(gndDet, line, old(cursor))
      ensures cursor == old(cursor) + 4 * ProbeCount(gndDet, found)
      ensures trace == old(trace) + DiscoveryEvents(line, old(cursor), ProbeCount(gndDet, found))
      ensures gndDet ==> portC == old(portC) && ddrC == old(ddrC)
      ensures !gndDet ==> portC == Others(old(portC)) && ddrC == DdrOutput
    {
      if gndDet {
        return 0;
      }
      found := ProbeAddresses();
    }

    /** The address phase of a block read and its first image byte: enable
        pulse, the high nibble of the colour's read address, then the 4
        samples OR-ed below that nibble into buffer byte 0. The data line is
        left released and the enable line high. */
    method ReadHeader(inkColor: Colour)
      requires Valid()
      modifies this`portC, this`trace, this`cursor, this`ddrC, cartridgeChipData
      ensures cartridgeChipData[0] == (ReadAddrs[inkColor - 1] & 0xF0) | Pack(Window(line, old(cursor), 4), 4)
      ensures forall k :: 1 <= k < DataReadSize ==> cartridgeChipData[k] == old(cartridgeChipData[k])
      ensures cursor == old(cursor) + 4
      ensures trace == old(trace) + [Arm] + Sends(BitsOf(ReadAddrs[inkColor - 1])[..4], Delay40kHz)
                       + Samples(Window(line, old(cursor), 4))
      ensures Others(portC) == Others(old(portC)) && High(portC, EN)
      ensures !High(portC, CLK) && !High(portC, DATA) && ddrC == DdrInput
    {
      ddrC := DdrOutput;
      PulseAndSetEn();
      var actualAddress := ReadAddrs[inkColor - 1];
      SendBits(actualAddress, 8, Delay40kHz);
      portC := Lower(portC, CLK);
      portC := Lower(portC, DATA);
      ddrC := DdrInput;
      cartridgeChipData[0] := actualAddress & 0xF0;
      actualAddress := cartridgeChipData[0];
      actualAddress := SampleBits(actualAddress, 8);
      portC := Lower(portC, CLK);
      cartridgeChipData[0] := actualAddress;
    }

    /** One full image byte: 8 samples OR-ed into a cleared accumulator onto
        bit values 128..1, then clock low and the byte stored at `i`. */
    method ReceiveByte(i: nat)
      requires Valid() && i < DataReadSize && !High(portC, CLK)
      modifies this`portC, this`trace, this`cursor, cartridgeChipData
      ensures cartridgeChipData[i] == Pack(Window(line, old(cursor), 8), 0)
      ensures forall k :: 0 <= k < DataReadSize && k != i ==> cartridgeChipData[k] == old(cartridgeChipData[k])
      ensures cursor == old(cursor) + 8
      ensures trace == old(trace) + Samples(Window(line, old(cursor), 8))
      ensures portC == old(portC)
    {
      var temp := SampleBits(0, 128);
      OrZero(Pack(Window(line, old(cursor), 8), 0));
      portC := Lower(portC, CLK);
      SameLevels(old(portC), portC);
      cartridgeChipData[i] := temp;
    }

    /** Image bytes 1..31, one after the other, each from the next 8
        samples. */
    method ReceiveBytes()
      requires Valid() && !High(portC, CLK)
      modifies this`portC, this`trace, this`cursor, cartridgeChipData
      ensures forall k :: 1 <= k < DataReadSize ==>
                cartridgeChipData[k] == Pack(Window(line, old(cursor) + 8 * (k - 1), 8), 0)
      ensures cartridgeChipData[0] == old(cartridgeChipData[0])
      ensures cursor == old(cursor) + 8 * (DataReadSize - 1)
      ensures trace == old(trace) + Samples(Window(line, old(cursor), 8 * (DataReadSize - 1)))
      ensures portC == old(portC)
    {
      ghost var from := cursor;
      var i := 1;
      while i < DataReadSize
        invariant 1 <= i <= DataReadSize
        invariant cursor == from + 8 * (i - 1)
        invariant trace == old(trace) + Samples(Window(line, from, 8 * (i - 1)))
        invariant forall k :: 1 <= k < i ==> cartridgeChipData[k] == Pack(Window(line, from + 8 * (k - 1), 8), 0)
        invariant cartridgeChipData[0] == old(cartridgeChipData[0])
        invariant portC == old(portC)
      {
        ghost var before := Samples(Window(line, from, 8 * (i - 1)));
        ReceiveByte(i);
        SamplesWindowSplit(line, from, 8 * (i - 1), 8);
        AppendAssoc(old(trace), before, Samples(Window(line, from + 8 * (i - 1), 8)));
        i := i + 1;
      }
    }

    /** The validation at the end of a block read: 1 at the first offset
        that differs from the table (byte 0, bytes 12 and 13, then bytes
        23, 22 and 21), 0 when none does. Nothing is changed. */
    method CheckImage(inkColor: Colour) returns (result: nat)
      requires Valid()
      ensures result <= 1
      ensures result == 0 <==> ImageValid(cartridgeChipData[..], inkColor)
    {
      if cartridgeChipData[0] != DataToCheck[inkColor - 1] {
        return 1;
      }
      if cartridgeChipData[12] != DataToCheck[3 + inkColor] || cartridgeChipData[13] != DataToCheck[7 + inkColor] {
        return 1;
      }
      var i := 14;
      while i > 11
        invariant 11 <= i <= 14
        invariant forall j :: i < j <= 14 ==> cartridgeChipData[9 + j] == DataToCheck[j]
      {
        if cartridgeChipData[9 + i] != DataToCheck[i] {
          return 1;
        }
        i := i - 1;
      }
      return 0;
    }

    /** The line releases at the end of a block read: enable low, data
        line driven again and pulled low. */
    method EndRead()
      requires !High(portC, CLK) && !High(portC, DATA)
      modifies this`portC, this`ddrC
      ensures portC == Others(old(portC)) && ddrC == DdrOutput
    {
      portC := Lower(portC, EN);
      ddrC := DdrOutput;
      portC := Lower(portC, DATA);
      AllLow(old(portC), portC);
    }

    /** The wire part of a block read for colour `inkColor`: the buffer
        ends holding the image decoded from the next 252 samples, with all
        three lines low and the data line driven. */
    method ReceiveImage(inkColor: Colour)
      requires Valid()
      modifies this`portC, this`trace, this`cursor, this`ddrC, cartridgeChipData
      ensures cartridgeChipData[..] == ReadImage(line, old(cursor), inkColor)
      ensures cursor == old(cursor) + ImageBits
      ensures trace == old(trace) + ReadEvents(inkColor, Window(line, old(cursor), ImageBits))
      ensures portC == Others(old(portC)) && ddrC == DdrOutput
    {
      ReadHeader(inkColor);
      ReceiveBytes();
      EndRead();
      DecodeWindows(ReadAddrs[inkColor - 1], line, old(cursor), cartridgeChipData[..]);
      ReadEventsSplit(old(trace), inkColor, line, old(cursor));
    }

    /** A block read for colour `inkColor`, then its validation: 0 exactly
        when the image read is accepted, 1 otherwise. */
    method ReadDataFromChip(inkColor: Colour) returns (result: nat)
      requires Valid()
      modifies this`portC, this`trace, this`cursor, this`ddrC, cartridgeChipData
      ensures cartridgeChipData[..] == ReadImage(line, old(cursor), inkColor)
      ensures result <= 1
      ensures result == 0 <==> ImageValid(ReadImage(line, old(cursor), inkColor), inkColor)
      ensures cursor == old(cursor) + ImageBits
      ensures trace == old(trace) + ReadEvents(inkColor, Window(line, old(cursor), ImageBits))
      ensures portC == Others(old(portC)) && ddrC == DdrOutput
    {
      ReceiveImage(inkColor);
      result := CheckImage(inkColor);
    }

    /** The payload copy at the top of the counter reset: image bytes 1..4
        into the write buffer, then its last byte, the ink usage counter,
        cleared. */
    method CopyPayload()
      requires Valid()
      modifies resetChipData
      ensures resetChipData[..] == Payload(cartridgeChipData[..])
    {
      var i := 0;
      while i < DataWriteSize
        invariant 0 <= i <= DataWriteSize
        invariant forall k :: 0 <= k < i ==> resetChipData[k] == cartridgeChipData[k + 1]
      {
        resetChipData[i] := cartridgeChipData[i + 1];
        i := i + 1;
      }
      resetChipData[3] := 0;
    }

    /** The counter write: data line driven, enable pulse, all 8 bits of the
        colour's write address, then the write buffer byte by byte, every bit
        at the slow write delay, and enable low. */
    method WritePayload(inkColor: Colour)
      requires Valid()
      modifies this`portC, this`trace, this`ddrC
      ensures trace == old(trace) + WriteEvents(inkColor, resetChipData[..])
      ensures portC == Others(old(portC)) && ddrC == DdrOutput
    {
      ddrC := DdrOutput;
      PulseAndSetEn();
      var temp := WriteAddrs[inkColor - 1];
      SendBits(temp, 0, Delay10kHz);
      portC := Lower(portC, CLK);
      portC := Lower(portC, DATA);
      SendByteSeq(resetChipData[..], Delay10kHz);
      portC := Lower(portC, EN);
      AllLow(old(portC), portC);
      WriteEventsSplit(old(trace), inkColor, resetChipData[..]);
    }

    /** The final comparison of the counter reset: 1 at the first payload
        byte that the reread image does not hold at offsets 1..4, 0 when all
        match. Nothing is changed. */
    method CompareWritten() returns (result: nat)
      requires Valid()
      ensures result <= 1
      ensures result == 0 <==> cartridgeChipData[1..5] == resetChipData[..]
    {
      var i := 0;
      while i < DataWriteSize
        invariant 0 <= i <= DataWriteSize
        invariant forall k :: 0 <= k < i ==> resetChipData[k] == cartridgeChipData[k + 1]
      {
        if resetChipData[i] != cartridgeChipData[i + 1] {
          return 1;
        }
        i := i + 1;
      }
      return 0;
    }

    /** Resets the ink counter of the chip whose image is in the read
        buffer: writes the payload built from that image, rereads the chip
        and answers 0 exactly when the reread image is accepted and carries
        the payload. */
    method ResetInkCounter(inkColor: Colour) returns (result: nat)
      requires Valid()
      modifies this`portC, this`trace, this`cursor, this`ddrC, cartridgeChipData, resetChipData
      ensures resetChipData[..] == Payload(old(cartridgeChipData[..]))
      ensures cartridgeChipData[..] == ReadImage(line, old(cursor), inkColor)
      ensures result <= 1
      ensures result == 0 <==>
                WriteVerified(ReadImage(line, old(cursor), inkColor), inkColor, Payload(old(cartridgeChipData[..])))
      ensures cursor == old(cursor) + ImageBits
      ensures trace == old(trace) + WriteEvents(inkColor, Payload(old(cartridgeChipData[..])))
                       + ReadEvents(inkColor, Window(line, old(cursor), ImageBits))
      ensures portC == Others(old(portC)) && ddrC == DdrOutput
    {
      CopyPayload();
      WritePayload(inkColor);
      OthersTwice(old(portC));
      ClearArray(cartridgeChipData, DataReadSize);
      var readResult := ReadDataFromChip(inkColor);
      if readResult == 1 {
        return 1;
      }
      result := CompareWritten();
    }

    /** The stages after discovery found colour `c`: the block read, and
        the counter reset once the image is accepted; the report is the LED
        pattern the firmware then shows. */
    method ReadAndReset(c: Colour) returns (report: Report)
      requires Valid()
      modifies this`portC, this`trace, this`cursor, this`ddrC, cartridgeChipData, resetChipData
      ensures report == StageReport(FoundStage(c, line, old(cursor)))
      ensures trace == old(trace) + FoundEvents(c, line, old(cursor))
      ensures cursor == old(cursor) + FoundBits(c, line, old(cursor))
      ensures Others(portC) == Others(old(portC)) && ddrC == DdrOutput
      ensures (cartridgeChipData[..], resetChipData[..]) == FoundBuffers(c, line, old(cursor), old(resetChipData[..]))
    {
      OthersTwice(old(portC));
      OthersTwice(Others(old(portC)));
      var readingResult := ReadDataFromChip(c);
      if readingResult == 1 {
        report := Blink(0, 2);
        FoundInvalid(c, line, old(cursor), old(trace));
      } else {
        FoundValid(c, line, old(cursor), cursor, cartridgeChipData[..], old(trace));
        var resetResult := ResetInkCounter(c);
        if resetResult == 1 {
          report := Blink(0, 3);
        } else {
          report := Blink(c, 0);
        }
      }
    }

    /** Everything between the header and trailer frames of one cycle. */
    method RunStages() returns (report: Report)
      requires Valid()
      modifies this`portC, this`trace, this`cursor, this`ddrC, cartridgeChipData, resetChipData
      ensures report == StageReport(CycleStage(gndDet, line, old(cursor)))
      ensures trace == old(trace) + StageEvents(gndDet, line, old(cursor))
      ensures cursor == old(cursor) + CycleBits(gndDet, line, old(cursor))
      ensures Others(portC) == Others(old(portC))
      ensures ddrC == if gndDet then old(ddrC) else DdrOutput
      ensures (cartridgeChipData[..], resetChipData[..])
              == StageBuffers(gndDet, line, old(cursor), old(cartridgeChipData[..]), old(resetChipData[..]))
    {
      OthersTwice(old(portC));
      var foundChip := FindConnectedChip();
      if foundChip == 0 {
        report := Blink(0, 1);
        StagesNotFound(gndDet, line, old(cursor), old(trace));
      } else {
        ghost var at := cursor;
        StagesFoundStage(gndDet, line, old(cursor), foundChip, at);
        StagesFoundEvents(gndDet, line, old(cursor), foundChip, at, old(trace));
        StagesFoundBits(gndDet, line, old(cursor), foundChip, at);
        StagesFoundBuffers(gndDet, line, old(cursor), foundChip, at, old(cartridgeChipData[..]), old(resetChipData[..]));
        report := ReadAndReset(foundChip);
      }
    }

    /** One pass of the firmware's main loop: nothing unless the button was
        pressed; otherwise header frame, the stages, trailer frame, both
        buffers cleared and the pending flag dropped. */
    method RunCycle() returns (report: Report)
      requires Valid()
      modifies this`portC, this`trace, this`cursor, this`ddrC, this`startResetting
      modifies cartridgeChipData, resetChipData
      ensures !startResetting
      ensures !old(startResetting) ==> report == NoCycle && trace == old(trace) && cursor == old(cursor)
      ensures !old(startResetting) ==> portC == old(portC) && ddrC == old(ddrC)
      ensures !old(startResetting) ==> unchanged(cartridgeChipData) && unchanged(resetChipData)
      ensures old(startResetting) ==> report == StageReport(CycleStage(gndDet, line, old(cursor)))
      ensures old(startResetting) ==> trace == old(trace) + CycleEvents(gndDet, line, old(cursor))
      ensures old(startResetting) ==> cursor == old(cursor) + CycleBits(gndDet, line, old(cursor))
      ensures old(startResetting) ==> portC == Others(old(portC)) && ddrC == DdrOutput
      ensures old(startResetting) ==> forall k :: 0 <= k < DataReadSize ==> cartridgeChipData[k] == 0
      ensures old(startResetting) ==> forall k :: 0 <= k < DataWriteSize ==> resetChipData[k] == 0
    {
      if !startResetting {
        return NoCycle;
      }
      SendData(StartData);
      report := RunStages();
      SendData(EndData);
      AppendAssoc3(old(trace), FrameEvents(StartData), StageEvents(gndDet, line, old(cursor)), FrameEvents(EndData));
      ClearArray(cartridgeChipData, DataReadSize);
      ClearArray(resetChipData, DataWriteSize);
      startResetting := false;
    }
  }
}
