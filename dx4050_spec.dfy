/** The fixed tables of the DX4050 chip protocol and the pure meaning of
    what the engine exchanges with a chip: the wire events it produces, the
    bits a chip drives back, the 32-byte memory image decoded from them, the
    image validator, the reset payload and the outcome of one button press. */
module Dx4050Spec {
  import opened Bits

  /** Chip colour as the firmware numbers it: 1 black, 2 magenta, 3 yellow,
      4 cyan. */
  type Colour = c: nat | 1 <= c <= 4 witness 1

  const ReadAddrs: seq<bv8> := [0x27, 0xA7, 0xE7, 0x67]
  const WriteAddrs: seq<bv8> := [0x3F, 0xBF, 0xFF, 0x7F]
  const DataWriteSize: nat := 4
  const DataReadSize: nat := 32
  const StartData: seq<bv8> := [6, 0, 17, 96, 1, 6, 0, 17, 96, 0]
  const EndData: seq<bv8> := [6, 0, 1, 96, 1, 6, 0, 17, 96, 0]
  /** Bytes 0..3: the expected first image byte per colour (address nibble
      followed by the acknowledge nibble); 4..7 and 8..11: the expected image
      bytes 12 and 13 per colour; 12..14: the fixed trailer bytes. */
  const DataToCheck: seq<bv8> := [44, 172, 236, 108, 195, 67, 131, 3, 101, 103, 102, 104, 12, 98, 39]
  /** The acknowledge nibble a chip answers with. */
  const Ack: bv8 := 0x0C
  /** Bits sampled for one image: the low nibble of byte 0 and 31 full bytes. */
  const ImageBits: nat := 4 + 8 * 31

  /** The address tables name every chip once: no read address is a write
      address, no two colours share an address, and since a probe sends only
      the high nibble, no two read addresses share that nibble either. */
  lemma AddressesDistinct()
    ensures forall i, j :: 0 <= i < 4 && 0 <= j < 4 ==>
      && ReadAddrs[i] != WriteAddrs[j]
      && (i != j ==> ReadAddrs[i] != ReadAddrs[j] && WriteAddrs[i] != WriteAddrs[j]
                     && ReadAddrs[i] >> 4 != ReadAddrs[j] >> 4)
  {
    assert ReadAddrs[0] >> 4 == 0x2 && ReadAddrs[1] >> 4 == 0xA;
    assert ReadAddrs[2] >> 4 == 0xE && ReadAddrs[3] >> 4 == 0x6;
  }

  // ---------------------------------------------------------------------
  // Wire events

  /** The setup delay used before the rising clock edge of a sent bit. */
  datatype Delay = Delay40kHz | Delay10kHz

  /** What the engine does on the chip lines: an enable pulse that opens a
      transaction, a bit clocked out, or a bit sampled from the chip. */
  datatype Event = Arm | Send(bit: bool, setup: Delay) | Sample(bit: bool)

  function Sends(bits: seq<bool>, setup: Delay): (evs: seq<Event>)
    ensures |evs| == |bits|
    ensures forall k :: 0 <= k < |bits| ==> evs[k] == Send(bits[k], setup)
  {
    seq(|bits|, k requires 0 <= k < |bits| => Send(bits[k], setup))
  }

  function Samples(bits: seq<bool>): (evs: seq<Event>)
    ensures |evs| == |bits|
    ensures forall k :: 0 <= k < |bits| ==> evs[k] == Sample(bits[k])
  {
    seq(|bits|, k requires 0 <= k < |bits| => Sample(bits[k]))
  }

  lemma SendsAppend(a: seq<bool>, b: seq<bool>, setup: Delay)
    ensures Sends(a + b, setup) == Sends(a, setup) + Sends(b, setup)
  {
  }

  /** One more bit sent extends the events by one. */
  lemma SendsStep(bits: seq<bool>, n: nat, setup: Delay)
    requires n < |bits|
    ensures Sends(bits[..n + 1], setup) == Sends(bits[..n], setup) + [Send(bits[n], setup)]
  {
  }

  /** One more bit sampled extends the events by one. */
  lemma SamplesStep(bits: seq<bool>, n: nat)
    requires n < |bits|
    ensures Samples(bits[..n + 1]) == Samples(bits[..n]) + [Sample(bits[n])]
  {
  }

  /** Concatenation of event sequences is associative. */
  lemma AppendAssoc(a: seq<Event>, b: seq<Event>, c: seq<Event>)
    ensures (a + b) + c == a + (b + c)
  {
  }

  /** Three parts appended one after the other to a trace. */
  lemma AppendAssoc3(t: seq<Event>, a: seq<Event>, b: seq<Event>, c: seq<Event>)
    ensures t + a + b + c == t + (a + b + c)
  {
  }

  lemma SamplesAppend(a: seq<bool>, b: seq<bool>)
    ensures Samples(a + b) == Samples(a) + Samples(b)
  {
  }

  /** The bytes, each most significant bit first, one after the other. */
  function Serialise(bytes: seq<bv8>): (bits: seq<bool>)
    ensures |bits| == 8 * |bytes|
  {
    if bytes == [] then []
    else Serialise(bytes[..|bytes| - 1]) + BitsOf(bytes[|bytes| - 1])
  }

  /** Byte `i` of a serialised sequence occupies bits 8i..8i+7. */
  lemma {:induction false} SerialiseAt(bytes: seq<bv8>, i: nat)
    requires i < |bytes|
    ensures Serialise(bytes)[8 * i .. 8 * i + 8] == BitsOf(bytes[i])
  {
    var n := |bytes| - 1;
    if i < n {
      SerialiseAt(bytes[..n], i);
      assert Serialise(bytes) == Serialise(bytes[..n]) + BitsOf(bytes[n]);
    }
  }

  /** A frame sent byte by byte, most significant bit first. */
  function SendBytes(bytes: seq<bv8>, setup: Delay): (evs: seq<Event>)
    ensures |evs| == 8 * |bytes|
  {
    Sends(Serialise(bytes), setup)
  }

  /** Sending one more byte appends its 8 bits to the frame's events. */
  lemma SendBytesSnoc(bytes: seq<bv8>, b: bv8, setup: Delay)
    ensures SendBytes(bytes + [b], setup) == SendBytes(bytes, setup) + Sends(BitsOf(b), setup)
  {
    assert (bytes + [b])[..|bytes|] == bytes;
    SendsAppend(Serialise(bytes), BitsOf(b), setup);
  }

  // ---------------------------------------------------------------------
  // The chip side: a stream of bits sampled on the data line

  /** The level of the data line at sample `i` of the stream; a stream
      that has run out reads as a low line. */
  predicate Level(line: seq<bool>, i: nat)
  {
    i < |line| && line[i]
  }

  /** The `n` bits the chip drives from stream position `from` on. */
  function Window(line: seq<bool>, from: nat, n: nat): (w: seq<bool>)
    ensures |w| == n
  {
    seq(n, k requires 0 <= k < n => Level(line, from + k))
  }

  lemma WindowSplit(line: seq<bool>, from: nat, m: nat, n: nat)
    ensures Window(line, from, m + n) == Window(line, from, m) + Window(line, from + m, n)
  {
  }

  /** The samples of a window split where the window splits. */
  lemma SamplesWindowSplit(line: seq<bool>, from: nat, m: nat, n: nat)
    ensures Samples(Window(line, from, m + n)) == Samples(Window(line, from, m)) + Samples(Window(line, from + m, n))
  {
    WindowSplit(line, from, m, n);
    SamplesAppend(Window(line, from, m), Window(line, from + m, n));
  }

  lemma WindowSlice(line: seq<bool>, from: nat, n: nat, i: nat, j: nat)
    requires i <= j <= n
    ensures Window(line, from, n)[i..j] == Window(line, from + i, j - i)
  {
  }

  // ---------------------------------------------------------------------
  // Discovery

  /** The 4-bit answer to a discovery probe whose samples start at `from`:
      the samples land on bit values 8, 4, 2, 1. */
  function Response(line: seq<bool>, from: nat): bv8
  {
    Pack(Window(line, from, 4), 4)
  }

  /** A chip acknowledges a probe by driving 1, 1, 0, 0. */
  predicate Acked(line: seq<bool>, from: nat)
  {
    Level(line, from) && Level(line, from + 1) && !Level(line, from + 2) && !Level(line, from + 3)
  }

  /** The firmware's test `chipResponse == 0x0C` holds exactly for an
      acknowledge. */
  lemma ResponseAck(line: seq<bool>, from: nat)
    ensures Response(line, from) & 0xF0 == 0
    ensures Response(line, from) == Ack <==> Acked(line, from)
  {
    var w := Window(line, from, 4);
    LowNibble(w);
    assert w[0] == Level(line, from) && w[1] == Level(line, from + 1);
    assert w[2] == Level(line, from + 2) && w[3] == Level(line, from + 3);
    assert w == [true, true, false, false] <==> Acked(line, from);
  }

  /** Probes `k`..3 in table order, probe `j` sampling at `from + 4j`: the
      number of the first colour that acknowledges, or 0 when none does. */
  function Probed(line: seq<bool>, from: nat, k: nat): (r: nat)
    requires k <= 4
    ensures r <= 4
    decreases 4 - k
  {
    if k == 4 then 0
    else if Acked(line, from + 4 * k) then k + 1
    else Probed(line, from, k + 1)
  }

  /** Discovery answers with the first acknowledged probe: every earlier
      probe was not acknowledged, and 0 means none of them was. */
  lemma {:induction false} ProbedFirst(line: seq<bool>, from: nat, k: nat)
    requires k <= 4
    ensures var r := Probed(line, from, k);
      && (r == 0 || k < r)
      && (r > 0 ==> Acked(line, from + 4 * (r - 1)))
      && forall j :: k <= j < (if r == 0 then 4 else r - 1) ==> !Acked(line, from + 4 * j)
    decreases 4 - k
  {
    if k < 4 && !Acked(line, from + 4 * k) {
      ProbedFirst(line, from, k + 1);
    }
  }

  /** The colour found by discovery: none when the ground-detect input reads
      high, otherwise the first probe that is acknowledged. */
  function Discovered(gndDet: bool, line: seq<bool>, from: nat): (found: nat)
    ensures found <= 4
  {
    if gndDet then 0 else Probed(line, from, 0)
  }

  /** How many probes discovery sends before it stops. */
  function ProbeCount(gndDet: bool, found: nat): nat
  {
    if gndDet then 0 else if found == 0 then 4 else found
  }

  /** One probe on the wire: enable pulse, the 4 high address bits, 4 samples. */
  function ProbeEvents(addr: bv8, response: seq<bool>): seq<Event>
  {
    [Arm] + Sends(BitsOf(addr)[..4], Delay40kHz) + Samples(response)
  }

  /** The events of the first `n` probes of a discovery that samples from
      `from` on. */
  function DiscoveryEvents(line: seq<bool>, from: nat, n: nat): seq<Event>
    requires n <= 4
  {
    if n == 0 then []
    else DiscoveryEvents(line, from, n - 1)
         + ProbeEvents(ReadAddrs[n - 1], Window(line, from + 4 * (n - 1), 4))
  }

  // ---------------------------------------------------------------------
  // The memory image

  /** Image byte `j` as the block read assembles it from the 252 samples:
      byte 0 is the high nibble of the read address with the 4 first samples
      below it, byte j >= 1 is the 8 samples 8j-4 .. 8j+3. */
  function ImageByte(addr: bv8, bits: seq<bool>, j: nat): bv8
    requires |bits| == ImageBits && j < DataReadSize
  {
    if j == 0 then (addr & 0xF0) | Pack(bits[..4], 4)
    else Pack(bits[8 * j - 4 .. 8 * j + 4], 0)
  }

  /** The first `n` image bytes, assembled one after the other. */
  function DecodeBytes(addr: bv8, bits: seq<bool>, n: nat): (img: seq<bv8>)
    requires |bits| == ImageBits && n <= DataReadSize
    ensures |img| == n
  {
    if n == 0 then [] else DecodeBytes(addr, bits, n - 1) + [ImageByte(addr, bits, n - 1)]
  }

  /** Every assembled byte is the image byte of its offset. */
  lemma {:induction false} DecodeBytesAt(addr: bv8, bits: seq<bool>, n: nat, j: nat)
    requires |bits| == ImageBits && j < n <= DataReadSize
    ensures DecodeBytes(addr, bits, n)[j] == ImageByte(addr, bits, j)
  {
    if j < n - 1 {
      DecodeBytesAt(addr, bits, n - 1, j);
    }
  }

  /** The 32-byte image assembled from the samples of one block read. */
  function DecodeImage(addr: bv8, bits: seq<bool>): (img: seq<bv8>)
    requires |bits| == ImageBits
    ensures |img| == DataReadSize
  {
    DecodeBytes(addr, bits, DataReadSize)
  }

  /** The bits a chip drives to deliver an image: the low nibble of byte 0,
      then bytes 1..31 most significant bit first. */
  function EncodeImage(img: seq<bv8>): (bits: seq<bool>)
    requires |img| == DataReadSize
    ensures |bits| == ImageBits
  {
    BitsOf(img[0])[4..] + Serialise(img[1..])
  }

  /** Byte 0 comes back from the address nibble and the 4 encoded bits. */
  lemma DecodeEncodeFirst(addr: bv8, img: seq<bv8>)
    requires |img| == DataReadSize && img[0] & 0xF0 == addr & 0xF0
    ensures ImageByte(addr, EncodeImage(img), 0) == img[0]
  {
    var bits := EncodeImage(img);
    assert bits[..4] == BitsOf(img[0])[4..];
    PackLowNibbleOf(img[0]);
  }

  /** Byte j >= 1 comes back from its 8 encoded bits. */
  lemma DecodeEncodeAt(addr: bv8, img: seq<bv8>, j: nat)
    requires |img| == DataReadSize && 1 <= j < DataReadSize
    ensures ImageByte(addr, EncodeImage(img), j) == img[j]
  {
    var bits := EncodeImage(img);
    SerialiseAt(img[1..], j - 1);
    assert bits[8 * j - 4 .. 8 * j + 4] == Serialise(img[1..])[8 * (j - 1) .. 8 * (j - 1) + 8];
    PackBitsOf(img[j]);
  }

  /** Decoding what a chip encodes gives its image back, provided the image's
      high nibble is the one the reader fills in from the address. */
  lemma DecodeEncode(addr: bv8, img: seq<bv8>)
    requires |img| == DataReadSize && img[0] & 0xF0 == addr & 0xF0
    ensures DecodeImage(addr, EncodeImage(img)) == img
  {
    forall j | 0 <= j < DataReadSize
      ensures DecodeImage(addr, EncodeImage(img))[j] == img[j]
    {
      DecodeBytesAt(addr, EncodeImage(img), DataReadSize, j);
      if j == 0 {
        DecodeEncodeFirst(addr, img);
      } else {
        DecodeEncodeAt(addr, img, j);
      }
    }
  }

  /** The image the reader assembles byte by byte, from the 4 samples at
      `at` and then 8 samples per byte, is the image decoded from the
      whole window. */
  lemma DecodeWindows(addr: bv8, line: seq<bool>, at: nat, img: seq<bv8>)
    requires |img| == DataReadSize
    requires img[0] == (addr & 0xF0) | Pack(Window(line, at, 4), 4)
    requires forall k :: 1 <= k < DataReadSize ==> img[k] == Pack(Window(line, at + 4 + 8 * (k - 1), 8), 0)
    ensures img == DecodeImage(addr, Window(line, at, ImageBits))
  {
    var bits := Window(line, at, ImageBits);
    forall j | 0 <= j < DataReadSize
      ensures img[j] == DecodeImage(addr, bits)[j]
    {
      DecodeBytesAt(addr, bits, DataReadSize, j);
      if j == 0 {
        WindowSlice(line, at, ImageBits, 0, 4);
      } else {
        WindowSlice(line, at, ImageBits, 8 * j - 4, 8 * j + 4);
      }
    }
  }

  /** The image offsets the validator compares. */
  const CheckedOffsets: set<nat> := {0, 12, 13, 21, 22, 23}

  /** The value the validator expects at a checked offset for a colour. */
  function Expected(c: Colour, j: nat): bv8
    requires j in CheckedOffsets
  {
    if j == 0 then DataToCheck[c - 1]
    else if j == 12 then DataToCheck[3 + c]
    else if j == 13 then DataToCheck[7 + c]
    else DataToCheck[j - 9]
  }

  /** An image is accepted for a colour when byte 0, bytes 12 and 13 and
      bytes 21, 22 and 23 hold the table's values for that colour. */
  predicate ImageValid(img: seq<bv8>, c: Colour)
    requires |img| == DataReadSize
  {
    && img[0] == DataToCheck[c - 1] && img[12] == DataToCheck[3 + c] && img[13] == DataToCheck[7 + c]
    && img[21] == DataToCheck[12] && img[22] == DataToCheck[13] && img[23] == DataToCheck[14]
  }

  /** Acceptance is exactly agreement with the expected value at every
      checked offset. */
  lemma ImageValidOffsets(img: seq<bv8>, c: Colour)
    requires |img| == DataReadSize
    ensures ImageValid(img, c) <==> forall j :: j in CheckedOffsets ==> img[j] == Expected(c, j)
  {
    assert Expected(c, 0) == DataToCheck[c - 1] && Expected(c, 12) == DataToCheck[3 + c];
    assert Expected(c, 13) == DataToCheck[7 + c] && Expected(c, 21) == DataToCheck[12];
    assert Expected(c, 22) == DataToCheck[13] && Expected(c, 23) == DataToCheck[14];
  }

  /** The expected first byte of every colour is its read address's high
      nibble combined with the acknowledge nibble. */
  lemma AckByteTable(c: Colour)
    ensures DataToCheck[c - 1] == (ReadAddrs[c - 1] & 0xF0) | Ack
  {
  }

  /** What acceptance means in concrete bytes: the acknowledge byte, the two
      colour bytes at offsets 12 and 13, and the trailer 12, 98, 39 at
      offsets 21, 22, 23. */
  lemma ImageValidBytes(img: seq<bv8>, c: Colour)
    requires |img| == DataReadSize
    ensures ImageValid(img, c) <==>
      && img[0] == (ReadAddrs[c - 1] & 0xF0) | Ack
      && img[12] == [195, 67, 131, 3][c - 1]
      && img[13] == [101, 103, 102, 104][c - 1]
      && img[21..24] == [12, 98, 39]
  {
    if img[21..24] == [12, 98, 39] {
      assert img[21] == img[21..24][0] && img[22] == img[21..24][1] && img[23] == img[21..24][2];
    }
  }

  /** Changing one byte that is checked makes a valid image invalid;
      changing any other byte does not affect acceptance. */
  lemma ValidatorSensitivity(img: seq<bv8>, c: Colour, j: nat, v: bv8)
    requires |img| == DataReadSize && j < DataReadSize
    ensures j in CheckedOffsets && ImageValid(img, c) && v != img[j] ==> !ImageValid(img[j := v], c)
    ensures j !in CheckedOffsets ==> ImageValid(img[j := v], c) == ImageValid(img, c)
  {
    ImageValidOffsets(img, c);
    ImageValidOffsets(img[j := v], c);
    if j !in CheckedOffsets {
      assert forall i :: i in CheckedOffsets ==> img[j := v][i] == img[i];
    }
  }

  /** The first byte of a decoded image is accepted exactly when the chip's
      4 acknowledge samples are 1, 1, 0, 0. */
  lemma AckSamples(c: Colour, bits: seq<bool>)
    requires |bits| == ImageBits
    ensures DecodeImage(ReadAddrs[c - 1], bits)[0] == DataToCheck[c - 1]
            <==> bits[..4] == [true, true, false, false]
  {
    var addr := ReadAddrs[c - 1];
    var p := Pack(bits[..4], 4);
    LowNibble(bits[..4]);
    DecodeBytesAt(addr, bits, DataReadSize, 0);
    assert DecodeImage(addr, bits)[0] == (addr & 0xF0) | p;
    AckByteTable(c);
    assert (addr & 0xF0) | p == (addr & 0xF0) | Ack <==> p == Ack;
  }

  // ---------------------------------------------------------------------
  // The reset payload

  /** The 4 bytes written back: image bytes 1..4 with the last of them, the
      ink usage counter, forced to zero. */
  function Payload(img: seq<bv8>): (p: seq<bv8>)
    requires |img| == DataReadSize
    ensures |p| == DataWriteSize
  {
    img[1..5][3 := 0]
  }

  /** The payload keeps image bytes 1, 2 and 3, zeroes the counter, and does
      not depend on byte 0 or on bytes 5..31. */
  lemma PayloadFrom(img: seq<bv8>, other: seq<bv8>)
    requires |img| == DataReadSize && |other| == DataReadSize
    ensures Payload(img) == img[1..4] + [0]
    ensures other[1..4] == img[1..4] ==> Payload(other) == Payload(img)
  {
  }

  /** A write is verified when the reread image is accepted and carries the
      payload at offsets 1..4. */
  predicate WriteVerified(reread: seq<bv8>, c: Colour, payload: seq<bv8>)
    requires |reread| == DataReadSize
  {
    ImageValid(reread, c) && reread[1..5] == payload
  }

  /** Resetting a chip whose previous reset was verified writes the same
      payload again. */
  lemma PayloadIdempotent(img: seq<bv8>, reread: seq<bv8>, c: Colour)
    requires |img| == DataReadSize && |reread| == DataReadSize
    requires WriteVerified(reread, c, Payload(img))
    ensures Payload(reread) == Payload(img)
  {
    assert reread[4] == 0;
  }

  /** The image a block read for colour `c` decodes from the stream at `at`. */
  function ReadImage(line: seq<bool>, at: nat, c: Colour): seq<bv8>
  {
    DecodeImage(ReadAddrs[c - 1], Window(line, at, ImageBits))
  }

  /** A block read on the wire: enable pulse, the 4 high bits of the read
      address, then every sample of the image. */
  function ReadEvents(c: Colour, bits: seq<bool>): seq<Event>
  {
    [Arm] + Sends(BitsOf(ReadAddrs[c - 1])[..4], Delay40kHz) + Samples(bits)
  }

  /** A block read seen as its address phase with the first 4 samples,
      followed by the samples of bytes 1..31. */
  lemma ReadEventsSplit(t: seq<Event>, c: Colour, line: seq<bool>, at: nat)
    ensures t + [Arm] + Sends(BitsOf(ReadAddrs[c - 1])[..4], Delay40kHz) + Samples(Window(line, at, 4))
              + Samples(Window(line, at + 4, 8 * (DataReadSize - 1)))
            == t + ReadEvents(c, Window(line, at, ImageBits))
  {
    SamplesWindowSplit(line, at, 4, 8 * (DataReadSize - 1));
    AppendAssoc3(t + [Arm], Sends(BitsOf(ReadAddrs[c - 1])[..4], Delay40kHz),
                 Samples(Window(line, at, 4)), Samples(Window(line, at + 4, 8 * (DataReadSize - 1))));
  }

  /** A counter write on the wire: enable pulse, all 8 bits of the write
      address and the 4 payload bytes, every bit at the slow write delay. */
  function WriteEvents(c: Colour, payload: seq<bv8>): seq<Event>
  {
    [Arm] + Sends(BitsOf(WriteAddrs[c - 1]), Delay10kHz) + SendBytes(payload, Delay10kHz)
  }

  /** A counter write as the writer sends it: the address byte, then the
      payload bytes. */
  lemma WriteEventsSplit(t: seq<Event>, c: Colour, payload: seq<bv8>)
    ensures t + [Arm] + Sends(BitsOf(WriteAddrs[c - 1]), Delay10kHz) + SendBytes(payload, Delay10kHz)
            == t + WriteEvents(c, payload)
  {
    AppendAssoc3(t, [Arm], Sends(BitsOf(WriteAddrs[c - 1]), Delay10kHz), SendBytes(payload, Delay10kHz));
  }

  /** A header or trailer frame on the wire. */
  function FrameEvents(frame: seq<bv8>): seq<Event>
  {
    [Arm] + SendBytes(frame, Delay40kHz)
  }

  /** Byte `i` of a frame goes out as events 1 + 8i .. 8 + 8i, right
      after the enable pulse, most significant bit first at the fast delay. */
  lemma FrameByte(frame: seq<bv8>, i: nat)
    requires i < |frame|
    ensures FrameEvents(frame)[0] == Arm
    ensures FrameEvents(frame)[1 + 8 * i .. 9 + 8 * i] == Sends(BitsOf(frame[i]), Delay40kHz)
  {
    var bits := Serialise(frame);
    SerialiseAt(frame, i);
    assert FrameEvents(frame)[1 + 8 * i .. 9 + 8 * i] == Sends(bits, Delay40kHz)[8 * i .. 8 * i + 8];
  }

  // ---------------------------------------------------------------------
  // One button press

  /** The argument pair the firmware hands to its LED reporter, or no
      report when the button was not pressed. */
  datatype Report = NoCycle | Blink(mode: nat, errorMode: nat)

  /** How a cycle ends: the stage that stopped it. */
  datatype Stage = NotFound | ReadInvalid(c: Colour) | WriteFailed(c: Colour) | Reset(c: Colour)

  /** How a cycle ends once discovery found colour `c` and the block read
      samples from stream position `at` on. */
  function FoundStage(c: Colour, line: seq<bool>, at: nat): Stage
  {
    var img := ReadImage(line, at, c);
    if !ImageValid(img, c) then ReadInvalid(c)
    else if WriteVerified(ReadImage(line, at + ImageBits, c), c, Payload(img)) then Reset(c)
    else WriteFailed(c)
  }

  /** The stages of one cycle, run against a chip that drives `line` from
      stream position `from` on. */
  function CycleStage(gndDet: bool, line: seq<bool>, from: nat): Stage
  {
    var found := Discovered(gndDet, line, from);
    if found == 0 then NotFound else FoundStage(found, line, from + 4 * found)
  }

  /** The LED report of each stage: error 1, 2 or 3, or the reset colour. */
  function StageReport(s: Stage): (r: Report)
    ensures r.Blink?
    ensures r.mode == 0 <==> !s.Reset?
    ensures s.Reset? ==> r.errorMode == 0 && 1 <= r.mode <= 4
  {
    match s
    case NotFound => Blink(0, 1)
    case ReadInvalid(_) => Blink(0, 2)
    case WriteFailed(_) => Blink(0, 3)
    case Reset(c) => Blink(c, 0)
  }

  /** The events after discovery found colour `c`: the block read, then
      the counter write and the reread once that image is accepted. */
  function FoundEvents(c: Colour, line: seq<bool>, at: nat): seq<Event>
  {
    var img := ReadImage(line, at, c);
    var read := ReadEvents(c, Window(line, at, ImageBits));
    if !ImageValid(img, c) then read
    else read + WriteEvents(c, Payload(img)) + ReadEvents(c, Window(line, at + ImageBits, ImageBits))
  }

  /** The stages after discovery when the block read is rejected: only
      that read, reported as error 2. */
  lemma FoundInvalid(c: Colour, line: seq<bool>, at: nat, t: seq<Event>)
    requires !ImageValid(ReadImage(line, at, c), c)
    ensures StageReport(FoundStage(c, line, at)) == Blink(0, 2)
    ensures t + FoundEvents(c, line, at) == t + ReadEvents(c, Window(line, at, ImageBits))
    ensures FoundBits(c, line, at) == ImageBits
  {
  }

  /** The stages after discovery when the block read of `img` is
      accepted: the read, the counter write and the reread from `at2` on,
      reported as the colour or as error 3. */
  lemma FoundValid(c: Colour, line: seq<bool>, at: nat, at2: nat, img: seq<bv8>, t: seq<Event>)
    requires img == ReadImage(line, at, c) && at2 == at + ImageBits && ImageValid(img, c)
    ensures StageReport(FoundStage(c, line, at))
            == if WriteVerified(ReadImage(line, at2, c), c, Payload(img)) then Blink(c, 0) else Blink(0, 3)
    ensures t + FoundEvents(c, line, at)
            == t + ReadEvents(c, Window(line, at, ImageBits)) + WriteEvents(c, Payload(img))
               + ReadEvents(c, Window(line, at2, ImageBits))
    ensures FoundBits(c, line, at) == 2 * ImageBits
  {
    AppendAssoc3(t, ReadEvents(c, Window(line, at, ImageBits)), WriteEvents(c, Payload(img)),
                 ReadEvents(c, Window(line, at2, ImageBits)));
  }

  /** Every event of one cycle between its header and trailer frames. */
  function StageEvents(gndDet: bool, line: seq<bool>, from: nat): seq<Event>
  {
    var found := Discovered(gndDet, line, from);
    var discovery := DiscoveryEvents(line, from, ProbeCount(gndDet, found));
    if found == 0 then discovery else discovery + FoundEvents(found, line, from + 4 * found)
  }

  /** A cycle that finds no chip: discovery only, reported as error 1. */
  lemma StagesNotFound(gndDet: bool, line: seq<bool>, from: nat, t: seq<Event>)
    requires Discovered(gndDet, line, from) == 0
    ensures StageReport(CycleStage(gndDet, line, from)) == Blink(0, 1)
    ensures t + StageEvents(gndDet, line, from) == t + DiscoveryEvents(line, from, ProbeCount(gndDet, 0))
    ensures CycleBits(gndDet, line, from) == 4 * ProbeCount(gndDet, 0)
  {
  }

  /** A cycle that finds colour `found` ends as the stages after discovery
      do, run from the stream position `at` where discovery stopped. */
  lemma StagesFoundStage(gndDet: bool, line: seq<bool>, from: nat, found: nat, at: nat)
    requires found == Discovered(gndDet, line, from) && found != 0 && at == from + 4 * found
    ensures CycleStage(gndDet, line, from) == FoundStage(found, line, at)
  {
  }

  /** The buffers after such a cycle are those the stages after discovery
      leave. */
  lemma StagesFoundBuffers(gndDet: bool, line: seq<bool>, from: nat, found: nat, at: nat,
                           read: seq<bv8>, write: seq<bv8>)
    requires found == Discovered(gndDet, line, from) && found != 0 && at == from + 4 * found
    ensures StageBuffers(gndDet, line, from, read, write) == FoundBuffers(found, line, at, write)
  {
  }

  /** The events between the frames of such a cycle: discovery, then the
      stages after it. */
  lemma StagesFoundSplit(gndDet: bool, line: seq<bool>, from: nat, found: nat, at: nat)
    requires found == Discovered(gndDet, line, from) && found != 0 && at == from + 4 * found
    ensures StageEvents(gndDet, line, from) == DiscoveryEvents(line, from, found) + FoundEvents(found, line, at)
  {
    assert !gndDet && ProbeCount(gndDet, found) == found;
  }

  /** The same events appended to a trace. */
  lemma StagesFoundEvents(gndDet: bool, line: seq<bool>, from: nat, found: nat, at: nat, t: seq<Event>)
    requires found == Discovered(gndDet, line, from) && found != 0 && at == from + 4 * found
    ensures t + StageEvents(gndDet, line, from)
            == t + DiscoveryEvents(line, from, ProbeCount(gndDet, found)) + FoundEvents(found, line, at)
  {
    StagesFoundSplit(gndDet, line, from, found, at);
    AppendAssoc(t, DiscoveryEvents(line, from, found), FoundEvents(found, line, at));
  }

  /** The stream bits such a cycle samples: 4 per probe, then those of the
      stages after discovery. */
  lemma StagesFoundBits(gndDet: bool, line: seq<bool>, from: nat, found: nat, at: nat)
    requires found == Discovered(gndDet, line, from) && found != 0 && at == from + 4 * found
    ensures CycleBits(gndDet, line, from) == 4 * ProbeCount(gndDet, found) + FoundBits(found, line, at)
  {
  }

  /** Every event of one cycle, header frame to trailer frame. */
  function CycleEvents(gndDet: bool, line: seq<bool>, from: nat): seq<Event>
  {
    FrameEvents(StartData) + StageEvents(gndDet, line, from) + FrameEvents(EndData)
  }

  // ---------------------------------------------------------------------
  // Which cycles write to the chip

  /** A bit clocked out at the slow write delay: only the counter write
      sends those. */
  predicate IsWriteBit(e: Event)
  {
    e.Send? && e.setup == Delay10kHz
  }

  /** How many bits `evs` clocks out at the write delay. */
  function WriteBitCount(evs: seq<Event>): (n: nat)
    ensures n <= |evs|
  {
    if evs == [] then 0
    else WriteBitCount(evs[..|evs| - 1]) + (if IsWriteBit(evs[|evs| - 1]) then 1 else 0)
  }

  lemma {:induction false} WriteBitCountAppend(a: seq<Event>, b: seq<Event>)
    ensures WriteBitCount(a + b) == WriteBitCount(a) + WriteBitCount(b)
    decreases |b|
  {
    if b != [] {
      var n := |b| - 1;
      assert (a + b)[..|a + b| - 1] == a + b[..n];
      assert (a + b)[|a + b| - 1] == b[n];
      assert WriteBitCount(b) == WriteBitCount(b[..n]) + (if IsWriteBit(b[n]) then 1 else 0);
      WriteBitCountAppend(a, b[..n]);
    } else {
      assert a + b == a;
    }
  }

  /** Every event of `evs` is a sample, an enable pulse or a bit at the
      fast delay. */
  lemma {:induction false} NoWriteBits(evs: seq<Event>)
    requires forall k :: 0 <= k < |evs| ==> !IsWriteBit(evs[k])
    ensures WriteBitCount(evs) == 0
    decreases |evs|
  {
    if evs != [] {
      NoWriteBits(evs[..|evs| - 1]);
    }
  }

  /** Bits sent at the write delay are all counted. */
  lemma {:induction false} AllWriteBits(bits: seq<bool>)
    ensures WriteBitCount(Sends(bits, Delay10kHz)) == |bits|
    decreases |bits|
  {
    if bits != [] {
      var n := |bits| - 1;
      assert Sends(bits, Delay10kHz)[..n] == Sends(bits[..n], Delay10kHz);
      AllWriteBits(bits[..n]);
    }
  }

  /** Discovery, a block read and a frame clock nothing out at the write
      delay. */
  lemma {:induction false} DiscoveryWriteBits(line: seq<bool>, from: nat, n: nat)
    requires n <= 4
    ensures WriteBitCount(DiscoveryEvents(line, from, n)) == 0
    decreases n
  {
    if n > 0 {
      DiscoveryWriteBits(line, from, n - 1);
      var probe := ProbeEvents(ReadAddrs[n - 1], Window(line, from + 4 * (n - 1), 4));
      NoWriteBits(probe);
      WriteBitCountAppend(DiscoveryEvents(line, from, n - 1), probe);
    }
  }

  lemma ReadWriteBits(c: Colour, bits: seq<bool>)
    ensures WriteBitCount(ReadEvents(c, bits)) == 0
  {
    NoWriteBits(ReadEvents(c, bits));
  }

  lemma FrameWriteBits(frame: seq<bv8>)
    ensures WriteBitCount(FrameEvents(frame)) == 0
  {
    NoWriteBits(FrameEvents(frame));
  }

  /** The counter write clocks out 8 address bits and 8 bits per payload
      byte, all at the write delay: 40 bits for the 4-byte payload. */
  lemma WriteEventsBits(c: Colour, payload: seq<bv8>)
    ensures WriteBitCount(WriteEvents(c, payload)) == 8 + 8 * |payload|
  {
    var addrBits := Sends(BitsOf(WriteAddrs[c - 1]), Delay10kHz);
    NoWriteBits([Arm]);
    AllWriteBits(BitsOf(WriteAddrs[c - 1]));
    AllWriteBits(Serialise(payload));
    WriteBitCountAppend([Arm], addrBits);
    WriteBitCountAppend([Arm] + addrBits, SendBytes(payload, Delay10kHz));
  }

  /** The stages after discovery clock out the 40 bits of the counter
      write exactly when the image read is accepted. */
  lemma FoundWriteBits(c: Colour, line: seq<bool>, at: nat)
    ensures WriteBitCount(FoundEvents(c, line, at))
            == if ImageValid(ReadImage(line, at, c), c) then 8 + 8 * DataWriteSize else 0
  {
    var img := ReadImage(line, at, c);
    var read := ReadEvents(c, Window(line, at, ImageBits));
    ReadWriteBits(c, Window(line, at, ImageBits));
    if ImageValid(img, c) {
      var write := WriteEvents(c, Payload(img));
      var reread := ReadEvents(c, Window(line, at + ImageBits, ImageBits));
      WriteEventsBits(c, Payload(img));
      ReadWriteBits(c, Window(line, at + ImageBits, ImageBits));
      WriteBitCountAppend(read, write);
      WriteBitCountAppend(read + write, reread);
    }
  }

  /** The stages between the frames clock out the counter write exactly
      when a chip is found and its image accepted. */
  lemma StageWriteBits(gndDet: bool, line: seq<bool>, from: nat)
    ensures var s := CycleStage(gndDet, line, from);
      WriteBitCount(StageEvents(gndDet, line, from))
      == if s.NotFound? || s.ReadInvalid? then 0 else 8 + 8 * DataWriteSize
  {
    var found := Discovered(gndDet, line, from);
    if found == 0 {
      DiscoveryWriteBits(line, from, ProbeCount(gndDet, 0));
      assert StageEvents(gndDet, line, from) == DiscoveryEvents(line, from, ProbeCount(gndDet, 0));
    } else {
      var at := from + 4 * found;
      StagesFoundStage(gndDet, line, from, found, at);
      StagesFoundWriteBits(gndDet, line, from, found, at);
      DiscoveryWriteBits(line, from, found);
      FoundWriteBits(found, line, at);
    }
  }

  /** The write bits of a cycle that finds colour `found`: those of
      discovery and those of the stages after it. */
  lemma StagesFoundWriteBits(gndDet: bool, line: seq<bool>, from: nat, found: nat, at: nat)
    requires found == Discovered(gndDet, line, from) && found != 0 && at == from + 4 * found
    ensures WriteBitCount(StageEvents(gndDet, line, from))
            == WriteBitCount(DiscoveryEvents(line, from, found)) + WriteBitCount(FoundEvents(found, line, at))
  {
    StagesFoundSplit(gndDet, line, from, found, at);
    WriteBitCountAppend(DiscoveryEvents(line, from, found), FoundEvents(found, line, at));
  }

  /** A cycle writes to the chip only once the image it read is accepted:
      no bit at the write delay when no chip is found or the image is
      rejected, and exactly the 40 bits of address and payload otherwise. */
  lemma CycleWriteBits(gndDet: bool, line: seq<bool>, from: nat)
    ensures var s := CycleStage(gndDet, line, from);
      WriteBitCount(CycleEvents(gndDet, line, from))
      == if s.NotFound? || s.ReadInvalid? then 0 else 8 + 8 * DataWriteSize
  {
    var body := StageEvents(gndDet, line, from);
    StageWriteBits(gndDet, line, from);
    FrameWriteBits(StartData);
    FrameWriteBits(EndData);
    WriteBitCountAppend(FrameEvents(StartData), body);
    WriteBitCountAppend(FrameEvents(StartData) + body, FrameEvents(EndData));
  }

  // ---------------------------------------------------------------------
  // An honest chip

  /** A stream that holds `bits` from position `from` on shows them in the
      window there. */
  lemma WindowOf(line: seq<bool>, from: nat, bits: seq<bool>)
    requires from + |bits| <= |line| && line[from..from + |bits|] == bits
    ensures Window(line, from, |bits|) == bits
  {
    forall k | 0 <= k < |bits|
      ensures Window(line, from, |bits|)[k] == bits[k]
    {
      assert line[from..from + |bits|][k] == line[from + k];
      assert Window(line, from, |bits|)[k] == Level(line, from + k);
    }
  }

  /** Discovery stops at the first acknowledged probe past `k`. */
  lemma {:induction false} ProbedAt(line: seq<bool>, from: nat, k: nat, c: Colour)
    requires k < c
    requires forall j :: k <= j < c - 1 ==> !Acked(line, from + 4 * j)
    requires Acked(line, from + 4 * (c - 1))
    ensures Probed(line, from, k) == c
    decreases c - k
  {
    if k < c - 1 {
      ProbedAt(line, from, k + 1, c);
    }
  }

  /** The stream of a chip of colour `c` over one cycle: silent through
      the probes of the earlier colours, the acknowledge 1, 1, 0, 0, then
      the image `img` for the block read and `img2` for the reread. */
  function HonestStream(c: Colour, img: seq<bv8>, img2: seq<bv8>): seq<bool>
    requires |img| == DataReadSize && |img2| == DataReadSize
  {
    seq(4 * (c - 1), _ => false) + [true, true, false, false] + EncodeImage(img) + EncodeImage(img2)
  }

  /** A validated image carries the read address' chip number in its high
      nibble, so it round-trips through the block read. */
  lemma ValidImageAddress(img: seq<bv8>, c: Colour)
    requires |img| == DataReadSize && ImageValid(img, c)
    ensures img[0] & 0xF0 == ReadAddrs[c - 1] & 0xF0
  {
  }

  /** The stream an honest chip sends is read back as the image it holds. */
  lemma HonestRead(c: Colour, img: seq<bv8>, img2: seq<bv8>)
    requires |img| == DataReadSize && |img2| == DataReadSize
    requires ImageValid(img, c) && ImageValid(img2, c)
    ensures ReadImage(HonestStream(c, img, img2), 4 * c, c) == img
    ensures ReadImage(HonestStream(c, img, img2), 4 * c + ImageBits, c) == img2
  {
    var line := HonestStream(c, img, img2);
    var head := seq(4 * (c - 1), _ => false) + [true, true, false, false];
    assert line == head + EncodeImage(img) + EncodeImage(img2);
    assert line[4 * c..4 * c + ImageBits] == EncodeImage(img);
    assert line[4 * c + ImageBits..4 * c + 2 * ImageBits] == EncodeImage(img2);
    WindowOf(line, 4 * c, EncodeImage(img));
    WindowOf(line, 4 * c + ImageBits, EncodeImage(img2));
    ValidImageAddress(img, c);
    ValidImageAddress(img2, c);
    DecodeEncode(ReadAddrs[c - 1], img);
    DecodeEncode(ReadAddrs[c - 1], img2);
  }

  /** A chip of colour `c` that holds an accepted image, and shows the
      payload on the reread, is found as colour `c` and reset: the cycle
      ends blinking the colour. */
  lemma HonestChipReset(c: Colour, img: seq<bv8>, img2: seq<bv8>)
    requires |img| == DataReadSize && |img2| == DataReadSize
    requires ImageValid(img, c) && ImageValid(img2, c) && img2[1..5] == Payload(img)
    ensures Discovered(false, HonestStream(c, img, img2), 0) == c
    ensures CycleStage(false, HonestStream(c, img, img2), 0) == Reset(c)
    ensures StageReport(CycleStage(false, HonestStream(c, img, img2), 0)) == Blink(c, 0)
  {
    var line := HonestStream(c, img, img2);
    forall j | 0 <= j < c - 1
      ensures !Acked(line, 4 * j)
    {
      assert line[4 * j] == false;
    }
    assert line[4 * (c - 1)..4 * c] == [true, true, false, false];
    assert line[4 * (c - 1)] && line[4 * (c - 1) + 1] && !line[4 * (c - 1) + 2] && !line[4 * (c - 1) + 3];
    ProbedAt(line, 0, 0, c);
    HonestRead(c, img, img2);
  }

  /** The read and write buffers after the stages that follow discovery of
      colour `c`: a rejected image stays in the read buffer and the write
      buffer keeps `write`; an accepted one leaves its payload in the write
      buffer and the reread image in the read buffer. */
  function FoundBuffers(c: Colour, line: seq<bool>, at: nat, write: seq<bv8>): (seq<bv8>, seq<bv8>)
  {
    var img := ReadImage(line, at, c);
    if ImageValid(img, c) then (ReadImage(line, at + ImageBits, c), Payload(img)) else (img, write)
  }

  /** The read and write buffers after the stages of one cycle; a cycle
      that finds no chip leaves both as they were. */
  function StageBuffers(gndDet: bool, line: seq<bool>, from: nat, read: seq<bv8>, write: seq<bv8>)
    : (seq<bv8>, seq<bv8>)
  {
    var found := Discovered(gndDet, line, from);
    if found == 0 then (read, write) else FoundBuffers(found, line, from + 4 * found, write)
  }

  /** How many stream bits the stages after discovery sample. */
  function FoundBits(c: Colour, line: seq<bool>, at: nat): nat
  {
    if !ImageValid(ReadImage(line, at, c), c) then ImageBits else 2 * ImageBits
  }

  /** How many stream bits one cycle samples. */
  function CycleBits(gndDet: bool, line: seq<bool>, from: nat): nat
  {
    var found := Discovered(gndDet, line, from);
    if found == 0 then 4 * ProbeCount(gndDet, found)
    else 4 * found + FoundBits(found, line, from + 4 * found)
  }
}
