# Cartridge chip resetters

A model of three cartridge-chip resetter firmwares. Each resets a printer
cartridge chip when a button is pressed.

- **EPSON DX4050** (`dx4050_spec.dfy`, `dx4050.dfy`, `bits.dfy`, `port.dfy`).
  The firmware bit-bangs the chip protocol over three lines of port C:
  enable, clock and data. On a button press it:
  - sends a header frame;
  - probes the four colour read addresses for a 4-bit acknowledge, unless
    the ground-detect input reads high;
  - reads the chip's 32-byte memory image;
  - validates the image against the `dataToCheck` table;
  - writes back 4 bytes with the ink usage counter zeroed, then re-reads and
    compares;
  - reports the outcome and sends a trailer frame;
  - clears both buffers.
- **RICOH SG2100N** (`sg2100n.dfy`). The resetter searches five i2c addresses
  for a gel chip or a waste-tank chip and checks the two type bytes. For a
  gel chip it runs a fixed script of writes (ink level 100, runs of 0x00 and
  0xFF bytes); for a waste-tank chip it zeroes three ranges. It then reads
  the written bytes back.
- **RICOH SP112** (`sp112.dfy`). The resetter checks the cartridge type,
  writes the standard type, the toner levels, the EDP code "407166" and runs
  of zeros, then reads them back.

How each part is modelled:

- **EPSON DX4050.**
  - `Dx4050.ChipLink` is a class that holds:
    - the firmware's globals and the two buffers, as arrays;
    - `PORTC` and `DDRC` as `bv8`;
    - a trace of every enable pulse, bit sent (tagged with its setup delay)
      and bit sampled;
    - the connected chip, as the stream of levels it drives on the data line.
  - Every routine is a method proved against a pure description in
    `Dx4050Spec`. The description gives the events of a whole button press,
    the decoded image, the validator, the payload rule and the stage that
    ends a press.
- **RICOH SG2100N and SP112.**
  - The i2c master library these files call is modelled as `Eeprom.Bus`: a
    set of acknowledging device addresses, 256 bytes of memory, and an
    address pointer that counts up in 8 bits.
  - The resetter classes model the firmware on top of it.
  - Each `RunCycle` is proved equal to a pure `Cycle` function. Lemmas about
    `Cycle` show which addresses the script writes and that each script
    passes its own read-back on a chip that keeps what is written.

Notes where the code and its comments disagree (the model follows the code):

- Discovery drives the data line as an output again after a chip answers
  (lines 169 and 176 of the DX4050 file). The comment at line 177 says the
  line stays an input.
- The three trailer bytes the DX4050 validator checks are image offsets 21,
  22 and 23 (`9 + i` for `i` = 14..12). They are not the last bytes of the
  32-byte image.

## Model

| member | source | states |
|---|---|---|
| Bits.WeightHalf | EPSON/DX4050/FIRMWARE/DX4050_CHIP_RESETTER.c:139-153 | Halving the loop mask walks to the next bit position. `i > 8` stops after the 4 high bits; `i > 0` stops after all 8. |
| Bits.BitsOfAt | EPSON/DX4050/FIRMWARE/DX4050_CHIP_RESETTER.c:348-358 | Position k of a byte's MSB-first serialisation is the `temp & i` test with the mask of that position. |
| Bits.PackBitsOf | EPSON/DX4050/FIRMWARE/DX4050_CHIP_RESETTER.c:231-243 | Sampling the 8 bits a byte was sent as gives the byte back (round trip of send and receive). |
| Bits.BitsOfPack | EPSON/DX4050/FIRMWARE/DX4050_CHIP_RESETTER.c:231-243 | Sending a received byte reproduces the 8 samples (the other direction of the round trip). |
| Bits.LowNibble | EPSON/DX4050/FIRMWARE/DX4050_CHIP_RESETTER.c:157-171 | A 4-sample response has a clear high nibble, and it equals the acknowledge 0x0C exactly for the samples 1, 1, 0, 0. |
| Bits.PackLowNibbleOf | EPSON/DX4050/FIRMWARE/DX4050_CHIP_RESETTER.c:215-227 | Receiving a byte's low 4 bits into positions 4..7 gives its low nibble. |
| Port.Raise | EPSON/DX4050/FIRMWARE/DX4050_CHIP_RESETTER.c:420 | `chipPrt \|= (1 << line)` drives that line high and changes no other line and no other port bit. |
| Port.Lower | EPSON/DX4050/FIRMWARE/DX4050_CHIP_RESETTER.c:422 | `chipPrt &= ~(1 << line)` drives that line low and changes no other line and no other port bit. |
| Dx4050Spec.SerialiseAt | EPSON/DX4050/FIRMWARE/DX4050_CHIP_RESETTER.c:345-365 | Byte i of a frame occupies bits 8i..8i+7 of the serialised stream, MSB first. |
| Dx4050Spec.ResponseAck | EPSON/DX4050/FIRMWARE/DX4050_CHIP_RESETTER.c:157-171 | A probe response is below 0x10, and it is 0x0C exactly when the chip acknowledged. |
| Dx4050Spec.ProbedFirst | EPSON/DX4050/FIRMWARE/DX4050_CHIP_RESETTER.c:135-182 | Discovery returns index+1 of the first acknowledged probe in table order; every earlier probe was not acknowledged; 0 means no probe was. |
| Dx4050Spec.Discovered | EPSON/DX4050/FIRMWARE/DX4050_CHIP_RESETTER.c:124-183 | The colour found is in 0..4. |
| Dx4050Spec.ProbedAt | EPSON/DX4050/FIRMWARE/DX4050_CHIP_RESETTER.c:135-182 | If probes before c miss and probe c acknowledges, discovery answers c. |
| Dx4050Spec.DecodeEncode | EPSON/DX4050/FIRMWARE/DX4050_CHIP_RESETTER.c:213-245 | Decoding the 252 bits a chip sends for an image gives that image back when its high nibble matches the read address. |
| Dx4050Spec.DecodeWindows | EPSON/DX4050/FIRMWARE/DX4050_CHIP_RESETTER.c:213-245 | Byte 0 = `(readAddr & 0xF0) \| nibble` and bytes 1..31 = 8 samples each, MSB first, is exactly the decoded image of the sampled window. |
| Dx4050Spec.AddressesDistinct | EPSON/DX4050/FIRMWARE/DX4050_CHIP_RESETTER.c:18-26 | No read address is a write address; the four colours share no address; their read addresses differ in the high nibble, the part the firmware keeps in image byte 0. |
| Dx4050Spec.AckByteTable | EPSON/DX4050/FIRMWARE/DX4050_CHIP_RESETTER.c:52 | `dataToCheck[c-1]` is the colour's read-address high nibble joined with the acknowledge 0x0C. |
| Dx4050Spec.AckSamples | EPSON/DX4050/FIRMWARE/DX4050_CHIP_RESETTER.c:250-253 | Image byte 0 passes the first check exactly when the 4 acknowledge samples are 1, 1, 0, 0. |
| Dx4050Spec.ImageValidOffsets | EPSON/DX4050/FIRMWARE/DX4050_CHIP_RESETTER.c:250-265 | The validator accepts exactly when every checked offset (0, 12, 13, 21, 22, 23) holds the byte the table expects for the colour. |
| Dx4050Spec.ImageValidBytes | EPSON/DX4050/FIRMWARE/DX4050_CHIP_RESETTER.c:250-265 | Acceptance in bytes: the acknowledge byte, `dataToCheck[3+c]` at 12, `dataToCheck[7+c]` at 13, and 12, 98, 39 at 21..23. |
| Dx4050Spec.ValidatorSensitivity | EPSON/DX4050/FIRMWARE/DX4050_CHIP_RESETTER.c:250-265 | Changing a checked byte of a valid image makes it invalid; changing any other byte never changes acceptance. |
| Dx4050Spec.ValidImageAddress | EPSON/DX4050/FIRMWARE/DX4050_CHIP_RESETTER.c:250-253 | An accepted image carries the colour's read-address nibble in byte 0. |
| Dx4050Spec.PayloadFrom | EPSON/DX4050/FIRMWARE/DX4050_CHIP_RESETTER.c:273-277 | The payload is image bytes 1, 2, 3 followed by 0. Two images that agree on bytes 1..3 give the same payload, whatever byte 0 and bytes 4..31 hold. |
| Dx4050Spec.PayloadIdempotent | EPSON/DX4050/FIRMWARE/DX4050_CHIP_RESETTER.c:330-337 | A reread that passes the comparison yields the same payload again, so resetting a reset chip writes the same bytes. |
| Dx4050Spec.FrameByte | EPSON/DX4050/FIRMWARE/DX4050_CHIP_RESETTER.c:340-367 | A frame opens with an enable pulse, then byte i is sent as events 1+8i..8+8i, MSB first, at the 40 kHz delay. |
| Dx4050Spec.StageReport | EPSON/DX4050/FIRMWARE/DX4050_CHIP_RESETTER.c:90-111 | Every press reports; mode is 0 exactly on an error; a reset reports its colour 1..4 with error 0. |
| Dx4050Spec.StagesNotFound | EPSON/DX4050/FIRMWARE/DX4050_CHIP_RESETTER.c:89-93 | With no chip found, the press reports (0,1) and does only discovery, with no read. |
| Dx4050Spec.FoundInvalid | EPSON/DX4050/FIRMWARE/DX4050_CHIP_RESETTER.c:96-100 | A rejected image reports (0,2) after only the block read, with no write. |
| Dx4050Spec.FoundValid | EPSON/DX4050/FIRMWARE/DX4050_CHIP_RESETTER.c:101-111 | An accepted image is followed by the counter write and a reread. The press reports the colour if the reread verifies, else (0,3). |
| Dx4050Spec.StagesFoundEvents | EPSON/DX4050/FIRMWARE/DX4050_CHIP_RESETTER.c:89-112 | A press that finds a chip is discovery (found probes) followed by the stages after discovery. |
| Dx4050Spec.DiscoveryWriteBits | EPSON/DX4050/FIRMWARE/DX4050_CHIP_RESETTER.c:135-182 | Discovery clocks no bit at the write delay. |
| Dx4050Spec.WriteEventsBits | EPSON/DX4050/FIRMWARE/DX4050_CHIP_RESETTER.c:279-322 | The counter write clocks 8 address bits plus 8 per payload byte at the 10 kHz delay: 40 bits. |
| Dx4050Spec.FoundWriteBits | EPSON/DX4050/FIRMWARE/DX4050_CHIP_RESETTER.c:96-103 | After discovery, the 40 write bits are clocked exactly when the image is accepted. |
| Dx4050Spec.CycleWriteBits | EPSON/DX4050/FIRMWARE/DX4050_CHIP_RESETTER.c:85-119 | A whole press, frames included, writes to the chip only once an image is accepted: 0 write bits when no chip is found or the image is rejected, exactly 40 otherwise. |
| Dx4050Spec.HonestRead | EPSON/DX4050/FIRMWARE/DX4050_CHIP_RESETTER.c:185-245 | A chip that streams an acknowledge and then the bits of a valid image is read as exactly that image, on both the first read and the reread. |
| Dx4050Spec.HonestChipReset | EPSON/DX4050/FIRMWARE/DX4050_CHIP_RESETTER.c:85-119 | A chip that acknowledges at its colour, streams a valid image and rereads the written payload is found as that colour, reset, and reported as (c,0). |
| Dx4050.ClearArray | EPSON/DX4050/FIRMWARE/DX4050_CHIP_RESETTER.c:369-375 | The first sizeOfArray entries become 0; the rest are unchanged. |
| Dx4050.ChipLink.constructor | EPSON/DX4050/FIRMWARE/DX4050_CHIP_RESETTER.c:53-79 | The buffers start zeroed, DDRC is 0x0E, and PORTC is 0x30 with the three chip lines low. |
| Dx4050.ChipLink.ButtonInterrupt | EPSON/DX4050/FIRMWARE/DX4050_CHIP_RESETTER.c:427-430 | The interrupt sets the pending flag. |
| Dx4050.ChipLink.PulseAndSetEn | EPSON/DX4050/FIRMWARE/DX4050_CHIP_RESETTER.c:418-425 | Ends with enable high and the other PORTC bits unchanged; records one enable pulse. |
| Dx4050.ChipLink.ClockOut | EPSON/DX4050/FIRMWARE/DX4050_CHIP_RESETTER.c:141-152 | One sent bit: data carries the bit, clock ends high, and the bit is logged with its setup delay. |
| Dx4050.ChipLink.ClockIn | EPSON/DX4050/FIRMWARE/DX4050_CHIP_RESETTER.c:159-166 | One sample: returns the chip's next level, advances the stream by one and leaves data untouched. |
| Dx4050.ChipLink.SendBits | EPSON/DX4050/FIRMWARE/DX4050_CHIP_RESETTER.c:139-153 | The halving send loop clocks out the 4 high bits (bound 8) or all 8 bits (bound 0) of a value, MSB first. |
| Dx4050.ChipLink.SampleBits | EPSON/DX4050/FIRMWARE/DX4050_CHIP_RESETTER.c:157-167 | The halving sample loop ORs 4 (from 8) or 8 (from 128) samples into the accumulator at their bit positions, consuming exactly that many stream bits. |
| Dx4050.ChipLink.SendByteSeq | EPSON/DX4050/FIRMWARE/DX4050_CHIP_RESETTER.c:345-365 | Every byte is sent MSB first at the given delay, with clock and data low after the last byte. |
| Dx4050.ChipLink.SendData | EPSON/DX4050/FIRMWARE/DX4050_CHIP_RESETTER.c:340-367 | An enable pulse, then exactly 8·size bits MSB first. Ends with DDRC output and enable low. |
| Dx4050.ChipLink.Probe | EPSON/DX4050/FIRMWARE/DX4050_CHIP_RESETTER.c:137-167 | One probe: pulse, the 4 high address bits, 4 samples OR-ed into the response, DDRC 0x0E after. |
| Dx4050.ChipLink.EndProbe | EPSON/DX4050/FIRMWARE/DX4050_CHIP_RESETTER.c:168-179 | After a probe, every chip line is low and DDRC is output, whether or not the chip acknowledged. |
| Dx4050.ChipLink.ProbeChip | EPSON/DX4050/FIRMWARE/DX4050_CHIP_RESETTER.c:135-180 | One iteration of the discovery loop: the response is the chip's 4-bit answer, and it equals 0x0C exactly when the chip acknowledged. |
| Dx4050.ChipLink.ProbeAddresses | EPSON/DX4050/FIRMWARE/DX4050_CHIP_RESETTER.c:135-182 | Probes in table order and stops at the first acknowledge: it returns `Probed` and the trace holds exactly those probes. |
| Dx4050.ChipLink.FindConnectedChip | EPSON/DX4050/FIRMWARE/DX4050_CHIP_RESETTER.c:124-183 | When gndDet is high: returns 0 with no pulse, no bit and no port change. Otherwise: the first acknowledged colour or 0, with the lines low and DDRC output after. |
| Dx4050.ChipLink.ReadHeader | EPSON/DX4050/FIRMWARE/DX4050_CHIP_RESETTER.c:191-227 | Byte 0 becomes `(readAddr & 0xF0) \| nibble` of the 4 samples, after the 4 high address bits are sent. |
| Dx4050.ChipLink.ReceiveByte | EPSON/DX4050/FIRMWARE/DX4050_CHIP_RESETTER.c:231-244 | Byte i becomes its 8 samples MSB first; no other byte changes. |
| Dx4050.ChipLink.ReceiveBytes | EPSON/DX4050/FIRMWARE/DX4050_CHIP_RESETTER.c:229-245 | Bytes 1..31 become the 31 consecutive 8-sample windows, MSB first; byte 0 is kept. |
| Dx4050.ChipLink.CheckImage | EPSON/DX4050/FIRMWARE/DX4050_CHIP_RESETTER.c:250-265 | Returns 0 exactly when the buffer passes the validator, 1 otherwise. |
| Dx4050.ChipLink.EndRead | EPSON/DX4050/FIRMWARE/DX4050_CHIP_RESETTER.c:246-248 | After a read, enable and data are low and DDRC is output. |
| Dx4050.ChipLink.ReceiveImage | EPSON/DX4050/FIRMWARE/DX4050_CHIP_RESETTER.c:191-248 | The buffer holds the image decoded from the next 252 samples; the trace is one block read. |
| Dx4050.ChipLink.ReadDataFromChip | EPSON/DX4050/FIRMWARE/DX4050_CHIP_RESETTER.c:185-266 | Fills the buffer with the decoded image; returns 0 exactly when it is valid, 1 otherwise. |
| Dx4050.ChipLink.CopyPayload | EPSON/DX4050/FIRMWARE/DX4050_CHIP_RESETTER.c:273-277 | The write buffer becomes image bytes 1..3 and a 0. |
| Dx4050.ChipLink.WritePayload | EPSON/DX4050/FIRMWARE/DX4050_CHIP_RESETTER.c:279-322 | A pulse, the 8 write-address bits, then the 4 payload bytes MSB first, all at the 10 kHz delay. |
| Dx4050.ChipLink.CompareWritten | EPSON/DX4050/FIRMWARE/DX4050_CHIP_RESETTER.c:330-337 | Returns 0 exactly when reread bytes 1..4 equal the payload. |
| Dx4050.ChipLink.ResetInkCounter | EPSON/DX4050/FIRMWARE/DX4050_CHIP_RESETTER.c:268-338 | Writes the payload of the previous image, then rereads. Returns 0 exactly when the reread is valid and bytes 1..4 equal the payload. |
| Dx4050.ChipLink.ReadAndReset | EPSON/DX4050/FIRMWARE/DX4050_CHIP_RESETTER.c:96-112 | The stages after discovery report exactly as `FoundStage` says and emit `FoundEvents`. The image buffer ends up holding the reread when the image passed and the first read when it did not. The payload buffer ends up holding the payload when the image passed and is left unchanged when it did not. |
| Dx4050.ChipLink.RunStages | EPSON/DX4050/FIRMWARE/DX4050_CHIP_RESETTER.c:89-113 | Discovery and the stages after it: the report is `StageReport(CycleStage)`; the trace and stream position are as the description says. Both buffers hold what `StageBuffers` gives: unchanged when no chip answered. `DDRC` is left as output after discovery, and untouched when ground-detect skips it. |
| Dx4050.ChipLink.RunCycle | EPSON/DX4050/FIRMWARE/DX4050_CHIP_RESETTER.c:85-120 | Without a press nothing changes. With one: the report, the trace (header frame, stages, trailer frame) and the stream position follow the description, both buffers are zeroed and the flag is cleared. |
| Eeprom.OffsetInRange | RICOH/SG2100N/FIRMWARE/SG2100N_CHIP_RESETTER.c:209-215 | The 8-bit address `whereStart + i` lies in a run from whereStart exactly when i is below the run length. |
| Eeprom.StoreAt | RICOH/SP112/FIRMWARE/SP112_CHIP_RESETTER.c:81-86 | A multi-byte write puts byte i at start+i (8-bit) and leaves every address outside the run unchanged. |
| Eeprom.StoreStep | RICOH/SP112/FIRMWARE/SP112_CHIP_RESETTER.c:97-105 | Each further `i2c_write` in one transaction stores at the next address. |
| Eeprom.FillAt | RICOH/SG2100N/FIRMWARE/SG2100N_CHIP_RESETTER.c:207-216 | A fill sets the run to the value and keeps every other address. |
| Eeprom.FillStep | RICOH/SG2100N/FIRMWARE/SG2100N_CHIP_RESETTER.c:209-215 | Filling one more byte is one more single-byte write at the next address. |
| Eeprom.OrFoldZero | RICOH/SG2100N/FIRMWARE/SG2100N_CHIP_RESETTER.c:221-235 | The OR of read bytes is 0 exactly when every byte is 0. |
| Eeprom.AndFoldOnes | RICOH/SG2100N/FIRMWARE/SG2100N_CHIP_RESETTER.c:254-268 | The AND of read bytes is 0xFF exactly when every byte is 0xFF. |
| Eeprom.FetchZeros | RICOH/SG2100N/FIRMWARE/SG2100N_CHIP_RESETTER.c:221-235 | A sequential read of a run ORs to 0 exactly when every address of the run holds 0. |
| Eeprom.FetchOnes | RICOH/SG2100N/FIRMWARE/SG2100N_CHIP_RESETTER.c:254-268 | A sequential read of a run ANDs to 0xFF exactly when every address of the run holds 0xFF. |
| Eeprom.ReadCount | RICOH/SG2100N/FIRMWARE/SG2100N_CHIP_RESETTER.c:228-232 | The check loops read howMany bytes, and one byte when howMany is 0 (int arithmetic in `howMany - 1`). |
| Eeprom.Bus.Start | RICOH/SP112/FIRMWARE/SP112_CHIP_RESETTER.c:54-55 | `i2c_start` returns 0 exactly when the device acknowledges, 1 otherwise. |
| Eeprom.Bus.SetAddress | RICOH/SP112/FIRMWARE/SP112_CHIP_RESETTER.c:118-119 | A write-mode start and a word address move the chip's pointer there. |
| Eeprom.Bus.Put | RICOH/SP112/FIRMWARE/SP112_CHIP_RESETTER.c:83-85 | A data byte is stored at the pointer, which moves on by one in 8 bits. |
| Eeprom.Bus.Get | RICOH/SP112/FIRMWARE/SP112_CHIP_RESETTER.c:120-122 | A read returns the byte at the pointer, which moves on by one in 8 bits. |
| Sg2100n.FirstPresentFirst | RICOH/SG2100N/FIRMWARE/SG2100N_CHIP_RESETTER.c:195-202 | The search answers index+1 of the first acknowledging address in the order C, M, Y, B, W; all earlier ones are silent; 0 means none answered. |
| Sg2100n.TypeAcceptedBytes | RICOH/SG2100N/FIRMWARE/SG2100N_CHIP_RESETTER.c:80-88 | The per-byte type check accepts exactly {227,18} and {227,1}. |
| Sg2100n.GelWritesAt | RICOH/SG2100N/FIRMWARE/SG2100N_CHIP_RESETTER.c:98-115 | The gel script writes 0 at 0x06, 0x09 and 0x29; 100 at 0x08; 0xFF at 0x07, 0x10-0x15, 0x18-0x1F, 0x28, 0x2A-0x3F, 0x43-0x4D and 0x4F-0x7F. It leaves every other address alone. |
| Sg2100n.GelZerosMeaning | RICOH/SG2100N/FIRMWARE/SG2100N_CHIP_RESETTER.c:125-127 | The three gel zero checks OR to 0 exactly when every gel zero address holds 0. |
| Sg2100n.GelOnesMeaning | RICOH/SG2100N/FIRMWARE/SG2100N_CHIP_RESETTER.c:129-135 | The seven gel ones checks AND to 0xFF exactly when every gel ones address holds 0xFF. |
| Sg2100n.GelScriptVerifies | RICOH/SG2100N/FIRMWARE/SG2100N_CHIP_RESETTER.c:117-147 | On a memory that keeps writes, the gel script passes its own read-back. |
| Sg2100n.WasteWritesAt | RICOH/SG2100N/FIRMWARE/SG2100N_CHIP_RESETTER.c:158-160 | The waste script zeroes 0x04-0x08, 0x14-0x5D and 0x5F-0xFE and leaves 0x00-0x03, 0x09-0x13, 0x5E and 0xFF alone. |
| Sg2100n.WasteZerosMeaning | RICOH/SG2100N/FIRMWARE/SG2100N_CHIP_RESETTER.c:163-165 | The three waste checks OR to 0 exactly when every waste zero address holds 0. |
| Sg2100n.WasteScriptVerifies | RICOH/SG2100N/FIRMWARE/SG2100N_CHIP_RESETTER.c:158-169 | On a memory that keeps writes, the waste script passes its own read-back. |
| Sg2100n.CycleOutcomes | RICOH/SG2100N/FIRMWARE/SG2100N_CHIP_RESETTER.c:67-188 | No chip gives (0,1) and no other change. A rejected type gives (0,2) and no write. Otherwise the gel script runs for positions 1-4 and the waste script for 5. |
| Sg2100n.ScriptsVerify | RICOH/SG2100N/FIRMWARE/SG2100N_CHIP_RESETTER.c:147-176 | A press that finds an accepted chip reports (found,0), and error 3 never occurs, on a chip that keeps writes. |
| Sg2100n.Resetter.constructor | RICOH/SG2100N/FIRMWARE/SG2100N_CHIP_RESETTER.c:34-42 | The globals start at their declared initial values. |
| Sg2100n.Resetter.ButtonInterrupt | RICOH/SG2100N/FIRMWARE/SG2100N_CHIP_RESETTER.c:320-323 | The interrupt sets the pending flag. |
| Sg2100n.Resetter.FindChip | RICOH/SG2100N/FIRMWARE/SG2100N_CHIP_RESETTER.c:195-202 | The search loop returns `FirstPresent`, and a nonzero answer names an acknowledging address. |
| Sg2100n.Resetter.ReadChipType | RICOH/SG2100N/FIRMWARE/SG2100N_CHIP_RESETTER.c:74-78 | The type buffer gets the bytes at 0x00 and 0x01. |
| Sg2100n.Resetter.CheckChipType | RICOH/SG2100N/FIRMWARE/SG2100N_CHIP_RESETTER.c:80-88 | chipTypeOk is set exactly when each type byte is the gel or the waste byte. |
| Sg2100n.Resetter.WriteZeros | RICOH/SG2100N/FIRMWARE/SG2100N_CHIP_RESETTER.c:207-216 | The howMany addresses from whereStart (8-bit) become 0x00; no other address changes. |
| Sg2100n.Resetter.WriteOnes | RICOH/SG2100N/FIRMWARE/SG2100N_CHIP_RESETTER.c:240-249 | The howMany addresses from whereStart (8-bit) become 0xFF; no other address changes. |
| Sg2100n.Resetter.CheckZeros | RICOH/SG2100N/FIRMWARE/SG2100N_CHIP_RESETTER.c:221-235 | Returns the OR of the bytes of a sequential read from whereStart. |
| Sg2100n.Resetter.CheckOnes | RICOH/SG2100N/FIRMWARE/SG2100N_CHIP_RESETTER.c:254-268 | Returns the AND of the bytes of a sequential read from whereStart. |
| Sg2100n.Resetter.WriteGel | RICOH/SG2100N/FIRMWARE/SG2100N_CHIP_RESETTER.c:100-115 | The write sequence leaves the memory as `GelWrites` of the old memory. |
| Sg2100n.Resetter.GelZeroChecks | RICOH/SG2100N/FIRMWARE/SG2100N_CHIP_RESETTER.c:125-127 | The accumulated zero checks equal `GelZerosCheck` of the memory. |
| Sg2100n.Resetter.GelOnesChecks | RICOH/SG2100N/FIRMWARE/SG2100N_CHIP_RESETTER.c:129-135 | The accumulated ones checks equal `GelOnesCheck` of the memory. |
| Sg2100n.Resetter.CheckReset | RICOH/SG2100N/FIRMWARE/SG2100N_CHIP_RESETTER.c:137-145 | resettedOk is set exactly when readData equals `dataToCheck`. |
| Sg2100n.Resetter.VerifyGel | RICOH/SG2100N/FIRMWARE/SG2100N_CHIP_RESETTER.c:119-154 | Reports (found+1,0) exactly when 0x08 reads 100, the zero runs OR to 0 and the ones runs AND to 0xFF; otherwise (0,3). |
| Sg2100n.Resetter.ResetWaste | RICOH/SG2100N/FIRMWARE/SG2100N_CHIP_RESETTER.c:158-176 | Runs the waste writes, then reports (found+1,0) exactly when the three runs read back zero; otherwise (0,3). |
| Sg2100n.Resetter.RunCycle | RICOH/SG2100N/FIRMWARE/SG2100N_CHIP_RESETTER.c:67-188 | Without a press nothing changes. With one: the report and the new globals and chip state are `Cycle`; the flag is cleared. |
| Sp112.TypeAcceptedBytes | RICOH/SP112/FIRMWARE/SP112_CHIP_RESETTER.c:63-71 | The type check accepts exactly {32,0}. |
| Sp112.ResetWritesAt | RICOH/SP112/FIRMWARE/SP112_CHIP_RESETTER.c:81-114 | The script writes 3,1,1 at 0x04-0x06; 100 at 0x08 and 0x2C; "407166" at 0x0A-0x0F; 0 at 0x07, 0x09, 0x18-0x2B and 0x2D-0x7F. Every other address is left alone. |
| Sp112.PageWritesFit | RICOH/SP112/FIRMWARE/SP112_CHIP_RESETTER.c:81-105 | The standard-type write and the EDP-code write that the scripts issue each start and end in the same 8-byte EEPROM page. |
| Sp112.ReadBackAt | RICOH/SP112/FIRMWARE/SP112_CHIP_RESETTER.c:118-146 | The read-back collects 0x04-0x06, 0x08, 0x0A-0x0F and 0x2C, in that order. |
| Sp112.ZerosMeaning | RICOH/SP112/FIRMWARE/SP112_CHIP_RESETTER.c:149-152 | The four zero checks OR to 0 exactly when every zeroed address holds 0. |
| Sp112.ScriptReadsBack | RICOH/SP112/FIRMWARE/SP112_CHIP_RESETTER.c:27 | The bytes the script writes at the read-back addresses are exactly `dataToCheck`. |
| Sp112.ScriptZeroes | RICOH/SP112/FIRMWARE/SP112_CHIP_RESETTER.c:149-152 | The script's zero runs pass the four zero checks. |
| Sp112.CycleOutcomes | RICOH/SP112/FIRMWARE/SP112_CHIP_RESETTER.c:51-182 | No answer gives 3 blinks and no other change. A wrong type gives 2 blinks and no write. Otherwise the reset script runs. |
| Sp112.ScriptVerifies | RICOH/SP112/FIRMWARE/SP112_CHIP_RESETTER.c:154-171 | On a chip of the standard type that keeps writes, a press ends with 1 blink and resettedOk. |
| Sp112.Resetter.constructor | RICOH/SP112/FIRMWARE/SP112_CHIP_RESETTER.c:23-29 | The globals start at their declared initial values. |
| Sp112.Resetter.ButtonInterrupt | RICOH/SP112/FIRMWARE/SP112_CHIP_RESETTER.c:256-259 | The interrupt sets the pending flag. |
| Sp112.Resetter.ReadCartridgeType | RICOH/SP112/FIRMWARE/SP112_CHIP_RESETTER.c:57-61 | The type buffer gets the bytes at 0x00 and 0x01. |
| Sp112.Resetter.CheckCartridgeType | RICOH/SP112/FIRMWARE/SP112_CHIP_RESETTER.c:63-71 | cartridgeTypeOk is set exactly when the type bytes are {32,0}. |
| Sp112.Resetter.WriteZeros | RICOH/SP112/FIRMWARE/SP112_CHIP_RESETTER.c:189-198 | The howMany addresses from whereStart (8-bit) become 0; no other address changes. |
| Sp112.Resetter.CheckZeros | RICOH/SP112/FIRMWARE/SP112_CHIP_RESETTER.c:203-218 | Returns the OR of the bytes of a sequential read from whereStart. |
| Sp112.Resetter.WriteStandardType | RICOH/SP112/FIRMWARE/SP112_CHIP_RESETTER.c:81-86 | One transaction stores 3, 1, 1 from 0x04. |
| Sp112.Resetter.WriteEdpCode | RICOH/SP112/FIRMWARE/SP112_CHIP_RESETTER.c:97-105 | One transaction stores "407166" from 0x0A. |
| Sp112.Resetter.WriteScript | RICOH/SP112/FIRMWARE/SP112_CHIP_RESETTER.c:81-114 | The write sequence leaves the memory as `ResetWrites` of the old memory. |
| Sp112.Resetter.ReadStandardType | RICOH/SP112/FIRMWARE/SP112_CHIP_RESETTER.c:118-123 | readData[0..2] get the bytes at 0x04-0x06; the rest is kept. |
| Sp112.Resetter.ReadOne | RICOH/SP112/FIRMWARE/SP112_CHIP_RESETTER.c:125-129 | readData[k] gets the byte at the given address; the rest is kept. |
| Sp112.Resetter.ReadEdpCode | RICOH/SP112/FIRMWARE/SP112_CHIP_RESETTER.c:131-139 | readData[4..9] get the bytes at 0x0A-0x0F; the rest is kept. |
| Sp112.Resetter.ReadBackData | RICOH/SP112/FIRMWARE/SP112_CHIP_RESETTER.c:118-146 | readData becomes `ReadBack` of the memory. |
| Sp112.Resetter.ZeroChecks | RICOH/SP112/FIRMWARE/SP112_CHIP_RESETTER.c:149-152 | The accumulated zero checks equal `ZerosCheck` of the memory. |
| Sp112.Resetter.CheckReset | RICOH/SP112/FIRMWARE/SP112_CHIP_RESETTER.c:154-162 | resettedOk is set exactly when readData equals `dataToCheck`. |
| Sp112.Resetter.ResetChip | RICOH/SP112/FIRMWARE/SP112_CHIP_RESETTER.c:79-171 | Runs the script, then reports 1 blink exactly when the read-back equals `dataToCheck` and the zero checks pass; otherwise 3. |
| Sp112.Resetter.RunCycle | RICOH/SP112/FIRMWARE/SP112_CHIP_RESETTER.c:51-182 | Without a press nothing changes. With one: the report and the new globals and chip state are `Cycle`; the flag is cleared. |

## Left out

- LED output (`blinkLed`, `ledBlink`): the argument pair or count the firmware hands to the LED routine is the `Report` value. The port writes and blink timing are not modelled.
- Timing: `_delay_us` and `_delay_ms` are not modelled. In the DX4050 model each sent bit carries only the tag of its setup delay (40 kHz or 10 kHz).
- Interrupts: `ButtonInterrupt` sets the flag, and one main-loop iteration is one `RunCycle` call. Masking INT0 (`EIMSK`, `EIFR`, `EICRA`, `sei`) and the interleaving of the interrupt with the loop are not modelled.
- Start-up: the `DDRB`, `DDRD`, `PORTB` and `PORTD` set-up at the top of each `main` is not modelled. The DX4050 constructor starts from the `PORTC` and `DDRC` values `main` sets.
- The i2c master library (`i2cmaster.h`) is not part of this model; `Eeprom.Bus` stands in for it. Not modelled:
  - `i2c_init`;
  - the retries of `i2c_start_wait`, which is modelled as a start to a device that answers;
  - ACK/NACK signalling;
  - `i2c_stop`, which changes nothing in the model;
  - the bus the SG2100N search leaves open.
- Eeprom.Bus.SetAddress: the time an EEPROM needs to finish a write, during which it ignores its address, is not modelled. Every start to a present chip is taken as answered, including the plain `i2c_start` calls whose result the firmware ignores (lines 225 and 258 of the SG2100N file; lines 81, 126, 132, 143 and 207 of the SP112 file). The SG2100N waste-tank read-back starts right after the last write, without the `i2c_start_wait` the gel path uses. A chip still busy there could make the read-back see an idle bus and report error 3. `Sg2100n.ScriptsVerify` excludes error 3 only under this assumption.
- Eeprom.Bus.Put: a write past the end of an 8-byte EEPROM page is not wrapped within the page. `Sp112.PageWritesFit` shows that no multi-byte write of the scripts crosses a page.
- Electrical behaviour: the shared data line is not modelled beyond `DDRC`. The chip's answers are a stream of levels, one per sample, and `gndDet` is a boolean input.
- One chip per bus: the RICOH models assume one chip memory, reached through whichever of the searched addresses it acknowledges.
