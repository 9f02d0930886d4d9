/** Port C of the DX4050 resetter's microcontroller, as far as the chip
    protocol uses it: three output lines (enable, clock, data) written one
    bit at a time with `|=` and `&= ~`, and the direction register DDRC. */
module Port {
  /** PORTC bit masks of the chip lines PINC1, PINC2 and PINC3. */
  const EN: bv8 := 0x02
  const CLK: bv8 := 0x04
  const DATA: bv8 := 0x08

  /** DDRC with the data line driven (0x0E) or released for reading
      (0x06); enable and clock stay outputs in both. */
  const DdrOutput: bv8 := 0x0E
  const DdrInput: bv8 := 0x06

  /** One of the three chip lines. */
  predicate IsLine(line: bv8)
  {
    line == EN || line == CLK || line == DATA
  }

  /** Whether `line` is driven high in the port value `p`. */
  predicate High(p: bv8, line: bv8)
  {
    p & line != 0
  }

  /** The PORTC bits that are not chip lines. */
  function Others(p: bv8): bv8
  {
    p & 0xF1
  }

  /** `chipPrt |= (1 << line)`: drives `line` high and leaves every other
      bit as it was. */
  function Raise(p: bv8, line: bv8): (q: bv8)
    requires IsLine(line)
    ensures Others(q) == Others(p)
    ensures High(q, EN) == (line == EN || High(p, EN))
    ensures High(q, CLK) == (line == CLK || High(p, CLK))
    ensures High(q, DATA) == (line == DATA || High(p, DATA))
  {
    p | line
  }

  /** `chipPrt &= ~(1 << line)`: drives `line` low and leaves every other
      bit as it was. */
  function Lower(p: bv8, line: bv8): (q: bv8)
    requires IsLine(line)
    ensures Others(q) == Others(p)
    ensures High(q, EN) == (line != EN && High(p, EN))
    ensures High(q, CLK) == (line != CLK && High(p, CLK))
    ensures High(q, DATA) == (line != DATA && High(p, DATA))
  {
    p & !line
  }

  /** Clearing the chip lines a second time changes nothing. */
  lemma OthersTwice(p: bv8)
    ensures Others(Others(p)) == Others(p)
  {
  }

  /** A port value is fixed by its other bits and the three line levels; with
      all three lines low it is just its other bits. */
  lemma AllLow(p: bv8, q: bv8)
    requires Others(q) == Others(p)
    requires !High(q, EN) && !High(q, CLK) && !High(q, DATA)
    ensures q == Others(p)
  {
  }

  /** Two port values with the same other bits and the same line levels are
      equal. */
  lemma SameLevels(p: bv8, q: bv8)
    requires Others(q) == Others(p)
    requires High(q, EN) == High(p, EN) && High(q, CLK) == High(p, CLK)
    requires High(q, DATA) == High(p, DATA)
    ensures q == p
  {
  }
}
