/** The vectors on the ports of the tightly coupled memory (`top_tcm_wrapper`). */
module TcmTypes {
  type Address = n: nat | n < 0x1_0000_0000 witness 0
  type Length = n: nat | n < 256 witness 0
  type Id = n: nat | n < 16 witness 0
  type CpuTag = n: nat | n < 2048 witness 0

  // A 32-bit word, b0 being bits 7 to 0, and its byte strobes.
  datatype Word = Word(b0: bv8, b1: bv8, b2: bv8, b3: bv8)
  datatype Strobe = Strobe(s0: bool, s1: bool, s2: bool, s3: bool)

  // Byte lane l of a word, bits 8 l + 7 to 8 l, and its strobe.
  type LaneIndex = l: nat | l < 4 witness 0

  function Lane(w: Word, l: LaneIndex): bv8 {
    if l == 0 then w.b0 else if l == 1 then w.b1 else if l == 2 then w.b2 else w.b3
  }

  predicate Strobed(s: Strobe, l: LaneIndex) {
    if l == 0 then s.s0 else if l == 1 then s.s1 else if l == 2 then s.s2 else s.s3
  }

  const NO_STROBE := Strobe(false, false, false, false)
  const ZERO_WORD := Word(0, 0, 0, 0)

  // `addr + 4` in 32 bits: the next address of an incrementing burst.
  function NextAddress(a: Address): (next: Address)
    ensures next == (a + 4) % 0x1_0000_0000
  {
    if a + 4 < 0x1_0000_0000 then a + 4 else a + 4 - 0x1_0000_0000
  }

  // `len - 8'd1`
  function LessOne(len: Length): Length {
    if len == 0 then 255 else len - 1
  }
}
