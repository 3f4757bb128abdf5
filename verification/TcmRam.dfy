/** The dual-port RAM (`top_tcm_wrapper/tcm_mem_ram.v`): 16384 words, byte strobes, each port
    reading the word as it was before the write of the same edge. */
module TcmRam {
  import opened TcmTypes

  const ROWS: nat := 16384

  type Memory = m: seq<Word> | |m| == ROWS witness seq(ROWS, _ => ZERO_WORD)
  type Row = r: nat | r < ROWS witness 0

  // `addr[15:2]`: the row of four bytes that holds the address in its 64 KB.
  function RowOf(a: Address): (r: Row)
    ensures 4 * r <= a % 65536 < 4 * r + 4
  {
    (a / 4) % ROWS
  }

  function Merge(was: Word, data: Word, strobe: Strobe): Word {
    Word(if strobe.s0 then data.b0 else was.b0, if strobe.s1 then data.b1 else was.b1,
         if strobe.s2 then data.b2 else was.b2, if strobe.s3 then data.b3 else was.b3)
  }

  // Each byte lane is written under its own strobe.
  lemma MergedLane(was: Word, data: Word, strobe: Strobe, l: LaneIndex)
    ensures Lane(Merge(was, data, strobe), l) == if Strobed(strobe, l) then Lane(data, l) else Lane(was, l)
  {
  }

  class Ram {
    const ram: array<Word>
    var read0: Word
    var read1: Word

    ghost predicate Valid()
      reads this
    {
      ram.Length == ROWS
    }

    ghost function Contents(): Memory
      requires Valid()
      reads this, ram
    {
      ram[..]
    }

    constructor ()
      ensures Valid() && fresh(ram)
    {
      ram := new Word[ROWS];
    }

    // Port 0 only reads: its write enables are tied off where the RAM is used.
    method Clock(addr0: Row, addr1: Row, data1: Word, wr1: Strobe)
      requires Valid()
      modifies this, ram
      ensures Valid()
      ensures read0 == old(Contents())[addr0] && read1 == old(Contents())[addr1]
      ensures Contents() == old(Contents())[addr1 := Merge(old(Contents())[addr1], data1, wr1)]
      ensures forall r: Row, l: LaneIndex ::
                Lane(Contents()[r], l) ==
                if r == addr1 && Strobed(wr1, l) then Lane(data1, l) else Lane(old(Contents())[r], l)
    {
      read0, read1 := ram[addr0], ram[addr1];
      var word := ram[addr1];
      if wr1.s0 {
        word := word.(b0 := data1.b0);
      }
      if wr1.s1 {
        word := word.(b1 := data1.b1);
      }
      if wr1.s2 {
        word := word.(b2 := data1.b2);
      }
      if wr1.s3 {
        word := word.(b3 := data1.b3);
      }
      ram[addr1] := word;
      forall r: Row, l: LaneIndex
        ensures Lane(Contents()[r], l) ==
                if r == addr1 && Strobed(wr1, l) then Lane(data1, l) else Lane(old(Contents())[r], l)
      {
        MergedLane(old(Contents())[addr1], data1, wr1, l);
      }
    }
  }
}
