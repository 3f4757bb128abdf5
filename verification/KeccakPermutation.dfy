/** The permutation engine (`Project/f_permutation.v`): a one-hot register sequences 24
    rounds after each block taken. It is refined to a machine that counts rounds. */
module KeccakPermutation {
  import opened Bits
  import opened Fips202
  import opened KeccakRound
  import opened KeccakConstants

  type Block = b: seq<Lane> | |b| == 9 witness seq(9, _ => Zeros(64))

  // `{in ^ out[1599:1599-575], out[1599-576:0]}`
  function XorBlock(a: StateArray, block: Block): StateArray {
    seq<Sheet>(5, x requires 0 <= x < 5 =>
      seq<Lane>(5, y requires 0 <= y < 5 =>
        if 5 * y + x < 9 then XorLanes(a[x][y], block[5 * y + x]) else a[x][y]))
  }

  // round counts the rounds already done on the block in flight, 0 when there is none.
  datatype PermState = PermState(lanes: StateArray, round: nat, ready: bool) {
    predicate Accept(inReady: bool) {
      inReady && round == 0
    }

    function Next(block: Block, inReady: bool): PermState {
      if Accept(inReady) then PermState(Rnd(XorBlock(lanes, block), 0), 1, false)
      else if round == 0 then this
      else PermState(Rnd(lanes, round), if round == 23 then 0 else round + 1, ready || round == 23)
    }
  }

  function ZeroState(): StateArray {
    seq(5, _ => seq(5, _ => Zeros(64)))
  }

  const IDLE_PERM := PermState(ZeroState(), 0, false)

  class Permutation {
    var i: Bits             // one-hot: bit k is set when k + 1 rounds are done
    var calculating: bool
    var out: StateArray
    var outReady: bool
    ghost var round: nat

    ghost predicate Valid()
      reads this
    {
      round <= 23 && calculating == (round > 0) && i == OneHot(23, round - 1)
    }

    ghost function Abs(): (s: PermState)
      reads this
      requires Valid()
    {
      PermState(out, round, outReady)
    }

    constructor ()
      ensures Valid() && Abs() == IDLE_PERM
    {
      i, calculating, out, outReady, round := OneHot(23, -1), false, ZeroState(), false, 0;
    }

    function Ack(inReady: bool): (ack: bool)
      reads this
      requires Valid()
      ensures ack == Abs().Accept(inReady)
    {
      inReady && !calculating
    }

    // `rconst_ ({i, accept}, rc)` selects the constant of the round being done now.
    lemma Selected(accept: bool)
      requires Valid() && (accept <==> !calculating)
      ensures |[accept] + i| == 24 && [accept] + i == OneHot(24, round)
    {
    }

    // The combinational path through `round_in`, `rconst_` and `round_`.
    method RoundOut(block: Block, accept: bool) returns (next: StateArray)
      requires Valid() && (accept <==> !calculating)
      ensures next == Rnd(if accept then XorBlock(out, block) else out, round)
    {
      var roundIn := if accept then XorBlock(out, block) else out;
      Selected(accept);
      RoundAgrees(roundIn, round);
      next := Round(roundIn, RConst([accept] + i));
    }

    // `i <= {i[21:0], accept}`
    lemma Sequenced(accept: bool)
      requires Valid() && (accept ==> round == 0)
      ensures ShiftIn(i, accept) ==
              OneHot(23, if accept then 0 else if round == 0 || round == 23 then -1 else round)
    {
    }

    method Clock(reset: bool, block: Block, inReady: bool)
      requires Valid()
      modifies this
      ensures Valid()
      ensures Abs() == if reset then IDLE_PERM else old(Abs()).Next(block, inReady)
    {
      var accept := inReady && !calculating;
      var last := i[22];
      if reset {
        i, calculating, out, outReady, round := OneHot(23, -1), false, ZeroState(), false, 0;
        return;
      }
      if calculating || accept {
        var nextOut := RoundOut(block, accept);
        out := nextOut;
      }
      Sequenced(accept);
      i := ShiftIn(i, accept);
      calculating := (calculating && !last) || accept;
      outReady := if accept then false else outReady || last;
      round := if accept then 1 else if round == 0 || round == 23 then 0 else round + 1;
    }
  }
}
