/** The iterative encrypter and decrypter (`Project/AESEncrypt.v`, `Project/AESDecrypt.v`). The
    vector allKeys is the list of round keys, its top 128 bits first. */
module AesMachines {
  import opened AesRound
  import opened AesSequencer
  import opened AesCipher

  // The wires up to `stateOut`.
  method EncryptWires(roundCount: nat, nr: nat, state: State, data: State, key: State) returns (stateOut: State)
    requires 1 <= roundCount <= nr + 1
    ensures stateOut == StateOut(Encrypting(), roundCount, nr, state, data, key)
  {
    var shiftRowsWire := ShiftRows(SubBytes(state));
    var roundKeyInput :=
      if roundCount == 1 then data
      else if roundCount < nr + 1 then MixColumns(shiftRowsWire)
      else shiftRowsWire;
    stateOut := AddRoundKey(roundKeyInput, key);
  }

  method DecryptWires(roundCount: nat, nr: nat, state: State, data: State, key: State) returns (stateOut: State)
    requires 1 <= roundCount <= nr + 1 && nr >= 1
    ensures stateOut == StateOut(Decrypting(), roundCount, nr, state, data, key)
  {
    var subByteWire := InvSubBytes(InvShiftRows(state));
    var keyInput := if roundCount == 1 then data else subByteWire;
    var afterRoundKey := AddRoundKey(keyInput, key);
    stateOut := if roundCount > 1 && roundCount < nr + 1 then InvMixColumns(afterRoundKey) else afterRoundKey;
  }

  // The register and the counter at an enabled edge, whatever the steps compute.
  lemma EnabledEdge(steps: Steps<State>, keys: seq<State>, data: State, was: Sequencer<State>, nr: nat, stateOut: State)
    requires |keys| == nr + 1 && 1 <= was.roundCount <= nr + 1
    requires stateOut == StateOut(steps, was.roundCount, nr, was.state, data, keys[was.roundCount - 1])
    ensures was.Next(steps, keys, Edge(data, true, false)) == Sequencer(stateOut, was.roundCount + 1)
  {
  }

  class AesEncrypt {
    const nr: nat
    var state: State
    var roundCount: nat       // six bits

    ghost predicate Valid()
      reads this
    {
      1 <= nr && 1 <= roundCount <= nr + 2 <= 63
    }

    ghost function Abs(): Sequencer<State>
      reads this
    {
      Sequencer(state, roundCount)
    }

    constructor (rounds: nat)
      requires 1 <= rounds <= 61
      ensures Valid() && nr == rounds && roundCount == 1
    {
      nr, state, roundCount := rounds, ZeroState(), 1;
    }

    method Clock(data: State, allKeys: seq<State>, enable: bool, reset: bool)
      requires Valid() && |allKeys| == nr + 1
      modifies this
      ensures Valid()
      ensures Abs() == old(Abs()).Next(Encrypting(), allKeys, Edge(data, enable, reset))
    {
      if reset {
        roundCount := 1;
      } else if enable && roundCount <= nr + 1 {
        var stateOut := EncryptWires(roundCount, nr, state, data, allKeys[roundCount - 1]);
        EnabledEdge(Encrypting(), allKeys, data, Abs(), nr, stateOut);
        state, roundCount := stateOut, roundCount + 1;
      }
    }
  }

  class AesDecrypt {
    const nr: nat
    var state: State
    var roundCount: nat       // six bits

    ghost predicate Valid()
      reads this
    {
      1 <= nr && 1 <= roundCount <= nr + 2 <= 63
    }

    ghost function Abs(): Sequencer<State>
      reads this
    {
      Sequencer(state, roundCount)
    }

    // The state register has no initial value.
    constructor (rounds: nat, unknown: State)
      requires 1 <= rounds <= 61
      ensures Valid() && nr == rounds && roundCount == 1
    {
      nr, state, roundCount := rounds, unknown, 1;
    }

    method Clock(data: State, allKeys: seq<State>, enable: bool, reset: bool)
      requires Valid() && |allKeys| == nr + 1
      modifies this
      ensures Valid()
      ensures Abs() == old(Abs()).Next(Decrypting(), Reverse(allKeys), Edge(data, enable, reset))
    {
      if reset {
        roundCount := 1;
      } else if enable && roundCount <= nr + 1 {
        var stateOut := DecryptWires(roundCount, nr, state, data, allKeys[nr + 1 - roundCount]);
        EnabledEdge(Decrypting(), Reverse(allKeys), data, Abs(), nr, stateOut);
        state, roundCount := stateOut, roundCount + 1;
      }
    }
  }

  function ZeroState(): State {
    var zero := Column(0, 0, 0, 0);
    State(zero, zero, zero, zero)
  }

  // Whatever the enable and reset patterns of the two runs, a finished decryption of a finished
  // encryption is the block that was loaded.
  lemma DecryptionRestoresBlock(keys: seq<State>, enc: Sequencer<State>, dec: Sequencer<State>,
                                encEdges: seq<Edge<State>>, decEdges: seq<Edge<State>>)
    requires |keys| >= 2 && enc.roundCount == 1 && dec.roundCount == 1
    requires Enabled(encEdges) >= |keys| && Enabled(decEdges) >= |keys|
    requires Loaded(decEdges) == Run(Encrypting(), keys, enc, encEdges).state
    ensures Run(Encrypting(), keys, enc, encEdges).state == Cipher(keys, Loaded(encEdges))
    ensures Run(Decrypting(), Reverse(keys), dec, decEdges).state == Loaded(encEdges)
  {
    RunFollowsCascade(Encrypting(), keys, enc, encEdges);
    RunFollowsCascade(Decrypting(), Reverse(keys), dec, decEdges);
    InvCipherUndoesCipher(keys, Loaded(encEdges));
  }
}
