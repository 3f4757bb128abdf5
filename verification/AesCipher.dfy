/** The cipher and the inverse cipher of FIPS 197, the two machines that compute them one round
    per clock edge (`Project/AESEncrypt.v`, `Project/AESDecrypt.v`), and that they undo each other. */
module AesCipher {
  import opened AesRound
  import opened AesSequencer

  // `aes256_round_enc`
  function Round(s: State, k: State): State {
    AddRoundKey(MixColumns(ShiftRows(SubBytes(s))), k)
  }

  // `aes256_final_round_enc`
  function FinalRound(s: State, k: State): State {
    AddRoundKey(ShiftRows(SubBytes(s)), k)
  }

  function InvFinalRound(s: State, k: State): State {
    AddRoundKey(InvSubBytes(InvShiftRows(s)), k)
  }

  function InvRound(s: State, k: State): State {
    InvMixColumns(InvFinalRound(s, k))
  }

  function Encrypting(): Steps<State> {
    Steps(AddRoundKey, Round, FinalRound)
  }

  function Decrypting(): Steps<State> {
    Steps(AddRoundKey, InvRound, InvFinalRound)
  }

  // FIPS 197 section 5.1: Nr + 1 round keys, given in the order of use.
  function Cipher(keys: seq<State>, block: State): State
    requires |keys| >= 2
  {
    Cascade(Encrypting(), keys, block)
  }

  // FIPS 197 section 5.3: the same round keys, used from the last to the first.
  function InvCipher(keys: seq<State>, block: State): State
    requires |keys| >= 2
  {
    Cascade(Decrypting(), Reverse(keys), block)
  }

  function Scramble(s: State): State {
    ShiftRows(SubBytes(s))
  }

  lemma Unscrambled(s: State)
    ensures InvSubBytes(InvShiftRows(Scramble(s))) == s
  {
    ShiftRowsInverse(SubBytes(s));
    SubBytesInverse(s);
  }

  lemma FinalRoundUndone(s: State, k: State)
    ensures AddRoundKey(FinalRound(s, k), k) == Scramble(s)
  {
    AddRoundKeyTwice(ShiftRows(SubBytes(s)), k);
  }

  lemma RoundUndone(s: State, k: State)
    ensures InvRound(Scramble(Round(s, k)), k) == Scramble(s)
  {
    Unscrambled(Round(s, k));
    AddRoundKeyTwice(MixColumns(ShiftRows(SubBytes(s))), k);
    MixColumnsInverse(ShiftRows(SubBytes(s)));
  }

  lemma FirstAdditionUndone(s: State, k: State)
    ensures InvFinalRound(Scramble(AddRoundKey(s, k)), k) == s
  {
    Unscrambled(AddRoundKey(s, k));
    AddRoundKeyTwice(s, k);
  }

  lemma DecryptingUndoesEncrypting()
    ensures Undoes(Decrypting(), Encrypting(), Scramble)
  {
    forall s, k
      ensures Decrypting().first(Encrypting().last(s, k), k) == Scramble(s)
    {
      FinalRoundUndone(s, k);
    }
    forall s, k
      ensures Decrypting().middle(Scramble(Encrypting().middle(s, k)), k) == Scramble(s)
    {
      RoundUndone(s, k);
    }
    forall s, k
      ensures Decrypting().last(Scramble(Encrypting().first(s, k)), k) == s
    {
      FirstAdditionUndone(s, k);
    }
  }

  lemma InvCipherUndoesCipher(keys: seq<State>, block: State)
    requires |keys| >= 2
    ensures InvCipher(keys, Cipher(keys, block)) == block
  {
    DecryptingUndoesEncrypting();
    CascadeUndone(Decrypting(), Encrypting(), Scramble, keys, block);
  }
}
