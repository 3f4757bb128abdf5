/** AES-256 behind the pipeline and the counter-mode stream (`Project/aes256_pipeline_top.v`,
    `Project/aes256_ctr_stream.v`). Registers 0 to 14 of each kind are one list. */
module AesStream {
  import opened AesField
  import opened AesRound
  import opened AesSequencer
  import opened AesCipher
  import opened AesKeySchedule
  import opened AesMachines
  import opened AesPipeline
  import opened AesCounterBlock
  import opened AesCtr
  import opened AesCtrSession

  const STAGES: nat := 15

  class PipelineTop {
    var allKeysReg: seq<State>
    var stage: seq<State>
    var validPipe: seq<bool>

    ghost predicate Valid()
      reads this
    {
      |allKeysReg| == |stage| == |validPipe| == STAGES
    }

    ghost function Abs(): Pipe<State>
      reads this
    {
      Pipe(allKeysReg, stage, validPipe)
    }

    // The registers hold anything before the first reset.
    constructor (unknown: Pipe<State>)
      requires unknown.Valid() && |unknown.keys| == STAGES
      ensures Valid() && Abs() == unknown
    {
      allKeysReg, stage, validPipe := unknown.keys, unknown.stage, unknown.valid;
    }

    // What stage i loads when it is enabled.
    function StageNext(dataIn: State, i: nat): State
      requires Valid() && i < STAGES
      reads this
    {
      if i == 0 then AddRoundKey(dataIn, allKeysReg[0])
      else if i < 14 then Round(stage[i - 1], allKeysReg[i])
      else FinalRound(stage[13], allKeysReg[14])
    }

    method Clock(rst: bool, keyLoad: bool, keyIn: Key, validIn: bool, dataIn: State)
      requires Valid() && |keyIn| == 8
      modifies this
      ensures Valid()
      ensures Abs() == old(Abs()).Next(Encrypting(), ZeroState(), PipeEdge(rst, keyLoad, RoundKeys(keyIn), validIn, dataIn))
    {
      hide Round, FinalRound, AddRoundKey, RoundKeys;
      var allKeysWire := RoundKeys(keyIn);
      if rst {
        allKeysReg, stage := seq(STAGES, _ => ZeroState()), seq(STAGES, _ => ZeroState());
        validPipe := seq(STAGES, _ => false);
      } else {
        var enabled := [validIn] + validPipe[..14];
        var was := stage;
        stage := seq(STAGES, i requires 0 <= i < STAGES && Valid() && |enabled| == STAGES && |was| == STAGES reads this =>
          if enabled[i] then StageNext(dataIn, i) else was[i]);
        validPipe := enabled;
        if keyLoad {
          allKeysReg := allKeysWire;
        }
      }
    }
  }

  function CtrMode(): Mode<State> {
    Mode(Encrypting(), ZeroState(), CounterBlock, AddRoundKey)
  }

  // `data_pipe`, `last_pipe` and `keep_pipe` side by side.
  function Beside(data: seq<State>, last: seq<bool>, keep: seq<bv16>): (p: seq<Payload<State>>)
    requires |data| == |last| == |keep|
    ensures |p| == |data|
  {
    seq(|data|, i requires 0 <= i < |data| => Payload(data[i], last[i], keep[i]))
  }

  lemma ShiftBeside(data: seq<State>, last: seq<bool>, keep: seq<bv16>, d: State, l: bool, k: bv16)
    requires |data| == |last| == |keep| == STAGES
    ensures Beside([d] + data[..14], [l] + last[..14], [k] + keep[..14]) ==
            [Payload(d, l, k)] + Beside(data, last, keep)[..14]
  {
  }

  class CtrStream {
    var ctrReg: nat           // 128 bits
    const core: PipelineTop
    var dataPipe: seq<State>
    var lastPipe: seq<bool>
    var keepPipe: seq<bv16>

    ghost predicate Valid()
      reads this, core
    {
      core.Valid() && ctrReg < MODULUS && |dataPipe| == |lastPipe| == |keepPipe| == STAGES
    }

    ghost function Abs(): Stream<State>
      requires Valid()
      reads this, core
    {
      Stream(ctrReg, core.Abs(), Beside(dataPipe, lastPipe, keepPipe))
    }

    constructor (pipeline: PipelineTop, ctr: nat, data: seq<State>, last: seq<bool>, keep: seq<bv16>)
      requires pipeline.Valid() && ctr < MODULUS && |data| == |last| == |keep| == STAGES
      ensures Valid() && Abs() == Stream(ctr, pipeline.Abs(), Beside(data, last, keep)) && core == pipeline
    {
      core, ctrReg, dataPipe, lastPipe, keepPipe := pipeline, ctr, data, last, keep;
    }

    // The second always block.
    method ShiftPayload(rst: bool, dataIn: State, lastIn: bool, keepIn: bv16)
      requires |dataPipe| == |lastPipe| == |keepPipe| == STAGES
      modifies this`dataPipe, this`lastPipe, this`keepPipe
      ensures |dataPipe| == |lastPipe| == |keepPipe| == STAGES
      ensures Beside(dataPipe, lastPipe, keepPipe) ==
              if rst then seq(STAGES, _ => Payload(ZeroState(), false, 0))
              else [Payload(dataIn, lastIn, keepIn)] + old(Beside(dataPipe, lastPipe, keepPipe))[..14]
    {
      if rst {
        dataPipe, lastPipe := seq(STAGES, _ => ZeroState()), seq(STAGES, _ => false);
        keepPipe := seq(STAGES, _ => 0);
      } else {
        ShiftBeside(dataPipe, lastPipe, keepPipe, dataIn, lastIn, keepIn);
        dataPipe, lastPipe := [dataIn] + dataPipe[..14], [lastIn] + lastPipe[..14];
        keepPipe := [keepIn] + keepPipe[..14];
      }
    }

    method Clock(rst: bool, keyLoad: bool, keyIn: Key, ctrLoad: bool, ctrInit: nat,
                 validIn: bool, dataIn: State, lastIn: bool, keepIn: bv16)
      requires Valid() && |keyIn| == 8 && ctrInit < MODULUS
      modifies this, core
      ensures Valid()
      ensures Abs() == old(Abs()).Next(CtrMode(),
        StreamEdge(rst, keyLoad, RoundKeys(keyIn), ctrLoad, ctrInit, validIn, Payload(dataIn, lastIn, keepIn)))
    {
      hide Pipe.Next, AddRoundKey, RoundKeys, CounterBlock;
      core.Clock(rst, keyLoad, keyIn, validIn, CounterBlock(if ctrLoad then ctrInit else ctrReg));
      ShiftPayload(rst, dataIn, lastIn, keepIn);
      if rst {
        ctrReg := 0;
      } else if ctrLoad && validIn {
        ctrReg := (ctrInit + 1) % MODULUS;
      } else if ctrLoad {
        ctrReg := ctrInit;
      } else if validIn {
        ctrReg := (ctrReg + 1) % MODULUS;
      }
    }

    method Outputs() returns (validOut: bool, dataOut: State, lastOut: bool, keepOut: bv16)
      requires Valid()
      ensures validOut == Abs().ValidOut() && Payload(dataOut, lastOut, keepOut) == Abs().Out(CtrMode())
    {
      validOut, dataOut := core.validPipe[14], AddRoundKey(dataPipe[14], core.stage[14]);
      lastOut, keepOut := lastPipe[14], keepPipe[14];
    }
  }

  // With a key loaded beforehand and no other since, a block taken by the pipeline leaves it fifteen
  // edges later as its AES-256 cipher under the round keys of FIPS 197 for that key.
  lemma PipelineIsAes256(start: Pipe<State>, edges: seq<PipeEdge<State>>, key: Key, keys: seq<State>,
                         load: nat, t: nat, m: nat)
    requires IsKeySchedule(key, keys)
    requires Fits(start, edges) && |start.keys| == STAGES && |key| == 8 && load < t && m == t + STAGES <= |edges|
    requires edges[load].keyLoad && edges[load].keyIn == RoundKeys(key)
    requires forall k :: load <= k < m ==> !edges[k].rst && (load < k < m - 1 ==> !edges[k].keyLoad)
    ensures
      var now := After(Encrypting(), ZeroState(), start, edges, m);
      && now.valid[14] == edges[t].valid
      && (edges[t].valid ==> now.stage[14] == Cipher(keys, edges[t].data))
  {
    hide After, RoundKeys, IsKeySchedule;
    RoundKeysAreSchedule(key, keys);
    KeysLoaded(Encrypting(), ZeroState(), start, edges, load, t);
    InLastStage(Encrypting(), ZeroState(), start, edges, t, STAGES);
  }

  // That is also what the iterative encrypter holds, fifteen or more enabled edges after it was given
  // the same block and round keys.
  lemma PipelineRefinesEncrypter(start: Pipe<State>, edges: seq<PipeEdge<State>>, key: Key, keys: seq<State>,
                                 load: nat, t: nat, m: nat, machine: Sequencer<State>, machineEdges: seq<Edge<State>>)
    requires IsKeySchedule(key, keys)
    requires Fits(start, edges) && |start.keys| == STAGES && |key| == 8 && load < t && m == t + STAGES <= |edges|
    requires edges[load].keyLoad && edges[load].keyIn == RoundKeys(key) && edges[t].valid
    requires forall k :: load <= k < m ==> !edges[k].rst && (load < k < m - 1 ==> !edges[k].keyLoad)
    requires machine.roundCount == 1 && Enabled(machineEdges) >= STAGES && Loaded(machineEdges) == edges[t].data
    ensures
      var now := After(Encrypting(), ZeroState(), start, edges, m);
      now.valid[14] && now.stage[14] == Run(Encrypting(), keys, machine, machineEdges).state
  {
    hide After, Run, RoundKeys, IsKeySchedule;
    RoundKeysAreSchedule(key, keys);
    PipelineIsAes256(start, edges, key, keys, load, t, m);
    RunFollowsCascade(Encrypting(), keys, machine, machineEdges);
  }

  // What a payload becomes in AES-256 counter mode: last and keep stay, and byte by byte the data is
  // added to the cipher of the counter block.
  predicate IsAes256Ctr(keys: seq<State>, block: State, p: Payload<State>, out: Payload<State>)
    requires |keys| >= 2
  {
    && out.last == p.last && out.keep == p.keep
    && forall r: Index, c: Index :: At(out.data, r, c) == Add(At(p.data, r, c), At(Cipher(keys, block), r, c))
  }

  lemma MaskedIsAes256Ctr(keys: seq<State>, counter: nat, p: Payload<State>)
    requires |keys| >= 2
    ensures IsAes256Ctr(keys, CounterBlock(counter), p, Masked(CtrMode(), keys, counter, p))
  {
    hide Cascade, At, Add, CounterBlock, AddRoundKey;
    forall r: Index, c: Index
      ensures At(Masked(CtrMode(), keys, counter, p).data, r, c) ==
              Add(At(p.data, r, c), At(Cipher(keys, CounterBlock(counter)), r, c))
    {
      AddedByte(p.data, Cipher(keys, CounterBlock(counter)), r, c);
    }
  }

  // With a key loaded beforehand and a counter loaded by then, the k-th block accepted since leaves
  // exactly fifteen cycles later as data XOR AES256(key, ctr_init + k mod 2^128), with its own last
  // and keep; a bubble leaves as a bubble.
  lemma CtrStreamIsAes256(start: Stream<State>, edges: seq<StreamEdge<State>>, key: Key, keys: seq<State>,
                          load: nat, ctrLoad: nat, t: nat, m: nat)
    requires IsKeySchedule(key, keys)
    requires Suits(start, edges) && |start.pipe.keys| == STAGES && |key| == 8
    requires load < t && ctrLoad <= t && m == t + STAGES <= |edges|
    requires edges[load].keyLoad && edges[load].keyIn == RoundKeys(key) && edges[ctrLoad].ctrLoad
    requires forall k :: load <= k < m ==> !edges[k].rst && (load < k < m - 1 ==> !edges[k].keyLoad)
    requires forall k :: ctrLoad <= k <= t ==> !edges[k].rst && (k > ctrLoad ==> !edges[k].ctrLoad)
    ensures
      var now := StreamAfter(CtrMode(), start, edges, m);
      var counter := (edges[ctrLoad].ctrInit + BlocksSince(edges, ctrLoad, t)) % MODULUS;
      && now.ValidOut() == edges[t].valid
      && (edges[t].valid ==> IsAes256Ctr(keys, CounterBlock(counter), edges[t].payload, now.Out(CtrMode())))
  {
    hide StreamAfter, CtrMode, Masked, IsAes256Ctr, RoundKeys, IsKeySchedule, BlocksSince, Suits, CounterBlock;
    RoundKeysAreSchedule(key, keys);
    LoadedBlockLeavesMasked(CtrMode(), start, edges, load, ctrLoad, t, STAGES, m);
    MaskedIsAes256Ctr(keys, (edges[ctrLoad].ctrInit + BlocksSince(edges, ctrLoad, t)) % MODULUS, edges[t].payload);
  }

  lemma MaskIsInvolutive()
    ensures Involutive(CtrMode())
  {
    forall x, y
      ensures CtrMode().mask(CtrMode().mask(x, y), y) == x
    {
      AddRoundKeyTwice(x, y);
    }
  }

  // Decrypting is encrypting again: ciphertext fed back under the same key and first counter
  // comes out as the plaintext, with its last and keep marks.
  lemma CtrStreamRoundTrip(start: Stream<State>, edges: seq<StreamEdge<State>>, t: nat, m: nat,
                           again: Stream<State>, edges': seq<StreamEdge<State>>, u: nat, v: nat)
    requires Session(start, edges) && Session(again, edges')
    requires again.pipe.keys == start.pipe.keys && |start.pipe.keys| == STAGES
    requires FirstCounter(again, edges') == FirstCounter(start, edges)
    requires m == t + 14 <= |edges| && v == u + 14 <= |edges'|
    requires PayloadsIn(edges', u) == PayloadsOut(CtrMode(), start, edges, m)
    ensures PayloadsOut(CtrMode(), again, edges', v) == PayloadsIn(edges, t)
  {
    MaskIsInvolutive();
    SecondPassRestores(CtrMode(), start, edges, t, m, again, edges', u, v, STAGES);
  }
}
