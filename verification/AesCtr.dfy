/** Counter mode over the pipeline (`Project/aes256_ctr_stream.v`; section 6.5 of NIST SP 800-38A):
    a counter register, and the payload delayed in step with the keystream. The cipher, the
    encoding of the counter and the mask are parameters here. */
module AesCtr {
  import opened AesSequencer
  import opened AesPipeline

  const MODULUS: nat := 0x1_0000_0000_0000_0000_0000_0000_0000_0000

  datatype Payload<S> = Payload(data: S, last: bool, keep: bv16)

  datatype Mode<!S> = Mode(steps: Steps<S>, zero: S, block: nat -> S, mask: (S, S) -> S)

  datatype StreamEdge<S> = StreamEdge(rst: bool, keyLoad: bool, keyIn: seq<S>, ctrLoad: bool, ctrInit: nat,
                                      valid: bool, payload: Payload<S>)

  datatype Stream<S> = Stream(ctr: nat, pipe: Pipe<S>, delay: seq<Payload<S>>) {
    predicate Valid() {
      pipe.Valid() && |delay| == |pipe.keys| && ctr < MODULUS
    }

    // `ctr_for_aes`
    function CtrForAes(edge: StreamEdge<S>): nat {
      if edge.ctrLoad then edge.ctrInit else ctr
    }

    function PipeInput(mode: Mode<S>, edge: StreamEdge<S>): PipeEdge<S> {
      PipeEdge(edge.rst, edge.keyLoad, edge.keyIn, edge.valid, mode.block(CtrForAes(edge)))
    }

    function Next(mode: Mode<S>, edge: StreamEdge<S>): (next: Stream<S>)
      requires Valid() && |edge.keyIn| == |pipe.keys| && edge.ctrInit < MODULUS
      ensures next.Valid() && |next.pipe.keys| == |pipe.keys|
    {
      var n := |delay|;
      Stream(if edge.rst then 0 else if edge.valid then Successor(CtrForAes(edge)) else CtrForAes(edge),
             pipe.Next(mode.steps, mode.zero, PipeInput(mode, edge)),
             if edge.rst then seq(n, _ => Payload(mode.zero, false, 0)) else [edge.payload] + delay[..n - 1])
    }

    function ValidOut(): bool
      requires Valid()
    {
      pipe.valid[|delay| - 1]
    }

    // `data_out`, `last_out` and `keep_out`
    function Out(mode: Mode<S>): Payload<S>
      requires Valid()
    {
      var p := delay[|delay| - 1];
      p.(data := mode.mask(p.data, pipe.stage[|delay| - 1]))
    }
  }

  // Addition of one in 128 bits.
  function Successor(c: nat): (n: nat)
    requires c < MODULUS
    ensures n < MODULUS && n == (c + 1) % MODULUS
  {
    if c + 1 == MODULUS then 0 else c + 1
  }

  predicate Suits<S>(start: Stream<S>, edges: seq<StreamEdge<S>>) {
    && start.Valid()
    && (forall t :: 0 <= t < |edges| ==> |edges[t].keyIn| == |start.pipe.keys| && edges[t].ctrInit < MODULUS)
  }

  function StreamAfter<S>(mode: Mode<S>, start: Stream<S>, edges: seq<StreamEdge<S>>, t: nat): (s: Stream<S>)
    requires Suits(start, edges) && t <= |edges|
    ensures s.Valid() && |s.pipe.keys| == |start.pipe.keys|
  {
    if t == 0 then start else StreamAfter(mode, start, edges, t - 1).Next(mode, edges[t - 1])
  }

  // What the pipeline inside sees at the first t edges.
  function PipeInputs<S>(mode: Mode<S>, start: Stream<S>, edges: seq<StreamEdge<S>>, t: nat): (inputs: seq<PipeEdge<S>>)
    requires Suits(start, edges) && t <= |edges|
    ensures |inputs| == t
  {
    if t == 0 then []
    else PipeInputs(mode, start, edges, t - 1) + [StreamAfter(mode, start, edges, t - 1).PipeInput(mode, edges[t - 1])]
  }

  lemma {:induction false} PipeInputAt<S>(mode: Mode<S>, start: Stream<S>, edges: seq<StreamEdge<S>>, t: nat, k: nat)
    requires Suits(start, edges) && k < t <= |edges|
    ensures PipeInputs(mode, start, edges, t)[k] == StreamAfter(mode, start, edges, k).PipeInput(mode, edges[k])
  {
    if k < t - 1 {
      PipeInputAt(mode, start, edges, t - 1, k);
    }
  }

  lemma PipeInputsFit<S>(mode: Mode<S>, start: Stream<S>, edges: seq<StreamEdge<S>>)
    requires Suits(start, edges)
    ensures Fits(start.pipe, PipeInputs(mode, start, edges, |edges|))
  {
    var inputs := PipeInputs(mode, start, edges, |edges|);
    forall k | 0 <= k < |inputs|
      ensures |inputs[k].keyIn| == |start.pipe.keys|
    {
      PipeInputAt(mode, start, edges, |edges|, k);
    }
  }

  lemma {:induction false} PipeInside<S>(mode: Mode<S>, start: Stream<S>, edges: seq<StreamEdge<S>>,
                                         inputs: seq<PipeEdge<S>>, t: nat)
    requires Suits(start, edges) && t <= |edges|
    requires inputs == PipeInputs(mode, start, edges, |edges|) && Fits(start.pipe, inputs)
    ensures StreamAfter(mode, start, edges, t).pipe == After(mode.steps, mode.zero, start.pipe, inputs, t)
  {
    if t > 0 {
      PipeInside(mode, start, edges, inputs, t - 1);
      PipeInputAt(mode, start, edges, |edges|, t - 1);
    }
  }

  // The counter last loaded (0 after a reset) and the number of blocks accepted since.
  function Base<S>(start: Stream<S>, edges: seq<StreamEdge<S>>, t: nat): nat
    requires t <= |edges|
  {
    if t == 0 then start.ctr
    else if edges[t - 1].rst then 0
    else if edges[t - 1].ctrLoad then edges[t - 1].ctrInit
    else Base(start, edges, t - 1)
  }

  function Count<S>(edges: seq<StreamEdge<S>>, t: nat): nat
    requires t <= |edges|
  {
    if t == 0 || edges[t - 1].rst then 0
    else (if edges[t - 1].ctrLoad then 0 else Count(edges, t - 1)) + (if edges[t - 1].valid then 1 else 0)
  }

  function Tally<S>(start: Stream<S>, edges: seq<StreamEdge<S>>, t: nat): nat
    requires t <= |edges|
  {
    Base(start, edges, t) + Count(edges, t)
  }

  // The counter block of the block offered at edge t: ctr_init plus the number of blocks before it.
  function CounterOf<S>(start: Stream<S>, edges: seq<StreamEdge<S>>, t: nat): nat
    requires t < |edges|
  {
    if edges[t].ctrLoad then edges[t].ctrInit % MODULUS else Tally(start, edges, t) % MODULUS
  }

  lemma SuccessorOfSum(c: nat, x: nat)
    requires c == x % MODULUS
    ensures Successor(c) == (x + 1) % MODULUS
  {
  }

  // The counter after one edge.
  lemma CounterStep<S>(mode: Mode<S>, s: Stream<S>, edge: StreamEdge<S>)
    requires s.Valid() && |edge.keyIn| == |s.pipe.keys| && edge.ctrInit < MODULUS
    ensures s.Next(mode, edge).ctr ==
            if edge.rst then 0 else if edge.valid then Successor(s.CtrForAes(edge)) else s.CtrForAes(edge)
  {
  }

  lemma TallyStep<S>(start: Stream<S>, edges: seq<StreamEdge<S>>, t: nat)
    requires 0 < t <= |edges|
    ensures
      var edge := edges[t - 1];
      Tally(start, edges, t) ==
      if edge.rst then 0
      else (if edge.ctrLoad then edge.ctrInit else Tally(start, edges, t - 1)) + (if edge.valid then 1 else 0)
  {
  }

  lemma CounterWraps(ctr: nat, tally: nat, valid: bool)
    requires ctr < MODULUS && ctr == tally % MODULUS
    ensures (if valid then Successor(ctr) else ctr) == (tally + (if valid then 1 else 0)) % MODULUS
  {
    SuccessorOfSum(ctr, tally);
  }

  lemma {:induction false} CounterCounts<S>(mode: Mode<S>, start: Stream<S>, edges: seq<StreamEdge<S>>, t: nat)
    requires Suits(start, edges) && t <= |edges|
    ensures StreamAfter(mode, start, edges, t).ctr == Tally(start, edges, t) % MODULUS
  {
    if t == 0 {
      Small(start.ctr);
    } else {
      var edge, before := edges[t - 1], StreamAfter(mode, start, edges, t - 1);
      CounterCounts(mode, start, edges, t - 1);
      CounterStep(mode, before, edge);
      TallyStep(start, edges, t);
      Small(edge.ctrInit);
      Small(0);
      CounterWraps(before.CtrForAes(edge), if edge.ctrLoad then edge.ctrInit else Tally(start, edges, t - 1), edge.valid);
    }
  }

  lemma Small(c: nat)
    requires c < MODULUS
    ensures c % MODULUS == c
  {
  }

  lemma {:induction false} PayloadDelayed<S>(mode: Mode<S>, start: Stream<S>, edges: seq<StreamEdge<S>>, t: nat, i: nat)
    requires Suits(start, edges) && i < |start.pipe.keys| && t + i < |edges|
    requires forall k :: t <= k <= t + i ==> !edges[k].rst
    ensures StreamAfter(mode, start, edges, t + i + 1).delay[i] == edges[t].payload
  {
    if i > 0 {
      PayloadDelayed(mode, start, edges, t, i - 1);
    }
  }

  lemma InputsUndisturbed<S>(mode: Mode<S>, start: Stream<S>, edges: seq<StreamEdge<S>>,
                             inputs: seq<PipeEdge<S>>, t: nat, n: nat)
    requires Suits(start, edges) && t + n <= |edges| && inputs == PipeInputs(mode, start, edges, |edges|)
    requires forall k :: t <= k < t + n ==> !edges[k].rst
    requires forall k :: t <= k < t + n - 1 ==> !edges[k].keyLoad
    ensures Undisturbed(inputs, t, t + n)
  {
    forall k | t <= k < t + n
      ensures inputs[k].rst == edges[k].rst && inputs[k].keyLoad == edges[k].keyLoad
    {
      PipeInputAt(mode, start, edges, |edges|, k);
    }
  }

  // The cipher of the counter of edge t reaches the last stage.
  lemma Keystream<S>(mode: Mode<S>, start: Stream<S>, edges: seq<StreamEdge<S>>, inputs: seq<PipeEdge<S>>, t: nat, n: nat,
                     was: Stream<S>, now: Stream<S>)
    requires Suits(start, edges) && n == |start.pipe.keys| && t + n <= |edges|
    requires inputs == PipeInputs(mode, start, edges, |edges|)
    requires Fits(start.pipe, inputs) && Undisturbed(inputs, t, t + n)
    requires was == StreamAfter(mode, start, edges, t) && now == StreamAfter(mode, start, edges, t + n)
    ensures KeystreamAt(mode, was, edges[t], now.pipe)
  {
    PipeInside(mode, start, edges, inputs, t);
    PipeInside(mode, start, edges, inputs, t + n);
    PipeInputAt(mode, start, edges, |edges|, t);
    InLastStage(mode.steps, mode.zero, start.pipe, inputs, t, n);
    KeystreamOf(mode, was, edges[t], now.pipe, inputs[t]);
  }

  ghost predicate KeystreamAt<S>(mode: Mode<S>, was: Stream<S>, edge: StreamEdge<S>, now: Pipe<S>)
    requires was.Valid() && now.Valid()
  {
    var n := |now.keys|;
    && now.valid[n - 1] == edge.valid
    && (edge.valid ==> now.stage[n - 1] == Cascade(mode.steps, was.pipe.keys, mode.block(was.CtrForAes(edge))))
  }

  lemma KeystreamOf<S>(mode: Mode<S>, was: Stream<S>, edge: StreamEdge<S>, now: Pipe<S>, input: PipeEdge<S>)
    requires was.Valid() && now.Valid() && input == was.PipeInput(mode, edge)
    requires now.valid[|now.keys| - 1] == input.valid
    requires input.valid ==> now.stage[|now.keys| - 1] == Cascade(mode.steps, was.pipe.keys, input.data)
    ensures KeystreamAt(mode, was, edge, now)
  {
  }

  lemma CounterIsCounterOf<S>(mode: Mode<S>, start: Stream<S>, edges: seq<StreamEdge<S>>, t: nat)
    requires Suits(start, edges) && t < |edges|
    ensures StreamAfter(mode, start, edges, t).CtrForAes(edges[t]) == CounterOf(start, edges, t)
  {
    CounterCounts(mode, start, edges, t);
    Small(edges[t].ctrInit);
  }

  // The blocks accepted at edges load to t - 1.
  function BlocksSince<S>(edges: seq<StreamEdge<S>>, load: nat, t: nat): nat
    requires load <= t <= |edges|
  {
    if t == load then 0 else BlocksSince(edges, load, t - 1) + (if edges[t - 1].valid then 1 else 0)
  }

  lemma {:induction false} TallySince<S>(start: Stream<S>, edges: seq<StreamEdge<S>>, load: nat, t: nat)
    requires load < t <= |edges| && edges[load].ctrLoad
    requires forall k :: load <= k < t ==> !edges[k].rst && (k > load ==> !edges[k].ctrLoad)
    ensures Base(start, edges, t) == edges[load].ctrInit && Count(edges, t) == BlocksSince(edges, load, t)
  {
    if load < t - 1 {
      TallySince(start, edges, load, t - 1);
    }
  }

  // The k-th block accepted since the last load of the counter uses the value loaded plus k.
  lemma CounterSince<S>(start: Stream<S>, edges: seq<StreamEdge<S>>, load: nat, t: nat)
    requires load <= t < |edges| && edges[load].ctrLoad
    requires forall k :: load <= k <= t ==> (k < t ==> !edges[k].rst) && (k > load ==> !edges[k].ctrLoad)
    ensures CounterOf(start, edges, t) == (edges[load].ctrInit + BlocksSince(edges, load, t)) % MODULUS
  {
    if load < t {
      TallySince(start, edges, load, t);
    }
  }

  lemma {:induction false} StreamKeysLoaded<S>(mode: Mode<S>, start: Stream<S>, edges: seq<StreamEdge<S>>, load: nat, t: nat)
    requires Suits(start, edges) && load < t <= |edges| && edges[load].keyLoad
    requires forall k :: load <= k < t ==> !edges[k].rst && (k > load ==> !edges[k].keyLoad)
    ensures StreamAfter(mode, start, edges, t).pipe.keys == edges[load].keyIn
  {
    if load < t - 1 {
      StreamKeysLoaded(mode, start, edges, load, t - 1);
    }
  }

  // What leaves for a payload under a key and a counter.
  function Masked<S>(mode: Mode<S>, keys: seq<S>, counter: nat, p: Payload<S>): Payload<S>
    requires |keys| >= 2
  {
    p.(data := mode.mask(p.data, Cascade(mode.steps, keys, mode.block(counter))))
  }

  lemma OutIsMasked<S>(mode: Mode<S>, was: Stream<S>, edge: StreamEdge<S>, now: Stream<S>)
    requires was.Valid() && now.Valid() && KeystreamAt(mode, was, edge, now.pipe)
    requires now.delay[|now.delay| - 1] == edge.payload
    ensures now.ValidOut() == edge.valid
    ensures edge.valid ==> now.Out(mode) == Masked(mode, was.pipe.keys, was.CtrForAes(edge), edge.payload)
  {
  }

  // In every run, n edges after it was offered a block leaves with its own last and keep, masked
  // with the cipher of its counter under the key then in place; a bubble leaves as a bubble.
  lemma BlockLeavesMasked<S>(mode: Mode<S>, start: Stream<S>, edges: seq<StreamEdge<S>>, t: nat, n: nat)
    requires Suits(start, edges) && n == |start.pipe.keys| && t + n <= |edges|
    requires forall k :: t <= k < t + n ==> !edges[k].rst
    requires forall k :: t <= k < t + n - 1 ==> !edges[k].keyLoad
    ensures
      var keys, now := StreamAfter(mode, start, edges, t).pipe.keys, StreamAfter(mode, start, edges, t + n);
      && now.ValidOut() == edges[t].valid
      && (edges[t].valid ==> now.Out(mode) == Masked(mode, keys, CounterOf(start, edges, t), edges[t].payload))
  {
    hide StreamAfter, PipeInputs;
    var inputs := PipeInputs(mode, start, edges, |edges|);
    var was, now := StreamAfter(mode, start, edges, t), StreamAfter(mode, start, edges, t + n);
    PipeInputsFit(mode, start, edges);
    InputsUndisturbed(mode, start, edges, inputs, t, n);
    Keystream(mode, start, edges, inputs, t, n, was, now);
    PayloadDelayed(mode, start, edges, t, n - 1);
    CounterIsCounterOf(mode, start, edges, t);
    OutIsMasked(mode, was, edges[t], now);
  }

  // The same, with the edges at which key and counter were last loaded.
  lemma LoadedBlockLeavesMasked<S>(mode: Mode<S>, start: Stream<S>, edges: seq<StreamEdge<S>>, load: nat, ctrLoad: nat,
                                   t: nat, n: nat, m: nat)
    requires Suits(start, edges) && n == |start.pipe.keys| && load < t && ctrLoad <= t && m == t + n <= |edges|
    requires edges[load].keyLoad && edges[ctrLoad].ctrLoad
    requires forall k :: load <= k < m ==> !edges[k].rst && (load < k < m - 1 ==> !edges[k].keyLoad)
    requires forall k :: ctrLoad <= k <= t ==> !edges[k].rst && (k > ctrLoad ==> !edges[k].ctrLoad)
    ensures
      var now := StreamAfter(mode, start, edges, m);
      var counter := (edges[ctrLoad].ctrInit + BlocksSince(edges, ctrLoad, t)) % MODULUS;
      && now.ValidOut() == edges[t].valid
      && (edges[t].valid ==> now.Out(mode) == Masked(mode, edges[load].keyIn, counter, edges[t].payload))
  {
    hide StreamAfter;
    StreamKeysLoaded(mode, start, edges, load, t);
    CounterSince(start, edges, ctrLoad, t);
    BlockLeavesMasked(mode, start, edges, t, n);
  }
}
