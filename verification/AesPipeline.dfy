/** A pipeline with one register stage per round key (`Project/aes256_pipeline_top.v`). What the
    stages compute is a parameter here. */
module AesPipeline {
  import opened AesSequencer

  // The inputs at one clock edge; keyIn is the expansion of key_in.
  datatype PipeEdge<S> = PipeEdge(rst: bool, keyLoad: bool, keyIn: seq<S>, valid: bool, data: S)

  datatype Pipe<S> = Pipe(keys: seq<S>, stage: seq<S>, valid: seq<bool>) {
    predicate Valid() {
      |keys| == |stage| == |valid| >= 2
    }

    // `stage<i>_next` and the valid bit that enables it.
    function Offered(steps: Steps<S>, edge: PipeEdge<S>, i: nat): S
      requires Valid() && i < |keys|
    {
      if i == 0 then steps.first(edge.data, keys[0])
      else if i < |keys| - 1 then steps.middle(stage[i - 1], keys[i])
      else steps.last(stage[i - 1], keys[i])
    }

    function Enabled(edge: PipeEdge<S>, i: nat): bool
      requires Valid() && i < |keys|
    {
      if i == 0 then edge.valid else valid[i - 1]
    }

    function Next(steps: Steps<S>, zero: S, edge: PipeEdge<S>): (next: Pipe<S>)
      requires Valid() && |edge.keyIn| == |keys|
      ensures next.Valid() && |next.keys| == |keys|
    {
      var n := |keys|;
      if edge.rst then Pipe(seq(n, _ => zero), seq(n, _ => zero), seq(n, _ => false))
      else
        Pipe(if edge.keyLoad then edge.keyIn else keys,
             seq(n, i requires 0 <= i < n => if Enabled(edge, i) then Offered(steps, edge, i) else stage[i]),
             seq(n, i requires 0 <= i < n => Enabled(edge, i)))
    }
  }

  predicate Fits<S>(start: Pipe<S>, edges: seq<PipeEdge<S>>) {
    start.Valid() && forall t :: 0 <= t < |edges| ==> |edges[t].keyIn| == |start.keys|
  }

  // The pipeline after the first t edges.
  function After<S>(steps: Steps<S>, zero: S, start: Pipe<S>, edges: seq<PipeEdge<S>>, t: nat): (p: Pipe<S>)
    requires Fits(start, edges) && t <= |edges|
    ensures p.Valid() && |p.keys| == |start.keys|
  {
    if t == 0 then start else After(steps, zero, start, edges, t - 1).Next(steps, zero, edges[t - 1])
  }

  // Neither reset in edges t to u - 1, nor given another key before the last of them.
  predicate Undisturbed<S>(edges: seq<PipeEdge<S>>, t: nat, u: nat) {
    && t <= u <= |edges|
    && (forall k :: t <= k < u ==> !edges[k].rst)
    && (forall k :: t <= k < u - 1 ==> !edges[k].keyLoad)
  }

  lemma {:induction false} KeysKept<S>(steps: Steps<S>, zero: S, start: Pipe<S>, edges: seq<PipeEdge<S>>, t: nat, u: nat)
    requires Fits(start, edges) && Undisturbed(edges, t, u) && t < u
    ensures After(steps, zero, start, edges, u - 1).keys == After(steps, zero, start, edges, t).keys
  {
    if t < u - 1 {
      KeysKept(steps, zero, start, edges, t, u - 1);
    }
  }

  // After a key load the register holds the key loaded until the next one.
  lemma {:induction false} KeysLoaded<S>(steps: Steps<S>, zero: S, start: Pipe<S>, edges: seq<PipeEdge<S>>, load: nat, t: nat)
    requires Fits(start, edges) && load < t <= |edges| && edges[load].keyLoad
    requires forall k :: load <= k < t ==> !edges[k].rst && (k > load ==> !edges[k].keyLoad)
    ensures After(steps, zero, start, edges, t).keys == edges[load].keyIn
  {
    if load < t - 1 {
      KeysLoaded(steps, zero, start, edges, load, t - 1);
    }
  }

  lemma StageStep<S>(steps: Steps<S>, zero: S, p: Pipe<S>, edge: PipeEdge<S>, i: nat)
    requires p.Valid() && |edge.keyIn| == |p.keys| && !edge.rst && i < |p.keys|
    ensures
      var next := p.Next(steps, zero, edge);
      next.valid[i] == p.Enabled(edge, i) && (p.Enabled(edge, i) ==> next.stage[i] == p.Offered(steps, edge, i))
  {
  }

  // What was offered at edge t is in stage i after i more edges, whatever else is in flight.
  lemma {:induction false} InStage<S>(steps: Steps<S>, zero: S, start: Pipe<S>, edges: seq<PipeEdge<S>>, t: nat, i: nat)
    requires Fits(start, edges) && i < |start.keys| && Undisturbed(edges, t, t + i + 1)
    ensures
      var keys, now := After(steps, zero, start, edges, t).keys, After(steps, zero, start, edges, t + i + 1);
      && now.valid[i] == edges[t].valid
      && (edges[t].valid ==> now.stage[i] == if i < |start.keys| - 1 then Rounds(steps, keys, edges[t].data, i)
                                             else Cascade(steps, keys, edges[t].data))
  {
    hide Pipe.Next;
    KeysKept(steps, zero, start, edges, t, t + i + 1);
    StageStep(steps, zero, After(steps, zero, start, edges, t + i), edges[t + i], i);
    if i > 0 {
      InStage(steps, zero, start, edges, t, i - 1);
    }
  }

  // n edges after it was offered, a block is in the last of the n stages.
  lemma InLastStage<S>(steps: Steps<S>, zero: S, start: Pipe<S>, edges: seq<PipeEdge<S>>, t: nat, n: nat)
    requires Fits(start, edges) && n == |start.keys| && Undisturbed(edges, t, t + n)
    ensures
      var keys, now := After(steps, zero, start, edges, t).keys, After(steps, zero, start, edges, t + n);
      && now.valid[n - 1] == edges[t].valid
      && (edges[t].valid ==> now.stage[n - 1] == Cascade(steps, keys, edges[t].data))
  {
    InStage(steps, zero, start, edges, t, n - 1);
  }

  // A run without reset or key change that finds the pipeline empty.
  predicate Quiet<S>(start: Pipe<S>, edges: seq<PipeEdge<S>>) {
    && Fits(start, edges)
    && (forall i :: 0 <= i < |start.valid| ==> !start.valid[i])
    && (forall t :: 0 <= t < |edges| ==> !edges[t].rst && !edges[t].keyLoad)
  }

  // The blocks taken in by the first t edges.
  function Accepted<S>(edges: seq<PipeEdge<S>>, t: nat): seq<S>
    requires t <= |edges|
  {
    if t == 0 then [] else Accepted(edges, t - 1) + (if edges[t - 1].valid then [edges[t - 1].data] else [])
  }

  // What the output shows, and what it has shown before the first edge and after each of the first
  // t edges.
  function OutNow<S>(now: Pipe<S>): seq<S>
    requires now.Valid()
  {
    if now.valid[|now.keys| - 1] then [now.stage[|now.keys| - 1]] else []
  }

  function Emitted<S>(steps: Steps<S>, zero: S, start: Pipe<S>, edges: seq<PipeEdge<S>>, t: nat): seq<S>
    requires Fits(start, edges) && t <= |edges|
  {
    (if t == 0 then [] else Emitted(steps, zero, start, edges, t - 1)) + OutNow(After(steps, zero, start, edges, t))
  }

  function Enciphered<S>(steps: Steps<S>, keys: seq<S>, blocks: seq<S>): (out: seq<S>)
    requires |keys| >= 2
    ensures |out| == |blocks|
  {
    seq(|blocks|, i requires 0 <= i < |blocks| => Cascade(steps, keys, blocks[i]))
  }

  lemma {:induction false} StillEmpty<S>(steps: Steps<S>, zero: S, start: Pipe<S>, edges: seq<PipeEdge<S>>, t: nat, i: nat)
    requires Quiet(start, edges) && t <= i < |start.keys| && t <= |edges|
    ensures !After(steps, zero, start, edges, t).valid[i]
  {
    if t > 0 {
      StillEmpty(steps, zero, start, edges, t - 1, i - 1);
    }
  }

  lemma NoneOut<S>(steps: Steps<S>, zero: S, start: Pipe<S>, edges: seq<PipeEdge<S>>, k: nat)
    requires Quiet(start, edges) && k <= |edges| && k < |start.keys|
    ensures OutNow(After(steps, zero, start, edges, k)) == []
  {
    StillEmpty(steps, zero, start, edges, k, |start.keys| - 1);
  }

  // What one edge adds to the output.
  function Added<S>(steps: Steps<S>, keys: seq<S>, edge: PipeEdge<S>): seq<S>
    requires |keys| >= 2
  {
    if edge.valid then [Cascade(steps, keys, edge.data)] else []
  }

  lemma OneOut<S>(steps: Steps<S>, zero: S, start: Pipe<S>, edges: seq<PipeEdge<S>>, t: nat, n: nat, k: nat)
    requires Quiet(start, edges) && n == |start.keys| && k == t + n <= |edges|
    ensures OutNow(After(steps, zero, start, edges, k)) == Added(steps, start.keys, edges[t])
  {
    InLastStage(steps, zero, start, edges, t, n);
    KeysKept(steps, zero, start, edges, 0, t + 1);
  }

  lemma EncipheredAppend<S>(steps: Steps<S>, keys: seq<S>, blocks: seq<S>, edge: PipeEdge<S>)
    requires |keys| >= 2
    ensures Enciphered(steps, keys, blocks + (if edge.valid then [edge.data] else [])) ==
            Enciphered(steps, keys, blocks) + Added(steps, keys, edge)
  {
  }

  lemma {:induction false} NoneEmitted<S>(steps: Steps<S>, zero: S, start: Pipe<S>, edges: seq<PipeEdge<S>>, t: nat)
    requires Quiet(start, edges) && t <= |edges| && t < |start.keys|
    ensures Emitted(steps, zero, start, edges, t) == []
  {
    NoneOut(steps, zero, start, edges, t);
    if t > 0 {
      NoneEmitted(steps, zero, start, edges, t - 1);
    }
  }

  // The valid outputs are the ciphers of the blocks taken in, in order, none lost or repeated;
  // with n stages, those taken in by the first t edges have all left n - 1 edges later.
  lemma {:induction false} EmittedAreEnciphered<S>(steps: Steps<S>, zero: S, start: Pipe<S>, edges: seq<PipeEdge<S>>,
                                                   t: nat, n: nat, m: nat)
    requires Quiet(start, edges) && n == |start.keys| && m == t + n - 1 <= |edges|
    ensures Emitted(steps, zero, start, edges, m) == Enciphered(steps, start.keys, Accepted(edges, t))
  {
    if t == 0 {
      NoneEmitted(steps, zero, start, edges, m);
    } else {
      EmittedAreEnciphered(steps, zero, start, edges, t - 1, n, m - 1);
      OneOut(steps, zero, start, edges, t - 1, n, m);
      EncipheredAppend(steps, start.keys, Accepted(edges, t - 1), edges[t - 1]);
    }
  }
}
