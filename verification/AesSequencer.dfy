/** The round sequencer that `Project/AESEncrypt.v` and `Project/AESDecrypt.v` share: a register
    and a round counter stepping through a list of round keys. What the steps compute is a
    parameter here. */
module AesSequencer {
  datatype Steps<!S> = Steps(first: (S, S) -> S, middle: (S, S) -> S, last: (S, S) -> S)

  // The state after the first step and n middle steps.
  function Rounds<S>(steps: Steps<S>, keys: seq<S>, block: S, n: nat): S
    requires n < |keys|
  {
    if n == 0 then steps.first(block, keys[0])
    else steps.middle(Rounds(steps, keys, block, n - 1), keys[n])
  }

  // One step for each key, the first and the last being special.
  function Cascade<S>(steps: Steps<S>, keys: seq<S>, block: S): S
    requires |keys| >= 2
  {
    steps.last(Rounds(steps, keys, block, |keys| - 2), keys[|keys| - 1])
  }

  function Reverse<T>(s: seq<T>): (r: seq<T>)
    ensures |r| == |s| && forall i :: 0 <= i < |s| ==> r[i] == s[|s| - 1 - i]
  {
    seq(|s|, i requires 0 <= i < |s| => s[|s| - 1 - i])
  }

  // When each step of one cascade undoes a step of another up to a common intermediate form,
  // the two meet in the middle...
  ghost predicate Undoes<S(!new)>(inv: Steps<S>, steps: Steps<S>, form: S -> S) {
    && (forall s, k :: inv.first(steps.last(s, k), k) == form(s))
    && (forall s, k :: inv.middle(form(steps.middle(s, k)), k) == form(s))
    && (forall s, k :: inv.last(form(steps.first(s, k)), k) == s)
  }

  lemma {:induction false} CascadesMeet<S(!new)>(inv: Steps<S>, steps: Steps<S>, form: S -> S,
                                                 keys: seq<S>, block: S, n: nat, m: nat)
    requires Undoes(inv, steps, form) && n + m == |keys| - 2
    ensures Rounds(inv, Reverse(keys), Cascade(steps, keys, block), n) == form(Rounds(steps, keys, block, m))
  {
    if n > 0 {
      CascadesMeet(inv, steps, form, keys, block, n - 1, m + 1);
      assert Reverse(keys)[n] == keys[m + 1];
    }
  }

  // ...and the reversed keys bring the block back.
  lemma CascadeUndone<S(!new)>(inv: Steps<S>, steps: Steps<S>, form: S -> S, keys: seq<S>, block: S)
    requires Undoes(inv, steps, form) && |keys| >= 2
    ensures Cascade(inv, Reverse(keys), Cascade(steps, keys, block)) == block
  {
    CascadesMeet(inv, steps, form, keys, block, |keys| - 2, 0);
  }

  // The wires up to the register, in the round counted by roundCount.
  function StateOut<S>(steps: Steps<S>, roundCount: nat, rounds: nat, state: S, data: S, key: S): S {
    if roundCount == 1 then steps.first(data, key)
    else if roundCount < rounds + 1 then steps.middle(state, key)
    else steps.last(state, key)
  }

  datatype Edge<S> = Edge(data: S, enable: bool, reset: bool)

  datatype Sequencer<S> = Sequencer(state: S, roundCount: nat) {
    predicate Valid(keys: seq<S>) {
      1 <= roundCount <= |keys| + 1
    }

    // One clock edge, or an asynchronous reset.
    function Next(steps: Steps<S>, keys: seq<S>, edge: Edge<S>): (next: Sequencer<S>)
      requires Valid(keys)
      ensures next.Valid(keys)
    {
      if edge.reset then Sequencer(state, 1)
      else if !edge.enable || roundCount > |keys| then this
      else
        Sequencer(StateOut(steps, roundCount, |keys| - 1, state, edge.data, keys[roundCount - 1]), roundCount + 1)
    }
  }

  function Run<S>(steps: Steps<S>, keys: seq<S>, start: Sequencer<S>, edges: seq<Edge<S>>): (s: Sequencer<S>)
    requires start.Valid(keys)
    ensures s.Valid(keys)
  {
    if edges == [] then start
    else Run(steps, keys, start, edges[..|edges| - 1]).Next(steps, keys, edges[|edges| - 1])
  }

  // The number of enabled edges since the last reset.
  function Enabled<S>(edges: seq<Edge<S>>): nat {
    if edges == [] then 0
    else
      var last := edges[|edges| - 1];
      if last.reset then 0 else Enabled(edges[..|edges| - 1]) + (if last.enable then 1 else 0)
  }

  // The data presented at the first enabled edge since the last reset.
  function Loaded<S>(edges: seq<Edge<S>>): S
    requires Enabled(edges) > 0
  {
    var before, last := edges[..|edges| - 1], edges[|edges| - 1];
    if last.enable && Enabled(before) == 0 then last.data else Loaded(before)
  }

  // In every run that starts idle, the register holds the data loaded, taken through as many
  // steps as there were enabled edges, and then keeps the result of the last step.
  lemma {:induction false} RunFollowsCascade<S>(steps: Steps<S>, keys: seq<S>, start: Sequencer<S>,
                                                edges: seq<Edge<S>>)
    requires |keys| >= 2 && start.roundCount == 1
    ensures
      var now, n := Run(steps, keys, start, edges), Enabled(edges);
      && now.roundCount == (if n < |keys| then n else |keys|) + 1
      && (0 < n < |keys| ==> now.state == Rounds(steps, keys, Loaded(edges), n - 1))
      && (n >= |keys| ==> now.state == Cascade(steps, keys, Loaded(edges)))
  {
    if edges != [] {
      RunFollowsCascade(steps, keys, start, edges[..|edges| - 1]);
    }
  }
}
