/** One message through the counter-mode stream: the payloads that leave are those that entered,
    masked with successive counters, and a second pass restores them. */
module AesCtrSession {
  import opened AesPipeline
  import opened AesCtr

  // A run that finds the pipeline empty, without reset or key change, in which the counter is
  // loaded at the first edge if at all.
  predicate Session<S>(start: Stream<S>, edges: seq<StreamEdge<S>>) {
    && Suits(start, edges)
    && (forall i :: 0 <= i < |start.pipe.valid| ==> !start.pipe.valid[i])
    && (forall t :: 0 <= t < |edges| ==> !edges[t].rst && !edges[t].keyLoad)
    && (forall t :: 0 < t < |edges| ==> !edges[t].ctrLoad)
  }

  function FirstCounter<S>(start: Stream<S>, edges: seq<StreamEdge<S>>): nat {
    if edges != [] && edges[0].ctrLoad then edges[0].ctrInit else start.ctr
  }

  // The payloads taken in by the first t edges.
  function PayloadsIn<S>(edges: seq<StreamEdge<S>>, t: nat): seq<Payload<S>>
    requires t <= |edges|
  {
    if t == 0 then [] else PayloadsIn(edges, t - 1) + (if edges[t - 1].valid then [edges[t - 1].payload] else [])
  }

  // What the outputs show, and what they have shown before the first edge and after each of the
  // first t edges.
  function OutNow<S>(mode: Mode<S>, now: Stream<S>): seq<Payload<S>>
    requires now.Valid()
  {
    if now.ValidOut() then [now.Out(mode)] else []
  }

  function PayloadsOut<S>(mode: Mode<S>, start: Stream<S>, edges: seq<StreamEdge<S>>, t: nat): seq<Payload<S>>
    requires Suits(start, edges) && t <= |edges|
  {
    (if t == 0 then [] else PayloadsOut(mode, start, edges, t - 1)) + OutNow(mode, StreamAfter(mode, start, edges, t))
  }

  // NIST SP 800-38A section 6.5, the counters being first, first + 1, ... modulo 2^128.
  function CtrText<S>(mode: Mode<S>, keys: seq<S>, first: nat, text: seq<Payload<S>>): (out: seq<Payload<S>>)
    requires |keys| >= 2
    ensures |out| == |text|
  {
    seq(|text|, j requires 0 <= j < |text| => Masked(mode, keys, (first + j) % MODULUS, text[j]))
  }

  // What the block of one edge adds to the text.
  function Added<S>(mode: Mode<S>, keys: seq<S>, counter: nat, edge: StreamEdge<S>): seq<Payload<S>>
    requires |keys| >= 2
  {
    if edge.valid then [Masked(mode, keys, counter, edge.payload)] else []
  }

  lemma CtrTextAppend<S>(mode: Mode<S>, keys: seq<S>, first: nat, text: seq<Payload<S>>, edge: StreamEdge<S>)
    requires |keys| >= 2
    ensures CtrText(mode, keys, first, text + (if edge.valid then [edge.payload] else [])) ==
            CtrText(mode, keys, first, text) + Added(mode, keys, (first + |text|) % MODULUS, edge)
  {
  }

  // What the edge at position k adds.
  function TextPart<S>(mode: Mode<S>, keys: seq<S>, first: nat, edges: seq<StreamEdge<S>>, k: nat): seq<Payload<S>>
    requires |keys| >= 2 && k < |edges|
  {
    Added(mode, keys, (first + |PayloadsIn(edges, k)|) % MODULUS, edges[k])
  }

  lemma {:induction false} SessionTally<S>(start: Stream<S>, edges: seq<StreamEdge<S>>, t: nat)
    requires Session(start, edges) && t <= |edges|
    ensures Count(edges, t) == |PayloadsIn(edges, t)|
    ensures t > 0 ==> Base(start, edges, t) == FirstCounter(start, edges)
  {
    if t > 0 {
      SessionTally(start, edges, t - 1);
    }
  }

  lemma SessionCounter<S>(start: Stream<S>, edges: seq<StreamEdge<S>>, t: nat)
    requires Session(start, edges) && t < |edges|
    ensures CounterOf(start, edges, t) == (FirstCounter(start, edges) + |PayloadsIn(edges, t)|) % MODULUS
  {
    SessionTally(start, edges, t);
  }

  lemma {:induction false} KeysHeld<S>(mode: Mode<S>, start: Stream<S>, edges: seq<StreamEdge<S>>, t: nat)
    requires Session(start, edges) && t <= |edges|
    ensures StreamAfter(mode, start, edges, t).pipe.keys == start.pipe.keys
  {
    if t > 0 {
      KeysHeld(mode, start, edges, t - 1);
    }
  }

  lemma {:induction false} StagesEmpty<S>(mode: Mode<S>, start: Stream<S>, edges: seq<StreamEdge<S>>, t: nat, i: nat)
    requires Session(start, edges) && t <= i < |start.pipe.keys| && t <= |edges|
    ensures !StreamAfter(mode, start, edges, t).pipe.valid[i]
  {
    if t > 0 {
      StagesEmpty(mode, start, edges, t - 1, i - 1);
    }
  }

  lemma NoneOut<S>(mode: Mode<S>, start: Stream<S>, edges: seq<StreamEdge<S>>, k: nat)
    requires Session(start, edges) && k <= |edges| && k < |start.pipe.keys|
    ensures OutNow(mode, StreamAfter(mode, start, edges, k)) == []
  {
    StagesEmpty(mode, start, edges, k, |start.pipe.keys| - 1);
  }

  // The payload leaving n edges after edge t, if any.
  lemma OneOut<S>(mode: Mode<S>, start: Stream<S>, edges: seq<StreamEdge<S>>, t: nat, n: nat, k: nat)
    requires Session(start, edges) && n == |start.pipe.keys| && k == t + n <= |edges|
    ensures OutNow(mode, StreamAfter(mode, start, edges, k)) ==
            TextPart(mode, start.pipe.keys, FirstCounter(start, edges), edges, t)
  {
    hide StreamAfter;
    SessionCounter(start, edges, t);
    KeysHeld(mode, start, edges, t);
    BlockLeavesMasked(mode, start, edges, t, n);
    LeavesNow(mode, start.pipe.keys, CounterOf(start, edges, t), edges[t], StreamAfter(mode, start, edges, k));
  }

  lemma LeavesNow<S>(mode: Mode<S>, keys: seq<S>, counter: nat, edge: StreamEdge<S>, now: Stream<S>)
    requires now.Valid() && |keys| >= 2 && now.ValidOut() == edge.valid
    requires edge.valid ==> now.Out(mode) == Masked(mode, keys, counter, edge.payload)
    ensures OutNow(mode, now) == Added(mode, keys, counter, edge)
  {
  }

  lemma {:induction false} NoneLeft<S>(mode: Mode<S>, start: Stream<S>, edges: seq<StreamEdge<S>>, t: nat)
    requires Session(start, edges) && t <= |edges| && t < |start.pipe.keys|
    ensures PayloadsOut(mode, start, edges, t) == []
  {
    NoneOut(mode, start, edges, t);
    if t > 0 {
      NoneLeft(mode, start, edges, t - 1);
    }
  }

  // The outputs and the text grow together.
  lemma OneMore<S>(mode: Mode<S>, keys: seq<S>, first: nat, text: seq<Payload<S>>, edge: StreamEdge<S>,
                   out: seq<Payload<S>>, textNow: seq<Payload<S>>, outNow: seq<Payload<S>>)
    requires |keys| >= 2 && out == CtrText(mode, keys, first, text)
    requires textNow == text + (if edge.valid then [edge.payload] else [])
    requires outNow == out + Added(mode, keys, (first + |text|) % MODULUS, edge)
    ensures outNow == CtrText(mode, keys, first, textNow)
  {
    CtrTextAppend(mode, keys, first, text, edge);
  }

  // Everything that entered up to n - 1 edges ago has left, in order, masked with the counters
  // in order, whatever the bubbles in between.
  lemma {:induction false} OutIsCtrText<S>(mode: Mode<S>, start: Stream<S>, edges: seq<StreamEdge<S>>, t: nat, n: nat, m: nat)
    requires Session(start, edges) && n == |start.pipe.keys| && m == t + n - 1 <= |edges|
    ensures PayloadsOut(mode, start, edges, m) ==
            CtrText(mode, start.pipe.keys, FirstCounter(start, edges), PayloadsIn(edges, t))
  {
    hide StreamAfter;
    if t == 0 {
      NoneLeft(mode, start, edges, m);
    } else {
      OutIsCtrText(mode, start, edges, t - 1, n, m - 1);
      OneOut(mode, start, edges, t - 1, n, m);
      OneMore(mode, start.pipe.keys, FirstCounter(start, edges), PayloadsIn(edges, t - 1), edges[t - 1],
              PayloadsOut(mode, start, edges, m - 1), PayloadsIn(edges, t), PayloadsOut(mode, start, edges, m));
    }
  }

  // A mask that undoes itself.
  ghost predicate Involutive<S(!new)>(mode: Mode<S>) {
    forall x, y :: mode.mask(mode.mask(x, y), y) == x
  }

  lemma CtrTextTwice<S(!new)>(mode: Mode<S>, keys: seq<S>, first: nat, text: seq<Payload<S>>)
    requires |keys| >= 2 && Involutive(mode)
    ensures CtrText(mode, keys, first, CtrText(mode, keys, first, text)) == text
  {
  }

  // Feeding what left one session through another, with the same key and first counter but any
  // other bubbles, restores what entered the first.
  lemma SecondPassRestores<S(!new)>(mode: Mode<S>, start: Stream<S>, edges: seq<StreamEdge<S>>, t: nat, m: nat,
                                    again: Stream<S>, edges': seq<StreamEdge<S>>, u: nat, v: nat, n: nat)
    requires Involutive(mode) && Session(start, edges) && Session(again, edges')
    requires again.pipe.keys == start.pipe.keys && n == |start.pipe.keys|
    requires FirstCounter(again, edges') == FirstCounter(start, edges)
    requires m == t + n - 1 <= |edges| && v == u + n - 1 <= |edges'|
    requires PayloadsIn(edges', u) == PayloadsOut(mode, start, edges, m)
    ensures PayloadsOut(mode, again, edges', v) == PayloadsIn(edges, t)
  {
    OutIsCtrText(mode, start, edges, t, n, m);
    OutIsCtrText(mode, again, edges', u, n, v);
    CtrTextTwice(mode, start.pipe.keys, FirstCounter(start, edges), PayloadsIn(edges, t));
  }
}
