/** The FIFO of the memory bridges: `tcm_mem_pmem_fifo2` in `top_tcm_wrapper/tcm_mem_pmem.v` (depth
    4) and `dport_axi_fifo` in `top_tcm_wrapper/dport_axi.v` (depth 2). */
module TcmFifo {
  import opened Ring

  type Depth = n: nat | n >= 2 witness 2

  // One clock edge on the queue itself: a push needs room and a pop an entry, both judged on the
  // state before the edge.
  function FifoNext<T>(queue: seq<T>, depth: Depth, push: bool, x: T, pop: bool): (next: seq<T>)
    requires |queue| <= depth
    ensures |next| <= depth
  {
    (if pop && queue != [] then queue[1..] else queue) + (if push && |queue| != depth then [x] else [])
  }

  // Nothing is lost or repeated: what has been pushed is what has been popped and what is queued.
  lemma QueueConserves<T>(pushed: seq<T>, popped: seq<T>, queue: seq<T>, depth: Depth, push: bool, x: T, pop: bool)
    requires |queue| <= depth && pushed == popped + queue
    requires (push ==> |queue| != depth) && (pop ==> queue != [])
    ensures pushed + (if push then [x] else []) ==
            popped + (if pop then [queue[0]] else []) + FifoNext(queue, depth, push, x, pop)
  {
    assert pop ==> queue == [queue[0]] + queue[1..];
  }

  class Fifo<T(0)> {
    const ram: array<T>
    var rdPtr: nat
    var wrPtr: nat
    var count: nat

    ghost predicate Valid()
      reads this, ram
    {
      && ram.Length >= 2 && rdPtr < ram.Length && count <= ram.Length
      && wrPtr == Wrap(rdPtr + count, ram.Length)
    }

    ghost function Queue(): (q: seq<T>)
      requires Valid()
      reads this, ram
      ensures |q| == count
    {
      Contents(ram[..], rdPtr, count)
    }

    constructor (depth: Depth)
      ensures Valid() && Queue() == [] && ram.Length == depth && fresh(ram)
    {
      ram, rdPtr, wrPtr, count := new T[depth], 0, 0, 0;
    }

    function AcceptO(): (accept: bool)
      requires Valid()
      reads this, ram
      ensures accept == (|Queue()| != ram.Length)
    {
      count != ram.Length
    }

    function ValidO(): (valid: bool)
      requires Valid()
      reads this, ram
      ensures valid == (Queue() != [])
    {
      count != 0
    }

    // `data_out_o`; what it shows when the queue is empty is of no use.
    function DataOut(): (x: T)
      requires Valid()
      reads this, ram
      ensures Queue() != [] ==> x == Queue()[0]
    {
      assert count > 0 ==> Queue()[0] == ram[Wrap(rdPtr + 0, ram.Length)];
      ram[rdPtr]
    }

    method Store(x: T)
      requires Valid() && count < ram.Length
      modifies ram, this`wrPtr, this`count
      ensures Valid() && Queue() == old(Queue()) + [x]
    {
      Push(ram[..], rdPtr, count, x);
      ghost var was := ram[..];
      ram[wrPtr] := x;
      assert ram[..] == was[Wrap(rdPtr + count, ram.Length) := x];
      wrPtr, count := Wrap(wrPtr + 1, ram.Length), count + 1;
    }

    method Drop()
      requires Valid() && count > 0
      modifies this`rdPtr, this`count
      ensures Valid() && Queue() == old(Queue())[1..]
    {
      Pop(ram[..], rdPtr, count);
      rdPtr, count := Wrap(rdPtr + 1, ram.Length), count - 1;
    }

    method Clock(reset: bool, dataIn: T, push: bool, pop: bool)
      requires Valid()
      modifies this, ram
      ensures Valid()
      ensures Queue() == if reset then [] else FifoNext(old(Queue()), ram.Length, push, dataIn, pop)
    {
      var pushed, popped := push && count != ram.Length, pop && count != 0;
      if reset {
        rdPtr, wrPtr, count := 0, 0, 0;
        return;
      }
      if popped {
        Drop();
      }
      if pushed {
        Store(dataIn);
      }
    }
  }
}
