/** Circular buffers: the storage, read pointer and entry count shared by every FIFO here. */
module Ring {
  // The successor and every other offset into a buffer of the given depth.
  function Wrap(k: nat, depth: nat): (p: nat)
    requires k < 2 * depth
    ensures p < depth
  {
    if k < depth then k else k - depth
  }

  function Contents<T>(slots: seq<T>, rd: nat, count: nat): (s: seq<T>)
    requires rd < |slots| && count <= |slots|
    ensures |s| == count
    ensures forall k :: 0 <= k < count ==> s[k] == slots[Wrap(rd + k, |slots|)]
  {
    seq(count, k requires 0 <= k < count => slots[Wrap(rd + k, |slots|)])
  }

  lemma Push<T>(slots: seq<T>, rd: nat, count: nat, x: T)
    requires rd < |slots| && count < |slots|
    ensures Contents(slots[Wrap(rd + count, |slots|) := x], rd, count + 1) == Contents(slots, rd, count) + [x]
  {
    var was, now := Contents(slots, rd, count), Contents(slots[Wrap(rd + count, |slots|) := x], rd, count + 1);
    forall k | 0 <= k <= count
      ensures now[k] == (was + [x])[k]
    {
    }
  }

  lemma Pop<T>(slots: seq<T>, rd: nat, count: nat)
    requires rd < |slots| && 0 < count <= |slots|
    ensures Contents(slots, Wrap(rd + 1, |slots|), count - 1) == Contents(slots, rd, count)[1..]
    ensures Contents(slots, rd, count)[0] == slots[rd]
  {
    var was, now := Contents(slots, rd, count), Contents(slots, Wrap(rd + 1, |slots|), count - 1);
    forall k | 0 <= k < count - 1
      ensures now[k] == was[1..][k]
    {
      assert was[k + 1] == slots[Wrap(rd + (k + 1), |slots|)];
    }
    assert was[0] == slots[Wrap(rd + 0, |slots|)];
  }
}
