/** What the masters of the AXI bridge see over any run. */
module TcmBridgeTheorems {
  import opened TcmTypes
  import opened TcmBridge
  import opened TcmBridgeRun

  function RunFrom(run: Run, inputs: seq<Inputs>): (r: Run)
    requires run.bridge.Valid()
    ensures r.bridge.Valid()
  {
    if inputs == [] then run else Step(RunFrom(run, inputs[..|inputs| - 1]), inputs[|inputs| - 1])
  }

  predicate AllowedRun(run: Run, inputs: seq<Inputs>)
    requires run.bridge.Valid()
  {
    inputs != [] ==>
      && AllowedRun(run, inputs[..|inputs| - 1])
      && Allowed(RunFrom(run, inputs[..|inputs| - 1]), inputs[|inputs| - 1])
  }

  lemma {:induction false} RunInv(run: Run, inputs: seq<Inputs>)
    requires Inv(run) && AllowedRun(run, inputs)
    ensures Inv(RunFrom(run, inputs))
  {
    if inputs != [] {
      RunInv(run, inputs[..|inputs| - 1]);
      InvStep(RunFrom(run, inputs[..|inputs| - 1]), inputs[|inputs| - 1]);
    }
  }

  // The tags of the R channel.
  function ReadTags(tags: seq<Tag>): seq<Tag> {
    if tags == [] then []
    else
      var t := tags[|tags| - 1];
      ReadTags(tags[..|tags| - 1]) + (if t.read then [t] else [])
  }

  function TagsOnR(out: seq<ReadBeat>): (tags: seq<Tag>)
    ensures |tags| == |out|
  {
    seq(|out|, k requires 0 <= k < |out| => Tag(true, out[k].last, out[k].id))
  }

  // What the bursts ask for: len + 1 beats with the burst's ID for a read, the final one alone
  // marked last, and one response for a write, unless its only beat was skipped.
  function ReadBurstTags(id: Id, len: nat): (tags: seq<Tag>)
    ensures |tags| == len + 1
    ensures forall k :: 0 <= k <= len ==> tags[k] == Tag(true, k == len, id)
  {
    seq(len + 1, k => Tag(true, k == len, id))
  }

  function ReadsAsked(bursts: seq<Burst>): seq<Tag> {
    if bursts == [] then []
    else
      var c := bursts[|bursts| - 1];
      ReadsAsked(bursts[..|bursts| - 1]) + (if c.read then ReadBurstTags(c.command.id, c.command.len) else [])
  }

  // A single-beat write whose beat is taken together with its address and has no strobe is lost.
  predicate Lost(c: Burst) {
    c.skipped && c.command.len == 0
  }

  function WritesAsked(bursts: seq<Burst>): seq<Id> {
    if bursts == [] then []
    else
      var c := bursts[|bursts| - 1];
      WritesAsked(bursts[..|bursts| - 1]) + (if c.read || Lost(c) then [] else [c.command.id])
  }

  lemma {:induction false} ReadTagsJoin(a: seq<Tag>, b: seq<Tag>)
    ensures ReadTags(a + b) == ReadTags(a) + ReadTags(b)
  {
    if b == [] {
      assert a + b == a;
    } else {
      ReadTagsJoin(a, b[..|b| - 1]);
      assert (a + b)[..|a + b| - 1] == a + b[..|b| - 1];
    }
  }

  lemma {:induction false} WritesJoin(a: seq<Tag>, b: seq<Tag>)
    ensures Writes(a + b) == Writes(a) + Writes(b)
  {
    if b == [] {
      assert a + b == a;
    } else {
      WritesJoin(a, b[..|b| - 1]);
      assert (a + b)[..|a + b| - 1] == a + b[..|b| - 1];
    }
  }

  lemma {:induction false} AllReads(tags: seq<Tag>)
    requires forall k :: 0 <= k < |tags| ==> tags[k].read
    ensures ReadTags(tags) == tags && Writes(tags) == []
  {
    if tags != [] {
      AllReads(tags[..|tags| - 1]);
    }
  }

  lemma {:induction false} InnerWrites(tags: seq<Tag>)
    requires forall k :: 0 <= k < |tags| ==> !tags[k].read && !tags[k].last
    ensures ReadTags(tags) == [] && Writes(tags) == []
  {
    if tags != [] {
      InnerWrites(tags[..|tags| - 1]);
    }
  }

  lemma BurstAsks(c: Burst)
    ensures
      && ReadTags(Tags(BeatsOf(c))) == (if c.read then ReadBurstTags(c.command.id, c.command.len) else [])
      && Writes(Tags(BeatsOf(c))) == (if c.read || Lost(c) then [] else [c.command.id])
  {
    var tags := Tags(BeatsOf(c));
    if c.read {
      AllReads(tags);
      assert tags == ReadBurstTags(c.command.id, c.command.len);
    } else if !Lost(c) {
      InnerWrites(tags[..|tags| - 1]);
    }
  }

  lemma TagsJoin(a: seq<Beat>, b: seq<Beat>)
    ensures Tags(a + b) == Tags(a) + Tags(b)
  {
  }

  lemma {:induction false} ExpectedAsks(bursts: seq<Burst>)
    ensures ReadTags(Tags(Expected(bursts))) == ReadsAsked(bursts)
    ensures Writes(Tags(Expected(bursts))) == WritesAsked(bursts)
  {
    if bursts != [] {
      var c := bursts[|bursts| - 1];
      var before, beats := Expected(bursts[..|bursts| - 1]), BeatsOf(c);
      ExpectedAsks(bursts[..|bursts| - 1]);
      BurstAsks(c);
      TagsJoin(before, beats);
      ReadTagsJoin(Tags(before), Tags(beats));
      WritesJoin(Tags(before), Tags(beats));
    }
  }

  lemma {:induction false} ReadsAreTagged(answers: seq<Answer>)
    ensures TagsOnR(Reads(answers)) == ReadTags(AnswerTags(answers))
  {
    if answers != [] {
      var before := answers[..|answers| - 1];
      ReadsAreTagged(before);
      assert AnswerTags(answers)[..|answers| - 1] == AnswerTags(before);
    }
  }

  // The tags not answered yet: requests in the RAM or the FIFO, and the rest of the burst.
  function Due(run: Run): seq<Tag> {
    run.bridge.requests + Tags(Remaining(run.bridge.regs))
  }

  lemma TagsAnswered(run: Run)
    requires Inv(run)
    ensures Tags(Expected(run.log.bursts)) == AnswerTags(run.log.answers) + Due(run)
  {
    hide Remaining, Expected, RegistersInv, Reads, Writes;
    TagsJoin(run.log.accesses, Remaining(run.bridge.regs));
    var a, q, r := AnswerTags(run.log.answers), run.bridge.requests, Tags(Remaining(run.bridge.regs));
    assert (a + q) + r == a + (q + r);
  }

  // Over every run each accepted read of length len yields its len + 1 beats, in order, with its
  // own ID and RLAST on the final one alone, and each accepted write that is not lost one response;
  // nothing else appears, and what has not appeared is still due.
  lemma BridgeDelivers(inputs: seq<Inputs>)
    requires AllowedRun(START, inputs)
    ensures
      var run := RunFrom(START, inputs);
      && ReadsAsked(run.log.bursts) == TagsOnR(run.log.rOut) + ReadTags(Due(run))
      && WritesAsked(run.log.bursts) == run.log.bOut + Writes(Due(run))
  {
    RunInv(START, inputs);
    Delivers(RunFrom(START, inputs));
  }

  lemma Delivers(run: Run)
    requires Inv(run)
    ensures ReadsAsked(run.log.bursts) == TagsOnR(run.log.rOut) + ReadTags(Due(run))
    ensures WritesAsked(run.log.bursts) == run.log.bOut + Writes(Due(run))
  {
    ExpectedAsks(run.log.bursts);
    TagsAnswered(run);
    ReadTagsJoin(AnswerTags(run.log.answers), Due(run));
    WritesJoin(AnswerTags(run.log.answers), Due(run));
    ReadsAreTagged(run.log.answers);
  }

  // The accesses are those of the bursts, in address order within each; the answers are to the
  // accesses in order, each with the word the RAM gave for it; and reads show on the R channel.
  lemma AccessesInOrder(inputs: seq<Inputs>)
    requires AllowedRun(START, inputs)
    ensures
      var run := RunFrom(START, inputs);
      && Expected(run.log.bursts) == run.log.accesses + Remaining(run.bridge.regs)
      && AnswerTags(run.log.answers) <= Tags(run.log.accesses)
      && AnswerWords(run.log.answers) <= run.log.words
      && run.log.rOut == Reads(run.log.answers)
  {
    RunInv(START, inputs);
  }

  // A response offered is held, unchanged, until it is taken.
  lemma ResponseHeld(b: Bridge, i: Inputs)
    requires b.Valid() && (b.RValid() || b.BValid()) && !b.Pop(i)
    ensures b.Next(i).RValid() == b.RValid() && b.Next(i).BValid() == b.BValid()
    ensures b.Next(i).requests[0] == b.requests[0] && b.Next(i).responses[0] == b.responses[0]
  {
  }
}
