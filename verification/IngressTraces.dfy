/**
 The read after the release, at work: runs of the machine in Ingress.dfy in which a thread
 that has given a block back is shown another message in its place.
 */
module IngressTraces {
  import opened Wrappers
  import opened Message
  import opened Ingress

  lemma {:induction false} RunConcat(s: State, a: seq<Label>, b: seq<Label>)
    ensures Run(s, a + b) == Run(Run(s, a), b)
  {
    if b == [] {
      assert a + b == a;
    } else {
      assert (a + b)[..|a + b| - 1] == a + b[..|b| - 1];
      RunConcat(s, a, b[..|b| - 1]);
    }
  }

  lemma RunTwo(s: State, l: Label, k: Label)
    ensures Run(s, [l, k]) == Step(Step(s, l), k)
  {
    hide Step;
    assert [l, k][..1] == [l] && [l][..0] == [];
    assert Run(s, [l]) == Step(s, l);
  }

  /** The environment lets the message through and the allocator answers with the given address. */
  function Lucky(message: Content, address: Address): Choice {
    Choice(Receive(message), true, Accept, true, address, true, true, true, true)
  }

  /** The same, but there is no memory for the payload. */
  function Unlucky(message: Content, address: Address): Choice {
    Lucky(message, address).(payloadAllocated := false)
  }

  predicate Fits(s: State) {
    s.shared.inFlight + 1 <= s.cfg.high
  }

  /** An idle thread receives the message and takes a token. */
  lemma Receives(s: State, t: nat, ch: Choice) returns (s': State)
    requires t < |s.threads| && s.threads[t] == Idle && Fits(s)
    requires ch.job.Receive? && ch.running && Sound(ch.job.message) && ch.verdict == Accept
    ensures var l := Label(t, ch); Run(s, [l, l] + [l, l]) == s'
    ensures s'.cfg == s.cfg && s'.threads == s.threads[t := Allocating(ch.job.message)]
    ensures s'.shared.heap == s.shared.heap && s'.shared.inFlight == s.shared.inFlight + 1
  {
    var l, m := Label(t, ch), ch.job.message;
    RunConcat(s, [l, l], [l, l]);
    RunTwo(s, l, l);
    var s1 := Step(s, l);
    assert s1.threads == s.threads[t := CountingReceived(m)];
    var s2 := Step(s1, l);
    assert s2.threads == s.threads[t := Checking(m)];
    RunTwo(s2, l, l);
    var s3 := Step(s2, l);
    assert s3.threads == s.threads[t := TakingToken(m)];
    s' := Step(s3, l);
    assert s'.threads == s.threads[t := Allocating(m)];
  }

  /** It allocates a block and fills it, or fails to. */
  lemma Copies(s: State, t: nat, ch: Choice) returns (s': State)
    requires t < |s.threads| && s.threads[t].Allocating? && ch.blockAllocated && ch.address !in s.shared.heap.memory
    ensures var l, m := Label(t, ch), s.threads[t].message;
            var c, copied := Pointer(ch.address, s.shared.heap.nextCopy), Copied(m, ch.payloadAllocated);
            && Run(s, [l, l]) == s' && s'.cfg == s.cfg
            && s'.threads == s.threads[t := if copied.0 then Enqueuing(c) else ReturningToken(InvalidParam, Some(c))]
            && s'.shared.heap == Write(Allocate(s.shared.heap, ch.address, m), c, copied.1)
            && s'.shared.inFlight == s.shared.inFlight
  {
    hide Copied;
    hide Allocate;
    hide Write;
    var l, m, c := Label(t, ch), s.threads[t].message, Pointer(ch.address, s.shared.heap.nextCopy);
    RunTwo(s, l, l);
    var s1 := Step(s, l);
    assert s1.threads == s.threads[t := Copying(m, c)];
    s' := Step(s1, l);
    assert s'.threads == s.threads[t := s'.threads[t]];
  }

  /** After a failed copy it records the drop and gives the block back. */
  lemma GivesBack(s: State, t: nat, ch: Choice) returns (s': State)
    requires t < |s.threads| && s.threads[t].ReturningToken? && s.threads[t].why == InvalidParam && s.threads[t].held.Some?
    ensures var l, c := Label(t, ch), s.threads[t].held.value;
            && Run(s, [l, l] + [l, l]) == s' && s'.cfg == s.cfg
            && s'.threads == s.threads[t := Tracing(c, AfterDrop)]
            && s'.shared.heap == Free(s.shared.heap, c) && s'.shared.inFlight == s.shared.inFlight - 1
  {
    hide Free;
    var l, held := Label(t, ch), s.threads[t].held;
    RunConcat(s, [l, l], [l, l]);
    RunTwo(s, l, l);
    var s1 := Step(s, l);
    assert s1.threads == s.threads[t := CountingDrop(InvalidParam, held)];
    var s2 := Step(s1, l);
    assert s2.threads == s.threads[t := CountingReason(InvalidParam, held)];
    RunTwo(s2, l, l);
    var s3 := Step(s2, l);
    assert s3.threads == s.threads[t := Destroying(held.value)];
    s' := Step(s3, l);
    assert s'.threads == s.threads[t := Tracing(held.value, AfterDrop)];
  }

  /**
   From every state in which one thread has just given a block back and another is about to
   allocate, the allocator's choice alone decides: if it answers with that address, the
   first thread is shown the second one's message.
   */
  lemma ShownAnother(s: State, t: nat, u: nat, ch: Choice)
    requires t < |s.threads| && u < |s.threads| && s.threads[t].Tracing? && s.threads[u].Allocating?
    requires ch.blockAllocated && ch.address == s.threads[t].copy.address && ch.address !in s.shared.heap.memory
    requires Sound(s.threads[u].message) && Copied(s.threads[u].message, ch.payloadAllocated).0
    ensures var l, k, c, m := Label(u, ch), Label(t, ch), s.threads[t].copy, s.threads[u].message;
            Run(s, [l, l] + [k]).shared.heap.traces ==
            s.shared.heap.traces + [Trace(c, Some(s.shared.heap.nextCopy), Some(CopyOf(m)))]
  {
    var l, k := Label(u, ch), Label(t, ch);
    CopiedIsTheCopy(s.threads[u].message, ch.payloadAllocated);
    var s1 := Copies(s, u, ch);
    hide Copied;
    RunConcat(s, [l, l], [k]);
    assert Run(s1, [k]) == Step(s1, k) by {
      assert [k][..0] == [];
    }
    hide Run;
    assert s1.threads[t] == s.threads[t];
    assert Step(s1, k).shared.heap == ReadBack(s1.shared.heap, s.threads[t].copy);
  }

  /** The first message's thread, from idle to just having given its block back. */
  lemma DropsIts(s: State, t: nat, first: Content, address: Address) returns (schedule: seq<Label>, s': State)
    requires t < |s.threads| && s.threads[t] == Idle && Fits(s) && Sound(first) && address !in s.shared.heap.memory
    requires first.header.payloadSize > 0 && first.payload.Some?
    ensures Run(s, schedule) == s' && s'.cfg == s.cfg
    ensures s'.threads == s.threads[t := Tracing(Pointer(address, s.shared.heap.nextCopy), AfterDrop)]
    ensures s'.shared.inFlight == s.shared.inFlight && address !in s'.shared.heap.memory
    ensures s'.shared.heap.traces == s.shared.heap.traces && s'.shared.heap.nextCopy == s.shared.heap.nextCopy + 1
  {
    hide Run;
    hide Act;
    var ch := Unlucky(first, address);
    var l := Label(t, ch);
    var s1 := Receives(s, t, ch);
    var s2 := Copies(s1, t, ch);
    s' := GivesBack(s2, t, ch);
    schedule := [l, l] + [l, l] + [l, l] + ([l, l] + [l, l]);
    RunConcat(s, [l, l] + [l, l], [l, l]);
    RunConcat(s, [l, l] + [l, l] + [l, l], [l, l] + [l, l]);
  }

  /** From a new engine: two messages arrive, the first finds no memory for its payload, and its trace line shows the second. */
  lemma TraceCanShowAnother(start: State, first: Content, second: Content, address: Address) returns (schedule: seq<Label>)
    requires Starts(start) && start.cfg.high >= 1 && |start.threads| == 2
    requires Sound(first) && first.header.payloadSize > 0 && first.payload.Some?
    requires Sound(second) && Copyable(second)
    ensures Run(start, schedule).shared.heap.traces == [Trace(Pointer(address, 0), Some(1), Some(CopyOf(second)))]
  {
    hide Run;
    hide Act;
    var a, s1 := DropsIts(start, 0, first, address);
    var ch := Lucky(second, address);
    var l, k := Label(1, ch), Label(0, ch);
    CopiedIsTheCopy(second, true);
    hide Copied;
    var s2 := Receives(s1, 1, ch);
    ShownAnother(s2, 0, 1, ch);
    schedule := a + ([l, l] + [l, l]) + ([l, l] + [k]);
    RunConcat(start, a, [l, l] + [l, l]);
    RunConcat(start, a + ([l, l] + [l, l]), [l, l] + [k]);
  }
}
