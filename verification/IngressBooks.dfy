/**
 The books of one undisturbed handler: for every way a reception, a dispatch or a route call
 can end, the whole shared state it leaves behind, counter by counter.  Then what a new
 engine holds: as many messages as its queue size, and the next one raises the flag.
 */
module IngressBooks {
  import opened Wrappers
  import opened Message
  import opened Ingress
  import opened IngressHandlers

  /** A counter moves by this much per event. */
  function Unit(cfg: Config): nat {
    if cfg.telemetry then 1 else 0
  }

  /** The transport hands in a sound message while the engine runs. */
  predicate Arrives(ch: Choice) {
    ch.job.Receive? && ch.running && Sound(ch.job.message)
  }

  // ----- receptions -----

  /** A refused message counts as received, as dropped, and under the reason of its own check. */
  lemma CheckedOut(cfg: Config, sh: Shared, ch: Choice)
    requires Arrives(ch) && ch.verdict != Accept
    ensures var one := if cfg.telemetry then 1 else 0;
            Handle(cfg, sh, ch) ==
            if ch.verdict == BadHeader
            then sh.(received := sh.received + one, dropped := sh.dropped + one,
                     dropInvalidHeader := sh.dropInvalidHeader + one)
            else sh.(received := sh.received + one, dropped := sh.dropped + one,
                     dropSecurityPolicy := sh.dropSecurityPolicy + one)
  {
    hide Drive;
    hide Handle;
    ReceiveStep(cfg, sh, ch.job.message, ch);
    CheckStep(cfg, sh.(received := Bump(cfg, sh.received)), ch.job.message, ch);
  }

  /** At the high watermark a message is counted as backpressure and raises the flag; no token stays out. */
  lemma RejectedAtHigh(cfg: Config, sh: Shared, ch: Choice)
    requires Arrives(ch) && ch.verdict == Accept && sh.inFlight >= cfg.high
    ensures var one := if cfg.telemetry then 1 else 0;
            Handle(cfg, sh, ch) ==
            sh.(received := sh.received + one, dropped := sh.dropped + one,
                dropBackpressure := sh.dropBackpressure + one, active := true)
  {
    hide Drive;
    hide Handle;
    var sh1 := sh.(received := Bump(cfg, sh.received));
    ReceiveStep(cfg, sh, ch.job.message, ch);
    CheckStep(cfg, sh1, ch.job.message, ch);
    TokenStep(cfg, sh1, ch.job.message, ch);
  }

  /** Below the high watermark a message that passes the check reaches the allocator with its token. */
  lemma ReachesAllocator(cfg: Config, sh: Shared, ch: Choice)
    requires Arrives(ch) && ch.verdict == Accept && sh.inFlight < cfg.high
    ensures Handle(cfg, sh, ch) ==
            Drive(cfg, sh.(received := sh.received + Unit(cfg), inFlight := sh.inFlight + 1), Allocating(ch.job.message), ch)
  {
    hide Drive;
    hide Handle;
    hide Dropped;
    var sh1 := sh.(received := Bump(cfg, sh.received));
    ReceiveStep(cfg, sh, ch.job.message, ch);
    CheckStep(cfg, sh1, ch.job.message, ch);
    TokenStep(cfg, sh1, ch.job.message, ch);
  }

  /** No block: the drop is counted under no reason of its own, the token is back, memory is untouched. */
  lemma WithoutBlock(cfg: Config, sh: Shared, ch: Choice)
    requires Arrives(ch) && ch.verdict == Accept && sh.inFlight < cfg.high && !Allocates(sh, ch)
    ensures var one := if cfg.telemetry then 1 else 0;
            Handle(cfg, sh, ch) ==
            sh.(received := sh.received + one, dropped := sh.dropped + one, invalidParamDrops := sh.invalidParamDrops + one)
  {
    hide Drive;
    hide Handle;
    ReachesAllocator(cfg, sh, ch);
    AllocateStep(cfg, sh.(received := sh.received + Unit(cfg), inFlight := sh.inFlight + 1), ch.job.message, ch);
  }

  /** With a block, the rest depends on the copy and the queue alone. */
  lemma ReachesQueue(cfg: Config, sh: Shared, ch: Choice)
    requires Arrives(ch) && ch.verdict == Accept && sh.inFlight < cfg.high && Allocates(sh, ch)
    ensures var c := Pointer(ch.address, sh.heap.nextCopy);
            var (copied, stored) := Copied(ch.job.message, ch.payloadAllocated);
            var sh1 := sh.(received := sh.received + Unit(cfg), inFlight := sh.inFlight + 1,
                           heap := Write(Allocate(sh.heap, ch.address, ch.job.message), c, stored));
            Handle(cfg, sh, ch) ==
            if copied then Drive(cfg, sh1, Enqueuing(c), ch) else Dropped(cfg, sh1.(inFlight := sh.inFlight), InvalidParam, Some(c))
  {
    hide Drive;
    hide Handle;
    hide Dropped;
    hide Allocate;
    hide Write;
    hide Copied;
    var c := Pointer(ch.address, sh.heap.nextCopy);
    var sh1 := sh.(received := sh.received + Unit(cfg), inFlight := sh.inFlight + 1);
    var sh2 := sh1.(heap := Allocate(sh.heap, ch.address, ch.job.message));
    ReachesAllocator(cfg, sh, ch);
    AllocateStep(cfg, sh1, ch.job.message, ch);
    CopyStep(cfg, sh2, ch.job.message, c, ch);
  }

  /** No payload to copy or no memory for it: counted like a missing block, and the block is gone again. */
  lemma WithoutPayload(cfg: Config, sh: Shared, ch: Choice)
    requires Arrives(ch) && ch.verdict == Accept && sh.inFlight < cfg.high && Allocates(sh, ch)
    requires !Copied(ch.job.message, ch.payloadAllocated).0
    ensures var one := if cfg.telemetry then 1 else 0;
            var sh' := Handle(cfg, sh, ch);
            && sh' == sh.(received := sh.received + one, dropped := sh.dropped + one,
                          invalidParamDrops := sh.invalidParamDrops + one, heap := sh'.heap)
            && sh'.heap.memory == sh.heap.memory
  {
    hide Drive;
    hide Handle;
    hide Copied;
    ReachesQueue(cfg, sh, ch);
    var c := Pointer(ch.address, sh.heap.nextCopy);
    DestroyedBlock(sh.heap, c, ch.job.message, Copied(ch.job.message, ch.payloadAllocated).1);
  }

  /** A block allocated, written and destroyed leaves the others as they were. */
  lemma DestroyedBlock(h: Heap, c: Pointer, m: Content, stored: Content)
    requires c.address !in h.memory
    ensures Destroy(Write(Allocate(h, c.address, m), c, stored), c).memory == h.memory
  {
  }

  /** No queue slot: counted as queue full, token and block are back. */
  lemma WithoutSlot(cfg: Config, sh: Shared, ch: Choice)
    requires Arrives(ch) && ch.verdict == Accept && sh.inFlight < cfg.high && Allocates(sh, ch)
    requires Copied(ch.job.message, ch.payloadAllocated).0
    requires |sh.queue| >= cfg.capacity || !ch.nodeAllocated
    ensures var one := if cfg.telemetry then 1 else 0;
            var sh' := Handle(cfg, sh, ch);
            && sh' == sh.(received := sh.received + one, dropped := sh.dropped + one,
                          dropQueueFull := sh.dropQueueFull + one, heap := sh'.heap)
            && sh'.heap.memory == sh.heap.memory
  {
    hide Drive;
    hide Handle;
    hide Copied;
    ReachesQueue(cfg, sh, ch);
    var c := Pointer(ch.address, sh.heap.nextCopy);
    var stored := Copied(ch.job.message, ch.payloadAllocated).1;
    var sh1 := sh.(received := sh.received + Unit(cfg), inFlight := sh.inFlight + 1,
                   heap := Write(Allocate(sh.heap, ch.address, ch.job.message), c, stored));
    EnqueueStep(cfg, sh1, c, ch);
    DestroyedBlock(sh.heap, c, ch.job.message, stored);
  }

  /** Otherwise it is queued last, holding a token, in a new block that holds its copy. */
  lemma WithEverything(cfg: Config, sh: Shared, ch: Choice)
    requires Unhindered(cfg, sh, ch)
    ensures var one := if cfg.telemetry then 1 else 0;
            var sh' := Handle(cfg, sh, ch);
            && sh' == sh.(received := sh.received + one, enqueued := sh.enqueued + one, inFlight := sh.inFlight + 1,
                          queue := sh.queue + [IngressItem(Pointer(ch.address, sh.heap.nextCopy))], heap := sh'.heap)
            && Copyable(ch.job.message)
            && sh'.heap.memory == sh.heap.memory[ch.address := CopyOf(ch.job.message)]
  {
    hide Drive;
    hide Handle;
    hide Copied;
    ReachesQueue(cfg, sh, ch);
    CopiedIsTheCopy(ch.job.message, ch.payloadAllocated);
    var c := Pointer(ch.address, sh.heap.nextCopy);
    var stored := Copied(ch.job.message, ch.payloadAllocated).1;
    var sh1 := sh.(received := sh.received + Unit(cfg), inFlight := sh.inFlight + 1,
                   heap := Write(Allocate(sh.heap, ch.address, ch.job.message), c, stored));
    EnqueueStep(cfg, sh1, c, ch);
    assert sh1.heap.memory == sh.heap.memory[ch.address := stored];
  }

  /** Counter by counter: each reception moves the counters of its own end and no others. */
  lemma ReceptionCounters(cfg: Config, sh: Shared, ch: Choice)
    requires Arrives(ch)
    ensures var one := if cfg.telemetry then 1 else 0;
            var sh' := Handle(cfg, sh, ch);
            var room := ch.verdict == Accept && sh.inFlight < cfg.high;
            var copied := room && Allocates(sh, ch) && Copied(ch.job.message, ch.payloadAllocated).0;
            var queued := copied && |sh.queue| < cfg.capacity && ch.nodeAllocated;
            && sh'.received == sh.received + one
            && sh'.enqueued == sh.enqueued + (if queued then one else 0)
            && sh'.dropped == sh.dropped + (if queued then 0 else one)
            && sh'.dropInvalidHeader == sh.dropInvalidHeader + (if ch.verdict == BadHeader then one else 0)
            && sh'.dropSecurityPolicy == sh.dropSecurityPolicy + (if ch.verdict == Refused then one else 0)
            && sh'.dropBackpressure == sh.dropBackpressure + (if ch.verdict == Accept && !room then one else 0)
            && sh'.dropQueueFull == sh.dropQueueFull + (if copied && !queued then one else 0)
            && sh'.invalidParamDrops == sh.invalidParamDrops + (if room && !copied then one else 0)
            && sh'.dequeued == sh.dequeued && sh'.egressDrops == sh.egressDrops
  {
    hide Handle;
    hide Copied;
    hide CopyOf;
    if ch.verdict != Accept {
      CheckedOut(cfg, sh, ch);
    } else if sh.inFlight >= cfg.high {
      RejectedAtHigh(cfg, sh, ch);
    } else if !Allocates(sh, ch) {
      WithoutBlock(cfg, sh, ch);
    } else if !Copied(ch.job.message, ch.payloadAllocated).0 {
      WithoutPayload(cfg, sh, ch);
    } else if |sh.queue| >= cfg.capacity || !ch.nodeAllocated {
      WithoutSlot(cfg, sh, ch);
    } else {
      WithEverything(cfg, sh, ch);
    }
  }

  // ----- dispatches and route calls -----

  /** A dispatch takes the oldest item; a queued message leaves its block, its token and one count behind. */
  lemma DispatchBooks(cfg: Config, sh: Shared, ch: Choice)
    requires ch.job == Dispatch && sh.queue != [] && sh.queue[0].IngressItem?
    ensures var one := if cfg.telemetry then 1 else 0;
            var c, sh' := sh.queue[0].copy, Handle(cfg, sh, ch);
            && sh' == sh.(queue := sh.queue[1..], inFlight := sh.inFlight - 1, dequeued := sh.dequeued + one,
                          active := sh.active && !(ch.observersPresent && sh.inFlight - 1 <= cfg.low),
                          delivered := if ch.observersPresent then sh.delivered + [Delivery(c, Read(sh.heap, c))] else sh.delivered,
                          heap := sh'.heap)
            && sh'.heap.memory == sh.heap.memory - {c.address}
  {
    hide Drive;
    hide Read;
    var c, sh1 := sh.queue[0].copy, sh.(queue := sh.queue[1..]);
    if ch.observersPresent {
      DeliverStep(cfg, sh1, c, ch);
      FinishTail(cfg, sh1.(delivered := sh1.delivered + [Delivery(c, Read(sh1.heap, c))], heap := Destroy(sh1.heap, c)), ch);
    } else {
      DiscardStep(cfg, sh1, c, ch);
    }
  }

  /** A route call either queues its item or, after sixteen refusals, counts one drop for a full queue. */
  lemma RouteBooks(cfg: Config, sh: Shared, ch: Choice)
    requires ch.job == Route
    ensures var one := if cfg.telemetry then 1 else 0;
            Handle(cfg, sh, ch) ==
            if !ch.running || !ch.contextAllocated then sh
            else if |sh.queue| < cfg.capacity && ch.nodeAllocated then sh.(queue := sh.queue + [EgressItem])
            else sh.(dropped := sh.dropped + one, dropQueueFull := sh.dropQueueFull + one, egressDrops := sh.egressDrops + one)
  {
    hide Drive;
    hide Handle;
    hide Dropped;
    RouteBegin(cfg, sh, ch);
    RouteFrom(cfg, sh, 0, ch);
    assert Dropped(cfg, sh, EgressFull, None) ==
           sh.(dropped := sh.dropped + Unit(cfg), dropQueueFull := sh.dropQueueFull + Unit(cfg),
               egressDrops := sh.egressDrops + Unit(cfg)) by {
      DroppedForRoute(cfg, sh);
    }
  }

  lemma DroppedForRoute(cfg: Config, sh: Shared)
    ensures Dropped(cfg, sh, EgressFull, None) ==
            sh.(dropped := sh.dropped + Unit(cfg), dropQueueFull := sh.dropQueueFull + Unit(cfg),
                egressDrops := sh.egressDrops + Unit(cfg))
  {
  }

  lemma {:induction false} RouteFrom(cfg: Config, sh: Shared, k: nat, ch: Choice)
    requires k < ROUTE_ATTEMPTS
    ensures Drive(cfg, sh, Routing(k), ch) ==
            if |sh.queue| < cfg.capacity && ch.nodeAllocated then sh.(queue := sh.queue + [EgressItem])
            else Dropped(cfg, sh, EgressFull, None)
    decreases ROUTE_ATTEMPTS - k
  {
    hide Drive;
    hide Dropped;
    RouteStep(cfg, sh, k, ch);
    if k + 1 < ROUTE_ATTEMPTS {
      RouteFrom(cfg, sh, k + 1, ch);
    }
  }

  // ----- a new engine -----

  /** What the settings come to: zero is unset, and a low watermark counts only between zero and the high one. */
  lemma SettingsInForce(highSetting: nat, lowSetting: nat, maxQueueSize: nat, telemetry: bool)
    ensures var cfg := Configure(highSetting, lowSetting, maxQueueSize, telemetry);
            && cfg.capacity == (if maxQueueSize > 0 then maxQueueSize else 1024)
            && cfg.high == (if highSetting > 0 then highSetting else cfg.capacity)
            && (0 < lowSetting < cfg.high ==> cfg.low == lowSetting)
            && (!(0 < lowSetting < cfg.high) ==> cfg.low == if cfg.high == 1 then 1 else cfg.high / 2)
            && cfg.telemetry == telemetry
  {
  }

  /** Sound messages that pass the check and find memory, each at an address of its own. */
  predicate Welcome(jobs: seq<Choice>) {
    && (forall k :: 0 <= k < |jobs| ==>
          Arrives(jobs[k]) && jobs[k].verdict == Accept && jobs[k].blockAllocated && jobs[k].nodeAllocated
          && Copied(jobs[k].job.message, jobs[k].payloadAllocated).0)
    && (forall j, k :: 0 <= j < k < |jobs| ==> jobs[j].address != jobs[k].address)
  }

  /** The queue holds exactly these messages, in order, each in its own block. */
  predicate Holds(sh: Shared, jobs: seq<Choice>) {
    && |sh.queue| == |jobs|
    && (forall a :: a in sh.heap.memory ==> exists k :: 0 <= k < |jobs| && jobs[k].address == a)
    && (forall k :: 0 <= k < |jobs| ==>
          && sh.queue[k].IngressItem? && sh.queue[k].copy.address == jobs[k].address
          && jobs[k].address in sh.heap.memory
          && jobs[k].job.Receive? && Sound(jobs[k].job.message) && Copyable(jobs[k].job.message)
          && sh.heap.memory[jobs[k].address] == CopyOf(jobs[k].job.message))
  }

  /** Room is left, so one more welcome message is unhindered: its address is in no held block. */
  lemma WelcomeIsUnhindered(cfg: Config, sh: Shared, jobs: seq<Choice>, ch: Choice)
    requires Welcome(jobs + [ch]) && Holds(sh, jobs)
    requires sh.inFlight == |sh.queue| < cfg.high && |sh.queue| < cfg.capacity
    ensures Unhindered(cfg, sh, ch)
  {
    hide Copied;
    hide CopyOf;
    var all := jobs + [ch];
    assert all[|jobs|] == ch;
    assert forall k :: 0 <= k < |jobs| ==> all[k] == jobs[k];
  }

  lemma HeldGrows(sh: Shared, sh': Shared, jobs: seq<Choice>, ch: Choice, c: Pointer)
    requires Holds(sh, jobs) && c.address == ch.address && ch.address !in sh.heap.memory
    requires ch.job.Receive? && Sound(ch.job.message) && Copyable(ch.job.message)
    requires sh'.queue == sh.queue + [IngressItem(c)]
    requires sh'.heap.memory == sh.heap.memory[ch.address := CopyOf(ch.job.message)]
    ensures Holds(sh', jobs + [ch])
  {
    hide CopyOf;
    var all := jobs + [ch];
    forall a | a in sh'.heap.memory
      ensures exists k :: 0 <= k < |all| && all[k].address == a
    {
      if a == ch.address {
        assert all[|jobs|].address == a;
      } else {
        var k :| 0 <= k < |jobs| && jobs[k].address == a;
        assert all[k].address == a;
      }
    }
  }

  lemma OneMoreHeld(cfg: Config, sh: Shared, jobs: seq<Choice>, ch: Choice)
    requires Welcome(jobs + [ch]) && Holds(sh, jobs)
    requires sh.inFlight == |sh.queue| < cfg.high && |sh.queue| < cfg.capacity
    ensures Holds(Handle(cfg, sh, ch), jobs + [ch])
    ensures var sh' := Handle(cfg, sh, ch); sh'.inFlight == |sh'.queue| && sh'.active == sh.active
  {
    hide Handle;
    hide Holds;
    hide Copied;
    hide CopyOf;
    WelcomeIsUnhindered(cfg, sh, jobs, ch);
    WithEverything(cfg, sh, ch);
    HeldGrows(sh, Handle(cfg, sh, ch), jobs, ch, Pointer(ch.address, sh.heap.nextCopy));
  }

  /** A new engine holds every welcome message up to its high watermark and its queue size. */
  lemma {:induction false} NewEngineHolds(cfg: Config, jobs: seq<Choice>)
    requires Welcome(jobs) && |jobs| <= cfg.high && |jobs| <= cfg.capacity
    ensures var sh := HandleAll(cfg, jobs);
            Holds(sh, jobs) && sh.inFlight == |jobs| && !sh.active
  {
    hide Handle;
    hide Copied;
    hide CopyOf;
    if jobs != [] {
      var before, ch := jobs[..|jobs| - 1], jobs[|jobs| - 1];
      assert jobs == before + [ch];
      NewEngineHolds(cfg, before);
      OneMoreHeld(cfg, HandleAll(cfg, before), before, ch);
    }
  }

  /**
   With both watermarks unset a new engine holds exactly as many messages as its queue size,
   1024 if that is unset too; the next one is rejected for backpressure and raises the flag.
   */
  lemma QueueSizeIsTheLimit(maxQueueSize: nat, telemetry: bool, jobs: seq<Choice>, next: Choice)
    requires Welcome(jobs) && |jobs| == (if maxQueueSize > 0 then maxQueueSize else 1024)
    requires Arrives(next) && next.verdict == Accept
    ensures var cfg := Configure(0, 0, maxQueueSize, telemetry);
            var full := HandleAll(cfg, jobs);
            && Holds(full, jobs) && full.inFlight == |jobs| && !full.active
            && var sh := HandleAll(cfg, jobs + [next]);
               Holds(sh, jobs) && sh.inFlight == |jobs| && sh.active
               && sh.dropBackpressure == full.dropBackpressure + if telemetry then 1 else 0
  {
    hide Handle;
    hide HandleAll;
    hide Holds;
    hide Welcome;
    var cfg := Configure(0, 0, maxQueueSize, telemetry);
    SettingsInForce(0, 0, maxQueueSize, telemetry);
    NewEngineHolds(cfg, jobs);
    var full := HandleAll(cfg, jobs);
    HandleAllAppend(cfg, jobs, next);
    RejectedAtHigh(cfg, full, next);
    HeldByQueueAndBlocks(full, HandleAll(cfg, jobs + [next]), jobs);
  }

  lemma HeldByQueueAndBlocks(sh: Shared, sh': Shared, jobs: seq<Choice>)
    requires sh.queue == sh'.queue && sh.heap == sh'.heap
    ensures Holds(sh, jobs) <==> Holds(sh', jobs)
  {
  }
}
