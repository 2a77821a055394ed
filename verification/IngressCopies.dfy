/**
 Message copies on the ingress path, in every interleaving of the machine in Ingress.dfy:
 who owns them, that up to its release a copy's block is reached through its own pointer
 only, what a delivered copy holds, and what is read of a block after its release.  Blocks
 are reclaimed and their addresses handed out again, so a stale pointer reads another
 message or nothing.
 */
module IngressCopies {
  import opened Wrappers
  import opened Totals
  import opened Message
  import opened Ingress

  /** The copy a thread is responsible for. */
  function HeldBy(pc: Pc): Option<Pointer> {
    match pc
    case Copying(_, c) => Some(c)
    case Enqueuing(c) => Some(c)
    case Destroying(c) => Some(c)
    case Dispatched(c, _) => Some(c)
    case Releasing(c) => Some(c)
    case ReturningToken(_, held) => held
    case CountingDrop(_, held) => held
    case CountingReason(_, held) => held
    case _ => None
  }

  predicate Names(held: Option<Pointer>, c: Serial) {
    held.Some? && held.value.serial == c
  }

  function Holds(c: Serial): Pc -> int {
    (pc: Pc) => One(Names(HeldBy(pc), c))
  }

  function Waiting(item: Item): Option<Pointer> {
    if item.IngressItem? then Some(item.copy) else None
  }

  function Queued(queue: seq<Item>, c: Serial): nat {
    if queue == [] then 0 else One(Names(Waiting(queue[0]), c)) + Queued(queue[1..], c)
  }

  lemma {:induction false} QueuedAppend(queue: seq<Item>, item: Item, c: Serial)
    ensures Queued(queue + [item], c) == Queued(queue, c) + One(Names(Waiting(item), c))
  {
    if queue == [] {
      assert queue + [item] == [item];
    } else {
      assert (queue + [item])[1..] == queue[1..] + [item];
      QueuedAppend(queue[1..], item, c);
    }
  }

  /** A queued pointer is counted, and a counted one is queued somewhere. */
  lemma {:induction false} QueuedIff(queue: seq<Item>, c: Serial)
    ensures Queued(queue, c) > 0 <==> exists k :: 0 <= k < |queue| && Names(Waiting(queue[k]), c)
  {
    if queue != [] {
      var rest := queue[1..];
      QueuedIff(rest, c);
      assert forall k :: 0 <= k < |rest| ==> rest[k] == queue[k + 1];
      if k :| 0 < k < |queue| && Names(Waiting(queue[k]), c) {
        assert Names(Waiting(rest[k - 1]), c);
      }
      if k :| 0 <= k < |rest| && Names(Waiting(rest[k]), c) {
        assert Names(Waiting(queue[k + 1]), c);
      }
      assert Names(Waiting(queue[0]), c) ==> Queued(queue, c) > 0;
    }
  }

  // ----- effects of one operation -----

  /** The copy the operation at pc frees. */
  function FreedAt(pc: Pc): Option<Pointer> {
    match pc
    case Destroying(c) => Some(c)
    case Releasing(c) => Some(c)
    case Dispatched(c, observersPresent) => if observersPresent then None else Some(c)
    case _ => None
  }

  /** The things an operation can do to the heap. */
  function HeapAfter(h: Heap, pc: Pc, ch: Choice): Heap {
    if pc.Allocating? && ch.blockAllocated && ch.address !in h.memory then Allocate(h, ch.address, pc.message)
    else if pc.Copying? then Write(h, pc.copy, Copied(pc.message, ch.payloadAllocated).1)
    else if FreedAt(pc).Some? then Free(h, FreedAt(pc).value)
    else if pc.Tracing? then ReadBack(h, pc.copy)
    else h
  }

  lemma ActOnHeap(cfg: Config, sh: Shared, pc: Pc, ch: Choice)
    ensures Act(cfg, sh, pc, ch).1.heap == HeapAfter(sh.heap, pc, ch)
  {
    hide Allocate;
    hide Write;
    hide Free;
    hide Read;
    hide ReadBack;
    hide Copied;
  }

  lemma ActKeepsQueue(cfg: Config, sh: Shared, pc: Pc, ch: Choice)
    requires !pc.Idle? && !pc.Enqueuing? && !pc.Routing?
    ensures Act(cfg, sh, pc, ch).1.queue == sh.queue
  {
    hide Allocate;
    hide Write;
    hide Free;
    hide Read;
    hide ReadBack;
    hide Copied;
  }

  // ----- one place -----

  lemma BeginQueues(sh: Shared, ch: Choice, c: Serial)
    ensures var (pc', sh') := Begin(sh, ch);
            Queued(sh'.queue, c) == Queued(sh.queue, c) - One(Names(HeldBy(pc'), c))
  {
  }

  lemma ActQueues(cfg: Config, sh: Shared, pc: Pc, ch: Choice, c: Serial)
    ensures var (pc', sh') := Act(cfg, sh, pc, ch);
            Queued(sh'.queue, c) == Queued(sh.queue, c)
                                    + One(pc.Enqueuing? && pc.copy.serial == c && pc' == CountingEnqueued)
                                    - One(pc.Idle? && Names(HeldBy(pc'), c))
  {
    hide Queued;
    match pc
    case Idle => BeginQueues(sh, ch, c);
    case Enqueuing(d) => QueuedAppend(sh.queue, IngressItem(d), c);
    case Routing(_) => QueuedAppend(sh.queue, EgressItem, c);
    case _ => ActKeepsQueue(cfg, sh, pc, ch);
  }

  lemma HeapCounts(h: Heap, pc: Pc, ch: Choice, c: Serial)
    ensures var h' := HeapAfter(h, pc, ch);
            && h'.freed[c] == h.freed[c] + One(Names(FreedAt(pc), c))
            && h'.nextCopy == h.nextCopy + One(pc.Allocating? && ch.blockAllocated && ch.address !in h.memory)
  {
  }

  lemma ActHolds(cfg: Config, sh: Shared, pc: Pc, ch: Choice, c: Serial)
    requires Shaped(pc)
    ensures var (pc', sh') := Act(cfg, sh, pc, ch);
            One(Names(HeldBy(pc'), c)) ==
              One(Names(HeldBy(pc), c)) - One(Names(FreedAt(pc), c))
              - One(pc.Enqueuing? && pc.copy.serial == c && pc' == CountingEnqueued)
              + One(pc.Idle? && Names(HeldBy(pc'), c))
              + One(pc.Allocating? && ch.blockAllocated && ch.address !in sh.heap.memory && c == sh.heap.nextCopy)
  {
    hide Allocate;
    hide Write;
    hide Free;
    hide Read;
    hide ReadBack;
    hide Copied;
  }

  /** The places of a copy outside the threads, less the one it must have. */
  function Elsewhere(sh: Shared, c: Serial): int {
    Queued(sh.queue, c) + sh.heap.freed[c] - One(c < sh.heap.nextCopy)
  }

  lemma ActMovesCopy(cfg: Config, sh: Shared, pc: Pc, ch: Choice, c: Serial)
    requires Shaped(pc)
    ensures var (pc', sh') := Act(cfg, sh, pc, ch);
            Elsewhere(sh', c) + Holds(c)(pc') == Elsewhere(sh, c) + Holds(c)(pc)
  {
    ActOnHeap(cfg, sh, pc, ch);
    HeapCounts(sh.heap, pc, ch, c);
    ActQueues(cfg, sh, pc, ch, c);
    ActHolds(cfg, sh, pc, ch, c);
    hide Act;
    hide HeapAfter;
  }

  /** A copy ever allocated is in exactly one place, one not allocated in none. */
  predicate InOnePlace(s: State, c: Serial) {
    Total(s.threads, Holds(c)) + Elsewhere(s.shared, c) == 0
  }

  ghost predicate EachInOnePlace(s: State) {
    forall c: Serial :: InOnePlace(s, c)
  }

  lemma {:induction false} IdleHoldsNothing(threads: seq<Pc>, c: Serial)
    requires forall t :: 0 <= t < |threads| ==> threads[t] == Idle
    ensures Total(threads, Holds(c)) == 0
  {
    if threads != [] {
      IdleHoldsNothing(threads[..|threads| - 1], c);
    }
  }

  lemma StepKeepsOnePlace(s: State, l: Label, c: Serial)
    requires InOnePlace(s, c) && (l.thread < |s.threads| ==> Shaped(s.threads[l.thread]))
    ensures InOnePlace(Step(s, l), c)
  {
    hide Act;
    hide Elsewhere;
    if l.thread < |s.threads| {
      var pc := s.threads[l.thread];
      TotalUpdate(s.threads, l.thread, Act(s.cfg, s.shared, pc, l.choice).0, Holds(c));
      ActMovesCopy(s.cfg, s.shared, pc, l.choice, c);
    }
  }

  /** Two threads never hold one copy, and no thread holds a queued one. */
  lemma HeldApart(s: State, t: nat, u: nat, c: Serial)
    requires EachInOnePlace(s) && t < u < |s.threads|
    ensures !(Names(HeldBy(s.threads[t]), c) && Names(HeldBy(s.threads[u]), c))
  {
    assert InOnePlace(s, c);
    TotalCoversTwo(s.threads, Holds(c), t, u);
  }

  lemma QueuedApart(s: State, t: nat, k: nat, c: Serial)
    requires EachInOnePlace(s) && t < |s.threads| && k < |s.shared.queue|
    ensures !(Names(HeldBy(s.threads[t]), c) && Names(Waiting(s.shared.queue[k]), c))
  {
    assert InOnePlace(s, c);
    TotalCovers(s.threads, Holds(c), t);
    QueuedIff(s.shared.queue, c);
  }

  /** The next allocation's number is not in use anywhere. */
  lemma NextIsUnfreed(s: State)
    requires EachInOnePlace(s)
    ensures s.shared.heap.freed[s.shared.heap.nextCopy] == 0
  {
    var c := s.shared.heap.nextCopy;
    assert InOnePlace(s, c);
    TotalIsNonnegative(s.threads, Holds(c));
  }

  // ----- pointers and blocks -----

  /** The pointer's block is allocated, and it is the block the pointer was made for. */
  predicate Live(h: Heap, p: Pointer) {
    p.address in h.memory && p.address in h.owner && h.owner[p.address] == p.serial
  }

  /** The stored content is the copy of the message the allocation was made for. */
  predicate Faithful(h: Heap, c: Serial, stored: Content) {
    && c in h.origin
    && Sound(h.origin[c]) && Copyable(h.origin[c])
    && stored == CopyOf(h.origin[c])
  }

  predicate Filled(h: Heap, p: Pointer) {
    Live(h, p) && Faithful(h, p.serial, h.memory[p.address])
  }

  /** What a thread knows about its message and its copy. */
  predicate Backed(h: Heap, pc: Pc) {
    && (HeldBy(pc).Some? ==> Live(h, HeldBy(pc).value))
    && (HasMessage(pc) ==> Sound(pc.message))
    && (pc.Copying? ==> pc.copy.serial in h.origin && h.origin[pc.copy.serial] == pc.message)
    && (pc.Enqueuing? || pc.Dispatched? ==> Filled(h, pc.copy))
    && (pc.Tracing? ==> Stale(h, pc.copy))
  }

  /** The pointer's block was given back; if its address is in use again, it is for a later allocation. */
  predicate Stale(h: Heap, p: Pointer) {
    && p.serial < h.nextCopy && h.freed[p.serial] > 0
    && (p.address in h.owner ==> h.owner[p.address] > p.serial)
  }

  /** Each allocated address belongs to one allocation that was not given back, and each such to one address. */
  ghost predicate HeapOk(h: Heap) {
    && h.memory.Keys == h.owner.Keys
    && (forall a :: a in h.owner ==> h.owner[a] < h.nextCopy && h.freed[h.owner[a]] == 0)
    && (forall a, b :: a in h.owner && b in h.owner && h.owner[a] == h.owner[b] ==> a == b)
    && (forall c :: c in h.origin ==> c < h.nextCopy)
    && (forall k :: 0 <= k < |h.traces| ==> ShowsAnother(h.traces[k]))
  }

  /** What was read shows nothing, or a later allocation's block; never the message destroyed. */
  predicate ShowsAnother(trace: Trace) {
    && (trace.owner.Some? <==> trace.content.Some?)
    && (trace.owner.Some? ==> trace.owner.value > trace.copy.serial)
  }

  ghost predicate QueueFilled(h: Heap, queue: seq<Item>) {
    forall k :: 0 <= k < |queue| && queue[k].IngressItem? ==> Filled(h, queue[k].copy)
  }

  ghost predicate LogFaithful(h: Heap, log: seq<Delivery>) {
    forall k :: 0 <= k < |log| ==> log[k].content.Some? && Faithful(h, log[k].copy.serial, log[k].content.value)
  }

  ghost predicate AllBacked(s: State) {
    && HeapOk(s.shared.heap)
    && QueueFilled(s.shared.heap, s.shared.queue)
    && LogFaithful(s.shared.heap, s.shared.delivered)
    && forall t :: 0 <= t < |s.threads| ==> Backed(s.shared.heap, s.threads[t])
  }

  lemma AllocateKeepsHeapOk(h: Heap, address: Address, message: Content)
    requires HeapOk(h) && address !in h.memory && h.freed[h.nextCopy] == 0
    ensures HeapOk(Allocate(h, address, message))
  {
  }

  lemma FreeKeepsHeapOk(h: Heap, p: Pointer)
    requires HeapOk(h) && Live(h, p)
    ensures HeapOk(Free(h, p))
  {
  }

  lemma ReadBackKeepsHeapOk(h: Heap, p: Pointer)
    requires HeapOk(h) && Stale(h, p)
    ensures HeapOk(ReadBack(h, p))
  {
  }

  lemma OperationKeepsHeapOk(h: Heap, pc: Pc, ch: Choice)
    requires HeapOk(h) && Backed(h, pc) && h.freed[h.nextCopy] == 0
    ensures HeapOk(HeapAfter(h, pc, ch))
  {
    hide Allocate;
    hide Free;
    hide Copied;
    if pc.Allocating? && ch.blockAllocated && ch.address !in h.memory {
      AllocateKeepsHeapOk(h, ch.address, pc.message);
    } else if FreedAt(pc).Some? {
      FreeKeepsHeapOk(h, FreedAt(pc).value);
    } else if pc.Tracing? {
      ReadBackKeepsHeapOk(h, pc.copy);
    }
  }

  /** An operation on one copy leaves every other copy's block alone: this is where exclusive ownership is used. */
  lemma OthersSurvive(h: Heap, pc: Pc, ch: Choice, q: Pointer)
    requires HeapOk(h) && Backed(h, pc) && Live(h, q) && !Names(HeldBy(pc), q.serial)
    ensures var h' := HeapAfter(h, pc, ch);
            Live(h', q) && h'.memory[q.address] == h.memory[q.address]
  {
  }

  lemma StaleStays(h: Heap, pc: Pc, ch: Choice, q: Pointer)
    requires HeapOk(h) && Stale(h, q)
    ensures Stale(HeapAfter(h, pc, ch), q)
  {
  }

  /** Giving a block back makes its pointer stale. */
  lemma FreedIsStale(h: Heap, p: Pointer)
    requires HeapOk(h) && Live(h, p)
    ensures Stale(Free(h, p), p)
  {
  }

  lemma OriginsStay(h: Heap, pc: Pc, ch: Choice, c: Serial)
    requires HeapOk(h) && c in h.origin
    ensures var h' := HeapAfter(h, pc, ch);
            c in h'.origin && h'.origin[c] == h.origin[c]
  {
  }

  lemma OthersStayFilled(h: Heap, pc: Pc, ch: Choice, q: Pointer)
    requires HeapOk(h) && Backed(h, pc) && Filled(h, q) && !Names(HeldBy(pc), q.serial)
    ensures Filled(HeapAfter(h, pc, ch), q)
  {
    OthersSurvive(h, pc, ch, q);
    OriginsStay(h, pc, ch, q.serial);
  }

  lemma OthersStayBacked(h: Heap, pc: Pc, ch: Choice, other: Pc)
    requires HeapOk(h) && Backed(h, pc) && Backed(h, other)
    requires HeldBy(other).Some? ==> !Names(HeldBy(pc), HeldBy(other).value.serial)
    ensures Backed(HeapAfter(h, pc, ch), other)
  {
    hide HeapAfter;
    if HeldBy(other).Some? {
      OthersSurvive(h, pc, ch, HeldBy(other).value);
    }
    if other.Copying? {
      OriginsStay(h, pc, ch, other.copy.serial);
    }
    if other.Enqueuing? || other.Dispatched? {
      OthersStayFilled(h, pc, ch, other.copy);
    }
    if other.Tracing? {
      StaleStays(h, pc, ch, other.copy);
    }
  }

  /** A successful copy fills the block with the copy of the original. */
  lemma CopyFills(h: Heap, m: Content, c: Pointer, payloadAllocated: bool)
    requires Backed(h, Copying(m, c)) && Copied(m, payloadAllocated).0
    ensures Filled(Write(h, c, Copied(m, payloadAllocated).1), c)
  {
    CopiedIsTheCopy(m, payloadAllocated);
  }

  predicate HasMessage(pc: Pc) {
    pc.CountingReceived? || pc.Checking? || pc.TakingToken? || pc.Allocating? || pc.Copying?
  }

  /** Between allocation, copying and dispatch a thread only passes its message or its copy on. */
  lemma ActPassesOn(cfg: Config, sh: Shared, pc: Pc, ch: Choice)
    requires !pc.Idle? && !pc.Copying?
    ensures var pc' := Act(cfg, sh, pc, ch).0;
            && !pc'.Enqueuing? && !pc'.Dispatched?
            && (HasMessage(pc') ==> HasMessage(pc) && pc'.message == pc.message)
            && (!pc.Allocating? ==> !pc'.Copying?)
            && (!pc.Allocating? && HeldBy(pc').Some? ==> HeldBy(pc') == HeldBy(pc) && FreedAt(pc).None?)
            && (pc'.Tracing? ==> FreedAt(pc) == Some(pc'.copy))
  {
    hide Allocate;
    hide Write;
    hide Free;
    hide Read;
    hide ReadBack;
    hide Copied;
  }

  lemma AllocationIsBacked(cfg: Config, sh: Shared, pc: Pc, ch: Choice)
    requires pc.Allocating? && Sound(pc.message)
    ensures Backed(Act(cfg, sh, pc, ch).1.heap, Act(cfg, sh, pc, ch).0)
  {
  }

  lemma CopyIsBacked(cfg: Config, sh: Shared, pc: Pc, ch: Choice)
    requires pc.Copying? && Backed(sh.heap, pc)
    ensures Backed(Act(cfg, sh, pc, ch).1.heap, Act(cfg, sh, pc, ch).0)
  {
    if Copied(pc.message, ch.payloadAllocated).0 {
      CopyFills(sh.heap, pc.message, pc.copy, ch.payloadAllocated);
    }
    hide Copied;
    hide Faithful;
  }

  lemma BeginIsBacked(sh: Shared, ch: Choice)
    requires QueueFilled(sh.heap, sh.queue)
    ensures Backed(Begin(sh, ch).1.heap, Begin(sh, ch).0)
  {
    hide Faithful;
  }

  lemma ActKeepsThreadBacked(cfg: Config, sh: Shared, pc: Pc, ch: Choice)
    requires HeapOk(sh.heap) && Backed(sh.heap, pc) && QueueFilled(sh.heap, sh.queue)
    ensures Backed(Act(cfg, sh, pc, ch).1.heap, Act(cfg, sh, pc, ch).0)
  {
    if pc.Idle? {
      BeginIsBacked(sh, ch);
    } else if pc.Allocating? {
      AllocationIsBacked(cfg, sh, pc, ch);
    } else if pc.Copying? {
      CopyIsBacked(cfg, sh, pc, ch);
    } else {
      ActPassesOn(cfg, sh, pc, ch);
      ActOnHeap(cfg, sh, pc, ch);
      hide Act;
      if FreedAt(pc).Some? {
        FreedIsStale(sh.heap, FreedAt(pc).value);
      }
    }
  }

  lemma ActKeepsQueueFilled(s: State, l: Label)
    requires EachInOnePlace(s) && AllBacked(s) && l.thread < |s.threads|
    ensures var sh' := Step(s, l).shared; QueueFilled(sh'.heap, sh'.queue)
  {
    var sh, pc := s.shared, s.threads[l.thread];
    var sh' := Act(s.cfg, sh, pc, l.choice).1;
    ActOnHeap(s.cfg, sh, pc, l.choice);
    if !pc.Idle? && !pc.Enqueuing? && !pc.Routing? {
      ActKeepsQueue(s.cfg, sh, pc, l.choice);
      hide Act;
      forall k | 0 <= k < |sh'.queue| && sh'.queue[k].IngressItem? ensures Filled(sh'.heap, sh'.queue[k].copy) {
        QueuedApart(s, l.thread, k, sh.queue[k].copy.serial);
        OthersStayFilled(sh.heap, pc, l.choice, sh.queue[k].copy);
      }
    } else {
      hide Filled;
      assert sh'.heap == sh.heap;
      assert Backed(sh.heap, pc);
    }
  }

  lemma ActLogs(cfg: Config, sh: Shared, pc: Pc, ch: Choice)
    ensures Act(cfg, sh, pc, ch).1.delivered ==
            if pc.Dispatched? && pc.observersPresent then sh.delivered + [Delivery(pc.copy, Read(sh.heap, pc.copy))]
            else sh.delivered
  {
    hide Allocate;
    hide Write;
    hide Free;
    hide Read;
    hide ReadBack;
    hide Copied;
  }

  lemma ActKeepsLogFaithful(cfg: Config, sh: Shared, pc: Pc, ch: Choice)
    requires HeapOk(sh.heap) && Backed(sh.heap, pc) && LogFaithful(sh.heap, sh.delivered)
    ensures var sh' := Act(cfg, sh, pc, ch).1; LogFaithful(sh'.heap, sh'.delivered)
  {
    var sh' := Act(cfg, sh, pc, ch).1;
    ActLogs(cfg, sh, pc, ch);
    ActOnHeap(cfg, sh, pc, ch);
    hide Act;
    forall k | 0 <= k < |sh'.delivered|
      ensures sh'.delivered[k].content.Some? && Faithful(sh'.heap, sh'.delivered[k].copy.serial, sh'.delivered[k].content.value)
    {
      var d := sh'.delivered[k];
      assert d.content.Some? && Faithful(sh.heap, d.copy.serial, d.content.value);
      OriginsStay(sh.heap, pc, ch, d.copy.serial);
    }
  }

  lemma StepKeepsBacked(s: State, l: Label)
    requires EachInOnePlace(s) && AllBacked(s)
    ensures AllBacked(Step(s, l))
  {
    if l.thread < |s.threads| {
      var sh, pc := s.shared, s.threads[l.thread];
      var (pc', sh') := Act(s.cfg, sh, pc, l.choice);
      NextIsUnfreed(s);
      ActOnHeap(s.cfg, sh, pc, l.choice);
      OperationKeepsHeapOk(sh.heap, pc, l.choice);
      ActKeepsQueueFilled(s, l);
      ActKeepsLogFaithful(s.cfg, sh, pc, l.choice);
      ActKeepsThreadBacked(s.cfg, sh, pc, l.choice);
      hide Act;
      hide Backed;
      hide HeapAfter;
      forall t | 0 <= t < |s.threads| && t != l.thread ensures Backed(sh'.heap, s.threads[t]) {
        OtherThreadStaysBacked(s, l, t);
      }
    }
  }

  lemma OtherThreadStaysBacked(s: State, l: Label, t: nat)
    requires EachInOnePlace(s) && AllBacked(s) && l.thread < |s.threads| && t < |s.threads| && t != l.thread
    ensures Backed(HeapAfter(s.shared.heap, s.threads[l.thread], l.choice), s.threads[t])
  {
    hide HeapAfter;
    hide Backed;
    if HeldBy(s.threads[t]).Some? {
      var c := HeldBy(s.threads[t]).value.serial;
      if t < l.thread {
        HeldApart(s, t, l.thread, c);
      } else {
        HeldApart(s, l.thread, t, c);
      }
    }
    OthersStayBacked(s.shared.heap, s.threads[l.thread], l.choice, s.threads[t]);
  }

  // ----- every run -----

  /** All the machine's invariants. */
  ghost predicate Sane(s: State) {
    Inv(s) && EachInOnePlace(s) && AllBacked(s)
  }

  lemma StartIsSane(s: State)
    requires Starts(s)
    ensures Sane(s)
  {
    StartInv(s);
    forall c: Serial ensures InOnePlace(s, c) {
      IdleHoldsNothing(s.threads, c);
    }
  }

  lemma {:induction false} RunKeepsSane(s: State, schedule: seq<Label>)
    requires Sane(s)
    ensures Sane(Run(s, schedule))
  {
    if schedule != [] {
      var before, l := Run(s, schedule[..|schedule| - 1]), schedule[|schedule| - 1];
      RunKeepsSane(s, schedule[..|schedule| - 1]);
      Ingress.StepKeepsInv(before, l);
      forall c: Serial ensures InOnePlace(Step(before, l), c) {
        assert InOnePlace(before, c);
        StepKeepsOnePlace(before, l, c);
      }
      StepKeepsBacked(before, l);
      hide Inv;
      hide InOnePlace;
      hide AllBacked;
      hide Step;
    }
  }

  /**
   Linear ownership: a copy ever allocated is held by one thread, or queued once, or freed
   once, and never more than one of these; one not allocated is nowhere.
   */
  lemma LinearOwnership(start: State, schedule: seq<Label>, c: Serial)
    requires Starts(start)
    ensures var s := Run(start, schedule);
            Total(s.threads, Holds(c)) + Queued(s.shared.queue, c) + s.shared.heap.freed[c] == One(c < s.shared.heap.nextCopy)
  {
    hide Run;
    StartIsSane(start);
    RunKeepsSane(start, schedule);
    var s := Run(start, schedule);
    assert InOnePlace(s, c);
  }

  /**
   Up to its release a copy in a thread's hands has its own allocated block, and no other
   thread or queued item that may still release or read one has the same address.
   */
  lemma HeldExclusively(start: State, schedule: seq<Label>, t: nat, p: Pointer)
    requires Starts(start)
    requires var s := Run(start, schedule); t < |s.threads| && HeldBy(s.threads[t]) == Some(p)
    ensures var s := Run(start, schedule);
            && Live(s.shared.heap, p)
            && (forall k :: 0 <= k < |s.shared.queue| && s.shared.queue[k].IngressItem? ==>
                  s.shared.queue[k].copy.address != p.address)
            && (forall u :: 0 <= u < |s.threads| && u != t && HeldBy(s.threads[u]).Some? ==>
                  HeldBy(s.threads[u]).value.address != p.address)
  {
    hide Run;
    StartIsSane(start);
    RunKeepsSane(start, schedule);
    var s := Run(start, schedule);
    assert Backed(s.shared.heap, s.threads[t]);
    forall k | 0 <= k < |s.shared.queue| && s.shared.queue[k].IngressItem?
      ensures s.shared.queue[k].copy.address != p.address
    {
      QueuedApart(s, t, k, p.serial);
    }
    forall u | 0 <= u < |s.threads| && u != t && HeldBy(s.threads[u]).Some?
      ensures HeldBy(s.threads[u]).value.address != p.address
    {
      assert Backed(s.shared.heap, s.threads[u]);
      if u < t {
        HeldApart(s, u, t, p.serial);
      } else {
        HeldApart(s, t, u, p.serial);
      }
    }
  }

  lemma QuiescentBlocks(s: State, a: Address)
    requires EachInOnePlace(s) && AllBacked(s) && Quiescent(s)
    ensures a in s.shared.heap.memory <==>
            exists k :: 0 <= k < |s.shared.queue| && s.shared.queue[k].IngressItem? && s.shared.queue[k].copy.address == a
  {
    var sh := s.shared;
    if a in sh.heap.memory {
      var c := sh.heap.owner[a];
      assert InOnePlace(s, c);
      IdleHoldsNothing(s.threads, c);
      QueuedIff(sh.queue, c);
      var k :| 0 <= k < |sh.queue| && Names(Waiting(sh.queue[k]), c);
      assert Filled(sh.heap, sh.queue[k].copy);
    }
  }

  /** Nothing leaks: when no handler runs, the allocated blocks are exactly those of the queued messages. */
  lemma NothingLeaks(start: State, schedule: seq<Label>, a: Address)
    requires Starts(start) && Quiescent(Run(start, schedule))
    ensures var sh := Run(start, schedule).shared;
            a in sh.heap.memory <==> exists k :: 0 <= k < |sh.queue| && sh.queue[k].IngressItem? && sh.queue[k].copy.address == a
  {
    hide Run;
    StartIsSane(start);
    RunKeepsSane(start, schedule);
    QuiescentBlocks(Run(start, schedule), a);
  }

  /**
   After its release a copy is read once more.  In every interleaving that read is through a
   pointer whose block is gone: it finds nothing, or, exactly when the address has been
   allocated again, the block of a later allocation.
   */
  lemma ReadBackIsStale(start: State, schedule: seq<Label>, t: nat)
    requires Starts(start)
    requires var s := Run(start, schedule); t < |s.threads| && s.threads[t].Tracing?
    ensures var s := Run(start, schedule);
            var h, p := s.shared.heap, s.threads[t].copy;
            && !Live(h, p) && h.freed[p.serial] == 1
            && (Read(h, p).Some? <==> p.address in h.owner)
            && (p.address in h.owner ==> p.serial < h.owner[p.address] < h.nextCopy)
  {
    hide Run;
    StartIsSane(start);
    RunKeepsSane(start, schedule);
    var s := Run(start, schedule);
    var c := s.threads[t].copy.serial;
    assert Backed(s.shared.heap, s.threads[t]);
    assert InOnePlace(s, c);
    TotalIsNonnegative(s.threads, Holds(c));
  }

  /** So no trace line shows the message it is about. */
  lemma TracesShowAnother(start: State, schedule: seq<Label>, k: nat)
    requires Starts(start)
    requires k < |Run(start, schedule).shared.heap.traces|
    ensures ShowsAnother(Run(start, schedule).shared.heap.traces[k])
  {
    hide Run;
    StartIsSane(start);
    RunKeepsSane(start, schedule);
  }

  /** Every delivered copy carries the header and the announced bytes of the message it was made from. */
  lemma DeliveriesAreFaithful(start: State, schedule: seq<Label>, k: nat)
    requires Starts(start)
    requires k < |Run(start, schedule).shared.delivered|
    ensures var sh := Run(start, schedule).shared;
            var d := sh.delivered[k];
            && d.copy.serial in sh.heap.origin
            && Sound(sh.heap.origin[d.copy.serial]) && Copyable(sh.heap.origin[d.copy.serial])
            && d.content == Some(CopyOf(sh.heap.origin[d.copy.serial]))
  {
    hide Run;
    StartIsSane(start);
    RunKeepsSane(start, schedule);
  }

  // ----- at most one delivery -----

  function InRelease(c: Serial): Pc -> int {
    (pc: Pc) => One(pc.Releasing? && pc.copy.serial == c)
  }

  function Deliveries(log: seq<Delivery>, c: Serial): nat {
    if log == [] then 0 else Deliveries(log[..|log| - 1], c) + One(log[|log| - 1].copy.serial == c)
  }

  /** A delivered copy is being released or has been freed. */
  ghost predicate DeliveredOnce(s: State) {
    forall c: Serial :: Deliveries(s.shared.delivered, c) <= Total(s.threads, InRelease(c)) + s.shared.heap.freed[c]
  }

  function Delivers(pc: Pc, c: Serial): bool {
    pc.Dispatched? && pc.observersPresent && pc.copy.serial == c
  }

  lemma ActReleases(cfg: Config, sh: Shared, pc: Pc, ch: Choice, c: Serial)
    ensures InRelease(c)(Act(cfg, sh, pc, ch).0) == One(Delivers(pc, c))
  {
    hide Allocate;
    hide Write;
    hide Free;
    hide Read;
    hide ReadBack;
    hide Copied;
  }

  lemma ActDelivers(cfg: Config, sh: Shared, pc: Pc, ch: Choice, c: Serial)
    ensures var (pc', sh') := Act(cfg, sh, pc, ch);
            Deliveries(sh'.delivered, c) - Deliveries(sh.delivered, c)
            <= InRelease(c)(pc') - InRelease(c)(pc) + sh'.heap.freed[c] - sh.heap.freed[c]
  {
    var sh' := Act(cfg, sh, pc, ch).1;
    ActLogs(cfg, sh, pc, ch);
    ActReleases(cfg, sh, pc, ch, c);
    ActOnHeap(cfg, sh, pc, ch);
    HeapCounts(sh.heap, pc, ch, c);
    hide Act;
    hide HeapAfter;
    if pc.Dispatched? && pc.observersPresent {
      assert sh'.delivered[..|sh'.delivered| - 1] == sh.delivered;
    }
  }

  lemma {:induction false} RunDeliversOnce(start: State, schedule: seq<Label>)
    requires Starts(start)
    ensures DeliveredOnce(Run(start, schedule))
  {
    if schedule == [] {
      forall c: Serial ensures 0 <= Total(start.threads, InRelease(c)) {
        TotalIsNonnegative(start.threads, InRelease(c));
      }
    } else {
      var before, l := schedule[..|schedule| - 1], schedule[|schedule| - 1];
      RunDeliversOnce(start, before);
      StepDeliversOnce(Run(start, before), l);
    }
  }

  lemma StepDeliversOnce(s: State, l: Label)
    requires DeliveredOnce(s)
    ensures DeliveredOnce(Step(s, l))
  {
    hide Act;
    if l.thread < |s.threads| {
      forall c: Serial
        ensures Deliveries(Step(s, l).shared.delivered, c)
                <= Total(Step(s, l).threads, InRelease(c)) + Step(s, l).shared.heap.freed[c]
      {
        var pc' := Act(s.cfg, s.shared, s.threads[l.thread], l.choice).0;
        TotalUpdate(s.threads, l.thread, pc', InRelease(c));
        ActDelivers(s.cfg, s.shared, s.threads[l.thread], l.choice, c);
      }
    }
  }

  /** No copy is delivered twice, in any interleaving. */
  lemma AtMostOneDelivery(start: State, schedule: seq<Label>, c: Serial)
    requires Starts(start)
    ensures Deliveries(Run(start, schedule).shared.delivered, c) <= 1
  {
    hide Run;
    var s := Run(start, schedule);
    RunDeliversOnce(start, schedule);
    LinearOwnership(start, schedule, c);
    TotalMonotone(s.threads, InRelease(c), Holds(c));
  }
}
