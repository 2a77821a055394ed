/**
 The routing engine's ingress path as a concurrent machine.  Any number of transport
 callbacks, route callers and dispatcher threads interleave; one step of a thread is one
 atomic operation of the source.  A thread's program counter names the operation it is
 about to perform.
 */
module Ingress {
  import opened Wrappers
  import opened Totals
  import opened Message

  type Address = nat

  /** Number of an allocation of a message block; addresses are reused, these numbers never. */
  type Serial = nat

  /**
   A pointer to a message block with its provenance.  The operations use only the address;
   the serial number records which allocation the pointer came from.
   */
  datatype Pointer = Pointer(address: Address, serial: Serial)

  datatype Config = Config(high: nat, low: nat, capacity: nat, telemetry: bool)

  const ROUTE_ATTEMPTS: nat := 16

  /** Drop reasons; `EgressFull` is QUEUE_FULL recorded on the route path. */
  datatype Reason = QueueFull | Backpressure | InvalidHeader | SecurityPolicy | InvalidParam | EgressFull

  datatype Item = IngressItem(copy: Pointer) | EgressItem

  /** A delivery of the block behind a pointer; `None` if there was no block. */
  datatype Delivery = Delivery(copy: Pointer, content: Option<Content>)

  /** What a thread goes on with after destroying a message. */
  datatype Aftermath = AfterDrop | AfterDelivery | AfterDiscard

  /**
   What the destroy routine shows of a block it has just given back: the allocation the
   address belongs to by then, and what is there.
   */
  datatype Trace = Trace(copy: Pointer, owner: Option<Serial>, content: Option<Content>)

  datatype Pc =
    | Idle
    // transport callback
    | CountingReceived(message: Content)
    | Checking(message: Content)
    | TakingToken(message: Content)
    | Allocating(message: Content)
    | Copying(message: Content, copy: Pointer)
    | Enqueuing(copy: Pointer)
    | CountingEnqueued
    | ReturningToken(why: Reason, held: Option<Pointer>)
    | CountingDrop(why: Reason, held: Option<Pointer>)
    | CountingReason(why: Reason, held: Option<Pointer>)
    | RaisingFlag
    | Destroying(copy: Pointer)
    | Tracing(copy: Pointer, after: Aftermath)
    // route caller
    | Routing(attempt: nat)
    // dispatcher
    | Dispatched(copy: Pointer, observersPresent: bool)
    | Releasing(copy: Pointer)
    | FinishingToken
    | FinishingCount(remain: int)
    | LoadingFlag(remain: int)
    | ClearingFlag
    | DiscardingCount
    | DiscardingToken

  /**
   The message blocks.  `memory` holds those allocated now; the rest is history, read by no
   operation except to number allocations: `owner` is the allocation an address belongs to
   now, `origin` the message an allocation was made for, `freed` the allocations given back,
   `traces` what was read behind pointers after that.
   */
  datatype Heap = Heap(
    memory: map<Address, Content>,
    nextCopy: Serial,
    owner: map<Address, Serial>,
    origin: map<Serial, Content>,
    freed: multiset<Serial>,
    traces: seq<Trace>)

  /** Shared memory; the last three fields are history and bookkeeping, not read by any thread. */
  datatype Shared = Shared(
    queue: seq<Item>,
    inFlight: int,
    active: bool,
    received: nat,
    enqueued: nat,
    dequeued: nat,
    dropped: nat,
    dropQueueFull: nat,
    dropBackpressure: nat,
    dropInvalidHeader: nat,
    dropSecurityPolicy: nat,
    heap: Heap,
    delivered: seq<Delivery>,
    egressDrops: nat,
    invalidParamDrops: nat)

  datatype Job = Receive(message: Content) | Route | Dispatch

  datatype Verdict = Accept | BadHeader | Refused

  /** Everything a step leaves to the environment: which job to begin, and the outcome of checks and allocations. */
  datatype Choice = Choice(
    job: Job,
    running: bool,
    verdict: Verdict,
    blockAllocated: bool,
    address: Address,
    payloadAllocated: bool,
    nodeAllocated: bool,
    contextAllocated: bool,
    observersPresent: bool)

  function Bump(cfg: Config, counter: nat): nat {
    if cfg.telemetry then counter + 1 else counter
  }

  function Begin(sh: Shared, ch: Choice): (Pc, Shared) {
    match ch.job
    case Receive(m) => if ch.running && Sound(m) then (CountingReceived(m), sh) else (Idle, sh)
    case Route => if ch.running && ch.contextAllocated then (Routing(0), sh) else (Idle, sh)
    case Dispatch =>
      if sh.queue == [] then (Idle, sh)
      else
        var rest := sh.(queue := sh.queue[1..]);
        match sh.queue[0]
        case IngressItem(c) => (Dispatched(c, ch.observersPresent), rest)
        case EgressItem => (Idle, rest)
  }

  function CountReason(cfg: Config, sh: Shared, why: Reason): Shared {
    match why
    case QueueFull => sh.(dropQueueFull := Bump(cfg, sh.dropQueueFull))
    case EgressFull => sh.(dropQueueFull := Bump(cfg, sh.dropQueueFull))
    case Backpressure => sh.(dropBackpressure := Bump(cfg, sh.dropBackpressure))
    case InvalidHeader => sh.(dropInvalidHeader := Bump(cfg, sh.dropInvalidHeader))
    case SecurityPolicy => sh.(dropSecurityPolicy := Bump(cfg, sh.dropSecurityPolicy))
    case InvalidParam => sh.(invalidParamDrops := Bump(cfg, sh.invalidParamDrops))
  }

  /** The allocator hands out any address that is not in use, with the block zeroed. */
  function Allocate(h: Heap, address: Address, message: Content): Heap {
    Heap(h.memory[address := ZERO_CONTENT], h.nextCopy + 1, h.owner[address := h.nextCopy],
         h.origin[h.nextCopy := message], h.freed, h.traces)
  }

  /** Writes a block; only the address matters. */
  function Write(h: Heap, c: Pointer, content: Content): Heap {
    h.(memory := h.memory[c.address := content])
  }

  /** What is behind a pointer now, whatever its provenance. */
  function Read(h: Heap, c: Pointer): Option<Content> {
    if c.address in h.memory then Some(h.memory[c.address]) else None
  }

  /** Gives a block and its payload back; from then on the address may be handed out again. */
  function Free(h: Heap, c: Pointer): Heap {
    Heap(h.memory - {c.address}, h.nextCopy, h.owner - {c.address}, h.origin, h.freed + multiset{c.serial}, h.traces)
  }

  /** The destroy routine reads the header of the block it has given back, for its trace line. */
  function ReadBack(h: Heap, c: Pointer): Heap {
    h.(traces := h.traces + [Trace(c, if c.address in h.owner then Some(h.owner[c.address]) else None, Read(h, c))])
  }

  /** The whole destroy routine with nothing in between. */
  function Destroy(h: Heap, c: Pointer): Heap {
    ReadBack(Free(h, c), c)
  }

  /** The atomic operation at the given program counter. */
  function Act(cfg: Config, sh: Shared, pc: Pc, ch: Choice): (Pc, Shared) {
    match pc
    case Idle => Begin(sh, ch)
    case CountingReceived(m) => (Checking(m), sh.(received := Bump(cfg, sh.received)))
    case Checking(m) =>
      (match ch.verdict
       case Accept => (TakingToken(m), sh)
       case BadHeader => (CountingDrop(InvalidHeader, None), sh)
       case Refused => (CountingDrop(SecurityPolicy, None), sh))
    case TakingToken(m) =>
      var sh' := sh.(inFlight := sh.inFlight + 1);
      if sh'.inFlight > cfg.high then (ReturningToken(Backpressure, None), sh') else (Allocating(m), sh')
    case Allocating(m) =>
      if ch.blockAllocated && ch.address !in sh.heap.memory
      then (Copying(m, Pointer(ch.address, sh.heap.nextCopy)), sh.(heap := Allocate(sh.heap, ch.address, m)))
      else (ReturningToken(InvalidParam, None), sh)
    case Copying(m, c) =>
      var (copied, stored) := Copied(m, ch.payloadAllocated);
      (if copied then Enqueuing(c) else ReturningToken(InvalidParam, Some(c)),
       sh.(heap := Write(sh.heap, c, stored)))
    case Enqueuing(c) =>
      if |sh.queue| < cfg.capacity && ch.nodeAllocated
      then (CountingEnqueued, sh.(queue := sh.queue + [IngressItem(c)]))
      else (ReturningToken(QueueFull, Some(c)), sh)
    case CountingEnqueued => (Idle, sh.(enqueued := Bump(cfg, sh.enqueued)))
    case ReturningToken(why, held) => (CountingDrop(why, held), sh.(inFlight := sh.inFlight - 1))
    case CountingDrop(why, held) =>
      (CountingReason(why, held),
       sh.(dropped := Bump(cfg, sh.dropped), egressDrops := if why == EgressFull then Bump(cfg, sh.egressDrops) else sh.egressDrops))
    case CountingReason(why, held) =>
      (if why == Backpressure then RaisingFlag else if held.Some? then Destroying(held.value) else Idle,
       CountReason(cfg, sh, why))
    case RaisingFlag => (Idle, sh.(active := true))
    case Destroying(c) => (Tracing(c, AfterDrop), sh.(heap := Free(sh.heap, c)))
    case Tracing(c, after) =>
      (match after
       case AfterDrop => Idle
       case AfterDelivery => FinishingToken
       case AfterDiscard => DiscardingCount,
       sh.(heap := ReadBack(sh.heap, c)))
    case Routing(k) =>
      if |sh.queue| < cfg.capacity && ch.nodeAllocated then (Idle, sh.(queue := sh.queue + [EgressItem]))
      else if k + 1 < ROUTE_ATTEMPTS then (Routing(k + 1), sh)
      else (CountingDrop(EgressFull, None), sh)
    case Dispatched(c, observersPresent) =>
      if observersPresent
      then (Releasing(c), sh.(delivered := sh.delivered + [Delivery(c, Read(sh.heap, c))]))
      else (Tracing(c, AfterDiscard), sh.(heap := Free(sh.heap, c)))
    case Releasing(c) => (Tracing(c, AfterDelivery), sh.(heap := Free(sh.heap, c)))
    case FinishingToken => (FinishingCount(sh.inFlight - 1), sh.(inFlight := sh.inFlight - 1))
    case FinishingCount(remain) => (LoadingFlag(remain), sh.(dequeued := Bump(cfg, sh.dequeued)))
    case LoadingFlag(remain) => (if sh.active && remain <= cfg.low then ClearingFlag else Idle, sh)
    case ClearingFlag => (Idle, sh.(active := false))
    case DiscardingCount => (DiscardingToken, sh.(dequeued := Bump(cfg, sh.dequeued)))
    case DiscardingToken => (Idle, sh.(inFlight := sh.inFlight - 1))
  }

  datatype State = State(cfg: Config, threads: seq<Pc>, shared: Shared)

  datatype Label = Label(thread: nat, choice: Choice)

  function Step(s: State, l: Label): State {
    if l.thread >= |s.threads| then s
    else
      var (pc, sh) := Act(s.cfg, s.shared, s.threads[l.thread], l.choice);
      State(s.cfg, s.threads[l.thread := pc], sh)
  }

  const EMPTY := Shared([], 0, false, 0, 0, 0, 0, 0, 0, 0, 0, Heap(map[], 0, map[], map[], multiset{}, []), [], 0, 0)

  /** The state after a schedule: any interleaving of any threads with any outcomes. */
  function Run(s: State, schedule: seq<Label>): State {
    if schedule == [] then s else Step(Run(s, schedule[..|schedule| - 1]), schedule[|schedule| - 1])
  }

  // ----- weights -----

  function One(b: bool): int {
    if b then 1 else 0
  }

  /** The thread has destroyed a dequeued message and has yet to finish with it. */
  predicate Departing(pc: Pc) {
    pc.Tracing? && pc.after != AfterDrop
  }

  /** The thread holds an in-flight token. */
  function Token(pc: Pc): int {
    One(pc.Allocating? || pc.Copying? || pc.Enqueuing? || pc.ReturningToken? || pc.Dispatched? || pc.Releasing?
        || Departing(pc) || pc.FinishingToken? || pc.DiscardingCount? || pc.DiscardingToken?)
  }

  /** The thread is between taking a token beyond the watermark and giving it back. */
  function Rejecting(pc: Pc): int {
    One(pc.ReturningToken? && pc.why == Backpressure)
  }

  /** The thread works on an admitted message. */
  function Admitted(pc: Pc): int {
    Token(pc) - Rejecting(pc)
  }

  /** The thread has counted a reception whose outcome is not counted yet. */
  function Undecided(pc: Pc): int {
    One(pc.Checking? || pc.TakingToken? || pc.Allocating? || pc.Copying? || pc.Enqueuing? || pc.CountingEnqueued?
        || pc.ReturningToken? || (pc.CountingDrop? && pc.why != EgressFull))
  }

  /** The thread has counted a drop but not its reason. */
  function Unexplained(pc: Pc): int {
    One(pc.CountingReason?)
  }

  /** Dequeued but not counted as such, less enqueued but not counted as such. */
  function Uncounted(pc: Pc): int {
    One(pc.Dispatched? || pc.Releasing? || Departing(pc) || pc.FinishingToken? || pc.FinishingCount? || pc.DiscardingCount?)
    - One(pc.CountingEnqueued?)
  }

  function IngressItems(queue: seq<Item>): nat {
    if queue == [] then 0 else One(queue[0].IngressItem?) + IngressItems(queue[1..])
  }

  lemma {:induction false} IngressItemsAppend(queue: seq<Item>, item: Item)
    ensures IngressItems(queue + [item]) == IngressItems(queue) + One(item.IngressItem?)
  {
    if queue == [] {
      assert queue + [item] == [item];
    } else {
      assert (queue + [item])[1..] == queue[1..] + [item];
      IngressItemsAppend(queue[1..], item);
    }
  }

  function Outstanding(sh: Shared): int {
    sh.inFlight - IngressItems(sh.queue)
  }

  function Balance(sh: Shared): int {
    sh.received + sh.egressDrops - sh.enqueued - sh.dropped
  }

  function ReasonGap(sh: Shared): int {
    sh.dropped - (sh.dropQueueFull + sh.dropBackpressure + sh.dropInvalidHeader + sh.dropSecurityPolicy + sh.invalidParamDrops)
  }

  function QueueBalance(sh: Shared): int {
    sh.enqueued - sh.dequeued - IngressItems(sh.queue)
  }

  /** Route failures never take or return tokens, and only queue-full and allocation failures hold a copy. */
  predicate Shaped(pc: Pc) {
    && (pc.ReturningToken? ==> pc.why in {Backpressure, InvalidParam, QueueFull})
    && ((pc.ReturningToken? || pc.CountingDrop? || pc.CountingReason?) && pc.held.Some? ==> pc.why in {InvalidParam, QueueFull})
  }

  lemma ActKeepsShape(cfg: Config, sh: Shared, pc: Pc, ch: Choice)
    requires Shaped(pc)
    ensures Shaped(Act(cfg, sh, pc, ch).0)
  {
    hide Allocate;
    hide Write;
    hide Free;
    hide Read;
    hide ReadBack;
    hide Copied;
  }

  lemma ActOnQueue(cfg: Config, sh: Shared, pc: Pc, ch: Choice)
    ensures var (pc', sh') := Act(cfg, sh, pc, ch);
            IngressItems(sh'.queue) - IngressItems(sh.queue) == One(pc'.CountingEnqueued?) - One(pc'.Dispatched?)
  {
    hide Allocate;
    hide Write;
    hide Free;
    hide Read;
    hide ReadBack;
    hide Copied;
    if pc.Enqueuing? {
      IngressItemsAppend(sh.queue, IngressItem(pc.copy));
    } else if pc.Routing? {
      IngressItemsAppend(sh.queue, EgressItem);
    }
  }

  /** One atomic operation changes each shared quantity by exactly the thread's change of weight. */
  lemma ActBalancesTokens(cfg: Config, sh: Shared, pc: Pc, ch: Choice)
    ensures var (pc', sh') := Act(cfg, sh, pc, ch);
            Outstanding(sh') - Outstanding(sh) == Token(pc') - Token(pc)
  {
    hide Allocate;
    hide Write;
    hide Free;
    hide Read;
    hide ReadBack;
    hide Copied;
    ActOnQueue(cfg, sh, pc, ch);
  }

  lemma ActBalancesOutcomes(cfg: Config, sh: Shared, pc: Pc, ch: Choice)
    requires Shaped(pc) && cfg.telemetry
    ensures var (pc', sh') := Act(cfg, sh, pc, ch);
            Balance(sh') - Balance(sh) == Undecided(pc') - Undecided(pc)
  {
    hide Allocate;
    hide Write;
    hide Free;
    hide Read;
    hide ReadBack;
    hide Copied;
  }

  lemma ActBalancesReasons(cfg: Config, sh: Shared, pc: Pc, ch: Choice)
    requires cfg.telemetry
    ensures var (pc', sh') := Act(cfg, sh, pc, ch);
            ReasonGap(sh') - ReasonGap(sh) == Unexplained(pc') - Unexplained(pc)
  {
    hide Allocate;
    hide Write;
    hide Free;
    hide Read;
    hide ReadBack;
    hide Copied;
  }

  lemma ActBalancesQueue(cfg: Config, sh: Shared, pc: Pc, ch: Choice)
    requires cfg.telemetry
    ensures var (pc', sh') := Act(cfg, sh, pc, ch);
            QueueBalance(sh') - QueueBalance(sh) == Uncounted(pc') - Uncounted(pc)
  {
    hide Allocate;
    hide Write;
    hide Free;
    hide Read;
    hide ReadBack;
    hide Copied;
    ActOnQueue(cfg, sh, pc, ch);
  }

  ghost predicate Inv(s: State) {
    && (forall t :: 0 <= t < |s.threads| ==> Shaped(s.threads[t]))
    && Outstanding(s.shared) == Total(s.threads, Token)
    && Total(s.threads, Admitted) + IngressItems(s.shared.queue) <= s.cfg.high
    && (s.cfg.telemetry ==> Balance(s.shared) == Total(s.threads, Undecided))
    && (s.cfg.telemetry ==> ReasonGap(s.shared) == Total(s.threads, Unexplained))
    && (s.cfg.telemetry ==> QueueBalance(s.shared) == Total(s.threads, Uncounted))
  }

  ghost predicate Quiescent(s: State) {
    forall t :: 0 <= t < |s.threads| ==> s.threads[t] == Idle
  }

  /** Nothing queued, nothing counted. */
  predicate Blank(sh: Shared) {
    && sh.queue == [] && sh.inFlight == 0
    && sh.received == sh.enqueued == sh.dequeued == sh.egressDrops == 0
    && sh.dropped == sh.dropQueueFull == sh.dropBackpressure == 0
    && sh.dropInvalidHeader == sh.dropSecurityPolicy == sh.invalidParamDrops == 0
  }

  predicate BlankHeap(h: Heap) {
    h.memory.Keys == {} && h.owner.Keys == {} && h.origin.Keys == {} && h.nextCopy == 0 && h.freed == multiset{} && h.traces == []
  }

  /** A new engine: any number of threads, none of them at work. */
  ghost predicate Starts(s: State) {
    Quiescent(s) && Blank(s.shared) && BlankHeap(s.shared.heap) && s.shared.delivered == []
  }

  lemma EmptyStarts(cfg: Config)
    ensures Starts(State(cfg, [Idle], EMPTY))
  {
  }

  lemma StartInv(s: State)
    requires Starts(s)
    ensures Inv(s)
  {
    IdleTotals(s.threads);
  }

  lemma {:induction false} IdleTotals(threads: seq<Pc>)
    requires forall t :: 0 <= t < |threads| ==> threads[t] == Idle
    ensures Total(threads, Token) == 0 && Total(threads, Admitted) == 0
    ensures Total(threads, Undecided) == 0 && Total(threads, Unexplained) == 0 && Total(threads, Uncounted) == 0
  {
    if threads != [] {
      IdleTotals(threads[..|threads| - 1]);
    }
  }

  /** Only taking a token raises the number of admitted messages, and then the token counter has room. */
  lemma ActAdmits(cfg: Config, sh: Shared, pc: Pc, ch: Choice)
    ensures var (pc', sh') := Act(cfg, sh, pc, ch);
            || Admitted(pc') + IngressItems(sh'.queue) <= Admitted(pc) + IngressItems(sh.queue)
            || (&& sh'.queue == sh.queue && Admitted(pc') == Admitted(pc) + 1 && Rejecting(pc) == 0
                && sh.inFlight + 1 <= cfg.high)
  {
    hide Allocate;
    hide Write;
    hide Free;
    hide Read;
    hide ReadBack;
    hide Copied;
    ActOnQueue(cfg, sh, pc, ch);
  }

  lemma {:induction false} TokenSplits(threads: seq<Pc>)
    ensures Total(threads, Token) == Total(threads, Admitted) + Total(threads, Rejecting)
  {
    if threads != [] {
      TokenSplits(threads[..|threads| - 1]);
    }
  }

  lemma StepKeepsWatermark(s: State, l: Label)
    requires Inv(s) && l.thread < |s.threads|
    ensures var s' := Step(s, l);
            Total(s'.threads, Admitted) + IngressItems(s'.shared.queue) <= s'.cfg.high
  {
    hide Act;
    var pc := s.threads[l.thread];
    var (pc', sh') := Act(s.cfg, s.shared, pc, l.choice);
    TotalUpdate(s.threads, l.thread, pc', Admitted);
    ActAdmits(s.cfg, s.shared, pc, l.choice);
    TokenSplits(s.threads);
    TotalIsNonnegative(s.threads, Rejecting);
  }

  lemma StepKeepsInv(s: State, l: Label)
    requires Inv(s)
    ensures Inv(Step(s, l))
  {
    hide Act;
    if l.thread < |s.threads| {
      var pc := s.threads[l.thread];
      var (pc', sh') := Act(s.cfg, s.shared, pc, l.choice);
      StepKeepsWatermark(s, l);
      ActKeepsShape(s.cfg, s.shared, pc, l.choice);
      ActBalancesTokens(s.cfg, s.shared, pc, l.choice);
      if s.cfg.telemetry {
        ActBalancesOutcomes(s.cfg, s.shared, pc, l.choice);
        ActBalancesReasons(s.cfg, s.shared, pc, l.choice);
        ActBalancesQueue(s.cfg, s.shared, pc, l.choice);
      }
      TotalUpdate(s.threads, l.thread, pc', Token);
      TotalUpdate(s.threads, l.thread, pc', Undecided);
      TotalUpdate(s.threads, l.thread, pc', Unexplained);
      TotalUpdate(s.threads, l.thread, pc', Uncounted);
    }
  }

  lemma {:induction false} RunKeepsInv(s: State, schedule: seq<Label>)
    requires Inv(s)
    ensures Inv(Run(s, schedule))
    ensures Run(s, schedule).cfg == s.cfg && |Run(s, schedule).threads| == |s.threads|
  {
    if schedule != [] {
      RunKeepsInv(s, schedule[..|schedule| - 1]);
      StepKeepsInv(Run(s, schedule[..|schedule| - 1]), schedule[|schedule| - 1]);
    }
  }

  // ----- theorems about every interleaving -----

  /**
   The token counter counts exactly the outstanding tokens, never underflows, and exceeds the
   watermark by at most the threads inside the reject window; admitted messages never exceed it.
   */
  lemma WatermarkHolds(start: State, schedule: seq<Label>)
    requires Starts(start)
    ensures var s := Run(start, schedule);
            && s.shared.inFlight == Total(s.threads, Token) + IngressItems(s.shared.queue)
            && Total(s.threads, Admitted) + IngressItems(s.shared.queue) <= start.cfg.high
            && 0 <= s.shared.inFlight <= start.cfg.high + Total(s.threads, Rejecting)
            && Total(s.threads, Rejecting) <= |start.threads|
  {
    hide Run;
    StartInv(start);
    RunKeepsInv(start, schedule);
    var s := Run(start, schedule);
    TokenSplits(s.threads);
    TotalIsNonnegative(s.threads, Token);
    TotalBounds(s.threads, Rejecting, 0, 1);
  }

  /** With telemetry on, mid-run the counters differ by exactly the threads in flight. */
  lemma AccountingHolds(start: State, schedule: seq<Label>)
    requires Starts(start) && start.cfg.telemetry
    ensures var s := Run(start, schedule);
            var sh := s.shared;
            && sh.received + sh.egressDrops == sh.enqueued + sh.dropped + Total(s.threads, Undecided)
            && sh.dropped == sh.dropQueueFull + sh.dropBackpressure + sh.dropInvalidHeader + sh.dropSecurityPolicy
                             + sh.invalidParamDrops + Total(s.threads, Unexplained)
            && sh.enqueued - sh.dequeued == IngressItems(sh.queue) + Total(s.threads, Uncounted)
  {
    hide Run;
    StartInv(start);
    RunKeepsInv(start, schedule);
  }

  /** At quiescence the books close. */
  lemma BooksClose(start: State, schedule: seq<Label>)
    requires Starts(start) && start.cfg.telemetry && Quiescent(Run(start, schedule))
    ensures var sh := Run(start, schedule).shared;
            && sh.received + sh.egressDrops == sh.enqueued + sh.dropped
            && sh.enqueued - sh.dequeued == sh.inFlight == IngressItems(sh.queue)
            && sh.dropped == sh.dropQueueFull + sh.dropBackpressure + sh.dropInvalidHeader + sh.dropSecurityPolicy
                             + sh.invalidParamDrops
  {
    hide Run;
    StartInv(start);
    RunKeepsInv(start, schedule);
    var s := Run(start, schedule);
    IdleTotals(s.threads);
  }
}
