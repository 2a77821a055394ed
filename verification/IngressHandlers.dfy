/**
 Handlers of the routing engine run one at a time: each is the machine of Ingress.dfy with a
 single thread driven from start to finish.  The backpressure band and the watermark set-up
 are stated here.
 */
module IngressHandlers {
  import opened Wrappers
  import opened Message
  import opened Ingress

  const DEFAULT_QUEUE_SIZE: nat := 1024

  // ----- watermarks -----

  function QueueCapacity(maxQueueSize: nat): nat {
    if maxQueueSize > 0 then maxQueueSize else DEFAULT_QUEUE_SIZE
  }

  /** The configuration an engine derives from its settings, zero meaning unset. */
  function Configure(highSetting: nat, lowSetting: nat, maxQueueSize: nat, telemetry: bool): Config {
    var high := if highSetting > 0 then highSetting else QueueCapacity(maxQueueSize);
    var low0 := if lowSetting > 0 then lowSetting else high / 2;
    var low := if low0 == 0 || low0 >= high then (if high / 2 == 0 then 1 else high / 2) else low0;
    Config(high, low, QueueCapacity(maxQueueSize), telemetry)
  }

  /** Every configuration leaves a band between the watermarks, except a high watermark of one. */
  lemma WatermarksAreOrdered(highSetting: nat, lowSetting: nat, maxQueueSize: nat, telemetry: bool)
    ensures var cfg := Configure(highSetting, lowSetting, maxQueueSize, telemetry);
            && 1 <= cfg.low <= cfg.high
            && (cfg.low < cfg.high <==> cfg.high != 1)
            && cfg.capacity >= 1
            && (0 < lowSetting < highSetting ==> cfg.low == lowSetting && cfg.high == highSetting)
  {
  }

  // ----- driving one thread -----

  function Rank(pc: Pc): nat {
    match pc
    case Idle => 0
    case CountingReceived(_) => 20
    case Checking(_) => 19
    case TakingToken(_) => 18
    case Allocating(_) => 17
    case Copying(_, _) => 16
    case Enqueuing(_) => 15
    case CountingEnqueued => 1
    case ReturningToken(_, _) => 14
    case CountingDrop(_, _) => 13
    case CountingReason(_, _) => 12
    case RaisingFlag => 1
    case Destroying(_) => 10
    case Tracing(_, _) => 9
    case Routing(k) => 14 + (if k < ROUTE_ATTEMPTS then ROUTE_ATTEMPTS - k else 0)
    case Dispatched(_, _) => 11
    case Releasing(_) => 10
    case FinishingToken => 8
    case FinishingCount(_) => 7
    case LoadingFlag(_) => 6
    case ClearingFlag => 5
    case DiscardingCount => 8
    case DiscardingToken => 7
  }

  lemma ActLowersRank(cfg: Config, sh: Shared, pc: Pc, ch: Choice)
    requires pc != Idle
    ensures Rank(Act(cfg, sh, pc, ch).0) < Rank(pc)
  {
  }

  /** Runs one thread, undisturbed, until it is idle. */
  function Drive(cfg: Config, sh: Shared, pc: Pc, ch: Choice): Shared
    decreases Rank(pc)
  {
    if pc == Idle then sh
    else
      ActLowersRank(cfg, sh, pc, ch);
      var (pc', sh') := Act(cfg, sh, pc, ch);
      Drive(cfg, sh', pc', ch)
  }

  lemma DriveOn(cfg: Config, sh: Shared, pc: Pc, ch: Choice)
    ensures pc == Idle ==> Drive(cfg, sh, pc, ch) == sh
    ensures pc != Idle ==> var (pc', sh') := Act(cfg, sh, pc, ch);
                           Drive(cfg, sh, pc, ch) == Drive(cfg, sh', pc', ch)
  {
    hide Act;
  }

  /** A whole handler. */
  function Handle(cfg: Config, sh: Shared, ch: Choice): Shared {
    var (pc, sh') := Begin(sh, ch);
    Drive(cfg, sh', pc, ch)
  }

  function HandleAll(cfg: Config, jobs: seq<Choice>): Shared {
    if jobs == [] then EMPTY else Handle(cfg, HandleAll(cfg, jobs[..|jobs| - 1]), jobs[|jobs| - 1])
  }

  /** Repeating one thread's label drives it: an undisturbed handler is one of the machine's interleavings. */
  lemma {:induction false} DriveIsASchedule(s: State, t: nat, ch: Choice) returns (schedule: seq<Label>)
    requires t < |s.threads|
    ensures Run(s, schedule) == s.(threads := s.threads[t := Idle], shared := Drive(s.cfg, s.shared, s.threads[t], ch))
    decreases Rank(s.threads[t])
  {
    if s.threads[t] == Idle {
      assert s.threads[t := Idle] == s.threads;
      schedule := [];
    } else {
      var l := Label(t, ch);
      var s' := Step(s, l);
      ActLowersRank(s.cfg, s.shared, s.threads[t], ch);
      var rest := DriveIsASchedule(s', t, ch);
      assert s'.threads[t := Idle] == s.threads[t := Idle];
      schedule := [l] + rest;
      RunPrepend(s, l, rest);
    }
  }

  /** So is a whole handler of a lone thread. */
  lemma HandleIsASchedule(s: State, ch: Choice) returns (schedule: seq<Label>)
    requires s.threads == [Idle]
    ensures Run(s, schedule) == s.(shared := Handle(s.cfg, s.shared, ch))
  {
    hide Drive;
    hide Begin;
    var l := Label(0, ch);
    var s1 := Step(s, l);
    assert s1 == State(s.cfg, [Begin(s.shared, ch).0], Begin(s.shared, ch).1);
    var rest := DriveIsASchedule(s1, 0, ch);
    RunPrepend(s, l, rest);
    schedule := [l] + rest;
    assert s1.threads[0 := Idle] == [Idle];
  }

  lemma {:induction false} RunPrepend(s: State, l: Label, rest: seq<Label>)
    ensures Run(s, [l] + rest) == Run(Step(s, l), rest)
  {
    if rest == [] {
      assert [l] + rest == [l] && [l][..0] == [];
    } else {
      var all := [l] + rest;
      assert all[..|all| - 1] == [l] + rest[..|rest| - 1];
      RunPrepend(s, l, rest[..|rest| - 1]);
    }
  }

  // ----- what a handler does to the gate -----

  /** The state decides through: the token counter, the flag and the queue. */
  predicate SameGate(a: Shared, b: Shared) {
    a.inFlight == b.inFlight && a.active == b.active && a.queue == b.queue
  }

  /** Recording a drop: the aggregate counter, then the counter of the reason. */
  function RecordedDrop(cfg: Config, sh: Shared, why: Reason): Shared {
    CountReason(cfg, sh.(dropped := Bump(cfg, sh.dropped),
                         egressDrops := if why == EgressFull then Bump(cfg, sh.egressDrops) else sh.egressDrops), why)
  }

  /** Recording a drop and what follows it: raising the flag, or destroying the copy in hand. */
  function Dropped(cfg: Config, sh: Shared, why: Reason, held: Option<Pointer>): Shared {
    var counted := RecordedDrop(cfg, sh, why);
    if why == Backpressure then counted.(active := true)
    else if held.Some? then counted.(heap := Destroy(counted.heap, held.value))
    else counted
  }

  lemma DropTail(cfg: Config, sh: Shared, why: Reason, held: Option<Pointer>, ch: Choice)
    ensures Drive(cfg, sh, CountingDrop(why, held), ch) == Dropped(cfg, sh, why, held)
    ensures SameGate(Dropped(cfg, sh, why, held), sh.(active := sh.active || why == Backpressure))
  {
    hide Drive;
    hide Free;
    hide ReadBack;
    var (p1, s1) := Act(cfg, sh, CountingDrop(why, held), ch);
    var (p2, s2) := Act(cfg, s1, p1, ch);
    DriveOn(cfg, sh, CountingDrop(why, held), ch);
    DriveOn(cfg, s1, p1, ch);
    DriveOn(cfg, s2, p2, ch);
    if p2 != Idle {
      var (p3, s3) := Act(cfg, s2, p2, ch);
      DriveOn(cfg, s3, p3, ch);
      if p3.Tracing? {
        DestroyStep(cfg, s3, p3.copy, AfterDrop, ch);
      }
    }
  }

  lemma ReturnTail(cfg: Config, sh: Shared, why: Reason, held: Option<Pointer>, ch: Choice)
    ensures Drive(cfg, sh, ReturningToken(why, held), ch) == Dropped(cfg, sh.(inFlight := sh.inFlight - 1), why, held)
    ensures SameGate(Drive(cfg, sh, ReturningToken(why, held), ch),
                     sh.(inFlight := sh.inFlight - 1, active := sh.active || why == Backpressure))
  {
    hide Drive;
    DriveOn(cfg, sh, ReturningToken(why, held), ch);
    DropTail(cfg, sh.(inFlight := sh.inFlight - 1), why, held, ch);
  }

  lemma EnqueueTail(cfg: Config, sh: Shared, c: Pointer, ch: Choice)
    ensures SameGate(Drive(cfg, sh, Enqueuing(c), ch),
                     if |sh.queue| < cfg.capacity && ch.nodeAllocated
                     then sh.(queue := sh.queue + [IngressItem(c)])
                     else sh.(inFlight := sh.inFlight - 1))
  {
    hide Drive;
    EnqueueStep(cfg, sh, c, ch);
    DropTail(cfg, sh.(inFlight := sh.inFlight - 1), QueueFull, Some(c), ch);
  }

  lemma CopyTail(cfg: Config, sh: Shared, m: Content, ch: Choice)
    ensures var sh' := Drive(cfg, sh, Allocating(m), ch);
            || SameGate(sh', sh.(inFlight := sh.inFlight - 1))
            || exists c :: SameGate(sh', sh.(queue := sh.queue + [IngressItem(c)]))
  {
    hide Drive;
    hide Dropped;
    AllocateStep(cfg, sh, m, ch);
    DropTail(cfg, sh.(inFlight := sh.inFlight - 1), InvalidParam, None, ch);
    if Allocates(sh, ch) {
      FillTail(cfg, sh.(heap := Allocate(sh.heap, ch.address, m)), m, Pointer(ch.address, sh.heap.nextCopy), ch);
    }
  }

  lemma FillTail(cfg: Config, sh: Shared, m: Content, c: Pointer, ch: Choice)
    ensures var sh' := Drive(cfg, sh, Copying(m, c), ch);
            SameGate(sh', sh.(inFlight := sh.inFlight - 1)) || SameGate(sh', sh.(queue := sh.queue + [IngressItem(c)]))
  {
    hide Drive;
    hide Dropped;
    hide Write;
    hide Copied;
    var (copied, stored) := Copied(m, ch.payloadAllocated);
    var sh1 := sh.(heap := Write(sh.heap, c, stored));
    CopyStep(cfg, sh, m, c, ch);
    DropTail(cfg, sh1.(inFlight := sh1.inFlight - 1), InvalidParam, Some(c), ch);
    EnqueueTail(cfg, sh1, c, ch);
  }

  /** A reception is dropped without a trace on the gate, or rejected raising the flag, or queued with its token. */
  lemma ReceiveOutcome(cfg: Config, sh: Shared, m: Content, ch: Choice)
    requires ch.job == Receive(m) && ch.running && Sound(m)
    ensures var sh' := Handle(cfg, sh, ch);
            if ch.verdict != Accept then SameGate(sh', sh)
            else if sh.inFlight + 1 > cfg.high then SameGate(sh', sh.(active := true))
            else SameGate(sh', sh)
                 || exists c :: SameGate(sh', sh.(inFlight := sh.inFlight + 1, queue := sh.queue + [IngressItem(c)]))
  {
    hide Drive;
    hide Dropped;
    hide Handle;
    var sh1 := sh.(received := Bump(cfg, sh.received));
    ReceiveStep(cfg, sh, m, ch);
    CheckStep(cfg, sh1, m, ch);
    if ch.verdict == Accept {
      TokenOutcome(cfg, sh1, m, ch);
    } else {
      DropTail(cfg, sh1, InvalidHeader, None, ch);
      DropTail(cfg, sh1, SecurityPolicy, None, ch);
    }
  }

  lemma TokenOutcome(cfg: Config, sh: Shared, m: Content, ch: Choice)
    ensures var sh' := Drive(cfg, sh, TakingToken(m), ch);
            if sh.inFlight + 1 > cfg.high then SameGate(sh', sh.(active := true))
            else SameGate(sh', sh)
                 || exists c :: SameGate(sh', sh.(inFlight := sh.inFlight + 1, queue := sh.queue + [IngressItem(c)]))
  {
    hide Drive;
    hide Dropped;
    TokenStep(cfg, sh, m, ch);
    if sh.inFlight + 1 > cfg.high {
      DropTail(cfg, sh, Backpressure, None, ch);
    } else {
      CopyTail(cfg, sh.(inFlight := sh.inFlight + 1), m, ch);
    }
  }

  /** A dispatch returns one token; it looks at the flag only when the rule has an observer list. */
  lemma DispatchOutcome(cfg: Config, sh: Shared, c: Pointer, observersPresent: bool, ch: Choice)
    ensures var remain := sh.inFlight - 1;
            SameGate(Drive(cfg, sh, Dispatched(c, observersPresent), ch),
                     sh.(inFlight := remain, active := sh.active && !(observersPresent && remain <= cfg.low)))
  {
    hide Drive;
    hide Free;
    hide ReadBack;
    hide Read;
    if observersPresent {
      var (p1, s1) := Act(cfg, sh, Dispatched(c, true), ch);
      DriveOn(cfg, sh, Dispatched(c, true), ch);
      DriveOn(cfg, s1, Releasing(c), ch);
      DestroyStep(cfg, s1.(heap := Free(s1.heap, c)), c, AfterDelivery, ch);
      FinishTail(cfg, s1.(heap := Destroy(s1.heap, c)), ch);
    } else {
      DiscardStep(cfg, sh, c, ch);
    }
  }

  lemma DestroyStep(cfg: Config, sh: Shared, c: Pointer, after: Aftermath, ch: Choice)
    ensures Drive(cfg, sh, Tracing(c, after), ch) ==
            var sh' := sh.(heap := ReadBack(sh.heap, c));
            match after
            case AfterDrop => sh'
            case AfterDelivery => Drive(cfg, sh', FinishingToken, ch)
            case AfterDiscard => Drive(cfg, sh', DiscardingCount, ch)
  {
    hide Drive;
    hide ReadBack;
    DriveOn(cfg, sh, Tracing(c, after), ch);
    DriveOn(cfg, sh.(heap := ReadBack(sh.heap, c)), Idle, ch);
  }

  lemma FlagTail(cfg: Config, sh: Shared, remain: int, ch: Choice)
    ensures Drive(cfg, sh, LoadingFlag(remain), ch) == sh.(active := sh.active && !(remain <= cfg.low))
  {
    hide Drive;
    var (p1, s1) := Act(cfg, sh, LoadingFlag(remain), ch);
    DriveOn(cfg, sh, LoadingFlag(remain), ch);
    DriveOn(cfg, s1, p1, ch);
    if p1 != Idle {
      DriveOn(cfg, s1.(active := false), Idle, ch);
    }
  }

  lemma FinishTail(cfg: Config, sh: Shared, ch: Choice)
    ensures Drive(cfg, sh, FinishingToken, ch) ==
            sh.(inFlight := sh.inFlight - 1, dequeued := Bump(cfg, sh.dequeued),
                active := sh.active && !(sh.inFlight - 1 <= cfg.low))
  {
    hide Drive;
    var (p1, s1) := Act(cfg, sh, FinishingToken, ch);
    var (p2, s2) := Act(cfg, s1, p1, ch);
    DriveOn(cfg, sh, FinishingToken, ch);
    DriveOn(cfg, s1, p1, ch);
    FlagTail(cfg, s2, sh.inFlight - 1, ch);
  }

  lemma DiscardTail(cfg: Config, sh: Shared, ch: Choice)
    ensures Drive(cfg, sh, DiscardingCount, ch) == sh.(dequeued := Bump(cfg, sh.dequeued), inFlight := sh.inFlight - 1)
  {
    hide Drive;
    var (p1, s1) := Act(cfg, sh, DiscardingCount, ch);
    var (p2, s2) := Act(cfg, s1, p1, ch);
    DriveOn(cfg, sh, DiscardingCount, ch);
    DriveOn(cfg, s1, p1, ch);
    DriveOn(cfg, s2, p2, ch);
  }

  lemma {:induction false} RouteOutcome(cfg: Config, sh: Shared, k: nat, ch: Choice)
    requires k < ROUTE_ATTEMPTS
    ensures var sh' := Drive(cfg, sh, Routing(k), ch);
            SameGate(sh', sh) || SameGate(sh', sh.(queue := sh.queue + [EgressItem]))
    decreases ROUTE_ATTEMPTS - k
  {
    hide Drive;
    hide Dropped;
    RouteStep(cfg, sh, k, ch);
    DropTail(cfg, sh, EgressFull, None, ch);
    if k + 1 < ROUTE_ATTEMPTS {
      RouteOutcome(cfg, sh, k + 1, ch);
    }
  }

  // ----- single steps, as equations -----

  lemma EnqueueStep(cfg: Config, sh: Shared, c: Pointer, ch: Choice)
    ensures Drive(cfg, sh, Enqueuing(c), ch) ==
            if |sh.queue| < cfg.capacity && ch.nodeAllocated
            then sh.(queue := sh.queue + [IngressItem(c)], enqueued := Bump(cfg, sh.enqueued))
            else Dropped(cfg, sh.(inFlight := sh.inFlight - 1), QueueFull, Some(c))
  {
    hide Drive;
    hide Dropped;
    DriveOn(cfg, sh, Enqueuing(c), ch);
    var (p1, s1) := Act(cfg, sh, Enqueuing(c), ch);
    var (p2, s2) := if p1 == Idle then (p1, s1) else Act(cfg, s1, p1, ch);
    DriveOn(cfg, s1, p1, ch);
    DriveOn(cfg, s2, p2, ch);
    ReturnTail(cfg, sh, QueueFull, Some(c), ch);
  }

  lemma CopyStep(cfg: Config, sh: Shared, m: Content, c: Pointer, ch: Choice)
    ensures var (copied, stored) := Copied(m, ch.payloadAllocated);
            var sh1 := sh.(heap := Write(sh.heap, c, stored));
            Drive(cfg, sh, Copying(m, c), ch) ==
            if copied then Drive(cfg, sh1, Enqueuing(c), ch)
            else Dropped(cfg, sh1.(inFlight := sh.inFlight - 1), InvalidParam, Some(c))
  {
    hide Drive;
    hide Dropped;
    hide Write;
    hide Copied;
    DriveOn(cfg, sh, Copying(m, c), ch);
    ReturnTail(cfg, sh.(heap := Write(sh.heap, c, Copied(m, ch.payloadAllocated).1)), InvalidParam, Some(c), ch);
  }

  /** The block allocation succeeds. */
  predicate Allocates(sh: Shared, ch: Choice) {
    ch.blockAllocated && ch.address !in sh.heap.memory
  }

  lemma AllocateStep(cfg: Config, sh: Shared, m: Content, ch: Choice)
    ensures Drive(cfg, sh, Allocating(m), ch) ==
            if Allocates(sh, ch)
            then Drive(cfg, sh.(heap := Allocate(sh.heap, ch.address, m)), Copying(m, Pointer(ch.address, sh.heap.nextCopy)), ch)
            else Dropped(cfg, sh.(inFlight := sh.inFlight - 1), InvalidParam, None)
  {
    hide Drive;
    hide Dropped;
    hide Allocate;
    DriveOn(cfg, sh, Allocating(m), ch);
    ReturnTail(cfg, sh, InvalidParam, None, ch);
  }

  lemma TokenStep(cfg: Config, sh: Shared, m: Content, ch: Choice)
    ensures var sh1 := sh.(inFlight := sh.inFlight + 1);
            Drive(cfg, sh, TakingToken(m), ch) ==
            if sh1.inFlight > cfg.high then Dropped(cfg, sh, Backpressure, None) else Drive(cfg, sh1, Allocating(m), ch)
  {
    hide Drive;
    hide Dropped;
    var sh1 := sh.(inFlight := sh.inFlight + 1);
    DriveOn(cfg, sh, TakingToken(m), ch);
    ReturnTail(cfg, sh1, Backpressure, None, ch);
    assert sh1.(inFlight := sh1.inFlight - 1) == sh;
  }

  lemma CheckStep(cfg: Config, sh: Shared, m: Content, ch: Choice)
    ensures Drive(cfg, sh, Checking(m), ch) ==
            match ch.verdict
            case Accept => Drive(cfg, sh, TakingToken(m), ch)
            case BadHeader => Dropped(cfg, sh, InvalidHeader, None)
            case Refused => Dropped(cfg, sh, SecurityPolicy, None)
  {
    hide Drive;
    hide Dropped;
    DriveOn(cfg, sh, Checking(m), ch);
    DropTail(cfg, sh, InvalidHeader, None, ch);
    DropTail(cfg, sh, SecurityPolicy, None, ch);
  }

  lemma ReceiveStep(cfg: Config, sh: Shared, m: Content, ch: Choice)
    requires ch.job == Receive(m) && Sound(m)
    ensures Handle(cfg, sh, ch) ==
            if ch.running then Drive(cfg, sh.(received := Bump(cfg, sh.received)), Checking(m), ch) else sh
  {
  }

  lemma DeliverStep(cfg: Config, sh: Shared, c: Pointer, ch: Choice)
    ensures Drive(cfg, sh, Dispatched(c, true), ch) ==
            Drive(cfg, sh.(delivered := sh.delivered + [Delivery(c, Read(sh.heap, c))], heap := Destroy(sh.heap, c)),
                  FinishingToken, ch)
  {
    hide Drive;
    hide Free;
    hide Read;
    hide ReadBack;
    var (p1, s1) := Act(cfg, sh, Dispatched(c, true), ch);
    DriveOn(cfg, sh, Dispatched(c, true), ch);
    DriveOn(cfg, s1, p1, ch);
    DestroyStep(cfg, s1.(heap := Free(s1.heap, c)), c, AfterDelivery, ch);
  }

  lemma DiscardStep(cfg: Config, sh: Shared, c: Pointer, ch: Choice)
    ensures Drive(cfg, sh, Dispatched(c, false), ch) ==
            sh.(heap := Destroy(sh.heap, c), dequeued := Bump(cfg, sh.dequeued), inFlight := sh.inFlight - 1)
  {
    hide Drive;
    hide Free;
    hide ReadBack;
    DriveOn(cfg, sh, Dispatched(c, false), ch);
    DestroyStep(cfg, sh.(heap := Free(sh.heap, c)), c, AfterDiscard, ch);
    DiscardTail(cfg, sh.(heap := Destroy(sh.heap, c)), ch);
  }

  lemma RouteBegin(cfg: Config, sh: Shared, ch: Choice)
    requires ch.job == Route
    ensures Handle(cfg, sh, ch) == if ch.running && ch.contextAllocated then Drive(cfg, sh, Routing(0), ch) else sh
  {
  }

  lemma RouteStep(cfg: Config, sh: Shared, k: nat, ch: Choice)
    requires k < ROUTE_ATTEMPTS
    ensures Drive(cfg, sh, Routing(k), ch) ==
            if |sh.queue| < cfg.capacity && ch.nodeAllocated then sh.(queue := sh.queue + [EgressItem])
            else if k + 1 < ROUTE_ATTEMPTS then Drive(cfg, sh, Routing(k + 1), ch)
            else Dropped(cfg, sh, EgressFull, None)
  {
    hide Drive;
    hide Dropped;
    var (p1, s1) := Act(cfg, sh, Routing(k), ch);
    DriveOn(cfg, sh, Routing(k), ch);
    DriveOn(cfg, s1, p1, ch);
    DropTail(cfg, sh, EgressFull, None, ch);
  }

  // ----- the backpressure band -----

  /** While the flag is up the token counter lies strictly above the low watermark. */
  predicate InBand(cfg: Config, sh: Shared) {
    sh.active ==> cfg.low < sh.inFlight
  }

  predicate AtRest(cfg: Config, sh: Shared) {
    sh.inFlight == IngressItems(sh.queue) <= cfg.high
  }

  lemma HandleKeepsRest(cfg: Config, sh: Shared, ch: Choice)
    requires AtRest(cfg, sh)
    ensures AtRest(cfg, Handle(cfg, sh, ch))
  {
    match ch.job
    case Receive(m) =>
      if ch.running && Sound(m) {
        ReceiveOutcome(cfg, sh, m, ch);
        var sh' := Handle(cfg, sh, ch);
        if !SameGate(sh', sh) && ch.verdict == Accept && sh.inFlight + 1 <= cfg.high {
          var c :| SameGate(sh', sh.(inFlight := sh.inFlight + 1, queue := sh.queue + [IngressItem(c)]));
          IngressItemsAppend(sh.queue, IngressItem(c));
        }
      }
    case Route =>
      if ch.running && ch.contextAllocated {
        RouteOutcome(cfg, sh, 0, ch);
        IngressItemsAppend(sh.queue, EgressItem);
      }
    case Dispatch =>
      if sh.queue != [] {
        var (pc, sh1) := Begin(sh, ch);
        if pc.Dispatched? {
          DispatchOutcome(cfg, sh1, pc.copy, pc.observersPresent, ch);
        }
      }
  }

  /** The flag goes up only at the high watermark and comes down only at the low one. */
  lemma FlagEdges(cfg: Config, sh: Shared, ch: Choice)
    requires AtRest(cfg, sh) && InBand(cfg, sh)
    ensures var sh' := Handle(cfg, sh, ch);
            && (!sh.active && sh'.active ==> sh'.inFlight == cfg.high)
            && (sh.active && !sh'.active ==> sh'.inFlight == cfg.low)
  {
    match ch.job
    case Receive(m) =>
      if ch.running && Sound(m) {
        ReceiveOutcome(cfg, sh, m, ch);
      }
    case Route =>
      if ch.running && ch.contextAllocated {
        RouteOutcome(cfg, sh, 0, ch);
      }
    case Dispatch =>
      if sh.queue != [] {
        var (pc, sh1) := Begin(sh, ch);
        if pc.Dispatched? {
          DispatchOutcome(cfg, sh1, pc.copy, pc.observersPresent, ch);
        }
      }
  }

  /** The handler rejects a message at the high watermark. */
  predicate Rejects(cfg: Config, sh: Shared, ch: Choice) {
    ch.job.Receive? && ch.running && Sound(ch.job.message) && ch.verdict == Accept && sh.inFlight >= cfg.high
  }

  /** The handler discards a queued message of a rule without observer list. */
  predicate Discards(sh: Shared, ch: Choice) {
    ch.job.Dispatch? && sh.queue != [] && sh.queue[0].IngressItem? && !ch.observersPresent
  }

  /**
   The band survives a handler exactly unless it rejects with the watermarks equal, or
   discards the message that crosses the low watermark while the flag is up.
   */
  lemma BandAfterIff(cfg: Config, sh: Shared, ch: Choice)
    requires AtRest(cfg, sh) && InBand(cfg, sh) && cfg.low <= cfg.high
    ensures InBand(cfg, Handle(cfg, sh, ch)) <==>
            !(Rejects(cfg, sh, ch) && cfg.low == cfg.high) && !(Discards(sh, ch) && sh.active && sh.inFlight == cfg.low + 1)
  {
    match ch.job
    case Receive(m) =>
      if ch.running && Sound(m) {
        ReceiveOutcome(cfg, sh, m, ch);
      }
    case Route =>
      if ch.running && ch.contextAllocated {
        RouteOutcome(cfg, sh, 0, ch);
      }
    case Dispatch =>
      if sh.queue != [] {
        var (pc, sh1) := Begin(sh, ch);
        if pc.Dispatched? {
          DispatchOutcome(cfg, sh1, pc.copy, pc.observersPresent, ch);
        }
      }
  }

  /** Nothing stands in the way of the message. */
  predicate Unhindered(cfg: Config, sh: Shared, ch: Choice) {
    && ch.job.Receive? && ch.running && Sound(ch.job.message) && ch.verdict == Accept
    && sh.inFlight + 1 <= cfg.high
    && Allocates(sh, ch) && Copied(ch.job.message, ch.payloadAllocated).0
    && |sh.queue| < cfg.capacity && ch.nodeAllocated
  }

  /** An unhindered message is queued and takes one token and one block. */
  lemma UnhinderedIsQueued(cfg: Config, sh: Shared, ch: Choice)
    requires Unhindered(cfg, sh, ch)
    ensures var sh' := Handle(cfg, sh, ch);
            && SameGate(sh', sh.(inFlight := sh.inFlight + 1,
                                 queue := sh.queue + [IngressItem(Pointer(ch.address, sh.heap.nextCopy))]))
            && sh'.heap.memory.Keys == sh.heap.memory.Keys + {ch.address}
  {
    hide Drive;
    hide Dropped;
    hide Handle;
    var m, c := ch.job.message, Pointer(ch.address, sh.heap.nextCopy);
    var sh1 := sh.(received := Bump(cfg, sh.received));
    var sh2 := sh1.(inFlight := sh1.inFlight + 1);
    var sh3 := sh2.(heap := Allocate(sh2.heap, ch.address, m));
    var sh4 := sh3.(heap := Write(sh3.heap, c, Copied(m, ch.payloadAllocated).1));
    hide Copied;
    ReceiveStep(cfg, sh, m, ch);
    CheckStep(cfg, sh1, m, ch);
    TokenStep(cfg, sh1, m, ch);
    AllocateStep(cfg, sh2, m, ch);
    CopyStep(cfg, sh3, m, c, ch);
    EnqueueStep(cfg, sh4, c, ch);
  }

  /** A sound message that passes every check and finds memory, at the given address. */
  function Arrival(address: Address): Choice {
    Choice(Receive(ZERO_CONTENT), true, Accept, true, address, true, true, true, true)
  }

  /** A dispatch to a rule without observer list. */
  function Discarding(): Choice {
    Arrival(0).(job := Dispatch, observersPresent := false)
  }

  lemma HandleAllAppend(cfg: Config, jobs: seq<Choice>, ch: Choice)
    ensures HandleAll(cfg, jobs + [ch]) == Handle(cfg, HandleAll(cfg, jobs), ch)
  {
    assert (jobs + [ch])[..|jobs|] == jobs;
  }

  lemma ArrivalsQueue(cfg: Config, jobs: seq<Choice>, address: Address)
    requires var sh := HandleAll(cfg, jobs);
             sh.inFlight == |sh.queue| < cfg.high && |sh.queue| < cfg.capacity && address !in sh.heap.memory && !sh.active
    ensures var sh, sh' := HandleAll(cfg, jobs), HandleAll(cfg, jobs + [Arrival(address)]);
            && sh'.inFlight == |sh'.queue| == |sh.queue| + 1 && !sh'.active
            && (sh.queue != [] ==> sh'.queue[0] == sh.queue[0]) && (sh.queue == [] ==> sh'.queue[0].IngressItem?)
            && sh'.heap.memory.Keys == sh.heap.memory.Keys + {address}
  {
    hide Handle;
    hide HandleAll;
    HandleAllAppend(cfg, jobs, Arrival(address));
    UnhinderedIsQueued(cfg, HandleAll(cfg, jobs), Arrival(address));
  }

  lemma EmptyStart(cfg: Config)
    ensures var sh := HandleAll(cfg, []);
            sh.inFlight == 0 && sh.queue == [] && !sh.active && sh.heap.memory.Keys == {}
  {
  }

  /** With a high watermark of one the second message already raises the flag at the low watermark. */
  lemma SingleWatermarkLeavesBand(lowSetting: nat, maxQueueSize: nat, telemetry: bool)
    ensures var cfg := Configure(1, lowSetting, maxQueueSize, telemetry);
            var sh := HandleAll(cfg, [Arrival(1)] + [Arrival(2)]);
            sh.active && sh.inFlight == cfg.low && !InBand(cfg, sh)
  {
    hide Handle;
    hide HandleAll;
    var cfg := Configure(1, lowSetting, maxQueueSize, telemetry);
    EmptyStart(cfg);
    ArrivalsQueue(cfg, [], 1);
    assert [] + [Arrival(1)] == [Arrival(1)];
    HandleAllAppend(cfg, [Arrival(1)], Arrival(2));
    ReceiveOutcome(cfg, HandleAll(cfg, [Arrival(1)]), ZERO_CONTENT, Arrival(2));
  }

  /** Full, rejecting once, then discarding: the flag stays up at the low watermark. */
  lemma DiscardLeavesBand(telemetry: bool)
    ensures var cfg := Configure(2, 1, 0, telemetry);
            var sh := HandleAll(cfg, [Arrival(1)] + [Arrival(2)] + [Arrival(3)] + [Discarding()]);
            cfg.low < cfg.high && sh.active && sh.inFlight == cfg.low && !InBand(cfg, sh)
  {
    hide Handle;
    hide HandleAll;
    var cfg := Configure(2, 1, 0, telemetry);
    EmptyStart(cfg);
    ArrivalsQueue(cfg, [], 1);
    assert [] + [Arrival(1)] == [Arrival(1)];
    var two := [Arrival(1)] + [Arrival(2)];
    ArrivalsQueue(cfg, [Arrival(1)], 2);
    HandleAllAppend(cfg, two, Arrival(3));
    ReceiveOutcome(cfg, HandleAll(cfg, two), ZERO_CONTENT, Arrival(3));
    var full := HandleAll(cfg, two + [Arrival(3)]);
    HandleAllAppend(cfg, two + [Arrival(3)], Discarding());
    DiscardReturns(cfg, full);
  }

  lemma DiscardReturns(cfg: Config, sh: Shared)
    requires sh.queue != [] && sh.queue[0].IngressItem?
    ensures var sh' := Handle(cfg, sh, Discarding());
            sh'.inFlight == sh.inFlight - 1 && sh'.active == sh.active
  {
    hide Drive;
    DispatchOutcome(cfg, sh.(queue := sh.queue[1..]), sh.queue[0].copy, false, Discarding());
  }

  /** Backpressure hysteresis: with a real band and observer lists present, the flag implies low < in flight <= high. */
  lemma {:induction false} HysteresisHolds(cfg: Config, jobs: seq<Choice>)
    requires cfg.low < cfg.high
    requires forall k :: 0 <= k < |jobs| && jobs[k].job.Dispatch? ==> jobs[k].observersPresent
    ensures var sh := HandleAll(cfg, jobs);
            && AtRest(cfg, sh)
            && (sh.active ==> cfg.low < sh.inFlight <= cfg.high)
  {
    if jobs == [] {
      assert EMPTY.queue == [];
    } else {
      var before, ch := jobs[..|jobs| - 1], jobs[|jobs| - 1];
      HysteresisHolds(cfg, before);
      HandleKeepsRest(cfg, HandleAll(cfg, before), ch);
      BandAfterIff(cfg, HandleAll(cfg, before), ch);
    }
  }
}
