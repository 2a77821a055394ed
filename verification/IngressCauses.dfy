/**
 Why messages are dropped.  A cause is settled where the check, the watermark, an allocation
 or the queue decides against a message; here it is recorded there, apart from what the
 thread later counts, and the drop counters are shown to add up to the causes in every
 interleaving of the machine in Ingress.dfy.
 */
module IngressCauses {
  import opened Wrappers
  import opened Totals
  import opened Message
  import opened Ingress

  datatype Cause =
    | HeaderInvalid
    | PolicyRefused
    | AboveHighWatermark
    | NoBlock
    | NoPayload
    | NoQueueSlot
    | RouteGaveUp

  /** The decision an operation makes against its message, if it makes one. */
  function Decision(cfg: Config, sh: Shared, pc: Pc, ch: Choice): Option<Cause> {
    var room := |sh.queue| < cfg.capacity && ch.nodeAllocated;
    match pc
    case Checking(_) =>
      if ch.verdict == BadHeader then Some(HeaderInvalid)
      else if ch.verdict == Refused then Some(PolicyRefused)
      else None
    case TakingToken(_) => if sh.inFlight >= cfg.high then Some(AboveHighWatermark) else None
    case Allocating(_) => if ch.blockAllocated && ch.address !in sh.heap.memory then None else Some(NoBlock)
    case Copying(m, _) => if Copied(m, ch.payloadAllocated).0 then None else Some(NoPayload)
    case Enqueuing(_) => if room then None else Some(NoQueueSlot)
    case Routing(k) => if room || k < 15 then None else Some(RouteGaveUp)
    case _ => None
  }

  /** The causes settled in a run, in order. */
  function Causes(s: State, schedule: seq<Label>): seq<Cause> {
    if schedule == [] then []
    else
      var before, l := Run(s, schedule[..|schedule| - 1]), schedule[|schedule| - 1];
      Causes(s, schedule[..|schedule| - 1]) + Settled(before, l)
  }

  function Settled(s: State, l: Label): seq<Cause> {
    if l.thread >= |s.threads| then []
    else
      match Decision(s.cfg, s.shared, s.threads[l.thread], l.choice)
      case Some(cause) => [cause]
      case None => []
  }

  function Tally(causes: seq<Cause>, wanted: set<Cause>): nat {
    if causes == [] then 0 else Tally(causes[..|causes| - 1], wanted) + (if causes[|causes| - 1] in wanted then 1 else 0)
  }

  lemma TallyAppend(causes: seq<Cause>, more: seq<Cause>, wanted: set<Cause>)
    requires |more| <= 1
    ensures Tally(causes + more, wanted) == Tally(causes, wanted) + (if more != [] && more[0] in wanted then 1 else 0)
  {
    if more == [] {
      assert causes + more == causes;
    } else {
      assert (causes + more)[..|causes + more| - 1] == causes;
    }
  }

  // ----- counters -----

  /** The drop counters an operator sees, and the two kept here beside them. */
  datatype Column = InvalidHeaders | PolicyDrops | BackpressureDrops | QueueFullDrops | ParameterDrops | EgressDrops

  function Counter(sh: Shared, column: Column): nat {
    match column
    case InvalidHeaders => sh.dropInvalidHeader
    case PolicyDrops => sh.dropSecurityPolicy
    case BackpressureDrops => sh.dropBackpressure
    case QueueFullDrops => sh.dropQueueFull
    case ParameterDrops => sh.invalidParamDrops
    case EgressDrops => sh.egressDrops
  }

  function CausesOf(column: Column): set<Cause> {
    match column
    case InvalidHeaders => {HeaderInvalid}
    case PolicyDrops => {PolicyRefused}
    case BackpressureDrops => {AboveHighWatermark}
    case QueueFullDrops => {NoQueueSlot, RouteGaveUp}
    case ParameterDrops => {NoBlock, NoPayload}
    case EgressDrops => {RouteGaveUp}
  }

  predicate Belongs(why: Reason, column: Column) {
    match column
    case InvalidHeaders => why == InvalidHeader
    case PolicyDrops => why == SecurityPolicy
    case BackpressureDrops => why == Backpressure
    case QueueFullDrops => why == QueueFull || why == EgressFull
    case ParameterDrops => why == InvalidParam
    case EgressDrops => why == EgressFull
  }

  /** The thread's message has been decided against, and the counter does not show it yet. */
  function Owes(column: Column): Pc -> int {
    (pc: Pc) =>
      if (pc.ReturningToken? || pc.CountingDrop? || (pc.CountingReason? && column != EgressDrops)) && Belongs(pc.why, column)
      then 1 else 0
  }

  predicate Paying(pc: Pc) {
    pc.ReturningToken? || pc.CountingDrop? || pc.CountingReason?
  }

  /** A decision puts the thread in debt to the columns of its cause, and nothing else does. */
  lemma DecisionMakesDebt(cfg: Config, sh: Shared, pc: Pc, ch: Choice, column: Column)
    requires !Paying(pc)
    ensures var (pc', sh') := Act(cfg, sh, pc, ch);
            var cause := Decision(cfg, sh, pc, ch);
            && Counter(sh', column) == Counter(sh, column)
            && Owes(column)(pc') == if cause.Some? && cause.value in CausesOf(column) then 1 else 0
  {
    hide Allocate;
    hide Write;
    hide Free;
    hide Read;
    hide ReadBack;
    hide Copied;
  }

  /** Counting pays it, in every column once. */
  lemma CountingPaysDebt(cfg: Config, sh: Shared, pc: Pc, ch: Choice, column: Column)
    requires cfg.telemetry && Paying(pc) && Shaped(pc)
    ensures var (pc', sh') := Act(cfg, sh, pc, ch);
            && Counter(sh', column) + Owes(column)(pc') == Counter(sh, column) + Owes(column)(pc)
            && Decision(cfg, sh, pc, ch).None?
  {
    hide Allocate;
    hide Write;
    hide Free;
    hide Read;
    hide ReadBack;
    hide Copied;
  }

  lemma ActPaysDebts(cfg: Config, sh: Shared, pc: Pc, ch: Choice, column: Column)
    requires cfg.telemetry && Shaped(pc)
    ensures var (pc', sh') := Act(cfg, sh, pc, ch);
            var cause := Decision(cfg, sh, pc, ch);
            Counter(sh', column) + Owes(column)(pc') ==
            Counter(sh, column) + Owes(column)(pc) + (if cause.Some? && cause.value in CausesOf(column) then 1 else 0)
  {
    hide Act;
    hide Decision;
    hide CausesOf;
    hide Counter;
    if Paying(pc) {
      CountingPaysDebt(cfg, sh, pc, ch, column);
    } else {
      DecisionMakesDebt(cfg, sh, pc, ch, column);
    }
  }

  lemma StepPaysDebts(s: State, l: Label, column: Column)
    requires s.cfg.telemetry && (l.thread < |s.threads| ==> Shaped(s.threads[l.thread]))
    ensures var s', settled := Step(s, l), Settled(s, l);
            Counter(s'.shared, column) + Total(s'.threads, Owes(column)) ==
            Counter(s.shared, column) + Total(s.threads, Owes(column)) + (if settled != [] && settled[0] in CausesOf(column) then 1 else 0)
  {
    hide Act;
    hide Decision;
    hide Counter;
    hide CausesOf;
    if l.thread < |s.threads| {
      ActPaysDebts(s.cfg, s.shared, s.threads[l.thread], l.choice, column);
      TotalUpdate(s.threads, l.thread, Act(s.cfg, s.shared, s.threads[l.thread], l.choice).0, Owes(column));
    }
  }

  lemma StartOwesNothing(start: State, column: Column)
    requires Starts(start)
    ensures Counter(start.shared, column) == 0 && Total(start.threads, Owes(column)) == 0
  {
    TotalIsZero(start.threads, Owes(column));
  }

  lemma RunIsShaped(start: State, schedule: seq<Label>, t: nat)
    requires Starts(start)
    ensures Run(start, schedule).cfg == start.cfg
    ensures t < |Run(start, schedule).threads| ==> Shaped(Run(start, schedule).threads[t])
  {
    hide Run;
    StartInv(start);
    RunKeepsInv(start, schedule);
  }

  /** In every interleaving a counter is the number of its causes, less the threads that have not counted theirs yet. */
  lemma {:induction false} CountersShowCauses(start: State, schedule: seq<Label>, column: Column)
    requires Starts(start) && start.cfg.telemetry
    ensures var s := Run(start, schedule);
            Counter(s.shared, column) + Total(s.threads, Owes(column)) == Tally(Causes(start, schedule), CausesOf(column))
  {
    hide Step;
    hide Settled;
    hide Counter;
    hide CausesOf;
    if schedule == [] {
      StartOwesNothing(start, column);
    } else {
      var before, l := schedule[..|schedule| - 1], schedule[|schedule| - 1];
      CountersShowCauses(start, before, column);
      RunIsShaped(start, before, l.thread);
      var s := Run(start, before);
      AtMostOne(s, l);
      TallyAppend(Causes(start, before), Settled(s, l), CausesOf(column));
      StepPaysDebts(s, l, column);
      hide Starts;
    }
  }

  lemma AtMostOne(s: State, l: Label)
    ensures |Settled(s, l)| <= 1
  {
    hide Decision;
  }

  /** When no handler runs, each counter is the number of its causes. */
  lemma CountersAreExact(start: State, schedule: seq<Label>)
    requires Starts(start) && start.cfg.telemetry && Quiescent(Run(start, schedule))
    ensures var sh, causes := Run(start, schedule).shared, Causes(start, schedule);
            && sh.dropInvalidHeader == Tally(causes, {HeaderInvalid})
            && sh.dropSecurityPolicy == Tally(causes, {PolicyRefused})
            && sh.dropBackpressure == Tally(causes, {AboveHighWatermark})
            && sh.dropQueueFull == Tally(causes, {NoQueueSlot, RouteGaveUp})
            && sh.invalidParamDrops == Tally(causes, {NoBlock, NoPayload})
            && sh.egressDrops == Tally(causes, {RouteGaveUp})
  {
    hide Run;
    ExactColumn(start, schedule, InvalidHeaders);
    ExactColumn(start, schedule, PolicyDrops);
    ExactColumn(start, schedule, BackpressureDrops);
    ExactColumn(start, schedule, QueueFullDrops);
    ExactColumn(start, schedule, ParameterDrops);
    ExactColumn(start, schedule, EgressDrops);
  }

  lemma ExactColumn(start: State, schedule: seq<Label>, column: Column)
    requires Starts(start) && start.cfg.telemetry && Quiescent(Run(start, schedule))
    ensures Counter(Run(start, schedule).shared, column) == Tally(Causes(start, schedule), CausesOf(column))
  {
    hide Run;
    CountersShowCauses(start, schedule, column);
    TotalIsZero(Run(start, schedule).threads, Owes(column));
  }

  // ----- telemetry off -----

  predicate NothingCounted(sh: Shared) {
    && sh.received == sh.enqueued == sh.dequeued == sh.dropped == sh.egressDrops == 0
    && sh.dropQueueFull == sh.dropBackpressure == sh.dropInvalidHeader == sh.dropSecurityPolicy == sh.invalidParamDrops == 0
  }

  lemma ActCountsNothing(cfg: Config, sh: Shared, pc: Pc, ch: Choice)
    requires !cfg.telemetry && NothingCounted(sh)
    ensures NothingCounted(Act(cfg, sh, pc, ch).1)
  {
    hide Allocate;
    hide Write;
    hide Free;
    hide Read;
    hide ReadBack;
    hide Copied;
  }

  /** With telemetry off no counter ever moves. */
  lemma {:induction false} SilentWithoutTelemetry(start: State, schedule: seq<Label>)
    requires Starts(start) && !start.cfg.telemetry
    ensures NothingCounted(Run(start, schedule).shared) && Run(start, schedule).cfg == start.cfg
  {
    if schedule != [] {
      var before, l := schedule[..|schedule| - 1], schedule[|schedule| - 1];
      SilentWithoutTelemetry(start, before);
      var s := Run(start, before);
      hide NothingCounted;
      if l.thread < |s.threads| {
        ActCountsNothing(s.cfg, s.shared, s.threads[l.thread], l.choice);
      }
      hide Act;
    }
  }

  // ----- what a step does to queue and flag -----

  /** The flag moves only at the two watermarks' operations: up when a reject has been counted, down after a finish at or below low. */
  lemma FlagMoves(cfg: Config, sh: Shared, pc: Pc, ch: Choice)
    ensures var sh' := Act(cfg, sh, pc, ch).1;
            && (sh'.active && !sh.active <==> pc == RaisingFlag && !sh.active)
            && (!sh'.active && sh.active <==> pc == ClearingFlag && sh.active)
  {
    hide Allocate;
    hide Write;
    hide Free;
    hide Read;
    hide ReadBack;
    hide Copied;
  }

  /** The queue is first in, first out: a step leaves it, appends one item, or takes the oldest. */
  lemma QueueIsFifo(cfg: Config, sh: Shared, pc: Pc, ch: Choice)
    ensures var sh' := Act(cfg, sh, pc, ch).1;
            || sh'.queue == sh.queue
            || (exists item :: sh'.queue == sh.queue + [item] && |sh.queue| < cfg.capacity)
            || (sh.queue != [] && sh'.queue == sh.queue[1..] && pc == Idle)
  {
    hide Allocate;
    hide Write;
    hide Free;
    hide Read;
    hide ReadBack;
    hide Copied;
  }
}
