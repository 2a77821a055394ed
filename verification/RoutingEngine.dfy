/**
 The routing engine object: its two callbacks and the route call, in place, on message
 blocks in the heap.  `Model` is the shared memory the machine of Ingress.dfy works on; each
 public method, undisturbed, does what the machine does when it drives one thread, and keeps
 all the machine's invariants.
 */
module RoutingEngine {
  import opened Wrappers
  import opened Message
  import opened Ingress
  import opened IngressCopies
  import opened IngressHandlers
  import opened IngressBooks

  /** Once begun, a handler no longer depends on which job it was. */
  lemma {:induction false} JobIsForgotten(cfg: Config, sh: Shared, pc: Pc, ch: Choice, job: Job)
    ensures Drive(cfg, sh, pc, ch) == Drive(cfg, sh, pc, ch.(job := job))
    decreases Rank(pc)
  {
    hide Drive;
    DriveOn(cfg, sh, pc, ch);
    DriveOn(cfg, sh, pc, ch.(job := job));
    if pc != Idle {
      ActLowersRank(cfg, sh, pc, ch);
      ActForgetsJob(cfg, sh, pc, ch, job);
      hide Act;
      JobIsForgotten(cfg, Act(cfg, sh, pc, ch).1, Act(cfg, sh, pc, ch).0, ch, job);
    }
  }

  lemma ActForgetsJob(cfg: Config, sh: Shared, pc: Pc, ch: Choice, job: Job)
    requires pc != Idle
    ensures Act(cfg, sh, pc, ch) == Act(cfg, sh, pc, ch.(job := job))
  {
  }

  /** An entry of a rule's observer list; one without callback is never called. */
  datatype NodeObserver = NodeObserver(hasCallback: bool, messageType: nat)

  predicate Wants(o: NodeObserver, messageType: nat) {
    o.hasCallback && o.messageType == messageType
  }

  /** Calls the observers of the message's type: each of them once, in list order, and no other. */
  method NotifyObservers(observers: seq<NodeObserver>, messageType: nat) returns (called: seq<nat>)
    ensures forall i :: i in called <==> 0 <= i < |observers| && Wants(observers[i], messageType)
    ensures forall j, k :: 0 <= j < k < |called| ==> called[j] < called[k]
  {
    called := [];
    var i := 0;
    while i < |observers|
      invariant 0 <= i <= |observers|
      invariant forall k :: k in called <==> 0 <= k < i && Wants(observers[k], messageType)
      invariant forall j, k :: 0 <= j < k < |called| ==> called[j] < called[k]
    {
      if observers[i].hasCallback && observers[i].messageType == messageType {
        assert forall k :: 0 <= k < |called| ==> called[k] in called;
        called := called + [i];
      }
      i := i + 1;
    }
  }

  /** What one dispatch calls: the matching observers of the delivered message's type. */
  ghost predicate CalledRight(before: Shared, observers: Option<seq<NodeObserver>>, called: seq<nat>) {
    if before.queue != [] && before.queue[0].IngressItem? && observers.Some? && Read(before.heap, before.queue[0].copy).Some?
    then
      var messageType := Read(before.heap, before.queue[0].copy).value.header.messageType;
      && (forall i :: i in called <==> 0 <= i < |observers.value| && Wants(observers.value[i], messageType))
      && (forall j, k :: 0 <= j < k < |called| ==> called[j] < called[k])
    else called == []
  }

  datatype RouteStatus = Routed | NotRunning | NoContext | NoRoom

  /** A default message filled by the copy routine. */
  method CopyToNewBlock(message: MessageBlock, payloadAllocated: bool) returns (block: MessageBlock, copied: bool)
    requires Sound(message.Value())
    ensures fresh(block) && message.Value() == old(message.Value())
    ensures (copied, block.Value()) == Copied(message.Value(), payloadAllocated)
  {
    hide Copied;
    block := new MessageBlock();
    copied := CopyMessage(message, block, payloadAllocated);
  }

  /** The allocated message blocks; the ghost fields are the model's view of them. */
  class BlockPool {
    var blocks: map<Address, MessageBlock>
    var nextCopy: Serial
    ghost var memory: map<Address, Content>
    ghost var owner: map<Address, Serial>
    ghost var origin: map<Serial, Content>
    ghost var freed: multiset<Serial>
    ghost var traces: seq<Trace>

    ghost function View(): Heap
      reads this
    {
      Heap(memory, nextCopy, owner, origin, freed, traces)
    }

    /** The view's memory is what the blocks hold. */
    ghost predicate Valid()
      reads this, blocks.Values, set b | b in blocks.Values && b.payload != null :: b.payload
    {
      blocks.Keys == memory.Keys && forall a :: a in blocks ==> blocks[a].Value() == memory[a]
    }

    constructor ()
      ensures Valid() && View() == EMPTY.heap
    {
      blocks, nextCopy := map[], 0;
      memory, owner, origin, freed, traces := map[], map[], map[], multiset{}, [];
    }

    /** Allocates a zeroed block at the address the allocator chose and copies the message into it. */
    method AllocateCopy(message: MessageBlock, address: Address, payloadAllocated: bool) returns (c: Pointer, copied: bool)
      requires Valid() && address !in blocks && Sound(message.Value())
      modifies this
      ensures Valid() && c == Pointer(address, old(nextCopy))
      ensures copied == Copied(old(message.Value()), payloadAllocated).0
      ensures View() == Write(Allocate(old(View()), address, old(message.Value())), c,
                              Copied(old(message.Value()), payloadAllocated).1)
    {
      hide Copied;
      var block;
      block, copied := CopyToNewBlock(message, payloadAllocated);
      c := Insert(message.Value(), address, block);
    }

    /** Enters a filled block. */
    method Insert(ghost message: Content, address: Address, block: MessageBlock) returns (c: Pointer)
      requires Valid() && address !in blocks
      modifies this
      ensures Valid() && c == Pointer(address, old(nextCopy))
      ensures View() == Write(Allocate(old(View()), address, message), c, old(block.Value()))
    {
      c := Pointer(address, nextCopy);
      blocks := blocks[address := block];
      memory, owner, origin := memory[address := block.Value()], owner[address := nextCopy], origin[nextCopy := message];
      nextCopy := nextCopy + 1;
      assert memory == old(memory)[address := ZERO_CONTENT][address := block.Value()];
    }

    /** What is in the block now. */
    method Load(c: Pointer) returns (content: Content)
      requires Valid() && c.address in blocks
      ensures Some(content) == Read(View(), c)
    {
      var block := blocks[c.address];
      content := Content(block.header, if block.payload == null then None else Some(block.payload[..]));
    }

    /**
     Gives the block and its payload back; the address is free from then on.  The routine
     then reads the header it has given back, and undisturbed finds no block there.
     */
    method DestroyMessage(c: Pointer)
      requires Valid()
      modifies this
      ensures Valid() && c.address !in blocks
      ensures View() == Destroy(old(View()), c)
      ensures traces == old(traces) + [Trace(c, None, None)]
    {
      blocks := blocks - {c.address};
      memory, owner, freed := memory - {c.address}, owner - {c.address}, freed + multiset{c.serial};
      traces := traces + [Trace(c, None, None)];
    }
  }

  class Engine {
    const cfg: Config
    const pool: BlockPool
    var queue: seq<Item>
    var inFlight: int
    var active: bool
    var received: nat
    var enqueued: nat
    var dequeued: nat
    var dropped: nat
    var dropQueueFull: nat
    var dropBackpressure: nat
    var dropInvalidHeader: nat
    var dropSecurityPolicy: nat
    var delivered: seq<Delivery>
    ghost var egressDrops: nat
    ghost var invalidParamDrops: nat

    ghost function Model(): Shared
      reads this, pool
    {
      Shared(queue, inFlight, active, received, enqueued, dequeued, dropped, dropQueueFull, dropBackpressure,
             dropInvalidHeader, dropSecurityPolicy, pool.View(), delivered, egressDrops, invalidParamDrops)
    }

    /** The machine's invariants with one thread at pc. */
    ghost predicate ValidAt(pc: Pc)
      reads this, pool, pool.blocks.Values, set b | b in pool.blocks.Values && b.payload != null :: b.payload
    {
      pool.Valid() && Sane(State(cfg, [pc], Model()))
    }

    ghost predicate Valid()
      reads this, pool, pool.blocks.Values, set b | b in pool.blocks.Values && b.payload != null :: b.payload
    {
      ValidAt(Idle)
    }

    constructor (highSetting: nat, lowSetting: nat, maxQueueSize: nat, telemetry: bool)
      ensures cfg == Configure(highSetting, lowSetting, maxQueueSize, telemetry)
      ensures cfg.capacity == (if maxQueueSize > 0 then maxQueueSize else 1024)
      ensures cfg.high == (if highSetting > 0 then highSetting else cfg.capacity)
      ensures Valid() && fresh(pool) && Model() == EMPTY
    {
      hide Sane;
      cfg := Configure(highSetting, lowSetting, maxQueueSize, telemetry);
      pool := new BlockPool();
      queue, inFlight, active, delivered := [], 0, false, [];
      received, enqueued, dequeued, dropped := 0, 0, 0, 0;
      dropQueueFull, dropBackpressure, dropInvalidHeader, dropSecurityPolicy := 0, 0, 0, 0;
      egressDrops, invalidParamDrops := 0, 0;
      new;
      EmptyStarts(cfg);
      StartIsSane(State(cfg, [Idle], EMPTY));
    }

    method CountDropReason(why: Reason)
      modifies this
      ensures Model() == CountReason(cfg, old(Model()), why)
    {
      if cfg.telemetry {
        match why {
          case QueueFull => dropQueueFull := dropQueueFull + 1;
          case EgressFull => dropQueueFull := dropQueueFull + 1;
          case Backpressure => dropBackpressure := dropBackpressure + 1;
          case InvalidHeader => dropInvalidHeader := dropInvalidHeader + 1;
          case SecurityPolicy => dropSecurityPolicy := dropSecurityPolicy + 1;
          case InvalidParam => invalidParamDrops := invalidParamDrops + 1;
        }
      }
    }

    method RecordDrop(why: Reason)
      modifies this
      ensures Model() == RecordedDrop(cfg, old(Model()), why)
    {
      if cfg.telemetry {
        dropped := dropped + 1;
        if why == EgressFull {
          egressDrops := egressDrops + 1;
        }
      }
      CountDropReason(why);
    }

    /** Hand the token back, record the drop and release the copy in hand. */
    method Abandon(why: Reason, held: Option<Pointer>)
      requires pool.Valid() && why != Backpressure
      modifies this, pool
      ensures pool.Valid()
      ensures Model() == Dropped(cfg, old(Model()).(inFlight := old(inFlight) - 1), why, held)
    {
      hide RecordedDrop;
      hide Destroy;
      inFlight := inFlight - 1;
      RecordDrop(why);
      if held.Some? {
        pool.DestroyMessage(held.value);
      }
    }

    /** Put an admitted message's copy on the queue. */
    method EnqueueCopy(c: Pointer, ch: Choice)
      requires pool.Valid()
      modifies this, pool
      ensures pool.Valid()
      ensures Model() == Drive(cfg, old(Model()), Enqueuing(c), ch)
    {
      hide Drive;
      hide Dropped;
      EnqueueStep(cfg, Model(), c, ch);
      if !(|queue| < cfg.capacity && ch.nodeAllocated) {
        Abandon(QueueFull, Some(c));
        return;
      }
      queue := queue + [IngressItem(c)];
      if cfg.telemetry {
        enqueued := enqueued + 1;
      }
    }

    /** Copy an admitted message into a block of its own and queue the copy. */
    method CopyAndEnqueue(message: MessageBlock, ch: Choice)
      requires pool.Valid() && Sound(message.Value())
      modifies this, pool
      ensures pool.Valid()
      ensures Model() == Drive(cfg, old(Model()), Allocating(old(message.Value())), ch)
    {
      hide Drive;
      hide Dropped;
      hide Allocate;
      hide Write;
      hide Copied;
      ghost var m, before := message.Value(), Model();
      AllocateStep(cfg, before, m, ch);
      if !(ch.blockAllocated && ch.address !in pool.blocks) {
        Abandon(InvalidParam, None);
        return;
      }
      var c, copied := pool.AllocateCopy(message, ch.address, ch.payloadAllocated);
      CopyStep(cfg, before.(heap := Allocate(before.heap, ch.address, m)), m, c, ch);
      if !copied {
        Abandon(InvalidParam, Some(c));
        return;
      }
      EnqueueCopy(c, ch);
    }

    /** Shed a message that found the engine above its high watermark. */
    method Reject()
      requires pool.Valid()
      modifies this, pool
      ensures pool.Valid()
      ensures Model() == Dropped(cfg, old(Model()).(inFlight := old(inFlight) - 1), Backpressure, None)
    {
      hide RecordedDrop;
      inFlight := inFlight - 1;
      RecordDrop(Backpressure);
      active := true;
    }

    /** Apply the backpressure policy to a checked message. */
    method Admit(message: MessageBlock, ch: Choice)
      requires pool.Valid() && Sound(message.Value())
      modifies this, pool
      ensures pool.Valid()
      ensures Model() == Drive(cfg, old(Model()), TakingToken(old(message.Value())), ch)
    {
      hide Drive;
      hide Dropped;
      TokenStep(cfg, Model(), message.Value(), ch);
      inFlight := inFlight + 1;
      if inFlight > cfg.high {
        Reject();
      } else {
        CopyAndEnqueue(message, ch);
      }
    }

    /** Header and security checks; `ch.verdict` is their outcome. */
    method CheckAndAdmit(message: MessageBlock, ch: Choice)
      requires pool.Valid() && Sound(message.Value())
      modifies this, pool
      ensures pool.Valid()
      ensures Model() == Drive(cfg, old(Model()), Checking(old(message.Value())), ch)
    {
      hide Drive;
      hide RecordedDrop;
      CheckStep(cfg, Model(), message.Value(), ch);
      if ch.verdict == BadHeader {
        RecordDrop(InvalidHeader);
      } else if ch.verdict == Refused {
        RecordDrop(SecurityPolicy);
      } else {
        Admit(message, ch);
      }
    }

    /** The transport's callback for an incoming message. */
    method HandleTransportIncomingData(message: MessageBlock, ch: Choice)
      requires Valid() && Sound(message.Value())
      modifies this, pool
      ensures Valid()
      ensures Model() == Handle(cfg, old(Model()), ch.(job := Receive(old(message.Value()))))
      ensures ch.running && cfg.telemetry ==>
                && received == old(received) + 1
                && dropInvalidHeader == old(dropInvalidHeader) + (if ch.verdict == BadHeader then 1 else 0)
                && dropSecurityPolicy == old(dropSecurityPolicy) + (if ch.verdict == Refused then 1 else 0)
                && dropBackpressure ==
                   old(dropBackpressure) + (if ch.verdict == Accept && old(inFlight) >= cfg.high then 1 else 0)
    {
      hide Run;
      hide Drive;
      hide Handle;
      hide Sane;
      ghost var choice := ch.(job := Receive(message.Value()));
      ghost var s := State(cfg, [Idle], Model());
      ghost var schedule := HandleIsASchedule(s, choice);
      RunKeepsSane(s, schedule);
      ReceiveStep(cfg, Model(), message.Value(), choice);
      if !ch.running {
        return;
      }
      ReceptionCounters(cfg, Model(), choice);
      if cfg.telemetry {
        received := received + 1;
      }
      JobIsForgotten(cfg, Model(), Checking(message.Value()), ch, choice.job);
      CheckAndAdmit(message, ch);
    }

    /** A dequeued message of a rule without observer list. */
    method Discard(c: Pointer, ghost ch: Choice)
      requires pool.Valid()
      modifies this, pool
      ensures pool.Valid()
      ensures Model() == Drive(cfg, old(Model()), Dispatched(c, false), ch)
    {
      hide Drive;
      hide Destroy;
      DiscardStep(cfg, Model(), c, ch);
      pool.DestroyMessage(c);
      if cfg.telemetry {
        dequeued := dequeued + 1;
      }
      inFlight := inFlight - 1;
    }

    /** Return the token of a delivered message and release backpressure at the low watermark. */
    method Finish(ghost ch: Choice)
      requires pool.Valid()
      modifies this, pool
      ensures pool.Valid()
      ensures Model() == Drive(cfg, old(Model()), FinishingToken, ch)
    {
      hide Drive;
      FinishTail(cfg, Model(), ch);
      inFlight := inFlight - 1;
      var remain := inFlight;
      if cfg.telemetry {
        dequeued := dequeued + 1;
      }
      if active && remain <= cfg.low {
        active := false;
      }
    }

    /** Shows the block to the rule's observers, then gives it back. */
    method DeliverAndDestroy(c: Pointer, observers: seq<NodeObserver>) returns (called: seq<nat>)
      requires pool.Valid() && c.address in pool.blocks
      modifies this, pool
      ensures pool.Valid()
      ensures Model() == old(Model()).(delivered := old(delivered) + [Delivery(c, Read(old(Model()).heap, c))],
                                       heap := Destroy(old(Model()).heap, c))
      ensures var messageType := Read(old(Model()).heap, c).value.header.messageType;
              && (forall i :: i in called <==> 0 <= i < |observers| && Wants(observers[i], messageType))
              && (forall j, k :: 0 <= j < k < |called| ==> called[j] < called[k])
    {
      hide Destroy;
      var content := pool.Load(c);
      called := NotifyObservers(observers, content.header.messageType);
      delivered := delivered + [Delivery(c, Some(content))];
      pool.DestroyMessage(c);
    }

    /** The dispatcher's callback for a message it has just taken from the queue. */
    method ProcessMessageAndNotifyObserver(c: Pointer, observers: Option<seq<NodeObserver>>, ghost ch: Choice)
      returns (called: seq<nat>)
      requires ValidAt(Dispatched(c, observers.Some?))
      modifies this, pool
      ensures Valid()
      ensures Model() == Drive(cfg, old(Model()), Dispatched(c, observers.Some?), ch)
      ensures Read(old(Model()).heap, c).Some?
      ensures observers.None? ==> called == []
      ensures observers.Some? ==>
                var messageType := Read(old(Model()).heap, c).value.header.messageType;
                && (forall i :: i in called <==> 0 <= i < |observers.value| && Wants(observers.value[i], messageType))
                && (forall j, k :: 0 <= j < k < |called| ==> called[j] < called[k])
    {
      hide Sane;
      hide Run;
      hide Drive;
      hide Destroy;
      DispatchedIsLive(cfg, Model(), c, observers.Some?);
      ghost var s := State(cfg, [Dispatched(c, observers.Some?)], Model());
      ghost var schedule := DriveIsASchedule(s, 0, ch);
      RunKeepsSane(s, schedule);
      assert s.threads[0 := Idle] == [Idle];
      if observers.None? {
        Discard(c, ch);
        return [];
      }
      DeliverStep(cfg, Model(), c, ch);
      called := DeliverAndDestroy(c, observers.value);
      Finish(ch);
    }

    /** A worker takes the oldest item; a route item leaves the engine's state alone. */
    method DispatchNext(ch: Choice, observers: Option<seq<NodeObserver>>) returns (called: seq<nat>)
      requires Valid()
      modifies this, pool
      ensures Valid()
      ensures Model() == Handle(cfg, old(Model()), ch.(job := Dispatch, observersPresent := observers.Some?))
      ensures CalledRight(old(Model()), observers, called)
    {
      hide Drive;
      hide Sane;
      ghost var choice := ch.(job := Dispatch, observersPresent := observers.Some?);
      ghost var s := State(cfg, [Idle], Model());
      RunKeepsSane(s, [Label(0, choice)]);
      assert [Label(0, choice)][..0] == [] && Run(s, [Label(0, choice)]) == Step(s, Label(0, choice));
      assert [Idle][0 := Begin(Model(), choice).0] == [Begin(Model(), choice).0];
      if queue == [] {
        DriveOn(cfg, Model(), Idle, choice);
        return [];
      }
      var item := queue[0];
      queue := queue[1..];
      DriveOn(cfg, Model(), Idle, choice);
      if item.IngressItem? {
        called := ProcessMessageAndNotifyObserver(item.copy, observers, choice);
      } else {
        called := [];
      }
    }

    /** The route call: up to sixteen attempts to enqueue, then a recorded drop. */
    method HandleRouteMessage(ch: Choice) returns (status: RouteStatus)
      requires Valid()
      modifies this, pool
      ensures Valid()
      ensures Model() == Handle(cfg, old(Model()), ch.(job := Route))
      ensures status == if !ch.running then NotRunning
                        else if !ch.contextAllocated then NoContext
                        else if |old(queue)| < cfg.capacity && ch.nodeAllocated then Routed
                        else NoRoom
    {
      hide Run;
      hide Drive;
      hide Handle;
      hide RecordedDrop;
      hide Sane;
      ghost var choice := ch.(job := Route);
      ghost var s := State(cfg, [Idle], Model());
      ghost var schedule := HandleIsASchedule(s, choice);
      RunKeepsSane(s, schedule);
      RouteBegin(cfg, Model(), choice);
      if !ch.running {
        return NotRunning;
      }
      if !ch.contextAllocated {
        return NoContext;
      }
      var attempt := 0;
      while attempt < ROUTE_ATTEMPTS
        invariant attempt <= ROUTE_ATTEMPTS
        invariant Model() == old(Model()) && pool.Valid()
        invariant Handle(cfg, old(Model()), choice) ==
                  if attempt < ROUTE_ATTEMPTS then Drive(cfg, Model(), Routing(attempt), choice)
                  else Dropped(cfg, Model(), EgressFull, None)
        invariant attempt > 0 ==> !(|queue| < cfg.capacity && ch.nodeAllocated)
      {
        RouteStep(cfg, Model(), attempt, choice);
        if |queue| < cfg.capacity && ch.nodeAllocated {
          queue := queue + [EgressItem];
          return Routed;
        }
        attempt := attempt + 1;
      }
      RecordDrop(EgressFull);
      status := NoRoom;
    }
  }

  /** What the dispatcher's callback relies on. */
  lemma DispatchedIsLive(cfg: Config, sh: Shared, c: Pointer, observersPresent: bool)
    requires Sane(State(cfg, [Dispatched(c, observersPresent)], sh))
    ensures Filled(sh.heap, c)
  {
    assert Backed(sh.heap, [Dispatched(c, observersPresent)][0]);
  }
}
