/**
 One runtime node as a value: its lifecycle, HA role, epoch and peer table, and what each
 entry point of the runtime does to them.  The class in Runtime.dfy carries out the same
 steps in place.
 */
module HaNode {
  import opened Wrappers
  import opened DomainPolicy
  import opened Assurance

  const PEER_CAPACITY: nat := 8
  const PEER_ID_LENGTH: nat := 31

  datatype Role = Standalone | Primary | Secondary

  datatype Lifecycle = Created | Starting | Running | Degraded | Stopping | Stopped | Faulted

  datatype Options = Options(
    enableHa: bool,
    heartbeatIntervalMs: nat,
    failoverTimeoutMs: nat,
    localPeerId: string,
    protocol: Protocol,
    overrideEnabled: bool,
    overrideProfile: Profile)

  /** A slot with an empty id is free. */
  datatype PeerSlot = PeerSlot(id: string, epoch: nat, lastHeartbeatMs: nat, healthy: bool)

  const FREE_SLOT := PeerSlot("", 0, 0, false)

  datatype Node = Node(
    options: Options,
    buildProfile: Profile,
    started: bool,
    monitorRunning: bool,
    lifecycle: Lifecycle,
    role: Role,
    epoch: nat,
    peers: seq<PeerSlot>)

  // ----- creation -----

  const DEFAULT_OPTIONS :=
    Options(false, 1000, 3000, "local", Protocol(1, 0, 1, 0), false, Generic)

  function Normalize(o: Options): Options {
    var local := if o.protocol.localMajor == 0 then 1 else o.protocol.localMajor;
    var peer := if o.protocol.peerMajor == 0 then 1 else o.protocol.peerMajor;
    var o1 := o.(protocol := o.protocol.(localMajor := local, peerMajor := peer));
    if o.overrideEnabled && !IsValid(o.overrideProfile)
    then o1.(overrideEnabled := false, overrideProfile := Generic)
    else o1
  }

  function Create(options: Option<Options>, buildProfile: Profile): Node {
    var o := if options.Some? then Normalize(options.value) else DEFAULT_OPTIONS;
    Node(o, buildProfile, false, false, Created, if o.enableHa then Secondary else Standalone, 1,
         seq(PEER_CAPACITY, _ => FREE_SLOT))
  }

  function EffectiveProfile(n: Node): Profile {
    if n.options.overrideEnabled && IsValid(n.options.overrideProfile)
    then n.options.overrideProfile
    else n.buildProfile
  }

  // ----- peer slots -----

  predicate Named(s: PeerSlot) {
    s.id != ""
  }

  /** First slot at or after i that carries the id. */
  function FindFrom(peers: seq<PeerSlot>, id: string, i: nat): (r: Option<nat>)
    requires i <= |peers|
    ensures r.Some? ==> i <= r.value < |peers| && Named(peers[r.value]) && peers[r.value].id == id
    ensures r.None? ==> forall k :: i <= k < |peers| && Named(peers[k]) ==> peers[k].id != id
    decreases |peers| - i
  {
    if i == |peers| then None
    else if Named(peers[i]) && peers[i].id == id then Some(i)
    else FindFrom(peers, id, i + 1)
  }

  /** First free slot at or after i. */
  function FreeFrom(peers: seq<PeerSlot>, i: nat): (r: Option<nat>)
    requires i <= |peers|
    ensures r.Some? ==> i <= r.value < |peers| && !Named(peers[r.value])
    ensures r.None? ==> forall k :: i <= k < |peers| ==> Named(peers[k])
    decreases |peers| - i
  {
    if i == |peers| then None
    else if !Named(peers[i]) then Some(i)
    else FreeFrom(peers, i + 1)
  }

  /** The slot buffer keeps 31 characters. */
  function Truncate(id: string): string {
    if |id| <= PEER_ID_LENGTH then id else id[..PEER_ID_LENGTH]
  }

  /** The slot for an id, and the table after claiming it; `None` when the table is full. */
  function Claim(peers: seq<PeerSlot>, id: string): (r: Option<(nat, seq<PeerSlot>)>)
    ensures r.Some? ==> r.value.0 < |peers| == |r.value.1|
  {
    match FindFrom(peers, id, 0)
    case Some(i) => Some((i, peers))
    case None =>
      match FreeFrom(peers, 0)
      case Some(i) => Some((i, peers[i := PeerSlot(Truncate(id), 0, 0, false)]))
      case None => None
  }

  // ----- entry points -----

  function Start(n: Node, busReady: bool, monitorSubmitted: bool): (Status, Node) {
    var profile := EffectiveProfile(n);
    var verdict := EvaluateStartup(profile, n.options.protocol);
    if n.started then (Ok, n)
    else if !busReady then (NotInitialized, n.(lifecycle := Faulted))
    else if RequiresIdentity(profile) && n.options.localPeerId == "" then (InvalidState, n.(lifecycle := Faulted))
    else if verdict != Ok then (verdict, n.(lifecycle := Faulted))
    else (Ok, n.(started := true, lifecycle := Running,
                 monitorRunning := if n.options.enableHa && !n.monitorRunning then monitorSubmitted else n.monitorRunning))
  }

  function Stop(n: Node): Node {
    n.(started := false, lifecycle := Stopped, monitorRunning := false)
  }

  function Admit(n: Node, peerId: string): Status {
    EvaluateAdmission(Admission(EffectiveProfile(n), n.options.localPeerId, peerId, PartitionId(EffectiveProfile(n))))
  }

  function Heartbeat(n: Node, peerId: string, peerEpoch: nat, now: nat): (Status, Node) {
    if !n.options.enableHa then (InvalidState, n)
    else if Admit(n, peerId) != Ok then (Admit(n, peerId), n)
    else
      match Claim(n.peers, peerId)
      case None => (OutOfMemory, n)
      case Some((i, peers)) =>
        var n1 := n.(peers := peers[i := PeerSlot(peers[i].id, peerEpoch, now, true)]);
        if peerEpoch >= n.epoch
        then (Ok, n1.(epoch := peerEpoch, role := Secondary,
                      lifecycle := if n.started && n.lifecycle == Degraded then Running else n.lifecycle))
        else (Ok, n1)
  }

  function Timeout(n: Node): (Status, Node) {
    if !n.options.enableHa then (InvalidState, n)
    else if n.role == Primary then (Ok, n)
    else (Ok, n.(role := Primary, epoch := n.epoch + 1, lifecycle := Degraded))
  }

  function Election(n: Node): (Status, Node) {
    if !n.options.enableHa then (InvalidState, n)
    else if n.role == Primary then (Ok, n.(lifecycle := Running))
    else (Ok, n.(role := Primary, epoch := n.epoch + 1, lifecycle := Running))
  }

  function SetRole(n: Node, role: Role): Node {
    n.(role := role)
  }

  function Age(now: nat, last: nat): nat {
    if now > last then now - last else 0
  }

  /** The monitor's treatment of one slot. */
  function AgeSlot(s: PeerSlot, now: nat, timeout: nat): PeerSlot {
    if Named(s) && s.healthy && Age(now, s.lastHeartbeatMs) > timeout then s.(healthy := false) else s
  }

  function AgeSlots(peers: seq<PeerSlot>, now: nat, timeout: nat): seq<PeerSlot> {
    seq(|peers|, i requires 0 <= i < |peers| => AgeSlot(peers[i], now, timeout))
  }

  predicate AnyHealthy(peers: seq<PeerSlot>) {
    exists i :: 0 <= i < |peers| && Named(peers[i]) && peers[i].healthy
  }

  /** One pass of the monitor loop at time `now`. */
  function Tick(n: Node, now: nat): Node {
    var n1 := n.(peers := AgeSlots(n.peers, now, n.options.failoverTimeoutMs));
    var any := AnyHealthy(n1.peers);
    if n.options.enableHa && !any && n.role != Primary
    then n1.(role := Primary, epoch := n.epoch + 1, lifecycle := Degraded)
    else if n.options.enableHa && any && n.started && n.lifecycle == Degraded
    then n1.(lifecycle := Running)
    else n1
  }

  // ----- runs of one node -----

  datatype Event =
    | Heard(peerId: string, peerEpoch: nat, at: nat)
    | PeerTimeout
    | Elect
    | Monitor(at: nat)
    | StartUp(busReady: bool, monitorSubmitted: bool)
    | ShutDown
    | Assign(role: Role)

  function Apply(n: Node, e: Event): Node {
    match e
    case Heard(id, epoch, at) => Heartbeat(n, id, epoch, at).1
    case PeerTimeout => Timeout(n).1
    case Elect => Election(n).1
    case Monitor(at) => Tick(n, at)
    case StartUp(ready, submitted) => Start(n, ready, submitted).1
    case ShutDown => Stop(n)
    case Assign(role) => SetRole(n, role)
  }

  function ApplyAll(n: Node, events: seq<Event>): Node {
    if events == [] then n
    else Apply(ApplyAll(n, events[..|events| - 1]), events[|events| - 1])
  }

  lemma {:induction false} ApplyAllConcat(n: Node, a: seq<Event>, b: seq<Event>)
    ensures ApplyAll(n, a + b) == ApplyAll(ApplyAll(n, a), b)
  {
    hide Apply;
    if b == [] {
      assert a + b == a;
    } else {
      assert (a + b)[..|a + b| - 1] == a + b[..|b| - 1];
      ApplyAllConcat(n, a, b[..|b| - 1]);
    }
  }

  /** The event is a heartbeat that the node takes in. */
  predicate Accepts(n: Node, e: Event) {
    e.Heard? && Heartbeat(n, e.peerId, e.peerEpoch, e.at).0 == Ok
  }

  // ----- shape -----

  predicate WellFormed(n: Node) {
    && |n.peers| == PEER_CAPACITY
    && forall i :: 0 <= i < |n.peers| ==> |n.peers[i].id| <= PEER_ID_LENGTH
  }

  lemma CreateIsWellFormed(options: Option<Options>, buildProfile: Profile)
    ensures WellFormed(Create(options, buildProfile))
  {
  }

  lemma ApplyKeepsShape(n: Node, e: Event)
    requires WellFormed(n)
    ensures WellFormed(Apply(n, e))
    ensures Apply(n, e).options == n.options && Apply(n, e).buildProfile == n.buildProfile
  {
    ApplyKeepsOptions(n, e);
    hide Heartbeat;
    hide Tick;
    match e
    case Heard(id, epoch, at) => HeartbeatKeepsShape(n, id, epoch, at);
    case Monitor(at) => TickKeepsShape(n, at);
    case _ =>
  }

  lemma HeartbeatKeepsShape(n: Node, peerId: string, peerEpoch: nat, now: nat)
    requires WellFormed(n)
    ensures WellFormed(Heartbeat(n, peerId, peerEpoch, now).1)
  {
    hide Admit;
  }

  lemma TickKeepsShape(n: Node, now: nat)
    requires WellFormed(n)
    ensures WellFormed(Tick(n, now))
  {
    hide AnyHealthy;
  }

  // ----- epoch fencing -----

  /** No recorded epoch exceeds the node's own, and a primary's epoch exceeds all of them. */
  predicate Fenced(n: Node) {
    && n.epoch >= 1
    && (forall i :: 0 <= i < |n.peers| ==> n.peers[i].epoch <= n.epoch)
    && (n.role == Primary ==> forall i :: 0 <= i < |n.peers| ==> n.peers[i].epoch < n.epoch)
  }

  /** The part of the fence that even role assignment keeps. */
  predicate RecordedBelow(n: Node) {
    forall i :: 0 <= i < |n.peers| ==> n.peers[i].epoch <= n.epoch
  }

  lemma ApplyKeepsRecordedBelow(n: Node, e: Event)
    requires RecordedBelow(n)
    ensures RecordedBelow(Apply(n, e))
  {
  }

  lemma CreateIsFenced(options: Option<Options>, buildProfile: Profile)
    ensures Fenced(Create(options, buildProfile))
  {
  }

  lemma HeartbeatKeepsFence(n: Node, peerId: string, peerEpoch: nat, now: nat)
    requires Fenced(n)
    ensures Fenced(Heartbeat(n, peerId, peerEpoch, now).1)
  {
  }

  lemma TickKeepsFence(n: Node, now: nat)
    requires Fenced(n)
    ensures Fenced(Tick(n, now))
  {
    hide AnyHealthy;
  }

  /** Every step but an explicit role assignment keeps the fence. */
  lemma ApplyKeepsFence(n: Node, e: Event)
    requires Fenced(n) && !e.Assign?
    ensures Fenced(Apply(n, e))
  {
    hide Heartbeat;
    hide Tick;
    match e
    case Heard(id, epoch, at) => HeartbeatKeepsFence(n, id, epoch, at);
    case Monitor(at) => TickKeepsFence(n, at);
    case _ =>
  }

  /** Assigning a role keeps the fence exactly when it does not crown a node that has recorded its own epoch. */
  lemma AssignKeepsFenceIff(n: Node, role: Role)
    requires Fenced(n)
    ensures Fenced(Apply(n, Assign(role))) <==>
            role != Primary || forall i :: 0 <= i < |n.peers| ==> n.peers[i].epoch != n.epoch
  {
  }

  /** After hearing an equal epoch, assigning PRIMARY breaks the fence. */
  lemma AssignedPrimaryIsNotFenced()
    ensures var n := Create(Some(DEFAULT_OPTIONS.(enableHa := true)), Generic);
            !Fenced(Apply(Apply(n, Heard("peer", 1, 0)), Assign(Primary)))
  {
    var n := Create(Some(DEFAULT_OPTIONS.(enableHa := true)), Generic);
    assert FindFrom(n.peers, "peer", 0).None?;
    var h := Apply(n, Heard("peer", 1, 0));
    var i := FreeFrom(n.peers, 0).value;
    assert h.peers[i].epoch == 1 && h.epoch == 1;
    assert Apply(h, Assign(Primary)).peers[i].epoch == 1;
  }

  /** No step lowers the epoch; within one primary tenure it does not change at all. */
  lemma EpochIsMonotone(n: Node, e: Event)
    ensures Apply(n, e).epoch >= n.epoch
    ensures n.role == Primary && Apply(n, e).role == Primary ==> Apply(n, e).epoch == n.epoch
    ensures Accepts(n, e) ==> Apply(n, e).epoch >= e.peerEpoch
    ensures Accepts(n, e) && Apply(n, e).role == Primary ==> Apply(n, e).epoch > e.peerEpoch
  {
  }

  // ----- lifecycle -----

  /** What a started node has passed. */
  predicate Admissible(n: Node) {
    || EffectiveProfile(n) == Generic
    || (IsValid(EffectiveProfile(n)) && n.options.localPeerId != "" && n.options.protocol.localMajor == n.options.protocol.peerMajor
        && n.options.protocol.peerMinor <= n.options.protocol.localMinor)
  }

  predicate StartedSafely(n: Node) {
    n.started ==> Admissible(n) && n.lifecycle in {Running, Degraded}
  }

  lemma ApplyKeepsStartedSafely(n: Node, e: Event)
    requires StartedSafely(n)
    ensures StartedSafely(Apply(n, e))
  {
    StartupVerdict(EffectiveProfile(n), n.options.protocol);
  }

  /** Start succeeds exactly on a started node or on an admissible one with a ready bus. */
  lemma StartSucceedsIff(n: Node, busReady: bool, monitorSubmitted: bool)
    ensures Start(n, busReady, monitorSubmitted).0 == Ok <==> n.started || (busReady && Admissible(n))
    ensures Start(n, busReady, monitorSubmitted).0 == Ok <==> Start(n, busReady, monitorSubmitted).1.started
  {
    StartupVerdict(EffectiveProfile(n), n.options.protocol);
  }

  // ----- failover -----

  predicate Fresh(s: PeerSlot, now: nat, timeout: nat) {
    Named(s) && s.healthy && Age(now, s.lastHeartbeatMs) <= timeout
  }

  /**
   After a monitor pass the healthy named peers are exactly the fresh ones, and with HA on
   a node that was not primary becomes primary exactly when there is none.
   */
  lemma TickOutcome(n: Node, now: nat)
    ensures var t := Tick(n, now);
            && |t.peers| == |n.peers|
            && (forall i :: 0 <= i < |n.peers| ==>
                  (Named(t.peers[i]) && t.peers[i].healthy <==> Fresh(n.peers[i], now, n.options.failoverTimeoutMs)))
            && (n.role == Primary ==> t.role == Primary)
            && (n.options.enableHa && n.role != Primary ==>
                  (t.role == Primary <==> !exists i :: 0 <= i < |n.peers| && Fresh(n.peers[i], now, n.options.failoverTimeoutMs)))
  {
    var t := Tick(n, now);
    if AnyHealthy(t.peers) {
      var i :| 0 <= i < |t.peers| && Named(t.peers[i]) && t.peers[i].healthy;
      assert Fresh(n.peers[i], now, n.options.failoverTimeoutMs);
    }
  }

  /** Times of the heartbeats accepted so far. */
  function AcceptTimes(n: Node, events: seq<Event>): set<nat> {
    if events == [] then {}
    else
      var before, e := events[..|events| - 1], events[|events| - 1];
      AcceptTimes(n, before) + (if Accepts(ApplyAll(n, before), e) then {e.at} else {})
  }

  lemma {:induction false} RunKeepsOptions(n: Node, events: seq<Event>)
    ensures ApplyAll(n, events).options == n.options && ApplyAll(n, events).buildProfile == n.buildProfile
  {
    if events != [] {
      RunKeepsOptions(n, events[..|events| - 1]);
      ApplyKeepsOptions(ApplyAll(n, events[..|events| - 1]), events[|events| - 1]);
      hide Apply;
    }
  }

  lemma ApplyKeepsOptions(n: Node, e: Event)
    ensures Apply(n, e).options == n.options && Apply(n, e).buildProfile == n.buildProfile
  {
  }

  /** A slot that is healthy after an event was just heard, or was healthy before with the same stamp. */
  lemma HealthyStep(n: Node, e: Event, i: nat)
    requires i < |Apply(n, e).peers| && Apply(n, e).peers[i].healthy
    ensures || (Accepts(n, e) && Apply(n, e).peers[i].lastHeartbeatMs == e.at)
            || (i < |n.peers| && n.peers[i].healthy && Apply(n, e).peers[i].lastHeartbeatMs == n.peers[i].lastHeartbeatMs)
  {
  }

  /** Every healthy slot was last refreshed by an accepted heartbeat. */
  lemma {:induction false} HealthyMeansHeard(options: Option<Options>, build: Profile, events: seq<Event>, i: nat)
    requires i < |ApplyAll(Create(options, build), events).peers|
    requires ApplyAll(Create(options, build), events).peers[i].healthy
    ensures ApplyAll(Create(options, build), events).peers[i].lastHeartbeatMs in AcceptTimes(Create(options, build), events)
  {
    var c := Create(options, build);
    if events != [] {
      var before, e := events[..|events| - 1], events[|events| - 1];
      var n := ApplyAll(c, before);
      var n' := Apply(n, e);
      assert ApplyAll(c, events) == n';
      HealthyStep(n, e, i);
      hide Apply;
      hide Accepts;
      if i < |n.peers| && n.peers[i].healthy {
        HealthyMeansHeard(options, build, before, i);
      }
    }
  }

  /**
   A monitor pass later than every accepted heartbeat plus the timeout makes the node
   primary, whatever else happened before it.
   */
  lemma FailoverBound(options: Option<Options>, build: Profile, events: seq<Event>, now: nat)
    requires Create(options, build).options.enableHa
    requires forall t :: t in AcceptTimes(Create(options, build), events)
                         ==> now > t + Create(options, build).options.failoverTimeoutMs
    ensures ApplyAll(Create(options, build), events + [Monitor(now)]).role == Primary
  {
    var c := Create(options, build);
    var n := ApplyAll(c, events);
    RunKeepsOptions(c, events);
    var all := events + [Monitor(now)];
    assert all[..|all| - 1] == events;
    TickOutcome(n, now);
    if i: nat :| i < |n.peers| && Fresh(n.peers[i], now, n.options.failoverTimeoutMs) {
      HealthyMeansHeard(options, build, events, i);
    }
  }

  /** A primary is demoted by exactly one kind of event besides role assignment: a heartbeat with an epoch not below its own. */
  lemma DemotedIff(n: Node, e: Event)
    requires n.role == Primary && !e.Assign?
    ensures Apply(n, e).role != Primary <==> Accepts(n, e) && e.peerEpoch >= n.epoch
  {
  }

  /** No accepted heartbeat along the run reaches the epoch. */
  predicate Unchallenged(n: Node, events: seq<Event>, epoch: nat) {
    forall k :: 0 <= k < |events| ==>
      !events[k].Assign? && (Accepts(ApplyAll(n, events[..k]), events[k]) ==> events[k].peerEpoch < epoch)
  }

  /** Hence a primary keeps its role and epoch through every unchallenged run. */
  lemma {:induction false} PrimaryPersists(n: Node, events: seq<Event>)
    requires n.role == Primary && Unchallenged(n, events, n.epoch)
    ensures ApplyAll(n, events).role == Primary && ApplyAll(n, events).epoch == n.epoch
  {
    if events != [] {
      var before, e := events[..|events| - 1], events[|events| - 1];
      forall k | 0 <= k < |before|
        ensures !before[k].Assign? && (Accepts(ApplyAll(n, before[..k]), before[k]) ==> before[k].peerEpoch < n.epoch)
      {
        assert before[k] == events[k] && before[..k] == events[..k];
      }
      PrimaryPersists(n, before);
      assert events[..|events| - 1] == before;
      DemotedIff(ApplyAll(n, before), e);
      EpochIsMonotone(ApplyAll(n, before), e);
    }
  }

  // ----- every run -----

  ghost predicate NoAssignments(events: seq<Event>) {
    forall k :: 0 <= k < |events| ==> !events[k].Assign?
  }

  /** The invariants of one node hold after every run from creation. */
  lemma {:induction false} NodeRunSafe(options: Option<Options>, build: Profile, events: seq<Event>)
    ensures var n := ApplyAll(Create(options, build), events);
            && WellFormed(n)
            && StartedSafely(n)
            && (NoAssignments(events) ==> Fenced(n))
  {
    if events == [] {
      CreateIsWellFormed(options, build);
      CreateIsFenced(options, build);
    } else {
      var before, e := events[..|events| - 1], events[|events| - 1];
      NodeRunSafe(options, build, before);
      var n := ApplyAll(Create(options, build), before);
      ApplyKeepsShape(n, e);
      ApplyKeepsStartedSafely(n, e);
      if NoAssignments(events) {
        assert NoAssignments(before);
        ApplyKeepsFence(n, e);
      }
    }
  }
}
