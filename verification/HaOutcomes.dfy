/**
 What each entry point of a node comes to, in full, and the laws over runs that follow: which
 role a node can have, that a timeout and an election make a primary that lasts, and that an
 exchange of heartbeats ends a split brain.
 */
module HaOutcomes {
  import opened Wrappers
  import opened DomainPolicy
  import opened Assurance
  import opened HaNode
  import opened Cluster

  /** The role a node has before anything happens, and any role assignment aside ever has without being primary. */
  function ResignedRole(n: Node): Role {
    if n.options.enableHa then Secondary else Standalone
  }

  /** A new node: not started, in epoch 1, without peers, and a primary of nothing. */
  lemma CreateOutcome(options: Option<Options>, build: Profile)
    ensures var n := Create(options, build);
            && !n.started && !n.monitorRunning && n.lifecycle == Created && n.epoch == 1 && n.buildProfile == build
            && n.role == ResignedRole(n)
            && |n.peers| == 8 && (forall i :: 0 <= i < 8 ==> !Named(n.peers[i]) && !n.peers[i].healthy && n.peers[i].epoch == 0)
            && (options.None? ==> !n.options.enableHa && n.options.localPeerId != "" && n.options.failoverTimeoutMs == 3000)
            && (options.Some? ==> n.options.enableHa == options.value.enableHa
                                  && n.options.localPeerId == options.value.localPeerId
                                  && n.options.failoverTimeoutMs == options.value.failoverTimeoutMs)
            && n.options.protocol.localMajor > 0 && n.options.protocol.peerMajor > 0
            && (n.options.overrideEnabled ==> IsValid(n.options.overrideProfile))
  {
  }

  /** The profile in force is the caller's if it is a valid one, otherwise the build's. */
  lemma ProfileInForce(o: Options, build: Profile)
    ensures EffectiveProfile(Create(Some(o), build)) ==
            if o.overrideEnabled && o.overrideProfile in {Generic, Industrial, Automotive, Military} then o.overrideProfile else build
  {
  }

  /** A major version left at zero means one; any other is kept, as are the minors. */
  lemma ProtocolInForce(o: Options, build: Profile)
    ensures var p := Create(Some(o), build).options.protocol;
            && p.localMajor == (if o.protocol.localMajor == 0 then 1 else o.protocol.localMajor)
            && p.peerMajor == (if o.protocol.peerMajor == 0 then 1 else o.protocol.peerMajor)
            && p.localMinor == o.protocol.localMinor && p.peerMinor == o.protocol.peerMinor
  {
  }

  // ----- one call -----

  /** Role, epoch and peers as they were. */
  predicate SameStanding(a: Node, b: Node) {
    a.role == b.role && a.epoch == b.epoch && a.peers == b.peers
  }

  /** Start flag and monitor flag as they were. */
  predicate SameFlags(a: Node, b: Node) {
    a.started == b.started && a.monitorRunning == b.monitorRunning
  }

  /** A timeout of a peer makes the node primary in a new epoch and DEGRADED, unless it is primary already. */
  lemma TimeoutOutcome(n: Node)
    ensures var (status, n') := (Timeout(n).0, Apply(n, PeerTimeout));
            && (!n.options.enableHa ==> status == InvalidState && n' == n)
            && (n.options.enableHa ==> status == Ok && n'.role == Primary && n'.peers == n.peers && SameFlags(n', n))
            && (n.options.enableHa && n.role == Primary ==> n' == n)
            && (n.options.enableHa && n.role != Primary ==> n'.epoch == n.epoch + 1 && n'.lifecycle == Degraded)
  {
  }

  /** An election makes it primary, in a new epoch unless it was, and RUNNING. */
  lemma ElectionOutcome(n: Node)
    ensures var (status, n') := (Election(n).0, Apply(n, Elect));
            && (!n.options.enableHa ==> status == InvalidState && n' == n)
            && (n.options.enableHa ==> status == Ok && n'.role == Primary && n'.peers == n.peers && SameFlags(n', n))
            && (n.options.enableHa ==> n'.lifecycle == Running)
            && (n.options.enableHa ==> n'.epoch == n.epoch + (if n.role == Primary then 0 else 1))
  {
  }

  /**
   A heartbeat: when it is refused, why, and that nothing changes then; taken in, an epoch
   not below the own one makes the node SECONDARY in that epoch and ends DEGRADED, a lower
   one changes neither role, epoch nor state.
   */
  lemma HeartbeatOutcome(n: Node, id: string, epoch: nat, now: nat)
    ensures var (status, n') := (Heartbeat(n, id, epoch, now).0, Apply(n, Heard(id, epoch, now)));
            && (status != Ok ==> n' == n)
            && (!n.options.enableHa ==> status == InvalidState)
            && (n.options.enableHa && Admit(n, id) != Ok ==> status == Admit(n, id))
            && SameFlags(n', n)
            && (status == Ok && epoch >= n.epoch ==>
                  && n'.role == Secondary && n'.epoch == epoch
                  && n'.lifecycle == if n.started && n.lifecycle == Degraded then Running else n.lifecycle)
            && (status == Ok && epoch < n.epoch ==> n'.role == n.role && n'.epoch == n.epoch && n'.lifecycle == n.lifecycle)
  {
  }

  /**
   What an accepted heartbeat records: epoch, time and health in the slot of its id, or in
   the first free one under the first 31 characters of the id; every other slot stays.
   */
  lemma HeartbeatRecords(n: Node, id: string, epoch: nat, now: nat, i: nat)
    requires Heartbeat(n, id, epoch, now).0 == Ok && i < |n.peers|
    ensures var peers' := Apply(n, Heard(id, epoch, now)).peers;
            var known, free := FindFrom(n.peers, id, 0), FreeFrom(n.peers, 0);
            && |peers'| == |n.peers| && (known.Some? || free.Some?)
            && peers'[i] ==
               if known == Some(i) then PeerSlot(id, epoch, now, true)
               else if known.None? && free == Some(i)
               then PeerSlot(if |id| <= 31 then id else id[..31], epoch, now, true)
               else n.peers[i]
  {
    hide Admit;
  }

  /** With HA on and a place for the id, a heartbeat is taken in exactly when admission lets it. */
  lemma TakenInIff(n: Node, id: string, epoch: nat, now: nat)
    requires n.options.enableHa && WellFormed(n)
    requires FindFrom(n.peers, id, 0).Some? || FreeFrom(n.peers, 0).Some?
    ensures Heartbeat(n, id, epoch, now).0 == Ok <==>
            EffectiveProfile(n) == Generic || (IsValid(EffectiveProfile(n)) && n.options.localPeerId != "" && id != "")
  {
    AdmissionVerdict(EffectiveProfile(n), n.options.localPeerId, id);
  }

  /** A monitor pass promotes exactly when HA is on, no peer is fresh and the node is not primary; it clears DEGRADED exactly otherwise. */
  lemma MonitorOutcome(n: Node, now: nat)
    ensures var n' := Apply(n, Monitor(now));
            var fresh? := exists i :: 0 <= i < |n.peers| && Fresh(n.peers[i], now, n.options.failoverTimeoutMs);
            var promotes := n.options.enableHa && !fresh? && n.role != Primary;
            && SameFlags(n', n)
            && n'.role == (if promotes then Primary else n.role)
            && n'.epoch == (if promotes then n.epoch + 1 else n.epoch)
            && n'.lifecycle == (if promotes then Degraded
                                else if n.options.enableHa && fresh? && n.started && n.lifecycle == Degraded then Running
                                else n.lifecycle)
            && |n'.peers| == |n.peers|
            && (forall i :: 0 <= i < |n.peers| ==>
                  n'.peers[i].id == n.peers[i].id && n'.peers[i].epoch == n.peers[i].epoch
                  && n'.peers[i].lastHeartbeatMs == n.peers[i].lastHeartbeatMs)
  {
    var t := Tick(n, now);
    TickOutcome(n, now);
    if AnyHealthy(t.peers) {
      var i :| 0 <= i < |t.peers| && Named(t.peers[i]) && t.peers[i].healthy;
      assert Fresh(n.peers[i], now, n.options.failoverTimeoutMs);
    }
    if i :| 0 <= i < |n.peers| && Fresh(n.peers[i], now, n.options.failoverTimeoutMs) {
      assert Named(t.peers[i]) && t.peers[i].healthy;
    }
  }

  /**
   A start that succeeds leaves the node started and RUNNING, with the monitor up when HA is
   on and its task could be submitted; one that fails leaves it FAULTED and as it was.
   */
  lemma StartOutcome(n: Node, busReady: bool, submitted: bool)
    ensures var (status, n') := (Start(n, busReady, submitted).0, Apply(n, StartUp(busReady, submitted)));
            && SameStanding(n', n)
            && (n.started ==> status == Ok && n' == n)
            && (!n.started && busReady && Admissible(n) ==>
                  && status == Ok && n'.started && n'.lifecycle == Running
                  && (n'.monitorRunning <==> n.monitorRunning || (n.options.enableHa && submitted)))
            && (!n.started && !(busReady && Admissible(n)) ==>
                  status != Ok && n'.lifecycle == Faulted && SameFlags(n', n))
            && (!n.started && !busReady ==> status == NotInitialized)
  {
    StartupVerdict(EffectiveProfile(n), n.options.protocol);
  }

  /** A stop leaves the node stopped with its monitor down, and its standing alone. */
  lemma StopOutcome(n: Node)
    ensures var n' := Apply(n, ShutDown);
            SameStanding(n', n) && !n'.started && !n'.monitorRunning && n'.lifecycle == Stopped
  {
  }

  /** Stopping and starting again an admissible node restores its run. */
  lemma RestartRestores(n: Node, submitted: bool)
    requires n.started && Admissible(n)
    ensures var n' := ApplyAll(n, [ShutDown, StartUp(true, submitted)]);
            && SameStanding(n', n) && n'.started && n'.lifecycle == Running
            && (n'.monitorRunning <==> n.options.enableHa && submitted)
  {
    var events := [ShutDown, StartUp(true, submitted)];
    assert events[..1] == [ShutDown] && events[..1][..0] == [];
    assert ApplyAll(n, events[..1]) == Apply(n, ShutDown);
    StopOutcome(n);
    StartOutcome(Apply(n, ShutDown), true, submitted);
  }

  /** Assigning a role changes that alone. */
  lemma AssignOutcome(n: Node, role: Role)
    ensures var n' := Apply(n, Assign(role));
            n'.role == role && n'.epoch == n.epoch && n'.peers == n.peers && n'.lifecycle == n.lifecycle && SameFlags(n', n)
  {
  }

  // ----- roles over whole runs -----

  /** Without role assignment an HA node is primary or secondary, any other standalone. */
  predicate RoleFits(n: Node) {
    if n.options.enableHa then n.role in {Primary, Secondary} else n.role == Standalone
  }

  lemma ApplyKeepsRoleFits(n: Node, e: Event)
    requires RoleFits(n) && !e.Assign?
    ensures RoleFits(Apply(n, e))
  {
    ApplyKeepsOptions(n, e);
    match e
    case Heard(id, epoch, at) => HeartbeatOutcome(n, id, epoch, at);
    case PeerTimeout => TimeoutOutcome(n);
    case Elect => ElectionOutcome(n);
    case Monitor(at) => MonitorOutcome(n, at);
    case StartUp(ready, submitted) => StartOutcome(n, ready, submitted);
    case ShutDown => StopOutcome(n);
    hide Apply;
  }

  lemma {:induction false} RolesFit(options: Option<Options>, build: Profile, events: seq<Event>)
    requires NoAssignments(events)
    ensures RoleFits(ApplyAll(Create(options, build), events))
  {
    if events == [] {
      CreateOutcome(options, build);
    } else {
      var before, e := events[..|events| - 1], events[|events| - 1];
      assert NoAssignments(before);
      RolesFit(options, build, before);
      ApplyKeepsRoleFits(ApplyAll(Create(options, build), before), e);
    }
  }

  // ----- failover that lasts -----

  /** A timeout or an election makes a primary that stays one, in its epoch, until it is challenged. */
  lemma PromotionLasts(n: Node, promotion: Event, events: seq<Event>)
    requires n.options.enableHa && promotion in {PeerTimeout, Elect}
    requires Unchallenged(Apply(n, promotion), events, n.epoch + (if n.role == Primary then 0 else 1))
    ensures var n' := ApplyAll(n, [promotion] + events);
            n'.role == Primary && n'.epoch == n.epoch + (if n.role == Primary then 0 else 1)
  {
    TimeoutOutcome(n);
    ElectionOutcome(n);
    assert [promotion][..0] == [];
    assert ApplyAll(n, [promotion]) == Apply(n, promotion);
    ApplyAllConcat(n, [promotion], events);
    PrimaryPersists(Apply(n, promotion), events);
  }

  // ----- an exchange ends a split brain -----

  /** The heartbeat member j would send now. */
  function BeatOf(s: State, j: nat): Beat
    requires j < |s.members|
  {
    Beat(j, s.members[j].node.epoch, s.members[j].tenure, Reigns(s.members[j]))
  }

  /** Sending puts exactly the sender's epoch and reign on the network. */
  lemma SendOutcome(s: State, j: nat)
    requires j < |s.members|
    ensures var s' := Step(s, Send(j));
            s'.members == s.members && s'.network == s.network + {BeatOf(s, j)} && s'.promotions == s.promotions
  {
  }

  /**
   Of two primaries one heartbeat, taken in by the one whose epoch is not higher, leaves one:
   the other keeps its reign, and has been heard.
   */
  lemma ExchangeEndsSplitBrain(s: State, i: nat, j: nat, at: nat)
    requires i < |s.members| && j < |s.members| && i != j && Reigns(s.members[i]) && Reigns(s.members[j])
    requires s.members[i].node.epoch <= s.members[j].node.epoch
    requires Accepts(s.members[i].node, DeliveryEvent(s, BeatOf(s, j), at))
    ensures var s' := Step(Step(s, Send(j)), Deliver(i, BeatOf(s, j), at));
            && |s'.members| == |s.members| && s'.members[j] == s.members[j]
            && s'.members[i].node.role == Secondary && s'.members[i].node.epoch == s.members[j].node.epoch
            && HasHeard(s', i, j)
  {
    SendOutcome(s, j);
    var e := DeliveryEvent(s, BeatOf(s, j), at);
    HeartbeatOutcome(s.members[i].node, e.peerId, e.peerEpoch, e.at);
    hide Apply;
    hide Accepts;
    var s1 := Step(s, Send(j));
    var s' := Step(s1, Deliver(i, BeatOf(s, j), at));
    assert BeatOf(s, j) in s'.members[i].heard;
  }
}
