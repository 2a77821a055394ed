/**
 The runtime object: the in-place form of HaNode and Observers.  Each method is one call
 of the C interface; `Model` is the node value it stands for.
 */
module Runtime {
  import opened Wrappers
  import opened DomainPolicy
  import opened Assurance
  import opened HaNode
  import opened Observers

  /** One observer call: who was told about which change. */
  datatype Notice = Notice(observer: Observer, before: Lifecycle, after: Lifecycle)

  function Notices(called: seq<Observer>, before: Lifecycle, after: Lifecycle): seq<Notice> {
    seq(|called|, i requires 0 <= i < |called| => Notice(called[i], before, after))
  }

  /** What a change of lifecycle state announces: nothing when it is no change. */
  function Announcement(slots: seq<Slot>, before: Lifecycle, after: Lifecycle): seq<Notice> {
    if before == after then [] else Notices(CalledFrom(slots, 0), before, after)
  }

  datatype PeerStatus = PeerStatus(id: string, epoch: nat, lastHeartbeatMs: nat, healthy: bool)

  class RuntimeObject {
    const options: Options
    const buildProfile: Profile
    var started: bool
    var monitorRunning: bool
    var lifecycle: Lifecycle
    var role: Role
    var epoch: nat
    const peers: array<PeerSlot>
    const observers: array<Slot>
    /** Every observer call made so far. */
    var announced: seq<Notice>

    ghost predicate Valid()
      reads this, observers
    {
      && peers.Length == PEER_CAPACITY
      && observers.Length == OBSERVER_CAPACITY
      && peers as object != observers as object
      && Observers.Unique(observers[..])
    }

    ghost function Model(): Node
      reads this, peers
    {
      Node(options, buildProfile, started, monitorRunning, lifecycle, role, epoch, peers[..])
    }

    constructor (options: Option<Options>, buildProfile: Profile)
      ensures Valid() && fresh(peers) && fresh(observers)
      ensures Model() == Create(options, buildProfile)
      ensures Members(observers[..]) == {}
      ensures announced == []
    {
      this.options := if options.Some? then Normalize(options.value) else DEFAULT_OPTIONS;
      this.buildProfile := buildProfile;
      started, monitorRunning, lifecycle := false, false, Created;
      role := if (if options.Some? then Normalize(options.value) else DEFAULT_OPTIONS).enableHa then Secondary else Standalone;
      epoch := 1;
      peers := new PeerSlot[PEER_CAPACITY](_ => FREE_SLOT);
      observers := new Slot[OBSERVER_CAPACITY](_ => None);
      announced := [];
      new;
      assert peers[..] == seq(PEER_CAPACITY, _ => FREE_SLOT);
    }

    method FindPeerSlot(peerId: string) returns (slot: Option<nat>)
      requires Valid()
      ensures slot == FindFrom(peers[..], peerId, 0)
    {
      var i := 0;
      while i < PEER_CAPACITY
        invariant i <= PEER_CAPACITY
        invariant FindFrom(peers[..], peerId, 0) == FindFrom(peers[..], peerId, i)
      {
        if peers[i].id != "" && peers[i].id == peerId {
          return Some(i);
        }
        i := i + 1;
      }
      slot := None;
    }

    method FindOrCreatePeerSlot(peerId: string) returns (slot: Option<nat>)
      requires Valid()
      modifies peers
      ensures slot.None? <==> Claim(old(peers[..]), peerId).None?
      ensures slot.None? ==> peers[..] == old(peers[..])
      ensures slot.Some? ==> Claim(old(peers[..]), peerId) == Some((slot.value, peers[..]))
    {
      slot := FindPeerSlot(peerId);
      if slot.Some? {
        return;
      }
      var i := 0;
      while i < PEER_CAPACITY
        invariant i <= PEER_CAPACITY
        invariant peers[..] == old(peers[..])
        invariant FreeFrom(old(peers[..]), 0) == FreeFrom(old(peers[..]), i)
      {
        if peers[i].id == "" {
          peers[i] := PeerSlot(Truncate(peerId), 0, 0, false);
          return Some(i);
        }
        i := i + 1;
      }
      slot := None;
    }

    /** Snapshot the registered observers under the lock, then call them. */
    method NotifyStateChange(before: Lifecycle, after: Lifecycle)
      requires Valid()
      modifies this`announced
      ensures announced == old(announced) + Notices(CalledFrom(observers[..], 0), before, after)
    {
      hide Observers.Unique;
      var local: seq<Observer> := [];
      var i := 0;
      while i < OBSERVER_CAPACITY
        invariant i <= OBSERVER_CAPACITY
        invariant local + CalledFrom(observers[..], i) == CalledFrom(observers[..], 0)
      {
        if observers[i].Some? {
          local := local + [observers[i].value];
        }
        i := i + 1;
      }
      assert local == CalledFrom(observers[..], 0);
      i := 0;
      while i < |local|
        invariant i <= |local|
        invariant announced == old(announced) + Notices(local, before, after)[..i]
      {
        announced := announced + [Notice(local[i], before, after)];
        i := i + 1;
      }
    }

    method SetRuntimeState(state: Lifecycle)
      requires Valid()
      modifies this`lifecycle, this`announced
      ensures lifecycle == state
      ensures announced == old(announced) + Announcement(observers[..], old(lifecycle), state)
    {
      var before := lifecycle;
      if before == state {
        return;
      }
      lifecycle := state;
      NotifyStateChange(before, state);
    }

    method StartRuntime(busReady: bool, monitorSubmitted: bool) returns (status: Status)
      requires Valid()
      modifies this`started, this`lifecycle, this`announced, this`monitorRunning
      ensures (status, Model()) == Start(old(Model()), busReady, monitorSubmitted)
      ensures old(started) ==> announced == old(announced)
      ensures !old(started) ==>
                announced == old(announced) + Announcement(observers[..], old(lifecycle), Starting)
                             + Announcement(observers[..], Starting, lifecycle)
    {
      if started {
        return Ok;
      }
      SetRuntimeState(Starting);
      if !busReady {
        SetRuntimeState(Faulted);
        return NotInitialized;
      }
      var profile := if options.overrideEnabled && IsValid(options.overrideProfile) then options.overrideProfile else buildProfile;
      if RequiresIdentity(profile) && options.localPeerId == "" {
        SetRuntimeState(Faulted);
        return InvalidState;
      }
      var verdict := EvaluateStartup(profile, options.protocol);
      if verdict != Ok {
        SetRuntimeState(Faulted);
        return verdict;
      }
      started := true;
      SetRuntimeState(Running);
      if options.enableHa && !monitorRunning {
        monitorRunning := true;
        if !monitorSubmitted {
          monitorRunning := false;
        }
      }
      status := Ok;
    }

    method StopRuntime()
      requires Valid()
      modifies this`started, this`lifecycle, this`announced, this`monitorRunning
      ensures Model() == Stop(old(Model()))
      ensures announced == old(announced) + Announcement(observers[..], old(lifecycle), Stopping)
                           + Announcement(observers[..], Stopping, Stopped)
    {
      SetRuntimeState(Stopping);
      if monitorRunning {
        monitorRunning := false;
      }
      started := false;
      SetRuntimeState(Stopped);
    }

    method AssignRole(newRole: Role)
      requires Valid()
      modifies this`role
      ensures Model() == SetRole(old(Model()), newRole)
    {
      role := newRole;
    }

    method ReportPeerHeartbeat(peerId: string, peerEpoch: nat, now: nat) returns (status: Status)
      requires Valid()
      modifies this`epoch, this`role, this`lifecycle, peers
      ensures (status, Model()) == Heartbeat(old(Model()), peerId, peerEpoch, now)
      ensures status == Ok && peerEpoch >= old(epoch) ==> role == Secondary && epoch == peerEpoch
      ensures status != Ok || peerEpoch < old(epoch) ==> role == old(role) && epoch == old(epoch) && lifecycle == old(lifecycle)
    {
      if !options.enableHa {
        return InvalidState;
      }
      var profile := if options.overrideEnabled && IsValid(options.overrideProfile) then options.overrideProfile else buildProfile;
      var admission := EvaluateAdmission(Admission(profile, options.localPeerId, peerId, PartitionId(profile)));
      if admission != Ok {
        return admission;
      }
      var slot := FindOrCreatePeerSlot(peerId);
      if slot.None? {
        return OutOfMemory;
      }
      var i := slot.value;
      peers[i] := PeerSlot(peers[i].id, peerEpoch, now, true);
      if peerEpoch >= epoch {
        epoch := peerEpoch;
        role := Secondary;
        if started && lifecycle == Degraded {
          lifecycle := Running;
        }
      }
      status := Ok;
    }

    method ReportPeerTimeout() returns (status: Status)
      requires Valid()
      modifies this`epoch, this`role, this`lifecycle, this`announced
      ensures (status, Model()) == Timeout(old(Model()))
      ensures status == Ok <==> options.enableHa
      ensures status == Ok ==> role == Primary && epoch == old(epoch) + (if old(role) == Primary then 0 else 1)
      ensures status == Ok && old(role) != Primary ==> lifecycle == Degraded
      ensures status != Ok || old(role) == Primary ==> Model() == old(Model())
      ensures announced == old(announced) + Announcement(observers[..], old(lifecycle), lifecycle)
    {
      if !options.enableHa {
        return InvalidState;
      }
      if role != Primary {
        role := Primary;
        epoch := epoch + 1;
        SetRuntimeState(Degraded);
      }
      status := Ok;
    }

    method TriggerElection() returns (status: Status)
      requires Valid()
      modifies this`epoch, this`role, this`lifecycle, this`announced
      ensures (status, Model()) == Election(old(Model()))
      ensures status == Ok <==> options.enableHa
      ensures status == Ok ==>
                role == Primary && epoch == old(epoch) + (if old(role) == Primary then 0 else 1) && lifecycle == Running
      ensures announced == old(announced) + Announcement(observers[..], old(lifecycle), lifecycle)
    {
      if !options.enableHa {
        return InvalidState;
      }
      if role != Primary {
        role := Primary;
        epoch := epoch + 1;
      }
      SetRuntimeState(Running);
      status := Ok;
    }

    /** The monitor's scan of the peer table. */
    method AgePeers(now: nat) returns (anyHealthy: bool)
      requires Valid()
      modifies peers
      ensures peers[..] == AgeSlots(old(peers[..]), now, options.failoverTimeoutMs)
      ensures anyHealthy <==> AnyHealthy(peers[..])
    {
      anyHealthy := false;
      var i := 0;
      while i < PEER_CAPACITY
        invariant i <= PEER_CAPACITY
        invariant forall k :: 0 <= k < i ==> peers[k] == AgeSlot(old(peers[k]), now, options.failoverTimeoutMs)
        invariant forall k :: i <= k < PEER_CAPACITY ==> peers[k] == old(peers[k])
        invariant anyHealthy <==> exists k :: 0 <= k < i && Named(peers[k]) && peers[k].healthy
      {
        ghost var seen := anyHealthy;
        if peers[i].id != "" {
          if peers[i].healthy {
            if Age(now, peers[i].lastHeartbeatMs) > options.failoverTimeoutMs {
              peers[i] := peers[i].(healthy := false);
            } else {
              anyHealthy := true;
            }
          }
        }
        assert anyHealthy <==> seen || (Named(peers[i]) && peers[i].healthy);
        i := i + 1;
      }
    }

    /** One pass of the monitor loop. */
    method MonitorPass(now: nat)
      requires Valid()
      modifies this`epoch, this`role, this`lifecycle, peers
      ensures Model() == Tick(old(Model()), now)
    {
      var anyHealthy := AgePeers(now);
      if options.enableHa && !anyHealthy && role != Primary {
        role := Primary;
        epoch := epoch + 1;
        lifecycle := Degraded;
      } else if options.enableHa && anyHealthy && started {
        if lifecycle == Degraded {
          lifecycle := Running;
        }
      }
    }

    method RegisterObserver(o: Observer) returns (status: Status)
      requires Valid()
      modifies observers
      ensures Valid() && (status, observers[..]) == Register(old(observers[..]), o)
    {
      RegisterRefinesInsert(observers[..], o);
      var i := 0;
      while i < OBSERVER_CAPACITY
        invariant i <= OBSERVER_CAPACITY
        invariant observers[..] == old(observers[..])
        invariant IndexFrom(old(observers[..]), Some(o), 0) == IndexFrom(old(observers[..]), Some(o), i)
      {
        if observers[i] == Some(o) {
          return AlreadyExists;
        }
        i := i + 1;
      }
      i := 0;
      while i < OBSERVER_CAPACITY
        invariant i <= OBSERVER_CAPACITY
        invariant observers[..] == old(observers[..])
        invariant IndexFrom(old(observers[..]), None, 0) == IndexFrom(old(observers[..]), None, i)
      {
        if observers[i].None? {
          observers[i] := Some(o);
          return Ok;
        }
        i := i + 1;
      }
      status := ListFull;
    }

    method UnregisterObserver(o: Observer) returns (status: Status)
      requires Valid()
      modifies observers
      ensures Valid() && (status, observers[..]) == Unregister(old(observers[..]), o)
    {
      UnregisterRefinesRemove(observers[..], o);
      var i := 0;
      while i < OBSERVER_CAPACITY
        invariant i <= OBSERVER_CAPACITY
        invariant observers[..] == old(observers[..])
        invariant IndexFrom(old(observers[..]), Some(o), 0) == IndexFrom(old(observers[..]), Some(o), i)
      {
        if observers[i] == Some(o) {
          observers[i] := None;
          return Ok;
        }
        i := i + 1;
      }
      status := NotFound;
    }

    method GetPeerStatus(peerId: string) returns (status: Status, peer: PeerStatus)
      requires Valid()
      ensures status == Ok <==> exists i :: 0 <= i < PEER_CAPACITY && Named(peers[i]) && peers[i].id == peerId
      ensures status in {Ok, NotFound}
      ensures status == Ok ==>
                exists i :: 0 <= i < PEER_CAPACITY && peer == PeerStatus(peerId, peers[i].epoch, peers[i].lastHeartbeatMs, peers[i].healthy)
                            && peers[i].id == peerId && forall k :: 0 <= k < i ==> peers[k].id != peerId
    {
      var slot := FindPeerSlot(peerId);
      if slot.None? {
        return NotFound, PeerStatus("", 0, 0, false);
      }
      FindIsFirst(peers[..], peerId, 0);
      var s := peers[slot.value];
      status, peer := Ok, PeerStatus(s.id, s.epoch, s.lastHeartbeatMs, s.healthy);
    }
  }

  lemma {:induction false} FindIsFirst(slots: seq<PeerSlot>, id: string, i: nat)
    requires i <= |slots|
    ensures var r := FindFrom(slots, id, i);
            r.Some? ==> forall k :: i <= k < r.value ==> slots[k].id != id
    decreases |slots| - i
  {
    if i < |slots| && !(Named(slots[i]) && slots[i].id == id) {
      FindIsFirst(slots, id, i + 1);
      var r := FindFrom(slots, id, i);
      if r.Some? {
        assert slots[r.value].id == id;
      }
    }
  }
}
