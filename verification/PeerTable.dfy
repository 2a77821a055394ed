/**
 The eight-slot peer table refines a map from peer ids to their last report, for ids that
 fit the slot buffer; longer ids are what breaks it.
 */
module PeerTable {
  import opened Wrappers
  import opened DomainPolicy
  import opened Assurance
  import opened HaNode

  /** No id occupies two slots. */
  ghost predicate Unique(peers: seq<PeerSlot>) {
    forall i, j :: 0 <= i < j < |peers| && Named(peers[i]) && Named(peers[j]) ==> peers[i].id != peers[j].id
  }

  /** The map the table stands for. */
  ghost function Table(peers: seq<PeerSlot>): map<string, PeerSlot>
    requires Unique(peers)
  {
    map i | 0 <= i < |peers| && Named(peers[i]) :: peers[i].id := peers[i]
  }

  /** Ids of the first k slots, and how many slots carry one. */
  ghost function Ids(peers: seq<PeerSlot>, k: nat): set<string>
    requires k <= |peers|
  {
    if k == 0 then {} else Ids(peers, k - 1) + (if Named(peers[k - 1]) then {peers[k - 1].id} else {})
  }

  ghost function NamedCount(peers: seq<PeerSlot>, k: nat): (c: nat)
    requires k <= |peers|
    ensures c <= k
  {
    if k == 0 then 0 else NamedCount(peers, k - 1) + (if Named(peers[k - 1]) then 1 else 0)
  }

  lemma {:induction false} IdsAreTheNamed(peers: seq<PeerSlot>, k: nat)
    requires k <= |peers|
    ensures forall x :: x in Ids(peers, k) <==> exists i :: 0 <= i < k && Named(peers[i]) && peers[i].id == x
  {
    if k > 0 {
      IdsAreTheNamed(peers, k - 1);
      if Named(peers[k - 1]) {
        assert 0 <= k - 1 < k;
      }
    }
  }

  lemma {:induction false} IdsAreCounted(peers: seq<PeerSlot>, k: nat)
    requires Unique(peers) && k <= |peers|
    ensures |Ids(peers, k)| == NamedCount(peers, k)
  {
    if k > 0 {
      IdsAreCounted(peers, k - 1);
      IdsAreTheNamed(peers, k - 1);
    }
  }

  lemma {:induction false} CountIsFullIff(peers: seq<PeerSlot>, k: nat)
    requires k <= |peers|
    ensures NamedCount(peers, k) == k <==> forall i :: 0 <= i < k ==> Named(peers[i])
  {
    if k > 0 {
      CountIsFullIff(peers, k - 1);
    }
  }

  /** A free slot exists exactly while the map has room. */
  lemma FreeSlotIff(peers: seq<PeerSlot>)
    requires Unique(peers)
    ensures |Table(peers)| <= |peers|
    ensures FreeFrom(peers, 0).Some? <==> |Table(peers)| < |peers|
  {
    IdsAreTheNamed(peers, |peers|);
    assert Table(peers).Keys == Ids(peers, |peers|);
    IdsAreCounted(peers, |peers|);
    CountIsFullIff(peers, |peers|);
  }

  /**
   For an id of 1 to 31 characters an admitted heartbeat is a map update; only a ninth
   id is refused, and then nothing changes.
   */
  lemma HeartbeatRefinesUpdate(n: Node, id: string, epoch: nat, now: nat)
    requires WellFormed(n) && Unique(n.peers)
    requires 1 <= |id| <= PEER_ID_LENGTH
    requires n.options.enableHa && Admit(n, id) == Ok
    ensures var (status, n') := Heartbeat(n, id, epoch, now);
            && Unique(n'.peers)
            && (id in Table(n.peers) || |Table(n.peers)| < PEER_CAPACITY ==>
                  status == Ok && Table(n'.peers) == Table(n.peers)[id := PeerSlot(id, epoch, now, true)])
            && (id !in Table(n.peers) && |Table(n.peers)| == PEER_CAPACITY ==> status == OutOfMemory && n' == n)
  {
    FreeSlotIff(n.peers);
    var slot := ClaimedSlot(n.peers, id);
    assert id in Table(n.peers) <==> FindFrom(n.peers, id, 0).Some?;
    if slot.Some? {
      HeartbeatWritesSlot(n, id, epoch, now);
      UpdateRefines(n.peers, slot.value, PeerSlot(id, epoch, now, true));
    }
  }

  /** The index of the slot a heartbeat writes. */
  ghost function ClaimedSlot(peers: seq<PeerSlot>, id: string): Option<nat> {
    if FindFrom(peers, id, 0).Some? then FindFrom(peers, id, 0) else FreeFrom(peers, 0)
  }

  lemma HeartbeatWritesSlot(n: Node, id: string, epoch: nat, now: nat)
    requires 1 <= |id| <= PEER_ID_LENGTH
    requires n.options.enableHa && Admit(n, id) == Ok && ClaimedSlot(n.peers, id).Some?
    ensures Heartbeat(n, id, epoch, now).0 == Ok
    ensures Heartbeat(n, id, epoch, now).1.peers == n.peers[ClaimedSlot(n.peers, id).value := PeerSlot(id, epoch, now, true)]
  {
  }

  lemma WriteKeepsUnique(peers: seq<PeerSlot>, i: nat, s: PeerSlot)
    requires Unique(peers) && i < |peers| && Named(s)
    requires if Named(peers[i]) then peers[i].id == s.id
             else forall k :: 0 <= k < |peers| && Named(peers[k]) ==> peers[k].id != s.id
    ensures Unique(peers[i := s])
  {
  }

  /** Writing a named slot over its own entry, or over a free slot, updates the map at its id. */
  lemma UpdateRefines(peers: seq<PeerSlot>, i: nat, s: PeerSlot)
    requires Unique(peers) && i < |peers| && Named(s)
    requires if Named(peers[i]) then peers[i].id == s.id
             else forall k :: 0 <= k < |peers| && Named(peers[k]) ==> peers[k].id != s.id
    ensures Unique(peers[i := s])
    ensures Table(peers[i := s]) == Table(peers)[s.id := s]
  {
    var peers' := peers[i := s];
    assert peers'[i] == s;
    assert forall k :: 0 <= k < |peers| && k != i ==> peers'[k] == peers[k];
    WriteKeepsUnique(peers, i, s);
    forall x | x in Table(peers)[s.id := s] ensures x in Table(peers') && Table(peers')[x] == Table(peers)[s.id := s][x] {
      if x != s.id {
        var k :| 0 <= k < |peers| && Named(peers[k]) && peers[k].id == x;
        assert peers'[k] == peers[k];
      }
    }
  }

  /** No heartbeat ever drops an entry of the table. */
  lemma EntriesSurvive(n: Node, id: string, epoch: nat, now: nat, i: nat)
    requires i < |n.peers| && Named(n.peers[i])
    ensures var n' := Heartbeat(n, id, epoch, now).1;
            && |n'.peers| == |n.peers|
            && n'.peers[i].id == n.peers[i].id
            && (id != n.peers[i].id ==> n'.peers[i] == n.peers[i])
  {
  }

  /** No event drops an entry's id. */
  lemma EventKeepsId(n: Node, e: Event, i: nat)
    requires i < |n.peers| && Named(n.peers[i])
    ensures var n' := Apply(n, e);
            i < |n'.peers| && n'.peers[i].id == n.peers[i].id
  {
    hide Heartbeat;
    if e.Heard? {
      EntriesSurvive(n, e.peerId, e.peerEpoch, e.at, i);
    }
  }

  /** An id once in the table stays in its slot through every run, so a lookup always finds it. */
  lemma {:induction false} EntriesPersist(n: Node, events: seq<Event>, i: nat)
    requires i < |n.peers| && Named(n.peers[i])
    ensures var n' := ApplyAll(n, events);
            && i < |n'.peers| && n'.peers[i].id == n.peers[i].id
            && FindFrom(n'.peers, n.peers[i].id, 0).Some?
  {
    if events != [] {
      var before, e := events[..|events| - 1], events[|events| - 1];
      EntriesPersist(n, before, i);
      EventKeepsId(ApplyAll(n, before), e, i);
      hide Apply;
    }
  }

  /** The heartbeat takes a second slot for an id that is already in the table, cut to the buffer's length. */
  ghost predicate CutsOntoEntry(n: Node, id: string)
    requires Unique(n.peers)
  {
    && n.options.enableHa && Admit(n, id) == Ok
    && |id| > PEER_ID_LENGTH && Truncate(id) in Table(n.peers) && |Table(n.peers)| < PEER_CAPACITY
  }

  /**
   Uniqueness survives a heartbeat exactly unless it is admitted, there is room, and it cuts
   a long id down to one that is already there.
   */
  lemma UniqueAfterIff(n: Node, id: string, epoch: nat, now: nat)
    requires WellFormed(n) && Unique(n.peers)
    ensures Unique(Heartbeat(n, id, epoch, now).1.peers) <==> !CutsOntoEntry(n, id)
  {
    FreeSlotIff(n.peers);
    if n.options.enableHa && Admit(n, id) == Ok {
      if |id| > PEER_ID_LENGTH {
        LongIdNeedsRoom(n, id, epoch, now);
        if |Table(n.peers)| < PEER_CAPACITY {
          LongIdClaimsFreeSlot(n, id, epoch, now);
        }
      } else if id != "" {
        HeartbeatRefinesUpdate(n, id, epoch, now);
      } else {
        EmptyIdLeavesNames(n, epoch, now);
      }
    }
  }

  /** A long id is never found, so it needs a free slot; without one nothing changes. */
  lemma LongIdNeedsRoom(n: Node, id: string, epoch: nat, now: nat)
    requires WellFormed(n) && Unique(n.peers)
    requires n.options.enableHa && Admit(n, id) == Ok && |id| > PEER_ID_LENGTH
    ensures Heartbeat(n, id, epoch, now).0 == Ok <==> |Table(n.peers)| < PEER_CAPACITY
    ensures Heartbeat(n, id, epoch, now).0 != Ok ==> Heartbeat(n, id, epoch, now).1 == n
  {
    FreeSlotIff(n.peers);
    hide Table;
    hide Admit;
    assert FindFrom(n.peers, id, 0).None?;
  }

  lemma EmptyIdLeavesNames(n: Node, epoch: nat, now: nat)
    requires Unique(n.peers)
    ensures Unique(Heartbeat(n, "", epoch, now).1.peers)
  {
    var n' := Heartbeat(n, "", epoch, now).1;
    assert forall k :: 0 <= k < |n.peers| ==> n'.peers[k].id == n.peers[k].id;
  }

  lemma LongIdClaimsFreeSlot(n: Node, id: string, epoch: nat, now: nat)
    requires WellFormed(n) && Unique(n.peers)
    requires |id| > PEER_ID_LENGTH && Heartbeat(n, id, epoch, now).0 == Ok
    ensures Unique(Heartbeat(n, id, epoch, now).1.peers) <==> Truncate(id) !in Table(n.peers)
  {
    assert FindFrom(n.peers, id, 0).None?;
    var i := FreeFrom(n.peers, 0).value;
    var s := PeerSlot(Truncate(id), epoch, now, true);
    var peers' := n.peers[i := s];
    assert Heartbeat(n, id, epoch, now).1.peers == peers';
    if Truncate(id) in Table(n.peers) {
      var k :| 0 <= k < |n.peers| && Named(n.peers[k]) && n.peers[k].id == Truncate(id);
      assert peers'[k].id == peers'[i].id && k != i;
    } else {
      assert forall k :: 0 <= k < |n.peers| && Named(n.peers[k]) ==> n.peers[k].id in Table(n.peers);
      UpdateRefines(n.peers, i, s);
    }
  }

  /** A reported id of 32 characters takes a new slot at every heartbeat. */
  lemma LongIdDuplicates(id: string)
    requires |id| == 32
    ensures var n := Create(Some(DEFAULT_OPTIONS.(enableHa := true)), Generic);
            !Unique(Apply(Apply(n, Heard(id, 1, 0)), Heard(id, 1, 0)).peers)
  {
    var n := Create(Some(DEFAULT_OPTIONS.(enableHa := true)), Generic);
    CreateIsWellFormed(Some(DEFAULT_OPTIONS.(enableHa := true)), Generic);
    var h := Apply(n, Heard(id, 1, 0));
    LongIdClaimsFreeSlot(n, id, 1, 0);
    ApplyKeepsShape(n, Heard(id, 1, 0));
    var i := FreeFrom(n.peers, 0).value;
    assert i == 0;
    assert h.peers[0].id == Truncate(id) && h.peers[1] == FREE_SLOT;
    assert Truncate(id) in Table(h.peers);
    assert FreeFrom(h.peers, 0).Some?;
    LongIdClaimsFreeSlot(h, id, 1, 0);
  }

  /** Runs whose reported ids fit the buffer keep the table unique. */
  lemma {:induction false} RunKeepsUnique(options: Option<Options>, build: Profile, events: seq<Event>)
    requires forall k :: 0 <= k < |events| && events[k].Heard? ==> |events[k].peerId| <= PEER_ID_LENGTH
    ensures Unique(ApplyAll(Create(options, build), events).peers)
  {
    if events != [] {
      var before, e := events[..|events| - 1], events[|events| - 1];
      RunKeepsUnique(options, build, before);
      NodeRunSafe(options, build, before);
      var n := ApplyAll(Create(options, build), before);
      if e.Heard? {
        UniqueAfterIff(n, e.peerId, e.peerEpoch, e.at);
      }
    }
  }
}
