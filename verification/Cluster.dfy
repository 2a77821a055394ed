/**
 A cluster of runtime nodes exchanging heartbeats over a network that may lose, duplicate,
 delay and reorder them: every heartbeat ever sent stays deliverable forever, to anyone,
 any number of times.  Heartbeats carry the sender's epoch.
 */
module Cluster {
  import opened Wrappers
  import opened DomainPolicy
  import opened HaNode

  /** `tenure` counts the sender's reigns so far; `reigning` says whether it was PRIMARY when it sent. */
  datatype Beat = Beat(sender: nat, epoch: nat, tenure: nat, reigning: bool)

  /** A node with its history: how often it became PRIMARY, and which heartbeats it has accepted. */
  datatype Member = Member(node: Node, tenure: nat, heard: set<Beat>)

  /** `promotions` counts the steps that raised an epoch on becoming PRIMARY. */
  datatype State = State(members: seq<Member>, network: set<Beat>, promotions: nat)

  datatype Action =
    | Send(who: nat)
    | Deliver(who: nat, beat: Beat, at: nat)
    | Local(who: nat, event: Event)

  predicate Reigns(m: Member) {
    m.node.role == Primary
  }

  /** The member after its node moved to `node`, a new reign being a new tenure. */
  function Advance(m: Member, node: Node): Member {
    Member(node, if !Reigns(m) && node.role == Primary then m.tenure + 1 else m.tenure, m.heard)
  }

  function Promoted(before: Node, after: Node): nat {
    if before.role != Primary && after.role == Primary && after.epoch > before.epoch then 1 else 0
  }

  function DeliveryEvent(s: State, b: Beat, at: nat): Event
    requires b.sender < |s.members|
  {
    Heard(s.members[b.sender].node.options.localPeerId, b.epoch, at)
  }

  predicate Enabled(s: State, a: Action) {
    && a.who < |s.members|
    && match a
       case Send(_) => true
       case Deliver(_, b, _) => b in s.network && b.sender < |s.members|
       case Local(_, e) => !e.Heard?
  }

  function Step(s: State, a: Action): State {
    if !Enabled(s, a) then s
    else
      var m := s.members[a.who];
      match a
      case Send(i) =>
        s.(network := s.network + {Beat(i, m.node.epoch, m.tenure, Reigns(m))})
      case Deliver(i, b, at) =>
        var e := DeliveryEvent(s, b, at);
        var m' := Advance(m, Apply(m.node, e));
        s.(members := s.members[i := if Accepts(m.node, e) then m'.(heard := m.heard + {b}) else m'])
      case Local(i, e) =>
        var after := Apply(m.node, e);
        s.(members := s.members[i := Advance(m, after)], promotions := s.promotions + Promoted(m.node, after))
  }

  function Run(s: State, actions: seq<Action>): State {
    if actions == [] then s else Step(Run(s, actions[..|actions| - 1]), actions[|actions| - 1])
  }

  function Boot(options: seq<Option<Options>>, build: Profile): State {
    State(seq(|options|, i requires 0 <= i < |options| => Member(Create(options[i], build), 0, {})), {}, 0)
  }

  // ----- who has heard whom -----

  /** Member i has accepted a heartbeat that j sent during j's current reign. */
  predicate HasHeard(s: State, i: nat, j: nat)
    requires i < |s.members| && j < |s.members|
  {
    Reigns(s.members[j]) &&
    exists b :: b in s.members[i].heard && b.sender == j && b.reigning && b.tenure == s.members[j].tenure
  }

  /** A closed walk along "has heard the current reign of". */
  ghost predicate Cycle(s: State, c: seq<nat>) {
    && |c| >= 2
    && c[0] == c[|c| - 1]
    && (forall k :: 0 <= k < |c| ==> c[k] < |s.members|)
    && forall k :: 0 <= k < |c| - 1 ==> HasHeard(s, c[k], c[k + 1])
  }

  // ----- invariant -----

  /** A heartbeat speaks of a past or present of its sender; one of the current reign carries the current epoch. */
  predicate Authentic(s: State, b: Beat) {
    && b.sender < |s.members|
    && var m := s.members[b.sender];
    && b.tenure <= m.tenure
    && b.epoch <= m.node.epoch
    && (b.reigning && b.tenure == m.tenure && Reigns(m) ==> b.epoch == m.node.epoch)
  }

  ghost predicate Inv(s: State) {
    && (forall b :: b in s.network ==> Authentic(s, b))
    && (forall i :: 0 <= i < |s.members| ==> s.members[i].heard <= s.network)
    && (forall i, b :: 0 <= i < |s.members| && b in s.members[i].heard ==> b.epoch <= s.members[i].node.epoch)
    && (forall i :: 0 <= i < |s.members| ==> s.members[i].node.epoch <= 1 + s.promotions)
    && NoCycles(s)
  }

  ghost predicate NoCycles(s: State) {
    forall c :: !Cycle(s, c)
  }

  /** Having heard a reign means having reached its epoch. */
  lemma HeardEpoch(s: State, i: nat, j: nat)
    requires forall b :: b in s.network ==> Authentic(s, b)
    requires forall k :: 0 <= k < |s.members| ==> s.members[k].heard <= s.network
    requires forall k, b :: 0 <= k < |s.members| && b in s.members[k].heard ==> b.epoch <= s.members[k].node.epoch
    requires i < |s.members| && j < |s.members| && HasHeard(s, i, j)
    ensures s.members[j].node.epoch <= s.members[i].node.epoch
  {
    var b :| b in s.members[i].heard && b.sender == j && b.reigning && b.tenure == s.members[j].tenure;
    assert Authentic(s, b);
  }

  ghost predicate EpochsFall(s: State) {
    forall i, j :: 0 <= i < |s.members| && 0 <= j < |s.members| && HasHeard(s, i, j)
                   ==> s.members[j].node.epoch <= s.members[i].node.epoch
  }

  lemma {:induction false} WalkFalls(s: State, c: seq<nat>, k: nat, m: nat)
    requires EpochsFall(s) && Cycle(s, c) && k <= m < |c|
    ensures s.members[c[m]].node.epoch <= s.members[c[k]].node.epoch
    decreases m - k
  {
    if k < m {
      WalkFalls(s, c, k, m - 1);
      assert HasHeard(s, c[m - 1], c[m]);
    }
  }

  /** On a closed walk all epochs are equal. */
  lemma CycleIsFlat(s: State, c: seq<nat>, k: nat)
    requires EpochsFall(s) && Cycle(s, c) && k < |c| - 1
    ensures s.members[c[k]].node.epoch == s.members[c[k + 1]].node.epoch
  {
    WalkFalls(s, c, 0, k);
    WalkFalls(s, c, k, k + 1);
    WalkFalls(s, c, k + 1, |c| - 1);
  }

  lemma InvGivesEpochsFall(s: State)
    requires Inv(s)
    ensures EpochsFall(s)
  {
    forall i, j | 0 <= i < |s.members| && 0 <= j < |s.members| && HasHeard(s, i, j)
      ensures s.members[j].node.epoch <= s.members[i].node.epoch
    {
      HeardEpoch(s, i, j);
    }
  }

  // ----- preservation -----

  lemma BootInv(options: seq<Option<Options>>, build: Profile)
    ensures Inv(Boot(options, build))
  {
    var s := Boot(options, build);
    forall c ensures !Cycle(s, c) {
      if Cycle(s, c) {
        CycleMembersReign(s, c, 0);
      }
    }
  }

  /** Replacing one member by a later version of itself keeps every heartbeat authentic. */
  lemma AdvanceKeepsAuthentic(s: State, s': State, i: nat, m': Member)
    requires forall b :: b in s.network ==> Authentic(s, b)
    requires i < |s.members| && s'.members == s.members[i := m'] && s'.network == s.network
    requires m'.node.epoch >= s.members[i].node.epoch
    requires Reigns(s.members[i]) && Reigns(m') ==> m'.node.epoch == s.members[i].node.epoch
    requires m'.tenure == if !Reigns(s.members[i]) && Reigns(m') then s.members[i].tenure + 1 else s.members[i].tenure
    ensures forall b :: b in s'.network ==> Authentic(s', b)
  {
    forall b | b in s'.network ensures Authentic(s', b) {
      assert Authentic(s, b);
    }
  }

  lemma SendKeepsInv(s: State, i: nat)
    requires Inv(s) && i < |s.members|
    ensures Inv(Step(s, Send(i)))
  {
    var s' := Step(s, Send(i));
    assert s'.members == s.members;
    forall b | b in s'.network ensures Authentic(s', b) {
      if b in s.network {
        assert Authentic(s, b);
      }
    }
    forall c ensures !Cycle(s', c) {
      SameHearing(s, s', c);
    }
  }

  lemma SameHearing(s: State, s': State, c: seq<nat>)
    requires s'.members == s.members
    ensures Cycle(s', c) <==> Cycle(s, c)
  {
    assert forall i, j :: 0 <= i < |s.members| && 0 <= j < |s.members| ==> (HasHeard(s', i, j) <==> HasHeard(s, i, j));
  }

  /** If every link of s' is a link of s, no cycle is new. */
  lemma FewerLinks(s: State, s': State)
    requires NoCycles(s) && |s'.members| == |s.members|
    requires forall i, j :: 0 <= i < |s.members| && 0 <= j < |s.members| && HasHeard(s', i, j) ==> HasHeard(s, i, j)
    ensures NoCycles(s')
  {
    forall c ensures !Cycle(s', c) {
      if Cycle(s', c) {
        forall k | 0 <= k < |c| - 1 ensures HasHeard(s, c[k], c[k + 1]) {
          assert HasHeard(s', c[k], c[k + 1]);
        }
        assert Cycle(s, c);
      }
    }
  }

  /** A member that moves without accepting anything creates no link: a new reign is unheard of. */
  lemma AdvanceAddsNoLink(s: State, i: nat, node: Node, x: nat, y: nat)
    requires Inv(s) && i < |s.members| && x < |s.members| && y < |s.members|
    requires HasHeard(s.(members := s.members[i := Advance(s.members[i], node)]), x, y)
    ensures HasHeard(s, x, y)
  {
    var s' := s.(members := s.members[i := Advance(s.members[i], node)]);
    var b :| b in s'.members[x].heard && b.sender == y && b.reigning && b.tenure == s'.members[y].tenure;
    assert b in s.members[x].heard;
    assert Authentic(s, b);
  }

  lemma LocalKeepsInv(s: State, i: nat, e: Event)
    requires Inv(s) && i < |s.members| && !e.Heard?
    ensures Inv(Step(s, Local(i, e)))
  {
    var s' := Step(s, Local(i, e));
    var m := s.members[i];
    EpochIsMonotone(m.node, e);
    LocalRaisesByPromotion(m.node, e);
    AdvanceKeepsAuthentic(s, s', i, s'.members[i]);
    var plain := s.(members := s'.members);
    forall x, y | 0 <= x < |s.members| && 0 <= y < |s.members| && HasHeard(s', x, y) ensures HasHeard(s, x, y) {
      assert HasHeard(plain, x, y);
      AdvanceAddsNoLink(s, i, Apply(m.node, e), x, y);
    }
    FewerLinks(s, s');
  }

  lemma LocalRaisesByPromotion(n: Node, e: Event)
    requires !e.Heard?
    ensures Apply(n, e).epoch == n.epoch + Promoted(n, Apply(n, e))
  {
  }

  lemma DeliverKeepsInv(s: State, i: nat, b: Beat, at: nat)
    requires Inv(s) && Enabled(s, Deliver(i, b, at))
    ensures Inv(Step(s, Deliver(i, b, at)))
  {
    var s' := Step(s, Deliver(i, b, at));
    var m, e := s.members[i], DeliveryEvent(s, b, at);
    EpochIsMonotone(m.node, e);
    assert Authentic(s, b);
    DeliveredEpoch(m.node, e);
    AdvanceKeepsAuthentic(s, s', i, s'.members[i]);
    assert s'.members[i].node.epoch <= 1 + s'.promotions;
    forall k, x | 0 <= k < |s'.members| && x in s'.members[k].heard ensures x.epoch <= s'.members[k].node.epoch {
      if x in s.members[k].heard {
        assert x.epoch <= s.members[k].node.epoch;
      }
    }
    DeliverMakesNoCycle(s, i, b, at);
  }

  lemma DeliveredEpoch(n: Node, e: Event)
    requires e.Heard?
    ensures Apply(n, e).epoch == n.epoch || Apply(n, e).epoch == e.peerEpoch
    ensures !Accepts(n, e) ==> Apply(n, e) == n
    ensures Apply(n, e).role == Primary ==> n.role == Primary
  {
  }

  /** A delivery adds at most the link from its receiver to its sender. */
  lemma DeliverAddsOneLink(s: State, i: nat, b: Beat, at: nat, x: nat, y: nat)
    requires Inv(s) && Enabled(s, Deliver(i, b, at))
    requires x < |s.members| && y < |s.members| && HasHeard(Step(s, Deliver(i, b, at)), x, y)
    ensures HasHeard(s, x, y) || (x == i && y == b.sender && Accepts(s.members[i].node, DeliveryEvent(s, b, at))
                                  && b.epoch == s.members[y].node.epoch)
  {
    var s' := Step(s, Deliver(i, b, at));
    DeliveredEpoch(s.members[i].node, DeliveryEvent(s, b, at));
    var d :| d in s'.members[x].heard && d.sender == y && d.reigning && d.tenure == s'.members[y].tenure;
    assert s'.members[y].tenure == s.members[y].tenure && Reigns(s.members[y]);
    if d in s.members[x].heard {
      assert HasHeard(s, x, y);
    } else {
      assert d == b && Authentic(s, b);
    }
  }

  lemma DeliverMakesNoCycle(s: State, i: nat, b: Beat, at: nat)
    requires Inv(s) && Enabled(s, Deliver(i, b, at))
    requires var s' := Step(s, Deliver(i, b, at));
             && (forall d :: d in s'.network ==> Authentic(s', d))
             && (forall k :: 0 <= k < |s'.members| ==> s'.members[k].heard <= s'.network)
             && (forall k, d :: 0 <= k < |s'.members| && d in s'.members[k].heard ==> d.epoch <= s'.members[k].node.epoch)
    ensures NoCycles(Step(s, Deliver(i, b, at)))
  {
    var s' := Step(s, Deliver(i, b, at));
    var m, e := s.members[i], DeliveryEvent(s, b, at);
    assert EpochsFall(s') by {
      forall x, y | 0 <= x < |s'.members| && 0 <= y < |s'.members| && HasHeard(s', x, y)
        ensures s'.members[y].node.epoch <= s'.members[x].node.epoch
      {
        HeardEpoch(s', x, y);
      }
    }
    forall c ensures !Cycle(s', c) {
      if Cycle(s', c) {
        if k :| 0 <= k < |c| - 1 && !HasHeard(s, c[k], c[k + 1]) {
          assert HasHeard(s', c[k], c[k + 1]);
          DeliverAddsOneLink(s, i, b, at, c[k], c[k + 1]);
          EpochIsMonotone(m.node, e);
          DeliveredEpoch(m.node, e);
          CycleMembersReign(s', c, k);
          assert s'.members[i].node.epoch > b.epoch;
          CycleIsFlat(s', c, k);
        } else {
          assert Cycle(s, c);
        }
      }
    }
  }

  /** Every member of a cycle has been heard, hence reigns. */
  lemma CycleMembersReign(s: State, c: seq<nat>, k: nat)
    requires Cycle(s, c) && k < |c|
    ensures Reigns(s.members[c[k]])
  {
    if k == 0 {
      assert HasHeard(s, c[|c| - 2], c[|c| - 2 + 1]);
    } else {
      assert HasHeard(s, c[k - 1], c[k - 1 + 1]);
    }
  }

  lemma StepKeepsInv(s: State, a: Action)
    requires Inv(s)
    ensures Inv(Step(s, a))
  {
    if Enabled(s, a) {
      match a
      case Send(i) => SendKeepsInv(s, i);
      case Deliver(i, b, at) => DeliverKeepsInv(s, i, b, at);
      case Local(i, e) => LocalKeepsInv(s, i, e);
    }
  }

  lemma {:induction false} RunKeepsInv(s: State, actions: seq<Action>)
    requires Inv(s)
    ensures Inv(Run(s, actions)) && |Run(s, actions).members| == |s.members|
  {
    if actions != [] {
      RunKeepsInv(s, actions[..|actions| - 1]);
      StepKeepsInv(Run(s, actions[..|actions| - 1]), actions[|actions| - 1]);
    }
  }

  // ----- theorems about every run -----

  /**
   No ring of primaries: in every reachable state there is no circle of members in which
   each has accepted a heartbeat of the next one's current reign.  Role assignment included.
   */
  lemma NoRingOfPrimaries(options: seq<Option<Options>>, build: Profile, actions: seq<Action>, ring: seq<nat>)
    ensures !Cycle(Run(Boot(options, build), actions), ring)
  {
    BootInv(options, build);
    RunKeepsInv(Boot(options, build), actions);
  }

  /** Split brain cannot survive a two-way exchange. */
  lemma SplitBrainEndsOnExchange(options: seq<Option<Options>>, build: Profile, actions: seq<Action>, i: nat, j: nat)
    requires i < |options| && j < |options|
    ensures var s := Run(Boot(options, build), actions);
            && |s.members| == |options|
            && !(HasHeard(s, i, j) && HasHeard(s, j, i))
  {
    BootInv(options, build);
    RunKeepsInv(Boot(options, build), actions);
    var s := Run(Boot(options, build), actions);
    if HasHeard(s, i, j) && HasHeard(s, j, i) {
      assert Cycle(s, [i, j, i]);
    }
  }

  ghost predicate AllRecordedBelow(s: State) {
    forall i :: 0 <= i < |s.members| ==> RecordedBelow(s.members[i].node)
  }

  lemma {:induction false} RunKeepsRecordedBelow(options: seq<Option<Options>>, build: Profile, actions: seq<Action>)
    ensures AllRecordedBelow(Run(Boot(options, build), actions))
  {
    if actions != [] {
      var before, a := actions[..|actions| - 1], actions[|actions| - 1];
      RunKeepsRecordedBelow(options, build, before);
      StepKeepsRecordedBelow(Run(Boot(options, build), before), a);
    }
  }

  lemma StepKeepsRecordedBelow(s: State, a: Action)
    requires AllRecordedBelow(s)
    ensures AllRecordedBelow(Step(s, a))
  {
    hide RecordedBelow;
    if Enabled(s, a) {
      match a
      case Send(_) =>
      case Deliver(i, b, at) => ApplyKeepsRecordedBelow(s.members[i].node, DeliveryEvent(s, b, at));
      case Local(i, e) => ApplyKeepsRecordedBelow(s.members[i].node, e);
    }
    hide Apply;
  }

  /** No epoch anywhere, recorded or in flight, exceeds one plus the number of promotions. */
  lemma {:induction false} EpochsAreEarned(options: seq<Option<Options>>, build: Profile, actions: seq<Action>)
    ensures var s := Run(Boot(options, build), actions);
            && (forall i :: 0 <= i < |s.members| ==> s.members[i].node.epoch <= 1 + s.promotions)
            && (forall b :: b in s.network ==> b.epoch <= 1 + s.promotions)
            && (forall i, k :: 0 <= i < |s.members| && 0 <= k < |s.members[i].node.peers| ==>
                  s.members[i].node.peers[k].epoch <= s.members[i].node.epoch)
  {
    BootInv(options, build);
    RunKeepsInv(Boot(options, build), actions);
    RunKeepsRecordedBelow(options, build, actions);
    var s := Run(Boot(options, build), actions);
    assert forall i :: 0 <= i < |s.members| ==> RecordedBelow(s.members[i].node);
    forall b | b in s.network ensures b.epoch <= 1 + s.promotions {
      assert Authentic(s, b);
    }
  }

  ghost predicate NoRoleAssignment(actions: seq<Action>) {
    forall k :: 0 <= k < |actions| && actions[k].Local? ==> !actions[k].event.Assign?
  }

  /** Without role assignment a reigning member outranks everything it ever accepted. */
  ghost predicate Outranks(s: State) {
    forall i, b :: 0 <= i < |s.members| && Reigns(s.members[i]) && b in s.members[i].heard
                   ==> b.epoch < s.members[i].node.epoch
  }

  lemma StepKeepsOutranks(s: State, a: Action)
    requires Inv(s) && Outranks(s)
    requires a.Local? ==> !a.event.Assign?
    ensures Outranks(Step(s, a))
  {
    if Enabled(s, a) && !a.Send? {
      var m := s.members[a.who];
      var e := if a.Local? then a.event else DeliveryEvent(s, a.beat, a.at);
      EpochIsMonotone(m.node, e);
      PromotionRaises(m.node, e);
      var s' := Step(s, a);
      forall i, b | 0 <= i < |s'.members| && Reigns(s'.members[i]) && b in s'.members[i].heard
        ensures b.epoch < s'.members[i].node.epoch
      {
        if i == a.who && b in m.heard {
          assert b.epoch <= m.node.epoch;
        }
      }
    }
  }

  lemma PromotionRaises(n: Node, e: Event)
    requires !e.Assign?
    ensures n.role != Primary && Apply(n, e).role == Primary ==> Apply(n, e).epoch == n.epoch + 1
  {
  }

  lemma {:induction false} RunOutranks(options: seq<Option<Options>>, build: Profile, actions: seq<Action>)
    requires NoRoleAssignment(actions)
    ensures Outranks(Run(Boot(options, build), actions))
  {
    if actions != [] {
      var before, a := actions[..|actions| - 1], actions[|actions| - 1];
      assert NoRoleAssignment(before);
      RunOutranks(options, build, before);
      BootInv(options, build);
      RunKeepsInv(Boot(options, build), before);
      StepKeepsOutranks(Run(Boot(options, build), before), a);
    }
  }

  /**
   Without role assignment the reigns order themselves: a primary that has heard another
   primary's current reign strictly outranks it.
   */
  lemma HeardReignIsOutranked(options: seq<Option<Options>>, build: Profile, actions: seq<Action>, i: nat, j: nat)
    requires NoRoleAssignment(actions) && i < |options| && j < |options|
    ensures var s := Run(Boot(options, build), actions);
            && |s.members| == |options|
            && (Reigns(s.members[i]) && HasHeard(s, i, j) ==> s.members[j].node.epoch < s.members[i].node.epoch)
  {
    BootInv(options, build);
    RunKeepsInv(Boot(options, build), actions);
    RunOutranks(options, build, actions);
    var s := Run(Boot(options, build), actions);
    if Reigns(s.members[i]) && HasHeard(s, i, j) {
      var b :| b in s.members[i].heard && b.sender == j && b.reigning && b.tenure == s.members[j].tenure;
      assert Authentic(s, b);
    }
  }

  /** Split brain itself is reachable: two elections without any exchange. */
  lemma SplitBrainIsReachable(o: Options)
    requires o.enableHa
    ensures var s := Run(Boot([Some(o), Some(o)], Generic), [Local(0, Elect), Local(1, Elect)]);
            && |s.members| == 2
            && Reigns(s.members[0]) && Reigns(s.members[1])
            && s.members[0].node.epoch == s.members[1].node.epoch
  {
    var b := Boot([Some(o), Some(o)], Generic);
    var acts := [Local(0, Elect), Local(1, Elect)];
    assert acts[..1] == [Local(0, Elect)];
    assert acts[..1][..0] == [];
    assert Run(b, acts[..1]) == Step(b, Local(0, Elect));
  }
}
