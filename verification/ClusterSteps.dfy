/**
 The cluster of Cluster.dfy with nodes whose threads interleave: a member is a node with its
 threads in the middle of calls, as in RuntimeSteps.dfy.  Its runs look, in role, epoch,
 peers and heartbeats heard, like runs of the cluster of whole calls.
 */
module ClusterSteps {
  import opened Wrappers
  import opened DomainPolicy
  import opened Assurance
  import opened HaNode
  import opened Cluster
  import Threads = RuntimeSteps

  datatype FineMember = FineMember(runtime: Threads.State, tenure: nat, heard: set<Beat>)

  datatype FineCluster = FineCluster(members: seq<FineMember>, network: set<Beat>, promotions: nat)

  /** A thread that is outside takes a heartbeat in; any thread makes any other step. */
  datatype FineAction =
    | Emit(who: nat)
    | Take(who: nat, thread: nat, beat: Beat, at: nat)
    | Move(who: nat, step: Threads.Label)

  predicate Outside(m: FineMember, thread: nat) {
    thread < |m.runtime.threads| && m.runtime.threads[thread] == Threads.Outside
  }

  function Advanced(m: FineMember, runtime: Threads.State): FineMember {
    FineMember(runtime,
               if m.runtime.node.role != Primary && runtime.node.role == Primary then m.tenure + 1 else m.tenure,
               m.heard)
  }

  function HeartbeatOf(s: FineCluster, b: Beat, at: nat): Event
    requires b.sender < |s.members|
  {
    Heard(s.members[b.sender].runtime.node.options.localPeerId, b.epoch, at)
  }

  predicate Possible(s: FineCluster, a: FineAction) {
    && a.who < |s.members|
    && match a
       case Emit(_) => true
       case Take(i, thread, b, _) => b in s.network && b.sender < |s.members| && Outside(s.members[i], thread)
       case Move(i, l) => Outside(s.members[i], l.thread) ==> !l.event.Heard?
  }

  function FineStep(s: FineCluster, a: FineAction): FineCluster {
    if !Possible(s, a) then s
    else
      var m := s.members[a.who];
      var n := m.runtime.node;
      match a
      case Emit(i) => s.(network := s.network + {Beat(i, n.epoch, m.tenure, n.role == Primary)})
      case Take(i, thread, b, at) =>
        var e := HeartbeatOf(s, b, at);
        var m' := Advanced(m, Threads.Step(m.runtime, Threads.Label(thread, e, false, false)));
        s.(members := s.members[i := if Accepts(n, e) then m'.(heard := m.heard + {b}) else m'])
      case Move(i, l) =>
        var after := Threads.Step(m.runtime, l);
        s.(members := s.members[i := Advanced(m, after)], promotions := s.promotions + Promoted(n, after.node))
  }

  function FineRun(s: FineCluster, actions: seq<FineAction>): FineCluster {
    if actions == [] then s else FineStep(FineRun(s, actions[..|actions| - 1]), actions[|actions| - 1])
  }

  function FineBoot(options: seq<Option<Options>>, build: Profile, threads: nat): FineCluster {
    FineCluster(seq(|options|, i requires 0 <= i < |options| => FineMember(Threads.Boot(options[i], build, threads), 0, {})),
                {}, 0)
  }

  // ----- the same in what matters -----

  predicate SameMember(m: FineMember, c: Member) {
    Threads.SameHa(m.runtime.node, c.node) && m.tenure == c.tenure && m.heard == c.heard
  }

  ghost predicate Same(s: FineCluster, c: State) {
    && |s.members| == |c.members| && s.network == c.network && s.promotions == c.promotions
    && forall i :: 0 <= i < |s.members| ==> SameMember(s.members[i], c.members[i])
  }

  lemma AcceptsRespectsHa(a: Node, b: Node, e: Event)
    requires Threads.SameHa(a, b) && e.Heard?
    ensures Accepts(a, e) <==> Accepts(b, e)
  {
    hide EvaluateAdmission;
    hide Claim;
  }

  /** A step of a thread changes a member as the call it begins does, or not at all. */
  lemma ThreadStep(r: Threads.State, n: Node, l: Threads.Label)
    requires Threads.SameHa(r.node, n)
    ensures var r' := Threads.Step(r, l);
            if l.thread < |r.threads| && r.threads[l.thread] == Threads.Outside
            then Threads.SameHa(r'.node, Apply(n, l.event)) else Threads.SameHa(r'.node, n)
  {
    if l.thread < |r.threads| {
      Threads.ActIsAnEvent(r.node, r.threads[l.thread], l);
      Threads.ApplyRespectsHa(r.node, n, l.event);
    }
    hide Threads.Act;
    hide Apply;
  }

  /** The step of the cluster of whole calls that an action amounts to, if any. */
  function Whole(s: FineCluster, a: FineAction): seq<Action> {
    if !Possible(s, a) then []
    else
      match a
      case Emit(i) => [Send(i)]
      case Take(i, _, b, at) => [Deliver(i, b, at)]
      case Move(i, l) => if Outside(s.members[i], l.thread) then [Local(i, l.event)] else []
  }

  lemma TakeIsDeliver(s: FineCluster, c: State, a: FineAction)
    requires Same(s, c) && a.Take? && Possible(s, a)
    ensures Same(FineStep(s, a), Step(c, Deliver(a.who, a.beat, a.at)))
  {
    var m, n := s.members[a.who], c.members[a.who].node;
    var e := HeartbeatOf(s, a.beat, a.at);
    assert SameMember(m, c.members[a.who]) && SameMember(s.members[a.beat.sender], c.members[a.beat.sender]);
    assert DeliveryEvent(c, a.beat, a.at) == e;
    ThreadStep(m.runtime, n, Threads.Label(a.thread, e, false, false));
    AcceptsRespectsHa(m.runtime.node, n, e);
    hide Threads.Step;
    hide Apply;
    hide Accepts;
  }

  lemma MoveIsLocal(s: FineCluster, c: State, a: FineAction)
    requires Same(s, c) && a.Move? && Possible(s, a)
    ensures Same(FineStep(s, a), if Whole(s, a) == [] then c else Step(c, Local(a.who, a.step.event)))
  {
    var m, n := s.members[a.who], c.members[a.who].node;
    assert SameMember(m, c.members[a.who]);
    ThreadStep(m.runtime, n, a.step);
    hide Threads.Step;
    hide Apply;
  }

  lemma StepIsWhole(s: FineCluster, c: State, a: FineAction)
    requires Same(s, c)
    ensures Same(FineStep(s, a), if Whole(s, a) == [] then c else Step(c, Whole(s, a)[0]))
  {
    if Possible(s, a) {
      match a
      case Emit(i) => assert SameMember(s.members[i], c.members[i]);
      case Take(_, _, _, _) => TakeIsDeliver(s, c, a);
      case Move(_, _) => MoveIsLocal(s, c, a);
    }
  }

  /** Every run with interleaving threads looks like a run of whole calls. */
  lemma {:induction false} FineRunIsARun(options: seq<Option<Options>>, build: Profile, threads: nat, actions: seq<FineAction>)
    returns (whole: seq<Action>)
    ensures Same(FineRun(FineBoot(options, build, threads), actions), Run(Boot(options, build), whole))
  {
    whole := [];
    if actions != [] {
      var before, a := actions[..|actions| - 1], actions[|actions| - 1];
      whole := FineRunIsARun(options, build, threads, before);
      var s, c := FineRun(FineBoot(options, build, threads), before), Run(Boot(options, build), whole);
      StepIsWhole(s, c, a);
      hide FineStep;
      hide Step;
      hide Same;
      if Whole(s, a) != [] {
        var w := Whole(s, a)[0];
        assert (whole + [w])[..|whole|] == whole;
        whole := whole + [w];
      }
    }
  }

  // ----- no ring of primaries -----

  /** Member i has accepted a heartbeat that j sent during j's current reign. */
  predicate HeardReign(s: FineCluster, i: nat, j: nat)
    requires i < |s.members| && j < |s.members|
  {
    s.members[j].runtime.node.role == Primary &&
    exists b :: b in s.members[i].heard && b.sender == j && b.reigning && b.tenure == s.members[j].tenure
  }

  ghost predicate Ring(s: FineCluster, c: seq<nat>) {
    && |c| >= 2 && c[0] == c[|c| - 1]
    && (forall k :: 0 <= k < |c| ==> c[k] < |s.members|)
    && forall k :: 0 <= k < |c| - 1 ==> HeardReign(s, c[k], c[k + 1])
  }

  lemma HearingIsSame(s: FineCluster, c: State, i: nat, j: nat)
    requires Same(s, c) && i < |s.members| && j < |s.members| && HeardReign(s, i, j)
    ensures HasHeard(c, i, j)
  {
    assert SameMember(s.members[i], c.members[i]) && SameMember(s.members[j], c.members[j]);
  }

  lemma RingIsCycle(s: FineCluster, c: State, ring: seq<nat>)
    requires Same(s, c) && Ring(s, ring)
    ensures Cycle(c, ring)
  {
    forall k | 0 <= k < |ring| - 1 ensures HasHeard(c, ring[k], ring[k + 1]) {
      assert HeardReign(s, ring[k], ring[k + 1]);
      HearingIsSame(s, c, ring[k], ring[k + 1]);
    }
  }

  /** However the threads of every node interleave, no circle of nodes has heard each other's current reigns. */
  lemma NoRingInterleaved(options: seq<Option<Options>>, build: Profile, threads: nat, actions: seq<FineAction>, ring: seq<nat>)
    ensures !Ring(FineRun(FineBoot(options, build, threads), actions), ring)
  {
    var whole := FineRunIsARun(options, build, threads, actions);
    NoRingOfPrimaries(options, build, whole, ring);
    var s := FineRun(FineBoot(options, build, threads), actions);
    hide FineRun;
    hide Run;
    hide Cycle;
    if Ring(s, ring) {
      RingIsCycle(s, Run(Boot(options, build), whole), ring);
    }
  }

  /** Nor can two primaries have heard each other. */
  lemma SplitBrainEndsInterleaved(options: seq<Option<Options>>, build: Profile, threads: nat, actions: seq<FineAction>,
                                  i: nat, j: nat)
    requires i < |FineRun(FineBoot(options, build, threads), actions).members|
    requires j < |FineRun(FineBoot(options, build, threads), actions).members|
    ensures var s := FineRun(FineBoot(options, build, threads), actions);
            !(HeardReign(s, i, j) && HeardReign(s, j, i))
  {
    var s := FineRun(FineBoot(options, build, threads), actions);
    NoRingInterleaved(options, build, threads, actions, [i, j, i]);
    hide FineRun;
    assert HeardReign(s, i, j) && HeardReign(s, j, i) ==> Ring(s, [i, j, i]);
  }
}
