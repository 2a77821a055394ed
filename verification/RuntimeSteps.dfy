/**
 The runtime's entry points at the granularity of the source: one step is one critical
 section, or one access to `started` or the monitor flag, which are touched without the
 lock.  Any number of threads interleave on one node.  Role, epoch and peers change only
 inside critical sections, so their laws carry over from HaNode; the lifecycle state does
 not fare as well.
 */
module RuntimeSteps {
  import opened Wrappers
  import opened DomainPolicy
  import opened Assurance
  import opened HaNode

  /** A thread's position, named after what it is about to do. */
  datatype Pc =
    | Outside
    // start
    | MarkStarting
    | Judging
    | MarkFaulted
    | SetStarted
    | MarkRunning
    | StartMonitor
    | SubmitMonitor
    // stop
    | MarkStopping
    | StopMonitor
    | ClearStarted
    | MarkStopped
    // failover
    | MarkDegraded
    | MarkElected

  /** `event` is the call a thread outside begins; the other two are answers of the environment. */
  datatype Label = Label(thread: nat, event: Event, busReady: bool, submitted: bool)

  datatype State = State(node: Node, threads: seq<Pc>)

  /** The start-up decision; it reads only what creation fixed. */
  predicate Cleared(n: Node, busReady: bool) {
    && busReady
    && !(RequiresIdentity(EffectiveProfile(n)) && n.options.localPeerId == "")
    && EvaluateStartup(EffectiveProfile(n), n.options.protocol) == Ok
  }

  function Promote(n: Node): Node {
    if n.role == Primary then n else n.(role := Primary, epoch := n.epoch + 1)
  }

  function Begin(n: Node, e: Event): (Pc, Node) {
    match e
    case StartUp(_, _) => (if n.started then Outside else MarkStarting, n)
    case ShutDown => (MarkStopping, n)
    case PeerTimeout => if n.options.enableHa && n.role != Primary then (MarkDegraded, Promote(n)) else (Outside, n)
    case Elect => if n.options.enableHa then (MarkElected, Promote(n)) else (Outside, n)
    case Heard(_, _, _) => (Outside, Apply(n, e))
    case Monitor(_) => (Outside, Apply(n, e))
    case Assign(_) => (Outside, Apply(n, e))
  }

  function Act(n: Node, pc: Pc, l: Label): (Pc, Node) {
    match pc
    case Outside => Begin(n, l.event)
    case MarkStarting => (Judging, n.(lifecycle := Starting))
    case Judging => (if Cleared(n, l.busReady) then SetStarted else MarkFaulted, n)
    case MarkFaulted => (Outside, n.(lifecycle := Faulted))
    case SetStarted => (MarkRunning, n.(started := true))
    case MarkRunning => (StartMonitor, n.(lifecycle := Running))
    case StartMonitor =>
      if n.options.enableHa && !n.monitorRunning then (SubmitMonitor, n.(monitorRunning := true)) else (Outside, n)
    case SubmitMonitor => (Outside, if l.submitted then n else n.(monitorRunning := false))
    case MarkStopping => (StopMonitor, n.(lifecycle := Stopping))
    case StopMonitor => (ClearStarted, n.(monitorRunning := false))
    case ClearStarted => (MarkStopped, n.(started := false))
    case MarkStopped => (Outside, n.(lifecycle := Stopped))
    case MarkDegraded => (Outside, n.(lifecycle := Degraded))
    case MarkElected => (Outside, n.(lifecycle := Running))
  }

  function Step(s: State, l: Label): State {
    if l.thread >= |s.threads| then s
    else
      var (pc, n) := Act(s.node, s.threads[l.thread], l);
      State(n, s.threads[l.thread := pc])
  }

  function Run(s: State, schedule: seq<Label>): State {
    if schedule == [] then s else Step(Run(s, schedule[..|schedule| - 1]), schedule[|schedule| - 1])
  }

  function Boot(options: Option<Options>, build: Profile, threads: nat): State {
    State(Create(options, build), seq(threads, _ => Outside))
  }

  // ----- one call undisturbed -----

  function Rank(pc: Pc): nat {
    match pc
    case Outside => 0
    case MarkStarting => 7
    case Judging => 6
    case SetStarted => 5
    case MarkRunning => 4
    case StartMonitor => 3
    case SubmitMonitor => 2
    case MarkFaulted => 1
    case MarkStopping => 4
    case StopMonitor => 3
    case ClearStarted => 2
    case MarkStopped => 1
    case MarkDegraded => 1
    case MarkElected => 1
  }

  /** The rest of a call with no other thread in between. */
  function Finish(n: Node, pc: Pc, l: Label): Node
    decreases Rank(pc)
  {
    if pc == Outside then n
    else
      var (pc', n') := Act(n, pc, l);
      Finish(n', pc', l)
  }

  lemma FinishOn(n: Node, pc: Pc, l: Label)
    ensures pc == Outside ==> Finish(n, pc, l) == n
    ensures pc != Outside ==> Finish(n, pc, l) == Finish(Act(n, pc, l).1, Act(n, pc, l).0, l)
  {
    hide Act;
  }

  lemma StopIsStop(n: Node, l: Label)
    ensures Finish(n, MarkStopping, l) == Stop(n)
  {
    hide Finish;
    hide Begin;
    hide Cleared;
    var n1 := n.(lifecycle := Stopping);
    var n2 := n1.(monitorRunning := false);
    var n3 := n2.(started := false);
    FinishOn(n, MarkStopping, l);
    FinishOn(n1, StopMonitor, l);
    FinishOn(n2, ClearStarted, l);
    FinishOn(n3, MarkStopped, l);
    FinishOn(n3.(lifecycle := Stopped), Outside, l);
  }

  lemma ClearedStartFinishes(n: Node, l: Label)
    ensures Finish(n, SetStarted, l) ==
            n.(started := true, lifecycle := Running,
               monitorRunning := if n.options.enableHa && !n.monitorRunning then l.submitted else n.monitorRunning)
  {
    hide Finish;
    hide Begin;
    hide Cleared;
    var n1 := n.(started := true);
    var n2 := n1.(lifecycle := Running);
    FinishOn(n, SetStarted, l);
    FinishOn(n1, MarkRunning, l);
    FinishOn(n2, StartMonitor, l);
    FinishOn(n2, Outside, l);
    FinishOn(n2.(monitorRunning := true), SubmitMonitor, l);
    FinishOn(if l.submitted then n2.(monitorRunning := true) else n2.(monitorRunning := false), Outside, l);
  }

  lemma StartIsStart(n: Node, l: Label)
    requires !n.started
    ensures Finish(n, MarkStarting, l) == Start(n, l.busReady, l.submitted).1
  {
    hide Finish;
    hide EvaluateStartup;
    hide Begin;
    var n1 := n.(lifecycle := Starting);
    FinishOn(n, MarkStarting, l);
    FinishOn(n1, Judging, l);
    FinishOn(n1, MarkFaulted, l);
    FinishOn(n1.(lifecycle := Faulted), Outside, l);
    ClearedStartFinishes(n1, l);
  }

  /** An undisturbed call does what HaNode says it does. */
  lemma SoloCallIsApply(n: Node, l: Label)
    requires l.event.StartUp? ==> l.event == StartUp(l.busReady, l.submitted)
    ensures Finish(Begin(n, l.event).1, Begin(n, l.event).0, l) == Apply(n, l.event)
  {
    hide Finish;
    hide Heartbeat;
    hide Tick;
    var (pc, n1) := Begin(n, l.event);
    FinishOn(n1, pc, l);
    if pc.MarkStarting? {
      StartIsStart(n, l);
    } else if pc.MarkStopping? {
      StopIsStop(n, l);
    } else if !pc.Outside? {
      FinishOn(Act(n1, pc, l).1, Outside, l);
    }
    hide EvaluateStartup;
  }

  // ----- role, epoch and peers -----

  /** The two nodes differ at most in lifecycle state, start flag and monitor flag. */
  predicate SameHa(a: Node, b: Node) {
    a.options == b.options && a.buildProfile == b.buildProfile && a.role == b.role && a.epoch == b.epoch && a.peers == b.peers
  }

  /** None of them depends on those three. */
  lemma ApplyRespectsHa(a: Node, b: Node, e: Event)
    requires SameHa(a, b)
    ensures SameHa(Apply(a, e), Apply(b, e))
  {
    hide Heartbeat;
    hide Tick;
    hide EvaluateStartup;
    match e
    case Heard(id, epoch, at) => HeartbeatRespectsHa(a, b, id, epoch, at);
    case Monitor(at) => TickRespectsHa(a, b, at);
    case _ =>
  }

  lemma HeartbeatRespectsHa(a: Node, b: Node, id: string, epoch: nat, at: nat)
    requires SameHa(a, b)
    ensures SameHa(Heartbeat(a, id, epoch, at).1, Heartbeat(b, id, epoch, at).1)
  {
    hide EvaluateAdmission;
    hide Claim;
  }

  lemma TickRespectsHa(a: Node, b: Node, at: nat)
    requires SameHa(a, b)
    ensures SameHa(Tick(a, at), Tick(b, at))
  {
    hide AnyHealthy;
    hide AgeSlots;
  }

  /** A step changes role, epoch and peers as the call it begins does, or not at all. */
  lemma ActIsAnEvent(n: Node, pc: Pc, l: Label)
    ensures var n' := Act(n, pc, l).1;
            SameHa(n', if pc == Outside then Apply(n, l.event) else n)
  {
    hide Heartbeat;
    hide Tick;
    hide EvaluateStartup;
  }

  /** The calls begun in a run, in order: the events of the steps taken by threads outside. */
  function Begun(s: State, schedule: seq<Label>): seq<Event> {
    if schedule == [] then []
    else
      var before, l := schedule[..|schedule| - 1], schedule[|schedule| - 1];
      Begun(s, before) + Begins(Run(s, before), l)
  }

  function Begins(s: State, l: Label): seq<Event> {
    if l.thread < |s.threads| && s.threads[l.thread] == Outside then [l.event] else []
  }

  lemma StepIsItsCall(s: State, n: Node, l: Label)
    requires SameHa(s.node, n)
    ensures SameHa(Step(s, l).node, ApplyAll(n, Begins(s, l)))
  {
    hide Apply;
    hide Act;
    if l.thread < |s.threads| {
      ActIsAnEvent(s.node, s.threads[l.thread], l);
      if s.threads[l.thread] == Outside {
        ApplyRespectsHa(s.node, n, l.event);
        assert [l.event][..0] == [];
        assert ApplyAll(n, [l.event]) == Apply(n, l.event);
      }
    }
  }

  /** In every interleaving role, epoch and peers are those of the calls begun, made whole and one after the other. */
  lemma {:induction false} RunIsASequence(options: Option<Options>, build: Profile, threads: nat, schedule: seq<Label>)
    ensures var s := Boot(options, build, threads);
            SameHa(Run(s, schedule).node, ApplyAll(Create(options, build), Begun(s, schedule)))
  {
    var s := Boot(options, build, threads);
    if schedule != [] {
      var before, l := schedule[..|schedule| - 1], schedule[|schedule| - 1];
      RunIsASequence(options, build, threads, before);
      hide Apply;
      hide Act;
      StepIsItsCall(Run(s, before), ApplyAll(Create(options, build), Begun(s, before)), l);
      ApplyAllConcat(Create(options, build), Begun(s, before), Begins(Run(s, before), l));
    }
  }

  lemma {:induction false} BegunIsScheduled(s: State, schedule: seq<Label>)
    requires forall k :: 0 <= k < |schedule| ==> !schedule[k].event.Assign?
    ensures NoAssignments(Begun(s, schedule))
  {
    if schedule != [] {
      BegunIsScheduled(s, schedule[..|schedule| - 1]);
    }
  }

  /** Hence the epoch fence holds in every interleaving without role assignment. */
  lemma {:induction false} FenceHoldsInterleaved(options: Option<Options>, build: Profile, threads: nat, schedule: seq<Label>)
    requires forall k :: 0 <= k < |schedule| ==> !schedule[k].event.Assign?
    ensures Fenced(Run(Boot(options, build, threads), schedule).node)
  {
    var s := Boot(options, build, threads);
    RunIsASequence(options, build, threads, schedule);
    BegunIsScheduled(s, schedule);
    NodeRunSafe(options, build, Begun(s, schedule));
  }

  // ----- what a started node has passed -----

  ghost predicate AdmissibleInv(s: State) {
    && (s.node.started ==> Admissible(s.node))
    && forall t :: 0 <= t < |s.threads| && s.threads[t].SetStarted? ==> Admissible(s.node)
  }

  lemma ClearedIsAdmissible(n: Node, busReady: bool)
    requires Cleared(n, busReady)
    ensures Admissible(n)
  {
    StartupVerdict(EffectiveProfile(n), n.options.protocol);
  }

  /** Being admissible depends only on what creation fixed, and no step clears the way for another node. */
  lemma ActKeepsAdmissible(n: Node, pc: Pc, l: Label)
    ensures var (pc', n') := Act(n, pc, l);
            && (Admissible(n') <==> Admissible(n))
            && (n'.started ==> n.started || pc == SetStarted)
            && (pc' == SetStarted ==> Admissible(n'))
  {
    ActIsAnEvent(n, pc, l);
    if pc.Outside? {
      ApplyKeepsOptions(n, l.event);
    }
    if pc.Judging? && Cleared(n, l.busReady) {
      ClearedIsAdmissible(n, l.busReady);
    }
    hide Admissible;
    hide Cleared;
  }

  lemma StepKeepsAdmissible(s: State, l: Label)
    requires AdmissibleInv(s)
    ensures AdmissibleInv(Step(s, l))
  {
    if l.thread < |s.threads| {
      ActKeepsAdmissible(s.node, s.threads[l.thread], l);
      hide Act;
      hide Admissible;
    }
  }

  /** In every interleaving a started node is admissible. */
  lemma {:induction false} StartedIsAdmissible(options: Option<Options>, build: Profile, threads: nat, schedule: seq<Label>)
    ensures AdmissibleInv(Run(Boot(options, build, threads), schedule))
  {
    if schedule != [] {
      StartedIsAdmissible(options, build, threads, schedule[..|schedule| - 1]);
      StepKeepsAdmissible(Run(Boot(options, build, threads), schedule[..|schedule| - 1]), schedule[|schedule| - 1]);
    }
  }

  // ----- the lifecycle state -----

  /** Inside start or stop. */
  predicate Switching(pc: Pc) {
    !pc.Outside? && !pc.MarkDegraded? && !pc.MarkElected?
  }

  predicate Up(n: Node) {
    n.lifecycle in {Running, Degraded}
  }

  /** What a thread inside start or stop knows when no other one is. */
  predicate SwitchOk(n: Node, pc: Pc) {
    match pc
    case MarkStarting => !n.started
    case Judging => !n.started
    case MarkFaulted => !n.started
    case SetStarted => !n.started
    case MarkStopped => !n.started
    case StartMonitor => n.started ==> Up(n)
    case SubmitMonitor => n.started ==> Up(n)
    case _ => true
  }

  ghost predicate LifecycleInv(s: State) {
    && (forall t :: 0 <= t < |s.threads| && Switching(s.threads[t]) ==> SwitchOk(s.node, s.threads[t]))
    && (forall t, u :: 0 <= t < |s.threads| && 0 <= u < |s.threads| && Switching(s.threads[t]) && Switching(s.threads[u]) ==> t == u)
    && ((forall t :: 0 <= t < |s.threads| ==> !Switching(s.threads[t])) ==> s.node.started ==> Up(s.node))
  }

  /** The step lets a thread into start or stop while another one is there. */
  predicate Overlaps(s: State, l: Label) {
    && l.thread < |s.threads| && s.threads[l.thread].Outside?
    && (l.event.ShutDown? || (l.event.StartUp? && !s.node.started))
    && exists t :: 0 <= t < |s.threads| && Switching(s.threads[t])
  }

  /** Outside start and stop the flag stays, and the lifecycle state moves only between RUNNING and DEGRADED, or to them. */
  lemma ActKeepsUp(n: Node, pc: Pc, l: Label)
    requires !Switching(pc)
    ensures var (pc', n') := Act(n, pc, l);
            && n'.started == n.started
            && (Up(n) ==> Up(n'))
            && (Switching(pc') ==> pc.Outside? && n' == n && pc' in {MarkStarting, MarkStopping})
            && (pc' == MarkStarting ==> !n.started && l.event.StartUp?)
            && (pc' == MarkStopping ==> l.event.ShutDown?)
  {
    hide AnyHealthy;
    hide AgeSlots;
    hide EvaluateAdmission;
    hide Cleared;
  }

  lemma SwitchStep(n: Node, pc: Pc, l: Label)
    requires Switching(pc) && SwitchOk(n, pc)
    ensures var (pc', n') := Act(n, pc, l);
            if Switching(pc') then SwitchOk(n', pc') else n'.started ==> Up(n')
  {
    hide Cleared;
  }

  /** A step of the one thread inside start or stop. */
  lemma InnerStepKeepsLifecycle(s: State, l: Label)
    requires LifecycleInv(s) && l.thread < |s.threads| && Switching(s.threads[l.thread])
    ensures LifecycleInv(Step(s, l))
  {
    SwitchStep(s.node, s.threads[l.thread], l);
    hide Act;
    hide SwitchOk;
    hide Up;
    var s' := Step(s, l);
    forall t | 0 <= t < |s.threads| && t != l.thread ensures !Switching(s'.threads[t]) {
      assert s'.threads[t] == s.threads[t];
    }
    assert s'.threads[l.thread] == Act(s.node, s.threads[l.thread], l).0;
  }

  lemma OuterStepKeepsLifecycle(s: State, l: Label)
    requires LifecycleInv(s) && l.thread < |s.threads| && !Switching(s.threads[l.thread]) && !Overlaps(s, l)
    ensures LifecycleInv(Step(s, l))
  {
    ActKeepsUp(s.node, s.threads[l.thread], l);
    hide Act;
    var s' := Step(s, l);
    assert s'.threads[l.thread] == Act(s.node, s.threads[l.thread], l).0;
    assert forall t :: 0 <= t < |s.threads| && t != l.thread ==> s'.threads[t] == s.threads[t];
    if Switching(s'.threads[l.thread]) {
      forall t | 0 <= t < |s.threads| && t != l.thread ensures !Switching(s'.threads[t]) {
        assert !Switching(s.threads[t]);
      }
    } else {
      forall t | 0 <= t < |s.threads| && Switching(s'.threads[t]) ensures SwitchOk(s'.node, s'.threads[t]) {
        assert Switching(s.threads[t]) && SwitchOk(s.node, s.threads[t]);
      }
      if forall t :: 0 <= t < |s.threads| ==> !Switching(s'.threads[t]) {
        forall t | 0 <= t < |s.threads| ensures !Switching(s.threads[t]) {
          assert !Switching(s'.threads[t]);
        }
      }
    }
  }

  lemma StepKeepsLifecycle(s: State, l: Label)
    requires LifecycleInv(s) && !Overlaps(s, l)
    ensures LifecycleInv(Step(s, l))
  {
    hide Act;
    hide LifecycleInv;
    if l.thread < |s.threads| {
      if Switching(s.threads[l.thread]) {
        InnerStepKeepsLifecycle(s, l);
      } else {
        OuterStepKeepsLifecycle(s, l);
      }
    }
  }

  ghost predicate NeverOverlaps(s: State, schedule: seq<Label>) {
    forall k :: 0 <= k < |schedule| ==> !Overlaps(Run(s, schedule[..k]), schedule[k])
  }

  /**
   While start and stop never overlap each other or themselves, a started node is RUNNING or
   DEGRADED whenever none of them is under way, however the other calls interleave.
   */
  lemma {:induction false} StartedIsUp(options: Option<Options>, build: Profile, threads: nat, schedule: seq<Label>)
    requires NeverOverlaps(Boot(options, build, threads), schedule)
    ensures var s := Run(Boot(options, build, threads), schedule);
            LifecycleInv(s) && ((forall t :: 0 <= t < |s.threads| ==> !Switching(s.threads[t])) ==> StartedSafely(s.node))
  {
    var s0 := Boot(options, build, threads);
    if schedule != [] {
      var before := schedule[..|schedule| - 1];
      forall k | 0 <= k < |before| ensures !Overlaps(Run(s0, before[..k]), before[k]) {
        assert before[..k] == schedule[..k] && before[k] == schedule[k];
      }
      StartedIsUp(options, build, threads, before);
      assert !Overlaps(Run(s0, schedule[..|schedule| - 1]), schedule[|schedule| - 1]);
      StepKeepsLifecycle(Run(s0, before), schedule[|schedule| - 1]);
    }
    StartedIsAdmissible(options, build, threads, schedule);
  }

  // ----- what an overlap costs -----

  lemma {:induction false} RunConcat(s: State, a: seq<Label>, b: seq<Label>)
    ensures Run(s, a + b) == Run(Run(s, a), b)
  {
    if b == [] {
      assert a + b == a;
    } else {
      assert (a + b)[..|a + b| - 1] == a + b[..|b| - 1];
      RunConcat(s, a, b[..|b| - 1]);
    }
  }

  lemma RunOne(s: State, l: Label)
    ensures Run(s, [l]) == Step(s, l)
  {
    assert [l][..0] == [];
  }

  /** One thread stepping alone finishes its call. */
  lemma {:induction false} FinishIsASchedule(s: State, l: Label) returns (schedule: seq<Label>)
    requires l.thread < |s.threads|
    ensures Run(s, schedule) == State(Finish(s.node, s.threads[l.thread], l), s.threads[l.thread := Outside])
    decreases Rank(s.threads[l.thread])
  {
    var pc := s.threads[l.thread];
    hide Finish;
    FinishOn(s.node, pc, l);
    if pc == Outside {
      schedule := [];
      assert s.threads[l.thread := Outside] == s.threads;
    } else {
      var s' := Step(s, l);
      assert s'.threads[l.thread := Outside] == s.threads[l.thread := Outside];
      assert Rank(s'.threads[l.thread]) < Rank(pc);
      var rest := FinishIsASchedule(s', l);
      RunOne(s, l);
      RunConcat(s, [l], rest);
      schedule := [l] + rest;
    }
  }

  lemma {:induction false} FinishKeepsFixed(n: Node, pc: Pc, l: Label)
    ensures var n' := Finish(n, pc, l); n'.options == n.options && n'.buildProfile == n.buildProfile
    decreases Rank(pc)
  {
    hide Finish;
    FinishOn(n, pc, l);
    if pc != Outside {
      FinishKeepsFixed(Act(n, pc, l).1, Act(n, pc, l).0, l);
      hide Heartbeat;
      hide Tick;
    }
  }

  /** A start that finds the node stopped, the bus ready and the checks passed starts it. */
  lemma WholeStartStarts(n: Node, l: Label)
    requires !n.started && Cleared(n, true) && l.busReady
    ensures Finish(n, MarkStarting, l).started
  {
    StartIsStart(n, l);
    hide Finish;
    hide EvaluateStartup;
  }

  /** A start without a bus faults the node, whatever it was. */
  lemma BuslessStartFaults(n: Node, l: Label)
    requires !l.busReady
    ensures Finish(n, MarkStarting, l) == n.(lifecycle := Faulted)
  {
    hide Finish;
    hide Begin;
    hide EvaluateStartup;
    var n1 := n.(lifecycle := Starting);
    FinishOn(n, MarkStarting, l);
    FinishOn(n1, Judging, l);
    FinishOn(n1, MarkFaulted, l);
    FinishOn(n1.(lifecycle := Faulted), Outside, l);
  }

  /** One thread can finish what it is in and then, if need be, start the node; no other thread moves. */
  lemma ThreadCanStart(s: State, t: nat) returns (schedule: seq<Label>)
    requires t < |s.threads| && Cleared(s.node, true)
    ensures var s' := Run(s, schedule);
            && s'.threads == s.threads[t := Outside] && s'.node.started
            && s'.node.options == s.node.options && s'.node.buildProfile == s.node.buildProfile
  {
    hide Cleared;
    hide Finish;
    var l := Label(t, StartUp(true, true), true, true);
    schedule := FinishIsASchedule(s, l);
    FinishKeepsFixed(s.node, s.threads[t], l);
    var s1 := Run(s, schedule);
    ClearedIsFixed(s.node, s1.node);
    if !s1.node.started {
      var s2 := Step(s1, l);
      assert s2.threads[t] == MarkStarting && s2.node == s1.node;
      var rest := FinishIsASchedule(s2, l);
      WholeStartStarts(s2.node, l);
      FinishKeepsFixed(s2.node, MarkStarting, l);
      RunOne(s1, l);
      RunConcat(s1, [l], rest);
      RunConcat(s, schedule, [l] + rest);
      schedule := schedule + ([l] + rest);
      assert s2.threads[t := Outside] == s.threads[t := Outside];
    }
  }

  lemma ClearedIsFixed(a: Node, b: Node)
    requires a.options == b.options && a.buildProfile == b.buildProfile
    ensures Cleared(a, true) <==> Cleared(b, true)
  {
  }

  /** A start let in beside another switch: once that one is through and the node started, it finds no bus. */
  lemma OverlappingStartFaults(s: State, l: Label, t: nat) returns (rest: seq<Label>)
    requires Overlaps(s, l) && l.event.StartUp? && t < |s.threads| && t != l.thread && Cleared(s.node, true)
    ensures var s' := Run(s, [l] + rest);
            s'.node.started && s'.node.lifecycle == Faulted && s'.threads == s.threads[t := Outside]
  {
    var s1 := Step(s, l);
    assert s1.node == s.node && s1.threads == s.threads[l.thread := MarkStarting];
    hide Cleared;
    hide Finish;
    var a := ThreadCanStart(s1, t);
    var s2 := Run(s1, a);
    var busless := l.(busReady := false);
    var b := FinishIsASchedule(s2, busless);
    BuslessStartFaults(s2.node, busless);
    rest := a + b;
    RunConcat(s1, a, b);
    RunOne(s, l);
    RunConcat(s, [l], rest);
    assert s.threads[l.thread] == Outside;
    assert s2.threads[l.thread := Outside] == s.threads[t := Outside];
  }

  /** A stop let in beside another switch and held up before its last write. */
  lemma OverlappingStopStops(s: State, l: Label, t: nat) returns (rest: seq<Label>)
    requires Overlaps(s, l) && l.event.ShutDown? && t < |s.threads| && t != l.thread && Cleared(s.node, true)
    ensures var s' := Run(s, [l] + rest);
            s'.node.started && s'.node.lifecycle == Stopped && s'.threads == s.threads[t := Outside]
  {
    var s1 := StopUpToLast(s, l);
    ClearedIsFixed(s.node, s1.node);
    hide Cleared;
    hide Finish;
    var a := ThreadCanStart(s1, t);
    var s2 := Run(s1, a);
    assert s2.threads[l.thread] == MarkStopped;
    var s3 := Step(s2, l);
    RunOne(s2, l);
    RunConcat(s1, a, [l]);
    RunConcat(s, [l, l, l, l], a + [l]);
    rest := [l, l, l] + (a + [l]);
    assert [l] + rest == [l, l, l, l] + (a + [l]);
    assert s.threads[l.thread] == Outside;
    assert s3.threads == s.threads[t := Outside];
  }

  lemma StopUpToLast(s: State, l: Label) returns (s4: State)
    requires l.thread < |s.threads| && s.threads[l.thread] == Outside && l.event.ShutDown?
    ensures s4 == State(s.node.(lifecycle := Stopping, monitorRunning := false, started := false),
                        s.threads[l.thread := MarkStopped])
    ensures Run(s, [l, l, l, l]) == s4
  {
    hide Cleared;
    var t := l.thread;
    var s1 := Step(s, l);
    assert s1 == State(s.node, s.threads[t := MarkStopping]);
    var s2 := Step(s1, l);
    assert s2.threads == s.threads[t := StopMonitor];
    var s3 := Step(s2, l);
    assert s3.threads == s.threads[t := ClearStarted];
    s4 := Step(s3, l);
    assert s4.threads == s.threads[t := MarkStopped];
    hide Step;
    RunOne(s, l);
    RunOne(s1, l);
    RunOne(s2, l);
    RunOne(s3, l);
    RunConcat(s, [l], [l]);
    RunConcat(s, [l] + [l], [l]);
    RunConcat(s, [l] + [l] + [l], [l]);
    assert [l] + [l] + [l] + [l] == [l, l, l, l];
  }

  /**
   The other half of `StartedIsUp`: on a node that can be started at all, every overlap can
   end, without any third thread, with both calls done, the node started and its state
   neither RUNNING nor DEGRADED.
   */
  lemma OverlapCanEndBadly(s: State, l: Label) returns (t: nat, rest: seq<Label>)
    requires Overlaps(s, l) && Cleared(s.node, true)
    ensures t < |s.threads| && t != l.thread && Switching(s.threads[t])
    ensures var s' := Run(s, [l] + rest);
            s'.threads == s.threads[t := Outside] && s'.node.started && !Up(s'.node) && !StartedSafely(s'.node)
  {
    t :| 0 <= t < |s.threads| && Switching(s.threads[t]);
    assert t != l.thread;
    if l.event.StartUp? {
      rest := OverlappingStartFaults(s, l, t);
    } else {
      rest := OverlappingStopStops(s, l, t);
    }
  }

  /** From creation: a stop and a start overlap and leave the node started, yet not up. */
  lemma StartedCanBeDown(options: Option<Options>, build: Profile, stop: Label, start: Label) returns (schedule: seq<Label>)
    requires Cleared(Create(options, build), true)
    requires stop.thread == 0 && stop.event.ShutDown? && start.thread == 1 && start.event.StartUp?
    ensures var s := Run(Boot(options, build, 2), schedule);
            s.threads == [Outside, Outside] && s.node.started && !Up(s.node)
  {
    var s0 := Boot(options, build, 2);
    assert s0.threads == [Outside, Outside] && !s0.node.started;
    hide Create;
    hide Cleared;
    var s1 := Step(s0, stop);
    assert s1 == State(s0.node, [MarkStopping, Outside]);
    assert Switching(s1.threads[0]);
    var t, rest := OverlapCanEndBadly(s1, start);
    RunOne(s0, stop);
    RunConcat(s0, [stop], [start] + rest);
    schedule := [stop] + ([start] + rest);
  }
}
