/**
 The port table shared by processes, as a state machine over the atomic steps of its
 threads.  Processes may die at any point, also between taking an entry and giving it back.
 Socket probes, lock files and the outcome of doubtful liveness checks are choices, so what
 holds here holds whatever they answer; PortLocks.dfy adds the lock files themselves.
 */
module Ports {
  const MIN_PORT: int := 13800
  const MAX_PORT: int := 15800
  const TABLE_SIZE: nat := 2001

  type Pid = nat

  /** Entry of a port that nobody has. */
  const FREE: Pid := 0

  predicate InTable(port: int) {
    MIN_PORT <= port <= MAX_PORT
  }

  predicate ValidRange(min: int, max: int) {
    min <= max && 1024 <= min && max <= 65535
  }

  /** An entry may be taken when it is free or its process is known to be gone. */
  predicate Claimable(entry: Pid, seemsAlive: bool) {
    entry == FREE || !seemsAlive
  }

  function Claim(table: seq<Pid>, port: int, pid: Pid, seemsAlive: bool): (bool, seq<Pid>)
    requires |table| == TABLE_SIZE
  {
    if InTable(port) && Claimable(table[port - MIN_PORT], seemsAlive)
    then (true, table[port - MIN_PORT := pid])
    else (false, table)
  }

  /** Only the owner can clear an entry. */
  function Clear(table: seq<Pid>, port: int, pid: Pid): seq<Pid>
    requires |table| == TABLE_SIZE
  {
    if InTable(port) && table[port - MIN_PORT] == pid then table[port - MIN_PORT := FREE] else table
  }

  // ----- the machine -----

  datatype Pc =
    | Idle
    | Scanning(port: int, max: int)
    | Taken(port: int, max: int)

  datatype Thread = Thread(pid: Pid, pc: Pc)

  /** `held` are the ports each process was given and has not released. */
  datatype State = State(table: seq<Pid>, alive: set<Pid>, threads: seq<Thread>, held: set<(Pid, int)>)

  datatype Action =
    | Begin(t: nat, min: int, max: int)
    | Attempt(t: nat, inUse: bool, doubt: bool)
    | Confirm(t: nat, locked: bool, inUse: bool)
    | Release(t: nat, port: int)
    | Die(pid: Pid)

  predicate Runs(s: State, t: nat) {
    t < |s.threads| && s.threads[t].pid in s.alive
  }

  function Next(port: int, max: int): Pc {
    if port < max then Scanning(port + 1, max) else Idle
  }

  function Goto(s: State, t: nat, pc: Pc): State
    requires t < |s.threads|
  {
    s.(threads := s.threads[t := s.threads[t].(pc := pc)])
  }

  /** A liveness check never declares a live process dead; it may be in doubt about a dead one. */
  predicate SeemsAlive(s: State, entry: Pid, doubt: bool) {
    entry != FREE && (entry in s.alive || doubt)
  }

  function EntryOf(s: State, port: int): Pid
    requires |s.table| == TABLE_SIZE
  {
    if InTable(port) then s.table[port - MIN_PORT] else FREE
  }

  /** Probe, then claim under the table's lock. */
  function AttemptStep(s: State, t: nat, inUse: bool, doubt: bool): State
    requires |s.table| == TABLE_SIZE && t < |s.threads| && s.threads[t].pc.Scanning?
  {
    var Scanning(port, max) := s.threads[t].pc;
    var (taken, table) := Claim(s.table, port, s.threads[t].pid, SeemsAlive(s, EntryOf(s, port), doubt));
    if inUse || !taken then Goto(s, t, Next(port, max))
    else Goto(s, t, Taken(port, max)).(table := table)
  }

  /** Lock and probe again; on failure give the entry back and go on. */
  function ConfirmStep(s: State, t: nat, locked: bool, inUse: bool): State
    requires |s.table| == TABLE_SIZE && t < |s.threads| && s.threads[t].pc.Taken?
  {
    var Thread(pid, Taken(port, max)) := s.threads[t];
    if locked && !inUse then Goto(s, t, Idle).(held := s.held + {(pid, port)})
    else Goto(s, t, Next(port, max)).(table := Clear(s.table, port, pid))
  }

  /** Thread t is about to be given the port. */
  predicate ClaimedBy(s: State, t: nat, port: int)
    requires t < |s.threads|
  {
    s.threads[t].pc.Taken? && s.threads[t].pc.port == port
  }

  /** No thread of the same process is in the middle of getting the port. */
  predicate MayRelease(s: State, t: nat, port: int)
    requires t < |s.threads|
  {
    forall u :: 0 <= u < |s.threads| && s.threads[u].pid == s.threads[t].pid ==> !ClaimedBy(s, u, port)
  }

  function ReleaseStep(s: State, t: nat, port: int): State
    requires |s.table| == TABLE_SIZE && t < |s.threads|
  {
    s.(table := Clear(s.table, port, s.threads[t].pid), held := s.held - {(s.threads[t].pid, port)})
  }

  function Step(s: State, action: Action): (s': State)
    requires |s.table| == TABLE_SIZE
    ensures |s'.table| == TABLE_SIZE
  {
    match action
    case Begin(t, min, max) =>
      if Runs(s, t) && s.threads[t].pc.Idle? && ValidRange(min, max) then Goto(s, t, Scanning(min, max)) else s
    case Attempt(t, inUse, doubt) =>
      if Runs(s, t) && s.threads[t].pc.Scanning? then AttemptStep(s, t, inUse, doubt) else s
    case Confirm(t, locked, inUse) =>
      if Runs(s, t) && s.threads[t].pc.Taken? then ConfirmStep(s, t, locked, inUse) else s
    case Release(t, port) =>
      if Runs(s, t) && s.threads[t].pc.Idle? then ReleaseStep(s, t, port) else s
    case Die(pid) => s.(alive := s.alive - {pid})
  }

  // ----- the invariant of one port -----

  predicate Owns(s: State, pid: Pid, port: int)
    requires |s.table| == TABLE_SIZE
  {
    InTable(port) && EntryOf(s, port) == pid
  }

  /** A claim in flight is owned, not given out yet, and nobody else's. */
  ghost predicate ClaimOk(s: State, t: nat, port: int)
    requires |s.table| == TABLE_SIZE && t < |s.threads|
  {
    && Owns(s, s.threads[t].pid, port)
    && (s.threads[t].pid, port) !in s.held
    && forall u :: 0 <= u < |s.threads| && u != t && s.threads[u].pid == s.threads[t].pid ==> !ClaimedBy(s, u, port)
  }

  ghost predicate HeldOk(s: State, port: int)
    requires |s.table| == TABLE_SIZE
  {
    forall pid :: pid in s.alive && (pid, port) in s.held ==> Owns(s, pid, port)
  }

  ghost predicate ClaimsOk(s: State, port: int)
    requires |s.table| == TABLE_SIZE
  {
    forall t :: Runs(s, t) && ClaimedBy(s, t, port) ==> ClaimOk(s, t, port)
  }

  ghost predicate Inv(s: State, port: int) {
    && |s.table| == TABLE_SIZE
    && FREE !in s.alive
    && HeldOk(s, port)
    && ClaimsOk(s, port)
  }

  /** Stale entries of processes that are gone may be left over from earlier. */
  ghost predicate Init(s: State) {
    && |s.table| == TABLE_SIZE
    && FREE !in s.alive
    && s.held == {}
    && (forall t :: 0 <= t < |s.threads| ==> s.threads[t].pc.Idle?)
    && forall i :: 0 <= i < |s.table| ==> s.table[i] !in s.alive
  }

  lemma InitHolds(s: State, port: int)
    requires Init(s)
    ensures Inv(s, port)
  {
  }

  /** A step that leaves the port's entry and holders alone and makes no claim on it keeps its invariant. */
  lemma ElsewhereKeepsInv(s: State, s': State, port: int)
    requires Inv(s, port) && |s'.table| == TABLE_SIZE && |s'.threads| == |s.threads| && s'.alive <= s.alive
    requires EntryOf(s', port) == EntryOf(s, port)
    requires forall pid :: (pid, port) in s'.held <==> (pid, port) in s.held
    requires forall t :: 0 <= t < |s.threads| ==> s'.threads[t].pid == s.threads[t].pid
    requires forall t :: 0 <= t < |s.threads| && ClaimedBy(s', t, port) ==> ClaimedBy(s, t, port)
    ensures Inv(s', port)
  {
    forall pid | pid in s'.alive && (pid, port) in s'.held ensures Owns(s', pid, port) {
      assert Owns(s, pid, port);
    }
    forall t: nat | Runs(s', t) && ClaimedBy(s', t, port) ensures ClaimOk(s', t, port) {
      assert Runs(s, t) && ClaimedBy(s, t, port) && ClaimOk(s, t, port);
      forall u | 0 <= u < |s.threads| && u != t && s.threads[u].pid == s.threads[t].pid ensures !ClaimedBy(s', u, port) {
        assert !ClaimedBy(s, u, port);
      }
    }
  }

  /** What makes a takeover safe: a claimable entry is nobody's live claim. */
  lemma ClaimableIsUnclaimed(s: State, port: int, doubt: bool)
    requires Inv(s, port) && InTable(port) && Claimable(EntryOf(s, port), SeemsAlive(s, EntryOf(s, port), doubt))
    ensures EntryOf(s, port) !in s.alive
    ensures forall pid :: pid in s.alive ==> (pid, port) !in s.held
    ensures forall t :: Runs(s, t) ==> !ClaimedBy(s, t, port)
  {
    forall pid | pid in s.alive ensures (pid, port) !in s.held {
      assert (pid, port) in s.held ==> Owns(s, pid, port);
    }
    forall t | Runs(s, t) ensures !ClaimedBy(s, t, port) {
      assert ClaimedBy(s, t, port) ==> ClaimOk(s, t, port);
    }
  }

  /** Taking an unclaimed entry makes one claim in order. */
  lemma TakingKeepsInv(s: State, t: nat, port: int, max: int, doubt: bool)
    requires Inv(s, port) && Runs(s, t) && InTable(port)
    requires Claimable(EntryOf(s, port), SeemsAlive(s, EntryOf(s, port), doubt))
    ensures Inv(Goto(s, t, Taken(port, max)).(table := s.table[port - MIN_PORT := s.threads[t].pid]), port)
  {
    ClaimableIsUnclaimed(s, port, doubt);
    var s' := Goto(s, t, Taken(port, max)).(table := s.table[port - MIN_PORT := s.threads[t].pid]);
    forall u: nat | Runs(s', u) && ClaimedBy(s', u, port) ensures ClaimOk(s', u, port) {
      assert u != t ==> Runs(s, u) && ClaimedBy(s, u, port);
      forall v | 0 <= v < |s.threads| && v != t && s.threads[v].pid == s.threads[t].pid ensures !ClaimedBy(s', v, port) {
        assert Runs(s, v);
      }
    }
  }

  lemma AttemptKeepsInv(s: State, t: nat, inUse: bool, doubt: bool, port: int)
    requires Inv(s, port) && Runs(s, t) && s.threads[t].pc.Scanning?
    ensures Inv(AttemptStep(s, t, inUse, doubt), port)
  {
    var Scanning(p, max) := s.threads[t].pc;
    var taken := Claim(s.table, p, s.threads[t].pid, SeemsAlive(s, EntryOf(s, p), doubt)).0;
    if !inUse && taken && p == port {
      TakingKeepsInv(s, t, port, max, doubt);
    } else {
      ElsewhereKeepsInv(s, AttemptStep(s, t, inUse, doubt), port);
    }
  }

  lemma ConfirmKeepsInv(s: State, t: nat, locked: bool, inUse: bool, port: int)
    requires Inv(s, port) && Runs(s, t) && s.threads[t].pc.Taken?
    ensures Inv(ConfirmStep(s, t, locked, inUse), port)
  {
    if s.threads[t].pc.port == port {
      ConfirmOwnKeepsInv(s, t, locked, inUse, port);
    } else {
      ElsewhereKeepsInv(s, ConfirmStep(s, t, locked, inUse), port);
    }
  }

  /** Keeping or giving back an own claim touches no other process's. */
  lemma ConfirmOwnKeepsInv(s: State, t: nat, locked: bool, inUse: bool, port: int)
    requires Inv(s, port) && Runs(s, t) && ClaimedBy(s, t, port)
    ensures Inv(ConfirmStep(s, t, locked, inUse), port)
  {
    var s' := ConfirmStep(s, t, locked, inUse);
    assert ClaimOk(s, t, port);
    forall q | q in s'.alive && (q, port) in s'.held ensures Owns(s', q, port) {
      assert (q, port) in s.held ==> Owns(s, q, port);
    }
    forall u: nat | Runs(s', u) ensures !ClaimedBy(s', u, port) {
      assert u != t && ClaimedBy(s, u, port) ==> ClaimOk(s, u, port);
    }
  }

  /** A release that races with an allocation of the same process: one of its threads is about to get the port. */
  predicate Races(s: State, action: Action, port: int) {
    && action.Release? && action.port == port
    && Runs(s, action.t) && s.threads[action.t].pc.Idle?
    && !MayRelease(s, action.t, port)
  }

  lemma ReleaseKeepsInv(s: State, t: nat, port: int)
    requires Inv(s, port) && Runs(s, t) && MayRelease(s, t, port)
    ensures Inv(ReleaseStep(s, t, port), port)
  {
    var s' := ReleaseStep(s, t, port);
    forall q | q in s'.alive && (q, port) in s'.held ensures Owns(s', q, port) {
      assert Owns(s, q, port);
    }
    forall u: nat | Runs(s', u) && ClaimedBy(s', u, port) ensures ClaimOk(s', u, port) {
      assert Runs(s, u) && ClaimedBy(s, u, port) && ClaimOk(s, u, port);
    }
  }

  lemma RacingReleaseBreaksInv(s: State, t: nat, port: int)
    requires Inv(s, port) && Runs(s, t) && !MayRelease(s, t, port)
    ensures !Inv(ReleaseStep(s, t, port), port)
  {
    var u :| 0 <= u < |s.threads| && s.threads[u].pid == s.threads[t].pid && ClaimedBy(s, u, port);
    var s' := ReleaseStep(s, t, port);
    assert Runs(s, u) && ClaimOk(s, u, port);
    assert Runs(s', u) && ClaimedBy(s', u, port) && !ClaimOk(s', u, port);
  }

  /** Every step and every death keeps a port's invariant, exactly unless it is a racing release of that port. */
  lemma StepKeepsInvIff(s: State, action: Action, port: int)
    requires Inv(s, port)
    ensures Inv(Step(s, action), port) <==> !Races(s, action, port)
  {
    match action
    case Begin(t, min, max) => ElsewhereKeepsInv(s, Step(s, action), port);
    case Attempt(t, inUse, doubt) =>
      if Runs(s, t) && s.threads[t].pc.Scanning? {
        AttemptKeepsInv(s, t, inUse, doubt, port);
      }
    case Confirm(t, locked, inUse) =>
      if Runs(s, t) && s.threads[t].pc.Taken? {
        ConfirmKeepsInv(s, t, locked, inUse, port);
      }
    case Release(t, p) =>
      if Runs(s, t) && s.threads[t].pc.Idle? {
        ReleaseKeepsInvIff(s, t, p, port);
      }
    case Die(pid) => ElsewhereKeepsInv(s, Step(s, action), port);
  }

  lemma ReleaseKeepsInvIff(s: State, t: nat, p: int, port: int)
    requires Inv(s, port) && Runs(s, t)
    ensures Inv(ReleaseStep(s, t, p), port) <==> p != port || MayRelease(s, t, port)
  {
    if p != port {
      ElsewhereKeepsInv(s, ReleaseStep(s, t, p), port);
    } else if MayRelease(s, t, port) {
      ReleaseKeepsInv(s, t, port);
    } else {
      RacingReleaseBreaksInv(s, t, port);
    }
  }

  // ----- whole runs -----

  function Run(s: State, schedule: seq<Action>): (r: State)
    requires |s.table| == TABLE_SIZE
    ensures |r.table| == TABLE_SIZE
  {
    if schedule == [] then s else Step(Run(s, schedule[..|schedule| - 1]), schedule[|schedule| - 1])
  }

  /** No release of the port races with an allocation of it by the same process. */
  ghost predicate NeverRaces(s: State, schedule: seq<Action>, port: int)
    requires |s.table| == TABLE_SIZE
  {
    forall k :: 0 <= k < |schedule| ==> !Races(Run(s, schedule[..k]), schedule[k], port)
  }

  lemma PrefixNeverRaces(s: State, schedule: seq<Action>, port: int)
    requires |s.table| == TABLE_SIZE && schedule != [] && NeverRaces(s, schedule, port)
    ensures NeverRaces(s, schedule[..|schedule| - 1], port)
    ensures !Races(Run(s, schedule[..|schedule| - 1]), schedule[|schedule| - 1], port)
  {
    var before := schedule[..|schedule| - 1];
    forall k | 0 <= k < |before| ensures !Races(Run(s, before[..k]), before[k], port) {
      assert before[..k] == schedule[..k] && before[k] == schedule[k];
    }
  }

  lemma {:induction false} RunKeepsInv(s: State, schedule: seq<Action>, port: int)
    requires Inv(s, port) && NeverRaces(s, schedule, port)
    ensures Inv(Run(s, schedule), port)
  {
    if schedule != [] {
      PrefixNeverRaces(s, schedule, port);
      RunKeepsInv(s, schedule[..|schedule| - 1], port);
      StepKeepsInvIff(Run(s, schedule[..|schedule| - 1]), schedule[|schedule| - 1], port);
    }
  }

  /** The invariant holds all along a run exactly when no release of the port races in it. */
  lemma RunSafeIff(s: State, schedule: seq<Action>, port: int)
    requires Inv(s, port)
    ensures (forall k :: 0 <= k <= |schedule| ==> Inv(Run(s, schedule[..k]), port)) <==> NeverRaces(s, schedule, port)
  {
    if NeverRaces(s, schedule, port) {
      forall k | 0 <= k <= |schedule| ensures Inv(Run(s, schedule[..k]), port) {
        forall j | 0 <= j < k ensures !Races(Run(s, schedule[..k][..j]), schedule[..k][j], port) {
          assert schedule[..k][..j] == schedule[..j];
        }
        RunKeepsInv(s, schedule[..k], port);
      }
    }
    if forall k :: 0 <= k <= |schedule| ==> Inv(Run(s, schedule[..k]), port) {
      forall k | 0 <= k < |schedule| ensures !Races(Run(s, schedule[..k]), schedule[k], port) {
        assert schedule[..k + 1][..k] == schedule[..k];
        assert Inv(Run(s, schedule[..k]), port) && Inv(Run(s, schedule[..k + 1]), port);
        StepKeepsInvIff(Run(s, schedule[..k]), schedule[k], port);
      }
    }
  }

  /**
   In every run in which no release of the port races with an allocation of it by the same
   process: no two live processes hold the port, its entry names its holder, and no thread is
   about to get it while a live process holds it or another live thread is about to get it.
   */
  lemma MutualExclusion(s: State, schedule: seq<Action>, p: Pid, q: Pid, port: int)
    requires Init(s) && NeverRaces(s, schedule, port)
    ensures var r := Run(s, schedule);
            && (p in r.alive && (p, port) in r.held ==> Owns(r, p, port))
            && ({p, q} <= r.alive && (p, port) in r.held && (q, port) in r.held ==> p == q)
            && (forall t, u :: Runs(r, t) && Runs(r, u) && ClaimedBy(r, t, port) && ClaimedBy(r, u, port) ==> t == u)
            && (forall t :: Runs(r, t) && ClaimedBy(r, t, port) && p in r.alive ==> (p, port) !in r.held)
  {
    InitHolds(s, port);
    RunKeepsInv(s, schedule, port);
    var r := Run(s, schedule);
    forall t, u | Runs(r, t) && Runs(r, u) && ClaimedBy(r, t, port) && ClaimedBy(r, u, port) ensures t == u {
      assert ClaimOk(r, t, port) && ClaimOk(r, u, port);
    }
    forall t | Runs(r, t) && ClaimedBy(r, t, port) && p in r.alive ensures (p, port) !in r.held {
      assert ClaimOk(r, t, port);
    }
  }

  // ----- who changes an entry -----

  /** The process whose thread a step belongs to. */
  predicate Steps(s: State, action: Action, pid: Pid) {
    !action.Die? && Runs(s, action.t) && s.threads[action.t].pid == pid
  }

  /** The entry of a live process changes only to free, in a step of that process. */
  lemma LiveEntriesAreTheirOwners(s: State, action: Action, i: nat)
    requires |s.table| == TABLE_SIZE && FREE !in s.alive && i < TABLE_SIZE
    requires s.table[i] in s.alive && Step(s, action).table[i] != s.table[i]
    ensures Steps(s, action, s.table[i]) && Step(s, action).table[i] == FREE
    ensures action.Release? || action.Confirm?
  {
  }

  /** An entry only ever comes to name a process that is alive and steps. */
  lemma EntriesAreTakenByTheLiving(s: State, action: Action, i: nat)
    requires |s.table| == TABLE_SIZE && FREE !in s.alive && i < TABLE_SIZE && Step(s, action).table[i] != s.table[i]
    ensures Step(s, action).table[i] == FREE || (Steps(s, action, Step(s, action).table[i]) && s.table[i] !in s.alive)
  {
  }

  /** A port whose owner is gone or that nobody has is given to the first thread that finds it unused and locks it. */
  lemma StalePortIsGranted(s: State, t: nat)
    requires |s.table| == TABLE_SIZE && FREE !in s.alive && Runs(s, t) && s.threads[t].pc.Scanning?
    requires InTable(s.threads[t].pc.port) && EntryOf(s, s.threads[t].pc.port) !in s.alive
    ensures var pid, port := s.threads[t].pid, s.threads[t].pc.port;
            var s' := Step(Step(s, Attempt(t, false, false)), Confirm(t, true, false));
            && Owns(s', pid, port) && s'.held == s.held + {(pid, port)}
            && s'.threads == s.threads[t := Thread(pid, Idle)]
            && (forall i :: 0 <= i < TABLE_SIZE && i != port - 13800 ==> s'.table[i] == s.table[i])
  {
  }

  /** A search of the given range that finds the next `tries` ports in use. */
  function Refused(t: nat, min: int, max: int, tries: nat): seq<Action> {
    if tries == 0 then [Begin(t, min, max)] else Refused(t, min, max, tries - 1) + [Attempt(t, true, false)]
  }

  /** The search starts for every range within 1024 and 65535, tries its ports in order and leaves off after the last. */
  lemma {:induction false} SearchGoesOn(s: State, t: nat, min: int, max: int, tries: nat)
    requires |s.table| == TABLE_SIZE && Runs(s, t) && s.threads[t].pc.Idle?
    requires 1024 <= min <= max <= 65535 && min + tries <= max + 1
    ensures var s' := Run(s, Refused(t, min, max, tries));
            && s'.table == s.table && s'.held == s.held && s'.alive == s.alive
            && s'.threads == s.threads[t := Thread(s.threads[t].pid, if min + tries <= max then Scanning(min + tries, max) else Idle)]
  {
    if tries == 0 {
      assert [Begin(t, min, max)][..0] == [];
      assert Run(s, []) == s;
    } else {
      var before := Refused(t, min, max, tries - 1);
      SearchGoesOn(s, t, min, max, tries - 1);
      assert (before + [Attempt(t, true, false)])[..|before|] == before;
    }
  }

  /** Any other range is refused. */
  lemma BadRangeIsRefused(s: State, t: nat, min: int, max: int)
    requires |s.table| == TABLE_SIZE && !(1024 <= min <= max <= 65535)
    ensures Step(s, Begin(t, min, max)) == s
  {
  }

  /** A released port is free for everyone, and only that port. */
  lemma ReleasedPortIsFree(s: State, t: nat, port: int)
    requires |s.table| == TABLE_SIZE && Runs(s, t) && s.threads[t].pc.Idle? && Owns(s, s.threads[t].pid, port)
    ensures var s' := Step(s, Release(t, port));
            && EntryOf(s', port) == FREE && s'.held == s.held - {(s.threads[t].pid, port)} && s'.threads == s.threads
            && (forall i :: 0 <= i < TABLE_SIZE && i != port - 13800 ==> s'.table[i] == s.table[i])
  {
  }

  /** Nobody but the owner can release: another process leaves the entry as it is. */
  lemma OnlyTheOwnerReleases(s: State, t: nat, port: int)
    requires |s.table| == TABLE_SIZE && t < |s.threads| && EntryOf(s, port) != s.threads[t].pid
    ensures Step(s, Release(t, port)).table == s.table
  {
  }

  predicate Releases(s: State, action: Action, pid: Pid, port: int) {
    action.Release? && action.port == port && action.t < |s.threads| && s.threads[action.t].pid == pid
  }

  lemma {:induction false} ThreadsStay(s: State, schedule: seq<Action>, t: nat)
    requires |s.table| == TABLE_SIZE
    ensures |Run(s, schedule).threads| == |s.threads|
    ensures t < |s.threads| ==> Run(s, schedule).threads[t].pid == s.threads[t].pid
  {
    if schedule != [] {
      ThreadsStay(s, schedule[..|schedule| - 1], t);
    }
  }

  /** What a process holds, it keeps until it dies or releases it itself. */
  lemma {:induction false} HoldingsPersist(s: State, schedule: seq<Action>, pid: Pid, port: int)
    requires Inv(s, port) && NeverRaces(s, schedule, port)
    requires (pid, port) in s.held && pid in Run(s, schedule).alive
    requires forall k :: 0 <= k < |schedule| ==> !Releases(s, schedule[k], pid, port)
    ensures (pid, port) in Run(s, schedule).held && Owns(Run(s, schedule), pid, port)
  {
    RunKeepsInv(s, schedule, port);
    if schedule != [] {
      var before := schedule[..|schedule| - 1];
      assert forall k :: 0 <= k < |before| ==> before[k] == schedule[k];
      assert pid in Run(s, before).alive;
      PrefixNeverRaces(s, schedule, port);
      HoldingsPersist(s, before, pid, port);
      var last := schedule[|schedule| - 1];
      assert !Releases(s, last, pid, port);
      if last.Release? {
        ThreadsStay(s, before, last.t);
      }
    }
  }
}
