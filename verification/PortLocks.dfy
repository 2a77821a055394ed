/**
 The machine of Ports.dfy with the lock files.  `base` is that machine's state; beside it
 each thread has a stage within its allocation or release, a port's path may lead to a file,
 and a file may be locked by a process.  As with record locks, a process locks a file again
 that it has locked before, and closing any descriptor of the file drops its lock; as with
 unlinked files, a path that was removed leads to a new file the next time it is opened.
 */
module PortLocks {
  import opened Ports

  type File = nat

  datatype Stage =
    | Quiet
    // a thread that has taken an entry
    | Opening
    | Locking(file: File)
    | Probing(file: File)
    | Closing(file: File)
    | Unlinking
    | Clearing
    // a thread that has cleared the entry of a port it releases
    | DropOpening(port: int)
    | DropLocking(port: int, file: File)
    | DropClosing(port: int, file: File)
    | DropUnlinking(port: int)

  datatype Fine = Fine(base: State, stages: seq<Stage>, files: map<int, File>, locks: map<File, Pid>, nextFile: File)

  /** `Go` is the next system call of a thread inside an allocation or release; `ok` and `inUse` are its answers. */
  datatype Move =
    | Enter(t: nat, min: int, max: int)
    | Try(t: nat, inUse: bool, doubt: bool)
    | Go(t: nat, ok: bool, inUse: bool)
    | Give(t: nat, port: int)
    | Perish(pid: Pid)

  predicate Shaped(s: Fine) {
    |s.base.table| == TABLE_SIZE && |s.stages| == |s.base.threads|
  }

  function PidOf(s: Fine, t: nat): Pid
    requires t < |s.base.threads|
  {
    s.base.threads[t].pid
  }

  function SetStage(s: Fine, t: nat, stage: Stage): Fine
    requires t < |s.stages|
  {
    s.(stages := s.stages[t := stage])
  }

  // ----- files and locks -----

  function FileAt(s: Fine, port: int): File {
    if port in s.files then s.files[port] else s.nextFile
  }

  /** Opening creates the file if the path leads nowhere. */
  function Opened(s: Fine, port: int): Fine {
    s.(files := s.files[port := FileAt(s, port)], nextFile := if port in s.files then s.nextFile else s.nextFile + 1)
  }

  /** The lock is free, the process's own, or that of a process that is gone. */
  predicate Lockable(s: Fine, file: File, pid: Pid) {
    file in s.locks ==> s.locks[file] == pid || s.locks[file] !in s.base.alive
  }

  function Locked(s: Fine, file: File, pid: Pid): Fine {
    s.(locks := s.locks[file := pid])
  }

  /** Closing a descriptor drops the process's lock on the file, whichever descriptor took it. */
  function Closed(s: Fine, file: File, pid: Pid): Fine {
    if file in s.locks && s.locks[file] == pid then s.(locks := s.locks - {file}) else s
  }

  function Unlinked(s: Fine, port: int): Fine {
    s.(files := s.files - {port})
  }

  // ----- steps -----

  function AllocationStep(s: Fine, t: nat, ok: bool, inUse: bool): (s': Fine)
    requires Shaped(s) && Runs(s.base, t) && s.base.threads[t].pc.Taken?
    ensures Shaped(s')
  {
    var port, pid := s.base.threads[t].pc.port, PidOf(s, t);
    match s.stages[t]
    case Opening => if ok then SetStage(Opened(s, port), t, Locking(FileAt(s, port))) else SetStage(s, t, Clearing)
    case Locking(f) =>
      if ok && Lockable(s, f, pid) then SetStage(Locked(s, f, pid), t, Probing(f))
      else SetStage(Closed(s, f, pid), t, Clearing)
    case Probing(f) =>
      if inUse then SetStage(s, t, Closing(f))
      else SetStage(s.(base := Step(s.base, Confirm(t, true, false))), t, Quiet)
    case Closing(f) => SetStage(Closed(s, f, pid), t, Unlinking)
    case Unlinking => SetStage(Unlinked(s, port), t, Clearing)
    case Clearing => SetStage(s.(base := Step(s.base, Confirm(t, false, false))), t, Quiet)
    case _ => s
  }

  /** After clearing the entry a release locks the file only to close and remove it. */
  function ReleaseTail(s: Fine, t: nat, ok: bool): (s': Fine)
    requires Shaped(s) && Runs(s.base, t)
    ensures Shaped(s')
  {
    var pid := PidOf(s, t);
    match s.stages[t]
    case DropOpening(port) =>
      if ok then SetStage(Opened(s, port), t, DropLocking(port, FileAt(s, port))) else SetStage(s, t, Quiet)
    case DropLocking(port, f) =>
      if ok && Lockable(s, f, pid) then SetStage(Locked(s, f, pid), t, DropClosing(port, f))
      else SetStage(Closed(s, f, pid), t, Quiet)
    case DropClosing(port, f) => SetStage(Closed(s, f, pid), t, DropUnlinking(port))
    case DropUnlinking(port) => SetStage(Unlinked(s, port), t, Quiet)
    case _ => s
  }

  predicate Ready(s: Fine, t: nat)
    requires Shaped(s)
  {
    Runs(s.base, t) && s.stages[t].Quiet?
  }

  function TryStep(s: Fine, t: nat, inUse: bool, doubt: bool): (s': Fine)
    requires Shaped(s) && Ready(s, t)
    ensures Shaped(s')
  {
    var s' := s.(base := Step(s.base, Attempt(t, inUse, doubt)));
    if s.base.threads[t].pc.Scanning? && s'.base.threads[t].pc.Taken? then SetStage(s', t, Opening) else s'
  }

  function FineStep(s: Fine, m: Move): (s': Fine)
    requires Shaped(s)
    ensures Shaped(s')
  {
    match m
    case Enter(t, min, max) => if Ready(s, t) then s.(base := Step(s.base, Begin(t, min, max))) else s
    case Try(t, inUse, doubt) => if Ready(s, t) then TryStep(s, t, inUse, doubt) else s
    case Go(t, ok, inUse) =>
      if !Runs(s.base, t) then s
      else if s.base.threads[t].pc.Taken? then AllocationStep(s, t, ok, inUse)
      else ReleaseTail(s, t, ok)
    case Give(t, port) =>
      if Ready(s, t) && s.base.threads[t].pc.Idle?
      then SetStage(s.(base := Step(s.base, Release(t, port))), t, DropOpening(port))
      else s
    case Perish(pid) => s.(base := Step(s.base, Die(pid)))
  }

  function FineRun(s: Fine, schedule: seq<Move>): (r: Fine)
    requires Shaped(s)
    ensures Shaped(r)
  {
    if schedule == [] then s else FineStep(FineRun(s, schedule[..|schedule| - 1]), schedule[|schedule| - 1])
  }

  // ----- refinement -----

  /** The step of the coarse machine a move amounts to, if any. */
  function Coarse(s: Fine, m: Move): seq<Action>
    requires Shaped(s)
  {
    match m
    case Enter(t, min, max) => if Ready(s, t) then [Begin(t, min, max)] else []
    case Try(t, inUse, doubt) => if Ready(s, t) then [Attempt(t, inUse, doubt)] else []
    case Go(t, ok, inUse) =>
      if !(Runs(s.base, t) && s.base.threads[t].pc.Taken?) then []
      else if s.stages[t].Probing? && !inUse then [Confirm(t, true, false)]
      else if s.stages[t].Clearing? then [Confirm(t, false, false)]
      else []
    case Give(t, port) => if Ready(s, t) && s.base.threads[t].pc.Idle? then [Release(t, port)] else []
    case Perish(pid) => [Die(pid)]
  }

  lemma StepRefines(s: Fine, m: Move)
    requires Shaped(s)
    ensures FineStep(s, m).base == if Coarse(s, m) == [] then s.base else Step(s.base, Coarse(s, m)[0])
  {
    hide Step;
    if m.Go? && Runs(s.base, m.t) {
      ReleaseTailIsSilent(s, m.t, m.ok);
    }
    hide ReleaseTail;
  }

  lemma ReleaseTailIsSilent(s: Fine, t: nat, ok: bool)
    requires Shaped(s) && Runs(s.base, t)
    ensures ReleaseTail(s, t, ok).base == s.base
  {
  }

  /** Every run with lock files is a run of the coarse machine. */
  lemma {:induction false} FineRunIsARun(s: Fine, schedule: seq<Move>) returns (coarse: seq<Action>)
    requires Shaped(s)
    ensures Run(s.base, coarse) == FineRun(s, schedule).base
  {
    coarse := [];
    if schedule != [] {
      var before, m := schedule[..|schedule| - 1], schedule[|schedule| - 1];
      coarse := FineRunIsARun(s, before);
      var s1 := FineRun(s, before);
      StepRefines(s1, m);
      hide FineStep;
      hide Step;
      if Coarse(s1, m) != [] {
        var a := Coarse(s1, m)[0];
        assert (coarse + [a])[..|coarse|] == coarse;
        coarse := coarse + [a];
      }
    }
  }

  /** No release of the port races with an allocation of it by the same process. */
  ghost predicate RaceFree(s: Fine, schedule: seq<Move>, port: int)
    requires Shaped(s)
  {
    forall k :: 0 <= k < |schedule| && schedule[k].Give? ==>
      !Races(FineRun(s, schedule[..k]).base, Release(schedule[k].t, schedule[k].port), port)
  }

  lemma {:induction false} FineRunKeepsInv(s: Fine, schedule: seq<Move>, port: int)
    requires Shaped(s) && Inv(s.base, port) && RaceFree(s, schedule, port)
    ensures Inv(FineRun(s, schedule).base, port)
  {
    if schedule != [] {
      var before, m := schedule[..|schedule| - 1], schedule[|schedule| - 1];
      forall k | 0 <= k < |before| && before[k].Give?
        ensures !Races(FineRun(s, before[..k]).base, Release(before[k].t, before[k].port), port)
      {
        assert before[..k] == schedule[..k] && before[k] == schedule[k];
      }
      FineRunKeepsInv(s, before, port);
      var s1 := FineRun(s, before);
      assert m.Give? ==> !Races(FineRun(s, schedule[..|schedule| - 1]).base, Release(m.t, m.port), port);
      StepRefines(s1, m);
      hide FineStep;
      hide Inv;
      if Coarse(s1, m) != [] {
        StepKeepsInvIff(s1.base, Coarse(s1, m)[0], port);
      }
    }
  }

  /** Exclusion with lock files: without a racing release no two live processes hold the port. */
  lemma FineExclusion(s: Fine, schedule: seq<Move>, p: Pid, q: Pid, port: int)
    requires Shaped(s) && Init(s.base) && RaceFree(s, schedule, port)
    ensures var r := FineRun(s, schedule).base;
            && (p in r.alive && (p, port) in r.held ==> Owns(r, p, port))
            && ({p, q} <= r.alive && (p, port) in r.held && (q, port) in r.held ==> p == q)
  {
    InitHolds(s.base, port);
    FineRunKeepsInv(s, schedule, port);
    hide FineRun;
  }

  // ----- what a racing release costs -----

  lemma {:induction false} FineConcat(s: Fine, a: seq<Move>, b: seq<Move>)
    requires Shaped(s)
    ensures FineRun(s, a + b) == FineRun(FineRun(s, a), b)
  {
    if b == [] {
      assert a + b == a;
    } else {
      assert (a + b)[..|a + b| - 1] == a + b[..|b| - 1];
      FineConcat(s, a, b[..|b| - 1]);
    }
  }

  lemma FineOne(s: Fine, m: Move)
    requires Shaped(s)
    ensures FineRun(s, [m]) == FineStep(s, m)
  {
    assert [m][..0] == [];
  }

  /** New files are new. */
  ghost predicate FilesOk(s: Fine) {
    && (forall f :: f in s.locks ==> f < s.nextFile)
    && (forall port :: port in s.files ==> s.files[port] < s.nextFile)
    && (forall t :: 0 <= t < |s.stages| ==> KnownFile(s.stages[t], s.nextFile))
  }

  predicate KnownFile(stage: Stage, nextFile: File) {
    match stage
    case Locking(f) => f < nextFile
    case Probing(f) => f < nextFile
    case DropLocking(_, f) => f < nextFile
    case _ => true
  }

  lemma AllocationKeepsFilesOk(s: Fine, t: nat, ok: bool, inUse: bool)
    requires Shaped(s) && FilesOk(s) && Runs(s.base, t) && s.base.threads[t].pc.Taken?
    ensures FilesOk(AllocationStep(s, t, ok, inUse))
  {
    hide Step;
    assert KnownFile(s.stages[t], s.nextFile);
  }

  lemma ReleaseKeepsFilesOk(s: Fine, t: nat, ok: bool)
    requires Shaped(s) && FilesOk(s) && Runs(s.base, t)
    ensures FilesOk(ReleaseTail(s, t, ok))
  {
    assert KnownFile(s.stages[t], s.nextFile);
  }

  lemma StepKeepsFilesOk(s: Fine, m: Move)
    requires Shaped(s) && FilesOk(s)
    ensures FilesOk(FineStep(s, m))
  {
    hide Step;
    hide AllocationStep;
    hide ReleaseTail;
    if m.Go? && Runs(s.base, m.t) {
      if s.base.threads[m.t].pc.Taken? {
        AllocationKeepsFilesOk(s, m.t, m.ok, m.inUse);
      } else {
        ReleaseKeepsFilesOk(s, m.t, m.ok);
      }
    }
  }

  /** The process can get the lock of the file the path leads to, or would if it led nowhere. */
  predicate PathLockable(s: Fine, port: int, pid: Pid) {
    port in s.files ==> Lockable(s, s.files[port], pid)
  }

  /** The thread is on its way to being given the port: it has not failed, and nobody's lock stops it. */
  predicate OnItsWay(s: Fine, v: nat, port: int)
    requires Shaped(s)
  {
    && Runs(s.base, v) && ClaimedBy(s.base, v, port) && PathLockable(s, port, PidOf(s, v))
    && match s.stages[v]
       case Opening => true
       case Locking(f) => Lockable(s, f, PidOf(s, v))
       case Probing(_) => true
       case _ => false
  }

  /** The two states agree on everything but thread v, and what v's process holds. */
  predicate OnlyMoved(s: Fine, s': Fine, v: nat)
    requires Shaped(s) && Shaped(s') && v < |s.stages|
  {
    && |s'.stages| == |s.stages|
    && s'.base.alive == s.base.alive && s'.base.table == s.base.table && s.base.held <= s'.base.held
    && s'.stages == s.stages[v := s'.stages[v]]
    && s'.base.threads == s.base.threads[v := s'.base.threads[v]] && PidOf(s', v) == PidOf(s, v)
  }

  /** Left alone, it is given the port, whatever the table says. */
  lemma ClaimantConfirms(s: Fine, v: nat, port: int) returns (schedule: seq<Move>)
    requires Shaped(s) && FilesOk(s) && OnItsWay(s, v, port)
    ensures var s' := FineRun(s, schedule);
            && OnlyMoved(s, s', v) && FilesOk(s')
            && s'.stages[v].Quiet? && (PidOf(s, v), port) in s'.base.held && PathLockable(s', port, PidOf(s, v))
  {
    var go := Go(v, true, false);
    var s1 := FineStep(s, go);
    StepKeepsFilesOk(s, go);
    FineOne(s, go);
    assert s.stages[v := s1.stages[v]] == s1.stages;
    if s.stages[v].Probing? {
      schedule := [go];
    } else {
      assert s1.base == s.base && OnItsWay(s1, v, port) && OnlyMoved(s, s1, v);
      hide FineStep;
      var rest := ClaimantStep(s1, v, port);
      FineConcat(s, [go], rest);
      schedule := [go] + rest;
      MovedTwice(s, s1, FineRun(s1, rest), v);
    }
  }

  lemma ClaimantStep(s: Fine, v: nat, port: int) returns (schedule: seq<Move>)
    requires Shaped(s) && FilesOk(s) && OnItsWay(s, v, port) && !s.stages[v].Opening?
    ensures var s' := FineRun(s, schedule);
            && OnlyMoved(s, s', v) && FilesOk(s')
            && s'.stages[v].Quiet? && (PidOf(s, v), port) in s'.base.held && PathLockable(s', port, PidOf(s, v))
  {
    var go := Go(v, true, false);
    var s1 := FineStep(s, go);
    StepKeepsFilesOk(s, go);
    FineOne(s, go);
    assert s.stages[v := s1.stages[v]] == s1.stages;
    if s.stages[v].Probing? {
      schedule := [go];
    } else {
      assert s1.base == s.base && OnItsWay(s1, v, port) && s1.stages[v].Probing?;
      var s2 := FineStep(s1, go);
      StepKeepsFilesOk(s1, go);
      FineOne(s1, go);
      FineConcat(s, [go], [go]);
      schedule := [go] + [go];
      assert s2.stages == s.stages[v := s2.stages[v]];
    }
  }

  lemma MovedTwice(s: Fine, s1: Fine, s2: Fine, v: nat)
    requires Shaped(s) && Shaped(s1) && Shaped(s2) && v < |s.stages|
    requires OnlyMoved(s, s1, v) && OnlyMoved(s1, s2, v)
    ensures OnlyMoved(s, s2, v)
  {
  }

  /** The rest of the release drops its process's lock and removes the path. */
  lemma ReleaseDropsLock(s: Fine, t: nat, port: int) returns (schedule: seq<Move>)
    requires Shaped(s) && FilesOk(s) && Runs(s.base, t) && !s.base.threads[t].pc.Taken? && s.stages[t] == DropOpening(port)
    requires PathLockable(s, port, PidOf(s, t))
    ensures var s' := FineRun(s, schedule);
            && s'.base == s.base && s'.stages == s.stages[t := Quiet] && FilesOk(s') && port !in s'.files
  {
    var go := Go(t, true, false);
    schedule := [go] + [go] + [go] + [go];
    FineOne(s, go);
    StepKeepsFilesOk(s, go);
    var s1 := FineStep(s, go);
    assert s1.base == s.base && s1.stages == s.stages[t := DropLocking(port, FileAt(s, port))];
    assert Lockable(s1, FileAt(s, port), PidOf(s, t));
    FineOne(s1, go);
    StepKeepsFilesOk(s1, go);
    var s2 := FineStep(s1, go);
    assert s2.base == s.base && s2.stages == s.stages[t := DropClosing(port, FileAt(s, port))];
    ReleaseRemovesPath(s2, t, port);
    FineConcat(s, [go], [go]);
    FineConcat(s, [go] + [go], [go] + [go]);
    assert schedule == ([go] + [go]) + ([go] + [go]);
    assert s2.stages[t := Quiet] == s.stages[t := Quiet];
  }

  lemma ReleaseRemovesPath(s: Fine, t: nat, port: int)
    requires Shaped(s) && FilesOk(s) && Runs(s.base, t) && !s.base.threads[t].pc.Taken?
    requires s.stages[t].DropClosing? && s.stages[t].port == port
    ensures var go := Go(t, true, false);
            var s' := FineRun(s, [go] + [go]);
            s'.base == s.base && s'.stages == s.stages[t := Quiet] && FilesOk(s') && port !in s'.files
  {
    var go := Go(t, true, false);
    FineOne(s, go);
    StepKeepsFilesOk(s, go);
    var s1 := FineStep(s, go);
    assert s1.base == s.base && s1.stages == s.stages[t := DropUnlinking(port)];
    FineOne(s1, go);
    StepKeepsFilesOk(s1, go);
    FineConcat(s, [go], [go]);
    assert FineStep(s1, go).stages == s.stages[t := Quiet];
  }

  /** A thread that finds the entry free takes it. */
  lemma FreeEntryIsTaken(s: Fine, u: nat, port: int)
    requires Shaped(s) && FilesOk(s) && Ready(s, u) && s.base.threads[u].pc.Idle?
    requires InTable(port) && EntryOf(s.base, port) == FREE
    ensures var s' := FineRun(s, [Enter(u, port, port)] + [Try(u, false, true)]);
            && s'.base == s.base.(table := s.base.table[port - MIN_PORT := PidOf(s, u)],
                                  threads := s.base.threads[u := Thread(PidOf(s, u), Taken(port, port))])
            && s' == s.(base := s'.base, stages := s.stages[u := Opening])
  {
    var enter, try := Enter(u, port, port), Try(u, false, true);
    FineOne(s, enter);
    var s1 := FineStep(s, enter);
    assert s1.base.threads[u].pc == Scanning(port, port) && s1 == s.(base := s1.base);
    FineOne(s1, try);
    FineConcat(s, [enter], [try]);
    var s2 := FineStep(s1, try);
    assert s2.base.threads == s.base.threads[u := Thread(PidOf(s, u), Taken(port, port))];
  }

  /**
   The port is lost once its entry is free while a thread is still on its way to it and a
   release of it by the same process has yet to drop the lock: another process gets it, too.
   */
  lemma PortIsLost(s: Fine, t: nat, v: nat, u: nat, port: int) returns (schedule: seq<Move>)
    requires Shaped(s) && FilesOk(s) && InTable(port) && EntryOf(s.base, port) == FREE
    requires Runs(s.base, t) && s.base.threads[t].pc.Idle? && s.stages[t] == DropOpening(port)
    requires OnItsWay(s, v, port) && PidOf(s, v) == PidOf(s, t)
    requires Ready(s, u) && s.base.threads[u].pc.Idle? && PidOf(s, u) != PidOf(s, t)
    ensures var r, p, q := FineRun(s, schedule).base, PidOf(s, t), PidOf(s, u);
            p != q && {p, q} <= r.alive && (p, port) in r.held && (q, port) in r.held
  {
    hide FineStep;
    hide FineRun;
    var a := ClaimantConfirms(s, v, port);
    var s1 := FineRun(s, a);
    assert s1.stages[t] == s.stages[t] && s1.stages[u] == s.stages[u];
    var b := ReleaseDropsLock(s1, t, port);
    var s2 := FineRun(s1, b);
    assert s2.stages[u] == s.stages[u];
    FreeEntryIsTaken(s2, u, port);
    var c := [Enter(u, port, port)] + [Try(u, false, true)];
    var s3 := FineRun(s2, c);
    assert OnItsWay(s3, u, port) && FilesOk(s3);
    var d := ClaimantConfirms(s3, u, port);
    schedule := a + (b + (c + d));
    FineConcat(s2, c, d);
    FineConcat(s1, b, c + d);
    FineConcat(s, a, b + (c + d));
  }

  /** Clearing the entry of a port the process owns. */
  lemma RaceClears(s: Fine, t: nat, port: int)
    requires Shaped(s) && FilesOk(s) && Inv(s.base, port) && Ready(s, t) && Races(s.base, Release(t, port), port)
    ensures var s' := FineRun(s, [Give(t, port)]);
            && InTable(port) && EntryOf(s'.base, port) == FREE && FilesOk(s')
            && s' == s.(base := s'.base, stages := s.stages[t := DropOpening(port)])
            && s'.base.threads == s.base.threads && s'.base.alive == s.base.alive
  {
    var v :| 0 <= v < |s.base.threads| && s.base.threads[v].pid == s.base.threads[t].pid && ClaimedBy(s.base, v, port);
    assert Runs(s.base, v) && ClaimOk(s.base, v, port);
    FineOne(s, Give(t, port));
    StepKeepsFilesOk(s, Give(t, port));
  }

  /**
   Every racing release whose victim is on its way to the port loses it: an idle thread of
   one other live process is enough.
   */
  lemma RaceLosesThePort(s: Fine, t: nat, v: nat, u: nat, port: int) returns (schedule: seq<Move>)
    requires Shaped(s) && FilesOk(s) && Inv(s.base, port) && Ready(s, t) && Races(s.base, Release(t, port), port)
    requires OnItsWay(s, v, port) && PidOf(s, v) == PidOf(s, t)
    requires Ready(s, u) && s.base.threads[u].pc.Idle? && PidOf(s, u) != PidOf(s, t)
    ensures var r, p, q := FineRun(s, [Give(t, port)] + schedule).base, PidOf(s, t), PidOf(s, u);
            p != q && {p, q} <= r.alive && (p, port) in r.held && (q, port) in r.held
  {
    hide FineRun;
    hide FineStep;
    RaceClears(s, t, port);
    var s1 := FineRun(s, [Give(t, port)]);
    assert s1.stages[v] == s.stages[v] && s1.stages[u] == s.stages[u];
    schedule := PortIsLost(s1, t, v, u, port);
    FineConcat(s, [Give(t, port)], schedule);
  }

  // ----- a victim that is giving up -----

  predicate GivingUp(s: Fine, v: nat, port: int)
    requires Shaped(s)
  {
    && Runs(s.base, v) && ClaimedBy(s.base, v, port)
    && (s.stages[v].Closing? || s.stages[v].Unlinking? || s.stages[v].Clearing?)
  }

  /** It clears the entry even if that has meanwhile been taken again by its own process. */
  lemma GivingUpClears(s: Fine, v: nat, port: int) returns (schedule: seq<Move>)
    requires Shaped(s) && FilesOk(s) && GivingUp(s, v, port) && Owns(s.base, PidOf(s, v), port)
    requires PathLockable(s, port, PidOf(s, v))
    ensures var s' := FineRun(s, schedule);
            && EntryOf(s'.base, port) == FREE && FilesOk(s') && PathLockable(s', port, PidOf(s, v))
            && s'.base.alive == s.base.alive && |s'.base.threads| == |s.base.threads|
            && (forall w :: 0 <= w < |s.stages| && w != v ==> s'.stages[w] == s.stages[w] && s'.base.threads[w] == s.base.threads[w])
    decreases if s.stages[v].Closing? then 2 else if s.stages[v].Unlinking? then 1 else 0
  {
    var go := Go(v, true, false);
    FineOne(s, go);
    StepKeepsFilesOk(s, go);
    var s1 := FineStep(s, go);
    if s.stages[v].Clearing? {
      schedule := [go];
    } else {
      assert s1.base == s.base && PathLockable(s1, port, PidOf(s, v));
      var rest := GivingUpClears(s1, v, port);
      hide FineStep;
      FineConcat(s, [go], rest);
      schedule := [go] + rest;
    }
  }

  /** If the victim is giving up, its process loses the port to the race through a third of its threads. */
  lemma RaceLosesTheNextClaim(s: Fine, t: nat, v: nat, w: nat, u: nat, port: int) returns (schedule: seq<Move>)
    requires Shaped(s) && FilesOk(s) && Inv(s.base, port) && Ready(s, t) && Races(s.base, Release(t, port), port)
    requires GivingUp(s, v, port) && PidOf(s, v) == PidOf(s, t) && PathLockable(s, port, PidOf(s, t))
    requires Ready(s, w) && s.base.threads[w].pc.Idle? && PidOf(s, w) == PidOf(s, t) && w != t
    requires Ready(s, u) && s.base.threads[u].pc.Idle? && PidOf(s, u) != PidOf(s, t)
    ensures var r, p, q := FineRun(s, [Give(t, port)] + schedule).base, PidOf(s, t), PidOf(s, u);
            p != q && {p, q} <= r.alive && (p, port) in r.held && (q, port) in r.held
  {
    hide FineRun;
    hide FineStep;
    RaceClears(s, t, port);
    var s1 := FineRun(s, [Give(t, port)]);
    assert s1.stages[w] == s.stages[w] && s1.stages[v] == s.stages[v] && s1.stages[u] == s.stages[u];
    FreeEntryIsTaken(s1, w, port);
    var a := [Enter(w, port, port)] + [Try(w, false, true)];
    var s2 := FineRun(s1, a);
    assert s2.stages[v] == s.stages[v] && s2.stages[t] == DropOpening(port) && s2.stages[u] == s.stages[u];
    var b := GivingUpClears(s2, v, port);
    var s3 := FineRun(s2, b);
    assert s3.stages[w] == Opening && s3.base.threads[w] == s2.base.threads[w];
    var c := PortIsLost(s3, t, w, u, port);
    schedule := a + (b + c);
    FineConcat(s2, b, c);
    FineConcat(s1, a, b + c);
    FineConcat(s, [Give(t, port)], schedule);
  }

  /** From the start: two threads of process 1, one of process 2, and both processes hold one port. */
  lemma ExclusionCanFail(s: Fine) returns (schedule: seq<Move>)
    requires Shaped(s) && Init(s.base) && s.base.alive == {1, 2} && EntryOf(s.base, MIN_PORT) == FREE
    requires |s.stages| == 3 && (forall t :: 0 <= t < 3 ==> s.stages[t].Quiet?)
    requires PidOf(s, 0) == PidOf(s, 1) == 1 && PidOf(s, 2) == 2
    requires s.files == map[] && s.locks == map[]
    ensures var r := FineRun(s, schedule).base;
            {1, 2} <= r.alive && (1, MIN_PORT) in r.held && (2, MIN_PORT) in r.held
  {
    hide FineStep;
    hide FineRun;
    var claim := [Enter(0, MIN_PORT, MIN_PORT)] + [Try(0, false, true)];
    FreeEntryIsTaken(s, 0, MIN_PORT);
    var s1 := FineRun(s, claim);
    InitHolds(s.base, MIN_PORT);
    ClaimKeepsInv(s, s1);
    assert ClaimedBy(s1.base, 0, MIN_PORT) && Runs(s1.base, 1);
    var rest := RaceLosesThePort(s1, 1, 0, 2, MIN_PORT);
    schedule := claim + ([Give(1, MIN_PORT)] + rest);
    FineConcat(s, claim, [Give(1, MIN_PORT)] + rest);
  }

  lemma ClaimKeepsInv(s: Fine, s1: Fine)
    requires Shaped(s) && Inv(s.base, MIN_PORT) && |s.stages| > 0 && Ready(s, 0) && s.base.threads[0].pc.Idle?
    requires s1 == FineRun(s, [Enter(0, MIN_PORT, MIN_PORT)] + [Try(0, false, true)])
    ensures Inv(s1.base, MIN_PORT)
  {
    var claim := [Enter(0, MIN_PORT, MIN_PORT)] + [Try(0, false, true)];
    assert RaceFree(s, claim, MIN_PORT);
    FineRunKeepsInv(s, claim, MIN_PORT);
  }
}
