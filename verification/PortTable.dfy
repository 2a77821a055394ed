/**
 The port table as one process works on it.  The system's answers during a call (its own
 process id, which processes are gone, socket probes, lock files) are parameters.
 */
module PortTable {
  import opened Ports

  const INVALID_PORT: int := -1

  /** What the system answers about one port. */
  datatype Probe = Probe(inUse: bool, locked: bool, inUseAfterLock: bool)

  datatype Environment = Environment(pid: Pid, gone: set<Pid>, probe: int -> Probe)

  /** Free, and nobody known to be running has it. */
  predicate Takes(table: seq<Pid>, port: int, env: Environment)
    requires |table| == TABLE_SIZE
  {
    InTable(port) && !env.probe(port).inUse && (table[port - MIN_PORT] == FREE || table[port - MIN_PORT] in env.gone)
  }

  predicate Wins(table: seq<Pid>, port: int, env: Environment)
    requires |table| == TABLE_SIZE
  {
    Takes(table, port, env) && env.probe(port).locked && !env.probe(port).inUseAfterLock
  }

  /** The table after one try: the entry taken, or given back, or never touched. */
  function AfterAttempt(table: seq<Pid>, port: int, env: Environment): seq<Pid>
    requires |table| == TABLE_SIZE
  {
    if Wins(table, port, env) then table[port - MIN_PORT := env.pid]
    else if Takes(table, port, env) then table[port - MIN_PORT := FREE]
    else table
  }

  /** A try, undisturbed, is an attempt and a confirmation of the shared machine. */
  lemma AttemptIsTwoSteps(s: State, t: nat, env: Environment)
    requires |s.table| == TABLE_SIZE && FREE !in s.alive && Runs(s, t) && s.threads[t].pc.Scanning?
    requires env.pid == s.threads[t].pid && env.gone !! s.alive
    ensures var Scanning(port, max) := s.threads[t].pc;
            var s1 := Step(s, Attempt(t, env.probe(port).inUse, EntryOf(s, port) !in env.gone));
            var s2 := Step(s1, Confirm(t, env.probe(port).locked, env.probe(port).inUseAfterLock));
            var won := Wins(s.table, port, env);
            && s2.table == AfterAttempt(s.table, port, env)
            && s2.threads == s.threads[t := s.threads[t].(pc := if won then Idle else Next(port, max))]
            && s2.held == if won then s.held + {(env.pid, port)} else s.held
  {
  }

  /** The table after the ports from min up to but not including end were tried in vain. */
  ghost predicate Swept(before: seq<Pid>, after: seq<Pid>, min: int, end: int, env: Environment) {
    && |before| == |after| == TABLE_SIZE
    && forall i :: 0 <= i < TABLE_SIZE ==>
         after[i] == if min <= MIN_PORT + i < end && Takes(before, MIN_PORT + i, env) then FREE else before[i]
  }

  /** A vain sweep changes no entry except to free those of processes that are gone. */
  lemma SweepSparesTheLiving(before: seq<Pid>, after: seq<Pid>, min: int, end: int, env: Environment, i: nat)
    requires Swept(before, after, min, end, env) && i < TABLE_SIZE
    ensures after[i] == before[i] || (before[i] in env.gone && after[i] == FREE)
  {
    assert InTable(MIN_PORT + i);
  }

  lemma SweepExtends(before: seq<Pid>, middle: seq<Pid>, after: seq<Pid>, min: int, port: int, env: Environment)
    requires min <= port && Swept(before, middle, min, port, env) && |after| == TABLE_SIZE
    requires after == if Takes(middle, port, env) then middle[port - MIN_PORT := FREE] else middle
    ensures Swept(before, after, min, port + 1, env)
  {
    forall i | 0 <= i < TABLE_SIZE
      ensures after[i] == if min <= MIN_PORT + i < port + 1 && Takes(before, MIN_PORT + i, env) then FREE else before[i]
    {
      if MIN_PORT + i == port {
        SweptEntry(before, middle, min, port, env);
      }
    }
  }

  /** Trying lower ports does not change the verdict on this one. */
  lemma SweptEntry(before: seq<Pid>, middle: seq<Pid>, min: int, port: int, env: Environment)
    requires Swept(before, middle, min, port, env)
    ensures Takes(middle, port, env) <==> Takes(before, port, env)
    ensures Wins(middle, port, env) <==> Wins(before, port, env)
    ensures InTable(port) ==> middle[port - MIN_PORT] == before[port - MIN_PORT]
  {
    if InTable(port) {
      var i := port - MIN_PORT;
      assert middle[i] == before[i];
    }
  }

  /** Apart from the entry that was won, the table is as the vain tries left it. */
  lemma SweepEnds(before: seq<Pid>, middle: seq<Pid>, after: seq<Pid>, min: int, port: int, env: Environment)
    requires Swept(before, middle, min, port, env) && InTable(port)
    requires after == middle[port - MIN_PORT := env.pid]
    ensures after[port - MIN_PORT] == env.pid
    ensures Swept(before, after[port - MIN_PORT := before[port - MIN_PORT]], min, port, env)
  {
    SweptEntry(before, middle, min, port, env);
    assert after[port - MIN_PORT := before[port - MIN_PORT]] == middle;
  }

  class Table {
    var pids: array<Pid>

    ghost predicate Valid()
      reads this
    {
      pids.Length == TABLE_SIZE
    }

    constructor ()
      ensures Valid() && fresh(pids) && forall i :: 0 <= i < TABLE_SIZE ==> pids[i] == FREE
    {
      pids := new Pid[TABLE_SIZE](_ => FREE);
    }

    method IsProcessAlive(pid: Pid, env: Environment) returns (alive: bool)
      ensures alive <==> pid != FREE && pid !in env.gone
    {
      alive := pid > FREE && pid !in env.gone;
    }

    method AcquirePort(port: int, env: Environment) returns (acquired: bool)
      requires Valid()
      modifies pids
      ensures var entry := if InTable(port) then old(pids[port - MIN_PORT]) else FREE;
              (acquired, pids[..]) == Claim(old(pids[..]), port, env.pid, entry != FREE && entry !in env.gone)
    {
      if port < MIN_PORT || port > MAX_PORT {
        return false;
      }
      var index := port - MIN_PORT;
      if pids[index] == FREE {
        pids[index] := env.pid;
        return true;
      }
      var alive := IsProcessAlive(pids[index], env);
      if !alive {
        pids[index] := env.pid;
        return true;
      }
      return false;
    }

    method ReleasePort(port: int, env: Environment)
      requires Valid()
      modifies pids
      ensures pids[..] == Clear(old(pids[..]), port, env.pid)
    {
      if port < MIN_PORT || port > MAX_PORT {
        return;
      }
      if pids[port - MIN_PORT] == env.pid {
        pids[port - MIN_PORT] := FREE;
      }
    }

    /** Success takes exactly this entry; failure leaves the table, or frees a stale entry. */
    method AttemptPortAllocation(port: int, env: Environment) returns (granted: int)
      requires Valid() && env.pid != FREE && port != INVALID_PORT
      modifies pids
      ensures granted == if Wins(old(pids[..]), port, env) then port else INVALID_PORT
      ensures pids[..] == AfterAttempt(old(pids[..]), port, env)
    {
      if env.probe(port).inUse {
        return INVALID_PORT;
      }
      var acquired := AcquirePort(port, env);
      if !acquired {
        return INVALID_PORT;
      }
      if !env.probe(port).locked {
        ReleasePort(port, env);
        return INVALID_PORT;
      }
      if env.probe(port).inUseAfterLock {
        ReleasePort(port, env);
        return INVALID_PORT;
      }
      return port;
    }

    /** The least port of the range that can be had, if any; a vain search only frees stale entries. */
    method FindAvailablePort(min: int, max: int, env: Environment) returns (found: int)
      requires Valid() && env.pid != FREE
      modifies pids
      ensures found == INVALID_PORT <==> !ValidRange(min, max) || forall p :: min <= p <= max ==> !Wins(old(pids[..]), p, env)
      ensures found != INVALID_PORT ==>
                && min <= found <= max && Wins(old(pids[..]), found, env)
                && (forall p :: min <= p < found ==> !Wins(old(pids[..]), p, env))
                && pids[found - MIN_PORT] == env.pid
                && Swept(old(pids[..]), pids[..][found - MIN_PORT := old(pids[..])[found - MIN_PORT]], min, found, env)
      ensures found == INVALID_PORT ==> Swept(old(pids[..]), pids[..], min, if ValidRange(min, max) then max + 1 else min, env)
    {
      if min > max || min < 1024 || max > 65535 {
        return INVALID_PORT;
      }
      ghost var before := pids[..];
      var port := min;
      while port <= max
        invariant min <= port <= max + 1
        invariant Swept(before, pids[..], min, port, env)
        invariant forall p :: min <= p < port ==> !Wins(before, p, env)
      {
        ghost var middle := pids[..];
        SweptEntry(before, middle, min, port, env);
        var granted := AttemptPortAllocation(port, env);
        if granted != INVALID_PORT {
          SweepEnds(before, middle, pids[..], min, port, env);
          assert Wins(before, port, env);
          return granted;
        }
        SweepExtends(before, middle, pids[..], min, port, env);
        port := port + 1;
      }
      return INVALID_PORT;
    }
  }
}
