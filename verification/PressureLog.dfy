/**
 The rate limiter for enqueue-pressure warnings: a time stamp claimed by compare-and-swap
 and a counter of suppressed events.  Any number of threads interleave at the atomic
 operations; the clock is read before the first of them.
 */
module PressureLog {
  import opened Totals

  const INTERVAL_NS: nat := 1_000_000_000
  const CLOCK_LIMIT: nat := 0x1_0000_0000_0000_0000

  /** A thread's position, named after the operation it is about to perform. */
  datatype Pc =
    | Outside
    | Loading(now: nat)
    | Swapping(now: nat, previous: nat)
    | Draining(now: nat)
    | Logging(now: nat, drained: nat)
    | Suppressing

  /** A warning line: its winning stamp, the number of suppressed events it reports, and when it was printed. */
  datatype Line = Line(at: nat, suppressed: nat, printed: nat)

  /** Shared memory; `wins`, `lines` and `finished` are history. */
  datatype Shared = Shared(last: nat, suppressed: nat, wins: seq<nat>, lines: seq<Line>, finished: nat)

  const EMPTY := Shared(0, 0, [], [], 0)

  /** Unsigned 64-bit subtraction. */
  function Elapsed(now: nat, previous: nat): nat {
    (now - previous) % CLOCK_LIMIT
  }

  predicate Due(now: nat, previous: nat) {
    previous == 0 || Elapsed(now, previous) >= INTERVAL_NS
  }

  /** `clock` is the time of the step; a thread reads it when it enters. */
  function Act(sh: Shared, pc: Pc, clock: nat): (Pc, Shared) {
    match pc
    case Outside => (if clock < CLOCK_LIMIT then Loading(clock) else Outside, sh)
    case Loading(now) => (if Due(now, sh.last) then Swapping(now, sh.last) else Suppressing, sh)
    case Swapping(now, previous) =>
      if sh.last == previous then (Draining(now), sh.(last := now, wins := sh.wins + [now])) else (Suppressing, sh)
    case Draining(now) => (Logging(now, sh.suppressed), sh.(suppressed := 0))
    case Logging(now, drained) =>
      (Outside, sh.(lines := sh.lines + [Line(now, drained, clock)], finished := sh.finished + 1))
    case Suppressing => (Outside, sh.(suppressed := sh.suppressed + 1, finished := sh.finished + 1))
  }

  datatype State = State(threads: seq<Pc>, shared: Shared)

  datatype Label = Label(thread: nat, clock: nat)

  function Step(s: State, l: Label): State {
    if l.thread >= |s.threads| then s
    else
      var (pc, sh) := Act(s.shared, s.threads[l.thread], l.clock);
      State(s.threads[l.thread := pc], sh)
  }

  function Init(threads: nat): State {
    State(seq(threads, _ => Outside), EMPTY)
  }

  function Run(s: State, schedule: seq<Label>): State {
    if schedule == [] then s else Step(Run(s, schedule[..|schedule| - 1]), schedule[|schedule| - 1])
  }

  // ----- no event is lost -----

  function Reported(lines: seq<Line>): nat {
    if lines == [] then 0 else Reported(lines[..|lines| - 1]) + lines[|lines| - 1].suppressed
  }

  /** Suppressed events a thread has drained and not yet reported. */
  function Carried(pc: Pc): int {
    if pc.Logging? then pc.drained else 0
  }

  function Unreported(sh: Shared): int {
    sh.finished - |sh.lines| - Reported(sh.lines) - sh.suppressed
  }

  lemma ActConserves(sh: Shared, pc: Pc, clock: nat)
    ensures var (pc', sh') := Act(sh, pc, clock);
            Unreported(sh') - Unreported(sh) == Carried(pc') - Carried(pc)
  {
    if pc.Logging? {
      var sh' := Act(sh, pc, clock).1;
      assert sh'.lines[..|sh'.lines| - 1] == sh.lines;
    }
  }

  /** In every interleaving, finished calls are accounted for by lines, reported, pending and carried events. */
  lemma {:induction false} NoEventLost(threads: nat, schedule: seq<Label>)
    ensures var s := Run(Init(threads), schedule);
            s.shared.finished == |s.shared.lines| + Reported(s.shared.lines) + s.shared.suppressed + Total(s.threads, Carried)
  {
    if schedule == [] {
      TotalIsZero(Init(threads).threads, Carried);
    } else {
      var before, l := schedule[..|schedule| - 1], schedule[|schedule| - 1];
      NoEventLost(threads, before);
      var s := Run(Init(threads), before);
      if l.thread < |s.threads| {
        ActConserves(s.shared, s.threads[l.thread], l.clock);
        TotalUpdate(s.threads, l.thread, Act(s.shared, s.threads[l.thread], l.clock).0, Carried);
      }
    }
  }

  // ----- spacing -----

  predicate InRange(pc: Pc) {
    match pc
    case Loading(now) => now < CLOCK_LIMIT
    case Swapping(now, previous) => now < CLOCK_LIMIT && Due(now, previous)
    case _ => true
  }

  /** The stamp is the last win, and each win was due after the one before it. */
  ghost predicate WinsAreDue(s: State) {
    && (forall t :: 0 <= t < |s.threads| ==> InRange(s.threads[t]))
    && (forall k :: 0 <= k < |s.shared.wins| ==> s.shared.wins[k] < CLOCK_LIMIT)
    && s.shared.last == (if s.shared.wins == [] then 0 else s.shared.wins[|s.shared.wins| - 1])
    && (forall k :: 0 <= k < |s.shared.wins| - 1 ==> Due(s.shared.wins[k + 1], s.shared.wins[k]))
  }

  lemma StepKeepsWinsDue(s: State, l: Label)
    requires WinsAreDue(s)
    ensures WinsAreDue(Step(s, l))
  {
  }

  lemma {:induction false} RunKeepsWinsDue(threads: nat, schedule: seq<Label>)
    ensures WinsAreDue(Run(Init(threads), schedule))
  {
    if schedule != [] {
      RunKeepsWinsDue(threads, schedule[..|schedule| - 1]);
      StepKeepsWinsDue(Run(Init(threads), schedule[..|schedule| - 1]), schedule[|schedule| - 1]);
    }
  }

  /** A due stamp is a real interval later exactly when its clock reading is not older. */
  lemma DueMeansLaterIff(now: nat, previous: nat)
    requires now < CLOCK_LIMIT && previous < CLOCK_LIMIT && previous != 0 && Due(now, previous)
    ensures now - previous >= INTERVAL_NS <==> previous <= now
  {
  }

  /**
   In every interleaving two successive wins are at least one interval apart exactly when the
   later win's clock reading is not older than the earlier one's (or the earlier one is zero).
   */
  lemma WinsSpacedIff(threads: nat, schedule: seq<Label>, k: nat)
    requires var wins := Run(Init(threads), schedule).shared.wins; k + 1 < |wins| && wins[k] != 0
    ensures var wins := Run(Init(threads), schedule).shared.wins;
            wins[k + 1] - wins[k] >= INTERVAL_NS <==> wins[k] <= wins[k + 1]
  {
    RunKeepsWinsDue(threads, schedule);
    var wins := Run(Init(threads), schedule).shared.wins;
    DueMeansLaterIff(wins[k + 1], wins[k]);
  }

  ghost predicate Ordered(stamps: seq<nat>) {
    forall j, k :: 0 <= j <= k < |stamps| ==> stamps[j] <= stamps[k]
  }

  ghost predicate Spaced(stamps: seq<nat>) {
    forall j, k :: 0 <= j < k < |stamps| ==> stamps[k] - stamps[j] >= INTERVAL_NS
  }

  /** In every interleaving all wins are at least an interval apart exactly when none used an older reading. */
  lemma SpacedIff(threads: nat, schedule: seq<Label>)
    requires 0 !in Run(Init(threads), schedule).shared.wins
    ensures var wins := Run(Init(threads), schedule).shared.wins;
            Spaced(wins) <==> Ordered(wins)
  {
    var wins := Run(Init(threads), schedule).shared.wins;
    if Ordered(wins) {
      forall j, k | 0 <= j < k < |wins| ensures wins[k] - wins[j] >= INTERVAL_NS {
        assert wins[j] in wins;
        WinsSpacedIff(threads, schedule, j);
        assert wins[j + 1] <= wins[k];
      }
    }
  }

  // ----- warnings and wins -----

  function Stamps(lines: seq<Line>): seq<nat> {
    seq(|lines|, i requires 0 <= i < |lines| => lines[i].at)
  }

  /** The thread has won with this stamp and not printed its warning yet. */
  function Carries(stamp: nat): Pc -> int {
    (pc: Pc) => if (pc.Draining? || pc.Logging?) && pc.now == stamp then 1 else 0
  }

  function Unprinted(sh: Shared, stamp: nat): int {
    var won: int, printed: int := multiset(sh.wins)[stamp], multiset(Stamps(sh.lines))[stamp];
    won - printed
  }

  lemma ActKeepsStamps(sh: Shared, pc: Pc, clock: nat, stamp: nat)
    ensures var (pc', sh') := Act(sh, pc, clock);
            Unprinted(sh', stamp) - Unprinted(sh, stamp) == Carries(stamp)(pc') - Carries(stamp)(pc)
  {
    if pc.Logging? {
      var sh' := Act(sh, pc, clock).1;
      assert Stamps(sh'.lines) == Stamps(sh.lines) + [pc.now];
    }
  }

  /** In every interleaving the wins are the stamps of the printed warnings and of those about to be printed. */
  lemma {:induction false} WarningsAreWins(threads: nat, schedule: seq<Label>, stamp: nat)
    ensures var s := Run(Init(threads), schedule);
            multiset(s.shared.wins)[stamp] == multiset(Stamps(s.shared.lines))[stamp] + Total(s.threads, Carries(stamp))
  {
    if schedule == [] {
      TotalIsZero(Init(threads).threads, Carries(stamp));
    } else {
      var before, l := schedule[..|schedule| - 1], schedule[|schedule| - 1];
      WarningsAreWins(threads, before, stamp);
      var s := Run(Init(threads), before);
      if l.thread < |s.threads| {
        ActKeepsStamps(s.shared, s.threads[l.thread], l.clock, stamp);
        TotalUpdate(s.threads, l.thread, Act(s.shared, s.threads[l.thread], l.clock).0, Carries(stamp));
      }
    }
  }

  /** Any two warnings are stamped at least an interval apart, in whatever order they are printed. */
  ghost predicate Apart(lines: seq<Line>) {
    forall j, k :: 0 <= j < |lines| && 0 <= k < |lines| && j != k && lines[j].at <= lines[k].at ==>
      lines[k].at - lines[j].at >= INTERVAL_NS
  }

  lemma {:induction false} OnceEach(s: seq<nat>, j: nat, k: nat)
    requires j < k < |s| && s[j] == s[k]
    ensures multiset(s)[s[j]] >= 2
  {
    assert s == s[..k] + [s[k]] + s[k + 1..];
    assert s[..k][j] == s[j];
    assert multiset(s[..k])[s[j]] >= 1;
  }

  lemma {:induction false} SpacedCountsOnce(wins: seq<nat>, stamp: nat)
    requires Spaced(wins)
    ensures multiset(wins)[stamp] <= 1
  {
    if wins != [] {
      var rest, last := wins[..|wins| - 1], wins[|wins| - 1];
      SpacedCountsOnce(rest, stamp);
      assert wins == rest + [last];
      if last == stamp {
        assert stamp !in rest;
      }
    }
  }

  /** Spaced wins give spaced warnings. */
  lemma WarningsInheritSpacing(threads: nat, schedule: seq<Label>)
    requires Spaced(Run(Init(threads), schedule).shared.wins)
    ensures Apart(Run(Init(threads), schedule).shared.lines)
  {
    var s := Run(Init(threads), schedule);
    var wins, stamps := s.shared.wins, Stamps(s.shared.lines);
    forall j, k | 0 <= j < |stamps| && 0 <= k < |stamps| && j != k && stamps[j] <= stamps[k]
      ensures stamps[k] - stamps[j] >= INTERVAL_NS
    {
      StampIsWin(threads, schedule, j);
      StampIsWin(threads, schedule, k);
      if stamps[j] == stamps[k] {
        OnceEach(stamps, if j < k then j else k, if j < k then k else j);
        SpacedCountsOnce(wins, stamps[j]);
        WarningsAreWins(threads, schedule, stamps[j]);
        TotalIsNonnegative(s.threads, Carries(stamps[j]));
      } else {
        var a :| 0 <= a < |wins| && wins[a] == stamps[j];
        var b :| 0 <= b < |wins| && wins[b] == stamps[k];
        assert a < b;
      }
    }
    forall j, k | 0 <= j < |stamps| && 0 <= k < |stamps| && j != k && s.shared.lines[j].at <= s.shared.lines[k].at
      ensures s.shared.lines[k].at - s.shared.lines[j].at >= INTERVAL_NS
    {
      assert stamps[j] == s.shared.lines[j].at && stamps[k] == s.shared.lines[k].at;
    }
  }

  lemma StampIsWin(threads: nat, schedule: seq<Label>, j: nat)
    requires j < |Run(Init(threads), schedule).shared.lines|
    ensures var sh := Run(Init(threads), schedule).shared; Stamps(sh.lines)[j] in sh.wins
  {
    var s := Run(Init(threads), schedule);
    var stamp := Stamps(s.shared.lines)[j];
    WarningsAreWins(threads, schedule, stamp);
    TotalIsNonnegative(s.threads, Carries(stamp));
    assert stamp in Stamps(s.shared.lines);
  }

  /** Any two wins are at least an interval apart, in whatever order they came. */
  ghost predicate WinsApart(wins: seq<nat>) {
    forall j, k :: 0 <= j < |wins| && 0 <= k < |wins| && j != k && wins[j] <= wins[k] ==> wins[k] - wins[j] >= INTERVAL_NS
  }

  /** Being apart says the same of two sequences with the same elements. */
  lemma ApartIsOfMultisets(a: seq<nat>, b: seq<nat>)
    requires multiset(a) == multiset(b) && WinsApart(a)
    ensures WinsApart(b)
  {
    forall j, k | 0 <= j < |b| && 0 <= k < |b| && j != k && b[j] <= b[k] ensures b[k] - b[j] >= INTERVAL_NS {
      assert b[j] in multiset(b) && b[k] in multiset(b);
      assert b[j] in a && b[k] in a;
      if b[j] == b[k] {
        OnceEach(b, if j < k then j else k, if j < k then k else j);
        ApartCountsOnce(a, b[j]);
      } else {
        var x :| 0 <= x < |a| && a[x] == b[j];
        var y :| 0 <= y < |a| && a[y] == b[k];
      }
    }
  }

  lemma {:induction false} ApartCountsOnce(wins: seq<nat>, stamp: nat)
    requires WinsApart(wins)
    ensures multiset(wins)[stamp] <= 1
  {
    if wins != [] {
      var rest, last := wins[..|wins| - 1], wins[|wins| - 1];
      ApartCountsOnce(rest, stamp);
      assert wins == rest + [last];
      if last == stamp {
        assert stamp !in rest;
      }
    }
  }

  /** No thread has won without having printed its warning. */
  ghost predicate AllPrinted(s: State) {
    forall t :: 0 <= t < |s.threads| ==> !s.threads[t].Draining? && !s.threads[t].Logging?
  }

  /**
   The exact condition for the warnings themselves: once all are printed, any two are stamped
   a second apart exactly when any two winning clock readings are.
   */
  lemma WarningsApartIff(threads: nat, schedule: seq<Label>)
    requires AllPrinted(Run(Init(threads), schedule))
    ensures var sh := Run(Init(threads), schedule).shared;
            Apart(sh.lines) <==> WinsApart(sh.wins)
  {
    var s := Run(Init(threads), schedule);
    var wins, stamps := s.shared.wins, Stamps(s.shared.lines);
    var won: multiset<nat>, printed: multiset<nat> := multiset(wins), multiset(stamps);
    forall v: nat ensures won[v] == printed[v] {
      WarningsAreWins(threads, schedule, v);
      TotalIsZero(s.threads, Carries(v));
    }
    hide Run;
    assert won == printed;
    StampsApart(s.shared.lines);
    if WinsApart(wins) {
      ApartIsOfMultisets(wins, stamps);
    }
    if WinsApart(stamps) {
      ApartIsOfMultisets(stamps, wins);
    }
  }

  lemma StampsApart(lines: seq<Line>)
    ensures Apart(lines) <==> WinsApart(Stamps(lines))
  {
    var stamps := Stamps(lines);
    assert forall k :: 0 <= k < |lines| ==> stamps[k] == lines[k].at;
  }

  lemma RunAppend(s: State, schedule: seq<Label>, l: Label)
    ensures Run(s, schedule + [l]) == Step(Run(s, schedule), l)
  {
    assert (schedule + [l])[..|schedule|] == schedule;
  }

  /** Thread 0 reads the clock and is held up; thread 1 reads it later and wins; thread 0 wins; both print. */
  function Overtaken(early: nat, late: nat): seq<Label> {
    var slow, fast := Label(0, late), Label(1, late);
    [Label(0, early)] + [fast] + [fast] + [fast] + [slow] + [slow] + [fast] + [fast] + [slow] + [slow]
  }

  /**
   A thread delayed between reading the clock and swapping the stamp wins with the older
   reading, although time never runs backwards: two warnings less than a second apart,
   whenever the two readings are.
   */
  lemma SpacingCanFail(early: nat, late: nat)
    requires 0 < early < late < CLOCK_LIMIT && late - early < INTERVAL_NS
    ensures var schedule := Overtaken(early, late);
            && (forall k :: 0 <= k < |schedule| - 1 ==> schedule[k].clock <= schedule[k + 1].clock)
            && Run(Init(2), schedule).shared.lines == [Line(late, 0, late), Line(early, 0, late)]
            && !Apart(Run(Init(2), schedule).shared.lines)
  {
    var slow, fast := Label(0, late), Label(1, late);
    var s0 := Init(2);
    assert s0.threads == [Outside, Outside];
    var s1 := Step(s0, Label(0, early));
    var first := [Label(0, early)];
    RunAppend(s0, [], Label(0, early));
    assert [] + first == first;
    assert s1.threads == [Loading(early), Outside] && s1.shared == EMPTY;
    var s4 := FastWins(s0, s1, first, early, late);
    assert Due(early, late) by {
      OlderIsDue(early, late);
    }
    var four := first + [fast] + [fast] + [fast];
    var s6 := SlowWins(s0, s4, four, early, late);
    var all := BothPrint(s0, s6, four + [slow] + [slow], early, late);
    assert all == Overtaken(early, late);
    hide Run;
    var lines := Run(s0, all).shared.lines;
    assert lines[1].at <= lines[0].at && lines[0].at - lines[1].at < INTERVAL_NS;
  }

  /** The unsigned difference of an older reading is huge. */
  lemma OlderIsDue(early: nat, late: nat)
    requires early < late < CLOCK_LIMIT && late - early < INTERVAL_NS
    ensures Due(early, late)
  {
    assert early - late + CLOCK_LIMIT == Elapsed(early, late);
  }

  lemma FastWins(s0: State, s1: State, schedule: seq<Label>, early: nat, late: nat) returns (s4: State)
    requires Run(s0, schedule) == s1 && s1 == State([Loading(early), Outside], EMPTY) && late < CLOCK_LIMIT
    ensures s4 == State([Loading(early), Draining(late)], Shared(late, 0, [late], [], 0))
    ensures Run(s0, schedule + [Label(1, late)] + [Label(1, late)] + [Label(1, late)]) == s4
  {
    var l := Label(1, late);
    RunAppend(s0, schedule, l);
    var s2 := Step(s1, l);
    assert s2.threads == [Loading(early), Loading(late)];
    RunAppend(s0, schedule + [l], l);
    var s3 := Step(s2, l);
    assert s3.threads == [Loading(early), Swapping(late, 0)];
    RunAppend(s0, schedule + [l] + [l], l);
    s4 := Step(s3, l);
    assert s4.threads == [Loading(early), Draining(late)] && s4.shared.wins == [late];
  }

  lemma SlowWins(s0: State, s4: State, schedule: seq<Label>, early: nat, late: nat) returns (s6: State)
    requires s4 == State([Loading(early), Draining(late)], Shared(late, 0, [late], [], 0)) && Run(s0, schedule) == s4
    requires Due(early, late)
    ensures s6 == State([Draining(early), Draining(late)], Shared(early, 0, [late, early], [], 0))
    ensures Run(s0, schedule + [Label(0, late)] + [Label(0, late)]) == s6
  {
    var l := Label(0, late);
    RunAppend(s0, schedule, l);
    var s5 := Step(s4, l);
    assert s5.threads == [Swapping(early, late), Draining(late)];
    RunAppend(s0, schedule + [l], l);
    s6 := Step(s5, l);
    assert s6.threads == [Draining(early), Draining(late)] && s6.shared.wins == [late, early];
  }

  lemma BothPrint(s0: State, s6: State, schedule: seq<Label>, early: nat, late: nat) returns (all: seq<Label>)
    requires s6 == State([Draining(early), Draining(late)], Shared(early, 0, [late, early], [], 0)) && Run(s0, schedule) == s6
    ensures all == schedule + [Label(1, late)] + [Label(1, late)] + [Label(0, late)] + [Label(0, late)]
    ensures Run(s0, all).shared.lines == [Line(late, 0, late), Line(early, 0, late)]
  {
    var slow, fast := Label(0, late), Label(1, late);
    RunAppend(s0, schedule, fast);
    var s7 := Step(s6, fast);
    assert s7.threads == [Draining(early), Logging(late, 0)];
    RunAppend(s0, schedule + [fast], fast);
    var s8 := Step(s7, fast);
    assert s8.threads == [Draining(early), Outside] && s8.shared.lines == [Line(late, 0, late)];
    RunAppend(s0, schedule + [fast] + [fast], slow);
    var s9 := Step(s8, slow);
    assert s9.threads == [Logging(early, 0), Outside];
    all := schedule + [fast] + [fast] + [slow] + [slow];
    RunAppend(s0, schedule + [fast] + [fast] + [slow], slow);
  }

  // ----- clock reading and swap as one step -----

  /** Reading the clock, loading the stamp and swapping it, with no other thread in between. */
  function Enter(s: State, l: Label): State
    requires l.thread < |s.threads|
  {
    var s' := Step(Step(s, l), l);
    if s'.threads[l.thread].Swapping? then Step(s', l) else s'
  }

  /** The machine in which entering is one step; draining, logging and suppressing still interleave. */
  function AtomicStep(s: State, l: Label): State {
    if l.thread < |s.threads| && s.threads[l.thread].Outside? then Enter(s, l) else Step(s, l)
  }

  function AtomicRun(s: State, schedule: seq<Label>): State {
    if schedule == [] then s else AtomicStep(AtomicRun(s, schedule[..|schedule| - 1]), schedule[|schedule| - 1])
  }

  /** Its runs are runs of the machine. */
  lemma {:induction false} AtomicRunIsARun(s: State, schedule: seq<Label>) returns (fine: seq<Label>)
    ensures Run(s, fine) == AtomicRun(s, schedule)
  {
    if schedule == [] {
      fine := [];
    } else {
      var l := schedule[|schedule| - 1];
      fine := AtomicRunIsARun(s, schedule[..|schedule| - 1]);
      var s0 := AtomicRun(s, schedule[..|schedule| - 1]);
      hide Step;
      RunAppend(s, fine, l);
      RunAppend(s, fine + [l], l);
      RunAppend(s, fine + [l] + [l], l);
      if !(l.thread < |s0.threads| && s0.threads[l.thread].Outside?) {
        fine := fine + [l];
      } else if Step(Step(s0, l), l).threads[l.thread].Swapping? {
        fine := fine + [l] + [l] + [l];
      } else {
        fine := fine + [l] + [l];
      }
    }
  }

  /** Each step carries its time; time does not run backwards. */
  ghost predicate Ticking(schedule: seq<Label>) {
    && (forall k :: 0 <= k < |schedule| ==> 0 < schedule[k].clock < CLOCK_LIMIT)
    && (forall j, k :: 0 <= j <= k < |schedule| ==> schedule[j].clock <= schedule[k].clock)
  }

  /** Wins are spaced, the stamp is the latest of them, and no thread is inside the entering step. */
  ghost predicate Orderly(s: State, now: nat) {
    && Spaced(s.shared.wins)
    && s.shared.last <= now
    && (s.shared.last == 0 <==> s.shared.wins == [])
    && (forall k :: 0 <= k < |s.shared.wins| ==> s.shared.wins[k] <= s.shared.last)
    && (forall t :: 0 <= t < |s.threads| ==> !s.threads[t].Loading? && !s.threads[t].Swapping?)
  }

  lemma EnterEffect(s: State, l: Label)
    requires l.thread < |s.threads| && s.threads[l.thread].Outside? && l.clock < CLOCK_LIMIT
    ensures Enter(s, l) ==
            if Due(l.clock, s.shared.last)
            then State(s.threads[l.thread := Draining(l.clock)],
                       s.shared.(last := l.clock, wins := s.shared.wins + [l.clock]))
            else State(s.threads[l.thread := Suppressing], s.shared)
  {
    var t := l.thread;
    var s1 := Step(s, l);
    assert s1 == State(s.threads[t := Loading(l.clock)], s.shared);
    var s2 := Step(s1, l);
    assert s1.threads[t := Suppressing] == s.threads[t := Suppressing];
    if Due(l.clock, s.shared.last) {
      assert s2 == State(s1.threads[t := Swapping(l.clock, s.shared.last)], s.shared);
      assert s2.threads[t := Draining(l.clock)] == s.threads[t := Draining(l.clock)];
    }
  }

  lemma AtomicStepKeepsOrder(s: State, l: Label, before: nat)
    requires Orderly(s, before) && before <= l.clock && 0 < l.clock < CLOCK_LIMIT
    ensures Orderly(AtomicStep(s, l), l.clock)
  {
    if l.thread < |s.threads| && s.threads[l.thread].Outside? {
      EnterEffect(s, l);
      hide Enter;
      if Due(l.clock, s.shared.last) && s.shared.last != 0 {
        DueMeansLaterIff(l.clock, s.shared.last);
      }
    }
  }

  lemma {:induction false} AtomicRunIsOrderly(threads: nat, schedule: seq<Label>)
    requires Ticking(schedule)
    ensures Orderly(AtomicRun(Init(threads), schedule), if schedule == [] then 0 else schedule[|schedule| - 1].clock)
  {
    if schedule != [] {
      var before, l := schedule[..|schedule| - 1], schedule[|schedule| - 1];
      AtomicRunIsOrderly(threads, before);
      assert before != [] ==> before[|before| - 1] == schedule[|schedule| - 2];
      AtomicStepKeepsOrder(AtomicRun(Init(threads), before), l, if before == [] then 0 else before[|before| - 1].clock);
    }
  }

  /**
   When clock reading and swap are one step, any two warnings are stamped at least a second
   apart, in every interleaving of the rest.
   */
  lemma AtomicEntryIsSpaced(threads: nat, schedule: seq<Label>)
    requires Ticking(schedule)
    ensures var sh := AtomicRun(Init(threads), schedule).shared;
            Spaced(sh.wins) && Apart(sh.lines)
  {
    AtomicRunIsOrderly(threads, schedule);
    var fine := AtomicRunIsARun(Init(threads), schedule);
    WarningsInheritSpacing(threads, fine);
  }

  // ----- calls one at a time -----

  /** A whole call with nothing in between. */
  function Call(sh: Shared, now: nat): Shared {
    if Due(now, sh.last)
    then Shared(now, 0, sh.wins + [now], sh.lines + [Line(now, sh.suppressed, now)], sh.finished + 1)
    else sh.(suppressed := sh.suppressed + 1, finished := sh.finished + 1)
  }

  /** It is the machine driving one thread. */
  lemma CallIsSolo(sh: Shared, now: nat)
    requires now < CLOCK_LIMIT
    ensures var (p1, s1) := Act(sh, Outside, now);
            var (p2, s2) := Act(s1, p1, now);
            var (p3, s3) := Act(s2, p2, now);
            if Due(now, sh.last)
            then var (p4, s4) := Act(s3, p3, now);
                 var (p5, s5) := Act(s4, p4, now);
                 p5 == Outside && s5 == Call(sh, now)
            else p3 == Outside && s3 == Call(sh, now)
  {
  }

  /**
   While the clock does not run backwards a call prints exactly when it is the first or a
   second has passed since the stamp; the line reports every event suppressed since.
   */
  lemma CallPrintsIff(sh: Shared, now: nat)
    requires sh.last <= now < CLOCK_LIMIT
    ensures var sh' := Call(sh, now);
            if sh.last == 0 || now - sh.last >= 1_000_000_000
            then sh'.lines == sh.lines + [Line(now, sh.suppressed, now)] && sh'.suppressed == 0 && sh'.last == now
            else sh'.lines == sh.lines && sh'.suppressed == sh.suppressed + 1 && sh'.last == sh.last
  {
  }

  /** Before the first win nothing is suppressed: every thread inside is still on its way to a swap it will win. */
  ghost predicate Untouched(s: State) {
    s.shared.wins == [] ==>
      && s.shared.last == 0 && s.shared.finished == 0
      && forall t :: 0 <= t < |s.threads| ==>
           s.threads[t].Outside? || s.threads[t].Loading? || (s.threads[t].Swapping? && s.threads[t].previous == 0)
  }

  lemma StepKeepsUntouched(s: State, l: Label)
    requires Untouched(s)
    ensures Untouched(Step(s, l))
  {
    if l.thread < |s.threads| {
      var (pc, sh) := Act(s.shared, s.threads[l.thread], l.clock);
      assert sh.wins == [] ==> s.shared.wins == [];
    }
  }

  lemma {:induction false} RunKeepsUntouched(threads: nat, schedule: seq<Label>)
    ensures Untouched(Run(Init(threads), schedule))
  {
    if schedule != [] {
      RunKeepsUntouched(threads, schedule[..|schedule| - 1]);
      hide Untouched;
      StepKeepsUntouched(Run(Init(threads), schedule[..|schedule| - 1]), schedule[|schedule| - 1]);
    }
  }

  /** The limiter never silences everything: once calls have finished, a warning was printed or is being printed. */
  lemma SomeWarningGetsOut(threads: nat, schedule: seq<Label>)
    ensures var s := Run(Init(threads), schedule);
            && (s.shared.finished > 0 ==> |s.shared.lines| + Total(s.threads, Pending) > 0)
            && (s.shared.finished > 0 && AllPrinted(s) ==> s.shared.lines != [])
  {
    RunKeepsUntouched(threads, schedule);
    FewerLinesThanWins(threads, schedule);
    var s := Run(Init(threads), schedule);
    if AllPrinted(s) {
      TotalIsZero(s.threads, Pending);
    }
  }

  // ----- when warnings are printed -----

  lemma AtomicAppend(s: State, schedule: seq<Label>, l: Label)
    ensures AtomicRun(s, schedule + [l]) == AtomicStep(AtomicRun(s, schedule), l)
  {
    assert (schedule + [l])[..|schedule|] == schedule;
  }

  /** Two wins a second apart whose threads are held up before printing. */
  function HeldUp(first: nat, second: nat): seq<Label> {
    var slow, fast := Label(0, second), Label(1, second);
    [Label(0, first)] + [fast] + [slow] + [fast] + [slow] + [fast]
  }

  lemma BothWin(s0: State, first: nat, second: nat) returns (s2: State)
    requires s0 == State([Outside, Outside], EMPTY) && 0 < first && first + INTERVAL_NS <= second < CLOCK_LIMIT
    ensures s2 == State([Draining(first), Draining(second)], Shared(second, 0, [first, second], [], 0))
    ensures AtomicRun(s0, [Label(0, first)] + [Label(1, second)]) == s2
  {
    hide Enter;
    var l, fast := Label(0, first), Label(1, second);
    assert [] + [l] == [l];
    AtomicAppend(s0, [], l);
    AtomicAppend(s0, [l], fast);
    EnterEffect(s0, l);
    assert AtomicRun(s0, []) == s0;
    hide AtomicRun;
    var s1 := AtomicStep(s0, l);
    assert s1 == State([Draining(first), Outside], Shared(first, 0, [first], [], 0));
    EnterEffect(s1, fast);
    assert Elapsed(second, first) == second - first;
    s2 := AtomicStep(s1, fast);
    assert s2.threads == [Draining(first), Draining(second)] && s2.shared.wins == [first, second];
  }

  lemma BothPrintAt(s0: State, s2: State, before: seq<Label>, first: nat, second: nat)
    requires AtomicRun(s0, before) == s2
    requires s2 == State([Draining(first), Draining(second)], Shared(second, 0, [first, second], [], 0))
    ensures var slow, fast := Label(0, second), Label(1, second);
            AtomicRun(s0, before + [slow] + [fast] + [slow] + [fast]).shared.lines == [Line(first, 0, second), Line(second, 0, second)]
  {
    hide AtomicRun;
    hide Enter;
    var slow, fast := Label(0, second), Label(1, second);
    AtomicAppend(s0, before, slow);
    AtomicAppend(s0, before + [slow], fast);
    AtomicAppend(s0, before + [slow] + [fast], slow);
    AtomicAppend(s0, before + [slow] + [fast] + [slow], fast);
    var s3 := AtomicStep(s2, slow);
    assert s3.threads == [Logging(first, 0), Draining(second)];
    var s4 := AtomicStep(s3, fast);
    assert s4.threads == [Logging(first, 0), Logging(second, 0)];
    var s5 := AtomicStep(s4, slow);
    assert s5.threads == [Outside, Logging(second, 0)];
  }

  /** Even with entering as one step, the two warnings come out at one instant. */
  lemma PrintsCanCoincide(first: nat, second: nat)
    requires 0 < first && first + INTERVAL_NS <= second < CLOCK_LIMIT
    ensures Ticking(HeldUp(first, second))
    ensures AtomicRun(Init(2), HeldUp(first, second)).shared.lines == [Line(first, 0, second), Line(second, 0, second)]
  {
    var s0 := Init(2);
    assert s0.threads == [Outside, Outside];
    hide AtomicRun;
    var s2 := BothWin(s0, first, second);
    BothPrintAt(s0, s2, [Label(0, first)] + [Label(1, second)], first, second);
  }

  lemma {:induction false} SpacedSpan(wins: seq<nat>)
    requires Spaced(wins) && wins != []
    ensures (|wins| - 1) * INTERVAL_NS <= wins[|wins| - 1] - wins[0]
  {
    if |wins| > 1 {
      var rest := wins[..|wins| - 1];
      SpacedSpan(rest);
      assert wins[|wins| - 1] - wins[|wins| - 2] >= INTERVAL_NS;
    }
  }

  /** What is left of the promise: over any stretch of time the average is one warning per second, plus one. */
  lemma RateHolds(threads: nat, schedule: seq<Label>)
    requires Ticking(schedule)
    ensures var sh := AtomicRun(Init(threads), schedule).shared;
            sh.wins != [] ==>
              && schedule != [] && |sh.lines| <= |sh.wins|
              && (|sh.wins| - 1) * INTERVAL_NS <= schedule[|schedule| - 1].clock - sh.wins[0]
  {
    AtomicRunIsOrderly(threads, schedule);
    var s := AtomicRun(Init(threads), schedule);
    if s.shared.wins != [] {
      SpacedSpan(s.shared.wins);
      var fine := AtomicRunIsARun(Init(threads), schedule);
      FewerLinesThanWins(threads, fine);
    }
  }

  /** A thread that has won and not printed yet. */
  function Pending(pc: Pc): int {
    if pc.Draining? || pc.Logging? then 1 else 0
  }

  lemma ActPrints(sh: Shared, pc: Pc, clock: nat)
    ensures var (pc', sh') := Act(sh, pc, clock);
            |sh'.wins| - |sh'.lines| - (|sh.wins| - |sh.lines|) == Pending(pc') - Pending(pc)
  {
  }

  lemma {:induction false} FewerLinesThanWins(threads: nat, schedule: seq<Label>)
    ensures var s := Run(Init(threads), schedule);
            |s.shared.wins| == |s.shared.lines| + Total(s.threads, Pending) && |s.shared.lines| <= |s.shared.wins|
  {
    if schedule == [] {
      TotalIsZero(Init(threads).threads, Pending);
    } else {
      var before, l := schedule[..|schedule| - 1], schedule[|schedule| - 1];
      FewerLinesThanWins(threads, before);
      var s := Run(Init(threads), before);
      if l.thread < |s.threads| {
        ActPrints(s.shared, s.threads[l.thread], l.clock);
        hide Act;
        TotalUpdate(s.threads, l.thread, Act(s.shared, s.threads[l.thread], l.clock).0, Pending);
      }
    }
    TotalIsNonnegative(Run(Init(threads), schedule).threads, Pending);
  }

  /** The function with its two static variables. */
  class Limiter {
    var lastLogNs: nat
    var suppressed: nat
    var lines: seq<Line>
    ghost var wins: seq<nat>
    ghost var finished: nat

    ghost function Model(): Shared
      reads this
    {
      Shared(lastLogNs, suppressed, wins, lines, finished)
    }

    constructor ()
      ensures Model() == EMPTY
    {
      lastLogNs, suppressed, lines, wins, finished := 0, 0, [], [], 0;
    }

    method LogEnqueuePressure(now: nat)
      modifies this
      ensures Model() == Call(old(Model()), now)
    {
      var previous := lastLogNs;
      if previous == 0 || (now - previous) % CLOCK_LIMIT >= INTERVAL_NS {
        if lastLogNs == previous {
          lastLogNs := now;
          wins := wins + [now];
          var drained := suppressed;
          suppressed := 0;
          lines := lines + [Line(now, drained, now)];
          finished := finished + 1;
          return;
        }
      }
      suppressed := suppressed + 1;
      finished := finished + 1;
    }
  }
}
