/** The eight-slot observer table of the runtime, as a set of (callback, context) pairs. */
module Observers {
  import opened Wrappers
  import opened Assurance

  const OBSERVER_CAPACITY: nat := 8

  /** Callbacks and context pointers are opaque addresses. */
  datatype Observer = Observer(callback: nat, context: nat)

  /** `None` is a slot whose callback pointer is null. */
  type Slot = Option<Observer>

  function IndexFrom(slots: seq<Slot>, s: Slot, i: nat): (r: Option<nat>)
    requires i <= |slots|
    ensures r.Some? ==> i <= r.value < |slots| && slots[r.value] == s
    ensures r.None? ==> forall k :: i <= k < |slots| ==> slots[k] != s
    decreases |slots| - i
  {
    if i == |slots| then None else if slots[i] == s then Some(i) else IndexFrom(slots, s, i + 1)
  }

  function Register(slots: seq<Slot>, o: Observer): (Status, seq<Slot>) {
    if IndexFrom(slots, Some(o), 0).Some? then (AlreadyExists, slots)
    else
      match IndexFrom(slots, None, 0)
      case Some(i) => (Ok, slots[i := Some(o)])
      case None => (ListFull, slots)
  }

  function Unregister(slots: seq<Slot>, o: Observer): (Status, seq<Slot>) {
    match IndexFrom(slots, Some(o), 0)
    case Some(i) => (Ok, slots[i := None])
    case None => (NotFound, slots)
  }

  /** The observers a notification calls, in slot order, from slot i on. */
  function CalledFrom(slots: seq<Slot>, i: nat): seq<Observer>
    requires i <= |slots|
    decreases |slots| - i
  {
    if i == |slots| then []
    else (if slots[i].Some? then [slots[i].value] else []) + CalledFrom(slots, i + 1)
  }

  /** No pair occupies two slots. */
  ghost predicate Unique(slots: seq<Slot>) {
    forall i, j :: 0 <= i < j < |slots| && slots[i].Some? ==> slots[i] != slots[j]
  }

  ghost function Members(slots: seq<Slot>): set<Observer> {
    set i | 0 <= i < |slots| && slots[i].Some? :: slots[i].value
  }

  /** The slots but the last, and the members they hold. */
  lemma MembersSplit(slots: seq<Slot>)
    requires Unique(slots) && slots != []
    ensures var rest, last := slots[..|slots| - 1], slots[|slots| - 1];
            && Unique(rest)
            && Members(slots) == Members(rest) + (if last.Some? then {last.value} else {})
            && (last.Some? ==> last.value !in Members(rest))
  {
    var rest, last := slots[..|slots| - 1], slots[|slots| - 1];
    assert forall i :: 0 <= i < |rest| ==> rest[i] == slots[i];
    forall o | o in Members(slots) ensures o in Members(rest) + (if last.Some? then {last.value} else {}) {
      var i :| 0 <= i < |slots| && slots[i].Some? && slots[i].value == o;
      assert i < |rest| ==> rest[i].value == o;
    }
    assert last.Some? ==> slots[|rest|].value in Members(slots);
  }

  ghost predicate Full(slots: seq<Slot>) {
    forall i :: 0 <= i < |slots| ==> slots[i].Some?
  }

  lemma FullSplit(slots: seq<Slot>)
    requires slots != []
    ensures Full(slots) <==> slots[|slots| - 1].Some? && Full(slots[..|slots| - 1])
  {
    assert forall i :: 0 <= i < |slots| - 1 ==> slots[..|slots| - 1][i] == slots[i];
  }

  /** Members of a table with a free slot leave room; of a full one they do not. */
  lemma {:induction false} MemberCount(slots: seq<Slot>)
    requires Unique(slots)
    ensures |Members(slots)| <= |slots|
    ensures |Members(slots)| == |slots| <==> Full(slots)
  {
    if slots != [] {
      var rest, last := slots[..|slots| - 1], slots[|slots| - 1];
      MembersSplit(slots);
      MemberCount(rest);
      hide Members;
      hide Unique;
      assert |Members(slots)| == |Members(rest)| + if last.Some? then 1 else 0;
      FullSplit(slots);
    }
  }

  /** Registration is set insertion, refused for a member and for a full table. */
  lemma RegisterRefinesInsert(slots: seq<Slot>, o: Observer)
    requires Unique(slots)
    ensures var (status, slots') := Register(slots, o);
            && Unique(slots') && |slots'| == |slots|
            && (status == AlreadyExists <==> o in Members(slots))
            && (status == ListFull <==> o !in Members(slots) && |Members(slots)| == |slots|)
            && (status == Ok <==> o !in Members(slots) && |Members(slots)| < |slots|)
            && Members(slots') == if status == Ok then Members(slots) + {o} else Members(slots)
  {
    MemberCount(slots);
    var found, free := IndexFrom(slots, Some(o), 0), IndexFrom(slots, None, 0);
    assert found.Some? ==> slots[found.value].value in Members(slots);
    if found.None? && free.Some? {
      FillSlot(slots, free.value, o);
    }
  }

  lemma FillSlot(slots: seq<Slot>, free: nat, o: Observer)
    requires Unique(slots) && free < |slots| && slots[free].None? && Some(o) !in slots
    ensures Unique(slots[free := Some(o)]) && Members(slots[free := Some(o)]) == Members(slots) + {o}
  {
    var slots' := slots[free := Some(o)];
    forall x | x in Members(slots) + {o} ensures x in Members(slots') {
      if x == o {
        assert slots'[free].value == x;
      } else {
        var i :| 0 <= i < |slots| && slots[i].Some? && slots[i].value == x;
        assert slots'[i].value == x;
      }
    }
  }

  /** Unregistration is set removal. */
  lemma UnregisterRefinesRemove(slots: seq<Slot>, o: Observer)
    requires Unique(slots)
    ensures var (status, slots') := Unregister(slots, o);
            && Unique(slots') && |slots'| == |slots|
            && (status == Ok <==> o in Members(slots))
            && Members(slots') == Members(slots) - {o}
  {
    var found := IndexFrom(slots, Some(o), 0);
    if found.Some? {
      var slots' := slots[found.value := None];
      assert slots[found.value].value in Members(slots);
      forall x | x in Members(slots) - {o} ensures x in Members(slots') {
        var i :| 0 <= i < |slots| && slots[i].Some? && slots[i].value == x;
        assert slots'[i].value == x;
      }
    }
  }

  /** A notification calls every member exactly once. */
  lemma NotificationVisitsEachOnce(slots: seq<Slot>)
    requires Unique(slots)
    ensures multiset(CalledFrom(slots, 0)) == multiset(Members(slots))
  {
    CalledIsMembersFrom(slots, 0);
    assert MembersFrom(slots, 0) == Members(slots);
  }

  ghost function MembersFrom(slots: seq<Slot>, i: nat): set<Observer> {
    set k | i <= k < |slots| && slots[k].Some? :: slots[k].value
  }

  lemma MembersFromSplit(slots: seq<Slot>, i: nat)
    requires Unique(slots) && i < |slots|
    ensures MembersFrom(slots, i) == MembersFrom(slots, i + 1) + (if slots[i].Some? then {slots[i].value} else {})
    ensures slots[i].Some? ==> slots[i].value !in MembersFrom(slots, i + 1)
  {
  }

  /** The calls are the members, each once. */
  ghost predicate Visits(called: seq<Observer>, members: set<Observer>) {
    multiset(called) == multiset(members)
  }

  lemma OneMore(called: seq<Observer>, members: set<Observer>, o: Observer)
    requires Visits(called, members) && o !in members
    ensures Visits([o] + called, members + {o})
  {
  }

  lemma {:induction false} CalledIsMembersFrom(slots: seq<Slot>, i: nat)
    requires Unique(slots) && i <= |slots|
    ensures Visits(CalledFrom(slots, i), MembersFrom(slots, i))
    decreases |slots| - i
  {
    if i < |slots| {
      CalledIsMembersFrom(slots, i + 1);
      MembersFromSplit(slots, i);
      CalledSplit(slots, i);
      hide MembersFrom;
      hide CalledFrom;
      hide Unique;
      hide Visits;
      if slots[i].Some? {
        OneMore(CalledFrom(slots, i + 1), MembersFrom(slots, i + 1), slots[i].value);
      } else {
        assert MembersFrom(slots, i) == MembersFrom(slots, i + 1);
      }
    } else {
      assert MembersFrom(slots, i) == {};
    }
  }

  lemma CalledSplit(slots: seq<Slot>, i: nat)
    requires i < |slots|
    ensures CalledFrom(slots, i) ==
            if slots[i].Some? then [slots[i].value] + CalledFrom(slots, i + 1) else CalledFrom(slots, i + 1)
  {
  }

  // ----- whole runs -----

  datatype Op = Enter(observer: Observer) | Leave(observer: Observer)

  /** The table of a new runtime after these calls. */
  function SlotsAfter(ops: seq<Op>): seq<Slot> {
    if ops == [] then seq(OBSERVER_CAPACITY, _ => None)
    else
      var before, op := SlotsAfter(ops[..|ops| - 1]), ops[|ops| - 1];
      match op
      case Enter(o) => Register(before, o).1
      case Leave(o) => Unregister(before, o).1
  }

  /** The same calls on a set of at most eight. */
  function SetAfter(ops: seq<Op>): set<Observer> {
    if ops == [] then {}
    else
      var before, op := SetAfter(ops[..|ops| - 1]), ops[|ops| - 1];
      match op
      case Enter(o) => if |before| < 8 then before + {o} else before
      case Leave(o) => before - {o}
  }

  /** After every run the table is that set, each pair in one slot. */
  lemma {:induction false} TableIsABoundedSet(ops: seq<Op>)
    ensures Unique(SlotsAfter(ops)) && |SlotsAfter(ops)| == OBSERVER_CAPACITY
    ensures Members(SlotsAfter(ops)) == SetAfter(ops) && |SetAfter(ops)| <= 8
  {
    if ops != [] {
      var before, op := ops[..|ops| - 1], ops[|ops| - 1];
      TableIsABoundedSet(before);
      hide Members;
      hide Unique;
      hide Register;
      hide Unregister;
      RegisterRefinesInsert(SlotsAfter(before), op.observer);
      UnregisterRefinesRemove(SlotsAfter(before), op.observer);
      MemberCount(SlotsAfter(ops));
      if op.Enter? && op.observer in SetAfter(before) {
        assert SetAfter(before) + {op.observer} == SetAfter(before);
      }
    }
  }
}
