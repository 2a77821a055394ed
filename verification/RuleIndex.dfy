/**
 The rule manager's state as a value: a bounded list of rules and a hash index of 257
 bounded buckets over it.  Rules are handles (addresses); `names` is the memory of the
 live ones, and an address may be handed out again after it was freed.
 */
module RuleIndex {
  import opened Wrappers

  type Handle = nat

  const BUCKET_COUNT: nat := 257
  const BUCKET_CAPACITY: nat := 8
  const LIST_CAPACITY: nat := 256
  const NAME_LENGTH: nat := 63
  const SIZE_LIMIT: nat := 0x1_0000_0000_0000_0000

  datatype Entry = Entry(key: string, rule: Handle)

  datatype Manager = Manager(list: seq<Handle>, names: map<Handle, string>, buckets: seq<seq<Entry>>)

  /** Outcomes of the allocations an index update may need. */
  datatype Memory = Memory(entryAllocated: bool, nodeAllocated: bool)

  datatype Status = Ok | OperationFailed | NotFound

  /** The djb2 hash with 64-bit wrap-around. */
  function Djb2(key: string): nat {
    if key == "" then 5381
    else (Djb2(key[..|key| - 1]) * 33 + key[|key| - 1] as nat % 256) % SIZE_LIMIT
  }

  function Bucket(key: string): (b: nat)
    ensures b < BUCKET_COUNT
  {
    Djb2(key) % BUCKET_COUNT
  }

  /** Rule and key buffers keep 63 characters. */
  function Truncate(name: string): string {
    if |name| <= NAME_LENGTH then name else name[..NAME_LENGTH]
  }

  function Create(): Manager {
    Manager([], map[], seq(BUCKET_COUNT, _ => []))
  }

  // ----- the index -----

  function FindEntry(bucket: seq<Entry>, key: string, i: nat): (r: Option<nat>)
    requires i <= |bucket|
    ensures r.Some? ==> i <= r.value < |bucket| && bucket[r.value].key == key
    ensures r.None? ==> forall k :: i <= k < |bucket| ==> bucket[k].key != key
    decreases |bucket| - i
  {
    if i == |bucket| then None else if bucket[i].key == key then Some(i) else FindEntry(bucket, key, i + 1)
  }

  function IndexFind(m: Manager, name: string): Option<Handle>
    requires |m.buckets| == BUCKET_COUNT
  {
    var bucket := m.buckets[Bucket(name)];
    match FindEntry(bucket, name, 0)
    case Some(i) => Some(bucket[i].rule)
    case None => None
  }

  /** The bucket after an upsert; `None` when it fails and nothing changes. */
  function UpsertEntry(bucket: seq<Entry>, name: string, rule: Handle, memory: Memory): Option<seq<Entry>> {
    match FindEntry(bucket, name, 0)
    case Some(i) => Some(bucket[i := Entry(bucket[i].key, rule)])
    case None =>
      if memory.entryAllocated && |bucket| < BUCKET_CAPACITY && memory.nodeAllocated
      then Some(bucket + [Entry(Truncate(name), rule)])
      else None
  }

  function Upsert(m: Manager, name: string, rule: Handle, memory: Memory): Manager
    requires |m.buckets| == BUCKET_COUNT
  {
    match UpsertEntry(m.buckets[Bucket(name)], name, rule, memory)
    case Some(bucket) => m.(buckets := m.buckets[Bucket(name) := bucket])
    case None => m
  }

  function RemoveEntry(bucket: seq<Entry>, name: string): seq<Entry> {
    match FindEntry(bucket, name, 0)
    case Some(i) => bucket[..i] + bucket[i + 1..]
    case None => bucket
  }

  function IndexRemove(m: Manager, name: string): Manager
    requires |m.buckets| == BUCKET_COUNT
  {
    m.(buckets := m.buckets[Bucket(name) := RemoveEntry(m.buckets[Bucket(name)], name)])
  }

  // ----- lookup -----

  predicate IsNamed(names: map<Handle, string>, rule: Handle, name: string) {
    rule in names && names[rule] == name
  }

  /** The first listed rule of that name, at or after i: the plain scan. */
  function ScanFrom(list: seq<Handle>, names: map<Handle, string>, name: string, i: nat): (r: Option<Handle>)
    requires i <= |list|
    ensures r.Some? ==> r.value in list && IsNamed(names, r.value, name)
    ensures r.None? ==> forall k :: i <= k < |list| ==> !IsNamed(names, list[k], name)
    decreases |list| - i
  {
    if i == |list| then None
    else if IsNamed(names, list[i], name) then Some(list[i])
    else ScanFrom(list, names, name, i + 1)
  }

  /** Index first, then the scan, which repairs the index. */
  function Lookup(m: Manager, name: string, memory: Memory): (Option<Handle>, Manager)
    requires |m.buckets| == BUCKET_COUNT
  {
    match IndexFind(m, name)
    case Some(rule) => (Some(rule), m)
    case None =>
      match ScanFrom(m.list, m.names, name, 0)
      case Some(rule) => (Some(rule), Upsert(m, name, rule, memory))
      case None => (None, m)
  }

  // ----- operations -----

  /** `address` is the address the allocator returns; `created` and `listed` say whether the two allocations succeed. */
  function MakeRule(m: Manager, name: string, address: Handle, created: bool, listed: bool, memory: Memory): (Option<Handle>, Manager)
    requires |m.buckets| == BUCKET_COUNT
  {
    var (found, m1) := Lookup(m, name, memory);
    if found.Some? then (found, m1)
    else if !created || address in m.names then (None, m1)
    else
      var m2 := m1.(names := m1.names[address := Truncate(name)],
                    list := if |m1.list| < LIST_CAPACITY && listed then m1.list + [address] else m1.list);
      (Some(address), Upsert(m2, Truncate(name), address, memory))
  }

  /** `rule` is a live rule built by the caller. */
  function AddRule(m: Manager, rule: Handle, listed: bool, memory: Memory): (Status, Manager)
    requires |m.buckets| == BUCKET_COUNT && rule in m.names
  {
    var (found, m1) := Lookup(m, m.names[rule], memory);
    if found.Some? then (Ok, m1)
    else if !(|m1.list| < LIST_CAPACITY && listed) then (OperationFailed, m1)
    else (Ok, Upsert(m1.(list := m1.list + [rule]), m.names[rule], rule, memory))
  }

  function IndexOf(list: seq<Handle>, rule: Handle, i: nat): (r: Option<nat>)
    requires i <= |list|
    ensures r.Some? ==> i <= r.value < |list| && list[r.value] == rule
    ensures r.None? ==> rule !in list[i..]
    decreases |list| - i
  {
    if i == |list| then None else if list[i] == rule then Some(i) else IndexOf(list, rule, i + 1)
  }

  /** Unlists, unindexes and frees the rule. */
  function RemoveRule(m: Manager, rule: Handle): (Status, Manager)
    requires |m.buckets| == BUCKET_COUNT && rule in m.names
  {
    match IndexOf(m.list, rule, 0)
    case None => (NotFound, m)
    case Some(i) =>
      var m1 := IndexRemove(m.(list := m.list[..i] + m.list[i + 1..]), m.names[rule]);
      (Ok, m1.(names := m1.names - {rule}))
  }

  // ----- invariants -----

  /** An entry sits in its key's bucket and names a live rule of exactly that name. */
  predicate EntryOk(names: map<Handle, string>, b: nat, e: Entry) {
    Bucket(e.key) == b && IsNamed(names, e.rule, e.key)
  }

  ghost predicate BucketOk(names: map<Handle, string>, b: nat, bucket: seq<Entry>) {
    && (forall i :: 0 <= i < |bucket| ==> EntryOk(names, b, bucket[i]))
    && (forall i, j :: 0 <= i < j < |bucket| ==> bucket[i].key != bucket[j].key)
    && |bucket| <= BUCKET_CAPACITY
  }

  ghost predicate ListOk(list: seq<Handle>, names: map<Handle, string>) {
    && (forall i :: 0 <= i < |list| ==> list[i] in names)
    && (forall i, j :: 0 <= i < j < |list| ==> list[i] != list[j])
    && (forall r :: r in names ==> |names[r]| <= NAME_LENGTH)
    && |list| <= LIST_CAPACITY
  }

  /** Holds in every run: no dangling entry, no key twice. */
  ghost predicate Indexed(m: Manager) {
    && |m.buckets| == BUCKET_COUNT
    && ListOk(m.list, m.names)
    && forall b :: 0 <= b < BUCKET_COUNT ==> BucketOk(m.names, b, m.buckets[b])
  }

  /** Every indexed rule is listed. */
  ghost predicate Consistent(m: Manager) {
    && Indexed(m)
    && forall b, i :: 0 <= b < BUCKET_COUNT && 0 <= i < |m.buckets[b]| ==> m.buckets[b][i].rule in m.list
  }

  lemma CreateIsConsistent()
    ensures Consistent(Create())
  {
  }

  // ----- preservation -----

  lemma UpsertKeepsBucketOk(names: map<Handle, string>, b: nat, bucket: seq<Entry>, name: string, rule: Handle, memory: Memory)
    requires BucketOk(names, b, bucket) && b == Bucket(name)
    requires IsNamed(names, rule, name) && |name| <= NAME_LENGTH
    ensures var r := UpsertEntry(bucket, name, rule, memory);
            r.Some? ==> BucketOk(names, b, r.value)
  {
  }

  lemma UpsertKeepsIndexed(m: Manager, name: string, rule: Handle, memory: Memory)
    requires Indexed(m) && IsNamed(m.names, rule, name)
    ensures Indexed(Upsert(m, name, rule, memory))
    ensures Upsert(m, name, rule, memory).list == m.list && Upsert(m, name, rule, memory).names == m.names
  {
    UpsertKeepsBucketOk(m.names, Bucket(name), m.buckets[Bucket(name)], name, rule, memory);
  }

  lemma UpsertKeepsConsistent(m: Manager, name: string, rule: Handle, memory: Memory)
    requires Consistent(m) && IsNamed(m.names, rule, name) && rule in m.list
    ensures Consistent(Upsert(m, name, rule, memory))
  {
    UpsertKeepsIndexed(m, name, rule, memory);
  }

  /** An index hit is a live rule of exactly that name. */
  lemma IndexFindIsSound(m: Manager, name: string)
    requires Indexed(m) && IndexFind(m, name).Some?
    ensures IsNamed(m.names, IndexFind(m, name).value, name)
    ensures Consistent(m) ==> IndexFind(m, name).value in m.list
  {
    var b := Bucket(name);
    var i := FindEntry(m.buckets[b], name, 0).value;
    assert EntryOk(m.names, b, m.buckets[b][i]);
  }

  /**
   The lookup theorem: a result is live and has exactly the name; a listed name is always
   found; and where the index lists only listed rules, so does the lookup.
   */
  lemma LookupIsSound(m: Manager, name: string, memory: Memory)
    requires Indexed(m)
    ensures var (r, m') := Lookup(m, name, memory);
            && Indexed(m') && m'.list == m.list && m'.names == m.names
            && (r.Some? ==> IsNamed(m.names, r.value, name))
            && ((exists h :: h in m.list && IsNamed(m.names, h, name)) ==> r.Some?)
            && (Consistent(m) ==> Consistent(m') && (r.Some? <==> exists h :: h in m.list && IsNamed(m.names, h, name)))
            && (Consistent(m) && r.Some? ==> r.value in m.list)
  {
    if IndexFind(m, name).Some? {
      IndexFindIsSound(m, name);
    } else {
      var scan := ScanFrom(m.list, m.names, name, 0);
      if scan.Some? {
        UpsertKeepsIndexed(m, name, scan.value, memory);
        if Consistent(m) {
          UpsertKeepsConsistent(m, name, scan.value, memory);
        }
      }
    }
  }

  ghost predicate UniqueIn(list: seq<Handle>, names: map<Handle, string>) {
    forall i, j :: 0 <= i < j < |list| && list[i] in names && list[j] in names ==> names[list[i]] != names[list[j]]
  }

  /** No two listed rules share a name. */
  ghost predicate UniqueNames(m: Manager) {
    UniqueIn(m.list, m.names)
  }

  /** With unique names the indexed lookup is the first-match scan. */
  lemma LookupIsTheScan(m: Manager, name: string, memory: Memory)
    requires Consistent(m) && UniqueNames(m)
    ensures Lookup(m, name, memory).0 == ScanFrom(m.list, m.names, name, 0)
  {
    LookupIsSound(m, name, memory);
    var r, scan := Lookup(m, name, memory).0, ScanFrom(m.list, m.names, name, 0);
    if r.Some? {
      var h :| h in m.list && IsNamed(m.names, h, name);
      assert scan.Some?;
      var i :| 0 <= i < |m.list| && m.list[i] == r.value;
      var j :| 0 <= j < |m.list| && m.list[j] == scan.value;
      assert i == j;
    }
  }

  /** Listing a new rule keeps the list well formed, and naming one more live rule keeps the buckets. */
  lemma ExtendKeepsIndexed(m: Manager, rule: Handle, name: string, list: seq<Handle>)
    requires Indexed(m) && rule !in m.names && |name| <= NAME_LENGTH
    requires list == m.list || (list == m.list + [rule] && |m.list| < LIST_CAPACITY)
    ensures Indexed(m.(names := m.names[rule := name], list := list))
    ensures Consistent(m) ==> Consistent(m.(names := m.names[rule := name], list := list))
  {
    var m' := m.(names := m.names[rule := name], list := list);
    assert rule !in m.list;
    forall b | 0 <= b < BUCKET_COUNT ensures BucketOk(m'.names, b, m'.buckets[b]) {
      assert BucketOk(m.names, b, m.buckets[b]);
      forall i | 0 <= i < |m.buckets[b]| ensures EntryOk(m'.names, b, m.buckets[b][i]) {
        assert EntryOk(m.names, b, m.buckets[b][i]);
      }
    }
  }

  /** The make that breaks consistency: a new rule that reaches the index but not the list. */
  predicate Overflows(m: Manager, name: string, address: Handle, created: bool, listed: bool, memory: Memory)
    requires |m.buckets| == BUCKET_COUNT
  {
    && Lookup(m, name, memory).0.None?
    && created && address !in m.names
    && !(|m.list| < LIST_CAPACITY && listed)
    && UpsertEntry(m.buckets[Bucket(Truncate(name))], Truncate(name), address, memory).Some?
  }

  lemma MakeKeepsIndexed(m: Manager, name: string, address: Handle, created: bool, listed: bool, memory: Memory)
    requires Indexed(m)
    ensures Indexed(MakeRule(m, name, address, created, listed, memory).1)
    ensures var r := MakeRule(m, name, address, created, listed, memory);
            r.0.Some? ==> IsNamed(r.1.names, r.0.value, name) || IsNamed(r.1.names, r.0.value, Truncate(name))
  {
    LookupIsSound(m, name, memory);
    var (found, m1) := Lookup(m, name, memory);
    if found.None? && created && address !in m.names {
      var list := if |m1.list| < LIST_CAPACITY && listed then m1.list + [address] else m1.list;
      ExtendKeepsIndexed(m1, address, Truncate(name), list);
      UpsertKeepsIndexed(m1.(names := m1.names[address := Truncate(name)], list := list), Truncate(name), address, memory);
    }
  }

  /** A make keeps the index within the list exactly when it does not overflow. */
  lemma MakeKeepsConsistentIff(m: Manager, name: string, address: Handle, created: bool, listed: bool, memory: Memory)
    requires Consistent(m)
    ensures Consistent(MakeRule(m, name, address, created, listed, memory).1) <==> !Overflows(m, name, address, created, listed, memory)
  {
    LookupIsSound(m, name, memory);
    MakeKeepsIndexed(m, name, address, created, listed, memory);
    var (found, m1) := Lookup(m, name, memory);
    if found.None? && created && address !in m.names {
      var list := if |m1.list| < LIST_CAPACITY && listed then m1.list + [address] else m1.list;
      var m2 := m1.(names := m1.names[address := Truncate(name)], list := list);
      ExtendKeepsIndexed(m1, address, Truncate(name), list);
      if address in list {
        UpsertKeepsConsistent(m2, Truncate(name), address, memory);
      } else {
        MissedLookupLeavesManager(m, name, memory);
        UnlistedUpsert(m2, Truncate(name), address, memory);
      }
    }
  }

  lemma MissedLookupLeavesManager(m: Manager, name: string, memory: Memory)
    requires |m.buckets| == BUCKET_COUNT && Lookup(m, name, memory).0.None?
    ensures Lookup(m, name, memory).1 == m
  {
  }

  /** Indexing an unlisted rule is what consistency forbids. */
  lemma UnlistedUpsert(m: Manager, name: string, rule: Handle, memory: Memory)
    requires Consistent(m) && rule !in m.list
    ensures Consistent(Upsert(m, name, rule, memory)) <==> UpsertEntry(m.buckets[Bucket(name)], name, rule, memory).None?
  {
    var b := Bucket(name);
    var r := UpsertEntry(m.buckets[b], name, rule, memory);
    if r.Some? {
      var i := match FindEntry(m.buckets[b], name, 0) case Some(k) => k case None => |m.buckets[b]|;
      assert r.value[i].rule == rule;
      assert Upsert(m, name, rule, memory).buckets[b][i].rule == rule;
    }
  }

  /** One failed list allocation is enough: the rule is found although nothing is listed. */
  lemma OverflowIsReachable(name: string)
    requires |name| <= NAME_LENGTH
    ensures var m := MakeRule(Create(), name, 1, true, false, Memory(true, true)).1;
            m.list == [] && IndexFind(m, name) == Some(1) && !Consistent(m)
  {
    CreateIsConsistent();
    var m := MakeRule(Create(), name, 1, true, false, Memory(true, true)).1;
    assert Create().buckets[Bucket(name)] == [];
    assert m.buckets[Bucket(name)] == [Entry(name, 1)];
    assert m.buckets[Bucket(name)][0].rule !in m.list;
  }

  lemma AddKeepsInvariants(m: Manager, rule: Handle, listed: bool, memory: Memory)
    requires Indexed(m) && rule in m.names
    ensures Indexed(AddRule(m, rule, listed, memory).1)
    ensures Consistent(m) ==> Consistent(AddRule(m, rule, listed, memory).1)
  {
    var name := m.names[rule];
    LookupIsSound(m, name, memory);
    var (found, m1) := Lookup(m, name, memory);
    if found.None? && |m1.list| < LIST_CAPACITY && listed {
      var m2 := m1.(list := m1.list + [rule]);
      assert IsNamed(m.names, rule, name);
      assert rule !in m.list;
      assert ListOk(m2.list, m2.names);
      UpsertKeepsIndexed(m2, name, rule, memory);
      if Consistent(m1) {
        UpsertKeepsConsistent(m2, name, rule, memory);
      }
    }
  }

  // ----- removal -----

  lemma RemoveEntryKeepsBucket(names: map<Handle, string>, b: nat, bucket: seq<Entry>, rule: Handle)
    requires BucketOk(names, b, bucket) && rule in names && b == Bucket(names[rule])
    ensures BucketOk(names - {rule}, b, RemoveEntry(bucket, names[rule]))
    ensures forall i :: 0 <= i < |RemoveEntry(bucket, names[rule])| ==> RemoveEntry(bucket, names[rule])[i] in bucket
  {
    var bucket' := RemoveEntry(bucket, names[rule]);
    var found := FindEntry(bucket, names[rule], 0);
    forall i | 0 <= i < |bucket'| ensures bucket'[i] in bucket && EntryOk(names - {rule}, b, bucket'[i]) {
      var k := if found.Some? && i >= found.value then i + 1 else i;
      assert bucket'[i] == bucket[k];
      assert EntryOk(names, b, bucket[k]);
    }
  }

  lemma OtherBucketSurvives(names: map<Handle, string>, b: nat, bucket: seq<Entry>, rule: Handle)
    requires BucketOk(names, b, bucket) && rule in names && b != Bucket(names[rule])
    ensures BucketOk(names - {rule}, b, bucket)
  {
    forall i | 0 <= i < |bucket| ensures EntryOk(names - {rule}, b, bucket[i]) {
      assert EntryOk(names, b, bucket[i]);
    }
  }

  lemma UnlistKeepsListOk(list: seq<Handle>, names: map<Handle, string>, i: nat)
    requires ListOk(list, names) && i < |list|
    ensures ListOk(list[..i] + list[i + 1..], names - {list[i]})
    ensures forall h :: h in list && h != list[i] ==> h in list[..i] + list[i + 1..]
    ensures list[i] !in list[..i] + list[i + 1..]
  {
    var list' := list[..i] + list[i + 1..];
    forall k | 0 <= k < |list'| ensures list'[k] == list[if k < i then k else k + 1] {
    }
    forall h | h in list && h != list[i] ensures h in list' {
      var k :| 0 <= k < |list| && list[k] == h;
      assert list'[if k < i then k else k - 1] == h;
    }
  }

  /** Removing a rule frees it and leaves no entry behind, even among rules of the same name. */
  lemma RemoveKeepsInvariants(m: Manager, rule: Handle)
    requires Indexed(m) && rule in m.names
    ensures Indexed(RemoveRule(m, rule).1)
    ensures Consistent(m) ==> Consistent(RemoveRule(m, rule).1)
    ensures RemoveRule(m, rule).0 == Ok <==> rule in m.list
    ensures rule in m.list ==> rule !in RemoveRule(m, rule).1.names && rule !in RemoveRule(m, rule).1.list
  {
    var found := IndexOf(m.list, rule, 0);
    if found.Some? {
      UnlistKeepsListOk(m.list, m.names, found.value);
      RemovedBuckets(m, rule, found.value);
    }
  }

  lemma RemovedBuckets(m: Manager, rule: Handle, at: nat)
    requires Indexed(m) && rule in m.names && IndexOf(m.list, rule, 0) == Some(at)
    requires ListOk(m.list[..at] + m.list[at + 1..], m.names - {rule})
    requires forall h :: h in m.list && h != rule ==> h in m.list[..at] + m.list[at + 1..]
    ensures Indexed(RemoveRule(m, rule).1)
    ensures Consistent(m) ==> Consistent(RemoveRule(m, rule).1)
  {
    var m' := RemoveRule(m, rule).1;
    var n := Bucket(m.names[rule]);
    RemoveEntryKeepsBucket(m.names, n, m.buckets[n], rule);
    forall b | 0 <= b < BUCKET_COUNT
      ensures BucketOk(m'.names, b, m'.buckets[b])
      ensures forall i :: 0 <= i < |m'.buckets[b]| ==> m'.buckets[b][i] in m.buckets[b]
    {
      if b != n {
        OtherBucketSurvives(m.names, b, m.buckets[b], rule);
      }
    }
    if Consistent(m) {
      forall b, i | 0 <= b < BUCKET_COUNT && 0 <= i < |m'.buckets[b]| ensures m'.buckets[b][i].rule in m'.list {
        assert EntryOk(m'.names, b, m'.buckets[b][i]);
        var k :| 0 <= k < |m.buckets[b]| && m.buckets[b][k] == m'.buckets[b][i];
        assert m.buckets[b][k].rule in m.list;
      }
    }
  }

  // ----- every run -----

  datatype Op =
    | Make(name: string, address: Handle, created: bool, listed: bool, memory: Memory)
    | Get(name: string, memory: Memory)
    | Build(address: Handle, name: string)
    | Add(rule: Handle, listed: bool, memory: Memory)
    | Remove(rule: Handle)

  /** `Build` is a caller creating a rule of its own; callers pass only live rules. */
  function Apply(m: Manager, op: Op): (m': Manager)
    requires |m.buckets| == BUCKET_COUNT
    ensures |m'.buckets| == BUCKET_COUNT
  {
    match op
    case Make(name, address, created, listed, memory) => MakeRule(m, name, address, created, listed, memory).1
    case Get(name, memory) => Lookup(m, name, memory).1
    case Build(address, name) => if address in m.names then m else m.(names := m.names[address := Truncate(name)])
    case Add(rule, listed, memory) => if rule in m.names then AddRule(m, rule, listed, memory).1 else m
    case Remove(rule) => if rule in m.names then RemoveRule(m, rule).1 else m
  }

  predicate OpOverflows(m: Manager, op: Op)
    requires |m.buckets| == BUCKET_COUNT
  {
    op.Make? && Overflows(m, op.name, op.address, op.created, op.listed, op.memory)
  }

  lemma ApplyKeepsIndexed(m: Manager, op: Op)
    requires Indexed(m)
    ensures Indexed(Apply(m, op))
  {
    match op
    case Make(name, address, created, listed, memory) => MakeKeepsIndexed(m, name, address, created, listed, memory);
    case Get(name, memory) => LookupIsSound(m, name, memory);
    case Build(address, name) =>
      if address !in m.names {
        ExtendKeepsIndexed(m, address, Truncate(name), m.list);
      }
    case Add(rule, listed, memory) =>
      if rule in m.names {
        AddKeepsInvariants(m, rule, listed, memory);
      }
    case Remove(rule) =>
      if rule in m.names {
        RemoveKeepsInvariants(m, rule);
      }
  }

  lemma ApplyKeepsConsistentIff(m: Manager, op: Op)
    requires Consistent(m)
    ensures Consistent(Apply(m, op)) <==> !OpOverflows(m, op)
  {
    match op
    case Make(name, address, created, listed, memory) => MakeKeepsConsistentIff(m, name, address, created, listed, memory);
    case Get(name, memory) => LookupIsSound(m, name, memory);
    case Build(address, name) =>
      if address !in m.names {
        ExtendKeepsIndexed(m, address, Truncate(name), m.list);
      }
    case Add(rule, listed, memory) =>
      if rule in m.names {
        AddKeepsInvariants(m, rule, listed, memory);
      }
    case Remove(rule) =>
      if rule in m.names {
        RemoveKeepsInvariants(m, rule);
      }
  }

  // ----- unique names -----

  /** The make that lists a second rule of one name: only the cut-off part of the name differs. */
  predicate Duplicates(m: Manager, op: Op) {
    && op.Make? && |op.name| > NAME_LENGTH
    && op.created && op.address !in m.names
    && |m.list| < LIST_CAPACITY && op.listed
    && exists h :: h in m.list && IsNamed(m.names, h, Truncate(op.name))
  }

  /** A name that does not fit is never found. */
  lemma LongNameIsNeverFound(m: Manager, name: string, memory: Memory)
    requires Indexed(m) && |name| > NAME_LENGTH
    ensures Lookup(m, name, memory) == (None, m)
  {
    LookupIsSound(m, name, memory);
  }

  lemma UpsertKeepsList(m: Manager, name: string, rule: Handle, memory: Memory)
    requires |m.buckets| == BUCKET_COUNT
    ensures Upsert(m, name, rule, memory).list == m.list && Upsert(m, name, rule, memory).names == m.names
  {
  }

  lemma AppendKeepsUniqueIff(list: seq<Handle>, names: map<Handle, string>, rule: Handle)
    requires ListOk(list, names) && rule in names && rule !in list
    requires UniqueIn(list, names)
    ensures UniqueIn(list + [rule], names) <==> forall h :: h in list ==> !IsNamed(names, h, names[rule])
  {
    var list' := list + [rule];
    if UniqueIn(list', names) {
      forall h | h in list ensures !IsNamed(names, h, names[rule]) {
        var i :| 0 <= i < |list| && list[i] == h;
        assert list'[i] == h && list'[|list|] == rule;
      }
    }
    if forall h :: h in list ==> !IsNamed(names, h, names[rule]) {
      forall i | 0 <= i < |list| ensures !IsNamed(names, list'[i], names[rule]) {
        assert list'[i] == list[i] && list[i] in list;
      }
    }
  }

  lemma MakeKeepsUniqueIff(m: Manager, op: Op)
    requires Indexed(m) && UniqueNames(m) && op.Make?
    ensures UniqueNames(Apply(m, op)) <==> !Duplicates(m, op)
  {
    LookupIsSound(m, op.name, op.memory);
    if Lookup(m, op.name, op.memory).0.None? {
      MissedLookupLeavesManager(m, op.name, op.memory);
      NewNameKeepsUniqueIff(m, op);
    }
  }

  lemma NewNameKeepsUniqueIff(m: Manager, op: Op)
    requires Indexed(m) && UniqueNames(m) && op.Make? && Lookup(m, op.name, op.memory) == (None, m)
    requires forall h :: h in m.list ==> !IsNamed(m.names, h, op.name)
    ensures UniqueNames(Apply(m, op)) <==> !Duplicates(m, op)
  {
    hide Lookup;
    var Make(name, address, created, listed, memory) := op;
    if created && address !in m.names {
      var push := |m.list| < LIST_CAPACITY && listed;
      var m2 := m.(names := m.names[address := Truncate(name)], list := if push then m.list + [address] else m.list);
      UpsertKeepsList(m2, Truncate(name), address, memory);
      NamingKeepsUnique(m.list, m.names, address, Truncate(name));
      if push {
        AppendKeepsUniqueIff(m.list, m2.names, address);
      }
    }
  }

  lemma NamingKeepsUnique(list: seq<Handle>, names: map<Handle, string>, rule: Handle, name: string)
    requires ListOk(list, names) && rule !in names && |name| <= NAME_LENGTH
    requires UniqueIn(list, names)
    ensures UniqueIn(list, names[rule := name]) && ListOk(list, names[rule := name]) && rule !in list
    ensures forall h :: h in list ==> (IsNamed(names[rule := name], h, name) <==> IsNamed(names, h, name))
  {
  }

  /** Every other operation keeps listed names unique. */
  lemma ApplyKeepsUniqueIff(m: Manager, op: Op)
    requires Indexed(m) && UniqueNames(m)
    ensures UniqueNames(Apply(m, op)) <==> !Duplicates(m, op)
  {
    match op
    case Make(name, address, created, listed, memory) => MakeKeepsUniqueIff(m, op);
    case Get(name, memory) => LookupIsSound(m, name, memory);
    case Build(address, name) =>
      if address !in m.names {
        NamingKeepsUnique(m.list, m.names, address, Truncate(name));
      }
    case Add(rule, listed, memory) =>
      if rule in m.names {
        AddKeepsUnique(m, rule, listed, memory);
      }
    case Remove(rule) =>
      if rule in m.names {
        RemoveKeepsUnique(m, rule);
      }
  }

  lemma AddKeepsUnique(m: Manager, rule: Handle, listed: bool, memory: Memory)
    requires Indexed(m) && UniqueNames(m) && rule in m.names
    ensures UniqueNames(AddRule(m, rule, listed, memory).1)
  {
    var name := m.names[rule];
    LookupIsSound(m, name, memory);
    var (found, m1) := Lookup(m, name, memory);
    if found.None? && |m1.list| < LIST_CAPACITY && listed {
      assert IsNamed(m.names, rule, name);
      AppendKeepsUniqueIff(m1.list, m1.names, rule);
      UpsertKeepsList(m1.(list := m1.list + [rule]), name, rule, memory);
    }
  }

  lemma RemoveKeepsUnique(m: Manager, rule: Handle)
    requires Indexed(m) && UniqueNames(m) && rule in m.names
    ensures UniqueNames(RemoveRule(m, rule).1)
  {
    var found := IndexOf(m.list, rule, 0);
    if found.Some? {
      var m' := RemoveRule(m, rule).1;
      assert m'.list == m.list[..found.value] + m.list[found.value + 1..] && m'.names == m.names - {rule};
      forall k | 0 <= k < |m'.list| ensures m'.list[k] == m.list[if k < found.value then k else k + 1] {
      }
    }
  }

  // ----- whole runs -----

  function Run(ops: seq<Op>): (m: Manager)
    ensures |m.buckets| == BUCKET_COUNT
  {
    if ops == [] then Create() else Apply(Run(ops[..|ops| - 1]), ops[|ops| - 1])
  }

  lemma {:induction false} RunKeepsIndexed(ops: seq<Op>)
    ensures Indexed(Run(ops))
  {
    if ops == [] {
      CreateIsConsistent();
    } else {
      RunKeepsIndexed(ops[..|ops| - 1]);
      ApplyKeepsIndexed(Run(ops[..|ops| - 1]), ops[|ops| - 1]);
    }
  }

  ghost predicate NeverOverflows(ops: seq<Op>) {
    forall k :: 0 <= k < |ops| ==> !OpOverflows(Run(ops[..k]), ops[k])
  }

  ghost predicate NeverDuplicates(ops: seq<Op>) {
    forall k :: 0 <= k < |ops| ==> !Duplicates(Run(ops[..k]), ops[k])
  }

  lemma {:induction false} RunKeepsNamesUnique(ops: seq<Op>)
    requires NeverDuplicates(ops)
    ensures UniqueNames(Run(ops))
  {
    if ops != [] {
      var before := ops[..|ops| - 1];
      forall k | 0 <= k < |before| ensures !Duplicates(Run(before[..k]), before[k]) {
        assert before[..k] == ops[..k] && before[k] == ops[k];
      }
      RunKeepsNamesUnique(before);
      RunKeepsIndexed(before);
      assert !Duplicates(Run(ops[..|ops| - 1]), ops[|ops| - 1]);
      ApplyKeepsUniqueIff(Run(before), ops[|ops| - 1]);
    }
  }

  lemma {:induction false} RunIsConsistent(ops: seq<Op>)
    requires NeverOverflows(ops)
    ensures Consistent(Run(ops))
  {
    hide Consistent;
    hide OpOverflows;
    hide Apply;
    if ops == [] {
      CreateIsConsistent();
    } else {
      var before := ops[..|ops| - 1];
      forall k | 0 <= k < |before| ensures !OpOverflows(Run(before[..k]), before[k]) {
        assert before[..k] == ops[..k] && before[k] == ops[k];
      }
      RunIsConsistent(before);
      assert !OpOverflows(Run(ops[..|ops| - 1]), ops[|ops| - 1]);
      ApplyKeepsConsistentIff(Run(before), ops[|ops| - 1]);
    }
  }

  /**
   After any run, whatever allocations failed: a hit is live and has exactly the name, and a
   miss means no listed rule has it.  Without overflow a hit is listed; without duplicates
   too, the indexed lookup is the plain first-match scan.
   */
  lemma IndexRefinesList(ops: seq<Op>, name: string, memory: Memory)
    ensures var m := Run(ops);
            var r := Lookup(m, name, memory).0;
            && (r.Some? ==> IsNamed(m.names, r.value, name))
            && (r.None? ==> forall h :: h in m.list ==> !IsNamed(m.names, h, name))
            && (NeverOverflows(ops) && r.Some? ==> r.value in m.list)
            && (NeverOverflows(ops) && NeverDuplicates(ops) ==> r == ScanFrom(m.list, m.names, name, 0))
  {
    var m := Run(ops);
    RunKeepsIndexed(ops);
    LookupIsSound(m, name, memory);
    if NeverOverflows(ops) {
      RunIsConsistent(ops);
      if NeverDuplicates(ops) {
        RunKeepsNamesUnique(ops);
        LookupIsTheScan(m, name, memory);
      }
    }
  }

  /** A make of a name that does not fit always lists another rule, while there is room. */
  lemma LongMakeLists(m: Manager, name: string, address: Handle, memory: Memory)
    requires Indexed(m) && |name| > NAME_LENGTH && address !in m.names && |m.list| < LIST_CAPACITY
    ensures var m' := MakeRule(m, name, address, true, true, memory).1;
            m'.list == m.list + [address] && m'.names == m.names[address := Truncate(name)]
  {
    LongNameIsNeverFound(m, name, memory);
    hide Lookup;
    UpsertKeepsList(m.(names := m.names[address := Truncate(name)], list := m.list + [address]), Truncate(name), address, memory);
  }

  /** Two makes of one long name list two rules of one name. */
  lemma LongNameDuplicates(name: string, memory: Memory)
    requires |name| > NAME_LENGTH
    ensures var m := Run([Make(name, 1, true, true, memory), Make(name, 2, true, true, memory)]);
            m.list == [1, 2] && IsNamed(m.names, 1, Truncate(name)) && IsNamed(m.names, 2, Truncate(name)) && !UniqueNames(m)
  {
    var ops := [Make(name, 1, true, true, memory), Make(name, 2, true, true, memory)];
    assert ops[..1] == [ops[0]] && ops[..1][..0] == [];
    CreateIsConsistent();
    var m1 := MakeRule(Create(), name, 1, true, true, memory).1;
    assert Run(ops[..0]) == Create();
    assert Run(ops[..1]) == Apply(Run(ops[..1][..0]), ops[0]);
    assert Run(ops[..1]) == m1;
    RunKeepsIndexed(ops[..1]);
    LongMakeLists(Create(), name, 1, memory);
    LongMakeLists(m1, name, 2, memory);
    hide MakeRule;
    var m := Run(ops);
    assert m == MakeRule(m1, name, 2, true, true, memory).1;
    assert m.list[0] == 1 && m.list[1] == 2;
  }
}
