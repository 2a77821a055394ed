/**
 What the rule manager's operations come to, told by later lookups: what an add, a make or a
 lookup registers is found again, a removed rule is not, and the lookups of every other name
 stay as they were.
 */
module RuleOutcomes {
  import opened Wrappers
  import opened Arithmetic
  import opened RuleIndex

  // ----- searches -----

  lemma {:induction false} FindEntryIs(bucket: seq<Entry>, key: string, i: nat, at: nat)
    requires i <= at < |bucket| && bucket[at].key == key
    requires forall k :: i <= k < at ==> bucket[k].key != key
    ensures FindEntry(bucket, key, i) == Some(at)
    decreases at - i
  {
    if i < at {
      FindEntryIs(bucket, key, i + 1, at);
    }
  }

  lemma {:induction false} FindEntryMisses(bucket: seq<Entry>, key: string, i: nat)
    requires i <= |bucket|
    requires forall k :: i <= k < |bucket| ==> bucket[k].key != key
    ensures FindEntry(bucket, key, i).None?
    decreases |bucket| - i
  {
    if i < |bucket| {
      FindEntryMisses(bucket, key, i + 1);
    }
  }

  lemma {:induction false} ScanIs(list: seq<Handle>, names: map<Handle, string>, name: string, i: nat, at: nat)
    requires i <= at < |list| && IsNamed(names, list[at], name)
    requires forall k :: i <= k < at ==> !IsNamed(names, list[k], name)
    ensures ScanFrom(list, names, name, i) == Some(list[at])
    decreases at - i
  {
    if i < at {
      ScanIs(list, names, name, i + 1, at);
    }
  }

  lemma {:induction false} ScanMisses(list: seq<Handle>, names: map<Handle, string>, name: string, i: nat)
    requires i <= |list|
    requires forall k :: i <= k < |list| ==> !IsNamed(names, list[k], name)
    ensures ScanFrom(list, names, name, i).None?
    decreases |list| - i
  {
    if i < |list| {
      ScanMisses(list, names, name, i + 1);
    }
  }

  /** The scan's answer has a first position. */
  lemma {:induction false} ScanHits(list: seq<Handle>, names: map<Handle, string>, name: string, i: nat) returns (at: nat)
    requires i <= |list| && ScanFrom(list, names, name, i).Some?
    ensures i <= at < |list| && IsNamed(names, list[at], name) && ScanFrom(list, names, name, i) == Some(list[at])
    ensures forall k :: i <= k < at ==> !IsNamed(names, list[k], name)
    decreases |list| - i
  {
    if IsNamed(names, list[i], name) {
      at := i;
    } else {
      at := ScanHits(list, names, name, i + 1);
    }
  }

  /** A rule of another name, wherever it stands, does not disturb the scan. */
  lemma ScanAppend(list: seq<Handle>, names: map<Handle, string>, name: string, rule: Handle)
    requires !IsNamed(names, rule, name)
    ensures ScanFrom(list + [rule], names, name, 0) == ScanFrom(list, names, name, 0)
  {
    if ScanFrom(list, names, name, 0).Some? {
      var at := ScanHits(list, names, name, 0);
      ScanIs(list + [rule], names, name, 0, at);
    } else {
      ScanMisses(list + [rule], names, name, 0);
    }
  }

  lemma ScanWithout(list: seq<Handle>, names: map<Handle, string>, name: string, i: nat)
    requires ListOk(list, names) && i < |list| && !IsNamed(names, list[i], name)
    ensures ScanFrom(list[..i] + list[i + 1..], names - {list[i]}, name, 0) == ScanFrom(list, names, name, 0)
  {
    var list', names' := list[..i] + list[i + 1..], names - {list[i]};
    assert forall k :: 0 <= k < |list'| ==> list'[k] == list[if k < i then k else k + 1];
    if ScanFrom(list, names, name, 0).Some? {
      var at := ScanHits(list, names, name, 0);
      ScanIs(list', names', name, 0, if at < i then at else at - 1);
    } else {
      ScanMisses(list', names', name, 0);
    }
  }

  /** Naming one more live rule that is not listed changes no scan. */
  lemma ScanNaming(list: seq<Handle>, names: map<Handle, string>, name: string, rule: Handle, ruleName: string)
    requires ListOk(list, names) && rule !in names
    ensures ScanFrom(list, names[rule := ruleName], name, 0) == ScanFrom(list, names, name, 0)
  {
    if ScanFrom(list, names, name, 0).Some? {
      var at := ScanHits(list, names, name, 0);
      ScanIs(list, names[rule := ruleName], name, 0, at);
    } else {
      ScanMisses(list, names[rule := ruleName], name, 0);
    }
  }

  // ----- the index -----

  lemma FoundAfterUpsert(m: Manager, name: string, rule: Handle, memory: Memory)
    requires |m.buckets| == BUCKET_COUNT && |name| <= NAME_LENGTH
    ensures var r := IndexFind(Upsert(m, name, rule, memory), name);
            if UpsertEntry(m.buckets[Bucket(name)], name, rule, memory).Some? then r == Some(rule) else r.None?
  {
    var bucket := m.buckets[Bucket(name)];
    var after := UpsertEntry(bucket, name, rule, memory);
    if after.Some? {
      var at := match FindEntry(bucket, name, 0) case Some(i) => i case None => |bucket|;
      FirstOfKey(bucket, name);
      FindEntryIs(after.value, name, 0, at);
    }
  }

  /** The search stops at the first entry of the key. */
  lemma FirstOfKey(bucket: seq<Entry>, key: string)
    ensures var at := match FindEntry(bucket, key, 0) case Some(i) => i case None => |bucket|;
            forall k :: 0 <= k < at ==> bucket[k].key != key
  {
    FirstFrom(bucket, key, 0);
  }

  lemma {:induction false} FirstFrom(bucket: seq<Entry>, key: string, i: nat)
    requires i <= |bucket|
    ensures var at := match FindEntry(bucket, key, i) case Some(j) => j case None => |bucket|;
            forall k :: i <= k < at ==> bucket[k].key != key
    decreases |bucket| - i
  {
    if i < |bucket| && bucket[i].key != key {
      FirstFrom(bucket, key, i + 1);
    }
  }

  /** An upsert leaves the entries of other keys alone. */
  lemma UpsertKeepsOthers(m: Manager, name: string, rule: Handle, memory: Memory, other: string)
    requires |m.buckets| == BUCKET_COUNT && |name| <= NAME_LENGTH && other != name
    ensures IndexFind(Upsert(m, name, rule, memory), other) == IndexFind(m, other)
  {
    var bucket := m.buckets[Bucket(name)];
    var after := UpsertEntry(bucket, name, rule, memory);
    if after.Some? && Bucket(other) == Bucket(name) {
      FirstOfKey(bucket, other);
      if FindEntry(bucket, other, 0).Some? {
        FindEntryIs(after.value, other, 0, FindEntry(bucket, other, 0).value);
      } else {
        FindEntryMisses(after.value, other, 0);
      }
    }
  }

  lemma RemoveKeepsOthers(bucket: seq<Entry>, name: string, other: string)
    requires other != name
    ensures match (FindEntry(bucket, other, 0), FindEntry(RemoveEntry(bucket, name), other, 0))
            case (Some(i), Some(j)) => bucket[i] == RemoveEntry(bucket, name)[j]
            case (None, None) => true
            case _ => false
  {
    var found, after := FindEntry(bucket, name, 0), RemoveEntry(bucket, name);
    if found.Some? {
      assert forall k :: 0 <= k < |after| ==> after[k] == bucket[if k < found.value then k else k + 1];
      FirstOfKey(bucket, other);
      var at := FindEntry(bucket, other, 0);
      if at.Some? {
        FindEntryIs(after, other, 0, if at.value < found.value then at.value else at.value - 1);
      } else {
        FindEntryMisses(after, other, 0);
      }
    }
  }

  // ----- lookups -----

  /** A lookup asked again gives the same answer, whatever memory either call found. */
  lemma LookupIsStable(m: Manager, name: string, memory: Memory, later: Memory)
    requires Indexed(m)
    ensures Lookup(Lookup(m, name, memory).1, name, later).0 == Lookup(m, name, memory).0
  {
    LookupIsSound(m, name, memory);
    if IndexFind(m, name).None? && ScanFrom(m.list, m.names, name, 0).Some? {
      FoundAfterUpsert(m, name, ScanFrom(m.list, m.names, name, 0).value, memory);
    }
  }

  /** And it changes the lookup of no other name. */
  lemma LookupKeepsOthers(m: Manager, name: string, memory: Memory, other: string, later: Memory)
    requires Indexed(m) && other != name
    ensures Lookup(Lookup(m, name, memory).1, other, later).0 == Lookup(m, other, later).0
  {
    LookupIsSound(m, name, memory);
    if IndexFind(m, name).None? && ScanFrom(m.list, m.names, name, 0).Some? {
      UpsertKeepsOthers(m, name, ScanFrom(m.list, m.names, name, 0).value, memory, other);
    }
  }

  /** A lookup answered by the scan puts the name back into the index, if there is memory and fewer than eight entries. */
  lemma LookupRepairs(m: Manager, name: string, memory: Memory)
    requires Indexed(m) && IndexFind(m, name).None?
    ensures var (r, m') := Lookup(m, name, memory);
            && r == ScanFrom(m.list, m.names, name, 0)
            && IndexFind(m', name) ==
               if memory.entryAllocated && memory.nodeAllocated && |m.buckets[Bucket(name)]| < 8 then r else None
  {
    LookupIsSound(m, name, memory);
    var scan := ScanFrom(m.list, m.names, name, 0);
    if scan.Some? {
      FoundAfterUpsert(m, name, scan.value, memory);
    }
  }

  // ----- adds -----

  /**
   An add fails exactly when the name is not found and the list has 256 rules or no node, and
   then changes nothing.  Otherwise the name is found from then on: as before if it was found
   before, else as the added rule, which is listed last.
   */
  lemma AddOutcome(m: Manager, rule: Handle, listed: bool, memory: Memory, later: Memory)
    requires Indexed(m) && rule in m.names
    ensures var found := Lookup(m, m.names[rule], memory).0;
            var (status, m') := AddRule(m, rule, listed, memory);
            && status == (if found.None? && (|m.list| >= 256 || !listed) then OperationFailed else Ok)
            && (status == OperationFailed ==> m' == m)
            && m'.names == m.names
            && m'.list == (if found.None? && status == Ok then m.list + [rule] else m.list)
            && (status == Ok ==> Lookup(m', m.names[rule], later).0 == if found.Some? then found else Some(rule))
            && (status == Ok && found.None? ==>
                  IndexFind(m', m.names[rule]) ==
                  if memory.entryAllocated && memory.nodeAllocated && |m.buckets[Bucket(m.names[rule])]| < 8
                  then Some(rule) else None)
  {
    var name := m.names[rule];
    var (found, m1) := Lookup(m, name, memory);
    LookupIsSound(m, name, memory);
    if found.Some? {
      LookupIsStable(m, name, memory, later);
    } else if |m.list| < LIST_CAPACITY && listed {
      var m2 := m.(list := m.list + [rule]);
      UpsertKeepsList(m2, name, rule, memory);
      FoundAfterUpsert(m2, name, rule, memory);
      assert forall k :: 0 <= k < |m.list| ==> m.list[k] in m.list && !IsNamed(m.names, m2.list[k], name);
      ScanIs(m2.list, m.names, name, 0, |m.list|);
    }
  }

  /** An add changes the lookup of no other name. */
  lemma AddKeepsOthers(m: Manager, rule: Handle, listed: bool, memory: Memory, other: string, later: Memory)
    requires Indexed(m) && rule in m.names && other != m.names[rule]
    ensures Lookup(AddRule(m, rule, listed, memory).1, other, later).0 == Lookup(m, other, later).0
  {
    var name := m.names[rule];
    var (found, m1) := Lookup(m, name, memory);
    LookupKeepsOthers(m, name, memory, other, later);
    if found.None? && |m1.list| < LIST_CAPACITY && listed {
      var m2 := m1.(list := m1.list + [rule]);
      UpsertKeepsList(m2, name, rule, memory);
      UpsertKeepsOthers(m2, name, rule, memory, other);
      ScanAppend(m.list, m.names, other, rule);
    }
  }

  // ----- makes -----

  /**
   A make gives the rule already found; else, with a block, a new rule of the first 63
   characters, listed last while there is room.  The new rule is found again exactly when it
   was listed or indexed.
   */
  lemma MakeOutcome(m: Manager, name: string, address: Handle, created: bool, listed: bool, memory: Memory, later: Memory)
    requires Indexed(m) && address !in m.names
    ensures var found := Lookup(m, name, memory).0;
            var (r, m') := MakeRule(m, name, address, created, listed, memory);
            var room := |m.list| < 256 && listed;
            var indexed := memory.entryAllocated && memory.nodeAllocated && |m.buckets[Bucket(name)]| < 8;
            && r == (if found.Some? then found else if created then Some(address) else None)
            && m'.names == (if found.None? && created then m.names[address := if |name| <= 63 then name else name[..63]] else m.names)
            && m'.list == (if found.None? && created && room then m.list + [address] else m.list)
            && (|name| <= 63 && r.Some? ==> Lookup(m', name, later).0 == if found.Some? || room || indexed then r else None)
  {
    var (found, m1) := Lookup(m, name, memory);
    LookupIsSound(m, name, memory);
    if found.Some? {
      LookupIsStable(m, name, memory, later);
    } else if created {
      MissedLookupLeavesManager(m, name, memory);
      NewRuleOutcome(m, name, address, listed, memory, later);
    }
  }

  /** The manager with the new rule, before it is indexed. */
  function Enrolled(m: Manager, name: string, address: Handle, listed: bool): Manager {
    m.(names := m.names[address := Truncate(name)],
       list := if |m.list| < LIST_CAPACITY && listed then m.list + [address] else m.list)
  }

  lemma NewRuleOutcome(m: Manager, name: string, address: Handle, listed: bool, memory: Memory, later: Memory)
    requires Indexed(m) && address !in m.names && Lookup(m, name, memory) == (None, m)
    ensures var m2 := Enrolled(m, name, address, listed);
            var (r, m') := MakeRule(m, name, address, true, listed, memory);
            var room := |m.list| < LIST_CAPACITY && listed;
            var indexed := memory.entryAllocated && memory.nodeAllocated && |m.buckets[Bucket(name)]| < BUCKET_CAPACITY;
            && r == Some(address) && m'.names == m2.names && m'.list == m2.list
            && (|name| <= NAME_LENGTH ==> Lookup(m', name, later).0 == if room || indexed then r else None)
  {
    var m2 := Enrolled(m, name, address, listed);
    UpsertKeepsList(m2, Truncate(name), address, memory);
    if |name| <= NAME_LENGTH {
      FoundAfterUpsert(m2, name, address, memory);
      LookupIsSound(m, name, memory);
      assert forall k :: 0 <= k < |m.list| ==> m.list[k] in m.list && !IsNamed(m2.names, m2.list[k], name);
      if |m.list| < LIST_CAPACITY && listed {
        ScanIs(m2.list, m2.names, name, 0, |m.list|);
      } else {
        ScanMisses(m2.list, m2.names, name, 0);
      }
    }
  }

  /** A make changes the lookup of no other name. */
  lemma MakeKeepsOthers(m: Manager, name: string, address: Handle, created: bool, listed: bool, memory: Memory, other: string, later: Memory)
    requires Indexed(m) && address !in m.names && other != name && other != Truncate(name)
    ensures Lookup(MakeRule(m, name, address, created, listed, memory).1, other, later).0 == Lookup(m, other, later).0
  {
    var (found, m1) := Lookup(m, name, memory);
    LookupKeepsOthers(m, name, memory, other, later);
    if found.None? && created {
      var m2 := Enrolled(m, name, address, listed);
      UpsertKeepsList(m2, Truncate(name), address, memory);
      UpsertKeepsOthers(m2, Truncate(name), address, memory, other);
      ScanNaming(m.list, m.names, other, address, Truncate(name));
      ScanAppend(m.list, m2.names, other, address);
    }
  }

  // ----- removals -----

  /**
   A removal of a listed rule takes that rule out of the list, the others keeping their
   order, and frees it; a removal of an unlisted one changes nothing.  No lookup gives the
   removed rule, and the lookups of other names give what they gave before.
   */
  lemma RemoveOutcome(m: Manager, rule: Handle, other: string, later: Memory)
    requires Indexed(m) && rule in m.names
    ensures var (status, m') := RemoveRule(m, rule);
            && (rule !in m.list ==> status == NotFound && m' == m)
            && (rule in m.list ==>
                  && status == Ok && m'.names == m.names - {rule}
                  && (exists i :: 0 <= i < |m.list| && m.list[i] == rule && m'.list == m.list[..i] + m.list[i + 1..])
                  && Lookup(m', other, later).0 != Some(rule)
                  && (other != m.names[rule] ==> Lookup(m', other, later).0 == Lookup(m, other, later).0))
  {
    var found := IndexOf(m.list, rule, 0);
    RemoveKeepsInvariants(m, rule);
    if found.Some? {
      hide ScanFrom;
      hide RemoveEntry;
      hide BucketOk;
      LookupIsSound(RemoveRule(m, rule).1, other, later);
      if other != m.names[rule] {
        RemovedKeepsOthers(m, rule, found.value, other, later);
      }
    }
  }

  lemma UnindexKeepsOthers(m: Manager, name: string, other: string)
    requires |m.buckets| == BUCKET_COUNT && other != name
    ensures IndexFind(IndexRemove(m, name), other) == IndexFind(m, other)
  {
    hide RemoveEntry;
    RemoveKeepsOthers(m.buckets[Bucket(name)], name, other);
  }

  lemma RemovedKeepsOthers(m: Manager, rule: Handle, at: nat, other: string, later: Memory)
    requires |m.buckets| == BUCKET_COUNT && ListOk(m.list, m.names)
    requires rule in m.names && IndexOf(m.list, rule, 0) == Some(at) && other != m.names[rule]
    ensures Lookup(RemoveRule(m, rule).1, other, later).0 == Lookup(m, other, later).0
  {
    hide RemoveEntry;
    hide FindEntry;
    hide ScanFrom;
    hide ListOk;
    UnindexKeepsOthers(m, m.names[rule], other);
    ScanWithout(m.list, m.names, other, at);
  }

  /** Every other listed rule stays listed under its name; the removed one is listed no more. */
  lemma RemoveKeepsListed(m: Manager, rule: Handle)
    requires Indexed(m) && rule in m.names
    ensures var (status, m') := RemoveRule(m, rule);
            && (status == Ok <==> rule in m.list) && rule !in m'.list
            && forall h :: h in m.list && h != rule ==> h in m'.list && h in m'.names && m'.names[h] == m.names[h]
  {
    var found := IndexOf(m.list, rule, 0);
    RemoveKeepsInvariants(m, rule);
    if found.Some? {
      UnlistKeepsListOk(m.list, m.names, found.value);
    }
  }

  lemma NoNamesakeStays(list: seq<Handle>, names: map<Handle, string>, at: nat)
    requires ListOk(list, names) && UniqueIn(list, names) && at < |list|
    ensures forall h :: h in list[..at] + list[at + 1..] ==> !IsNamed(names - {list[at]}, h, names[list[at]])
  {
    var list' := list[..at] + list[at + 1..];
    forall h | h in list' ensures !IsNamed(names - {list[at]}, h, names[list[at]]) {
      var k :| 0 <= k < |list'| && list'[k] == h;
      assert h == list[if k < at then k else k + 1];
    }
  }

  /** Where names are unique and every indexed rule is listed, the name is free again. */
  lemma RemovedNameIsFree(m: Manager, rule: Handle, later: Memory)
    requires Consistent(m) && UniqueNames(m) && rule in m.list
    ensures Lookup(RemoveRule(m, rule).1, m.names[rule], later).0.None?
  {
    var at := IndexOf(m.list, rule, 0).value;
    NoNamesakeStays(m.list, m.names, at);
    hide BucketOk;
    hide ListOk;
    hide UniqueIn;
    hide ScanFrom;
    hide RemoveEntry;
    RemoveKeepsInvariants(m, rule);
    LookupIsSound(RemoveRule(m, rule).1, m.names[rule], later);
  }

  // ----- the hash -----

  /** The hash without wrap-around. */
  function Unwrapped(key: string): nat {
    if key == "" then 5381 else Unwrapped(key[..|key| - 1]) * 33 + key[|key| - 1] as nat % 256
  }

  /** Wrapping at every character is wrapping once, at 64 bits; the bucket is that modulo 257. */
  lemma {:induction false} HashWrapsOnce(key: string)
    ensures Djb2(key) == Unwrapped(key) % 0x1_0000_0000_0000_0000
    ensures Bucket(key) == Djb2(key) % 257
  {
    if key != "" {
      var before, c := key[..|key| - 1], key[|key| - 1] as nat % 256;
      HashWrapsOnce(before);
      var x := Unwrapped(before);
      Division(x, SIZE_LIMIT);
      WrapStep(x % SIZE_LIMIT, x / SIZE_LIMIT, c);
      assert x == SIZE_LIMIT * (x / SIZE_LIMIT) + x % SIZE_LIMIT;
    }
  }

  lemma WrapStep(r: nat, q: nat, c: nat)
    ensures (r * 33 + c) % SIZE_LIMIT == ((SIZE_LIMIT * q + r) * 33 + c) % SIZE_LIMIT
  {
    AddMultiple(r * 33 + c, q * 33, SIZE_LIMIT);
    Reassociate(SIZE_LIMIT, q, 33);
  }
}
