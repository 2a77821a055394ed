/**
 The rule manager as an object: bucket array, rule list and the names of the live rules,
 updated in place.  Every method is tied to the value model in RuleIndex; its mutex makes
 each public method one step.
 */
module RuleManager {
  import opened Wrappers
  import opened RuleIndex
  import RuleOutcomes

  method RuleIndexHash(key: string) returns (bucket: nat)
    ensures bucket == Bucket(key)
  {
    var hash := 5381;
    var i := 0;
    while i < |key|
      invariant 0 <= i <= |key|
      invariant hash == Djb2(key[..i])
    {
      assert key[..i + 1][..i] == key[..i];
      hash := (hash * 33 + key[i] as nat % 256) % SIZE_LIMIT;
      i := i + 1;
    }
    assert key[..i] == key;
    bucket := hash % BUCKET_COUNT;
  }

  /** The list search that every index operation uses. */
  method FindKey(bucket: seq<Entry>, key: string) returns (r: Option<nat>)
    ensures r == FindEntry(bucket, key, 0)
  {
    var i := 0;
    while i < |bucket|
      invariant 0 <= i <= |bucket|
      invariant FindEntry(bucket, key, 0) == FindEntry(bucket, key, i)
    {
      if bucket[i].key == key {
        return Some(i);
      }
      i := i + 1;
    }
    return None;
  }

  method FindHandle(list: seq<Handle>, rule: Handle) returns (r: Option<nat>)
    ensures r == IndexOf(list, rule, 0)
  {
    var i := 0;
    while i < |list|
      invariant 0 <= i <= |list|
      invariant IndexOf(list, rule, 0) == IndexOf(list, rule, i)
    {
      if list[i] == rule {
        return Some(i);
      }
      i := i + 1;
    }
    return None;
  }

  class Rules {
    var list: seq<Handle>
    var names: map<Handle, string>
    var buckets: array<seq<Entry>>

    ghost predicate Shaped()
      reads this
    {
      buckets.Length == BUCKET_COUNT
    }

    ghost function Model(): Manager
      reads this, buckets
    {
      Manager(list, names, buckets[..])
    }

    /** No dangling entry, no key twice, whatever happened before. */
    ghost predicate Valid()
      reads this, buckets
    {
      Shaped() && Indexed(Model())
    }

    constructor ()
      ensures Valid() && fresh(buckets) && Model() == Create()
    {
      list, names := [], map[];
      buckets := new seq<Entry>[BUCKET_COUNT](_ => []);
      new;
      assert buckets[..] == Create().buckets;
      CreateIsConsistent();
    }

    method IndexFindLocked(name: string) returns (rule: Option<Handle>)
      requires Shaped()
      ensures rule == IndexFind(Model(), name)
    {
      var b := RuleIndexHash(name);
      var found := FindKey(buckets[b], name);
      rule := if found.Some? then Some(buckets[b][found.value].rule) else None;
    }

    method IndexUpsertLocked(name: string, rule: Handle, memory: Memory)
      requires Shaped()
      modifies buckets
      ensures Model() == Upsert(old(Model()), name, rule, memory)
    {
      var b := RuleIndexHash(name);
      var found := FindKey(buckets[b], name);
      if found.Some? {
        buckets[b] := buckets[b][found.value := buckets[b][found.value].(rule := rule)];
      } else if memory.entryAllocated && |buckets[b]| < BUCKET_CAPACITY && memory.nodeAllocated {
        buckets[b] := buckets[b] + [Entry(Truncate(name), rule)];
      }
    }

    method IndexRemoveLocked(name: string)
      requires Shaped()
      modifies buckets
      ensures Model() == IndexRemove(old(Model()), name)
    {
      var b := RuleIndexHash(name);
      var found := FindKey(buckets[b], name);
      if found.Some? {
        buckets[b] := buckets[b][..found.value] + buckets[b][found.value + 1..];
      }
    }

    method FindRuleByName(name: string, memory: Memory) returns (rule: Option<Handle>)
      requires Valid()
      modifies buckets
      ensures Valid() && (rule, Model()) == Lookup(old(Model()), name, memory)
    {
      LookupIsSound(Model(), name, memory);
      rule := IndexFindLocked(name);
      if rule.Some? {
        return;
      }
      var i := 0;
      while i < |list|
        invariant 0 <= i <= |list| && Model() == old(Model())
        invariant ScanFrom(list, names, name, 0) == ScanFrom(list, names, name, i)
      {
        if names[list[i]] == name {
          rule := Some(list[i]);
          IndexUpsertLocked(name, list[i], memory);
          return;
        }
        i := i + 1;
      }
    }

    /** `address` is the block a successful creation returns. */
    method MakeRule(name: string, address: Handle, created: bool, listed: bool, memory: Memory) returns (rule: Option<Handle>)
      requires Valid() && address !in names
      modifies this, buckets
      ensures Valid() && buckets == old(buckets)
      ensures (rule, Model()) == RuleIndex.MakeRule(old(Model()), name, address, created, listed, memory)
    {
      MakeKeepsIndexed(Model(), name, address, created, listed, memory);
      rule := FindRuleByName(name, memory);
      if rule.Some? || !created {
        return;
      }
      names := names[address := Truncate(name)];
      if |list| < LIST_CAPACITY && listed {
        list := list + [address];
      }
      IndexUpsertLocked(names[address], address, memory);
      rule := Some(address);
    }

    method GetRule(name: string, memory: Memory) returns (rule: Option<Handle>)
      requires Valid()
      modifies buckets
      ensures Valid() && (rule, Model()) == Lookup(old(Model()), name, memory)
      ensures rule.Some? ==> IsNamed(names, rule.value, name)
      ensures rule.None? ==> forall h :: h in list ==> !IsNamed(names, h, name)
    {
      LookupIsSound(Model(), name, memory);
      rule := FindRuleByName(name, memory);
    }

    method AddRule(rule: Handle, listed: bool, memory: Memory) returns (status: Status)
      requires Valid() && rule in names
      modifies this, buckets
      ensures Valid() && buckets == old(buckets)
      ensures (status, Model()) == RuleIndex.AddRule(old(Model()), rule, listed, memory)
      ensures names == old(names)
      ensures status == Ok ==> forall later :: Lookup(Model(), names[rule], later).0.Some?
      ensures status != Ok ==> Model() == old(Model()) && !(rule in list)
    {
      forall later {
        RuleOutcomes.AddOutcome(Model(), rule, listed, memory, later);
      }
      AddKeepsInvariants(Model(), rule, listed, memory);
      LookupIsSound(Model(), names[rule], memory);
      var found := FindRuleByName(names[rule], memory);
      if found.Some? {
        return Ok;
      }
      if !(|list| < LIST_CAPACITY && listed) {
        return OperationFailed;
      }
      list := list + [rule];
      IndexUpsertLocked(names[rule], rule, memory);
      return Ok;
    }

    method RemoveRule(rule: Handle) returns (status: Status)
      requires Valid() && rule in names
      modifies this, buckets
      ensures Valid() && buckets == old(buckets)
      ensures (status, Model()) == RuleIndex.RemoveRule(old(Model()), rule)
      ensures forall h :: h in old(list) && h != rule ==> h in list && h in names && names[h] == old(names)[h]
      ensures rule !in list && (status == Ok <==> rule in old(list))
    {
      RemoveKeepsInvariants(Model(), rule);
      RuleOutcomes.RemoveKeepsListed(Model(), rule);
      hide Indexed;
      var found := FindHandle(list, rule);
      if found.None? {
        return NotFound;
      }
      list := list[..found.value] + list[found.value + 1..];
      IndexRemoveLocked(names[rule]);
      names := names - {rule};
      return Ok;
    }
  }
}
