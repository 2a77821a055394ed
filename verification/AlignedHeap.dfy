/**
 `zoo_safety_malloc_aligned` and `zoo_safety_free_aligned`: over-allocate, round the
 address up, and keep the raw pointer in the word just below the aligned address.
 Addresses are natural numbers; address 0 is the null pointer.
 */
module AlignedHeap {
  import opened Arithmetic

  const ADDRESS_LIMIT: nat := 0x1_0000_0000_0000_0000
  const POINTER_SIZE: nat := 8

  /** Bitwise and, bit by bit. */
  function BitAnd(x: nat, y: nat): nat {
    if x == 0 || y == 0 then 0 else (x % 2) * (y % 2) + 2 * BitAnd(x / 2, y / 2)
  }

  predicate IsPowerOfTwo(a: nat) {
    a == 1 || (a > 1 && a % 2 == 0 && IsPowerOfTwo(a / 2))
  }

  lemma {:induction false} BitAndSelf(x: nat)
    ensures BitAnd(x, x) == x
  {
    if x > 0 {
      BitAndSelf(x / 2);
    }
  }

  /** The source's test for a power of two. */
  lemma {:induction false} PowerOfTwoTest(a: nat)
    requires a > 0
    ensures BitAnd(a, a - 1) == 0 <==> IsPowerOfTwo(a)
  {
    if a == 1 {
    } else if a % 2 == 1 {
      BitAndSelf(a / 2);
      assert (a - 1) / 2 == a / 2;
    } else {
      PowerOfTwoTest(a / 2);
      assert (a - 1) / 2 == a / 2 - 1;
    }
  }

  lemma {:induction false} MaskAllBits(x: nat, limit: nat)
    requires IsPowerOfTwo(limit) && x < limit
    ensures BitAnd(x, limit - 1) == x
  {
    if x > 0 {
      assert limit % 2 == 0 && (limit - 1) / 2 == limit / 2 - 1;
      MaskAllBits(x / 2, limit / 2);
    }
  }

  /** Masking with the complement of a - 1 rounds down to a multiple of a. */
  lemma {:induction false} MaskRoundsDown(x: nat, a: nat, limit: nat)
    requires IsPowerOfTwo(a) && IsPowerOfTwo(limit) && a <= limit && x < limit
    ensures BitAnd(x, limit - a) == x - x % a
  {
    if a == 1 {
      MaskAllBits(x, limit);
    } else {
      assert limit % 2 == 0 && (limit - a) / 2 == limit / 2 - a / 2;
      MaskRoundsDown(x / 2, a / 2, limit / 2);
      RemainderOfHalf(x, a / 2);
    }
  }

  lemma RemainderOfHalf(x: nat, h: nat)
    requires h > 0
    ensures x % (2 * h) == 2 * (x / 2 % h) + x % 2
  {
    var q, r := x / 2 / h, x / 2 % h;
    assert x == (2 * h) * q + (2 * r + x % 2) by {
      assert x / 2 == h * q + r;
      assert (2 * h) * q == 2 * (h * q);
    }
    DivisionIsUnique(x, q, 2 * r + x % 2, 2 * h);
  }

  lemma DoubleIsPowerOfTwo(a: nat)
    requires IsPowerOfTwo(a)
    ensures IsPowerOfTwo(2 * a)
  {
    assert 2 * a / 2 == a;
  }

  lemma ByteShiftIsPowerOfTwo(a: nat)
    requires IsPowerOfTwo(a)
    ensures IsPowerOfTwo(256 * a)
  {
    hide IsPowerOfTwo;
    DoubleIsPowerOfTwo(a);
    DoubleIsPowerOfTwo(2 * a);
    DoubleIsPowerOfTwo(4 * a);
    DoubleIsPowerOfTwo(8 * a);
    DoubleIsPowerOfTwo(16 * a);
    DoubleIsPowerOfTwo(32 * a);
    DoubleIsPowerOfTwo(64 * a);
    DoubleIsPowerOfTwo(128 * a);
  }

  lemma AddressLimitIsPowerOfTwo()
    ensures IsPowerOfTwo(ADDRESS_LIMIT)
  {
    hide IsPowerOfTwo;
    assert IsPowerOfTwo(1) by { OneIsPowerOfTwo(); }
    ByteShiftIsPowerOfTwo(1);
    ByteShiftIsPowerOfTwo(0x100);
    ByteShiftIsPowerOfTwo(0x1_0000);
    ByteShiftIsPowerOfTwo(0x100_0000);
    ByteShiftIsPowerOfTwo(0x1_0000_0000);
    ByteShiftIsPowerOfTwo(0x100_0000_0000);
    ByteShiftIsPowerOfTwo(0x1_0000_0000_0000);
    ByteShiftIsPowerOfTwo(0x100_0000_0000_0000);
  }

  lemma OneIsPowerOfTwo()
    ensures IsPowerOfTwo(1)
  {
  }

  function TotalSize(size: nat, alignment: nat): nat {
    (size + alignment + POINTER_SIZE) % ADDRESS_LIMIT
  }

  /** Round the address after the saved pointer up, in machine arithmetic: mask with the complement of alignment - 1. */
  function AlignedAddress(raw: nat, alignment: nat): nat
    requires alignment <= ADDRESS_LIMIT
  {
    BitAnd((raw + POINTER_SIZE + alignment + ADDRESS_LIMIT - 1) % ADDRESS_LIMIT, ADDRESS_LIMIT - alignment)
  }

  lemma WrapOnce(x: nat)
    ensures x < ADDRESS_LIMIT ==> (x + ADDRESS_LIMIT) % ADDRESS_LIMIT == x
    ensures x >= ADDRESS_LIMIT ==> (x + ADDRESS_LIMIT) % ADDRESS_LIMIT <= x - ADDRESS_LIMIT
    ensures (x + ADDRESS_LIMIT) % ADDRESS_LIMIT < ADDRESS_LIMIT
  {
  }

  lemma RoundedDownIsMultiple(x: nat, alignment: nat)
    requires alignment > 0
    ensures (x - x % alignment) % alignment == 0
  {
    assert x - x % alignment == alignment * (x / alignment);
    MultipleHasNoRemainder(alignment, x / alignment);
  }

  lemma MaskedRange(x: nat, a: nat, limit: nat)
    requires IsPowerOfTwo(a) && IsPowerOfTwo(limit) && a <= limit && x < limit
    ensures BitAnd(x, limit - a) % a == 0
    ensures x < BitAnd(x, limit - a) + a && BitAnd(x, limit - a) <= x
  {
    MaskRoundsDown(x, a, limit);
    RoundedDownIsMultiple(x, a);
  }

  lemma MaskedAddress(x: nat, alignment: nat)
    requires IsPowerOfTwo(alignment) && alignment < ADDRESS_LIMIT && x < ADDRESS_LIMIT
    ensures BitAnd(x, ADDRESS_LIMIT - alignment) % alignment == 0
    ensures x < BitAnd(x, ADDRESS_LIMIT - alignment) + alignment && BitAnd(x, ADDRESS_LIMIT - alignment) <= x
  {
    hide IsPowerOfTwo;
    hide BitAnd;
    AddressLimitIsPowerOfTwo();
    MaskedRange(x, alignment, ADDRESS_LIMIT);
  }

  lemma AlignedRange(raw: nat, alignment: nat)
    requires IsPowerOfTwo(alignment) && alignment < ADDRESS_LIMIT
    requires raw + POINTER_SIZE + alignment - 1 < ADDRESS_LIMIT
    ensures AlignedAddress(raw, alignment) % alignment == 0
    ensures raw + POINTER_SIZE <= AlignedAddress(raw, alignment) < raw + POINTER_SIZE + alignment
  {
    hide BitAnd;
    WrapOnce(raw + POINTER_SIZE + alignment - 1);
    MaskedAddress(raw + POINTER_SIZE + alignment - 1, alignment);
  }

  /** A rounding sum that wraps lands below the raw block's first usable byte. */
  lemma WrappedRange(raw: nat, alignment: nat)
    requires IsPowerOfTwo(alignment) && alignment < ADDRESS_LIMIT
    requires raw + POINTER_SIZE + alignment - 1 >= ADDRESS_LIMIT
    ensures AlignedAddress(raw, alignment) % alignment == 0 && AlignedAddress(raw, alignment) < raw + POINTER_SIZE
  {
    hide BitAnd;
    var x := raw + POINTER_SIZE + alignment - 1;
    WrapOnce(x);
    MaskedAddress((x + ADDRESS_LIMIT) % ADDRESS_LIMIT, alignment);
  }

  lemma FitsIff(raw: nat, size: nat, alignment: nat, p: nat)
    requires size < ADDRESS_LIMIT && alignment < ADDRESS_LIMIT
    requires raw + POINTER_SIZE <= p < raw + POINTER_SIZE + alignment
    ensures p + size <= raw + TotalSize(size, alignment) <==> size + alignment + POINTER_SIZE < ADDRESS_LIMIT
  {
    var sum := size + alignment + POINTER_SIZE;
    assert sum < ADDRESS_LIMIT ==> TotalSize(size, alignment) == sum;
    assert sum >= ADDRESS_LIMIT ==> TotalSize(size, alignment) <= sum - ADDRESS_LIMIT;
  }

  /** The computed total size did not wrap. */
  predicate SizeFits(size: nat, alignment: nat) {
    size + alignment + POINTER_SIZE < ADDRESS_LIMIT
  }

  /** The saved pointer and the caller's bytes lie inside the raw block. */
  predicate Inside(raw: nat, size: nat, alignment: nat, p: nat) {
    raw + POINTER_SIZE <= p && p + size <= raw + TotalSize(size, alignment)
  }

  /**
   The result is always aligned; it lies inside the raw block, wherever malloc put that,
   exactly when the total size did not wrap.
   */
  lemma Placement(raw: nat, size: nat, alignment: nat)
    requires IsPowerOfTwo(alignment) && size < ADDRESS_LIMIT && alignment < ADDRESS_LIMIT
    requires size > 0 && raw + TotalSize(size, alignment) <= ADDRESS_LIMIT
    ensures AlignedAddress(raw, alignment) % alignment == 0
    ensures Inside(raw, size, alignment, AlignedAddress(raw, alignment)) <==> SizeFits(size, alignment)
  {
    hide BitAnd;
    hide AlignedAddress;
    hide IsPowerOfTwo;
    if raw + POINTER_SIZE + alignment - 1 < ADDRESS_LIMIT {
      AlignedRange(raw, alignment);
      FitsIff(raw, size, alignment, AlignedAddress(raw, alignment));
    } else {
      WrappedRange(raw, alignment);
      assert SizeFits(size, alignment) ==> TotalSize(size, alignment) == size + alignment + POINTER_SIZE;
    }
  }

  predicate Disjoint(a: nat, aSize: nat, b: nat, bSize: nat) {
    a + aSize <= b || b + bSize <= a
  }

  datatype Region = Region(raw: nat, size: nat)

  /**
   `blocks` are the live blocks handed out by malloc with their lengths, `words` the
   pointer-sized words whose value is known, `regions` the outstanding aligned pointers.
   */
  ghost predicate BlocksDisjoint(blocks: map<nat, nat>) {
    forall a, b :: a in blocks && b in blocks && a != b ==> Disjoint(a, blocks[a], b, blocks[b])
  }

  /** The region at p and its saved word lie inside a live block, and the word names the block. */
  ghost predicate Sound(blocks: map<nat, nat>, words: map<nat, nat>, p: nat, r: Region) {
    && r.raw in blocks
    && 0 < r.raw
    && r.raw + POINTER_SIZE <= p
    && p + r.size <= r.raw + blocks[r.raw]
    && p - POINTER_SIZE in words
    && words[p - POINTER_SIZE] == r.raw
  }

  ghost predicate HeapValid(blocks: map<nat, nat>, words: map<nat, nat>, regions: map<nat, Region>) {
    && BlocksDisjoint(blocks)
    && (forall p :: p in regions ==> Sound(blocks, words, p, regions[p]))
    && (forall p, q :: p in regions && q in regions && regions[p].raw == regions[q].raw ==> p == q)
  }

  /** malloc's promise about an address it returns. */
  ghost predicate FreshBlock(blocks: map<nat, nat>, raw: nat, length: nat) {
    && 0 < raw
    && raw + length <= ADDRESS_LIMIT
    && raw !in blocks
    && forall b :: b in blocks ==> Disjoint(raw, length, b, blocks[b])
  }

  /** A store makes every overlapping known word unknown. */
  function Clobber(words: map<nat, nat>, address: nat, length: nat): map<nat, nat> {
    map w | w in words && Disjoint(w, POINTER_SIZE, address, length) :: words[w]
  }

  /** A store inside one block leaves the saved words of all other blocks alone. */
  lemma StoreElsewhere(blocks: map<nat, nat>, words: map<nat, nat>, q: nat, r: Region,
                       block: nat, address: nat, length: nat)
    requires BlocksDisjoint(blocks) && Sound(blocks, words, q, r)
    requires block in blocks && block != r.raw
    requires block <= address && address + length <= block + blocks[block]
    ensures Sound(blocks, Clobber(words, address, length), q, r)
  {
    assert Disjoint(block, blocks[block], r.raw, blocks[r.raw]);
  }

  lemma AllocateKeepsValid(blocks: map<nat, nat>, words: map<nat, nat>, regions: map<nat, Region>,
                           raw: nat, length: nat, p: nat, size: nat)
    requires HeapValid(blocks, words, regions) && FreshBlock(blocks, raw, length)
    requires raw + POINTER_SIZE <= p && p + size <= raw + length
    requires size > 0
    ensures p !in regions
    ensures HeapValid(blocks[raw := length], Clobber(words, p - POINTER_SIZE, POINTER_SIZE)[p - POINTER_SIZE := raw],
                      regions[p := Region(raw, size)])
  {
    var blocks', slot := blocks[raw := length], p - POINTER_SIZE;
    forall q | q in regions
      ensures q != p && Sound(blocks', Clobber(words, slot, POINTER_SIZE)[slot := raw], q, regions[q])
    {
      assert Sound(blocks, words, q, regions[q]);
      assert Disjoint(raw, length, regions[q].raw, blocks[regions[q].raw]);
      assert Sound(blocks', words, q, regions[q]);
      StoreElsewhere(blocks', words, q, regions[q], raw, slot, POINTER_SIZE);
    }
  }

  lemma WriteKeepsValid(blocks: map<nat, nat>, words: map<nat, nat>, regions: map<nat, Region>, p: nat, address: nat)
    requires HeapValid(blocks, words, regions) && p in regions
    requires p <= address < p + regions[p].size
    ensures HeapValid(blocks, Clobber(words, address, 1), regions)
  {
    assert Sound(blocks, words, p, regions[p]);
    forall q | q in regions && q != p ensures Sound(blocks, Clobber(words, address, 1), q, regions[q]) {
      StoreElsewhere(blocks, words, q, regions[q], regions[p].raw, address, 1);
    }
  }

  class Heap {
    var blocks: map<nat, nat>
    var words: map<nat, nat>
    ghost var regions: map<nat, Region>

    ghost predicate Valid()
      reads this
    {
      HeapValid(blocks, words, regions)
    }

    constructor ()
      ensures Valid() && blocks == map[] && regions == map[]
    {
      blocks, words, regions := map[], map[], map[];
    }

    /**
     `raw` is what malloc answers for the total size; 0 is failure.  The source does not
     check that the total size did not wrap: then the heap is no longer sound.
     */
    method MallocAligned(size: nat, alignment: nat, raw: nat) returns (p: nat)
      requires Valid() && size < ADDRESS_LIMIT && alignment < ADDRESS_LIMIT
      requires raw != 0 ==> FreshBlock(blocks, raw, TotalSize(size, alignment))
      modifies this
      ensures var accepted := size != 0 && IsPowerOfTwo(alignment) && raw != 0;
              && (Valid() <==> !accepted || SizeFits(size, alignment))
              && (!accepted ==> p == 0 && blocks == old(blocks) && regions == old(regions) && words == old(words))
              && (accepted ==> p % alignment == 0 && blocks == old(blocks)[raw := TotalSize(size, alignment)])
              && (accepted ==> regions == old(regions)[p := Region(raw, size)])
              && (accepted && SizeFits(size, alignment) ==> p != 0 && p !in old(regions))
    {
      hide AlignedAddress;
      if size == 0 || alignment == 0 || BitAnd(alignment, alignment - 1) != 0 {
        if alignment != 0 {
          PowerOfTwoTest(alignment);
        }
        return 0;
      }
      PowerOfTwoTest(alignment);
      hide IsPowerOfTwo;
      hide BitAnd;
      if raw == 0 {
        return 0;
      }
      p := AlignedAddress(raw, alignment);
      Placement(raw, size, alignment);
      if SizeFits(size, alignment) {
        AllocateKeepsValid(blocks, words, regions, raw, TotalSize(size, alignment), p, size);
      }
      blocks := blocks[raw := TotalSize(size, alignment)];
      var slot := if p >= POINTER_SIZE then p - POINTER_SIZE else p + ADDRESS_LIMIT - POINTER_SIZE;
      words := Clobber(words, slot, POINTER_SIZE)[slot := raw];
      regions := regions[p := Region(raw, size)];
      assert !SizeFits(size, alignment) ==> !Sound(blocks, words, p, regions[p]);
    }

    /** The caller writes one of its own bytes: every saved word survives. */
    method WriteByte(p: nat, offset: nat)
      requires Valid()
      requires p in regions && offset < regions[p].size
      modifies this`words
      ensures Valid()
    {
      WriteKeepsValid(blocks, words, regions, p, p + offset);
      words := Clobber(words, p + offset, 1);
    }

    /** Frees exactly the raw block the pointer came from; freeing null does nothing. */
    method FreeAligned(p: nat)
      requires Valid()
      requires p != 0 ==> p in regions
      modifies this
      ensures Valid()
      ensures p == 0 ==> blocks == old(blocks) && regions == old(regions)
      ensures p != 0 ==> blocks == old(blocks) - {old(regions)[p].raw} && regions == old(regions) - {p}
    {
      if p != 0 {
        assert Sound(blocks, words, p, regions[p]);
        var raw := words[p - POINTER_SIZE];
        blocks := blocks - {raw};
        regions := regions - {p};
        forall q | q in regions ensures Sound(blocks, words, q, regions[q]) {
          assert Sound(old(blocks), words, q, regions[q]);
        }
      }
    }
  }
}
