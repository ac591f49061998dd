/**
 A one-word Bloom filter: a set of 32 bits into which 64-bit hashes are
 inserted by setting two bit positions derived from the hash.  Probing a
 hash answers "possibly included" exactly when both of its positions are set,
 so a hash that was inserted is never reported as excluded.

 The hash of a value (SipHash in Servo) is a parameter of the
 value-level operations: nothing is assumed about it beyond being a function.
 */
module TinyBloom {

  /** A 64-bit hash value. */
  type Hash = bv64

  /** A bit position inside the 32-bit filter word. */
  type Offset = i: bv64 | i < 32

  /** The filter is a value: copying it copies its bits. */
  datatype TinyBloomFilter = TinyBloomFilter(bits: bv32)

  /** Bit `i` of `bits` is 1 (the test the probe loop performs). */
  predicate BitSet(bits: bv32, i: Offset)
  {
    (bits >> i) & 1 != 0
  }

  /** A filter with no bit set. */
  function New(): (f: TinyBloomFilter)
    ensures forall i: Offset :: !BitSet(f.bits, i)
  {
    TinyBloomFilter(0)
  }

  /** Empties the filter; the result is indistinguishable from a new one. */
  function Clear(f: TinyBloomFilter): (g: TinyBloomFilter)
    ensures forall i: Offset :: !BitSet(g.bits, i)
    ensures g == New()
  {
    TinyBloomFilter(0)
  }

  /** The two bit positions probed for `hash`: its low five bits and the five bits above them. */
  function ProbeSequence(hash: Hash): (probes: seq<Offset>)
    ensures |probes| == 2
    ensures probes[0] == hash % 32
    ensures probes[1] == (hash / 32) % 32
  {
    [hash & 0x1F, (hash >> 5) & 0x1F]
  }

  /** `bits` with bit `off` set (one step of the insertion loop). */
  function WithBit(bits: bv32, off: Offset): bv32
  {
    bits | (1 << off)
  }

  /** Setting bit `off` sets that bit and no other, and clears none. */
  lemma SetOneBit(bits: bv32, off: Offset)
    ensures bits | WithBit(bits, off) == WithBit(bits, off)
    ensures forall i: Offset :: BitSet(WithBit(bits, off), i) <==> BitSet(bits, i) || i == off
  {
    forall i: Offset
      ensures BitSet(WithBit(bits, off), i) <==> BitSet(bits, i) || i == off
    {
      SetOneBitAt(bits, off, i);
    }
  }

  lemma SetOneBitAt(bits: bv32, off: Offset, i: Offset)
    ensures BitSet(WithBit(bits, off), i) <==> BitSet(bits, i) || i == off
  {
  }

  /** Sets the bits at `offs`, one after the other. */
  function SetBits(bits: bv32, offs: seq<Offset>): (r: bv32)
    ensures bits | r == r
    ensures forall i: Offset :: BitSet(r, i) <==> BitSet(bits, i) || i in offs
    decreases |offs|
  {
    if offs == [] then bits
    else
      SetOneBit(bits, offs[0]);
      SetBits(WithBit(bits, offs[0]), offs[1..])
  }

  /** True when every bit at `offs` is set (the `ret &= ...` loop). */
  function AllBitsSet(bits: bv32, offs: seq<Offset>): (r: bool)
    ensures r <==> forall k :: 0 <= k < |offs| ==> BitSet(bits, offs[k])
    decreases |offs|
  {
    if offs == [] then true
    else BitSet(bits, offs[0]) && AllBitsSet(bits, offs[1..])
  }

  /** Records `hash` in the filter. */
  function InsertHashed(f: TinyBloomFilter, hash: Hash): (g: TinyBloomFilter)
    ensures forall i: Offset :: BitSet(g.bits, i) <==> BitSet(f.bits, i) || i == hash % 32 || i == (hash / 32) % 32
    ensures f.bits | g.bits == g.bits
  {
    var probes := ProbeSequence(hash);
    assert forall i: Offset :: i in probes <==> i == probes[0] || i == probes[1];
    TinyBloomFilter(SetBits(f.bits, probes))
  }

  /** False only when `hash` was certainly never inserted. */
  function MayIncludeHashed(f: TinyBloomFilter, hash: Hash): (r: bool)
    ensures r <==> BitSet(f.bits, hash % 32) && BitSet(f.bits, (hash / 32) % 32)
  {
    AllBitsSet(f.bits, ProbeSequence(hash))
  }

  /** Records the value `t`, hashed by `hasher`. */
  function Insert<T(!new)>(f: TinyBloomFilter, hasher: T -> Hash, t: T): (g: TinyBloomFilter)
    ensures MayInclude(g, hasher, t)
    ensures forall u :: MayInclude(f, hasher, u) ==> MayInclude(g, hasher, u)
  {
    InsertHashed(f, hasher(t))
  }

  /** False only when `t` was certainly never inserted: both probe bits of its hash are set. */
  function MayInclude<T>(f: TinyBloomFilter, hasher: T -> Hash, t: T): (r: bool)
    ensures r <==> BitSet(f.bits, hasher(t) % 32) && BitSet(f.bits, (hasher(t) / 32) % 32)
  {
    MayIncludeHashed(f, hasher(t))
  }

  /** The negation of MayInclude. */
  function DefinitelyExcludes<T>(f: TinyBloomFilter, hasher: T -> Hash, t: T): (r: bool)
    ensures r <==> !MayInclude(f, hasher, t)
    ensures r ==> !BitSet(f.bits, hasher(t) % 32) || !BitSet(f.bits, (hasher(t) / 32) % 32)
  {
    !MayInclude(f, hasher, t)
  }

  /** No false negatives: an inserted hash is always reported as possibly included. */
  lemma InsertedIsIncluded(f: TinyBloomFilter, hash: Hash)
    ensures MayIncludeHashed(InsertHashed(f, hash), hash)
  {
  }

  /** Inserting only adds bits, so nothing possibly included before is excluded after. */
  lemma InsertIsMonotone(f: TinyBloomFilter, hash: Hash, other: Hash)
    ensures f.bits & InsertHashed(f, hash).bits == f.bits
    ensures MayIncludeHashed(f, other) ==> MayIncludeHashed(InsertHashed(f, hash), other)
  {
  }

  /** The bits of an insertion are the old bits or-ed with the two probe bits. */
  lemma InsertSetsProbeBits(f: TinyBloomFilter, hash: Hash)
    ensures InsertHashed(f, hash).bits == f.bits | (1 << (hash & 0x1F)) | (1 << ((hash >> 5) & 0x1F))
  {
    var probes := ProbeSequence(hash);
    var once := WithBit(f.bits, probes[0]);
    assert SetBits(f.bits, probes) == SetBits(once, probes[1..]);
    assert SetBits(once, probes[1..]) == SetBits(WithBit(once, probes[1]), probes[1..][1..]);
    assert probes[1..][1..] == [];
  }

  /** Inserting the same hash twice is the same as inserting it once. */
  lemma InsertIdempotent(f: TinyBloomFilter, hash: Hash)
    ensures InsertHashed(InsertHashed(f, hash), hash) == InsertHashed(f, hash)
  {
    InsertSetsProbeBits(f, hash);
    InsertSetsProbeBits(InsertHashed(f, hash), hash);
  }

  /** The order of insertions does not matter. */
  lemma InsertCommutes(f: TinyBloomFilter, h1: Hash, h2: Hash)
    ensures InsertHashed(InsertHashed(f, h1), h2) == InsertHashed(InsertHashed(f, h2), h1)
  {
    InsertSetsProbeBits(f, h1);
    InsertSetsProbeBits(f, h2);
    InsertSetsProbeBits(InsertHashed(f, h1), h2);
    InsertSetsProbeBits(InsertHashed(f, h2), h1);
  }

  /** A new or cleared filter excludes every hash. */
  lemma EmptyExcludesEverything(f: TinyBloomFilter, hash: Hash)
    ensures !MayIncludeHashed(New(), hash)
    ensures !MayIncludeHashed(Clear(f), hash)
  {
  }

  /** Inserts the hashes in order. */
  function InsertAllHashed(f: TinyBloomFilter, hashes: seq<Hash>): TinyBloomFilter
    decreases |hashes|
  {
    if hashes == [] then f
    else InsertAllHashed(InsertHashed(f, hashes[0]), hashes[1..])
  }

  /** Bit `i` is a probe position of some hash in `hashes`. */
  ghost predicate Covered(hashes: seq<Hash>, i: Offset)
  {
    exists k :: 0 <= k < |hashes| && i in ProbeSequence(hashes[k])
  }

  /** After a run of insertions, a bit is set exactly when it was set before or some inserted hash probes it. */
  lemma {:induction false} InsertAllBits(f: TinyBloomFilter, hashes: seq<Hash>, i: Offset)
    ensures BitSet(InsertAllHashed(f, hashes).bits, i) <==> BitSet(f.bits, i) || Covered(hashes, i)
    decreases |hashes|
  {
    if hashes != [] {
      var g := InsertHashed(f, hashes[0]);
      InsertAllBits(g, hashes[1..], i);
      if Covered(hashes[1..], i) {
        var k :| 0 <= k < |hashes[1..]| && i in ProbeSequence(hashes[1..][k]);
        assert i in ProbeSequence(hashes[k + 1]);
      }
      if Covered(hashes, i) && !(i in ProbeSequence(hashes[0])) {
        var k :| 0 <= k < |hashes| && i in ProbeSequence(hashes[k]);
        assert k != 0;
        assert i in ProbeSequence(hashes[1..][k - 1]);
      }
    }
  }

  /**
   Starting from an empty filter, a hash is possibly included after a run of
   insertions exactly when both of its probe positions are probed by some
   inserted hash: every inserted hash is included, and the false positives are
   precisely the hashes whose positions are covered by others.
   */
  lemma MembershipAfterInserts(hashes: seq<Hash>, hash: Hash)
    ensures MayIncludeHashed(InsertAllHashed(New(), hashes), hash)
            <==> Covered(hashes, hash % 32) && Covered(hashes, (hash / 32) % 32)
    ensures hash in hashes ==> MayIncludeHashed(InsertAllHashed(New(), hashes), hash)
  {
    InsertAllBits(New(), hashes, hash % 32);
    InsertAllBits(New(), hashes, (hash / 32) % 32);
    if hash in hashes {
      var k :| 0 <= k < |hashes| && hashes[k] == hash;
      assert hash % 32 in ProbeSequence(hashes[k]);
      assert (hash / 32) % 32 in ProbeSequence(hashes[k]);
    }
  }

  /**
   Two filters copied from one new filter evolve independently: inserting
   into one leaves the other as a new filter with only its own insertion, and
   each then excludes the other's value unless its own probe positions happen
   to cover the other's.
   */
  lemma CopiesAreIndependent<T(!new)>(hasher: T -> Hash, t0: T, t1: T)
    ensures var f0 := New(); var f1 := f0;
            var g0 := Insert(f0, hasher, t0); var g1 := Insert(f1, hasher, t1);
            && MayInclude(g0, hasher, t0) && MayInclude(g1, hasher, t1)
            && g0 == InsertHashed(New(), hasher(t0))
            && (DefinitelyExcludes(g0, hasher, t1)
                <==> !(hasher(t1) % 32 in ProbeSequence(hasher(t0)) && (hasher(t1) / 32) % 32 in ProbeSequence(hasher(t0))))
  {
  }
}
