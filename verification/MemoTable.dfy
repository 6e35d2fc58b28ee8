/** The memo table of src/porcupine/checker.go: visited pairs of a bit set and a state, in buckets
    by the hash of the bit set. */
module MemoTable {
  import opened Bitset
  import opened LinearSearch

  datatype CacheEntry<S> = CacheEntry(linearized: seq<Word>, state: S)

  type Cache<S> = map<Word, seq<CacheEntry<S>>>

  /** Every entry lies in the bucket of its hash, and all bit sets have the same length. */
  predicate Bucketed<S>(cache: Cache<S>, len: nat) {
    forall b, k | b in cache && 0 <= k < |cache[b]| ::
      HashOf(cache[b][k].linearized) == b && |cache[b][k].linearized| == len
  }

  predicate Stored<S>(cache: Cache<S>, b: Word, k: int) {
    b in cache && 0 <= k < |cache[b]|
  }

  /** An entry for the same set with an equal state. */
  ghost predicate Matches<S(!new), I(!new), O(!new)>(m: Model<S, I, O>, x: CacheEntry<S>, e: CacheEntry<S>) {
    Bits(x.linearized) == Bits(e.linearized) && m.equal(e.state, x.state)
  }

  /** Somewhere in the table there is a match. */
  ghost predicate Known<S(!new), I(!new), O(!new)>(m: Model<S, I, O>, cache: Cache<S>, e: CacheEntry<S>) {
    exists b, k :: Stored(cache, b, k) && Matches(m, cache[b][k], e)
  }

  lemma BucketSuffices<S(!new), I(!new), O(!new)>(m: Model<S, I, O>, cache: Cache<S>, e: CacheEntry<S>)
    requires Bucketed(cache, |e.linearized|)
    requires var b := HashOf(e.linearized); b in cache ==> forall k | 0 <= k < |cache[b]| :: !Matches(m, cache[b][k], e)
    ensures !Known(m, cache, e)
  {
    forall b, k | Stored(cache, b, k) ensures !Matches(m, cache[b][k], e) {
      if Bits(cache[b][k].linearized) == Bits(e.linearized) {
        EqualSetsShareBucket(cache[b][k].linearized, e.linearized);
      }
    }
  }

  /** The lookup inspects one bucket and misses nothing in the whole table. */
  method Contains<S(!new), I(!new), O(!new)>(m: Model<S, I, O>, cache: Cache<S>, e: CacheEntry<S>) returns (found: bool)
    requires Bucketed(cache, |e.linearized|)
    ensures found <==> Known(m, cache, e)
  {
    var hash := Hash(e.linearized);
    var bucket := if hash in cache then cache[hash] else [];
    var i := 0;
    while i < |bucket|
      invariant 0 <= i <= |bucket|
      invariant forall k | 0 <= k < i :: !Matches(m, bucket[k], e)
    {
      var same := Equals(e.linearized, bucket[i].linearized);
      if same && m.equal(e.state, bucket[i].state) {
        assert Stored(cache, hash, i) && Matches(m, cache[hash][i], e);
        return true;
      }
      i := i + 1;
    }
    BucketSuffices(m, cache, e);
    return false;
  }

  method Add<S>(cache: Cache<S>, e: CacheEntry<S>) returns (cache': Cache<S>)
    requires Bucketed(cache, |e.linearized|)
    ensures Bucketed(cache', |e.linearized|)
    ensures forall b, k :: Stored(cache', b, k) ==>
      cache'[b][k] == e || (Stored(cache, b, k) && cache[b][k] == cache'[b][k])
    ensures forall b, k :: Stored(cache, b, k) ==> Stored(cache', b, k) && cache'[b][k] == cache[b][k]
  {
    var hash := Hash(e.linearized);
    cache' := cache[hash := (if hash in cache then cache[hash] else []) + [e]];
  }
}
