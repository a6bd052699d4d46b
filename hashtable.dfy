/**
 * A generic separate-chaining hash table: an array of buckets, each a chain
 * of key/value entries with the most recently inserted entry first, a bucket
 * count `size` that may be smaller than the array, an entry count, and a
 * maximum load factor that triggers a resize before an insertion.
 */
module HashTable {
  import opened Wrappers

  /** The differences between 2^i and the largest prime below 2^i. */
  const Delta: seq<nat> := [0, 0, 1, 1, 3, 1, 3, 1, 5, 3, 3, 9, 3, 1, 3, 19,
                            15, 1, 5, 1, 3, 9, 3, 15, 3, 39, 5, 39, 57, 3, 35, 1]

  /** The bucket count a new table starts with. */
  const InitialSize: nat := 13

  /** The delta index of a new table; its bucket array holds 2^4 slots. */
  const InitialDeltaIndex: nat := 4

  /**
   * The largest bucket count from which the table still grows: above it the
   * doubling counter of the size computation would overflow a signed 32-bit
   * integer.
   */
  const MaxGrowableSize: nat := Pow2(29)

  function Pow2(k: nat): (r: nat)
    ensures 1 <= r
  {
    if k == 0 then 1 else 2 * Pow2(k - 1)
  }

  lemma {:induction false} Pow2Monotone(i: nat, j: nat)
    requires i <= j
    ensures Pow2(i) <= Pow2(j)
  {
    if i < j {
      Pow2Monotone(i, j - 1);
    }
  }

  /** The exponent k >= 2 of the smallest power of two 2^k with size <= 2^k. */
  function Log2Ceil(size: nat): (k: nat)
    ensures 2 <= k && size <= Pow2(k)
    ensures k == 2 || Pow2(k - 1) < size
    decreases size
  {
    if size <= 4 then 2 else Log2Ceil((size + 1) / 2) + 1
  }

  /** Log2Ceil is the only exponent with its two defining properties. */
  lemma Log2CeilUnique(size: nat, k: nat)
    requires 2 <= k && size <= Pow2(k)
    requires k == 2 || Pow2(k - 1) < size
    ensures k == Log2Ceil(size)
  {
    var m := Log2Ceil(size);
    if k < m {
      Pow2Monotone(k, m - 1);
    } else if m < k {
      Pow2Monotone(m, k - 1);
    }
  }

  /** Sizes up to 2^29 need exponents up to 29, so delta[k + 1] exists. */
  lemma Log2CeilBound(size: nat)
    requires size <= MaxGrowableSize
    ensures Log2Ceil(size) <= 29
  {
    var k := Log2Ceil(size);
    if 30 <= k {
      Pow2Monotone(29, k - 1);
    }
  }

  lemma DeltaBelowPow2(k: nat)
    requires 2 <= k < 31
    ensures Delta[k + 1] < Pow2(k)
  {
    if k == 2 {
      assert Pow2(2) == 4;
    } else if k == 3 {
      assert Pow2(3) == 8;
    } else if k == 4 {
      assert Pow2(4) == 16;
    } else if k == 5 {
      assert Pow2(5) == 32;
    } else {
      assert Pow2(6) == 64;
      Pow2Monotone(6, k);
      DeltaAtMost57(k + 1);
    }
  }

  lemma DeltaAtMost57(i: nat)
    requires i < |Delta|
    ensures Delta[i] <= 57
  {
  }

  /**
   * The bucket count a resize moves to: 2^(k+1) - delta[k+1], where 2^k is
   * the smallest power of two (at least 4) not below the current count.
   */
  function NextSize(size: nat): (r: nat)
    requires 0 < size <= MaxGrowableSize
    ensures size < r
  {
    var k := Log2Ceil(size);
    Log2CeilBound(size);
    DeltaBelowPow2(k);
    Pow2(k + 1) - Delta[k + 1]
  }

  lemma NextSizeAt(size: nat, k: nat, num: nat)
    requires 0 < size <= MaxGrowableSize
    requires k == Log2Ceil(size) && num == Pow2(k)
    ensures k + 1 < |Delta| && NextSize(size) == num * 2 - Delta[k + 1]
  {
    Log2CeilBound(size);
  }

  /** Computes the next bucket count by doubling a counter until it covers `size`. */
  method GetSize(size: nat) returns (newSize: nat)
    requires 0 < size <= MaxGrowableSize
    ensures newSize == NextSize(size)
  {
    var power := 1;
    var num := 2;
    while true
      invariant 1 <= power && num == Pow2(power)
      invariant power == 1 || num < size
      invariant power <= 2 || Pow2(power - 1) < size
      decreases size + 2 - num
    {
      num := num * 2;
      power := power + 1;
      if num >= size {
        break;
      }
    }
    Log2CeilUnique(size, power);
    NextSizeAt(size, power, num);
    power := power + 1;
    newSize := num * 2 - Delta[power];
  }

  datatype Entry<K, V> = Entry(key: K, value: V)

  /** The outcome of an insertion. */
  datatype InsertStatus = Success | KeyValuePairExists | Failure

  /** A hash function fit for a table of n buckets: its results lie below n. */
  ghost predicate HashOk<K(!new)>(hash: (K, nat) -> nat) {
    forall k, n :: 0 < n ==> hash(k, n) < n
  }

  ghost function KeysOf<K, V>(chain: seq<Entry<K, V>>): (keys: set<K>)
    ensures forall j :: 0 <= j < |chain| ==> chain[j].key in keys
  {
    set e | e in chain :: e.key
  }

  /**
   * The first n buckets of `b` hold exactly the map `m`: every entry sits in
   * the bucket its key hashes to, keys are unique within a bucket, every entry
   * belongs to `m`, and every pair of `m` is stored.
   */
  ghost predicate Buckets<K, V>(b: seq<seq<Entry<K, V>>>, n: nat, hash: (K, nat) -> nat, m: map<K, V>) {
    && n <= |b|
    && (forall i, j :: 0 <= i < n && 0 <= j < |b[i]| ==> hash(b[i][j].key, n) == i)
    && (forall i, j1, j2 :: 0 <= i < n && 0 <= j1 < j2 < |b[i]| ==> b[i][j1].key != b[i][j2].key)
    && (forall i, j :: 0 <= i < n && 0 <= j < |b[i]| ==> b[i][j].key in m && m[b[i][j].key] == b[i][j].value)
    && (forall k {:trigger hash(k, n)} :: k in m ==> hash(k, n) < n && Entry(k, m[k]) in b[hash(k, n)])
  }

  /** Pushing a fresh key at the head of its bucket adds exactly that pair. */
  lemma PushKeepsBuckets<K, V>(b: seq<seq<Entry<K, V>>>, n: nat, hash: (K, nat) -> nat, m: map<K, V>, k: K, v: V)
    requires Buckets(b, n, hash, m) && k !in m && hash(k, n) < n
    ensures Buckets(b[hash(k, n) := [Entry(k, v)] + b[hash(k, n)]], n, hash, m[k := v])
  {
    var h := hash(k, n);
    var b': seq<seq<Entry<K, V>>> := b[h := [Entry(k, v)] + b[h]];
    var m': map<K, V> := m[k := v];
    forall i, j | 0 <= i < n && 0 <= j < |b'[i]|
      ensures hash(b'[i][j].key, n) == i
      ensures b'[i][j].key in m' && m'[b'[i][j].key] == b'[i][j].value
    {
      if i == h && 0 < j {
        assert b'[i][j] == b[i][j - 1];
      }
    }
    forall i, j1, j2 | 0 <= i < n && 0 <= j1 < j2 < |b'[i]|
      ensures b'[i][j1].key != b'[i][j2].key
    {
      if i == h {
        assert b'[i][j2] == b[i][j2 - 1];
        if 0 < j1 {
          assert b'[i][j1] == b[i][j1 - 1];
        }
      }
    }
    forall k' | k' in m'
      ensures hash(k', n) < n && Entry(k', m'[k']) in b'[hash(k', n)]
    {
      if k' != k {
        assert Entry(k', m[k']) in b[hash(k', n)];
      }
    }
  }

  /** A key is in the map exactly when some entry of its own bucket carries it. */
  lemma InOwnBucket<K(!new), V>(b: seq<seq<Entry<K, V>>>, n: nat, hash: (K, nat) -> nat, m: map<K, V>, k: K)
    requires Buckets(b, n, hash, m) && 0 < n && HashOk(hash)
    ensures k in m <==> k in KeysOf(b[hash(k, n)])
  {
    if k in m {
      assert Entry(k, m[k]) in b[hash(k, n)];
    }
    if k in KeysOf(b[hash(k, n)]) {
      var e :| e in b[hash(k, n)] && e.key == k;
      var j :| 0 <= j < |b[hash(k, n)]| && b[hash(k, n)][j] == e;
    }
  }

  /** Bucket i of a well-formed bucket array, described the way PushChain needs it. */
  lemma BucketChain<K(!new), V>(b: seq<seq<Entry<K, V>>>, n: nat, hash: (K, nat) -> nat, m: map<K, V>, i: nat)
    requires Buckets(b, n, hash, m) && i < n
    ensures forall j1, j2 :: 0 <= j1 < j2 < |b[i]| ==> b[i][j1].key != b[i][j2].key
    ensures forall j :: 0 <= j < |b[i]| ==> hash(b[i][j].key, n) == i && b[i][j].key in m && m[b[i][j].key] == b[i][j].value
    ensures forall k :: k in m && hash(k, n) == i ==> k in KeysOf(b[i])
  {
    forall k | k in m && hash(k, n) == i
      ensures k in KeysOf(b[i])
    {
      assert Entry(k, m[k]) in b[i];
    }
  }

  /** Whether some entry of `chain` has key `k`, by walking the chain. */
  method ChainHasKey<K(==), V>(chain: seq<Entry<K, V>>, k: K) returns (found: bool)
    ensures found <==> k in KeysOf(chain)
  {
    var j := 0;
    while j < |chain|
      invariant 0 <= j <= |chain|
      invariant forall jj :: 0 <= jj < j ==> chain[jj].key != k
    {
      if chain[j].key == k {
        return true;
      }
      j := j + 1;
    }
    return false;
  }

  /**
   * Pushes the entries of `chain`, first to last, onto the heads of their
   * buckets in `b`; the map stored in `b` grows by the chain's pairs.
   */
  method PushChain<K(!new), V>(b: array<seq<Entry<K, V>>>, hash: (K, nat) -> nat,
                               chain: seq<Entry<K, V>>, ghost m: map<K, V>)
    returns (ghost m': map<K, V>)
    requires HashOk(hash) && 0 < b.Length && Buckets(b[..], b.Length, hash, m)
    requires forall j1, j2 :: 0 <= j1 < j2 < |chain| ==> chain[j1].key != chain[j2].key
    requires forall j :: 0 <= j < |chain| ==> chain[j].key !in m
    modifies b
    ensures Buckets(b[..], b.Length, hash, m')
    ensures forall k :: k in m' <==> k in m || k in KeysOf(chain)
    ensures forall k :: k in m ==> m'[k] == m[k]
    ensures forall j :: 0 <= j < |chain| ==> chain[j].key in m' && m'[chain[j].key] == chain[j].value
  {
    m' := m;
    var j := 0;
    while j < |chain|
      invariant 0 <= j <= |chain|
      invariant Buckets(b[..], b.Length, hash, m')
      invariant forall k :: k in m' <==> k in m || k in KeysOf(chain[..j])
      invariant forall k :: k in m ==> m'[k] == m[k]
      invariant forall jj :: 0 <= jj < j ==> m'[chain[jj].key] == chain[jj].value
    {
      var e := chain[j];
      var h := hash(e.key, b.Length);
      assert e.key !in KeysOf(chain[..j]);
      PushKeepsBuckets(b[..], b.Length, hash, m', e.key, e.value);
      b[h] := [e] + b[h];
      m' := m'[e.key := e.value];
      assert chain[..j + 1] == chain[..j] + [e];
      j := j + 1;
    }
    assert chain[..j] == chain;
  }

  /**
   * Moves the pairs held in the first n buckets of `src` into the empty
   * bucket array `dst`, rehashing every key under dst's length.
   */
  method Redistribute<K(!new), V>(src: array<seq<Entry<K, V>>>, n: nat, hash: (K, nat) -> nat,
                                  dst: array<seq<Entry<K, V>>>, ghost m: map<K, V>)
    requires src != dst && HashOk(hash) && 0 < dst.Length
    requires Buckets(src[..], n, hash, m)
    requires forall i :: 0 <= i < dst.Length ==> dst[i] == []
    modifies dst
    ensures Buckets(dst[..], dst.Length, hash, m)
  {
    ghost var moved: map<K, V> := map[];
    var i := 0;
    while i < n
      invariant 0 <= i <= n
      invariant Buckets(dst[..], dst.Length, hash, moved)
      invariant forall k :: k in moved <==> k in m && hash(k, n) < i
      invariant forall k :: k in moved ==> moved[k] == m[k]
    {
      BucketChain(src[..], n, hash, m, i);
      moved := PushChain(dst, hash, src[i], moved);
      i := i + 1;
    }
    assert moved == m;
  }

  class HashTab<K(==, !new), V(==)> {
    /** The bucket array; only the first `size` buckets are in use. */
    var table: array<seq<Entry<K, V>>>
    var size: nat
    var numEntries: nat
    /** The maximum load factor, as the fraction loadNum / loadDen. */
    const loadNum: nat
    const loadDen: nat
    const hash: (K, nat) -> nat
    ghost var contents: map<K, V>
    ghost var Repr: set<object>

    ghost predicate Valid()
      reads this, Repr
      ensures Valid() ==> this in Repr
    {
      && this in Repr && table in Repr
      && 0 < size <= table.Length && 0 < loadDen && HashOk(hash)
      && numEntries == |contents|
      && Buckets(table[..], size, hash, contents)
    }

    /** An empty table with 13 buckets in an array of 16 slots. */
    constructor Init(loadNum: nat, loadDen: nat, hash: (K, nat) -> nat)
      requires 0 < loadDen && HashOk(hash)
      ensures Valid() && fresh(Repr)
      ensures contents == map[] && numEntries == 0
      ensures size == InitialSize && table.Length == Pow2(InitialDeltaIndex)
      ensures this.loadNum == loadNum && this.loadDen == loadDen && this.hash == hash
    {
      size := InitialSize;
      numEntries := 0;
      this.loadNum := loadNum;
      this.loadDen := loadDen;
      this.hash := hash;
      table := new seq<Entry<K, V>>[16](_ => []);
      contents := map[];
      Repr := {this, table};
    }

    /** Whether one more entry would push the load factor above its maximum. */
    predicate NeedsResize(entries: nat, buckets: nat) {
      (entries + 1) * loadDen > loadNum * buckets
    }

    /** The value stored under `key`, or None if there is none or no key is given. */
    method Search(key: Option<K>) returns (r: Option<V>)
      requires Valid()
      ensures r == if key.Some? && key.value in contents then Some(contents[key.value]) else None
    {
      if key.None? {
        return None;
      }
      var k := key.value;
      var chain := table[hash(k, size)];
      var j := 0;
      while j < |chain|
        invariant 0 <= j <= |chain|
        invariant forall jj :: 0 <= jj < j ==> chain[jj].key != k
      {
        if chain[j].key == k {
          return Some(chain[j].value);
        }
        j := j + 1;
      }
      InOwnBucket(table[..], size, hash, contents, k);
      return None;
    }

    /**
     * Moves every entry into a new bucket array of NextSize(size) buckets,
     * rehashing each key under the new count.
     */
    method Rehash()
      requires Valid()
      modifies Repr
      ensures Valid() && fresh(Repr - old(Repr))
      ensures contents == old(contents) && numEntries == old(numEntries)
      ensures size == if old(size) <= MaxGrowableSize then NextSize(old(size)) else old(size)
    {
      if size > MaxGrowableSize {
        return;
      }
      var newSize := GetSize(size);
      var newTable := new seq<Entry<K, V>>[newSize](_ => []);
      Redistribute(table, size, hash, newTable, contents);
      table := newTable;
      size := newSize;
      Repr := Repr + {newTable};
    }

    /**
     * Associates `value` with `key` unless the key is already present; a
     * missing argument fails.  A resize happens before the new entry is
     * placed exactly when one more entry would exceed the maximum load factor.
     */
    method Insert(key: Option<K>, value: Option<V>) returns (status: InsertStatus)
      requires Valid()
      modifies Repr
      ensures Valid() && fresh(Repr - old(Repr))
      ensures status == Failure <==> key.None? || value.None?
      ensures status == KeyValuePairExists <==> key.Some? && value.Some? && key.value in old(contents)
      ensures status == Success ==> contents == old(contents)[key.value := value.value]
      ensures status == Success ==> numEntries == old(numEntries) + 1
      ensures status != Success ==> contents == old(contents) && numEntries == old(numEntries) && size == old(size)
      ensures status == Success ==>
        size == if NeedsResize(old(numEntries), old(size)) && old(size) <= MaxGrowableSize
                then NextSize(old(size)) else old(size)
    {
      if key.None? || value.None? {
        return Failure;
      }
      var k, v := key.value, value.value;
      var h := hash(k, size);
      var found := ChainHasKey(table[h], k);
      InOwnBucket(table[..], size, hash, contents, k);
      if found {
        return KeyValuePairExists;
      }
      if NeedsResize(numEntries, size) {
        Rehash();
        h := hash(k, size);
      }
      Place(k, v, h);
      status := Success;
    }

    /** Links a new entry for the absent key `k` at the head of bucket h. */
    method Place(k: K, v: V, h: nat)
      requires Valid() && k !in contents && h == hash(k, size)
      modifies this, table
      ensures Valid() && Repr == old(Repr) && size == old(size)
      ensures contents == old(contents)[k := v] && numEntries == old(numEntries) + 1
    {
      PushKeepsBuckets(table[..], size, hash, contents, k, v);
      table[h] := [Entry(k, v)] + table[h];
      numEntries := numEntries + 1;
      contents := contents[k := v];
    }
  }
}
