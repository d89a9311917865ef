/** One hash table of the dictionary: buckets that are chains of entries, and its element count. */
module DictTables {
  import opened Bits
  import opened Wrappers

  type Hash = h: nat | h < 0x1_0000_0000

  datatype Entry<K, V> = Entry(key: K, val: V)

  /** dictht: an empty one has no buckets. */
  datatype Table<K, V> = Table(buckets: seq<seq<Entry<K, V>>>, used: nat)

  function Reset<K, V>(): Table<K, V> { Table([], 0) }

  // ---- chains ----

  function Lookup<K(==), V>(chain: seq<Entry<K, V>>, key: K): (r: Option<V>)
  {
    if chain == [] then None else if chain[0].key == key then Some(chain[0].val) else Lookup(chain[1..], key)
  }

  predicate Distinct<K(==), V>(chain: seq<Entry<K, V>>) {
    forall i, j :: 0 <= i < j < |chain| ==> chain[i].key != chain[j].key
  }

  lemma {:induction false} LookupNone<K, V>(chain: seq<Entry<K, V>>, key: K)
    ensures Lookup(chain, key) == None <==> forall i :: 0 <= i < |chain| ==> chain[i].key != key
    decreases |chain|
  {
    if chain != [] {
      LookupNone(chain[1..], key);
      forall i | 1 <= i < |chain| ensures chain[i] == chain[1..][i - 1] { }
      if Lookup(chain, key) == None {
        forall i | 0 <= i < |chain| ensures chain[i].key != key { if i > 0 { assert chain[i] == chain[1..][i - 1]; } }
      }
    }
  }

  lemma {:induction false} LookupAt<K, V>(chain: seq<Entry<K, V>>, i: nat)
    requires Distinct(chain) && i < |chain|
    ensures Lookup(chain, chain[i].key) == Some(chain[i].val)
    decreases |chain|
  {
    if i > 0 { LookupAt(chain[1..], i - 1); }
  }

  lemma DistinctWithout<K, V>(chain: seq<Entry<K, V>>, i: nat)
    requires Distinct(chain) && i < |chain|
    ensures Distinct(chain[..i] + chain[i + 1..])
  {
  }

  /** Taking one entry out of a chain forgets its key and no other. */
  lemma {:induction false} LookupWithout<K, V>(chain: seq<Entry<K, V>>, i: nat, key: K)
    requires Distinct(chain) && i < |chain|
    ensures Lookup(chain[..i] + chain[i + 1..], key) == if key == chain[i].key then None else Lookup(chain, key)
    decreases |chain|
  {
    var rest := chain[..i] + chain[i + 1..];
    if i == 0 {
      assert rest == chain[1..];
      if key == chain[0].key {
        LookupNone(rest, key);
      }
    } else {
      assert rest[0] == chain[0] && rest[1..] == chain[1..][..i - 1] + chain[1..][i..];
      assert chain[0].key != chain[i].key && chain[1..][i - 1] == chain[i];
      LookupWithout(chain[1..], i - 1, key);
    }
  }

  /** Changing the value of one entry changes it for its key and no other. */
  lemma {:induction false} LookupSet<K, V>(chain: seq<Entry<K, V>>, i: nat, val: V, key: K)
    requires Distinct(chain) && i < |chain|
    ensures Distinct(chain[i := chain[i].(val := val)])
    ensures Lookup(chain[i := chain[i].(val := val)], key) == if key == chain[i].key then Some(val) else Lookup(chain, key)
    decreases |chain|
  {
    if i > 0 {
      assert chain[i := chain[i].(val := val)][1..] == chain[1..][i - 1 := chain[1..][i - 1].(val := val)];
      LookupSet(chain[1..], i - 1, val, key);
    }
  }

  // ---- tables ----

  function Total<K, V>(buckets: seq<seq<Entry<K, V>>>): nat {
    if buckets == [] then 0 else |buckets[0]| + Total(buckets[1..])
  }

  /** The bucket that a key belongs to. */
  function Home<K, V>(t: Table<K, V>, h: nat): (i: nat)
    requires |t.buckets| > 0
    ensures i < |t.buckets|
  {
    And(h, |t.buckets| - 1)
  }

  function At<K(==), V>(t: Table<K, V>, hash: K -> Hash, key: K): Option<V> {
    if |t.buckets| == 0 then None else Lookup(t.buckets[Home(t, hash(key))], key)
  }

  predicate ChainOk<K(==), V>(t: Table<K, V>, hash: K -> Hash, i: nat)
    requires i < |t.buckets|
  {
    Distinct(t.buckets[i]) && forall j :: 0 <= j < |t.buckets[i]| ==> Home(t, hash(t.buckets[i][j].key)) == i
  }

  ghost predicate IsPow2(n: nat) { exists k :: SizeIs(n, k) }

  predicate SizeIs(n: nat, k: nat) { n == Pow2(k) }

  /** Every entry is at home, no key is twice in the table, the count is right. */
  ghost predicate TableOk<K, V>(t: Table<K, V>, hash: K -> Hash) {
    && (|t.buckets| == 0 || IsPow2(|t.buckets|))
    && t.used == Total(t.buckets)
    && forall i :: 0 <= i < |t.buckets| ==> ChainOk(t, hash, i)
  }

  lemma {:induction false} TotalUpdate<K, V>(buckets: seq<seq<Entry<K, V>>>, i: nat, chain: seq<Entry<K, V>>)
    requires i < |buckets|
    ensures Total(buckets[i := chain]) == Total(buckets) - |buckets[i]| + |chain|
    ensures Total(buckets) >= |buckets[i]|
    decreases |buckets|
  {
    if i == 0 {
      assert buckets[0 := chain][1..] == buckets[1..];
    } else {
      assert buckets[i := chain][1..] == buckets[1..][i - 1 := chain];
      TotalUpdate(buckets[1..], i - 1, chain);
    }
  }

  lemma {:induction false} TotalZero<K, V>(buckets: seq<seq<Entry<K, V>>>)
    ensures Total(buckets) == 0 <==> forall i :: 0 <= i < |buckets| ==> buckets[i] == []
    decreases |buckets|
  {
    if buckets != [] {
      TotalZero(buckets[1..]);
      if Total(buckets) == 0 {
        forall i | 0 <= i < |buckets| ensures buckets[i] == [] { if i > 0 { assert buckets[i] == buckets[1..][i - 1]; } }
      } else if buckets[0] == [] {
        var rest := buckets[1..];
        var i :| 0 <= i < |rest| && rest[i] != [];
        assert buckets[i + 1] == rest[i];
      }
    }
  }

  /** Some bucket is not empty. */
  lemma TotalPositive<K, V>(buckets: seq<seq<Entry<K, V>>>) returns (i: nat)
    requires Total(buckets) > 0
    ensures i < |buckets| && buckets[i] != []
  {
    TotalZero(buckets);
    i :| 0 <= i < |buckets| && buckets[i] != [];
  }

  // ---- one table changed at one bucket ----

  function WithChain<K, V>(t: Table<K, V>, i: nat, chain: seq<Entry<K, V>>, used: nat): Table<K, V>
    requires i < |t.buckets|
  {
    Table(t.buckets[i := chain], used)
  }

  lemma WithChainOk<K, V>(t: Table<K, V>, hash: K -> Hash, i: nat, chain: seq<Entry<K, V>>, used: nat)
    requires TableOk(t, hash) && i < |t.buckets| && Distinct(chain) && used == t.used - |t.buckets[i]| + |chain|
    requires forall j :: 0 <= j < |chain| ==> Home(t, hash(chain[j].key)) == i
    ensures TableOk(WithChain(t, i, chain, used), hash)
  {
    hide Home, IsPow2, Distinct;
    TotalUpdate(t.buckets, i, chain);
    var t' := WithChain(t, i, chain, used);
    forall k | 0 <= k < |t'.buckets| ensures ChainOk(t', hash, k) {
      SameHome(t, t', hash, k);
    }
  }

  lemma SameHome<K, V>(t: Table<K, V>, t': Table<K, V>, hash: K -> Hash, k: nat)
    requires |t.buckets| == |t'.buckets| > 0 && k < |t.buckets|
    ensures forall h :: Home(t, h) == Home(t', h)
    ensures t'.buckets[k] == t.buckets[k] ==> ChainOk(t, hash, k) == ChainOk(t', hash, k)
  {
  }

  lemma AtOther<K, V>(t: Table<K, V>, hash: K -> Hash, i: nat, chain: seq<Entry<K, V>>, used: nat, key: K)
    requires i < |t.buckets|
    ensures At(WithChain(t, i, chain, used), hash, key) == if Home(t, hash(key)) == i then Lookup(chain, key)
            else At(t, hash, key)
  {
    hide And, Lookup;
  }

  /** A key found in the table is in its home bucket; a chain holds only keys at home there. */
  lemma AtEntry<K, V>(t: Table<K, V>, hash: K -> Hash, i: nat, j: nat)
    requires TableOk(t, hash) && i < |t.buckets| && j < |t.buckets[i]|
    ensures At(t, hash, t.buckets[i][j].key) == Some(t.buckets[i][j].val)
  {
    assert ChainOk(t, hash, i);
    LookupAt(t.buckets[i], j);
  }
}
