/** Connection tracking refines a map of bounded size. */
module ConntrackMap {
  import opened Wrappers
  import opened MachineInts
  import opened BitMask
  import opened Pigeonhole
  import opened RoutingSnapshot
  import opened ConntrackSpec

  ghost predicate UniqueChain(chain: Chain) {
    forall i, j :: 0 <= i < j < |chain| ==> chain[i].key != chain[j].key
  }

  ghost predicate BucketPlaced(buckets: seq<Chain>, hash: FlowHash, count: nat, b: nat)
    requires IsPow2(count) && b < |buckets|
  {
    UniqueChain(buckets[b]) && forall r :: r in buckets[b] ==> BucketOf(hash, r.key, count) == b
  }

  /** Every record is in the bucket its key hashes to, and keys are unique. */
  ghost predicate Placed(buckets: seq<Chain>, hash: FlowHash, count: nat)
    requires IsPow2(count)
  {
    forall b: nat :: b < |buckets| ==> BucketPlaced(buckets, hash, count, b)
  }

  lemma PlacedPrefix(buckets: seq<Chain>, hash: FlowHash, count: nat)
    requires IsPow2(count) && Placed(buckets, hash, count) && buckets != []
    ensures Placed(buckets[..|buckets| - 1], hash, count)
  {
    var rest := buckets[..|buckets| - 1];
    forall b: nat | b < |rest|
      ensures BucketPlaced(rest, hash, count, b)
    {
      assert BucketPlaced(buckets, hash, count, b);
    }
  }

  lemma PlacedUpdate(buckets: seq<Chain>, hash: FlowHash, count: nat, b: nat, chain: Chain)
    requires IsPow2(count) && Placed(buckets, hash, count) && b < |buckets|
    requires UniqueChain(chain) && forall r :: r in chain ==> BucketOf(hash, r.key, count) == b
    ensures Placed(buckets[b := chain], hash, count)
  {
    var after := buckets[b := chain];
    forall a: nat | a < |after|
      ensures BucketPlaced(after, hash, count, a)
    {
      assert BucketPlaced(buckets, hash, count, a);
    }
  }

  ghost predicate WellFormed(t: Table, hash: FlowHash) {
    && IsPow2(|t.buckets|) && t.cursor < |t.buckets| && Size(t.buckets) <= t.capacity
    && Placed(t.buckets, hash, |t.buckets|)
  }

  function FindIn(chain: Chain, key: FlowKey): (r: Option<Rec>)
    ensures r.Some? ==> r.value in chain && r.value.key == key
    ensures r.None? ==> forall x :: x in chain ==> x.key != key
  {
    var i := KeyIndex(chain, key);
    if i == |chain| then None else Some(chain[i])
  }

  /** The record a key is pinned by. */
  function Find(t: Table, hash: FlowHash, key: FlowKey): (r: Option<Rec>)
    requires IsPow2(|t.buckets|)
  {
    FindIn(t.buckets[BucketOf(hash, key, |t.buckets|)], key)
  }

  ghost function ChainKeys(chain: Chain): (s: set<FlowKey>)
    ensures forall k :: k in s <==> exists r :: r in chain && r.key == k
  {
    set r | r in chain :: r.key
  }

  ghost function Keys(buckets: seq<Chain>): (s: set<FlowKey>) {
    if buckets == [] then {} else Keys(buckets[..|buckets| - 1]) + ChainKeys(buckets[|buckets| - 1])
  }

  lemma {:induction false} KeysMember(buckets: seq<Chain>, b: nat, key: FlowKey)
    requires b < |buckets| && key in ChainKeys(buckets[b])
    ensures key in Keys(buckets)
  {
    if b < |buckets| - 1 {
      KeysMember(buckets[..|buckets| - 1], b, key);
    }
  }

  lemma {:induction false} KeysPlaced(buckets: seq<Chain>, hash: FlowHash, count: nat, key: FlowKey)
    requires IsPow2(count) && Placed(buckets, hash, count) && key in Keys(buckets)
    ensures BucketOf(hash, key, count) < |buckets|
    ensures key in ChainKeys(buckets[BucketOf(hash, key, count)])
  {
    var k := |buckets| - 1;
    if key in ChainKeys(buckets[k]) {
      var r :| r in buckets[k] && r.key == key;
      assert BucketPlaced(buckets, hash, count, k);
    } else {
      PlacedPrefix(buckets, hash, count);
      KeysPlaced(buckets[..k], hash, count, key);
    }
  }

  /** The abstract contents: one pin per key. */
  ghost function AsMap(t: Table, hash: FlowHash): (m: map<FlowKey, Rec>)
    requires IsPow2(|t.buckets|)
  {
    map key | key in Keys(t.buckets) && Find(t, hash, key).Some? :: Find(t, hash, key).value
  }

  ghost predicate Describes(m: map<FlowKey, Rec>, t: Table, hash: FlowHash, key: FlowKey)
    requires IsPow2(|t.buckets|)
  {
    Find(t, hash, key) == if key in m then Some(m[key]) else None
  }

  lemma AsMapFind(t: Table, hash: FlowHash, key: FlowKey)
    requires IsPow2(|t.buckets|)
    ensures Describes(AsMap(t, hash), t, hash, key)
  {
    if Find(t, hash, key).Some? {
      KeysMember(t.buckets, BucketOf(hash, key, |t.buckets|), key);
    }
  }

  lemma AsMapUnique(m: map<FlowKey, Rec>, t: Table, hash: FlowHash)
    requires IsPow2(|t.buckets|)
    requires forall key :: Describes(m, t, hash, key)
    ensures AsMap(t, hash) == m
  {
    var a := AsMap(t, hash);
    forall key
      ensures key in a <==> key in m
      ensures key in a ==> a[key] == m[key]
    {
      AsMapFind(t, hash, key);
      assert Describes(m, t, hash, key);
    }
  }

  lemma {:induction false} ChainKeysSize(chain: Chain)
    requires UniqueChain(chain)
    ensures |ChainKeys(chain)| == |chain|
  {
    var keys := seq(|chain|, i requires 0 <= i < |chain| => chain[i].key);
    DistinctSize(keys);
    forall k | k in ChainKeys(chain)
      ensures k in Elements(keys)
    {
      var i :| 0 <= i < |chain| && chain[i].key == k;
      assert keys[i] == k;
    }
    forall k | k in Elements(keys)
      ensures k in ChainKeys(chain)
    {
      var i :| 0 <= i < |keys| && keys[i] == k;
      assert chain[i] in chain;
    }
    assert ChainKeys(chain) == Elements(keys);
  }

  lemma {:induction false} KeysSize(buckets: seq<Chain>, hash: FlowHash, count: nat)
    requires IsPow2(count) && Placed(buckets, hash, count)
    ensures |Keys(buckets)| == Size(buckets)
  {
    if buckets != [] {
      var k := |buckets| - 1;
      var rest := buckets[..k];
      PlacedPrefix(buckets, hash, count);
      assert BucketPlaced(buckets, hash, count, k);
      KeysSize(rest, hash, count);
      ChainKeysSize(buckets[k]);
      forall key | key in Keys(rest)
        ensures BucketOf(hash, key, count) < k
      {
        KeysPlaced(rest, hash, count, key);
      }
      forall key | key in ChainKeys(buckets[k])
        ensures BucketOf(hash, key, count) == k
      {
        var r :| r in buckets[k] && r.key == key;
      }
      assert Keys(rest) !! ChainKeys(buckets[k]);
    }
  }

  /** `active` counts the records, which is the number of pinned keys. */
  lemma SizeIsMapSize(t: Table, hash: FlowHash)
    requires WellFormed(t, hash)
    ensures |AsMap(t, hash)| == Size(t.buckets)
  {
    KeysSize(t.buckets, hash, |t.buckets|);
    forall key | key in Keys(t.buckets)
      ensures key in AsMap(t, hash)
    {
      KeysPlaced(t.buckets, hash, |t.buckets|, key);
      AsMapFind(t, hash, key);
    }
    assert AsMap(t, hash).Keys == Keys(t.buckets);
  }

  lemma FindInMember(chain: Chain, r: Rec)
    requires UniqueChain(chain) && r in chain
    ensures FindIn(chain, r.key) == Some(r)
  {
    var i :| 0 <= i < |chain| && chain[i] == r;
    var j := KeyIndex(chain, r.key);
    assert j == i;
  }

  // ------------------------------------------------------------ lookup

  lemma LookupEffect(t: Table, hash: FlowHash, key: FlowKey, now: u64)
    requires WellFormed(t, hash)
    ensures var (t', hit) := Lookup(t, hash, key, now);
            && WellFormed(t', hash)
            && hit == (if Find(t, hash, key).Some? then Some(Find(t, hash, key).value.backend) else None)
            && (hit.None? ==> t' == t)
            && (hit.Some? ==> Find(t', hash, key) == Some(Find(t, hash, key).value.(lastSeen := now)))
            && (forall k :: k != key ==> Find(t', hash, k) == Find(t, hash, k))
  {
    var b := BucketOf(hash, key, |t.buckets|);
    var chain := t.buckets[b];
    var i := KeyIndex(chain, key);
    var t' := Lookup(t, hash, key, now).0;
    assert BucketPlaced(t.buckets, hash, |t.buckets|, b);
    if i < |chain| {
      var chain' := chain[i := chain[i].(lastSeen := now)];
      TotalUpdate(t.buckets, Length, b, chain');
      TouchedChain(chain, i, now);
      forall r | r in chain'
        ensures BucketOf(hash, r.key, |t.buckets|) == b
      {
        var j :| 0 <= j < |chain'| && chain'[j] == r;
        assert chain[j] in chain;
      }
      PlacedUpdate(t.buckets, hash, |t.buckets|, b, chain');
      forall k | k != key
        ensures Find(t', hash, k) == Find(t, hash, k)
      {
        TouchedFind(chain, i, now, k);
      }
    }
  }

  lemma TouchedChain(chain: Chain, i: nat, now: u64)
    requires UniqueChain(chain) && i < |chain|
    ensures var chain' := chain[i := chain[i].(lastSeen := now)];
            UniqueChain(chain') && FindIn(chain', chain[i].key) == Some(chain'[i])
  {
    var chain' := chain[i := chain[i].(lastSeen := now)];
    assert chain'[i] in chain';
    FindInMember(chain', chain'[i]);
  }

  lemma TouchedFind(chain: Chain, i: nat, now: u64, k: FlowKey)
    requires i < |chain| && chain[i].key != k
    ensures FindIn(chain[i := chain[i].(lastSeen := now)], k) == FindIn(chain, k)
  {
    var chain' := chain[i := chain[i].(lastSeen := now)];
    assert forall j :: 0 <= j < |chain| ==> chain'[j].key == chain[j].key;
    assert KeyIndex(chain', k) == KeyIndex(chain, k);
  }

  // ------------------------------------------------------------ insert

  lemma PrependFind(chain: Chain, r: Rec, k: FlowKey)
    ensures FindIn([r] + chain, k) == if k == r.key then Some(r) else FindIn(chain, k)
  {
    assert ([r] + chain)[1..] == chain;
  }

  lemma InsertEffect(t: Table, hash: FlowHash, key: FlowKey, backend: i32, now: u64)
    requires WellFormed(t, hash) && Find(t, hash, key).None?
    ensures var (t', ok) := Insert(t, hash, key, backend, now);
            && WellFormed(t', hash)
            && (ok <==> Size(t.buckets) < t.capacity)
            && Size(t'.buckets) == Size(t.buckets) + (if ok then 1 else 0)
            && (!ok ==> t' == t)
            && (ok ==> Find(t', hash, key) == Some(Rec(key, backend, now)))
            && (forall k :: k != key ==> Find(t', hash, k) == Find(t, hash, k))
  {
    var b := BucketOf(hash, key, |t.buckets|);
    var chain, r := t.buckets[b], Rec(key, backend, now);
    var chain' := [r] + chain;
    assert BucketPlaced(t.buckets, hash, |t.buckets|, b);
    TotalUpdate(t.buckets, Length, b, chain');
    assert UniqueChain(chain') by {
      assert forall i :: 0 <= i < |chain| ==> chain[i] in chain;
    }
    PlacedUpdate(t.buckets, hash, |t.buckets|, b, chain');
    PrependFind(chain, r, key);
    forall k | k != key
      ensures FindIn(chain', k) == FindIn(chain, k)
    {
      PrependFind(chain, r, k);
    }
  }

  // ------------------------------------------------------------ reap

  lemma {:induction false} KeepUnique(chain: Chain, now: u64, lim: Timeouts)
    requires UniqueChain(chain)
    ensures UniqueChain(Keep(chain, now, lim))
  {
    if chain != [] {
      var rest := chain[1..];
      KeepUnique(rest, now, lim);
      KeepMembers(rest, now, lim);
      forall r | r in Keep(rest, now, lim)
        ensures r.key != chain[0].key
      {
        assert r in rest;
      }
    }
  }

  lemma KeepFind(chain: Chain, now: u64, lim: Timeouts, k: FlowKey)
    requires UniqueChain(chain)
    ensures FindIn(Keep(chain, now, lim), k) ==
            if FindIn(chain, k).Some? && Expired(FindIn(chain, k).value, now, lim) then None else FindIn(chain, k)
  {
    var kept := Keep(chain, now, lim);
    KeepUnique(chain, now, lim);
    KeepMembers(chain, now, lim);
    var before, after := FindIn(chain, k), FindIn(kept, k);
    if before.Some? && !Expired(before.value, now, lim) {
      FindInMember(kept, before.value);
    } else if after.Some? {
      FindInMember(chain, after.value);
      assert false;
    }
  }

  predicate Visited(t: Table, hash: FlowHash, key: FlowKey, n: nat)
    requires IsPow2(|t.buckets|) && t.cursor < |t.buckets|
  {
    Distance(t.cursor, BucketOf(hash, key, |t.buckets|), |t.buckets|) < n
  }

  /** A sweep removes exactly the expired pins of the buckets it visits. */
  lemma SweepRefines(t: Table, hash: FlowHash, now: u64, lim: Timeouts, n: nat)
    requires WellFormed(t, hash) && n <= |t.buckets|
    ensures var (t', ev) := Sweep(t, now, lim, n);
            && WellFormed(t', hash)
            && t'.cursor == (t.cursor + n) % |t.buckets|
            && forall k :: Find(t', hash, k) ==
                 if Visited(t, hash, k, n) && Find(t, hash, k).Some? && Expired(Find(t, hash, k).value, now, lim)
                 then None else Find(t, hash, k)
  {
    var (t', ev) := Sweep(t, now, lim, n);
    SweepEffect(t, now, lim, n);
    SweepCounts(t, now, lim, n, 0);
    forall b: nat | b < |t.buckets|
      ensures BucketPlaced(t'.buckets, hash, |t.buckets|, b)
    {
      assert BucketPlaced(t.buckets, hash, |t.buckets|, b);
      KeepUnique(t.buckets[b], now, lim);
      KeepMembers(t.buckets[b], now, lim);
    }
    forall k
      ensures Find(t', hash, k) ==
              if Visited(t, hash, k, n) && Find(t, hash, k).Some? && Expired(Find(t, hash, k).value, now, lim)
              then None else Find(t, hash, k)
    {
      assert BucketPlaced(t.buckets, hash, |t.buckets|, BucketOf(hash, k, |t.buckets|));
      KeepFind(t.buckets[BucketOf(hash, k, |t.buckets|)], now, lim, k);
    }
  }

  /** A reaper slice keeps the table well formed and reports what it removes. */
  lemma ReapCounts(t: Table, hash: FlowHash, now: u64, lim: Timeouts, maxBuckets: nat, id: i32)
    requires WellFormed(t, hash)
    ensures var (t', ev) := Reap(t, now, lim, maxBuckets);
            && WellFormed(t', hash) && t'.capacity == t.capacity
            && Size(t.buckets) == Size(t'.buckets) + |ev|
            && PinnedTo(t.buckets, id) == PinnedTo(t'.buckets, id) + multiset(ev)[id]
  {
    var n := if maxBuckets > |t.buckets| then |t.buckets| else maxBuckets;
    SweepRefines(t, hash, now, lim, n);
    SweepCounts(t, now, lim, n, id);
  }

  // ------------------------------------------------------------ the refinement

  /** Lookup is map lookup, and a hit refreshes only that pin. */
  lemma LookupRefinesMap(t: Table, hash: FlowHash, key: FlowKey, now: u64)
    requires WellFormed(t, hash)
    ensures var (t', hit) := Lookup(t, hash, key, now);
            var m := AsMap(t, hash);
            && WellFormed(t', hash)
            && hit == (if key in m then Some(m[key].backend) else None)
            && AsMap(t', hash) == if key in m then m[key := m[key].(lastSeen := now)] else m
  {
    LookupEffect(t, hash, key, now);
    var t' := Lookup(t, hash, key, now).0;
    var m := AsMap(t, hash);
    AsMapFind(t, hash, key);
    var m' := if key in m then m[key := m[key].(lastSeen := now)] else m;
    forall k
      ensures Describes(m', t', hash, k)
    {
      AsMapFind(t, hash, k);
    }
    AsMapUnique(m', t', hash);
  }

  /** After a miss, insert fails exactly when the map is full, and otherwise adds
      exactly that pin. */
  lemma InsertRefinesMap(t: Table, hash: FlowHash, key: FlowKey, backend: i32, now: u64)
    requires WellFormed(t, hash) && key !in AsMap(t, hash)
    ensures var (t', ok) := Insert(t, hash, key, backend, now);
            var m := AsMap(t, hash);
            && WellFormed(t', hash)
            && (ok <==> |m| < t.capacity)
            && AsMap(t', hash) == if ok then m[key := Rec(key, backend, now)] else m
  {
    AsMapFind(t, hash, key);
    InsertEffect(t, hash, key, backend, now);
    SizeIsMapSize(t, hash);
    var (t', ok) := Insert(t, hash, key, backend, now);
    var m := AsMap(t, hash);
    var m' := if ok then m[key := Rec(key, backend, now)] else m;
    forall k
      ensures Describes(m', t', hash, k)
    {
      AsMapFind(t, hash, k);
    }
    AsMapUnique(m', t', hash);
  }

  /** A reaper slice removes exactly the expired pins of the visited buckets and
      calls back once for each. */
  lemma ReapRefinesMap(t: Table, hash: FlowHash, now: u64, lim: Timeouts, maxBuckets: nat)
    requires WellFormed(t, hash)
    ensures var (t', ev) := Reap(t, now, lim, maxBuckets);
            var m := AsMap(t, hash);
            && WellFormed(t', hash)
            && AsMap(t', hash)
               == (map k | k in m && !(Visited(t, hash, k, maxBuckets) && Expired(m[k], now, lim)) :: m[k])
            && |ev| == |m| - |AsMap(t', hash)|
            && (forall id :: multiset(ev)[id] == PinnedTo(t.buckets, id) - PinnedTo(t'.buckets, id))
  {
    var n := if maxBuckets > |t.buckets| then |t.buckets| else maxBuckets;
    SweepRefines(t, hash, now, lim, n);
    var (t', ev) := Reap(t, now, lim, maxBuckets);
    SizeIsMapSize(t, hash);
    SizeIsMapSize(t', hash);
    SweepCounts(t, now, lim, n, 0);
    forall id: i32
      ensures multiset(ev)[id] == PinnedTo(t.buckets, id) - PinnedTo(t'.buckets, id)
    {
      SweepCounts(t, now, lim, n, id);
    }
    var m := AsMap(t, hash);
    var m' := map k | k in m && !(Visited(t, hash, k, maxBuckets) && Expired(m[k], now, lim)) :: m[k];
    forall k
      ensures Describes(m', t', hash, k)
    {
      AsMapFind(t, hash, k);
      assert Visited(t, hash, k, n) <==> Visited(t, hash, k, maxBuckets);
    }
    AsMapUnique(m', t', hash);
  }
}
