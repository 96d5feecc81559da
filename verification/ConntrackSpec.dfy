/** Connection tracking (src/conntrack/conntrack.c) as bucket lists of records,
    and its view as a bounded map from flow keys to pins. */
module ConntrackSpec {
  import opened Wrappers
  import opened MachineInts
  import opened BitMask
  import opened RoutingSnapshot

  const IPPROTO_TCP: u8 := 6
  const IPPROTO_UDP: u8 := 17
  const TWO64: int := 0x1_0000_0000_0000_0000

  datatype Rec = Rec(key: FlowKey, backend: i32, lastSeen: u64)

  type Chain = seq<Rec>

  datatype Table = Table(buckets: seq<Chain>, cursor: nat, capacity: nat)

  datatype Timeouts = Timeouts(tcp: u64, udp: u64)

  /** flow_hash(key) & (bucket_count - 1) */
  function BucketOf(hash: FlowHash, key: FlowKey, count: nat): (b: nat)
    requires IsPow2(count)
    ensures b < count
  {
    MaskInRange(hash(key), count);
    BitAnd(hash(key), count - 1)
  }

  // ------------------------------------------------------------ operations

  /** The first record with this key, or |chain|. */
  function KeyIndex(chain: Chain, key: FlowKey): (i: nat)
    ensures i <= |chain|
    ensures i < |chain| ==> chain[i].key == key
    ensures forall j :: 0 <= j < i ==> chain[j].key != key
  {
    if chain == [] || chain[0].key == key then 0 else 1 + KeyIndex(chain[1..], key)
  }

  function Lookup(t: Table, hash: FlowHash, key: FlowKey, now: u64): (r: (Table, Option<i32>))
    requires IsPow2(|t.buckets|)
  {
    var b := BucketOf(hash, key, |t.buckets|);
    var chain := t.buckets[b];
    var i := KeyIndex(chain, key);
    if i == |chain| then (t, None)
    else (t.(buckets := t.buckets[b := chain[i := chain[i].(lastSeen := now)]]), Some(chain[i].backend))
  }

  function Insert(t: Table, hash: FlowHash, key: FlowKey, backend: i32, now: u64): (r: (Table, bool))
    requires IsPow2(|t.buckets|)
  {
    var b := BucketOf(hash, key, |t.buckets|);
    if Size(t.buckets) >= t.capacity then (t, false)
    else (t.(buckets := t.buckets[b := [Rec(key, backend, now)] + t.buckets[b]]), true)
  }

  function TimeoutOf(key: FlowKey, lim: Timeouts): (r: u64) {
    if key.proto == IPPROTO_TCP then lim.tcp else lim.udp
  }

  /** now_ns - last_seen_ns > timeout, in unsigned 64-bit arithmetic. */
  predicate Expired(r: Rec, now: u64, lim: Timeouts) {
    (now - r.lastSeen) % TWO64 > TimeoutOf(r.key, lim)
  }

  function Keep(chain: Chain, now: u64, lim: Timeouts): (r: Chain) {
    if chain == [] then []
    else if Expired(chain[0], now, lim) then Keep(chain[1..], now, lim)
    else [chain[0]] + Keep(chain[1..], now, lim)
  }

  lemma {:induction false} KeepMembers(chain: Chain, now: u64, lim: Timeouts)
    ensures forall x :: x in Keep(chain, now, lim) <==> x in chain && !Expired(x, now, lim)
  {
    if chain != [] {
      KeepMembers(chain[1..], now, lim);
      assert chain == [chain[0]] + chain[1..];
    }
  }

  /** The backends passed to the eviction callback, in order. */
  function Evicted(chain: Chain, now: u64, lim: Timeouts): (r: seq<i32>) {
    if chain == [] then []
    else if Expired(chain[0], now, lim) then [chain[0].backend] + Evicted(chain[1..], now, lim)
    else Evicted(chain[1..], now, lim)
  }

  function SweepOne(t: Table, now: u64, lim: Timeouts): (r: (Table, seq<i32>))
    requires t.cursor < |t.buckets|
  {
    var chain := t.buckets[t.cursor];
    (t.(buckets := t.buckets[t.cursor := Keep(chain, now, lim)], cursor := (t.cursor + 1) % |t.buckets|),
     Evicted(chain, now, lim))
  }

  function Sweep(t: Table, now: u64, lim: Timeouts, n: nat): (r: (Table, seq<i32>))
    requires t.cursor < |t.buckets|
    ensures r.0.cursor < |r.0.buckets| == |t.buckets| && r.0.capacity == t.capacity
  {
    if n == 0 then (t, [])
    else
      var (t1, e1) := Sweep(t, now, lim, n - 1);
      var (t2, e2) := SweepOne(t1, now, lim);
      (t2, e1 + e2)
  }

  function Reap(t: Table, now: u64, lim: Timeouts, maxBuckets: nat): (r: (Table, seq<i32>))
    requires t.cursor < |t.buckets|
  {
    Sweep(t, now, lim, if maxBuckets > |t.buckets| then |t.buckets| else maxBuckets)
  }

  // ------------------------------------------------------------ totals over buckets

  function Total(buckets: seq<Chain>, f: Chain -> nat): (r: nat) {
    if buckets == [] then 0 else Total(buckets[..|buckets| - 1], f) + f(buckets[|buckets| - 1])
  }

  lemma {:induction false} TotalUpdate(buckets: seq<Chain>, f: Chain -> nat, b: nat, chain: Chain)
    requires b < |buckets|
    ensures Total(buckets[b := chain], f) == Total(buckets, f) - f(buckets[b]) + f(chain)
  {
    var k := |buckets| - 1;
    if b == k {
      assert buckets[b := chain][..k] == buckets[..k];
    } else {
      assert buckets[b := chain][..k] == buckets[..k][b := chain];
      TotalUpdate(buckets[..k], f, b, chain);
    }
  }

  lemma {:induction false} TotalEmpty(n: nat, f: Chain -> nat)
    requires f([]) == 0
    ensures Total(seq(n, _ => []), f) == 0
  {
    if n > 0 {
      var s: seq<Chain> := seq(n, _ => []);
      assert s[..n - 1] == seq(n - 1, _ => []);
      TotalEmpty(n - 1, f);
    }
  }

  function Length(chain: Chain): nat {
    |chain|
  }

  function Size(buckets: seq<Chain>): (n: nat) {
    Total(buckets, Length)
  }

  /** How many records of a chain are pinned to a backend. */
  function CountChain(chain: Chain, id: i32): (n: nat) {
    if chain == [] then 0 else (if chain[0].backend == id then 1 else 0) + CountChain(chain[1..], id)
  }

  function PinnedTo(buckets: seq<Chain>, id: i32): (n: nat) {
    Total(buckets, chain => CountChain(chain, id))
  }

  lemma {:induction false} KeepCounts(chain: Chain, now: u64, lim: Timeouts, id: i32)
    ensures |chain| == |Keep(chain, now, lim)| + |Evicted(chain, now, lim)|
    ensures CountChain(chain, id) == CountChain(Keep(chain, now, lim), id) + multiset(Evicted(chain, now, lim))[id]
  {
    if chain != [] {
      KeepCounts(chain[1..], now, lim, id);
      var rest := Keep(chain[1..], now, lim);
      assert ([chain[0]] + rest)[1..] == rest;
    }
  }

  lemma SweepOneCounts(t: Table, now: u64, lim: Timeouts, id: i32)
    requires t.cursor < |t.buckets|
    ensures var (t', ev) := SweepOne(t, now, lim);
            && Size(t.buckets) == Size(t'.buckets) + |ev|
            && PinnedTo(t.buckets, id) == PinnedTo(t'.buckets, id) + multiset(ev)[id]
  {
    var chain := t.buckets[t.cursor];
    KeepCounts(chain, now, lim, id);
    TotalUpdate(t.buckets, Length, t.cursor, Keep(chain, now, lim));
    TotalUpdate(t.buckets, c => CountChain(c, id), t.cursor, Keep(chain, now, lim));
  }

  lemma {:induction false} SweepSize(t: Table, now: u64, lim: Timeouts, n: nat)
    requires t.cursor < |t.buckets|
    ensures var (t', ev) := Sweep(t, now, lim, n); Size(t.buckets) == Size(t'.buckets) + |ev|
  {
    if n > 0 {
      SweepSize(t, now, lim, n - 1);
      SweepOneCounts(Sweep(t, now, lim, n - 1).0, now, lim, 0);
    }
  }

  lemma {:induction false} SweepPinned(t: Table, now: u64, lim: Timeouts, n: nat, id: i32)
    requires t.cursor < |t.buckets|
    ensures var (t', ev) := Sweep(t, now, lim, n);
            PinnedTo(t.buckets, id) == PinnedTo(t'.buckets, id) + multiset(ev)[id]
  {
    if n > 0 {
      SweepPinned(t, now, lim, n - 1, id);
      var (t1, e1) := Sweep(t, now, lim, n - 1);
      SweepOneCounts(t1, now, lim, id);
      var (t2, e2) := SweepOne(t1, now, lim);
      CountBoth(e1, e2, id);
      assert Sweep(t, now, lim, n) == (t2, e1 + e2);
    }
  }

  lemma CountBoth(a: seq<i32>, b: seq<i32>, id: i32)
    ensures multiset(a + b)[id] == multiset(a)[id] + multiset(b)[id]
  {
  }

  /** Each evicted record leaves the table and is reported once. */
  lemma SweepCounts(t: Table, now: u64, lim: Timeouts, n: nat, id: i32)
    requires t.cursor < |t.buckets|
    ensures var (t', ev) := Sweep(t, now, lim, n);
            && Size(t.buckets) == Size(t'.buckets) + |ev|
            && PinnedTo(t.buckets, id) == PinnedTo(t'.buckets, id) + multiset(ev)[id]
  {
    SweepSize(t, now, lim, n);
    SweepPinned(t, now, lim, n, id);
  }

  // ------------------------------------------------------------ which buckets a sweep visits

  /** Steps from the cursor to bucket b, going round. */
  function Distance(cursor: nat, b: nat, count: nat): (d: nat)
    requires cursor < count && b < count
    ensures d < count
  {
    if cursor <= b then b - cursor else b + count - cursor
  }

  lemma CursorAfter(cursor: nat, n: nat, count: nat)
    requires cursor < count
    ensures (cursor + n) % count < count
    ensures ((cursor + n) % count + 1) % count == (cursor + n + 1) % count
  {
    var x := (cursor + n) % count;
    SuccDivMod(cursor + n, count);
    if x + 1 < count {
      DivModUnique(x + 1, count, 0, x + 1);
    } else {
      DivModUnique(x + 1, count, 1, 0);
    }
  }

  lemma VisitDistance(cursor: nat, n: nat, b: nat, count: nat)
    requires cursor < count && b < count && n < count
    ensures (cursor + n) % count == b <==> Distance(cursor, b, count) == n
  {
    if cursor + n < count {
      DivModUnique(cursor + n, count, 0, cursor + n);
    } else {
      DivModUnique(cursor + n, count, 1, cursor + n - count);
    }
  }

  /** A sweep of n <= count buckets filters exactly the n buckets at and after
      the cursor, each once. */
  lemma {:induction false} SweepEffect(t: Table, now: u64, lim: Timeouts, n: nat)
    requires t.cursor < |t.buckets| && n <= |t.buckets|
    ensures var t' := Sweep(t, now, lim, n).0;
            && t'.cursor == (t.cursor + n) % |t.buckets|
            && forall b :: 0 <= b < |t.buckets| ==>
                 t'.buckets[b] ==
                 if Distance(t.cursor, b, |t.buckets|) < n then Keep(t.buckets[b], now, lim) else t.buckets[b]
  {
    if n == 0 {
      DivModUnique(t.cursor, |t.buckets|, 0, t.cursor);
    } else {
      SweepEffect(t, now, lim, n - 1);
      CursorAfter(t.cursor, n - 1, |t.buckets|);
      forall b | 0 <= b < |t.buckets|
        ensures (t.cursor + (n - 1)) % |t.buckets| == b <==> Distance(t.cursor, b, |t.buckets|) == n - 1
      {
        VisitDistance(t.cursor, n - 1, b, |t.buckets|);
      }
    }
  }
}
