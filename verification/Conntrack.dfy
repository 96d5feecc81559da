/** `struct conntrack_table` (src/conntrack/conntrack.c), updated in place and
    proved equal to the bucket-list account in ConntrackSpec. */
module Conntrack {
  import opened Wrappers
  import opened MachineInts
  import opened BitMask
  import opened RoutingSnapshot
  import Spec = ConntrackSpec
  import opened ConntrackSlab

  function Iota(n: nat): (s: seq<nat>)
    ensures |s| == n && forall i :: 0 <= i < n ==> s[i] == i
  {
    seq(n, i requires 0 <= i => i)
  }

  function InitialLayout(n: nat, count: nat): (l: Layout) {
    Layout(seq(n, i => Entry(FlowKey(0, 0, 0, 0, 0), 0, 0, if i + 1 < n then i + 1 else NIL)),
           seq(count, _ => NIL), if n > 0 then 0 else NIL, seq(count, _ => []), Iota(n), seq(n, _ => NIL))
  }

  lemma InitialLayoutOk(n: nat, count: nat)
    ensures var l := InitialLayout(n, count);
            Ok(l) && Buckets(l) == seq(count, _ => []) && Spec.Size(Buckets(l)) == 0
  {
    var l := InitialLayout(n, count);
    assert forall b: nat :: b < count ==> ChainOk(l, b);
    assert Threaded(l.slab, l.owner, l.freeHead, l.free, NIL);
    forall e: nat | e < n
      ensures InOwnersList(l, e)
    {
      assert l.free[e] == e;
    }
    var none: seq<Spec.Chain> := seq(count, _ => []);
    assert Buckets(l) == none;
    Spec.TotalEmpty(count, Spec.Length);
  }

  lemma InitialContents(n: nat, count: nat)
    ensures Contents(InitialLayout(n, count), 0, 0) == Some(Spec.Table(seq(count, _ => []), 0, n))
  {
    InitialLayoutOk(n, count);
  }

  method NewBuckets(count: nat) returns (a: array<int>)
    ensures fresh(a) && a[..] == seq(count, _ => NIL)
  {
    a := new int[count];
    for i := 0 to count
      invariant forall k :: 0 <= k < i ==> a[k] == NIL
    {
      a[i] := NIL;
    }
  }

  /** The slab with every entry linked to the next, ready as free list. */
  method NewSlab(n: nat) returns (a: array<Entry>)
    ensures fresh(a) && a[..] == InitialLayout(n, 0).slab
  {
    a := new Entry[n](_ => Entry(FlowKey(0, 0, 0, 0, 0), 0, 0, NIL));
    for i := 0 to n
      invariant forall k :: 0 <= k < n ==>
                  a[k] == Entry(FlowKey(0, 0, 0, 0, 0), 0, 0, if k < i && k + 1 < n then k + 1 else NIL)
    {
      a[i] := a[i].(next := if i + 1 < n then i + 1 else NIL);
    }
  }

  /** A walk along a chain: what is left of it, how many of its first records were
      kept, and the backends of those evicted. */
  datatype Walk = Walk(chain: Spec.Chain, kept: nat, evicted: seq<i32>)

  function Advance(w: Walk, now: u64, lim: Spec.Timeouts): Walk
    requires w.kept < |w.chain|
  {
    if Spec.Expired(w.chain[w.kept], now, lim)
    then Walk(w.chain[..w.kept] + w.chain[w.kept + 1..], w.kept, w.evicted + [w.chain[w.kept].backend])
    else w.(kept := w.kept + 1)
  }

  function Finish(w: Walk, now: u64, lim: Spec.Timeouts): Walk
    decreases |w.chain| - w.kept
  {
    if w.kept >= |w.chain| then w else Finish(Advance(w, now, lim), now, lim)
  }

  lemma {:induction false} FinishKeeps(w: Walk, now: u64, lim: Spec.Timeouts)
    requires w.kept <= |w.chain|
    ensures Finish(w, now, lim).chain == w.chain[..w.kept] + Spec.Keep(w.chain[w.kept..], now, lim)
    decreases |w.chain| - w.kept
  {
    var rest := w.chain[w.kept..];
    if rest == [] {
      assert w.chain[..w.kept] == w.chain;
    } else {
      var w' := Advance(w, now, lim);
      FinishKeeps(w', now, lim);
      AdvanceRest(w, now, lim);
      var first, last := w.chain[..w.kept], Spec.Keep(rest[1..], now, lim);
      if Spec.Expired(rest[0], now, lim) {
        assert w'.chain[..w.kept] == first;
      } else {
        assert w.chain[..w.kept + 1] == first + [rest[0]];
        assert first + [rest[0]] + last == first + ([rest[0]] + last);
      }
    }
  }

  lemma {:induction false} FinishEvicts(w: Walk, now: u64, lim: Spec.Timeouts)
    requires w.kept <= |w.chain|
    ensures Finish(w, now, lim).evicted == w.evicted + Spec.Evicted(w.chain[w.kept..], now, lim)
    decreases |w.chain| - w.kept
  {
    var rest := w.chain[w.kept..];
    if rest != [] {
      FinishEvicts(Advance(w, now, lim), now, lim);
      AdvanceRest(w, now, lim);
      var x, last := rest[0].backend, Spec.Evicted(rest[1..], now, lim);
      assert w.evicted + [x] + last == w.evicted + ([x] + last);
    }
  }

  lemma AdvanceRest(w: Walk, now: u64, lim: Spec.Timeouts)
    requires w.kept < |w.chain|
    ensures var w', rest := Advance(w, now, lim), w.chain[w.kept..];
            w'.kept <= |w'.chain| && w'.chain[w'.kept..] == rest[1..] && rest[0] == w.chain[w.kept]
  {
  }

  /** A whole walk keeps the unexpired records, in order, and evicts the others. */
  lemma WholeWalk(chain: Spec.Chain, now: u64, lim: Spec.Timeouts)
    ensures Finish(Walk(chain, 0, []), now, lim).chain == Spec.Keep(chain, now, lim)
    ensures Finish(Walk(chain, 0, []), now, lim).evicted == Spec.Evicted(chain, now, lim)
  {
    FinishKeeps(Walk(chain, 0, []), now, lim);
    FinishEvicts(Walk(chain, 0, []), now, lim);
    assert chain[0..] == chain;
  }

  /** The entry that links to position k of a chain, or NIL at its head. */
  function Before(chain: seq<nat>, k: nat): int
    requires k <= |chain|
  {
    if k == 0 then NIL else chain[k - 1]
  }

  class ConntrackTable {
    const hash: FlowHash
    const buckets: array<int>
    const slab: array<Entry>
    var freeList: int
    var sweepCursor: nat
    var active: nat
    ghost var layout: Layout      // the memory and the lists it threads
    ghost var table: Spec.Table   // the abstract contents

    /** The ghost layout is the memory. */
    ghost predicate Mirrors()
      reads this, buckets, slab
    {
      layout.slab == slab[..] && layout.heads == buckets[..] && layout.freeHead == freeList
    }

    /** The abstract contents, when the memory is well formed. */
    ghost function View(): (t: Option<Spec.Table>)
      reads this, buckets, slab
    {
      if Mirrors() && IsPow2(buckets.Length) && sweepCursor < buckets.Length
      then Contents(layout, sweepCursor, active) else None
    }

    ghost predicate Valid()
      reads this, buckets, slab
    {
      View() == Some(table)
    }

    constructor (maxFlows: u64, hash: FlowHash)
      requires maxFlows < 0x6000_0000_0000_0000
      ensures Valid() && fresh(buckets) && fresh(slab) && this.hash == hash
      ensures table == Spec.Table(seq(buckets.Length, _ => []), 0, maxFlows)
    {
      var count := NextPow2(4 * maxFlows / 3 + 1);
      var bs := NewBuckets(count);
      var es := NewSlab(maxFlows);
      this.hash := hash;
      buckets := bs;
      slab := es;
      freeList := if maxFlows > 0 then 0 else NIL;
      sweepCursor := 0;
      active := 0;
      layout := InitialLayout(maxFlows, count);
      table := Spec.Table(seq(count, _ => []), 0, maxFlows);
      InitialContents(maxFlows, count);
    }

    method BucketIndex(key: FlowKey) returns (b: nat)
      requires IsPow2(buckets.Length)
      ensures b == Spec.BucketOf(hash, key, buckets.Length) < buckets.Length
    {
      b := BitAnd(hash(key), buckets.Length - 1);
    }

    /** The first link of a bucket. */
    method First(b: nat) returns (e: int)
      requires Valid() && b < buckets.Length
      ensures b < |layout.chains| == |table.buckets| && e == At(layout.chains[b], 0)
      ensures |table.buckets[b]| == |layout.chains[b]|
    {
      ContentsShape(layout, sweepCursor, active, table);
      ChainStart(layout, sweepCursor, active, table, b);
      e := buckets[b];
    }

    /** The entry a walk of bucket b has reached. */
    method Read(b: nat, e: nat, ghost pos: nat) returns (entry: Entry)
      requires Valid() && b < |layout.chains| && pos < |layout.chains[b]| && e == layout.chains[b][pos]
      ensures b < |table.buckets| && |table.buckets[b]| == |layout.chains[b]|
      ensures RecOf(entry) == table.buckets[b][pos] && entry.next == At(layout.chains[b], pos + 1)
    {
      ContentsShape(layout, sweepCursor, active, table);
      ChainRec(layout, sweepCursor, active, table, b, pos);
      entry := slab[e];
    }

    /** Walks one chain for a key; NIL when it is absent. */
    method FindEntry(b: nat, key: FlowKey) returns (e: int)
      requires Valid() && b < buckets.Length
      ensures b < |layout.chains| == |table.buckets|
      ensures e == At(layout.chains[b], Spec.KeyIndex(table.buckets[b], key))
    {
      e := First(b);
      ghost var chain, pos := layout.chains[b], 0;
      while e != NIL
        invariant pos <= |chain| && e == At(chain, pos)
        invariant forall j :: 0 <= j < pos ==> table.buckets[b][j].key != key
        decreases |chain| - pos
      {
        var entry := Read(b, e, pos);
        if entry.key == key {
          break;
        }
        e := entry.next;
        pos := pos + 1;
      }
    }

    /** `conntrack_lookup` */
    method Lookup(key: FlowKey, now: u64) returns (backend: Option<i32>)
      requires Valid()
      modifies this`layout, this`table, slab
      ensures Valid()
      ensures (table, backend) == Spec.Lookup(old(table), hash, key, now)
    {
      var b := BucketIndex(key);
      var e := FindEntry(b, key);
      ghost var pos := Spec.KeyIndex(table.buckets[b], key);
      if e == NIL {
        return None;
      }
      TouchRefines(layout, sweepCursor, active, table, b, pos, now);
      backend := Refresh(e, now);
      table := Spec.Lookup(table, hash, key, now).0;
    }

    method Refresh(e: nat, now: u64) returns (backend: Option<i32>)
      requires Mirrors() && e < slab.Length
      modifies this`layout, slab
      ensures Mirrors() && layout == Touch(old(layout), e, now) && backend == Some(old(layout).slab[e].backend)
    {
      backend := Some(slab[e].backend);
      slab[e] := slab[e].(lastSeen := now);
      layout := Touch(layout, e, now);
    }

    /** `conntrack_insert` */
    method Insert(key: FlowKey, backend: i32, now: u64) returns (ok: bool)
      requires Valid()
      modifies this, buckets, slab
      ensures Valid()
      ensures (table, ok) == Spec.Insert(old(table), hash, key, backend, now)
    {
      FullWhenNoFree(layout, sweepCursor, active, table);
      if freeList == NIL {
        return false;
      }
      var e: nat := freeList;
      var b := BucketIndex(key);
      ContentsShape(layout, sweepCursor, active, table);
      TakeRefines(layout, sweepCursor, active, table, b, key, backend, now);
      Push(e, b, key, backend, now);
      table := Spec.Insert(table, hash, key, backend, now).0;
      return true;
    }

    /** The pointer updates of an insert. */
    method Push(e: nat, b: nat, key: FlowKey, backend: i32, now: u64)
      requires Mirrors() && e < slab.Length && b < buckets.Length
      requires layout.free != [] && layout.free[0] == e && b < |layout.chains| && |layout.owner| == slab.Length
      modifies this`freeList, this`active, this`layout, buckets, slab
      ensures Mirrors() && layout == Take(old(layout), b, key, backend, now) && active == old(active) + 1
    {
      layout := Take(layout, b, key, backend, now);
      freeList := slab[e].next;
      slab[e] := Entry(key, backend, now, buckets[b]);
      buckets[b] := e;
      active := active + 1;
    }

    /** The pointer updates of an eviction. */
    method Relink(b: nat, prev: int, e: nat, ghost pos: nat)
      requires Mirrors() && b < buckets.Length && b < |layout.chains| && |layout.owner| == slab.Length && active > 0
      requires forall j :: 0 <= j < |layout.chains[b]| ==> layout.chains[b][j] < slab.Length
      requires pos < |layout.chains[b]| && e == layout.chains[b][pos]
      requires prev == Before(layout.chains[b], pos)
      modifies this`freeList, this`active, this`layout, buckets, slab
      ensures Mirrors() && layout == Unlink(old(layout), b, pos) && active == old(active) - 1
    {
      layout := Unlink(layout, b, pos);
      if prev == NIL {
        buckets[b] := slab[e].next;
      } else {
        slab[prev] := slab[prev].(next := slab[e].next);
      }
      slab[e] := slab[e].(next := freeList);
      freeList := e;
      active := active - 1;
    }

    /** Takes entry e, at position pos of chain b, off its chain and frees it. */
    method Evict(b: nat, prev: int, e: nat, ghost pos: nat)
      requires Valid() && b < buckets.Length && b < |layout.chains|
      requires pos < |layout.chains[b]| && e == layout.chains[b][pos]
      requires prev == Before(layout.chains[b], pos)
      modifies this, buckets, slab
      ensures Valid() && sweepCursor == old(sweepCursor)
      ensures layout == Unlink(old(layout), b, pos)
      ensures table == WithChain(old(table), b, old(table.buckets[b][..pos] + table.buckets[b][pos + 1..]))
    {
      ChainStart(layout, sweepCursor, active, table, b);
      ContentsShape(layout, sweepCursor, active, table);
      UnlinkRefines(layout, sweepCursor, active, table, b, pos);
      table := WithChain(table, b, table.buckets[b][..pos] + table.buckets[b][pos + 1..]);
      Relink(b, prev, e, pos);
    }

    /** Evict, seen by the loop that walks chain b of `start`, now reduced to `chain`. */
    method EvictFrom(b: nat, prev: int, e: nat, ghost pos: nat, ghost start: Spec.Table, ghost chain: Spec.Chain)
      requires Valid() && b < buckets.Length && b < |layout.chains|
      requires pos < |layout.chains[b]| && e == layout.chains[b][pos]
      requires prev == Before(layout.chains[b], pos)
      requires b < |start.buckets| && table == WithChain(start, b, chain) && |chain| == |layout.chains[b]|
      modifies this, buckets, slab
      ensures Valid() && sweepCursor == old(sweepCursor)
      ensures b < |layout.chains| && |layout.chains[b]| == |chain| - 1
      ensures At(layout.chains[b], pos) == At(old(layout.chains[b]), pos + 1) && Before(layout.chains[b], pos) == prev
      ensures table == WithChain(start, b, chain[..pos] + chain[pos + 1..])
    {
      Evict(b, prev, e, pos);
      WithChainTwice(start, b, chain, chain[..pos] + chain[pos + 1..]);
    }

    /** Looks at one entry of the walk along chain b, and evicts it if it has expired. */
    method Visit(b: nat, prev: int, e: nat, ghost start: Spec.Table, ghost w: Walk, now: u64, lim: Spec.Timeouts)
      returns (gone: bool, backend: i32, next: int)
      requires Valid() && b < buckets.Length && b < |layout.chains| && b < |start.buckets|
      requires w.kept < |w.chain| == |layout.chains[b]| && e == layout.chains[b][w.kept]
      requires prev == Before(layout.chains[b], w.kept) && table == WithChain(start, b, w.chain)
      modifies this, buckets, slab
      ensures Valid() && sweepCursor == old(sweepCursor) && b < |layout.chains|
      ensures gone == Spec.Expired(w.chain[w.kept], now, lim) && backend == w.chain[w.kept].backend
      ensures var w' := Advance(w, now, lim);
              && w'.kept <= |w'.chain| == |layout.chains[b]| && table == WithChain(start, b, w'.chain)
              && next == At(layout.chains[b], w'.kept)
              && Before(layout.chains[b], w'.kept) == if gone then prev else e
    {
      var entry := Read(b, e, w.kept);
      backend, next := entry.backend, entry.next;
      gone := Spec.Expired(RecOf(entry), now, lim);
      if gone {
        EvictFrom(b, prev, e, w.kept, start, w.chain);
      }
    }

    /** The inner loop of `conntrack_reap_slice`. */
    method WalkChain(b: nat, now: u64, lim: Spec.Timeouts, ghost start: Spec.Table, ghost end: Walk)
      returns (evicted: seq<i32>)
      requires Valid() && b < buckets.Length && start == table && b < |table.buckets|
      requires end == Finish(Walk(table.buckets[b], 0, []), now, lim)
      modifies this, buckets, slab
      ensures Valid() && sweepCursor == old(sweepCursor)
      ensures table == WithChain(start, b, end.chain) && evicted == end.evicted
    {
      var prev := NIL;
      var e := First(b);
      ghost var w := Walk(table.buckets[b], 0, []);
      evicted := [];
      while e != NIL
        invariant Valid() && sweepCursor == old(sweepCursor) && b < |layout.chains|
        invariant w.kept <= |w.chain| == |layout.chains[b]| && e == At(layout.chains[b], w.kept)
        invariant prev == Before(layout.chains[b], w.kept)
        invariant table == WithChain(start, b, w.chain) && evicted == w.evicted
        invariant Finish(w, now, lim) == end
        decreases |w.chain| - w.kept
      {
        var gone, backend, next := Visit(b, prev, e, start, w, now, lim);
        if gone {
          evicted := evicted + [backend];
        } else {
          prev := e;
        }
        e := next;
        w := Advance(w, now, lim);
      }
    }

    /** One bucket of `conntrack_reap_slice`. The eviction callback's arguments are
        returned in call order. */
    method ReapBucket(b: nat, now: u64, lim: Spec.Timeouts) returns (evicted: seq<i32>)
      requires Valid() && b < buckets.Length
      modifies this, buckets, slab
      ensures Valid() && sweepCursor == old(sweepCursor)
      ensures table == WithChain(old(table), b, Spec.Keep(old(table.buckets[b]), now, lim))
      ensures evicted == Spec.Evicted(old(table.buckets[b]), now, lim)
    {
      ContentsShape(layout, sweepCursor, active, table);
      WholeWalk(table.buckets[b], now, lim);
      evicted := WalkChain(b, now, lim, table, Finish(Walk(table.buckets[b], 0, []), now, lim));
    }

    /** One iteration of the outer loop: the bucket at the cursor. */
    method SweepBucket(now: u64, lim: Spec.Timeouts) returns (evicted: seq<i32>)
      requires Valid()
      modifies this, buckets, slab
      ensures Valid()
      ensures table == Spec.SweepOne(old(table), now, lim).0
      ensures evicted == Spec.SweepOne(old(table), now, lim).1
    {
      ContentsShape(layout, sweepCursor, active, table);
      var b := sweepCursor;
      sweepCursor := (sweepCursor + 1) % buckets.Length;
      CursorMoves(layout, b, active, table, sweepCursor);
      table := table.(cursor := sweepCursor);
      evicted := ReapBucket(b, now, lim);
    }

    /** `conntrack_reap_slice` */
    method ReapSlice(now: u64, lim: Spec.Timeouts, maxBuckets: nat) returns (evicted: seq<i32>)
      requires Valid()
      modifies this, buckets, slab
      ensures Valid()
      ensures (table, evicted) == Spec.Reap(old(table), now, lim, maxBuckets)
    {
      ContentsShape(layout, sweepCursor, active, table);
      var scan := if maxBuckets > buckets.Length then buckets.Length else maxBuckets;
      evicted := [];
      for n := 0 to scan
        invariant Valid()
        invariant (table, evicted) == Spec.Sweep(old(table), now, lim, n)
      {
        var ev := SweepBucket(now, lim);
        evicted := evicted + ev;
      }
    }
  }
}
