/** The slab layout of the connection table: index links (-1 is NULL) thread each
    entry through one bucket chain or the free list. */
module ConntrackSlab {
  import opened Wrappers
  import opened MachineInts
  import opened Pigeonhole
  import opened RoutingSnapshot
  import opened ConntrackSpec

  const NIL: int := -1

  datatype Entry = Entry(key: FlowKey, backend: i32, lastSeen: u64, next: int)

  /** The memory (`slab`, `heads`, `freeHead`) together with the lists it threads:
      `chains[b]` and `free` list slab indices, `owner[e]` is the bucket of e or NIL. */
  datatype Layout = Layout(slab: seq<Entry>, heads: seq<int>, freeHead: int,
                           chains: seq<seq<nat>>, free: seq<nat>, owner: seq<int>)

  function At(list: seq<nat>, i: nat): (r: int) {
    if i < |list| then list[i] else NIL
  }

  /** `list` is threaded from `head`, without repetition, and owned by `tag`. */
  ghost predicate Threaded(slab: seq<Entry>, owner: seq<int>, head: int, list: seq<nat>, tag: int) {
    && |owner| == |slab| && Distinct(list) && head == At(list, 0)
    && forall i :: 0 <= i < |list| ==>
         list[i] < |slab| && slab[list[i]].next == At(list, i + 1) && owner[list[i]] == tag
  }

  ghost predicate InOwnersList(l: Layout, e: nat)
    requires e < |l.owner|
  {
    if l.owner[e] == NIL then e in l.free
    else 0 <= l.owner[e] < |l.chains| && e in l.chains[l.owner[e]]
  }

  ghost predicate ChainOk(l: Layout, b: nat)
    requires b < |l.chains| == |l.heads|
  {
    Threaded(l.slab, l.owner, l.heads[b], l.chains[b], b)
  }

  ghost predicate InRange(l: Layout) {
    forall b :: 0 <= b < |l.chains| ==> forall i :: 0 <= i < |l.chains[b]| ==> l.chains[b][i] < |l.slab|
  }

  /** Every entry is in exactly one chain or in the free list. */
  ghost predicate Ok(l: Layout) {
    && |l.chains| == |l.heads| && |l.owner| == |l.slab| && InRange(l)
    && (forall b: nat :: b < |l.chains| ==> ChainOk(l, b))
    && Threaded(l.slab, l.owner, l.freeHead, l.free, NIL)
    && (forall e: nat :: e < |l.slab| ==> InOwnersList(l, e))
  }

  /** A list is untouched when no entry on it changes its link or owner. */
  lemma ThreadedFrame(slab: seq<Entry>, owner: seq<int>, slab': seq<Entry>, owner': seq<int>,
                      head: int, list: seq<nat>, tag: int)
    requires Threaded(slab, owner, head, list, tag) && |slab'| == |owner'| == |slab|
    requires forall e :: e in list && e < |slab| ==> slab'[e].next == slab[e].next && owner'[e] == owner[e]
    ensures Threaded(slab', owner', head, list, tag)
  {
  }

  function RecOf(e: Entry): Rec {
    Rec(e.key, e.backend, e.lastSeen)
  }

  function Recs(slab: seq<Entry>, list: seq<nat>): (c: Chain)
    requires forall i :: 0 <= i < |list| ==> list[i] < |slab|
    ensures |c| == |list| && forall i :: 0 <= i < |list| ==> c[i] == RecOf(slab[list[i]])
  {
    seq(|list|, i requires 0 <= i < |list| => RecOf(slab[list[i]]))
  }

  function Buckets(l: Layout): (bs: seq<Chain>)
    requires InRange(l)
    ensures |bs| == |l.chains| && forall b :: 0 <= b < |bs| ==> bs[b] == Recs(l.slab, l.chains[b])
  {
    seq(|l.chains|, b requires 0 <= b < |l.chains| => Recs(l.slab, l.chains[b]))
  }

  // ------------------------------------------------------------ touch

  function Touch(l: Layout, e: nat, now: u64): (l': Layout)
    requires e < |l.slab|
  {
    l.(slab := l.slab[e := l.slab[e].(lastSeen := now)])
  }

  lemma TouchOk(l: Layout, b: nat, i: nat, now: u64)
    requires Ok(l) && b < |l.chains| && i < |l.chains[b]|
    ensures var l', chain := Touch(l, l.chains[b][i], now), Recs(l.slab, l.chains[b]);
            && Ok(l')
            && Buckets(l') == Buckets(l)[b := chain[i := chain[i].(lastSeen := now)]]
  {
    var e := l.chains[b][i];
    var l' := Touch(l, e, now);
    forall a: nat | a < |l.chains|
      ensures ChainOk(l', a)
    {
      assert ChainOk(l, a);
      ThreadedFrame(l.slab, l.owner, l'.slab, l'.owner, l.heads[a], l.chains[a], a);
    }
    ThreadedFrame(l.slab, l.owner, l'.slab, l'.owner, l.freeHead, l.free, NIL);
    forall x: nat | x < |l.slab|
      ensures InOwnersList(l', x)
    {
      assert InOwnersList(l, x);
    }
    var chain := Recs(l.slab, l.chains[b]);
    var want := Buckets(l)[b := chain[i := chain[i].(lastSeen := now)]];
    forall a | 0 <= a < |l.chains|
      ensures Buckets(l')[a] == want[a]
    {
      OtherChain(l, a, b, i);
    }
  }

  /** An entry of chain b is on chain a only if a is b, and then only once. */
  lemma OtherChain(l: Layout, a: nat, b: nat, i: nat)
    requires Ok(l) && a < |l.chains| && b < |l.chains| && i < |l.chains[b]|
    ensures forall j :: 0 <= j < |l.chains[a]| && l.chains[a][j] == l.chains[b][i] ==> a == b && i == j
  {
    assert ChainOk(l, a) && ChainOk(l, b);
  }

  // ------------------------------------------------------------ take from the free list

  /** Lines 86-97 of conntrack.c: pop an entry and push it on bucket b. */
  function Take(l: Layout, b: nat, key: FlowKey, backend: i32, now: u64): (l': Layout)
    requires l.free != [] && b < |l.chains| && b < |l.heads| && l.free[0] < |l.slab| && |l.owner| == |l.slab|
  {
    var e := l.free[0];
    Layout(l.slab[e := Entry(key, backend, now, l.heads[b])], l.heads[b := e], l.slab[e].next,
           l.chains[b := [e] + l.chains[b]], l.free[1..], l.owner[e := b])
  }

  lemma TakeOk(l: Layout, b: nat, key: FlowKey, backend: i32, now: u64)
    requires Ok(l) && l.free != [] && b < |l.chains|
    ensures var l' := Take(l, b, key, backend, now);
            && Ok(l')
            && Buckets(l') == Buckets(l)[b := [Rec(key, backend, now)] + Buckets(l)[b]]
  {
    var e := l.free[0];
    var l' := Take(l, b, key, backend, now);
    forall a: nat | a < |l.chains|
      ensures ChainOk(l', a)
      ensures e !in l.chains[a]
    {
      assert ChainOk(l, a);
      ThreadedFrame(l.slab, l.owner, l'.slab, l'.owner, l.heads[a], l.chains[a], a);
      if a == b {
        PushThreaded(l'.slab, l'.owner, l.heads[b], l.chains[b], b, e);
      }
    }
    PopThreaded(l.slab, l.owner, l.freeHead, l.free, NIL);
    ThreadedFrame(l.slab, l.owner, l'.slab, l'.owner, l'.freeHead, l'.free, NIL);
    forall x: nat | x < |l.slab|
      ensures InOwnersList(l', x)
    {
      assert InOwnersList(l, x);
      assert l.free == [e] + l.free[1..];
    }
    TakeBuckets(l, b, key, backend, now);
  }

  lemma TakeBuckets(l: Layout, b: nat, key: FlowKey, backend: i32, now: u64)
    requires Ok(l) && l.free != [] && b < |l.chains|
    requires forall a :: 0 <= a < |l.chains| ==> l.free[0] !in l.chains[a]
    ensures InRange(Take(l, b, key, backend, now))
    ensures Buckets(Take(l, b, key, backend, now)) == Buckets(l)[b := [Rec(key, backend, now)] + Buckets(l)[b]]
  {
    var l' := Take(l, b, key, backend, now);
    var want := Buckets(l)[b := [Rec(key, backend, now)] + Buckets(l)[b]];
    assert InRange(l');
    forall a | 0 <= a < |l.chains|
      ensures Buckets(l')[a] == want[a]
    {
      assert forall j :: 0 <= j < |l.chains[a]| ==> l.chains[a][j] in l.chains[a];
    }
  }

  lemma PushThreaded(slab: seq<Entry>, owner: seq<int>, head: int, list: seq<nat>, tag: int, e: nat)
    requires Threaded(slab, owner, head, list, tag) && e < |slab| && e !in list
    requires slab[e].next == head && owner[e] == tag
    ensures Threaded(slab, owner, e, [e] + list, tag)
  {
    assert forall i :: 0 <= i < |list| ==> list[i] in list;
  }

  lemma PopThreaded(slab: seq<Entry>, owner: seq<int>, head: int, list: seq<nat>, tag: int)
    requires Threaded(slab, owner, head, list, tag) && list != []
    ensures Threaded(slab, owner, slab[list[0]].next, list[1..], tag) && list[0] !in list[1..]
  {
  }

  // ------------------------------------------------------------ return to the free list

  /** Lines 119-122: unlink position i of chain b and push it on the free list. */
  function Unlink(l: Layout, b: nat, i: nat): (l': Layout)
    requires b < |l.chains| && b < |l.heads| && i < |l.chains[b]|
    requires |l.owner| == |l.slab| && forall j :: 0 <= j < |l.chains[b]| ==> l.chains[b][j] < |l.slab|
  {
    var chain := l.chains[b];
    var e := chain[i];
    var after := l.slab[e].next;
    var slab := if i == 0 then l.slab else l.slab[chain[i - 1] := l.slab[chain[i - 1]].(next := after)];
    Layout(slab[e := slab[e].(next := l.freeHead)], if i == 0 then l.heads[b := after] else l.heads, e,
           l.chains[b := chain[..i] + chain[i + 1..]], [e] + l.free, l.owner[e := NIL])
  }

  lemma UnlinkOk(l: Layout, b: nat, i: nat)
    requires Ok(l) && b < |l.chains| && i < |l.chains[b]|
    ensures var l', chain := Unlink(l, b, i), Buckets(l)[b];
            && Ok(l')
            && Buckets(l') == Buckets(l)[b := chain[..i] + chain[i + 1..]]
  {
    UnlinkOthers(l, b, i);
    UnlinkSelf(l, b, i);
    UnlinkFree(l, b, i);
    UnlinkOwners(l, b, i);
    UnlinkBuckets(l, b, i);
  }

  lemma UnlinkFree(l: Layout, b: nat, i: nat)
    requires Ok(l) && b < |l.chains| && i < |l.chains[b]|
    ensures var l' := Unlink(l, b, i); Threaded(l'.slab, l'.owner, l'.freeHead, l'.free, NIL)
  {
    var chain, l' := l.chains[b], Unlink(l, b, i);
    UnlinkKeepsFree(l, b, i);
    ChainedNotFree(l, b, i);
    PushThreaded(l'.slab, l'.owner, l.freeHead, l.free, NIL, chain[i]);
  }

  /** The entries on the free list are not touched. */
  lemma UnlinkKeepsFree(l: Layout, b: nat, i: nat)
    requires Ok(l) && b < |l.chains| && i < |l.chains[b]|
    ensures var l' := Unlink(l, b, i); Threaded(l'.slab, l'.owner, l.freeHead, l.free, NIL)
  {
    var l' := Unlink(l, b, i);
    ChainedNotFree(l, b, i);
    if i > 0 {
      ChainedNotFree(l, b, i - 1);
    }
    UnlinkTouches(l, b, i, l.free);
    ThreadedFrame(l.slab, l.owner, l'.slab, l'.owner, l.freeHead, l.free, NIL);
  }

  /** Unlinking writes the entry and its predecessor, and no other. */
  lemma UnlinkTouches(l: Layout, b: nat, i: nat, list: seq<nat>)
    requires b < |l.chains| && b < |l.heads| && i < |l.chains[b]|
    requires |l.owner| == |l.slab| && forall j :: 0 <= j < |l.chains[b]| ==> l.chains[b][j] < |l.slab|
    requires l.chains[b][i] !in list && (i > 0 ==> l.chains[b][i - 1] !in list)
    ensures var l' := Unlink(l, b, i);
            && |l'.slab| == |l'.owner| == |l.slab|
            && forall e :: e in list && e < |l.slab| ==> l'.slab[e] == l.slab[e] && l'.owner[e] == l.owner[e]
  {
  }

  lemma ChainedNotFree(l: Layout, b: nat, i: nat)
    requires Ok(l) && b < |l.chains| && i < |l.chains[b]|
    ensures l.chains[b][i] !in l.free
  {
    assert ChainOk(l, b);
    assert forall j :: 0 <= j < |l.free| ==> l.owner[l.free[j]] == NIL;
  }

  lemma SpliceMember(list: seq<nat>, i: nat, x: nat)
    requires i < |list|
    ensures x in list && x != list[i] ==> x in list[..i] + list[i + 1..]
  {
    assert list == list[..i] + [list[i]] + list[i + 1..];
  }

  lemma UnlinkOwners(l: Layout, b: nat, i: nat)
    requires Ok(l) && b < |l.chains| && i < |l.chains[b]|
    ensures var l' := Unlink(l, b, i); forall x: nat :: x < |l'.slab| ==> InOwnersList(l', x)
  {
    var chain, l' := l.chains[b], Unlink(l, b, i);
    forall x: nat | x < |l.slab|
      ensures InOwnersList(l', x)
    {
      assert InOwnersList(l, x);
      SpliceMember(chain, i, x);
    }
  }

  lemma UnlinkOthers(l: Layout, b: nat, i: nat)
    requires Ok(l) && b < |l.chains| && i < |l.chains[b]|
    ensures var l' := Unlink(l, b, i);
            forall a: nat :: a < |l.chains| && a != b ==> ChainOk(l', a)
  {
    var l' := Unlink(l, b, i);
    forall a: nat | a < |l.chains| && a != b
      ensures ChainOk(l', a)
    {
      UnlinkOther(l, b, i, a);
    }
  }

  lemma UnlinkOther(l: Layout, b: nat, i: nat, a: nat)
    requires Ok(l) && b < |l.chains| && i < |l.chains[b]| && a < |l.chains| && a != b
    ensures ChainOk(Unlink(l, b, i), a)
  {
    var l' := Unlink(l, b, i);
    assert ChainOk(l, a);
    OtherChain(l, a, b, i);
    if i > 0 {
      OtherChain(l, a, b, i - 1);
    }
    UnlinkTouches(l, b, i, l.chains[a]);
    ThreadedFrame(l.slab, l.owner, l'.slab, l'.owner, l.heads[a], l.chains[a], a);
  }

  /** Bypassing position i of a threaded list. */
  lemma SpliceThreaded(slab: seq<Entry>, owner: seq<int>, slab': seq<Entry>, owner': seq<int>, head': int,
                       list: seq<nat>, tag: int, i: nat)
    requires Threaded(slab, owner, At(list, 0), list, tag) && i < |list| && |slab'| == |owner'| == |slab|
    requires head' == if i == 0 then At(list, 1) else At(list, 0)
    requires forall k :: 0 <= k < |list| && k != i ==>
               owner'[list[k]] == tag && slab'[list[k]].next == At(list, if k + 1 == i then i + 1 else k + 1)
    ensures Threaded(slab', owner', head', list[..i] + list[i + 1..], tag)
  {
    var list' := list[..i] + list[i + 1..];
    DistinctSplice(list, i);
    SpliceAt(list, i, 0);
    forall j: nat | j < |list'|
      ensures list'[j] < |slab'| && slab'[list'[j]].next == At(list', j + 1) && owner'[list'[j]] == tag
    {
      SpliceAt(list, i, j);
      SpliceAt(list, i, j + 1);
    }
  }

  lemma DistinctSplice(list: seq<nat>, i: nat)
    requires Distinct(list) && i < |list|
    ensures Distinct(list[..i] + list[i + 1..])
  {
  }

  lemma SpliceAt(list: seq<nat>, i: nat, j: nat)
    requires i < |list|
    ensures At(list[..i] + list[i + 1..], j) == At(list, if j < i then j else j + 1)
  {
  }

  lemma UnlinkSelf(l: Layout, b: nat, i: nat)
    requires Ok(l) && b < |l.chains| && i < |l.chains[b]|
    ensures ChainOk(Unlink(l, b, i), b)
  {
    var chain, l' := l.chains[b], Unlink(l, b, i);
    assert ChainOk(l, b);
    SpliceThreaded(l.slab, l.owner, l'.slab, l'.owner, l'.heads[b], chain, b, i);
  }

  lemma RecsFrame(slab: seq<Entry>, slab': seq<Entry>, list: seq<nat>)
    requires |slab'| == |slab| && forall e :: 0 <= e < |slab| ==> RecOf(slab'[e]) == RecOf(slab[e])
    requires forall i :: 0 <= i < |list| ==> list[i] < |slab|
    ensures Recs(slab', list) == Recs(slab, list)
  {
  }

  lemma RecsSplice(slab: seq<Entry>, list: seq<nat>, i: nat)
    requires i < |list| && forall j :: 0 <= j < |list| ==> list[j] < |slab|
    ensures var c := Recs(slab, list); Recs(slab, list[..i] + list[i + 1..]) == c[..i] + c[i + 1..]
  {
  }

  lemma UnlinkBuckets(l: Layout, b: nat, i: nat)
    requires InRange(l) && |l.owner| == |l.slab| && |l.heads| == |l.chains| && b < |l.chains| && i < |l.chains[b]|
    ensures InRange(Unlink(l, b, i))
    ensures var chain := Buckets(l)[b];
            Buckets(Unlink(l, b, i)) == Buckets(l)[b := chain[..i] + chain[i + 1..]]
  {
    var l', chain := Unlink(l, b, i), Buckets(l)[b];
    var want := Buckets(l)[b := chain[..i] + chain[i + 1..]];
    RecsSplice(l.slab, l.chains[b], i);
    forall a | 0 <= a < |l.chains|
      ensures forall j :: 0 <= j < |l'.chains[a]| ==> l'.chains[a][j] < |l'.slab|
      ensures Recs(l'.slab, l'.chains[a]) == want[a]
    {
      RecsFrame(l.slab, l'.slab, l'.chains[a]);
    }
  }

  // ------------------------------------------------------------ refinement of the bucket lists

  /** A layout that counts its entries correctly. */
  ghost predicate Good(l: Layout, active: nat) {
    Ok(l) && active == Size(Buckets(l)) && active + |l.free| == |l.slab|
  }

  /** The abstract contents of a good layout. */
  ghost function Contents(l: Layout, cursor: nat, active: nat): (t: Option<Table>) {
    if Good(l, active) then Some(Table(Buckets(l), cursor, |l.slab|)) else None
  }

  /** The table with one chain replaced. */
  function WithChain(t: Table, b: nat, chain: Chain): Table
    requires b < |t.buckets|
  {
    Table(t.buckets[b := chain], t.cursor, t.capacity)
  }

  lemma WithChainTwice(t: Table, b: nat, first: Chain, second: Chain)
    requires b < |t.buckets|
    ensures WithChain(WithChain(t, b, first), b, second) == WithChain(t, b, second)
  {
    assert t.buckets[b := first][b := second] == t.buckets[b := second];
  }

  lemma ContentsShape(l: Layout, cursor: nat, active: nat, t: Table)
    requires Contents(l, cursor, active) == Some(t)
    ensures |t.buckets| == |l.chains| == |l.heads| && |l.owner| == |l.slab| == t.capacity && t.cursor == cursor
  {
  }

  lemma CursorMoves(l: Layout, cursor: nat, active: nat, t: Table, cursor': nat)
    requires Contents(l, cursor, active) == Some(t)
    ensures Contents(l, cursor', active) == Some(t.(cursor := cursor'))
  {
  }

  /** What a walk along chain b finds at position i. */
  lemma ChainRec(l: Layout, cursor: nat, active: nat, t: Table, b: nat, i: nat)
    requires Contents(l, cursor, active) == Some(t) && b < |l.chains| && i < |l.chains[b]|
    ensures |t.buckets[b]| == |l.chains[b]| && l.chains[b][i] < |l.slab|
    ensures t.buckets[b][i] == RecOf(l.slab[l.chains[b][i]])
    ensures l.slab[l.chains[b][i]].next == At(l.chains[b], i + 1)
  {
    assert ChainOk(l, b);
  }

  lemma ChainStart(l: Layout, cursor: nat, active: nat, t: Table, b: nat)
    requires Contents(l, cursor, active) == Some(t) && b < |l.chains|
    ensures b < |l.heads| && l.heads[b] == At(l.chains[b], 0) && |t.buckets[b]| == |l.chains[b]|
    ensures forall j :: 0 <= j < |l.chains[b]| ==> l.chains[b][j] < |l.slab|
  {
    assert ChainOk(l, b);
  }

  lemma FullWhenNoFree(l: Layout, cursor: nat, active: nat, t: Table)
    requires Contents(l, cursor, active) == Some(t)
    ensures l.freeHead == NIL ==> Size(t.buckets) == t.capacity
    ensures l.freeHead != NIL ==> l.free != [] && l.freeHead == l.free[0] < |l.slab| && Size(t.buckets) < t.capacity
  {
  }

  lemma TakeRefines(l: Layout, cursor: nat, active: nat, t: Table, b: nat, key: FlowKey, backend: i32, now: u64)
    requires Contents(l, cursor, active) == Some(t) && l.free != [] && b < |l.chains|
    ensures Contents(Take(l, b, key, backend, now), cursor, active + 1)
            == Some(WithChain(t, b, [Rec(key, backend, now)] + t.buckets[b]))
  {
    TakeOk(l, b, key, backend, now);
    TotalUpdate(t.buckets, Length, b, [Rec(key, backend, now)] + t.buckets[b]);
  }

  lemma TouchRefines(l: Layout, cursor: nat, active: nat, t: Table, b: nat, i: nat, now: u64)
    requires Contents(l, cursor, active) == Some(t) && b < |l.chains| && i < |l.chains[b]|
    ensures var chain := t.buckets[b];
            && i < |chain| && l.chains[b][i] < |l.slab| && chain[i] == RecOf(l.slab[l.chains[b][i]])
            && Contents(Touch(l, l.chains[b][i], now), cursor, active)
               == Some(WithChain(t, b, chain[i := chain[i].(lastSeen := now)]))
  {
    var chain := t.buckets[b];
    TouchOk(l, b, i, now);
    TotalUpdate(t.buckets, Length, b, chain[i := chain[i].(lastSeen := now)]);
  }

  lemma UnlinkRefines(l: Layout, cursor: nat, active: nat, t: Table, b: nat, i: nat)
    requires Contents(l, cursor, active) == Some(t) && b < |l.chains| && i < |l.chains[b]|
    ensures var chain := t.buckets[b];
            && active > 0 && |chain| == |l.chains[b]|
            && Contents(Unlink(l, b, i), cursor, active - 1) == Some(WithChain(t, b, chain[..i] + chain[i + 1..]))
  {
    var chain := t.buckets[b];
    UnlinkOk(l, b, i);
    TotalUpdate(t.buckets, Length, b, chain[..i] + chain[i + 1..]);
  }
}
