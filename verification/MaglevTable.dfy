/** `maglev_table_generate` and `maglev_table_lookup` (src/maglev/maglev_table.c). */
module MaglevTable {
  import opened MachineInts
  import opened Primes
  import opened Pigeonhole
  import opened MaglevSpec

  type Mac = s: seq<u8> | |s| == 6 witness [0, 0, 0, 0, 0, 0]

  datatype BackendView = BackendView(id: u32, addr: u32, port: u16, mac: Mac)

  /** A hash of a backend's identity string "a.b.c.d:port", which its address
      and port determine. */
  type NameHash = (u32, u16) -> u64

  ghost predicate DistinctBackendIds(bs: seq<BackendView>) {
    forall i, j :: 0 <= i < j < |bs| ==> bs[i].id != bs[j].id
  }

  ghost predicate SignedIds(bs: seq<BackendView>) {
    forall b :: b in bs ==> b.id < 0x8000_0000
  }

  ghost predicate SortedById(bs: seq<BackendView>) {
    forall i, j :: 0 <= i < j < |bs| ==> bs[i].id <= bs[j].id
  }

  // ------------------------------------------------------------ canonical order

  function InsertPosition(bs: seq<BackendView>, id: u32): (k: nat)
    requires SortedById(bs)
    ensures k <= |bs|
    ensures forall i :: 0 <= i < k ==> bs[i].id < id
    ensures forall i :: k <= i < |bs| ==> id <= bs[i].id
  {
    if bs == [] || bs[|bs| - 1].id < id then |bs| else InsertPosition(bs[..|bs| - 1], id)
  }

  function InsertById(b: BackendView, bs: seq<BackendView>): (r: seq<BackendView>)
    requires SortedById(bs)
    ensures SortedById(r)
  {
    var k := InsertPosition(bs, b.id);
    bs[..k] + [b] + bs[k..]
  }

  lemma MultisetSplice<T>(a: seq<T>, b: T, c: seq<T>)
    ensures multiset(a + [b] + c) == multiset(a + c) + multiset{b}
  {
    assert multiset(a + [b] + c) == multiset(a) + multiset{b} + multiset(c);
  }

  lemma InsertAddsOne(b: BackendView, bs: seq<BackendView>)
    requires SortedById(bs)
    ensures multiset(InsertById(b, bs)) == multiset(bs) + multiset{b}
  {
    var k := InsertPosition(bs, b.id);
    MultisetSplice(bs[..k], b, bs[k..]);
    assert bs == bs[..k] + bs[k..];
  }

  /** The array as `qsort` by id leaves it. */
  function SortById(bs: seq<BackendView>): (r: seq<BackendView>)
    ensures SortedById(r)
    ensures multiset(r) == multiset(bs)
  {
    if bs == [] then [] else
      var rest, last := SortById(bs[..|bs| - 1]), bs[|bs| - 1];
      assert bs == bs[..|bs| - 1] + [last];
      InsertAddsOne(last, rest);
      InsertById(last, rest)
  }

  lemma MultisetSame<T>(a: seq<T>, b: seq<T>)
    requires multiset(a) == multiset(b)
    ensures |a| == |b| && forall x :: x in a <==> x in b
  {
    assert |multiset(a)| == |a| && |multiset(b)| == |b|;
    assert forall x :: x in a <==> x in multiset(a);
    assert forall x :: x in b <==> x in multiset(b);
  }

  ghost predicate StrictlySorted(bs: seq<BackendView>) {
    forall i, j :: 0 <= i < j < |bs| ==> bs[i].id < bs[j].id
  }

  lemma InsertKeepsStrict(b: BackendView, bs: seq<BackendView>)
    requires StrictlySorted(bs) && forall x :: x in bs ==> x.id != b.id
    ensures StrictlySorted(InsertById(b, bs))
  {
    var k := InsertPosition(bs, b.id);
    var r := InsertById(b, bs);
    forall i, j | 0 <= i < j < |r|
      ensures r[i].id < r[j].id
    {
      assert k <= j - 1 < |bs| ==> bs[j - 1] in bs;
    }
  }

  lemma {:induction false} SortKeepsDistinct(bs: seq<BackendView>)
    requires DistinctBackendIds(bs)
    ensures StrictlySorted(SortById(bs))
    ensures |SortById(bs)| == |bs| && forall x :: x in SortById(bs) <==> x in bs
  {
    MultisetSame(SortById(bs), bs);
    if bs != [] {
      var rest, last := bs[..|bs| - 1], bs[|bs| - 1];
      SortKeepsDistinct(rest);
      assert forall x :: x in rest ==> x.id != last.id;
      InsertKeepsStrict(last, SortById(rest));
    }
  }

  /** A strictly sorted sequence is determined by its set of elements. */
  lemma {:induction false} StrictlySortedUnique(a: seq<BackendView>, b: seq<BackendView>)
    requires StrictlySorted(a) && StrictlySorted(b)
    requires Elements(a) == Elements(b)
    ensures a == b
  {
    DistinctSize(a);
    DistinctSize(b);
    if a != [] {
      assert a[0] in b && b[0] in a;
      assert a[0] == b[0];
      var a', b' := a[1..], b[1..];
      assert a == [a[0]] + a' && b == [b[0]] + b';
      assert Elements(a') == Elements(a) - {a[0]};
      assert Elements(b') == Elements(b) - {b[0]};
      StrictlySortedUnique(a', b');
    }
  }

  /** The canonical order depends only on the set of backends. */
  lemma SortIgnoresListing(bs: seq<BackendView>, bs': seq<BackendView>)
    requires DistinctBackendIds(bs) && DistinctBackendIds(bs')
    requires forall x :: x in bs <==> x in bs'
    ensures SortById(bs) == SortById(bs')
  {
    SortKeepsDistinct(bs);
    SortKeepsDistinct(bs');
    assert Elements(SortById(bs)) == Elements(SortById(bs'));
    StrictlySortedUnique(SortById(bs), SortById(bs'));
  }

  // ------------------------------------------------------------ preference lists

  function CandidateOf(b: BackendView, m: u32, h1: NameHash, h2: NameHash): (c: Candidate)
    requires m >= 2 && b.id < 0x8000_0000
    ensures Legal(c, m) && c.id == b.id
  {
    Candidate(b.id, h1(b.addr, b.port) % m, h2(b.addr, b.port) % (m - 1) + 1)
  }

  function CandidatesOf(bs: seq<BackendView>, m: u32, h1: NameHash, h2: NameHash): (cs: seq<Candidate>)
    requires m >= 2 && SignedIds(bs)
    ensures |cs| == |bs| && AllLegal(cs, m)
    ensures forall i :: 0 <= i < |bs| ==> cs[i].id == bs[i].id
  {
    seq(|bs|, i requires 0 <= i < |bs| => CandidateOf(bs[i], m, h1, h2))
  }

  /** What `maglev_table_generate` must produce. */
  function TableSpec(bs: seq<BackendView>, m: u32, h1: NameHash, h2: NameHash): (t: seq<i32>)
    requires m >= 2 && SignedIds(bs)
  {
    MultisetSame(SortById(bs), bs);
    GreedyTable(CandidatesOf(SortById(bs), m, h1, h2), m)
  }

  /** Any two listings of the same backends give the same table. */
  lemma TableIgnoresListing(bs: seq<BackendView>, bs': seq<BackendView>, m: u32, h1: NameHash, h2: NameHash)
    requires m >= 2 && SignedIds(bs) && SignedIds(bs')
    requires DistinctBackendIds(bs) && DistinctBackendIds(bs')
    requires forall x :: x in bs <==> x in bs'
    ensures TableSpec(bs, m, h1, h2) == TableSpec(bs', m, h1, h2)
  {
    SortIgnoresListing(bs, bs');
  }

  ghost function RankById(bs: seq<BackendView>, b: BackendView): (r: nat) {
    |set x | x in bs && x.id < b.id|
  }

  lemma {:induction false} RankIsPosition(bs: seq<BackendView>, i: nat)
    requires StrictlySorted(bs) && i < |bs|
    ensures RankById(bs, bs[i]) == i
  {
    var below := set x | x in bs && x.id < bs[i].id;
    assert below == Elements(bs[..i]) by {
      forall x | x in below
        ensures x in bs[..i]
      {
        var k :| 0 <= k < |bs| && bs[k] == x;
        assert k < i;
        assert bs[..i][k] == x;
      }
    }
    DistinctSize(bs[..i]);
  }

  lemma RankIgnoresListing(bs: seq<BackendView>, bs': seq<BackendView>, b: BackendView)
    requires forall x :: x in bs <==> x in bs'
    ensures RankById(bs, b) == RankById(bs', b)
  {
    assert (set x | x in bs && x.id < b.id) == (set x | x in bs' && x.id < b.id);
  }

  /** Fair shares by id rank, for any listing of a non-empty backend set. */
  lemma TableShare(bs: seq<BackendView>, m: u32, h1: NameHash, h2: NameHash, b: BackendView)
    requires IsPrime(m) && SignedIds(bs) && DistinctBackendIds(bs) && b in bs
    ensures |SlotsHolding(TableSpec(bs, m, h1, h2), b.id)|
            == m / |bs| + if RankById(bs, b) < m % |bs| then 1 else 0
    ensures RankById(bs, b) < |bs|
  {
    var sorted := SortById(bs);
    SortKeepsDistinct(bs);
    var i: nat :| i < |sorted| && sorted[i] == b;
    RankIsPosition(sorted, i);
    RankIgnoresListing(bs, sorted, b);
    MultisetSame(sorted, bs);
    GreedyShare(CandidatesOf(sorted, m, h1, h2), m, i);
  }

  /** Every slot of a table built from a non-empty set names one of its backends;
      from the empty set every slot is empty. */
  lemma TableNamesCandidates(bs: seq<BackendView>, m: u32, h1: NameHash, h2: NameHash, s: nat)
    requires IsPrime(m) && SignedIds(bs) && s < m
    ensures |TableSpec(bs, m, h1, h2)| == m
    ensures if bs == [] then TableSpec(bs, m, h1, h2)[s] == EMPTY
            else exists b :: b in bs && b.id == TableSpec(bs, m, h1, h2)[s]
  {
    var sorted := SortById(bs);
    MultisetSame(sorted, bs);
    if bs != [] {
      var cs := CandidatesOf(sorted, m, h1, h2);
      GreedyFull(cs, m, s);
      var i :| 0 <= i < |cs| && cs[i].id == GreedyTable(cs, m)[s];
      assert sorted[i] in bs;
    }
  }

  // ------------------------------------------------------------ the populate loop

  ghost function Sum(s: seq<nat>): (r: nat) {
    if s == [] then 0 else Sum(s[..|s| - 1]) + s[|s| - 1]
  }

  lemma {:induction false} SumUpdate(s: seq<nat>, i: nat, v: nat)
    requires i < |s|
    ensures Sum(s[i := v]) == Sum(s) - s[i] + v
  {
    var k := |s| - 1;
    if i == k {
      assert s[i := v][..k] == s[..k];
    } else {
      assert s[i := v][..k] == s[..k][i := v];
      SumUpdate(s[..k], i, v);
    }
  }

  lemma {:induction false} SumBound(s: seq<nat>, bound: nat)
    requires forall i :: 0 <= i < |s| ==> s[i] <= bound
    ensures Sum(s) <= |s| * bound
  {
    if s != [] {
      SumBound(s[..|s| - 1], bound);
      assert |s| * bound == (|s| - 1) * bound + bound;
    }
  }

  lemma {:induction false} SumZero(s: seq<nat>)
    requires forall i :: 0 <= i < |s| ==> s[i] == 0
    ensures Sum(s) == 0
  {
    if s != [] {
      SumZero(s[..|s| - 1]);
    }
  }

  /** Every preference before a candidate's cursor is already taken. */
  ghost predicate CursorInv(t: seq<i32>, cs: seq<Candidate>, next: seq<nat>)
    requires |t| > 0
  {
    |next| == |cs| && forall b: nat :: b < |cs| ==> CursorAt(t, cs, next, b)
  }

  /** Backend b has found every preference before its cursor taken. */
  ghost predicate CursorAt(t: seq<i32>, cs: seq<Candidate>, next: seq<nat>, b: nat)
    requires |t| > 0 && b < |cs| == |next|
  {
    next[b] <= |t| && TakenBelow(t, cs[b], next[b])
  }

  ghost predicate TakenBelow(t: seq<i32>, c: Candidate, j: nat)
    requires |t| > 0
  {
    forall i: nat :: i < j ==> t[Probe(c, |t|, i)] != EMPTY
  }

  /** Starting at the cursor finds the same slot as starting at preference 0. */
  lemma CursorSkipsNothing(t: seq<i32>, c: Candidate, j: nat)
    requires IsPrime(|t|) && Legal(c, |t|) && EMPTY in t && TakenBelow(t, c, j)
    ensures j <= FirstEmpty(t, c, 0) < |t|
    ensures j < |t| && t[Probe(c, |t|, j)] == EMPTY ==> j == FirstEmpty(t, c, 0)
  {
    EmptySlotIsReached(t, c);
    var first := FirstEmpty(t, c, 0);
    assert t[Probe(c, |t|, first)] == EMPTY;
  }

  lemma TakenStays(t: seq<i32>, s: nat, v: i32, c: Candidate, j: nat)
    requires s < |t| && v != EMPTY && TakenBelow(t, c, j)
    ensures TakenBelow(t[s := v], c, j)
  {
  }

  /** Taking a slot keeps every cursor invariant. */
  lemma CursorInvStep(t: seq<i32>, cs: seq<Candidate>, next: seq<nat>, b: nat, j: nat)
    requires |t| > 0 && AllLegal(cs, |t|) && CursorInv(t, cs, next) && b < |cs|
    requires j < |t| && TakenBelow(t, cs[b], j)
    ensures CursorInv(t[Probe(cs[b], |t|, j) := cs[b].id], cs, next[b := j + 1])
  {
    var s, v := Probe(cs[b], |t|, j), cs[b].id;
    assert Legal(cs[b], |t|);
    TakenStays(t, s, v, cs[b], j);
    var t', next' := t[s := v], next[b := j + 1];
    forall a: nat | a < |cs|
      ensures CursorAt(t', cs, next', a)
    {
      assert CursorAt(t, cs, next, a);
      TakenStays(t, s, v, cs[a], next[a]);
    }
  }

  /** (uint32_t)((offset + (uint64_t)j * skip) % m). */
  method ProbeIndex(c: Candidate, m: u32, j: u32) returns (s: u32)
    requires Legal(c, m) && j < m
    ensures s == Probe(c, m, j)
  {
    MulMono(j, c.skip, m - 1);
    MulMono(m - 1, j, m - 1);
    MulMono(m, m - 1, U32_MAX);
    MulMono(U32_MAX, m, U32_MAX);
    var product: u64 := j * c.skip;
    var position: u64 := c.offset + product;
    s := position % m;
  }

  /** The inner probe loop: from the cursor to the first empty slot, which is
      also the first empty slot of the whole preference list. */
  method Seek(lookup: array<i32>, c: Candidate, m: u32, cursor: u32) returns (j: u32, s: u32, ghost probes: nat)
    requires lookup.Length == m && IsPrime(m) && Legal(c, m) && EMPTY in lookup[..]
    requires TakenBelow(lookup[..], c, cursor)
    ensures j == FirstEmpty(lookup[..], c, 0) < m && cursor <= j
    ensures s == Probe(c, m, j)
    ensures probes == j - cursor + 1
  {
    ghost var t := lookup[..];
    CursorSkipsNothing(t, c, cursor);
    j := cursor;
    s := ProbeIndex(c, m, j);
    probes := 1;
    while lookup[s] != EMPTY
      invariant cursor <= j < m && s == Probe(c, m, j)
      invariant TakenBelow(t, c, j)
      invariant probes == j - cursor + 1
      decreases m - j
    {
      assert t[Probe(c, m, j)] != EMPTY;
      CursorSkipsNothing(t, c, j + 1);
      j := j + 1;
      s := ProbeIndex(c, m, j);
      probes := probes + 1;
    }
    assert t[Probe(c, m, j)] == EMPTY;
    CursorSkipsNothing(t, c, j);
  }

  /** The state of the populate loop after `filled` turns. */
  ghost predicate Populated(t: seq<i32>, next: seq<nat>, cs: seq<Candidate>, m: u32, filled: nat, probes: nat) {
    && |cs| > 0 && IsPrime(m) && AllLegal(cs, m) && filled <= m
    && t == GreedyFill(cs, m, filled)
    && CursorInv(t, cs, next)
    && probes == Sum(next)
  }

  lemma PopulatedStart(t: seq<i32>, next: seq<nat>, cs: seq<Candidate>, m: u32)
    requires |cs| > 0 && IsPrime(m) && AllLegal(cs, m) && t == EmptyTable(m)
    requires |next| == |cs| && forall i :: 0 <= i < |next| ==> next[i] == 0
    ensures Populated(t, next, cs, m, 0, 0)
  {
    SumZero(next);
  }

  lemma PopulatedEnd(t: seq<i32>, next: seq<nat>, cs: seq<Candidate>, m: u32, probes: nat)
    requires Populated(t, next, cs, m, m, probes)
    ensures t == GreedyTable(cs, m) && probes <= |cs| * m
  {
    forall b: nat | b < |next|
      ensures next[b] <= m
    {
      assert CursorAt(t, cs, next, b);
    }
    SumBound(next, m);
  }

  /** One round-robin turn: claim a slot and move the cursor. */
  method Turn(lookup: array<i32>, next: array<u32>, cs: seq<Candidate>, m: u32, filled: nat, roundRobin: nat,
              ghost probes: nat)
    returns (ghost probes': nat)
    requires Populated(lookup[..], next[..], cs, m, filled, probes) && roundRobin == filled < m
    modifies lookup, next
    ensures Populated(lookup[..], next[..], cs, m, filled + 1, probes')
  {
    ghost var t: seq<i32>, cursors: seq<nat> := lookup[..], next[..];
    var b := roundRobin % |cs|;
    GreedyEmptyCount(cs, m, filled);
    assert Legal(cs[b], m) && CursorAt(t, cs, cursors, b);
    var j, s;
    ghost var inspected;
    j, s, inspected := Seek(lookup, cs[b], m, next[b]);
    CursorInvStep(t, cs, cursors, b, j);
    SumUpdate(cursors, b, j + 1);
    lookup[s] := cs[b].id;
    next[b] := j + 1;
    probes' := probes + inspected;
    assert lookup[..] == t[s := cs[b].id];
    assert next[..] == cursors[b := j + 1];
  }

  method NewTable(m: u32) returns (lookup: array<i32>)
    ensures fresh(lookup) && lookup[..] == EmptyTable(m)
  {
    lookup := new i32[m];
    for i := 0 to m
      invariant forall k :: 0 <= k < i ==> lookup[k] == EMPTY
    {
      lookup[i] := EMPTY;
    }
  }

  method NewCursors(n: nat) returns (next: array<u32>)
    ensures fresh(next) && next.Length == n && forall k :: 0 <= k < n ==> next[k] == 0
  {
    next := new u32[n];
    for i := 0 to n
      invariant forall k :: 0 <= k < i ==> next[k] == 0
    {
      next[i] := 0;
    }
  }

  method FillLoop(lookup: array<i32>, next: array<u32>, cs: seq<Candidate>, m: u32) returns (ghost probes: nat)
    requires Populated(lookup[..], next[..], cs, m, 0, 0)
    modifies lookup, next
    ensures lookup[..] == GreedyTable(cs, m)
    ensures probes <= |cs| * m
  {
    var filled: nat, roundRobin: nat := 0, 0;
    probes := 0;
    while filled < m
      invariant roundRobin == filled
      invariant Populated(lookup[..], next[..], cs, m, filled, probes)
    {
      probes := Turn(lookup, next, cs, m, filled, roundRobin, probes);
      filled, roundRobin := filled + 1, roundRobin + 1;
    }
    PopulatedEnd(lookup[..], next[..], cs, m, probes);
  }

  /** The persistent-cursor populate loop yields the table of the simple greedy.
      `probes` counts every slot inspected. The index arithmetic is 64-bit, the
      index and the cursors are 32-bit. */
  method Populate(cs: seq<Candidate>, m: u32) returns (lookup: array<i32>, ghost probes: nat)
    requires IsPrime(m) && AllLegal(cs, m)
    ensures lookup[..] == GreedyTable(cs, m)
    ensures probes <= |cs| * m
    ensures fresh(lookup)
  {
    lookup := NewTable(m);
    if |cs| == 0 {
      return lookup, 0;
    }
    var next := NewCursors(|cs|);
    PopulatedStart(lookup[..], next[..], cs, m);
    probes := FillLoop(lookup, next, cs, m);
  }

  method CandidateList(bs: seq<BackendView>, m: u32, h1: NameHash, h2: NameHash) returns (cs: seq<Candidate>)
    requires m >= 2 && SignedIds(bs)
    ensures cs == CandidatesOf(bs, m, h1, h2)
  {
    cs := [];
    for i := 0 to |bs|
      invariant |cs| == i
      invariant forall k :: 0 <= k < i ==> cs[k] == CandidateOf(bs[k], m, h1, h2)
    {
      cs := cs + [CandidateOf(bs[i], m, h1, h2)];
    }
  }

  /** `maglev_table_generate`. */
  method Generate(backends: seq<BackendView>, m: u32, h1: NameHash, h2: NameHash)
    returns (lookup: array<i32>, ghost probes: nat)
    requires IsPrime(m) && SignedIds(backends) && DistinctBackendIds(backends)
    ensures fresh(lookup) && lookup[..] == TableSpec(backends, m, h1, h2)
    ensures probes <= |backends| * m
  {
    var sorted := SortById(backends);
    MultisetSame(sorted, backends);
    var candidates := CandidateList(sorted, m, h1, h2);
    lookup, probes := Populate(candidates, m);
  }
}
