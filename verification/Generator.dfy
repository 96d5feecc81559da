/** The table generator object: its fields updated in place by the functions of
    src/backend/table_generator.c. Each is proved to be a run of the atomic steps of
    TableGenerator, so what holds of every interleaving of those steps holds of it. */
module Generator {
  import opened Wrappers
  import opened TableGenerator

  function RebuildSteps(built: bool, reallocOk: bool): seq<Step> {
    if built then [BuildOk, Exchange, Publish, Retire(reallocOk)] else [BuildFail]
  }

  function ReclaimSteps(r: nat, n: nat): seq<Step> {
    [Detach(r)] + FreeSteps(r, n)
  }

  function FreeSteps(r: nat, n: nat): seq<Step> {
    if n == 0 then [FinishReclaim(r)] else [FreeOne(r)] + FreeSteps(r, n - 1)
  }

  lemma OneStep(s: State, a: Step, rest: seq<Step>)
    requires Enabled(s, a) && IsRun(Apply(s, a), rest)
    ensures IsRun(s, [a] + rest) && Exec(s, [a] + rest) == Exec(Apply(s, a), rest)
  {
    assert ([a] + rest)[1..] == rest;
  }

  lemma FourSteps(s: State, a: Step, b: Step, c: Step, d: Step)
    requires Enabled(s, a) && Enabled(Apply(s, a), b) && Enabled(Apply(Apply(s, a), b), c)
    requires Enabled(Apply(Apply(Apply(s, a), b), c), d)
    ensures IsRun(s, [a, b, c, d]) && Exec(s, [a, b, c, d]) == Apply(Apply(Apply(Apply(s, a), b), c), d)
  {
    var s1 := Apply(s, a);
    var s2 := Apply(s1, b);
    OneStep(Apply(s2, c), d, []);
    OneStep(s2, c, [d]);
    OneStep(s1, b, [c, d]);
    OneStep(s, a, [b, c, d]);
    assert [c] + [d] == [c, d] && [b] + [c, d] == [b, c, d] && [a] + [b, c, d] == [a, b, c, d];
    assert [d] + [] == [d];
  }

  lemma FreeHead(s: State, r: nat)
    requires !s.destroyed && r < |s.readers| && s.readers[r].Reclaiming? && s.readers[r].toFree != []
    ensures var t, list := Apply(s, FreeOne(r)), s.readers[r].toFree;
            && t == s.(readers := t.readers, freed := t.freed) && |t.readers| == |s.readers|
            && t.readers[r] == Reclaiming(list[1..]) && t.readers[r := Quiet] == s.readers[r := Quiet]
            && t.freed + multiset(list[1..]) == s.freed + multiset(list)
  {
    var t, list := Apply(s, FreeOne(r)), s.readers[r].toFree;
    assert t.readers[r := Quiet] == s.readers[r := Quiet];
    assert list == [list[0]] + list[1..];
    assert t.freed + multiset(list[1..]) == s.freed + multiset(list);
  }

  /** Freeing a detached list one by one frees exactly that list. */
  lemma {:induction false} FreeRun(s: State, r: nat)
    requires !s.destroyed && r < |s.readers| && s.readers[r].Reclaiming?
    ensures var list := s.readers[r].toFree;
            && IsRun(s, FreeSteps(r, |list|))
            && Exec(s, FreeSteps(r, |list|))
               == s.(readers := s.readers[r := Quiet], freed := s.freed + multiset(list))
    decreases |s.readers[r].toFree|
  {
    var list := s.readers[r].toFree;
    if list == [] {
      OneStep(s, FinishReclaim(r), []);
      assert [FinishReclaim(r)] + [] == FreeSteps(r, 0);
    } else {
      FreeHead(s, r);
      FreeRun(Apply(s, FreeOne(r)), r);
      OneStep(s, FreeOne(r), FreeSteps(r, |list| - 1));
    }
  }

  lemma ReclaimRun(s: State, r: nat)
    requires !s.destroyed && r < |s.readers| && s.readers[r].Quiet?
    ensures IsRun(s, ReclaimSteps(r, |s.retired|))
    ensures Exec(s, ReclaimSteps(r, |s.retired|)) == s.(retired := [], cap := 0, freed := s.freed + multiset(s.retired))
  {
    var t := Apply(s, Detach(r));
    FreeRun(t, r);
    OneStep(s, Detach(r), FreeSteps(r, |s.retired|));
    assert t.readers[r := Quiet] == s.readers;
  }

  lemma DestroyRun(s: State)
    requires !s.destroyed && s.writer.Idle? && forall r :: 0 <= r < |s.readers| ==> s.readers[r].Quiet?
    ensures Enabled(s, Destroy)
    ensures Apply(s, Destroy) == State(s.generations, None, s.published, [], s.cap, Idle, s.readers,
                                       s.freed + Opt(s.active) + multiset(s.retired), s.leaked, s.installed, true)
  {
  }

  /** `struct table_generator`. Snapshots stand for themselves by their number; what
      was freed, leaked or installed is recorded beside the fields. */
  class TableGen {
    var active: Option<nat>
    var generation: nat
    var retired: array<nat>
    var nRetired: nat
    var created: nat
    ghost var generations: seq<nat>
    ghost var freed: multiset<nat>
    ghost var leaked: multiset<nat>
    ghost var installed: seq<nat>
    ghost var readers: seq<Reader>
    ghost var destroyed: bool

    ghost predicate Valid()
      reads this
    {
      nRetired <= retired.Length && created == |generations|
    }

    /** The protocol state between calls of the writer; `created` numbers snapshots. */
    ghost function Abs(): (s: State)
      requires Valid()
      reads this, retired
    {
      State(generations, active, generation, retired[..nRetired], retired.Length, Idle, readers, freed, leaked,
            installed, destroyed)
    }

    constructor (ghost n: nat)
      ensures Valid() && fresh(retired) && Abs() == Init(n)
    {
      active, generation, nRetired, created := None, 0, 0, 0;
      retired := new nat[0];
      generations, installed, destroyed := [], [], false;
      freed, leaked := multiset{}, multiset{};
      readers := Init(n).readers;
    }

    /** Lines 113-129: the old snapshot goes on the retired list, which grows when it
        is full; when growing fails the snapshot is leaked. */
    method RetireSnapshot(prev: nat, reallocOk: bool)
      requires Valid()
      modifies this, retired
      ensures Valid() && (retired == old(retired) || fresh(retired))
      ensures Abs() == RetireOld(old(Abs()), prev, reallocOk)
    {
      if nRetired == retired.Length && reallocOk {
        var newCap := if retired.Length == 0 then 8 else retired.Length * 2;
        var grown := new nat[newCap];
        for i := 0 to nRetired
          invariant unchanged(this) && unchanged(retired)
          invariant grown[..i] == retired[..i]
        {
          grown[i] := retired[i];
        }
        retired := grown;
      }
      if nRetired < retired.Length {
        retired[nRetired] := prev;
        nRetired := nRetired + 1;
        assert retired[..nRetired] == old(retired[..nRetired]) + [prev];
      } else {
        leaked := leaked + multiset{prev};
      }
    }

    /** `table_generator_rebuild_and_install`; `built` says whether the snapshot could be
        created, `reallocOk` whether growing the retired list would succeed. */
    method RebuildAndInstall(built: bool, reallocOk: bool) returns (code: int)
      requires Valid() && !destroyed
      modifies this, retired
      ensures Valid() && (retired == old(retired) || fresh(retired))
      ensures code == 0 <==> built
      ensures IsRun(old(Abs()), RebuildSteps(built, reallocOk))
      ensures Exec(old(Abs()), RebuildSteps(built, reallocOk)) == Abs()
    {
      ghost var s := Abs();
      if !built {
        OneStep(s, BuildFail, []);
        assert [BuildFail] + [] == [BuildFail];
        return -1;
      }
      var newGeneration := generation + 1;
      var snap := created;
      created := created + 1;
      generations := generations + [newGeneration];
      var prev := active;
      active := Some(snap);
      installed := installed + [newGeneration];
      generation := newGeneration;
      if prev.Some? {
        RetireSnapshot(prev.value, reallocOk);
      }
      RebuildRun(s, reallocOk);
      return 0;
    }

    /** `table_generator_get_active`, called by reader r. */
    method GetActive(ghost r: nat) returns (snap: Option<nat>)
      requires Valid() && !destroyed && r < |readers| && readers[r].Quiet?
      modifies this`readers
      ensures Valid() && snap == active && Abs() == Apply(old(Abs()), Load(r))
    {
      readers := readers[r := Holding(active)];
      snap := active;
    }

    /** `table_generator_reclaim`, called by reader r between packets. */
    method Reclaim(ghost r: nat)
      requires Valid() && !destroyed && r < |readers| && readers[r].Quiet?
      modifies this
      ensures Valid() && fresh(retired)
      ensures IsRun(old(Abs()), ReclaimSteps(r, old(nRetired)))
      ensures Exec(old(Abs()), ReclaimSteps(r, old(nRetired))) == Abs()
    {
      ReclaimRun(Abs(), r);
      var toFree, n := retired, nRetired;
      retired := new nat[0];
      nRetired := 0;
      FreeList(toFree, n);
    }

    /** Frees the first n snapshots of a list. */
    method FreeList(list: array<nat>, n: nat)
      requires n <= list.Length
      modifies this`freed
      ensures freed == old(freed) + multiset(list[..n])
    {
      for i := 0 to n
        invariant freed == old(freed) + multiset(list[..i])
      {
        assert list[..i + 1] == list[..i] + [list[i]];
        freed := freed + multiset{list[i]};
      }
    }

    /** `table_generator_destroy`. */
    method Destroy()
      requires Valid() && !destroyed && forall r :: 0 <= r < |readers| ==> readers[r].Quiet?
      modifies this
      ensures Valid() && retired == old(retired) && Abs() == Apply(old(Abs()), Step.Destroy)
    {
      DestroyRun(Abs());
      freed := freed + Opt(active);
      FreeList(retired, nRetired);
      active, nRetired := None, 0;
      destroyed := true;
      assert retired[..0] == [];
    }
  }

  /** What a rebuild that succeeds does, from the exchange to the retirement. */
  lemma RebuildRun(s: State, reallocOk: bool)
    requires !s.destroyed && s.writer.Idle?
    ensures IsRun(s, RebuildSteps(true, reallocOk))
    ensures var t := s.(generations := s.generations + [s.published + 1], active := Some(|s.generations|),
                        installed := s.installed + [s.published + 1], published := s.published + 1);
            Exec(s, RebuildSteps(true, reallocOk))
            == if s.active.None? then t else RetireOld(t, s.active.value, reallocOk)
  {
    FourSteps(s, BuildOk, Exchange, Publish, Retire(reallocOk));
  }
}
