/** The snapshot swap and deferred-free protocol (src/backend/table_generator.c)
    as interleaved atomic steps. The writer thread builds, exchanges, publishes
    the generation and retires the old snapshot; a reader thread loads, uses and
    releases the active snapshot, and between packets detaches the retired list
    and frees it one by one. Snapshots are numbered in allocation order. */
module TableGenerator {
  import opened Wrappers

  datatype Writer =
    | Idle
    | Built(snap: nat)
    | Exchanged(prev: Option<nat>, gen: nat)
    | Published(prev: Option<nat>)

  datatype Reader =
    | Quiet
    | Holding(snap: Option<nat>)
    | Reclaiming(toFree: seq<nat>)

  /** `generations[i]` is the generation stored in snapshot i; `installed` logs
      the generations in the order they became active. */
  datatype State = State(
    generations: seq<nat>,
    active: Option<nat>,
    published: nat,
    retired: seq<nat>,
    cap: nat,
    writer: Writer,
    readers: seq<Reader>,
    freed: multiset<nat>,
    leaked: multiset<nat>,
    installed: seq<nat>,
    destroyed: bool)

  datatype Step =
    | BuildOk
    | BuildFail
    | Exchange
    | Publish
    | Retire(reallocOk: bool)
    | Load(r: nat)
    | Release(r: nat)
    | Detach(r: nat)
    | FreeOne(r: nat)
    | FinishReclaim(r: nat)
    | Destroy

  function Init(readers: nat): (s: State) {
    State([], None, 0, [], 0, Idle, seq(readers, _ => Quiet), multiset{}, multiset{}, [], false)
  }

  predicate Enabled(s: State, step: Step) {
    && !s.destroyed
    && match step
       case BuildOk => s.writer.Idle?
       case BuildFail => s.writer.Idle?
       case Exchange => s.writer.Built?
       case Publish => s.writer.Exchanged?
       case Retire(_) => s.writer.Published?
       case Load(r) => r < |s.readers| && s.readers[r].Quiet?
       case Release(r) => r < |s.readers| && s.readers[r].Holding?
       case Detach(r) => r < |s.readers| && s.readers[r].Quiet?
       case FreeOne(r) => r < |s.readers| && s.readers[r].Reclaiming? && s.readers[r].toFree != []
       case FinishReclaim(r) => r < |s.readers| && s.readers[r].Reclaiming? && s.readers[r].toFree == []
       case Destroy => s.writer.Idle? && forall r :: 0 <= r < |s.readers| ==> s.readers[r].Quiet?
  }

  function Opt(o: Option<nat>): (m: multiset<nat>) {
    if o.Some? then multiset{o.value} else multiset{}
  }

  /** Lines 113-129: grow the list when it is full; leak when growing failed. */
  function RetireOld(s: State, prev: nat, reallocOk: bool): State {
    var cap := if |s.retired| == s.cap && reallocOk then (if s.cap == 0 then 8 else s.cap * 2) else s.cap;
    if |s.retired| < cap
    then s.(retired := s.retired + [prev], cap := cap, writer := Idle)
    else s.(leaked := s.leaked + multiset{prev}, cap := cap, writer := Idle)
  }

  function Apply(s: State, step: Step): (t: State)
    requires Enabled(s, step)
  {
    match step
    case BuildOk => s.(generations := s.generations + [s.published + 1], writer := Built(|s.generations|))
    case BuildFail => s
    case Exchange =>
      var gen := if s.writer.snap < |s.generations| then s.generations[s.writer.snap] else 0;
      s.(active := Some(s.writer.snap), writer := Exchanged(s.active, gen), installed := s.installed + [gen])
    case Publish => s.(published := s.writer.gen, writer := Published(s.writer.prev))
    case Retire(ok) => if s.writer.prev.None? then s.(writer := Idle) else RetireOld(s, s.writer.prev.value, ok)
    case Load(r) => s.(readers := s.readers[r := Holding(s.active)])
    case Release(r) => s.(readers := s.readers[r := Quiet])
    case Detach(r) => s.(readers := s.readers[r := Reclaiming(s.retired)], retired := [], cap := 0)
    case FreeOne(r) =>
      var list := s.readers[r].toFree;
      s.(readers := s.readers[r := Reclaiming(list[1..])], freed := s.freed + multiset{list[0]})
    case FinishReclaim(r) => s.(readers := s.readers[r := Quiet])
    case Destroy =>
      s.(active := None, retired := [], freed := s.freed + Opt(s.active) + multiset(s.retired), destroyed := true)
  }

  predicate IsRun(s: State, steps: seq<Step>)
    decreases steps
  {
    steps == [] || (Enabled(s, steps[0]) && IsRun(Apply(s, steps[0]), steps[1..]))
  }

  function Exec(s: State, steps: seq<Step>): (t: State)
    requires IsRun(s, steps)
    decreases steps
  {
    if steps == [] then s else Exec(Apply(s, steps[0]), steps[1..])
  }

  // ------------------------------------------------------------ what every run keeps

  ghost predicate NoDangling(s: State) {
    forall r :: 0 <= r < |s.readers| && s.readers[r].Holding? && s.readers[r].snap.Some? ==>
      s.readers[r].snap.value !in s.freed
  }

  /** No reader can dereference freed memory, and nothing is freed twice. */
  ghost predicate Safe(s: State) {
    NoDangling(s) && forall x :: s.freed[x] <= 1
  }

  function Is(o: Option<nat>, x: nat): nat {
    if o == Some(x) then 1 else 0
  }

  function WriterOwns(w: Writer, x: nat): nat {
    match w
    case Idle => 0
    case Built(snap) => Is(Some(snap), x)
    case Exchanged(prev, _) => Is(prev, x)
    case Published(prev) => Is(prev, x)
  }

  /** The list a single reader has detached and is freeing. */
  function Detached(readers: seq<Reader>): seq<nat> {
    if |readers| == 1 && readers[0].Reclaiming? then readers[0].toFree else []
  }

  /** In how many places snapshot x is. */
  ghost function Places(s: State, x: nat): (n: nat) {
    WriterOwns(s.writer, x) + Is(s.active, x) + multiset(s.retired)[x] + multiset(Detached(s.readers))[x]
    + s.leaked[x] + s.freed[x]
  }

  /** Every allocated snapshot is in exactly one place. */
  ghost predicate Conserved(s: State) {
    forall x: nat :: Places(s, x) == if x < |s.generations| then 1 else 0
  }

  /** The installed generations are 1, 2, 3, ...; the active snapshot carries the
      last of them; the published counter is the last or, between the exchange
      and the publishing store, one behind. */
  ghost predicate Generations(s: State) {
    && (forall i :: 0 <= i < |s.installed| ==> s.installed[i] == i + 1)
    && (!s.destroyed ==> (s.active.None? <==> s.installed == []))
    && (s.active.Some? ==> s.active.value < |s.generations| && s.generations[s.active.value] == |s.installed|)
    && s.published == |s.installed| - (if s.writer.Exchanged? then 1 else 0)
    && (s.writer.Exchanged? ==> s.writer.gen == |s.installed|)
    && (s.writer.Built? ==> s.writer.snap < |s.generations| && s.generations[s.writer.snap] == s.published + 1)
  }

  ghost predicate Shape(s: State) {
    && |s.retired| <= s.cap
    && (s.destroyed ==> s.writer.Idle? && s.active.None? && s.retired == [] && Detached(s.readers) == [])
  }

  ghost predicate Inv(s: State) {
    && |s.readers| <= 1
    && Conserved(s) && Generations(s) && NoDangling(s) && Shape(s)
  }

  lemma InitInv(n: nat)
    requires n <= 1
    ensures Inv(Init(n))
  {
  }

  lemma AppendCount(list: seq<nat>, y: nat, x: nat)
    ensures multiset(list + [y])[x] == multiset(list)[x] + Is(Some(y), x)
  {
  }

  lemma HeadCount(list: seq<nat>, x: nat)
    requires list != []
    ensures multiset(list)[x] == multiset(list[1..])[x] + Is(Some(list[0]), x)
  {
    assert list == [list[0]] + list[1..];
  }

  predicate WriterStep(step: Step) {
    step.BuildOk? || step.BuildFail? || step.Exchange? || step.Publish? || step.Retire?
  }

  lemma RetireConserves(s: State, prev: nat, reallocOk: bool, x: nat)
    requires s.writer == Published(Some(prev))
    ensures Places(RetireOld(s, prev, reallocOk), x) == Places(s, x)
  {
    AppendCount(s.retired, prev, x);
  }

  lemma WriterStepConserves(s: State, step: Step, x: nat)
    requires Enabled(s, step) && WriterStep(step)
    ensures Places(Apply(s, step), x) == Places(s, x) + if step.BuildOk? && x == |s.generations| then 1 else 0
  {
    match step
    case Retire(_) =>
      if s.writer.prev.Some? {
        RetireConserves(s, s.writer.prev.value, step.reallocOk, x);
      }
    case _ =>
  }

  lemma ReaderStepConserves(s: State, step: Step, x: nat)
    requires |s.readers| <= 1 && Enabled(s, step) && !WriterStep(step)
    ensures Places(Apply(s, step), x) == Places(s, x)
  {
    var t := Apply(s, step);
    match step
    case Load(r) =>
      assert t.readers == [Holding(s.active)];
    case Release(r) =>
      assert t.readers == [Quiet];
    case Detach(r) =>
      assert t.readers == [Reclaiming(s.retired)];
    case FreeOne(r) =>
      assert t.readers == [Reclaiming(s.readers[r].toFree[1..])];
      HeadCount(s.readers[r].toFree, x);
    case FinishReclaim(r) =>
      assert t.readers == [Quiet];
    case Destroy =>
      assert t.freed[x] == s.freed[x] + Is(s.active, x) + multiset(s.retired)[x];
  }

  /** No step creates, duplicates or loses a snapshot. */
  lemma StepConserves(s: State, step: Step, x: nat)
    requires |s.readers| <= 1 && Enabled(s, step)
    ensures Places(Apply(s, step), x) == Places(s, x) + if step.BuildOk? && x == |s.generations| then 1 else 0
  {
    if WriterStep(step) {
      WriterStepConserves(s, step, x);
    } else {
      ReaderStepConserves(s, step, x);
    }
  }

  lemma StepKeepsConserved(s: State, step: Step)
    requires |s.readers| <= 1 && Conserved(s) && Enabled(s, step)
    ensures Conserved(Apply(s, step))
  {
    var t := Apply(s, step);
    assert |t.generations| == |s.generations| + if step.BuildOk? then 1 else 0;
    forall x: nat
      ensures Places(t, x) == if x < |t.generations| then 1 else 0
    {
      StepConserves(s, step, x);
    }
  }

  lemma StepKeepsGenerations(s: State, step: Step)
    requires Generations(s) && Enabled(s, step)
    ensures Generations(Apply(s, step))
  {
  }

  /** A loaded snapshot is unfreed, and only a reader between packets frees. */
  lemma StepKeepsNoDangling(s: State, step: Step)
    requires |s.readers| <= 1 && Conserved(s) && NoDangling(s) && Enabled(s, step)
    ensures NoDangling(Apply(s, step))
  {
    if step.Load? && s.active.Some? {
      assert Places(s, s.active.value) <= 1;
    }
  }

  lemma StepKeepsShape(s: State, step: Step)
    requires |s.readers| <= 1 && Shape(s) && Enabled(s, step)
    ensures Shape(Apply(s, step)) && |Apply(s, step).readers| <= 1
  {
  }

  lemma StepKeepsInv(s: State, step: Step)
    requires Inv(s) && Enabled(s, step)
    ensures Inv(Apply(s, step))
  {
    StepKeepsConserved(s, step);
    StepKeepsGenerations(s, step);
    StepKeepsNoDangling(s, step);
    StepKeepsShape(s, step);
  }

  lemma InvIsSafe(s: State)
    requires Inv(s)
    ensures Safe(s)
  {
    forall x: nat
      ensures s.freed[x] <= 1
    {
      assert Places(s, x) <= 1;
    }
  }

  lemma {:induction false} RunKeepsInv(s: State, steps: seq<Step>)
    requires Inv(s) && IsRun(s, steps)
    ensures Inv(Exec(s, steps))
    decreases steps
  {
    if steps != [] {
      StepKeepsInv(s, steps[0]);
      RunKeepsInv(Apply(s, steps[0]), steps[1..]);
    }
  }

  // ------------------------------------------------------------ main results

  /** With one reader, every interleaving is free of use-after-free and double
      free; generations strictly increase and the published one lags by at most 1. */
  lemma SingleReaderSafe(steps: seq<Step>)
    requires IsRun(Init(1), steps)
    ensures var s := Exec(Init(1), steps);
            && Safe(s)
            && (forall i, j :: 0 <= i < j < |s.installed| ==> s.installed[i] < s.installed[j])
            && (s.active.Some? ==>
                  && s.active.value < |s.generations|
                  && s.published <= s.generations[s.active.value] <= s.published + 1)
  {
    InitInv(1);
    RunKeepsInv(Init(1), steps);
    InvIsSafe(Exec(Init(1), steps));
  }

  /** After destroy every snapshot has been freed exactly once or was leaked, never both. */
  lemma DestroyFreesAll(steps: seq<Step>, x: nat)
    requires IsRun(Init(1), steps) && Exec(Init(1), steps).destroyed
    ensures var s := Exec(Init(1), steps);
            s.freed[x] + s.leaked[x] == if x < |s.generations| then 1 else 0
  {
    InitInv(1);
    RunKeepsInv(Init(1), steps);
    var s := Exec(Init(1), steps);
    assert Places(s, x) == s.freed[x] + s.leaked[x];
  }

  /** A snapshot leaks only through a failed reallocation of the retired list. */
  lemma {:induction false} NoLeakWithoutReallocFailure(s: State, steps: seq<Step>)
    requires Inv(s) && IsRun(s, steps)
    requires forall i :: 0 <= i < |steps| ==> steps[i] != Retire(false)
    ensures Exec(s, steps).leaked == s.leaked
    decreases steps
  {
    if steps != [] {
      StepKeepsInv(s, steps[0]);
      NoLeakWithoutReallocFailure(Apply(s, steps[0]), steps[1..]);
    }
  }

  /** The run in which a second reader frees the snapshot the first still holds. */
  function TwoReaderRun(): seq<Step> {
    [BuildOk, Exchange, Publish, Retire(true), Load(0),
     BuildOk, Exchange, Publish, Retire(true), Detach(1), FreeOne(1)]
  }

  function Race(generations: seq<nat>, active: Option<nat>, published: nat, retired: seq<nat>, cap: nat,
                writer: Writer, readers: seq<Reader>, freed: multiset<nat>, installed: seq<nat>): State {
    State(generations, active, published, retired, cap, writer, readers, freed, multiset{}, installed, false)
  }

  function RaceStates(n: nat): (states: seq<State>)
    requires n >= 2
    ensures |states| == |TwoReaderRun()| + 1
  {
    var none := multiset{};
    var r0 := Init(n).readers;
    var r1 := r0[0 := Holding(Some(0))];
    [ Race([], None, 0, [], 0, Idle, r0, none, []),
      Race([1], None, 0, [], 0, Built(0), r0, none, []),
      Race([1], Some(0), 0, [], 0, Exchanged(None, 1), r0, none, [1]),
      Race([1], Some(0), 1, [], 0, Published(None), r0, none, [1]),
      Race([1], Some(0), 1, [], 0, Idle, r0, none, [1]),
      Race([1], Some(0), 1, [], 0, Idle, r1, none, [1]),
      Race([1, 2], Some(0), 1, [], 0, Built(1), r1, none, [1]),
      Race([1, 2], Some(1), 1, [], 0, Exchanged(Some(0), 2), r1, none, [1, 2]),
      Race([1, 2], Some(1), 2, [], 0, Published(Some(0)), r1, none, [1, 2]),
      Race([1, 2], Some(1), 2, [0], 8, Idle, r1, none, [1, 2]),
      Race([1, 2], Some(1), 2, [], 0, Idle, r1[1 := Reclaiming([0])], none, [1, 2]),
      Race([1, 2], Some(1), 2, [], 0, Idle, r1[1 := Reclaiming([])], multiset{0}, [1, 2]) ]
  }

  lemma RaceStarts(n: nat, k: nat)
    requires n >= 2 && k < 5
    ensures Linked(RaceStates(n), TwoReaderRun(), k)
  {
  }

  lemma RaceContinues(n: nat, k: nat)
    requires n >= 2 && 5 <= k < 9
    ensures Linked(RaceStates(n), TwoReaderRun(), k)
  {
  }

  lemma RaceEnds(n: nat, k: nat)
    requires n >= 2 && 9 <= k < 11
    ensures Linked(RaceStates(n), TwoReaderRun(), k)
  {
    var r1, list: seq<nat> := Init(n).readers[0 := Holding(Some(0))], [0];
    assert list[1..] == [];
    assert r1[1 := Reclaiming(list)][1 := Reclaiming([])] == r1[1 := Reclaiming([])];
  }

  lemma RaceUnsafe(n: nat)
    requires n >= 2
    ensures RaceStates(n)[0] == Init(n) && !Safe(RaceStates(n)[11])
  {
    var last := RaceStates(n)[11];
    assert last.readers[0] == Holding(Some(0)) && 0 in last.freed;
  }

  lemma TwoReadersReachUseAfterFree(n: nat)
    requires n >= 2
    ensures IsRun(Init(n), TwoReaderRun()) && !Safe(Exec(Init(n), TwoReaderRun()))
  {
    var states, steps := RaceStates(n), TwoReaderRun();
    forall k | 0 <= k < |steps|
      ensures Linked(states, steps, k)
    {
      if k < 5 {
        RaceStarts(n, k);
      } else if k < 9 {
        RaceContinues(n, k);
      } else {
        RaceEnds(n, k);
      }
    }
    FollowRun(states, steps, 0);
    RaceUnsafe(n);
    assert steps[0..] == steps && |steps| == 11;
  }

  ghost predicate Linked(states: seq<State>, steps: seq<Step>, k: int)
    requires |states| == |steps| + 1 && 0 <= k < |steps|
  {
    Enabled(states[k], steps[k]) && states[k + 1] == Apply(states[k], steps[k])
  }

  /** A sequence of states linked by enabled steps is a run. */
  lemma {:induction false} FollowRun(states: seq<State>, steps: seq<Step>, i: nat)
    requires |states| == |steps| + 1 && i <= |steps|
    requires forall k :: 0 <= k < |steps| ==> Linked(states, steps, k)
    ensures IsRun(states[i], steps[i..]) && Exec(states[i], steps[i..]) == states[|steps|]
    decreases |steps| - i
  {
    if i < |steps| {
      assert Linked(states, steps, i);
      assert steps[i..][0] == steps[i] && steps[i..][1..] == steps[i + 1..];
      FollowRun(states, steps, i + 1);
    }
  }

  /** The scheme is safe exactly when there is at most one reader thread. */
  lemma SafeIffSingleReader(n: nat)
    ensures (forall steps :: IsRun(Init(n), steps) ==> Safe(Exec(Init(n), steps))) <==> n <= 1
  {
    if n <= 1 {
      InitInv(n);
      forall steps | IsRun(Init(n), steps)
        ensures Safe(Exec(Init(n), steps))
      {
        RunKeepsInv(Init(n), steps);
        InvIsSafe(Exec(Init(n), steps));
      }
    } else {
      TwoReadersReachUseAfterFree(n);
    }
  }
}
