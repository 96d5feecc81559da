/** A run in which health does not follow the rise and fall rule: the pool loses a
    backend after all 64 probe states were taken, and its successor is never tracked. */
module HealthLatecomer {
  import opened MachineInts
  import opened Wrappers
  import opened BackendPool
  import opened Hysteresis
  import opened HealthChecker
  import opened HealthRuns

  /** 64 additions, one good result each, the removal of id 0, the addition of id 64,
      and then bad results for id 64. */
  function LateEvent(n: nat): Event {
    if n < 64 then Change(Add(0, 80))
    else if n < 128 then Result(n - 64, true)
    else if n == 128 then Change(Remove(0))
    else if n == 129 then Change(Add(0, 80))
    else Result(64, false)
  }

  function FirstPool(n: nat): Pool
    requires n <= 64
  {
    Pool(seq(64, i requires 0 <= i < 64 => if i < n then Some(NewBackend(i, 0, 80)) else None), n)
  }

  function FirstProbes(n: nat): Probes
    requires n <= 64
  {
    seq(64, i requires 0 <= i < 64 => if i < n then ProbeState(i, 1, 0, true) else ProbeState(0, 0, 0, false))
  }

  function LateState(n: nat): State {
    if n <= 64 then State(FirstProbes(0), FirstPool(n))
    else if n <= 128 then State(FirstProbes(n - 64), FirstPool(64))
    else if n == 129 then State(FirstProbes(64), Pool(FirstPool(64).slots[0 := None], 64))
    else State(FirstProbes(64), Pool(FirstPool(64).slots[0 := Some(NewBackend(64, 0, 80))], 65))
  }

  ghost predicate LateStep(rise: u32, fall: u32, n: nat) {
    && HealthRuns.Enabled(LateState(n), LateEvent(n))
    && Next(rise, fall, LateState(n), LateEvent(n)) == (LateState(n + 1), false)
  }

  lemma AddStep(rise: u32, fall: u32, n: nat)
    requires n < 64
    ensures LateStep(rise, fall, n)
  {
    var p := FirstPool(n);
    assert p.slots[n].None? && forall i :: 0 <= i < n ==> p.slots[i].Some?;
    assert FreeSlotFrom(p.slots, 0) == n;
    assert Apply(p, Add(0, 80)).slots == FirstPool(n + 1).slots;
  }

  lemma GoodResultStep(rise: u32, fall: u32, n: nat)
    requires rise >= 1 && n < 64
    ensures LateStep(rise, fall, n + 64)
  {
    var ps, slots := FirstProbes(n), FirstPool(64).slots;
    assert FindSlot(slots, n) == n by {
      assert slots[n].Some? && slots[n].value.id == n;
      assert forall i :: 0 <= i < n ==> slots[i].value.id != n;
    }
    assert StateFrom(ps, n, 0) == 64;
    assert FreeFrom(ps, 0) == n by {
      assert !ps[n].inUse && forall i :: 0 <= i < n ==> ps[i].inUse;
    }
    assert Record(ps, slots, rise, fall, n, true).0 == FirstProbes(n + 1);
    assert WithHealth(slots, n, true) == slots;
    if n == 0 {
      assert LateState(64).ps == ps;
    }
  }

  lemma ReplaceStep(rise: u32, fall: u32, n: nat)
    requires n == 128 || n == 129
    ensures LateStep(rise, fall, n)
  {
    var slots := FirstPool(64).slots;
    if n == 128 {
      assert slots[0].Some? && slots[0].value.id == 0;
      assert FindSlot(slots, 0) == 0;
    } else {
      assert FreeSlotFrom(slots[0 := None], 0) == 0;
      assert slots[0 := None][0 := Some(NewBackend(64, 0, 80))] == slots[0 := Some(NewBackend(64, 0, 80))];
    }
  }

  lemma BadResultStep(rise: u32, fall: u32, n: nat)
    requires n >= 130
    ensures LateStep(rise, fall, n)
  {
    var s := LateState(n);
    assert s.pool.slots[0].Some? && s.pool.slots[0].value.id == 64;
    assert FindSlot(s.pool.slots, 64) == 0;
    assert forall i :: 0 <= i < 64 ==> s.ps[i].inUse && s.ps[i].id != 64;
    assert StateFrom(s.ps, 64, 0) == 64 && FreeFrom(s.ps, 0) == 64;
  }

  function LateRun(n: nat): (r: Run)
    ensures Shape(r) && |r.events| == n
  {
    Run(seq(n, i requires 0 <= i => LateEvent(i)), seq(n + 1, i requires 0 <= i => LateState(i)), seq(n, _ => false))
  }

  lemma LateRunIsRun(rise: u32, fall: u32, n: nat)
    requires rise >= 1
    ensures IsRun(LateRun(n), rise, fall)
  {
    var r := LateRun(n);
    assert r.states[0] == Start() by {
      assert LateState(0).ps == Start().ps && LateState(0).pool.slots == Start().pool.slots;
    }
    forall i: nat | i < n
      ensures StepAt(r, rise, fall, i)
    {
      if i < 64 {
        AddStep(rise, fall, i);
      } else if i < 128 {
        GoodResultStep(rise, fall, i - 64);
      } else if i < 130 {
        ReplaceStep(rise, fall, i);
      } else {
        BadResultStep(rise, fall, i);
      }
      assert LateStep(rise, fall, i);
    }
  }

  function Bad(n: nat): seq<bool> {
    seq(n, _ => false)
  }

  lemma {:induction false} LateHistory(n: nat, i: nat)
    requires i <= n
    ensures History(LateRun(n).events, 64, i) == Bad(if i <= 130 then 0 else i - 130)
  {
    if i > 0 {
      LateHistory(n, i - 1);
      assert LateRun(n).events[i - 1] == LateEvent(i - 1);
      if i > 130 {
        assert Bad(i - 131) + [false] == Bad(i - 130);
      }
    }
  }

  /** After `fall` failed probes in a row, id 64 is in the pool and still healthy,
      although the rule has it down. */
  lemma LatecomerStaysUp(rise: u32, fall: u32)
    requires rise >= 1 && fall >= 1
    ensures var n := 130 + fall; var r := LateRun(n);
            && IsRun(r, rise, fall) && LiveAt(r, 64, n) && HealthAt(r, 64, n)
            && !Rule(rise, fall, History(r.events, 64, n)) && !Admitted(r.events, 64, n)
  {
    var n := 130 + fall;
    var r := LateRun(n);
    LateRunIsRun(rise, fall, n);
    BadResultStep(rise, fall, n);
    assert BackendOf(r.states[n].pool.slots, 64) == NewBackend(64, 0, 80);
    LateHistory(n, n);
    RuleAllBad(rise, fall);
    RuleFollowedIff(r, rise, fall, 64, n);
  }

  lemma RuleAllBad(rise: u32, fall: u32)
    requires rise >= 1 && fall >= 1
    ensures !Rule(rise, fall, Bad(fall))
  {
    assert LastAll(Bad(fall), fall, false);
    assert !Bad(fall)[fall - 1];
  }
}
