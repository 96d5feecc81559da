/** What every run of arrivals, completions, reconfigurations and resets keeps. */
module ServerRuns {
  import opened ServerSpec

  // ---- time a slot was held since a reset -------------------------------------

  /** The part of from..till that lies after `reset`. */
  function After(reset: int, from: int, till: int): (d: int) {
    var lo := if from < reset then reset else from;
    if till < lo then 0 else till - lo
  }

  function HeldBy(js: seq<Job>, reset: int, now: int): int {
    if js == [] then 0 else HeldBy(js[..|js| - 1], reset, now) + After(reset, js[|js| - 1].from, now)
  }

  function HeldBefore(done: seq<Served>, reset: int): int {
    if done == [] then 0 else
      HeldBefore(done[..|done| - 1], reset) + After(reset, done[|done| - 1].job.from, done[|done| - 1].till)
  }

  /** Total slot time since the last reset, up to the last accounting. */
  function ServiceTime(x: State): int {
    HeldBefore(x.h.served, x.h.resetAt) + HeldBy(x.s.running, x.h.resetAt, x.s.busySince)
  }

  ghost predicate JobsBy(js: seq<Job>, t: int) {
    forall i :: 0 <= i < |js| ==> js[i].from <= t
  }

  ghost predicate ServedBy(done: seq<Served>, t: int) {
    forall i :: 0 <= i < |done| ==> done[i].till <= t
  }

  lemma {:induction false} HeldAdvance(js: seq<Job>, reset: int, t: int, u: int)
    requires JobsBy(js, t) && reset <= t <= u
    ensures HeldBy(js, reset, u) == HeldBy(js, reset, t) + |js| * (u - t)
  {
    if js != [] {
      var rest := js[..|js| - 1];
      HeldAdvance(rest, reset, t, u);
      assert After(reset, js[|js| - 1].from, u) == After(reset, js[|js| - 1].from, t) + (u - t);
      assert |js| * (u - t) == |rest| * (u - t) + (u - t);
    }
  }

  lemma {:induction false} HeldWithout(js: seq<Job>, i: nat, reset: int, t: int)
    requires i < |js|
    ensures HeldBy(js, reset, t) == HeldBy(Without(js, i), reset, t) + After(reset, js[i].from, t)
  {
    var rest := js[..|js| - 1];
    if i == |js| - 1 {
      assert Without(js, i) == rest;
    } else {
      HeldWithout(rest, i, reset, t);
      assert Without(js, i)[..|js| - 2] == Without(rest, i);
    }
  }

  lemma {:induction false} NothingAfter(js: seq<Job>, done: seq<Served>, t: int)
    requires JobsBy(js, t) && ServedBy(done, t)
    ensures HeldBy(js, t, t) == 0 && HeldBefore(done, t) == 0
    decreases |js| + |done|
  {
    if js != [] {
      NothingAfter(js[..|js| - 1], done, t);
    } else if done != [] {
      NothingAfter(js, done[..|done| - 1], t);
    }
  }

  // ---- the busy integral --------------------------------------------------------

  /** The clock facts: nothing the server remembers lies after its next reading. */
  ghost predicate Timed(clock: nat -> int, x: State) {
    && x.h.resetAt <= x.s.busySince <= clock(x.s.readings)
    && JobsBy(x.s.running, x.s.busySince)
    && ServedBy(x.h.served, x.s.busySince)
  }

  ghost predicate Accounted(clock: nat -> int, x: State) {
    Timed(clock, x) && x.s.busy == |x.s.running| && x.s.integral == ServiceTime(x)
  }

  lemma AccountKeeps(clock: nat -> int, x: State)
    requires NonDecreasing(clock) && Accounted(clock, x)
    ensures Accounted(clock, Account(clock, x))
  {
    var t := clock(x.s.readings);
    HeldAdvance(x.s.running, x.h.resetAt, x.s.busySince, t);
    assert t <= clock(x.s.readings + 1);
  }

  lemma StartKeeps(clock: nat -> int, x: State, req: Request)
    requires NonDecreasing(clock) && Accounted(clock, x)
    ensures Accounted(clock, Start(clock, x, req))
  {
    AccountKeeps(clock, x);
    var y := Account(clock, x);
    var job := Job(req, y.s.busySince);
    var js := y.s.running + [job];
    assert js[..|js| - 1] == y.s.running;
    assert HeldBy(js, y.h.resetAt, y.s.busySince) == HeldBy(y.s.running, y.h.resetAt, y.s.busySince);
  }

  lemma {:induction false} DrainKeeps(clock: nat -> int, x: State)
    requires NonDecreasing(clock) && Accounted(clock, x)
    ensures Accounted(clock, Drain(clock, x))
    decreases |x.s.queue|
  {
    if x.s.queue != [] && x.s.busy < x.s.capacity {
      var y := x.(s := x.s.(queue := x.s.queue[1..]));
      StartKeeps(clock, y, x.s.queue[0]);
      DrainKeeps(clock, Start(clock, y, x.s.queue[0]));
    }
  }

  lemma ReleaseKeeps(clock: nat -> int, x: State, i: nat, failed: bool)
    requires NonDecreasing(clock) && Accounted(clock, x) && i < |x.s.running|
    ensures Accounted(clock, Release(clock, x, i, failed))
  {
    AccountKeeps(clock, x);
    var y := Account(clock, x);
    MoveToServed(y, i);
    WithoutBy(y.s.running, i, y.s.busySince);
  }

  lemma WithoutBy(js: seq<Job>, i: nat, t: int)
    requires i < |js| && JobsBy(js, t)
    ensures JobsBy(Without(js, i), t)
  {
  }

  lemma MoveToServed(y: State, i: nat)
    requires i < |y.s.running|
    ensures ServiceTime(State(y.s.(running := Without(y.s.running, i)),
                              y.h.(served := y.h.served + [Served(y.s.running[i], y.s.busySince)]))) == ServiceTime(y)
  {
    HeldWithout(y.s.running, i, y.h.resetAt, y.s.busySince);
    var done := y.h.served + [Served(y.s.running[i], y.s.busySince)];
    assert done[..|done| - 1] == y.h.served;
  }

  lemma ResetKeeps(clock: nat -> int, x: State)
    requires NonDecreasing(clock) && Accounted(clock, x)
    ensures Accounted(clock, ResetStats(clock, x))
  {
    var t := clock(x.s.readings);
    NothingAfter(x.s.running, x.h.served, t);
    assert t <= clock(x.s.readings + 1);
  }

  lemma SubmitKeeps(clock: nat -> int, x: State, id: nat)
    requires NonDecreasing(clock) && Accounted(clock, x)
    ensures Accounted(clock, Submit(clock, x, id))
  {
    assert clock(x.s.readings) <= clock(x.s.readings + 1);
    if x.s.busy < x.s.capacity {
      var req := Request(id, clock(x.s.readings));
      var y := State(x.s.(c := x.s.c.(arrivals := x.s.c.arrivals + 1), readings := x.s.readings + 1),
                     x.h.(accepted := x.h.accepted + [req]));
      assert Accounted(clock, y);
      StartKeeps(clock, y, req);
    }
  }

  lemma StepAccounted(clock: nat -> int, x: State, e: Event)
    requires NonDecreasing(clock) && Accounted(clock, x) && Enabled(x, e)
    ensures Accounted(clock, Step(clock, x, e))
  {
    match e
    case Arrival(id) => SubmitKeeps(clock, x, id);
    case Completion(job, failed) =>
      ReleaseKeeps(clock, x, job, failed);
      DrainKeeps(clock, Release(clock, x, job, failed));
    case Reconfigure(capacity, limit) =>
      DrainKeeps(clock, x.(s := x.s.(capacity := capacity, queueLimit := limit)));
    case Reset => ResetKeeps(clock, x);
    case Report => AccountKeeps(clock, x);
  }

  // ---- requests -------------------------------------------------------------------

  function Running(js: seq<Job>): (r: seq<Request>) {
    seq(|js|, i requires 0 <= i < |js| => js[i].req)
  }

  function Done(done: seq<Served>): (r: seq<Request>) {
    seq(|done|, i requires 0 <= i < |done| => done[i].job.req)
  }

  /** The started requests are those running and those served, each as often. */
  ghost predicate Kept(x: State) {
    multiset(x.h.started) == multiset(Running(x.s.running)) + multiset(Done(x.h.served))
  }

  lemma TakeOut<T>(s: seq<T>, i: nat)
    requires i < |s|
    ensures multiset(s) == multiset(s[..i] + s[i + 1..]) + multiset{s[i]}
  {
    assert s == s[..i] + [s[i]] + s[i + 1..];
  }

  lemma StartKept(clock: nat -> int, x: State, req: Request)
    requires Kept(x)
    ensures Kept(Start(clock, x, req))
  {
    var y := Start(clock, x, req);
    assert Running(y.s.running) == Running(x.s.running) + [req];
  }

  lemma {:induction false} DrainKept(clock: nat -> int, x: State)
    requires Kept(x)
    ensures Kept(Drain(clock, x))
    decreases |x.s.queue|
  {
    if x.s.queue != [] && x.s.busy < x.s.capacity {
      var y := x.(s := x.s.(queue := x.s.queue[1..]));
      StartKept(clock, y, x.s.queue[0]);
      DrainKept(clock, Start(clock, y, x.s.queue[0]));
    }
  }

  lemma SubmitKept(clock: nat -> int, x: State, id: nat)
    requires Kept(x)
    ensures Kept(Submit(clock, x, id))
  {
    if x.s.busy < x.s.capacity {
      var req := Request(id, clock(x.s.readings));
      StartKept(clock, State(x.s.(c := x.s.c.(arrivals := x.s.c.arrivals + 1), readings := x.s.readings + 1),
                             x.h.(accepted := x.h.accepted + [req])), req);
    }
  }

  lemma ReleaseKept(clock: nat -> int, x: State, i: nat, failed: bool)
    requires Kept(x) && i < |x.s.running|
    ensures Kept(Release(clock, x, i, failed))
  {
    var y := Release(clock, x, i, failed);
    var was := Running(x.s.running);
    TakeOut(was, i);
    assert Running(y.s.running) == was[..i] + was[i + 1..];
    assert Done(y.h.served) == Done(x.h.served) + [was[i]];
  }

  lemma StepKept(clock: nat -> int, x: State, e: Event)
    requires Kept(x) && Enabled(x, e)
    ensures Kept(Step(clock, x, e))
  {
    match e
    case Arrival(id) => SubmitKept(clock, x, id);
    case Completion(job, failed) =>
      ReleaseKept(clock, x, job, failed);
      DrainKept(clock, Release(clock, x, job, failed));
    case Reconfigure(capacity, limit) =>
      DrainKept(clock, x.(s := x.s.(capacity := capacity, queueLimit := limit)));
    case Reset =>
    case Report =>
  }

  /** Requests start in the order they were accepted, those not started yet are
      exactly the queue, and the counters add up. */
  ghost predicate Ordered(x: State) {
    && x.h.accepted == x.h.started + x.s.queue
    && x.s.c.arrivals + x.h.carried == x.s.c.ok + x.s.c.err + x.s.c.shed + x.s.busy + |x.s.queue|
  }

  /** The work-conserving rule: requests wait only while every slot is taken. */
  ghost predicate Saturated(x: State) {
    x.s.queue != [] ==> x.s.busy >= x.s.capacity
  }

  /** Starting a request that has been accepted and is next in order. */
  lemma StartOrdered(clock: nat -> int, x: State, req: Request)
    requires x.h.accepted == x.h.started + [req] + x.s.queue
    requires x.s.c.arrivals + x.h.carried == x.s.c.ok + x.s.c.err + x.s.c.shed + x.s.busy + 1 + |x.s.queue|
    ensures Ordered(Start(clock, x, req))
  {
  }

  lemma {:induction false} DrainOrdered(clock: nat -> int, x: State)
    requires Ordered(x)
    ensures Ordered(Drain(clock, x)) && Saturated(Drain(clock, x))
    decreases |x.s.queue|
  {
    if x.s.queue != [] && x.s.busy < x.s.capacity {
      var y := x.(s := x.s.(queue := x.s.queue[1..]));
      assert x.s.queue == [x.s.queue[0]] + y.s.queue;
      assert x.h.started + x.s.queue == x.h.started + [x.s.queue[0]] + y.s.queue;
      StartOrdered(clock, y, x.s.queue[0]);
      DrainOrdered(clock, Start(clock, y, x.s.queue[0]));
    }
  }

  lemma ReleaseOrdered(clock: nat -> int, x: State, i: nat, failed: bool)
    requires Ordered(x) && i < |x.s.running|
    ensures Ordered(Release(clock, x, i, failed))
  {
  }

  lemma SubmitOrdered(clock: nat -> int, x: State, id: nat)
    requires Ordered(x) && Saturated(x)
    ensures Ordered(Submit(clock, x, id)) && Saturated(Submit(clock, x, id))
  {
    var req := Request(id, clock(x.s.readings));
    if x.s.busy < x.s.capacity {
      var y := State(x.s.(c := x.s.c.(arrivals := x.s.c.arrivals + 1), readings := x.s.readings + 1),
                     x.h.(accepted := x.h.accepted + [req]));
      assert y.h.accepted == y.h.started + [req] + y.s.queue;
      StartOrdered(clock, y, req);
    } else {
      assert x.h.accepted + [req] == x.h.started + (x.s.queue + [req]);
    }
  }

  lemma StepOrdered(clock: nat -> int, x: State, e: Event)
    requires Ordered(x) && Saturated(x) && Enabled(x, e)
    ensures Ordered(Step(clock, x, e)) && Saturated(Step(clock, x, e))
  {
    match e
    case Arrival(id) => SubmitOrdered(clock, x, id);
    case Completion(job, failed) =>
      ReleaseOrdered(clock, x, job, failed);
      DrainOrdered(clock, Release(clock, x, job, failed));
    case Reconfigure(capacity, limit) =>
      DrainOrdered(clock, x.(s := x.s.(capacity := capacity, queueLimit := limit)));
    case Reset =>
    case Report =>
  }

  // ---- running work is never pre-empted ---------------------------------------------

  /** Draining only adds jobs, and never past the capacity. */
  lemma {:induction false} DrainOnlyAdds(clock: nat -> int, x: State)
    ensures x.s.running <= Drain(clock, x).s.running
    ensures Drain(clock, x).s.busy <= (if x.s.busy < x.s.capacity then x.s.capacity else x.s.busy)
    ensures Drain(clock, x).s.capacity == x.s.capacity
    decreases |x.s.queue|
  {
    if x.s.queue != [] && x.s.busy < x.s.capacity {
      DrainOnlyAdds(clock, Start(clock, x.(s := x.s.(queue := x.s.queue[1..])), x.s.queue[0]));
    }
  }

  /** Only a completion takes a job off its slot, and then only that one; and a step
      that ends above the capacity it left behind started nothing. */
  lemma NeverPreempts(clock: nat -> int, x: State, e: Event)
    requires Enabled(x, e)
    ensures !e.Completion? ==> x.s.running <= Step(clock, x, e).s.running
    ensures e.Completion? ==> Without(x.s.running, e.job) <= Step(clock, x, e).s.running
    ensures Step(clock, x, e).s.busy > Step(clock, x, e).s.capacity ==> Step(clock, x, e).s.busy <= x.s.busy
  {
    match e
    case Arrival(id) =>
    case Completion(job, failed) => DrainOnlyAdds(clock, Release(clock, x, job, failed));
    case Reconfigure(capacity, limit) =>
      DrainOnlyAdds(clock, x.(s := x.s.(capacity := capacity, queueLimit := limit)));
    case Reset =>
    case Report =>
  }

  // ---- runs ---------------------------------------------------------------------------

  datatype Run = Run(clock: nat -> int, events: seq<Event>, states: seq<State>)

  ghost predicate StepAt(r: Run, i: nat)
    requires i < |r.events| && |r.states| == |r.events| + 1
  {
    Enabled(r.states[i], r.events[i]) && r.states[i + 1] == Step(r.clock, r.states[i], r.events[i])
  }

  ghost predicate IsRun(r: Run, capacity: int, queueLimit: int) {
    && NonDecreasing(r.clock)
    && |r.states| == |r.events| + 1
    && r.states[0] == Initial(r.clock, capacity, queueLimit)
    && forall i :: 0 <= i < |r.events| ==> StepAt(r, i)
  }

  lemma {:induction false} RunInvariant(r: Run, capacity: int, queueLimit: int, n: nat)
    requires IsRun(r, capacity, queueLimit) && n <= |r.events|
    ensures Ordered(r.states[n]) && Saturated(r.states[n]) && Accounted(r.clock, r.states[n])
  {
    if n == 0 {
      assert r.clock(0) <= r.clock(1);
    } else {
      RunInvariant(r, capacity, queueLimit, n - 1);
      assert StepAt(r, n - 1);
      StepOrdered(r.clock, r.states[n - 1], r.events[n - 1]);
      StepAccounted(r.clock, r.states[n - 1], r.events[n - 1]);
    }
  }

  lemma {:induction false} RunKept(r: Run, capacity: int, queueLimit: int, n: nat)
    requires IsRun(r, capacity, queueLimit) && n <= |r.events|
    ensures Kept(r.states[n])
  {
    if n > 0 {
      RunKept(r, capacity, queueLimit, n - 1);
      assert StepAt(r, n - 1);
      StepKept(r.clock, r.states[n - 1], r.events[n - 1]);
    }
  }

  /** After every event of every run: waiting requests mean a full server, accepted
      requests start in arrival order, each started one is running or served, every
      arrival is accounted for, and the busy integral is the slot time since the
      last reset. */
  lemma ServerLaws(r: Run, capacity: int, queueLimit: int, n: nat)
    requires IsRun(r, capacity, queueLimit) && n <= |r.events|
    ensures var x := r.states[n];
            && (x.s.queue != [] ==> x.s.busy >= x.s.capacity)
            && x.h.accepted == x.h.started + x.s.queue
            && x.s.busy == |x.s.running|
            && x.s.c.arrivals + x.h.carried == x.s.c.ok + x.s.c.err + x.s.c.shed + x.s.busy + |x.s.queue|
            && x.s.integral == ServiceTime(x)
            && multiset(x.h.started) == multiset(Running(x.s.running)) + multiset(Done(x.h.served))
  {
    RunInvariant(r, capacity, queueLimit, n);
    RunKept(r, capacity, queueLimit, n);
  }
}
