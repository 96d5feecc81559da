/** The responder itself: fields updated in place, with its two drain loops. */
module ServiceServer {
  import opened ServerSpec
  import opened ServerRuns

  class Responder {
    const clock: nat -> int
    var capacity: int
    var queueLimit: int
    var busy: int
    var queue: seq<Request>
    var running: seq<Job>
    var c: Counters
    var integral: int
    var busySince: int
    var readings: nat
    ghost var history: History

    ghost function Abs(): (x: State)
      reads this
    {
      State(Server(capacity, queueLimit, busy, queue, running, c, integral, busySince, readings), history)
    }

    constructor (clock: nat -> int, capacity: int, queueLimit: int)
      ensures this.clock == clock && Abs() == Initial(clock, capacity, queueLimit)
    {
      this.clock := clock;
      this.capacity, this.queueLimit := capacity, queueLimit;
      busy, queue, running, c := 0, [], [], Counters(0, 0, 0, 0);
      integral, busySince, readings := 0, clock(0), 1;
      history := History([], [], [], clock(0), 0);
    }

    method Now() returns (t: int)
      modifies this`readings
      ensures t == clock(old(readings)) && readings == old(readings) + 1
    {
      t := clock(readings);
      readings := readings + 1;
    }

    method AccountBusy()
      modifies this
      ensures Abs() == ServerSpec.Account(clock, old(Abs()))
    {
      var t := Now();
      integral := integral + busy * (t - busySince);
      busySince := t;
    }

    method StartServing(req: Request)
      modifies this
      ensures Abs() == ServerSpec.Start(clock, old(Abs()), req)
    {
      AccountBusy();
      busy := busy + 1;
      running := running + [Job(req, busySince)];
      history := history.(started := history.started + [req]);
    }

    method DrainQueue()
      modifies this
      ensures Abs() == ServerSpec.Drain(clock, old(Abs()))
      ensures queue != [] ==> busy >= capacity
    {
      ghost var x := Abs();
      while queue != [] && busy < capacity
        invariant ServerSpec.Drain(clock, Abs()) == ServerSpec.Drain(clock, x)
        decreases |queue|
      {
        ghost var y := Abs();
        var next := queue[0];
        queue := queue[1..];
        StartServing(next);
        assert Abs() == ServerSpec.Start(clock, y.(s := y.s.(queue := y.s.queue[1..])), y.s.queue[0]);
      }
    }

    method Submit(id: nat)
      modifies this
      ensures Abs() == ServerSpec.Submit(clock, old(Abs()), id)
    {
      c := c.(arrivals := c.arrivals + 1);
      if busy < capacity {
        var t := Now();
        history := history.(accepted := history.accepted + [Request(id, t)]);
        StartServing(Request(id, t));
      } else if |queue| < queueLimit {
        var t := Now();
        history := history.(accepted := history.accepted + [Request(id, t)]);
        queue := queue + [Request(id, t)];
      } else {
        c := c.(shed := c.shed + 1);
      }
    }

    /** What `_serve` does once its sleep is over, for running job i. */
    method Finish(i: nat, failed: bool)
      requires i < |running|
      modifies this
      ensures Abs() == ServerSpec.Finish(clock, old(Abs()), i, failed)
    {
      if failed {
        c := c.(err := c.err + 1);
      } else {
        c := c.(ok := c.ok + 1);
      }
      AccountBusy();
      busy := busy - 1;
      history := history.(served := history.served + [Served(running[i], busySince)]);
      running := running[..i] + running[i + 1..];
      DrainQueue();
    }

    method Configure(capacity: int, queueLimit: int)
      modifies this
      ensures Abs() == ServerSpec.Configure(clock, old(Abs()), capacity, queueLimit)
    {
      this.capacity, this.queueLimit := capacity, queueLimit;
      DrainQueue();
    }

    method ResetStats()
      modifies this
      ensures Abs() == ServerSpec.ResetStats(clock, old(Abs()))
    {
      history := history.(carried := busy + |queue|);
      c := Counters(0, 0, 0, 0);
      integral := 0;
      busySince := Now();
      history := history.(resetAt := busySince);
    }

    /** One event of a run, keeping the laws of ServerRuns. */
    method Handle(e: Event)
      requires NonDecreasing(clock) && Enabled(Abs(), e)
      requires Ordered(Abs()) && Saturated(Abs()) && Accounted(clock, Abs())
      modifies this
      ensures Abs() == Step(clock, old(Abs()), e)
      ensures Ordered(Abs()) && Saturated(Abs()) && Accounted(clock, Abs())
    {
      StepOrdered(clock, Abs(), e);
      StepAccounted(clock, Abs(), e);
      match e
      case Arrival(id) => Submit(id);
      case Completion(job, failed) => Finish(job, failed);
      case Reconfigure(capacity, limit) => Configure(capacity, limit);
      case Reset => ResetStats();
      case Report => AccountBusy();
    }
  }
}
