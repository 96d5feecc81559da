/** The capacity and queue model of a responder (bridge/service_server.py:73-152).

    `clock(n)` is the n-th reading of the monotonic clock that the accounting
    takes, so any timing of the events is some non-decreasing `clock`. */
module ServerSpec {

  datatype Request = Request(id: nat, enqueued: int)

  /** A request being served, with the reading at which it took its slot. */
  datatype Job = Job(req: Request, from: int)

  /** A served request, with the reading at which it gave its slot back. */
  datatype Served = Served(job: Job, till: int)

  datatype Counters = Counters(arrivals: nat, ok: nat, err: nat, shed: nat)

  datatype Server = Server(capacity: int, queueLimit: int, busy: int, queue: seq<Request>, running: seq<Job>,
                           c: Counters, integral: int, busySince: int, readings: nat)

  /** What happened so far, kept apart from the server's own fields: the accepted
      and the started requests in order, the served ones, the reading taken by the
      last reset, and the requests in flight at that reset. */
  datatype History = History(accepted: seq<Request>, started: seq<Request>, served: seq<Served>, resetAt: int,
                             carried: int)

  datatype State = State(s: Server, h: History)

  function Initial(clock: nat -> int, capacity: int, queueLimit: int): (x: State) {
    State(Server(capacity, queueLimit, 0, [], [], Counters(0, 0, 0, 0), 0, clock(0), 1),
          History([], [], [], clock(0), 0))
  }

  /** `_account_busy`. */
  function Account(clock: nat -> int, x: State): State {
    var t := clock(x.s.readings);
    x.(s := x.s.(integral := x.s.integral + x.s.busy * (t - x.s.busySince), busySince := t,
                 readings := x.s.readings + 1))
  }

  /** `_start`. */
  function Start(clock: nat -> int, x: State, req: Request): State {
    var y := Account(clock, x);
    State(y.s.(busy := y.s.busy + 1, running := y.s.running + [Job(req, y.s.busySince)]),
          y.h.(started := y.h.started + [req]))
  }

  /** The drain loop: queued requests start while capacity is left. */
  function Drain(clock: nat -> int, x: State): (y: State)
    decreases |x.s.queue|
  {
    if x.s.queue == [] || x.s.busy >= x.s.capacity then x else
      Drain(clock, Start(clock, x.(s := x.s.(queue := x.s.queue[1..])), x.s.queue[0]))
  }

  /** `submit`. */
  function Submit(clock: nat -> int, x: State, id: nat): State {
    var y := x.(s := x.s.(c := x.s.c.(arrivals := x.s.c.arrivals + 1)));
    var req := Request(id, clock(x.s.readings));
    if x.s.busy < x.s.capacity then
      Start(clock, State(y.s.(readings := y.s.readings + 1), y.h.(accepted := y.h.accepted + [req])), req)
    else if |x.s.queue| < x.s.queueLimit then
      State(y.s.(readings := y.s.readings + 1, queue := y.s.queue + [req]), y.h.(accepted := y.h.accepted + [req]))
    else
      y.(s := y.s.(c := y.s.c.(shed := y.s.c.shed + 1)))
  }

  function Without(js: seq<Job>, i: nat): seq<Job>
    requires i < |js|
  {
    js[..i] + js[i + 1..]
  }

  /** The end of `_serve` for running job i, up to its drain loop. */
  function Release(clock: nat -> int, x: State, i: nat, failed: bool): State
    requires i < |x.s.running|
  {
    var c := if failed then x.s.c.(err := x.s.c.err + 1) else x.s.c.(ok := x.s.c.ok + 1);
    var y := Account(clock, x.(s := x.s.(c := c)));
    State(y.s.(busy := y.s.busy - 1, running := Without(y.s.running, i)),
          y.h.(served := y.h.served + [Served(x.s.running[i], y.s.busySince)]))
  }

  function Finish(clock: nat -> int, x: State, i: nat, failed: bool): State
    requires i < |x.s.running|
  {
    Drain(clock, Release(clock, x, i, failed))
  }

  /** The `config` command. */
  function Configure(clock: nat -> int, x: State, capacity: int, queueLimit: int): State {
    Drain(clock, x.(s := x.s.(capacity := capacity, queueLimit := queueLimit)))
  }

  function ResetStats(clock: nat -> int, x: State): State {
    var t := clock(x.s.readings);
    State(x.s.(c := Counters(0, 0, 0, 0), integral := 0, busySince := t, readings := x.s.readings + 1),
          x.h.(resetAt := t, carried := x.s.busy + |x.s.queue|))
  }

  datatype Event =
    | Arrival(id: nat)
    | Completion(job: nat, failed: bool)
    | Reconfigure(capacity: int, queueLimit: int)
    | Reset
    | Report

  ghost predicate Enabled(x: State, e: Event) {
    e.Completion? ==> e.job < |x.s.running|
  }

  function Step(clock: nat -> int, x: State, e: Event): State
    requires Enabled(x, e)
  {
    match e
    case Arrival(id) => Submit(clock, x, id)
    case Completion(job, failed) => Finish(clock, x, job, failed)
    case Reconfigure(capacity, limit) => Configure(clock, x, capacity, limit)
    case Reset => ResetStats(clock, x)
    case Report => Account(clock, x)
  }

  ghost predicate NonDecreasing(clock: nat -> int) {
    forall i, j :: 0 <= i <= j ==> clock(i) <= clock(j)
  }
}
