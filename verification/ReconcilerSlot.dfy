/** One backend slot of the live-mode reconciler (bridge/reconciler.py) together
    with the part of the outside world that belongs to it: the load balancer's
    admin state for the slot, its GRE link, and every responder process ever
    spawned in it. */
module ReconcilerSlot {
  import opened Wrappers

  const DRAIN_QUIET_MS: int := 1000
  const DRAIN_MAX_MS: int := 30000
  const STOP_KILL_AFTER_MS: int := 2000

  /** A canvas id, standing for its rank in the sort order of ids. */
  type Id = nat
  type Config = int

  datatype Phase = Free | Starting | Serving | Unhealthy | Draining | Stopping | Crashed

  datatype Fault = Crash | Slow(factor: int) | Errors(rate: int) | Partition

  /** `killed` processes have been sent SIGKILL but are still seen alive. */
  datatype Proc = Running | Killed | Dead

  datatype Slot = Slot(
    owner: Option<Id>, phase: Phase, handle: Option<nat>, config: Option<Config>, fault: Option<Fault>,
    manualDrain: bool, removing: bool, drainSince: Option<int>, quietSince: Option<int>, stopSince: Option<int>,
    killed: bool, partitioned: bool)

  /** `undrains` counts UNDRAIN commands; a handle is an index into `procs`. */
  datatype World = World(drained: bool, undrains: nat, greUp: bool, procs: seq<Proc>)

  datatype Cell = Cell(s: Slot, w: World)

  datatype Backend = Backend(attached: bool, cfg: Config)

  type Desired = map<Id, Backend>

  predicate Active(desired: Desired, id: Id) {
    id in desired && desired[id].attached
  }

  /** `Slot.clear` */
  function Cleared(): Slot {
    Slot(None, Free, None, None, None, false, false, None, None, None, false, false)
  }

  predicate Alive(c: Cell) {
    c.s.handle.Some? && c.s.handle.value < |c.w.procs| && c.w.procs[c.s.handle.value] != Dead
  }

  /** Looking at the current process; it may turn out to have exited. */
  function Poll(c: Cell, exited: bool): Cell {
    if exited && c.s.handle.Some? && c.s.handle.value < |c.w.procs|
    then c.(w := c.w.(procs := c.w.procs[c.s.handle.value := Dead])) else c
  }

  function Kill(c: Cell): Cell {
    if Alive(c) then c.(w := c.w.(procs := c.w.procs[c.s.handle.value := Killed])) else c
  }

  function Drain(c: Cell): Cell {
    c.(w := c.w.(drained := true))
  }

  function Undrain(c: Cell): Cell {
    c.(w := c.w.(drained := false, undrains := c.w.undrains + 1))
  }

  function SetGre(c: Cell, up: bool): Cell {
    c.(w := c.w.(greUp := up))
  }

  /** `_spawn` */
  function Spawn(c: Cell, cfg: Config): Cell {
    Cell(c.s.(handle := Some(|c.w.procs|), config := Some(cfg), phase := Starting, killed := false),
         c.w.(procs := c.w.procs + [Running]))
  }

  /** `_clear_fault` */
  function ClearFault(c: Cell, desired: Desired): Cell {
    var c0 := c.(s := c.s.(fault := None));
    if c.s.fault == Some(Crash) && c.s.owner.Some? && c.s.owner.value in desired then
      Spawn(c0, desired[c.s.owner.value].cfg)
    else if c.s.fault == Some(Partition) && c.s.partitioned then
      var c1 := SetGre(c0, true);
      c1.(s := c1.s.(partitioned := false))
    else c0
  }

  datatype Action =
    DoCrash | DoSlow(factor: int) | DoErrors(rate: int) | DoPartition | DoRestart | DoClear | DoDrain | DoUndrain

  predicate InjectsFault(a: Action) {
    a.DoCrash? || a.DoSlow? || a.DoErrors? || a.DoPartition?
  }

  /** `action`, once its target slot is found to be running. */
  function Act(c: Cell, a: Action, desired: Desired, exited: bool): Cell {
    var c0 := if InjectsFault(a) then ClearFault(c, desired) else c;
    match a
    case DoCrash =>
      var c1 := Kill(Poll(c0, exited));
      c1.(s := c1.s.(killed := true, phase := Crashed, fault := Some(Crash)))
    case DoSlow(f) => c0.(s := c0.s.(fault := Some(Slow(f))))
    case DoErrors(r) => c0.(s := c0.s.(fault := Some(Errors(r))))
    case DoPartition =>
      var c1 := SetGre(c0, false);
      c1.(s := c1.s.(partitioned := true, fault := Some(Partition)))
    case DoRestart => ClearFault(c, desired)
    case DoClear => ClearFault(c, desired)
    case DoDrain =>
      var c1 := Drain(c0);
      c1.(s := c1.s.(manualDrain := true,
                     phase := if c1.s.phase in {Serving, Unhealthy, Starting} then Draining else c1.s.phase))
    case DoUndrain =>
      var c1 := Undrain(c0);
      c1.(s := c1.s.(manualDrain := false, phase := if c1.s.phase == Draining then Serving else c1.s.phase))
  }

  /** `reset`, for one slot. */
  function Reset(c: Cell, desired: Desired): Cell {
    if c.s.owner.None? || c.s.removing then c else
      var c0 := ClearFault(c, desired);
      if !c0.s.manualDrain then c0 else
        var c1 := Undrain(c0);
        c1.(s := c1.s.(manualDrain := false, phase := if c1.s.phase == Draining then Serving else c1.s.phase))
  }

  /** `_begin_stop` */
  function BeginStop(c: Cell, now: int, exited: bool): Cell {
    var c0 := Poll(c, exited);
    c0.(s := c0.s.(phase := Stopping, stopSince := Some(now)))
  }

  /** What one step observes of a slot: the four polls of its process, the load
      balancer's report, and whether its responder is idle. */
  datatype Obs = Obs(exitedAtRemoval: bool, exitedAtRemovalStop: bool, exitedAtProgress: bool, exitedAtStop: bool,
                     up: bool, adminEnabled: bool, idle: bool)

  /** The removal pass of `_step_backends`. */
  function Removal(c: Cell, desired: Desired, now: int, o: Obs): Cell {
    if c.s.owner.None? then c
    else if !Active(desired, c.s.owner.value) && !c.s.removing then
      var c0 := Poll(c.(s := c.s.(removing := true, manualDrain := false)), o.exitedAtRemoval);
      if Alive(c0) && c0.s.phase != Crashed then
        var c1 := Drain(c0);
        c1.(s := c1.s.(phase := Draining, drainSince := Some(now), quietSince := None))
      else BeginStop(c0, now, o.exitedAtRemovalStop)
    else if Active(desired, c.s.owner.value) && c.s.removing && c.s.phase == Draining then
      var c1 := Undrain(c);
      c1.(s := c1.s.(removing := false, phase := Serving))
    else c
  }

  /** Python truth of `quiet_since`: neither None nor 0. */
  predicate Truthy(t: Option<int>) {
    t.Some? && t.value != 0
  }

  predicate Elapsed(since: Option<int>, now: int, ms: int) {
    since.Some? && now - since.value >= ms
  }

  predicate IsUpPhase(p: Phase) {
    p == Starting || p == Serving || p == Unhealthy || p == Draining
  }

  function ProgressDrain(c: Cell, now: int, o: Obs): Cell {
    var q := if !o.idle then None else if Truthy(c.s.quietSince) then c.s.quietSince else Some(now);
    var c0 := c.(s := c.s.(quietSince := q));
    if (Truthy(q) && Elapsed(q, now, DRAIN_QUIET_MS)) || Elapsed(c.s.drainSince, now, DRAIN_MAX_MS)
    then BeginStop(c0, now, o.exitedAtStop) else c0
  }

  function ProgressStop(c: Cell, now: int, o: Obs): Cell {
    if Alive(c) then (if Elapsed(c.s.stopSince, now, STOP_KILL_AFTER_MS) then Kill(c) else c)
    else if o.up then c
    else
      var c1 := Undrain(c);
      var c2 := if c1.s.partitioned then SetGre(c1, true) else c1;
      c2.(s := Cleared())
  }

  /** The phase changes of the progress pass. */
  function ProgressPhase(c: Cell, now: int, o: Obs): Cell {
    if c.s.phase == Starting && o.up && o.adminEnabled then
      c.(s := c.s.(phase := if c.s.manualDrain then Draining else Serving))
    else if c.s.phase == Serving && !o.up then c.(s := c.s.(phase := Unhealthy))
    else if c.s.phase == Unhealthy && o.up then c.(s := c.s.(phase := Serving))
    else if c.s.phase == Draining && c.s.removing then ProgressDrain(c, now, o)
    else if c.s.phase == Stopping then ProgressStop(c, now, o)
    else c
  }

  /** The progress pass of `_step_backends`. */
  function Progress(c: Cell, desired: Desired, now: int, o: Obs): Cell {
    if c.s.owner.None? then c else
      var c0 := Poll(c, o.exitedAtProgress);
      var alive := Alive(c0);
      if IsUpPhase(c0.s.phase) && !alive && !c0.s.removing then
        c0.(s := c0.s.(phase := Crashed, fault := if c0.s.fault.None? then Some(Crash) else c0.s.fault))
      else
        var c1 := ProgressPhase(c0, now, o);
        if alive && IsUpPhase(c1.s.phase) && c1.s.owner.Some? && c1.s.owner.value in desired && !c1.s.removing
        then c1.(s := c1.s.(config := Some(desired[c1.s.owner.value].cfg))) else c1
  }

  /** An addition takes a free slot. */
  function Assign(c: Cell, id: Id, cfg: Config): Cell {
    Spawn(c.(s := c.s.(owner := Some(id))), cfg)
  }

  // ------------------------------------------------------------ what every slot keeps

  /** Every process but the current one is dead or has been killed. */
  ghost predicate OthersGone(c: Cell) {
    && (c.s.handle.Some? ==> c.s.handle.value < |c.w.procs|)
    && forall p :: 0 <= p < |c.w.procs| && c.s.handle != Some(p) ==> c.w.procs[p] != Running
  }

  /** The current process is dead or has been killed. */
  predicate CurrentGone(c: Cell) {
    c.s.handle.Some? && c.s.handle.value < |c.w.procs| && c.w.procs[c.s.handle.value] != Running
  }

  ghost predicate CellOk(c: Cell) {
    && OthersGone(c)
    && (c.s.owner.None? <==> c.s.phase == Free)
    && (c.s.phase == Free ==> c.s == Cleared() && !c.w.drained)
    && (c.s.phase != Free ==> c.s.handle.Some?)
    && (!c.s.removing ==> (c.w.drained <==> c.s.manualDrain))
    && (c.s.removing ==> !c.s.manualDrain && (c.s.phase == Draining || c.s.phase == Stopping))
    && (c.s.phase == Stopping ==> c.s.removing && c.s.stopSince.Some?)
    && (c.s.phase == Draining && c.s.removing ==> c.w.drained && c.s.drainSince.Some?)
    && (!c.w.greUp <==> c.s.partitioned)
    && (c.s.partitioned <==> c.s.fault == Some(Partition))
    && (c.s.fault == Some(Crash) ==> CurrentGone(c) && (c.s.phase == Stopping || c.s.phase == Crashed))
  }

  /** A free slot is enabled in the load balancer, its tunnel is up and nothing
      runs in it. */
  lemma FreeSlotIsClean(c: Cell)
    requires CellOk(c) && c.s.owner.None?
    ensures !c.w.drained && c.w.greUp && forall p :: 0 <= p < |c.w.procs| ==> c.w.procs[p] != Running
  {
  }

  lemma PollOk(c: Cell, exited: bool)
    requires CellOk(c)
    ensures CellOk(Poll(c, exited))
  {
  }

  /** A responder is replaced only after it died or was killed. */
  lemma ClearFaultOk(c: Cell, desired: Desired)
    requires CellOk(c) && !c.s.removing && c.s.owner.Some?
    ensures CellOk(ClearFault(c, desired)) && ClearFault(c, desired).s.owner == c.s.owner
    ensures !ClearFault(c, desired).s.removing && ClearFault(c, desired).s.fault.None?
  {
  }

  lemma CrashOk(c: Cell, exited: bool)
    requires CellOk(c) && !c.s.removing && c.s.owner.Some? && c.s.fault.None?
    ensures var c1 := Kill(Poll(c, exited));
            CellOk(c1.(s := c1.s.(killed := true, phase := Crashed, fault := Some(Crash))))
  {
  }

  lemma PartitionOk(c: Cell)
    requires CellOk(c) && !c.s.removing && c.s.owner.Some? && c.s.fault.None?
    ensures var c1 := SetGre(c, false);
            CellOk(c1.(s := c1.s.(partitioned := true, fault := Some(Partition))))
  {
  }

  lemma ActOk(c: Cell, a: Action, desired: Desired, exited: bool)
    requires CellOk(c) && !c.s.removing && c.s.owner.Some?
    ensures CellOk(Act(c, a, desired, exited)) && Act(c, a, desired, exited).s.owner == c.s.owner
  {
    ClearFaultOk(c, desired);
    match a
    case DoCrash => CrashOk(ClearFault(c, desired), exited);
    case DoPartition => PartitionOk(ClearFault(c, desired));
    case _ =>
  }

  lemma ResetOk(c: Cell, desired: Desired)
    requires CellOk(c)
    ensures CellOk(Reset(c, desired)) && Reset(c, desired).s.owner == c.s.owner
  {
    if c.s.owner.Some? && !c.s.removing {
      ClearFaultOk(c, desired);
    }
  }

  lemma RemovalOk(c: Cell, desired: Desired, now: int, o: Obs)
    requires CellOk(c)
    ensures CellOk(Removal(c, desired, now, o)) && Removal(c, desired, now, o).s.owner == c.s.owner
  {
  }

  lemma ProgressDrainOk(c: Cell, now: int, o: Obs)
    requires CellOk(c) && c.s.phase == Draining && c.s.removing
    ensures CellOk(ProgressDrain(c, now, o)) && ProgressDrain(c, now, o).s.owner == c.s.owner
  {
  }

  lemma ProgressStopOk(c: Cell, now: int, o: Obs)
    requires CellOk(c) && c.s.phase == Stopping
    ensures CellOk(ProgressStop(c, now, o))
    ensures ProgressStop(c, now, o).s.owner == c.s.owner || ProgressStop(c, now, o).s.owner.None?
  {
  }

  lemma ProgressPhaseOk(c: Cell, now: int, o: Obs)
    requires CellOk(c)
    ensures CellOk(ProgressPhase(c, now, o))
    ensures ProgressPhase(c, now, o).s.owner == c.s.owner || ProgressPhase(c, now, o).s.owner.None?
  {
    if c.s.phase == Draining && c.s.removing {
      ProgressDrainOk(c, now, o);
    } else if c.s.phase == Stopping {
      ProgressStopOk(c, now, o);
    }
  }

  lemma DiedOk(c: Cell)
    requires CellOk(c)
    ensures IsUpPhase(c.s.phase) && !Alive(c) && !c.s.removing ==>
              CellOk(c.(s := c.s.(phase := Crashed, fault := if c.s.fault.None? then Some(Crash) else c.s.fault)))
  {
  }

  lemma ConfigOk(c: Cell, cfg: Config)
    requires CellOk(c) && c.s.phase != Free
    ensures CellOk(c.(s := c.s.(config := Some(cfg))))
  {
  }

  lemma ProgressOk(c: Cell, desired: Desired, now: int, o: Obs)
    requires CellOk(c)
    ensures CellOk(Progress(c, desired, now, o))
    ensures Progress(c, desired, now, o).s.owner == c.s.owner || Progress(c, desired, now, o).s.owner.None?
  {
    var c0 := Poll(c, o.exitedAtProgress);
    PollOk(c, o.exitedAtProgress);
    ProgressPhaseOk(c0, now, o);
    if c.s.owner.Some? {
      DiedOk(c0);
      var c1 := ProgressPhase(c0, now, o);
      if c1.s.owner.Some? && c1.s.owner.value in desired {
        ConfigOk(c1, desired[c1.s.owner.value].cfg);
      }
    }
  }

  lemma AssignOk(c: Cell, id: Id, cfg: Config)
    requires CellOk(c) && c.s.phase == Free
    ensures CellOk(Assign(c, id, cfg)) && Assign(c, id, cfg).s.owner == Some(id)
  {
  }

  // ------------------------------------------------------------ removal: safety and progress

  /** A removal pass sends UNDRAIN only to cancel the drain of a re-added id. */
  lemma RemovalUndrain(c: Cell, desired: Desired, now: int, o: Obs)
    ensures var c' := Removal(c, desired, now, o);
            c'.w.undrains != c.w.undrains ==>
              && c.s.removing && c.s.phase == Draining && c.s.owner.Some? && Active(desired, c.s.owner.value)
              && !c'.s.removing && c'.s.phase == Serving
  {
  }

  /** A progress pass sends UNDRAIN only when it frees the slot, with the process
      gone and the load balancer reporting it down. */
  lemma ProgressUndrain(c: Cell, desired: Desired, now: int, o: Obs)
    ensures var c' := Progress(c, desired, now, o);
            c'.w.undrains != c.w.undrains ==>
              c.s.phase == Stopping && c'.s.phase == Free && !Alive(Poll(c, o.exitedAtProgress)) && !o.up
  {
  }

  /** A drain that is not cancelled ends by the first step DRAIN_MAX_MS after it began. */
  lemma DrainEnds(c: Cell, desired: Desired, now: int, o: Obs)
    requires CellOk(c) && c.s.removing && c.s.phase == Draining
    requires now - c.s.drainSince.value >= DRAIN_MAX_MS
    ensures Progress(c, desired, now, o).s.phase == Stopping
  {
  }

  /** A process that outlives its stop by STOP_KILL_AFTER_MS is killed. */
  lemma StopKills(c: Cell, desired: Desired, now: int, o: Obs)
    requires CellOk(c) && c.s.phase == Stopping && Alive(Poll(c, o.exitedAtProgress))
    requires now - c.s.stopSince.value >= STOP_KILL_AFTER_MS
    ensures var c' := Progress(c, desired, now, o);
            c'.s.handle == c.s.handle && c'.w.procs[c.s.handle.value] == Killed
  {
  }

  /** Restarting a backend whose process is gone brings it back exactly when its
      recorded fault is the crash: a process that died under another fault keeps
      that fault, and clearing it spawns nothing. */
  lemma RestartRevivesIff(c: Cell, desired: Desired, exited: bool)
    requires CellOk(c) && c.s.owner.Some? && c.s.owner.value in desired && !c.s.removing && !Alive(c)
    ensures Alive(Act(c, DoRestart, desired, exited)) <==> c.s.fault == Some(Crash)
  {
  }
}
