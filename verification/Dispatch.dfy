/** The dispatch protocol between schedulers and workers: a status word per worker, changed by separate atomic loads
    and stores, a wake-up interrupt, and completion-queue arming. Every load, store, interrupt, arm and reschedule is
    a step of its own, and the steps of all schedulers and workers interleave freely. */
module Dispatch {
  import opened Words
  import RingProtocol
  import opened Accounting

  datatype Status = OFF | FREE | HANG

  /** A scheduler's queue, named by the scheduler and its index there. */
  datatype Queue = Queue(sch: nat, idx: nat)

  datatype Option<+T> = None | Some(value: T)

  /** Any number of schedulers with the same number of queues; each worker's handler and the number of its CQ;
      `reenters` admits activations of each scheduler after its first; `leftover` is what the counters hold before. */
  datatype Config = Config(schedulers: nat, queues: nat, tenants: nat,
                           variant: nat -> RingProtocol.Variant, cqNumber: nat -> nat, reenters: nat -> bool,
                           leftover: nat -> nat)

  /** An offload_dispatch_info, with the history of its counter and of the interrupts sent for it. */
  datatype Cell = Cell(status: Status, tenant: Option<Queue>, busy: nat, measured: nat, drained: nat, irqs: nat)

  datatype WorkerPc =
    | Parked | Entry | StoreFree | StepOwnCq | Spin | LoadTenant | Loop | Counted | Arm | StoreOff | Reschedule

  /** A worker: its next access, its CQ's arming, whether an activation is pending, the queue it loaded, the
      not_first_run flag of flexio_pp_dev_2, and the history of how often it has been activated. */
  datatype Worker = Worker(pc: WorkerPc, armed: bool, pending: bool, tenant: Option<Queue>, ranBefore: bool,
                           activations: nat)

  /** The scheduler's next access; `j` is its loop index. */
  datatype SchedPc =
    | ResetBusy(j: nat) | WakeLoad(j: nat) | WakeSend(j: nat) | PublishTenant(j: nat) | PublishHang(j: nat)
    | ClockTest
    | VisitLoad(j: nat) | VisitSend(j: nat) | VisitHang(j: nat) | VisitReload(j: nat) | ReleaseHang(j: nat)
    | Drain(j: nat)
    | Done

  /** A scheduler: `used` is tenant_cycle_used; `report` lists what the current report has drained, queue by queue, and
      `reported` sums up all reports so far. */
  datatype Scheduler = Scheduler(pc: SchedPc, used: seq<nat>, report: seq<nat>, reported: nat)

  datatype State = State(scheds: seq<Scheduler>, cells: seq<Cell>, workers: seq<Worker>)

  datatype Action =
    | SchedStep(i: nat, choice: bool)            // `choice` is what a comparison with the clock says
    | WorkerAct(t: nat, delta: nat, late: bool)  // `delta` is a measured cycle count
    | Arrival(t: nat)                            // a CQE on the worker's own CQ: an interrupt if the CQ is armed
    | Spurious(t: nat)                           // an activation nobody asked for
    | Start(t: nat)                              // a pending activation takes effect

  /** thd_id of the scheduler loops. */
  function Thd(c: Config, i: nat, j: nat): nat {
    i * c.queues + j
  }

  function Send(w: Worker): Worker {
    if w.armed then w.(armed := false, pending := true) else w
  }

  /** flexio_dev_msix_send to the worker's CQ, behind the test of its cq_number. */
  function SendIfNumbered(c: Config, t: nat, cell: Cell, w: Worker): (Cell, Worker) {
    if c.cqNumber(t) != 0 then (cell.(irqs := cell.irqs + 1), Send(w)) else (cell, w)
  }

  /** A pending activation takes effect. */
  function Activated(w: Worker): Worker {
    w.(pc := Entry, pending := false, activations := w.activations + 1)
  }

  /** Worker t's step against its own cell. */
  function WorkerStep(c: Config, t: nat, cell: Cell, w: Worker, delta: nat, late: bool): (Cell, Worker) {
    match w.pc
    case Parked => (cell, w)
    case Entry => (cell, w.(pc := if cell.status == OFF then StoreFree else StepOwnCq))
    case StoreFree => (cell.(status := FREE), w.(pc := StepOwnCq))
    case StepOwnCq => (cell, w.(pc := if c.variant(t).Tnt2? && w.ranBefore then LoadTenant else Spin))
    case Spin => (cell, if cell.status == HANG then w.(pc := LoadTenant, ranBefore := true) else w)
    case LoadTenant => (cell, w.(pc := Loop, tenant := cell.tenant))
    case Loop =>
      (cell.(busy := (cell.busy + delta) % WORD64, measured := cell.measured + delta), w.(pc := Counted))
    case Counted => (cell, w.(pc := if late then Arm else Loop))
    case Arm => (cell, w.(pc := StoreOff, armed := true))
    case StoreOff => (cell.(status := OFF), w.(pc := Reschedule))
    case Reschedule => (cell, w.(pc := Parked))
  }

  /** The queue index of the cell a scheduler step touches; none when a loop is over or only the clock is read. */
  function Touches(c: Config, pc: SchedPc): Option<nat> {
    match pc
    case ClockTest => None
    case Done => None
    case _ => if pc.j < c.queues then Some(pc.j) else None
  }

  /** A scheduler step on the cell and the worker it touches. */
  function TouchStep(c: Config, i: nat, d: Scheduler, cell: Cell, w: Worker): (Scheduler, Cell, Worker)
    requires Touches(c, d.pc).Some?
  {
    var t := Thd(c, i, d.pc.j);
    match d.pc
    case ResetBusy(j) => (d.(pc := ResetBusy(j + 1)), cell.(busy := 0), w)
    case WakeLoad(j) =>
      (d.(pc := if cell.status == OFF && c.cqNumber(t) != 0 then WakeSend(j) else WakeLoad(j + 1)), cell, w)
    case WakeSend(j) =>
      var (cell', w') := SendIfNumbered(c, t, cell, w);
      (d.(pc := WakeLoad(j + 1)), cell', w')
    case PublishTenant(j) => (d.(pc := PublishHang(j)), cell.(tenant := Some(Queue(i, j))), w)
    case PublishHang(j) => (d.(pc := PublishTenant(j + 1)), cell.(status := HANG), w)
    case VisitLoad(j) => (d.(pc := if cell.status == OFF then VisitSend(j) else VisitReload(j)), cell, w)
    case VisitSend(j) =>
      var (cell', w') := SendIfNumbered(c, t, cell, w);
      (d.(pc := VisitHang(j)), cell', w')
    case VisitHang(j) => (d.(pc := VisitLoad(j + 1)), cell.(status := HANG), w)
    case VisitReload(j) => (d.(pc := if cell.status == FREE then ReleaseHang(j) else VisitLoad(j + 1)), cell, w)
    case ReleaseHang(j) => (d.(pc := VisitLoad(j + 1)), cell.(status := HANG), w)
    case Drain(j) =>
      (d.(pc := Drain(j + 1), used := if d.used == [] then [] else Charge(d.used, j, cell.busy),
          report := d.report + [cell.busy], reported := d.reported + cell.busy),
       cell.(busy := 0, drained := cell.drained + cell.busy), w)
  }

  /** A scheduler step that touches no cell: a loop that ends, a clock comparison, a re-entry. */
  function IdleStep(c: Config, i: nat, d: Scheduler, choice: bool): Scheduler {
    match d.pc
    case ResetBusy(_) => d.(pc := WakeLoad(0))
    case WakeLoad(_) => d.(pc := PublishTenant(0))
    case PublishTenant(_) => d.(pc := ClockTest)
    case ClockTest => d.(pc := if choice then VisitLoad(0) else Done)
    case VisitLoad(_) =>
      if choice && c.tenants > 0 then d.(pc := Drain(0), used := seq(c.tenants, _ => 0), report := [])
      else d.(pc := ClockTest)
    case Drain(_) => d.(pc := ClockTest)
    case Done => if c.reenters(i) && choice then d.(pc := WakeLoad(0)) else d
    case _ => d
  }

  predicate Sized(c: Config, s: State) {
    && |s.scheds| == c.schedulers
    && |s.cells| == |s.workers| == c.schedulers * c.queues
  }

  function Enabled(c: Config, s: State, a: Action): bool {
    match a
    case SchedStep(i, _) => i < c.schedulers
    case WorkerAct(t, delta, _) => t < |s.workers| && !s.workers[t].pc.Parked? && delta < WORD64
    case Arrival(t) => t < |s.workers|
    case Spurious(t) => t < |s.workers|
    case Start(t) => t < |s.workers| && s.workers[t].pc.Parked? && s.workers[t].pending
  }

  /** The state after an action. */
  function Next(c: Config, s: State, a: Action): (s': State)
    requires Sized(c, s) && Enabled(c, s, a)
    ensures Sized(c, s')
  {
    match a
    case SchedStep(i, choice) =>
      var d := s.scheds[i];
      if Touches(c, d.pc).None? then s.(scheds := s.scheds[i := IdleStep(c, i, d, choice)])
      else
        ThdInRange(c, i, Touches(c, d.pc).value);
        var t := Thd(c, i, Touches(c, d.pc).value);
        var (d', cell', w') := TouchStep(c, i, d, s.cells[t], s.workers[t]);
        State(s.scheds[i := d'], s.cells[t := cell'], s.workers[t := w'])
    case WorkerAct(t, delta, late) =>
      var (cell', w') := WorkerStep(c, t, s.cells[t], s.workers[t], delta, late);
      s.(cells := s.cells[t := cell'], workers := s.workers[t := w'])
    case Arrival(t) => s.(workers := s.workers[t := Send(s.workers[t])])
    case Spurious(t) => s.(workers := s.workers[t := s.workers[t].(pending := true)])
    case Start(t) => s.(workers := s.workers[t := Activated(s.workers[t])])
  }

  /** The schedulers' first activation begins: every worker is parked at OFF with its CQ armed. What the counters hold
      is for the schedulers to clear. */
  function Initial(c: Config): (s: State)
    ensures Sized(c, s)
  {
    State(seq(c.schedulers, _ => Scheduler(ResetBusy(0), seq(c.tenants, _ => 0), [], 0)),
          seq(c.schedulers * c.queues, (t: nat) => Cell(OFF, None, c.leftover(t), 0, 0, 0)),
          seq(c.schedulers * c.queues, _ => Worker(Parked, true, false, None, false, 0)))
  }

  /** An action that is not enabled leaves the state alone. */
  function Act(c: Config, s: State, a: Action): (s': State)
    requires Sized(c, s)
    ensures Sized(c, s')
  {
    if Enabled(c, s, a) then Next(c, s, a) else s
  }

  /** The state after a run of actions. */
  function Run(c: Config, s: State, acts: seq<Action>): (s': State)
    requires Sized(c, s)
    ensures Sized(c, s')
    decreases |acts|
  {
    if acts == [] then s
    else Run(c, Act(c, s, acts[0]), acts[1..])
  }

  // ---- the partition of the cells among the schedulers ----

  lemma ThdInRange(c: Config, i: nat, j: nat)
    requires i < c.schedulers && j < c.queues
    ensures Thd(c, i, j) < c.schedulers * c.queues
  {
    assert (i + 1) * c.queues <= c.schedulers * c.queues;
    assert (i + 1) * c.queues == i * c.queues + c.queues;
  }

  /** (i, j) to i * n + j is injective for j < n, so no two queues share a cell. */
  lemma ThdInjective(c: Config, i: nat, j: nat, i': nat, j': nat)
    requires j < c.queues && j' < c.queues && Thd(c, i, j) == Thd(c, i', j')
    ensures i == i' && j == j'
  {
    DivModUnique(Thd(c, i, j), c.queues, i, j);
    DivModUnique(Thd(c, i, j), c.queues, i', j');
  }

  // ---- the invariant of one queue, its cell and its worker ----

  /** The scheduler has not yet stored HANG for queue j in this activation. */
  predicate Unpublished(pc: SchedPc, j: nat) {
    || pc.ResetBusy? || pc.WakeLoad? || pc.WakeSend?
    || (pc.PublishTenant? && pc.j <= j) || (pc.PublishHang? && pc.j <= j)
  }

  /** The wake-up loop has dealt with queue j. */
  predicate Woken(pc: SchedPc, j: nat) {
    || (pc.WakeLoad? && j < pc.j) || (pc.WakeSend? && j < pc.j) || pc.PublishTenant? || pc.PublishHang?
  }

  /** The worker has passed its spin in this activation. */
  predicate PastSpin(pc: WorkerPc) {
    pc.LoadTenant? || pc.Loop? || pc.Counted? || pc.Arm? || pc.StoreOff?
  }

  /** The worker will look at its status word again without being woken. */
  predicate WillLook(pc: WorkerPc) {
    !pc.Parked? && !pc.Reschedule?
  }

  predicate Spinning(w: Worker) {
    w.pc.StepOwnCq? || w.pc.Spin?
  }

  /** Nothing measured is lost: it has been drained, it is in the counter, or it wrapped a 64-bit word. */
  predicate Conserved(cell: Cell) {
    && cell.busy < WORD64
    && cell.drained + cell.busy <= cell.measured
    && (cell.measured - cell.drained - cell.busy) % WORD64 == 0
  }

  /** The scheduler has cleared the counter of queue j. */
  predicate Cleared(pc: SchedPc, j: nat) {
    pc.ResetBusy? ==> j < pc.j
  }

  /** Until a scheduler has cleared the counters, none of its workers has been let past its spin. */
  predicate Quiet(pc: SchedPc, cell: Cell, w: Worker) {
    pc.ResetBusy? ==>
      !cell.status.HANG? && !PastSpin(w.pc) && !w.ranBefore && cell.measured == 0 && cell.drained == 0
  }

  /** The queue is published before the first HANG, and the worker holds what was published. */
  predicate Published(i: nat, j: nat, pc: SchedPc, cell: Cell, w: Worker) {
    && (!Unpublished(pc, j) || pc == PublishHang(j) || cell.status.HANG? || PastSpin(w.pc) || w.ranBefore ==>
          cell.tenant == Some(Queue(i, j)))
    && (PastSpin(w.pc) && !w.pc.LoadTenant? ==> w.tenant == Some(Queue(i, j)))
  }

  /** The worker is parked before its first activation, and in its first it is past its spin once it has run. */
  predicate Numbers(w: Worker) {
    && (w.activations == 0 ==> w.pc.Parked? && !w.ranBefore)
    && (w.activations == 1 && w.ranBefore ==> PastSpin(w.pc) || w.pc.Reschedule? || w.pc.Parked?)
  }

  /** An armed CQ or a pending activation backs a worker that will not look by itself. */
  predicate Backed(w: Worker) {
    w.pc.Parked? || w.pc.Reschedule? || w.pc.StoreOff? ==> w.armed || w.pending
  }

  /** OFF means that the worker is not past its spin, or done with its loop. */
  predicate OffDuty(cell: Cell, w: Worker) {
    cell.status.OFF? ==> w.pc.Parked? || w.pc.Entry? || w.pc.StoreFree? || w.pc.Reschedule?
  }

  /** What holds of every queue in every configuration. */
  predicate Accounted(i: nat, j: nat, pc: SchedPc, cell: Cell, w: Worker) {
    && (Cleared(pc, j) ==> Conserved(cell)) && Quiet(pc, cell, w) && Published(i, j, pc, cell, w)
    && Numbers(w) && Backed(w) && OffDuty(cell, w)
  }

  /** The worker has not skipped a spin: flexio_pp_dev_1 never does, flexio_pp_dev_2 does from its second activation
      on. */
  predicate Spins(c: Config, t: nat, w: Worker) {
    c.variant(t).Tnt1? || w.activations <= 1
  }

  /** FREE means spinning, and past the spin means HANG. */
  predicate Handshake(cell: Cell, w: Worker) {
    && (cell.status.FREE? ==> Spinning(w))
    && (PastSpin(w.pc) ==> cell.status.HANG?)
  }

  /** Such a worker, on a CQ with a number, so that a visit's interrupt is sent. */
  predicate Callable(c: Config, t: nat, w: Worker) {
    Spins(c, t, w) && c.cqNumber(t) != 0
  }

  /** What the scheduler knows in the middle of a visit. */
  predicate MidVisit(pc: SchedPc, j: nat, cell: Cell, w: Worker) {
    && (pc == VisitSend(j) ==> !cell.status.HANG?)
    && (pc == VisitHang(j) ==> !cell.status.HANG? && (WillLook(w.pc) || w.pending))
    && (pc == ReleaseHang(j) ==> cell.status.FREE?)
  }

  /** A wake-up cannot get lost: a worker told to run will look at its status word. */
  predicate Wakeable(cell: Cell, w: Worker) {
    cell.status.HANG? ==> WillLook(w.pc) || w.pending
  }

  /** Where the scheduler stands with this queue in its start-up. */
  predicate Standing(pc: SchedPc, j: nat, cell: Cell, w: Worker) {
    && (Unpublished(pc, j) ==> !cell.status.HANG?)
    && (Woken(pc, j) && Unpublished(pc, j) ==> WillLook(w.pc) || w.pending)
  }

  /** The workers whose wake-ups cannot get lost: moreover their scheduler i is not entered again. */
  predicate Sound(c: Config, i: nat, t: nat, w: Worker) {
    Callable(c, t, w) && !c.reenters(i)
  }

  predicate QueueInv(c: Config, i: nat, j: nat, pc: SchedPc, cell: Cell, w: Worker) {
    && Accounted(i, j, pc, cell, w)
    && (Spins(c, Thd(c, i, j), w) ==> Handshake(cell, w))
    && (Callable(c, Thd(c, i, j), w) ==> MidVisit(pc, j, cell, w))
    && (Sound(c, i, Thd(c, i, j), w) ==> Wakeable(cell, w) && Standing(pc, j, cell, w))
  }

  // ---- a scheduler's step keeps the invariant of the queue it touches, and of the others ----

  lemma TouchAccounts(c: Config, i: nat, d: Scheduler, cell: Cell, w: Worker)
    requires Touches(c, d.pc).Some? && Accounted(i, d.pc.j, d.pc, cell, w)
    ensures var (d', cell', w') := TouchStep(c, i, d, cell, w);
            Accounted(i, d.pc.j, d'.pc, cell', w')
  {
    hide Charge;
  }

  lemma TouchShakesHands(c: Config, i: nat, d: Scheduler, cell: Cell, w: Worker)
    requires Touches(c, d.pc).Some? && Handshake(cell, w)
    ensures var (_, cell', w') := TouchStep(c, i, d, cell, w);
            Handshake(cell', w')
  {
    hide Charge;
  }

  lemma TouchInVisit(c: Config, i: nat, d: Scheduler, cell: Cell, w: Worker)
    requires Touches(c, d.pc).Some? && Callable(c, Thd(c, i, d.pc.j), w)
    requires Backed(w) && OffDuty(cell, w) && Handshake(cell, w) && MidVisit(d.pc, d.pc.j, cell, w)
    ensures var (d', cell', w') := TouchStep(c, i, d, cell, w);
            MidVisit(d'.pc, d.pc.j, cell', w')
  {
    hide Charge;
  }

  lemma TouchStands(c: Config, i: nat, d: Scheduler, cell: Cell, w: Worker)
    requires Touches(c, d.pc).Some? && Sound(c, i, Thd(c, i, d.pc.j), w)
    requires Backed(w) && OffDuty(cell, w) && Handshake(cell, w) && MidVisit(d.pc, d.pc.j, cell, w)
    requires Wakeable(cell, w) && Standing(d.pc, d.pc.j, cell, w)
    ensures var (d', cell', w') := TouchStep(c, i, d, cell, w);
            Wakeable(cell', w') && Standing(d'.pc, d.pc.j, cell', w')
  {
    hide Charge;
  }

  /** A scheduler's step may ask for an activation, but none starts in it. */
  lemma TouchActivatesNobody(c: Config, i: nat, d: Scheduler, cell: Cell, w: Worker)
    requires Touches(c, d.pc).Some?
    ensures TouchStep(c, i, d, cell, w).2.activations == w.activations
  {
    hide Charge;
  }

  lemma TouchKeepsOwn(c: Config, i: nat, d: Scheduler, cell: Cell, w: Worker)
    requires Touches(c, d.pc).Some?
    requires QueueInv(c, i, d.pc.j, d.pc, cell, w)
    ensures var (d', cell', w') := TouchStep(c, i, d, cell, w);
            QueueInv(c, i, d.pc.j, d'.pc, cell', w')
  {
    hide Conserved, Quiet, Published, Numbers, Backed, OffDuty, Handshake, MidVisit, Wakeable, Standing, TouchStep;
    TouchActivatesNobody(c, i, d, cell, w);
    TouchAccounts(c, i, d, cell, w);
    var t := Thd(c, i, d.pc.j);
    if Spins(c, t, w) {
      TouchShakesHands(c, i, d, cell, w);
    }
    if Callable(c, t, w) {
      TouchInVisit(c, i, d, cell, w);
    }
    if Sound(c, i, t, w) {
      TouchStands(c, i, d, cell, w);
    }
  }

  /** Moving on to another queue does not disturb this one. */
  lemma TouchKeepsOther(c: Config, i: nat, d: Scheduler, cell: Cell, w: Worker, j: nat, cell2: Cell, w2: Worker)
    requires Touches(c, d.pc).Some? && j != d.pc.j && j < c.queues
    requires QueueInv(c, i, j, d.pc, cell2, w2)
    ensures QueueInv(c, i, j, TouchStep(c, i, d, cell, w).0.pc, cell2, w2)
  {
    hide Conserved, Numbers, Backed, OffDuty, Handshake, Wakeable, Charge;
  }

  lemma IdleKeeps(c: Config, i: nat, d: Scheduler, choice: bool, j: nat, cell: Cell, w: Worker)
    requires Touches(c, d.pc).None? && j < c.queues
    requires QueueInv(c, i, j, d.pc, cell, w)
    ensures QueueInv(c, i, j, IdleStep(c, i, d, choice).pc, cell, w)
  {
    hide Conserved, Numbers, Backed, OffDuty, Handshake, Wakeable;
  }

  // ---- a worker's step, and an interrupt, keep its own queue's invariant ----

  lemma AddConserves(cell: Cell, delta: nat)
    requires Conserved(cell)
    ensures Conserved(cell.(busy := (cell.busy + delta) % WORD64, measured := cell.measured + delta))
  {
    var x := cell.busy + delta;
    var k := (cell.measured - cell.drained - cell.busy) / WORD64;
    DivModUnique(cell.measured + delta - cell.drained - x % WORD64, WORD64, k + x / WORD64, 0);
  }

  lemma ConservedElsewhere(cell: Cell, cell': Cell)
    requires Conserved(cell)
    requires cell'.busy == cell.busy && cell'.measured == cell.measured && cell'.drained == cell.drained
    ensures Conserved(cell')
  {
  }

  lemma WorkerConserves(c: Config, t: nat, cell: Cell, w: Worker, delta: nat, late: bool)
    requires Conserved(cell)
    ensures Conserved(WorkerStep(c, t, cell, w, delta, late).0)
  {
    hide Conserved;
    if w.pc.Loop? {
      AddConserves(cell, delta);
    } else {
      ConservedElsewhere(cell, WorkerStep(c, t, cell, w, delta, late).0);
    }
  }

  lemma WorkerPublishes(c: Config, t: nat, i: nat, j: nat, pc: SchedPc, cell: Cell, w: Worker, delta: nat, late: bool)
    requires Quiet(pc, cell, w) && Published(i, j, pc, cell, w)
    ensures var (cell', w') := WorkerStep(c, t, cell, w, delta, late);
            Quiet(pc, cell', w') && Published(i, j, pc, cell', w')
  {
    hide Unpublished;
  }

  lemma WorkerAccounts(c: Config, t: nat, i: nat, j: nat, pc: SchedPc, cell: Cell, w: Worker, delta: nat, late: bool)
    requires Accounted(i, j, pc, cell, w)
    ensures var (cell', w') := WorkerStep(c, t, cell, w, delta, late);
            Accounted(i, j, pc, cell', w')
  {
    hide Conserved, Quiet, Published;
    if Cleared(pc, j) {
      WorkerConserves(c, t, cell, w, delta, late);
    }
    WorkerPublishes(c, t, i, j, pc, cell, w, delta, late);
  }

  lemma WorkerShakesHands(c: Config, t: nat, cell: Cell, w: Worker, delta: nat, late: bool)
    requires Spins(c, t, w) && Numbers(w) && Handshake(cell, w)
    ensures var (cell', w') := WorkerStep(c, t, cell, w, delta, late);
            Handshake(cell', w')
  {
  }

  lemma WorkerInVisit(c: Config, t: nat, j: nat, pc: SchedPc, cell: Cell, w: Worker, delta: nat, late: bool)
    requires Callable(c, t, w) && Numbers(w) && Backed(w) && Handshake(cell, w) && MidVisit(pc, j, cell, w)
    ensures var (cell', w') := WorkerStep(c, t, cell, w, delta, late);
            MidVisit(pc, j, cell', w')
  {
  }

  lemma WorkerStands(c: Config, i: nat, t: nat, j: nat, pc: SchedPc, cell: Cell, w: Worker, delta: nat, late: bool)
    requires Sound(c, i, t, w) && Backed(w) && Handshake(cell, w) && Wakeable(cell, w) && Standing(pc, j, cell, w)
    ensures var (cell', w') := WorkerStep(c, t, cell, w, delta, late);
            Wakeable(cell', w') && Standing(pc, j, cell', w')
  {
    hide Unpublished, Woken;
  }

  lemma WorkerActivatesNobody(c: Config, t: nat, cell: Cell, w: Worker, delta: nat, late: bool)
    ensures WorkerStep(c, t, cell, w, delta, late).1.activations == w.activations
  {
  }

  lemma WorkerKeeps(c: Config, i: nat, j: nat, pc: SchedPc, cell: Cell, w: Worker, delta: nat, late: bool)
    requires QueueInv(c, i, j, pc, cell, w)
    ensures var (cell', w') := WorkerStep(c, Thd(c, i, j), cell, w, delta, late);
            QueueInv(c, i, j, pc, cell', w')
  {
    hide Conserved, Quiet, Published, Numbers, Backed, OffDuty, Handshake, MidVisit, Wakeable, Standing, WorkerStep;
    var t := Thd(c, i, j);
    WorkerActivatesNobody(c, t, cell, w, delta, late);
    WorkerAccounts(c, t, i, j, pc, cell, w, delta, late);
    if Spins(c, t, w) {
      WorkerShakesHands(c, t, cell, w, delta, late);
    }
    if Callable(c, t, w) {
      WorkerInVisit(c, t, j, pc, cell, w, delta, late);
    }
    if Sound(c, i, t, w) {
      WorkerStands(c, i, t, j, pc, cell, w, delta, late);
    }
  }

  lemma InterruptKeeps(c: Config, i: nat, j: nat, pc: SchedPc, cell: Cell, w: Worker)
    requires QueueInv(c, i, j, pc, cell, w)
    ensures QueueInv(c, i, j, pc, cell, Send(w))
    ensures QueueInv(c, i, j, pc, cell, w.(pending := true))
    ensures w.pc.Parked? && w.pending ==> QueueInv(c, i, j, pc, cell, Activated(w))
  {
    hide Conserved, Unpublished, Woken;
  }
}
