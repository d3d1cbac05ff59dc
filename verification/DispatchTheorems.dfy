/** What the dispatch protocol guarantees, for any number of schedulers and workers and any interleaving. */
module DispatchTheorems {
  import opened Words
  import opened Sums
  import opened Accounting
  import opened Dispatch

  ghost predicate QueueOk(c: Config, s: State, i: nat, j: nat)
    requires Sized(c, s) && i < c.schedulers && j < c.queues
  {
    ThdInRange(c, i, j);
    var t := Thd(c, i, j);
    QueueInv(c, i, j, s.scheds[i].pc, s.cells[t], s.workers[t])
  }

  predicate IsHead(pc: SchedPc) {
    pc.ResetBusy? || pc.WakeLoad? || pc.PublishTenant? || pc.VisitLoad?
  }

  /** The scheduler is at a loop head, reads the clock, is done, or is busy with one of its queues; and the tenants are
      charged with what the current report has drained from their queues. */
  ghost predicate ReportOk(c: Config, d: Scheduler) {
    && (IsHead(d.pc) || d.pc.Drain? || d.pc.ClockTest? || d.pc.Done? || d.pc.j < c.queues)
    && |d.used| == c.tenants
    && (d.pc.Drain? ==> c.tenants > 0 && |d.report| == d.pc.j <= c.queues)
    && Charged(d.used, d.report)
  }

  /** The cycles drained so far from the first k queues of scheduler i. */
  function DrainedSum(c: Config, cells: seq<Cell>, i: nat, k: nat): nat
    requires |cells| == c.schedulers * c.queues && i < c.schedulers && k <= c.queues
  {
    if k == 0 then 0
    else
      ThdInRange(c, i, k - 1);
      DrainedSum(c, cells, i, k - 1) + cells[Thd(c, i, k - 1)].drained
  }

  ghost predicate GlobalInv(c: Config, s: State) {
    && Sized(c, s)
    && (forall i, j | 0 <= i < c.schedulers && 0 <= j < c.queues :: QueueOk(c, s, i, j))
    && (forall i | 0 <= i < c.schedulers ::
          ReportOk(c, s.scheds[i]) && s.scheds[i].reported == DrainedSum(c, s.cells, i, c.queues))
  }

  // ---- reports ----

  lemma ReportStep(c: Config, i: nat, d: Scheduler, cell: Cell, w: Worker)
    requires ReportOk(c, d) && Touches(c, d.pc).Some?
    ensures ReportOk(c, TouchStep(c, i, d, cell, w).0)
  {
    hide Charge, Charged;
    if d.pc.Drain? {
      ChargeKeeps(d.used, d.report, cell.busy);
    }
  }

  lemma ReportIdle(c: Config, i: nat, d: Scheduler, choice: bool)
    requires ReportOk(c, d) && Touches(c, d.pc).None?
    ensures ReportOk(c, IdleStep(c, i, d, choice)) && IdleStep(c, i, d, choice).reported == d.reported
  {
  }

  /** Changing one cell changes the sum of its own scheduler, by that cell's difference, and no other's. */
  lemma {:induction false} DrainedUpdate(c: Config, cells: seq<Cell>, i: nat, j: nat, cell: Cell, i': nat, k: nat)
    requires |cells| == c.schedulers * c.queues
    requires i < c.schedulers && j < c.queues && i' < c.schedulers && k <= c.queues
    requires Thd(c, i, j) < |cells|
    ensures DrainedSum(c, cells[Thd(c, i, j) := cell], i', k) ==
            DrainedSum(c, cells, i', k) + if i == i' && j < k then cell.drained - cells[Thd(c, i, j)].drained else 0
    decreases k
  {
    if k > 0 {
      DrainedUpdate(c, cells, i, j, cell, i', k - 1);
      ThdInRange(c, i', k - 1);
      if Thd(c, i, j) == Thd(c, i', k - 1) {
        ThdInjective(c, i, j, i', k - 1);
      }
    }
  }

  // ---- steps ----

  lemma SchedKeeps(c: Config, s: State, i: nat, choice: bool)
    requires GlobalInv(c, s) && Enabled(c, s, SchedStep(i, choice))
    ensures GlobalInv(c, Next(c, s, SchedStep(i, choice)))
  {
    hide QueueInv, TouchStep, IdleStep, ReportOk;
    var s', d := Next(c, s, SchedStep(i, choice)), s.scheds[i];
    if Touches(c, d.pc).None? {
      ReportIdle(c, i, d, choice);
      forall i', j | 0 <= i' < c.schedulers && 0 <= j < c.queues
        ensures QueueOk(c, s', i', j)
      {
        assert QueueOk(c, s, i', j);
        if i' == i {
          ThdInRange(c, i, j);
          IdleKeeps(c, i, d, choice, j, s.cells[Thd(c, i, j)], s.workers[Thd(c, i, j)]);
        }
      }
    } else {
      TouchKeepsQueues(c, s, i, choice);
      TouchKeepsReports(c, s, i, choice);
    }
  }

  lemma TouchKeepsQueues(c: Config, s: State, i: nat, choice: bool)
    requires GlobalInv(c, s) && i < c.schedulers && Touches(c, s.scheds[i].pc).Some?
    ensures var s' := Next(c, s, SchedStep(i, choice));
            forall i', j | 0 <= i' < c.schedulers && 0 <= j < c.queues :: QueueOk(c, s', i', j)
  {
    hide QueueInv, TouchStep, ReportOk;
    var s', d := Next(c, s, SchedStep(i, choice)), s.scheds[i];
    var j0 := d.pc.j;
    ThdInRange(c, i, j0);
    var t := Thd(c, i, j0);
    forall i', j | 0 <= i' < c.schedulers && 0 <= j < c.queues
      ensures QueueOk(c, s', i', j)
    {
      assert QueueOk(c, s, i', j);
      ThdInRange(c, i', j);
      if Thd(c, i', j) == t {
        ThdInjective(c, i', j, i, j0);
        TouchKeepsOwn(c, i, d, s.cells[t], s.workers[t]);
      } else if i' == i {
        TouchKeepsOther(c, i, d, s.cells[t], s.workers[t], j, s.cells[Thd(c, i, j)], s.workers[Thd(c, i, j)]);
      }
    }
  }

  lemma TouchDrains(c: Config, i: nat, d: Scheduler, cell: Cell, w: Worker)
    requires Touches(c, d.pc).Some?
    ensures var (d', cell', _) := TouchStep(c, i, d, cell, w);
            d'.reported - d.reported == cell'.drained - cell.drained
  {
  }

  lemma TouchKeepsReports(c: Config, s: State, i: nat, choice: bool)
    requires GlobalInv(c, s) && i < c.schedulers && Touches(c, s.scheds[i].pc).Some?
    ensures var s' := Next(c, s, SchedStep(i, choice));
            forall i' | 0 <= i' < c.schedulers ::
              ReportOk(c, s'.scheds[i']) && s'.scheds[i'].reported == DrainedSum(c, s'.cells, i', c.queues)
  {
    hide QueueInv, TouchStep, ReportOk;
    var s', d := Next(c, s, SchedStep(i, choice)), s.scheds[i];
    var j0 := d.pc.j;
    ThdInRange(c, i, j0);
    var t := Thd(c, i, j0);
    ReportStep(c, i, d, s.cells[t], s.workers[t]);
    TouchDrains(c, i, d, s.cells[t], s.workers[t]);
    forall i' | 0 <= i' < c.schedulers
      ensures ReportOk(c, s'.scheds[i']) && s'.scheds[i'].reported == DrainedSum(c, s'.cells, i', c.queues)
    {
      DrainedUpdate(c, s.cells, i, j0, s'.cells[t], i', c.queues);
    }
  }

  /** A worker belongs to exactly one scheduler's queue. */
  lemma QueueOfThd(c: Config, t: nat) returns (i: nat, j: nat)
    requires t < c.schedulers * c.queues
    ensures i < c.schedulers && j < c.queues && Thd(c, i, j) == t && i == t / c.queues
  {
    i, j := t / c.queues, t % c.queues;
    assert t == i * c.queues + j;
    if c.schedulers <= i {
      MulMonotone(c.schedulers, i, c.queues);
    }
  }

  /** A step of worker `t`, or of its interrupts, that keeps the invariant of its own queue keeps all of them. */
  lemma OneCellChange(c: Config, s: State, t: nat, cell': Cell, w': Worker)
    requires GlobalInv(c, s) && t < |s.cells| && cell'.drained == s.cells[t].drained
    requires forall i, j | 0 <= i < c.schedulers && 0 <= j < c.queues && Thd(c, i, j) == t ::
               QueueInv(c, i, j, s.scheds[i].pc, cell', w')
    ensures GlobalInv(c, s.(cells := s.cells[t := cell'], workers := s.workers[t := w']))
  {
    hide QueueInv, ReportOk;
    var s' := s.(cells := s.cells[t := cell'], workers := s.workers[t := w']);
    forall i, j | 0 <= i < c.schedulers && 0 <= j < c.queues
      ensures QueueOk(c, s', i, j)
    {
      assert QueueOk(c, s, i, j);
      ThdInRange(c, i, j);
    }
    var i, j := QueueOfThd(c, t);
    forall i' | 0 <= i' < c.schedulers
      ensures DrainedSum(c, s'.cells, i', c.queues) == DrainedSum(c, s.cells, i', c.queues)
    {
      DrainedUpdate(c, s.cells, i, j, cell', i', c.queues);
    }
  }

  lemma WorkerSideKeeps(c: Config, s: State, a: Action)
    requires GlobalInv(c, s) && Enabled(c, s, a) && !a.SchedStep?
    ensures GlobalInv(c, Next(c, s, a))
  {
    hide QueueInv, ReportOk, WorkerStep, Send, Activated;
    var t, s' := a.t, Next(c, s, a);
    forall i, j | 0 <= i < c.schedulers && 0 <= j < c.queues && Thd(c, i, j) == t
      ensures QueueInv(c, i, j, s.scheds[i].pc, s'.cells[t], s'.workers[t])
    {
      assert QueueOk(c, s, i, j);
      InterruptKeeps(c, i, j, s.scheds[i].pc, s.cells[t], s.workers[t]);
      if a.WorkerAct? {
        WorkerKeeps(c, i, j, s.scheds[i].pc, s.cells[t], s.workers[t], a.delta, a.late);
      }
    }
    WorkerDrainsNothing(c, t, s.cells[t], s.workers[t], if a.WorkerAct? then a.delta else 0, a.WorkerAct? && a.late);
    OneCellChange(c, s, t, s'.cells[t], s'.workers[t]);
    assert s' == s.(cells := s.cells[t := s'.cells[t]], workers := s.workers[t := s'.workers[t]]);
  }

  lemma WorkerDrainsNothing(c: Config, t: nat, cell: Cell, w: Worker, delta: nat, late: bool)
    ensures WorkerStep(c, t, cell, w, delta, late).0.drained == cell.drained
  {
  }

  lemma InitialQueue(c: Config, i: nat, j: nat)
    requires i < c.schedulers && j < c.queues
    ensures QueueOk(c, Initial(c), i, j)
  {
    ThdInRange(c, i, j);
  }

  lemma InitialInv(c: Config)
    ensures GlobalInv(c, Initial(c))
  {
    hide QueueOk;
    forall i, j | 0 <= i < c.schedulers && 0 <= j < c.queues
      ensures QueueOk(c, Initial(c), i, j)
    {
      InitialQueue(c, i, j);
    }
    forall i | 0 <= i < c.schedulers
      ensures DrainedSum(c, Initial(c).cells, i, c.queues) == 0
    {
      NothingDrained(c, i, c.queues);
    }
  }

  lemma {:induction false} NothingDrained(c: Config, i: nat, k: nat)
    requires i < c.schedulers && k <= c.queues
    ensures DrainedSum(c, Initial(c).cells, i, k) == 0
  {
    if k > 0 {
      NothingDrained(c, i, k - 1);
      ThdInRange(c, i, k - 1);
    }
  }

  lemma ActKeeps(c: Config, s: State, a: Action)
    requires GlobalInv(c, s)
    ensures GlobalInv(c, Act(c, s, a))
  {
    hide QueueOk, ReportOk, DrainedSum, Next;
    if Enabled(c, s, a) {
      if a.SchedStep? {
        SchedKeeps(c, s, a.i, a.choice);
      } else {
        WorkerSideKeeps(c, s, a);
      }
    }
  }

  /** Every state of every run satisfies the invariant. */
  lemma {:induction false} RunInv(c: Config, s: State, acts: seq<Action>)
    requires GlobalInv(c, s)
    ensures GlobalInv(c, Run(c, s, acts))
    decreases |acts|
  {
    hide QueueOk, ReportOk, DrainedSum, Act;
    if acts != [] {
      ActKeeps(c, s, acts[0]);
      RunInv(c, Act(c, s, acts[0]), acts[1..]);
    }
  }

  lemma {:induction false} RunSplit(c: Config, s: State, acts: seq<Action>, more: seq<Action>)
    requires Sized(c, s)
    ensures Run(c, s, acts + more) == Run(c, Run(c, s, acts), more)
    decreases |acts|
  {
    hide Act;
    if acts == [] {
      assert acts + more == more;
    } else {
      assert (acts + more)[1..] == acts[1..] + more;
      RunSplit(c, Act(c, s, acts[0]), acts[1..], more);
    }
  }

  // ---- the guarantees, for every run from the schedulers' first activation ----

  lemma ReachableInv(c: Config, acts: seq<Action>)
    ensures GlobalInv(c, Run(c, Initial(c), acts))
  {
    hide GlobalInv, Run, Initial;
    InitialInv(c);
    RunInv(c, Initial(c), acts);
  }

  /** What holds of every queue's cell and worker in a reachable state. */
  lemma ReachableQueue(c: Config, acts: seq<Action>, t: nat) returns (i: nat, j: nat)
    requires t < c.schedulers * c.queues
    ensures var s := Run(c, Initial(c), acts);
            && i < c.schedulers && j < c.queues && t == Thd(c, i, j) && i == t / c.queues
            && QueueInv(c, i, j, s.scheds[i].pc, s.cells[t], s.workers[t])
  {
    hide QueueInv, Run, Initial, ReportOk, DrainedSum;
    ReachableInv(c, acts);
    i, j := QueueOfThd(c, t);
    assert QueueOk(c, Run(c, Initial(c), acts), i, j);
  }

  /** A worker that was told to run but neither runs nor has an activation coming. */
  predicate Lost(cell: Cell, w: Worker) {
    cell.status.HANG? && w.pc.Parked? && !w.pending
  }

  /** No lost wake-up: while the worker has spun on every activation, on a CQ with a number and under a scheduler that
      is entered once, it is active or has a pending activation whenever its status is HANG. */
  lemma NoLostWakeup(c: Config, acts: seq<Action>, t: nat)
    requires t < c.schedulers * c.queues
    ensures var s := Run(c, Initial(c), acts);
            Sound(c, t / c.queues, t, s.workers[t]) ==> !Lost(s.cells[t], s.workers[t])
  {
    hide Run, Initial;
    var i, j := ReachableQueue(c, acts, t);
  }

  /** What each status word tells about its worker: OFF in every configuration, FREE and HANG while the worker has
      spun on every activation. */
  lemma HandshakeStates(c: Config, acts: seq<Action>, t: nat)
    requires t < c.schedulers * c.queues
    ensures var s := Run(c, Initial(c), acts);
            var status, w := s.cells[t].status, s.workers[t];
            && (status.OFF? ==> w.pc in {Parked, Entry, StoreFree, Reschedule})
            && (Spins(c, t, w) && status.FREE? ==> w.pc in {StepOwnCq, Spin})
            && (Spins(c, t, w) && w.pc in {LoadTenant, Loop, Counted, Arm, StoreOff} ==> status.HANG?)
  {
    hide Run, Initial;
    var i, j := ReachableQueue(c, acts, t);
  }

  /** The worker has a queue and polls it, or is on its way out of the loop. */
  predicate InLoop(pc: WorkerPc) {
    pc in {Loop, Counted, Arm, StoreOff}
  }

  /** Publication and exclusive ownership: a worker in its packet loop holds its own queue, and no two hold the same. */
  lemma ExclusiveOwnership(c: Config, acts: seq<Action>, t: nat, t': nat)
    requires t < c.schedulers * c.queues && t' < c.schedulers * c.queues
    ensures var s := Run(c, Initial(c), acts);
            var w, w' := s.workers[t], s.workers[t'];
            && (InLoop(w.pc) ==>
                  && w.tenant.Some? && w.tenant.value.idx < c.queues
                  && Thd(c, w.tenant.value.sch, w.tenant.value.idx) == t)
            && (InLoop(w.pc) && InLoop(w'.pc) && w.tenant == w'.tenant ==> t == t')
  {
    hide Run, Initial;
    var i, j := ReachableQueue(c, acts, t);
    var i', j' := ReachableQueue(c, acts, t');
  }

  // ---- cycles ----

  /** The action is worker t adding the cycles it has measured for a packet. */
  predicate Adds(c: Config, s: State, a: Action, t: nat) {
    Enabled(c, s, a) && a.WorkerAct? && a.t == t && s.workers[t].pc.Loop?
  }

  /** The cycles that the run's actions add for worker t. */
  ghost function Added(c: Config, s: State, acts: seq<Action>, t: nat): nat
    requires Sized(c, s)
    decreases |acts|
  {
    if acts == [] then 0
    else (if Adds(c, s, acts[0], t) then acts[0].delta else 0) + Added(c, Act(c, s, acts[0]), acts[1..], t)
  }

  lemma ActMeasures(c: Config, s: State, a: Action, t: nat)
    requires Sized(c, s) && t < |s.cells|
    ensures Act(c, s, a).cells[t].measured == s.cells[t].measured + if Adds(c, s, a, t) then a.delta else 0
  {
    hide IdleStep;
  }

  /** What a cell has on record as measured is what the actions have added. */
  lemma {:induction false} MeasuredIsAdded(c: Config, s: State, acts: seq<Action>, t: nat)
    requires Sized(c, s) && t < |s.cells|
    ensures Run(c, s, acts).cells[t].measured == s.cells[t].measured + Added(c, s, acts, t)
    decreases |acts|
  {
    hide Act, Adds;
    if acts != [] {
      ActMeasures(c, s, acts[0], t);
      MeasuredIsAdded(c, Act(c, s, acts[0]), acts[1..], t);
    }
  }

  lemma StartsUnmeasured(c: Config, t: nat)
    requires t < c.schedulers * c.queues
    ensures Initial(c).cells[t].measured == 0
  {
  }

  /** Cycle conservation for a worker's counter, from when its scheduler has cleared it: what the worker's actions have
      added is drained or still there, up to 64-bit wraps, and exactly so as long as the total fits the word. */
  lemma CyclesConserved(c: Config, acts: seq<Action>, i: nat, j: nat)
    requires i < c.schedulers && j < c.queues
    ensures var s := Run(c, Initial(c), acts);
            var added := Added(c, Initial(c), acts, Thd(c, i, j));
            && Thd(c, i, j) < |s.cells|
            && var cell := s.cells[Thd(c, i, j)];
               if Cleared(s.scheds[i].pc, j) then
                 && cell.drained + cell.busy <= added && (added - cell.drained - cell.busy) % WORD64 == 0
                 && (added < WORD64 ==> added == cell.drained + cell.busy)
               else added == 0 && cell.drained == 0
  {
    hide Run, Initial;
    ThdInRange(c, i, j);
    var t := Thd(c, i, j);
    var i', j' := ReachableQueue(c, acts, t);
    ThdInjective(c, i, j, i', j');
    MeasuredIsAdded(c, Initial(c), acts, t);
    StartsUnmeasured(c, t);
  }

  /** The cycles that the run's actions add for the first k queues of scheduler i. */
  ghost function AddedSum(c: Config, s: State, acts: seq<Action>, i: nat, k: nat): nat
    requires Sized(c, s)
  {
    if k == 0 then 0 else AddedSum(c, s, acts, i, k - 1) + Added(c, s, acts, Thd(c, i, k - 1))
  }

  /** What the counters of the first k queues of scheduler i hold. */
  function BusySum(c: Config, cells: seq<Cell>, i: nat, k: nat): nat
    requires |cells| == c.schedulers * c.queues && i < c.schedulers && k <= c.queues
  {
    if k == 0 then 0
    else
      ThdInRange(c, i, k - 1);
      BusySum(c, cells, i, k - 1) + cells[Thd(c, i, k - 1)].busy
  }

  lemma {:induction false} SumsConserved(c: Config, acts: seq<Action>, i: nat, k: nat)
    requires i < c.schedulers && k <= c.queues && !Run(c, Initial(c), acts).scheds[i].pc.ResetBusy?
    ensures var cells := Run(c, Initial(c), acts).cells;
            var gap := AddedSum(c, Initial(c), acts, i, k) - DrainedSum(c, cells, i, k) - BusySum(c, cells, i, k);
            gap >= 0 && gap % WORD64 == 0
  {
    hide Run, Initial, Added;
    if k > 0 {
      SumsConserved(c, acts, i, k - 1);
      CyclesConserved(c, acts, i, k - 1);
      var cells, t := Run(c, Initial(c), acts).cells, Thd(c, i, k - 1);
      var g := AddedSum(c, Initial(c), acts, i, k - 1) - DrainedSum(c, cells, i, k - 1) - BusySum(c, cells, i, k - 1);
      var h := Added(c, Initial(c), acts, t) - cells[t].drained - cells[t].busy;
      DivModUnique(g + h, WORD64, g / WORD64 + h / WORD64, 0);
    }
  }

  /** Cycle conservation for a scheduler: all that its workers' actions have added has been drained by its reports or is
      still in their counters, over any interleaving of additions and exchanges. */
  lemma SchedulerConserves(c: Config, acts: seq<Action>, i: nat)
    requires i < c.schedulers
    ensures var s := Run(c, Initial(c), acts);
            var added := AddedSum(c, Initial(c), acts, i, c.queues);
            var rest := s.scheds[i].reported + BusySum(c, s.cells, i, c.queues);
            !s.scheds[i].pc.ResetBusy? ==>
              && rest <= added && (added - rest) % WORD64 == 0
              && (added < WORD64 ==> added == rest)
  {
    hide Run, Initial, QueueInv, AddedSum, BusySum, DrainedSum;
    ReachableInv(c, acts);
    if !Run(c, Initial(c), acts).scheds[i].pc.ResetBusy? {
      SumsConserved(c, acts, i, c.queues);
    }
  }

  /** A scheduler's step leaves every cell and worker of every other scheduler alone. */
  lemma PartitionHolds(c: Config, s: State, i: nat, choice: bool, i': nat, j: nat)
    requires Sized(c, s) && i < c.schedulers && i' < c.schedulers && i != i' && j < c.queues
    ensures Thd(c, i', j) < |s.cells|
    ensures var s' := Next(c, s, SchedStep(i, choice));
            s'.cells[Thd(c, i', j)] == s.cells[Thd(c, i', j)] && s'.workers[Thd(c, i', j)] == s.workers[Thd(c, i', j)]
  {
    hide TouchStep, IdleStep;
    ThdInRange(c, i', j);
    if Touches(c, s.scheds[i].pc).Some? {
      var j0 := s.scheds[i].pc.j;
      if Thd(c, i, j0) == Thd(c, i', j) {
        ThdInjective(c, i, j0, i', j);
      }
    }
  }

  const MAX_THREADS: nat := 190   // the length of offload_info and dpa_thds_ctx

  /** Within the arrays' bounds the 32-bit thd_id does not wrap. */
  lemma ThdFitsWord(c: Config, i: nat, j: nat)
    requires c.schedulers * c.queues <= MAX_THREADS && i < c.schedulers && j < c.queues
    ensures (i * c.queues + j) % WORD32 == Thd(c, i, j) < MAX_THREADS
  {
    ThdInRange(c, i, j);
  }
}
