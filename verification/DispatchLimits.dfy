/** Exactly which workers never lose a wake-up, in every configuration. */
module DispatchLimits {
  import opened Dispatch
  import opened DispatchTheorems
  import opened DispatchProgress

  ghost predicate Reachable(c: Config, s: State) {
    exists acts :: Run(c, Initial(c), acts) == s
  }

  /** No run of the configuration loses a wake-up of its worker t. */
  ghost predicate NeverLoses(c: Config, t: nat) {
    forall s: State :: Reachable(c, s) && Sized(c, s) && t < |s.cells| ==> !Lost(s.cells[t], s.workers[t])
  }

  lemma ReachNext(c: Config, s: State, a: Action)
    requires Reachable(c, s) && Sized(c, s) && Enabled(c, s, a)
    ensures Reachable(c, Next(c, s, a))
  {
    hide Next, Enabled;
    var acts :| Run(c, Initial(c), acts) == s;
    RunSplit(c, Initial(c), acts, [a]);
    assert Run(c, Initial(c), acts + [a]) == Next(c, s, a);
  }

  // ---- one queue among all the others ----

  ghost predicate Shows(c: Config, s: State, i: nat, j: nat, pc: SchedPc, cell: Cell, w: Worker)
    requires i < c.schedulers && j < c.queues
  {
    && Reachable(c, s) && Sized(c, s)
    && s.scheds[i].pc == pc && CellOf(c, s, i, j) == cell && WorkerOf(c, s, i, j) == w
  }

  /** Some reachable state has queue j of scheduler i, and that scheduler, in these states. */
  ghost predicate Sees(c: Config, i: nat, j: nat, pc: SchedPc, cell: Cell, w: Worker) {
    && i < c.schedulers && j < c.queues
    && exists s :: Shows(c, s, i, j, pc, cell, w)
  }

  function AtPc(pc: SchedPc): Scheduler {
    Scheduler(pc, [], [], 0)
  }

  /** Where a scheduler step leads depends on its program counter, not on its reports. */
  lemma ReportsDoNotSteer(c: Config, i: nat, d: Scheduler, cell: Cell, w: Worker, choice: bool)
    ensures Touches(c, d.pc).Some? ==>
              var (d', cell', w') := TouchStep(c, i, d, cell, w);
              var (e', cell2, w2) := TouchStep(c, i, AtPc(d.pc), cell, w);
              d'.pc == e'.pc && cell' == cell2 && w' == w2
    ensures Touches(c, d.pc).None? ==> IdleStep(c, i, d, choice).pc == IdleStep(c, i, AtPc(d.pc), choice).pc
  {
  }

  lemma Scheduled(c: Config, i: nat, j: nat, pc: SchedPc, cell: Cell, w: Worker, choice: bool)
    returns (pc': SchedPc, cell': Cell, w': Worker)
    requires Sees(c, i, j, pc, cell, w) && (Touches(c, pc).Some? ==> pc.j == j)
    ensures Sees(c, i, j, pc', cell', w')
    ensures if Touches(c, pc).None? then (pc', cell', w') == (IdleStep(c, i, AtPc(pc), choice).pc, cell, w)
            else var r := TouchStep(c, i, AtPc(pc), cell, w); (pc', cell', w') == (r.0.pc, r.1, r.2)
  {
    hide TouchStep, IdleStep, Reachable;
    var s :| Shows(c, s, i, j, pc, cell, w);
    ReportsDoNotSteer(c, i, s.scheds[i], cell, w, choice);
    ReachNext(c, s, SchedStep(i, choice));
    var s' := Next(c, s, SchedStep(i, choice));
    ThdInRange(c, i, j);
    pc', cell', w' := s'.scheds[i].pc, CellOf(c, s', i, j), WorkerOf(c, s', i, j);
    assert Shows(c, s', i, j, pc', cell', w');
  }

  lemma Worked(c: Config, i: nat, j: nat, pc: SchedPc, cell: Cell, w: Worker, late: bool)
    returns (cell': Cell, w': Worker)
    requires Sees(c, i, j, pc, cell, w) && !w.pc.Parked?
    ensures Sees(c, i, j, pc, cell', w') && (cell', w') == WorkerStep(c, Thd(c, i, j), cell, w, 0, late)
  {
    hide WorkerStep, Reachable;
    var s :| Shows(c, s, i, j, pc, cell, w);
    ThdInRange(c, i, j);
    var a := WorkerAct(Thd(c, i, j), 0, late);
    ReachNext(c, s, a);
    var s' := Next(c, s, a);
    cell', w' := CellOf(c, s', i, j), WorkerOf(c, s', i, j);
    assert Shows(c, s', i, j, pc, cell', w');
  }

  /** A pending activation starts, or an event on the armed CQ starts one. */
  lemma Started(c: Config, i: nat, j: nat, pc: SchedPc, cell: Cell, w: Worker) returns (w': Worker)
    requires Sees(c, i, j, pc, cell, w) && w.pc.Parked? && (w.pending || w.armed)
    ensures Sees(c, i, j, pc, cell, w')
    ensures w' == Activated(w).(armed := w.armed && w.pending)
  {
    hide Reachable;
    var s :| Shows(c, s, i, j, pc, cell, w);
    ThdInRange(c, i, j);
    var t := Thd(c, i, j);
    if !w.pending {
      ReachNext(c, s, Arrival(t));
      s := Next(c, s, Arrival(t));
    }
    ReachNext(c, s, Start(t));
    s := Next(c, s, Start(t));
    w' := WorkerOf(c, s, i, j);
    assert Shows(c, s, i, j, pc, cell, w');
  }

  // ---- passing over the other queues ----

  /** The scheduler's turn for another queue does not touch this one. */
  lemma {:induction false} SkipTurn(c: Config, i: nat, j: nat, pc: SchedPc, cell: Cell, w: Worker)
    requires Sees(c, i, j, pc, cell, w) && Touches(c, pc).Some? && pc.j != j
    ensures Sees(c, i, j, Head(pc, pc.j + 1), cell, w)
    decreases TurnRank(pc)
  {
    hide TouchStep, IdleStep, Reachable, Head, TurnRank;
    var s :| Shows(c, s, i, j, pc, cell, w);
    var a, k := SchedStep(i, true), pc.j;
    ThdInRange(c, i, j);
    ThdInRange(c, i, k);
    if Thd(c, i, j) == Thd(c, i, k) {
      ThdInjective(c, i, j, i, k);
    }
    TurnGoesOn(c, i, s.scheds[i], CellOf(c, s, i, k), WorkerOf(c, s, i, k));
    ReachNext(c, s, a);
    var s' := Next(c, s, a);
    assert Shows(c, s', i, j, s'.scheds[i].pc, cell, w);
    if s'.scheds[i].pc != Head(pc, k + 1) {
      SkipTurn(c, i, j, s'.scheds[i].pc, cell, w);
    }
  }

  /** The scheduler's loop gets from one index to a later one that leaves queue j out. */
  lemma {:induction false} SkipTurns(c: Config, i: nat, j: nat, pc: SchedPc, cell: Cell, w: Worker, until: nat)
    returns (pc': SchedPc)
    requires Sees(c, i, j, pc, cell, w) && IsHead(pc) && pc.j <= until <= c.queues && !(pc.j <= j < until)
    ensures pc' == Head(pc, until) && Sees(c, i, j, pc', cell, w)
    decreases until - pc.j
  {
    hide Sees;
    pc' := pc;
    if pc.j < until {
      SkipTurn(c, i, j, pc, cell, w);
      pc' := SkipTurns(c, i, j, Head(pc, pc.j + 1), cell, w, until);
    }
  }

  // ---- the start-up ----

  /** The first activation has cleared the counters and turns to the wake-ups; nothing has happened to the queue yet. */
  lemma AtWakeUp(c: Config, i: nat, j: nat) returns (pc: SchedPc, cell: Cell, w: Worker)
    requires i < c.schedulers && j < c.queues
    ensures Sees(c, i, j, pc, cell, w) && pc == WakeLoad(j)
    ensures cell == Cell(OFF, None, 0, 0, 0, 0) && w == Worker(Parked, true, false, None, false, 0)
  {
    hide Sees;
    pc, cell, w := AtStart(c, i, j);
    pc := SkipTurns(c, i, j, pc, cell, w, j);
    pc, cell, w := Scheduled(c, i, j, pc, cell, w, true);
    pc := SkipTurns(c, i, j, pc, cell, w, c.queues);
    pc, cell, w := Scheduled(c, i, j, pc, cell, w, true);
    pc := SkipTurns(c, i, j, pc, cell, w, j);
  }

  lemma AtStart(c: Config, i: nat, j: nat) returns (pc: SchedPc, cell: Cell, w: Worker)
    requires i < c.schedulers && j < c.queues
    ensures Sees(c, i, j, pc, cell, w) && pc == ResetBusy(0)
    ensures cell == Cell(OFF, None, c.leftover(Thd(c, i, j)), 0, 0, 0)
    ensures w == Worker(Parked, true, false, None, false, 0)
  {
    ThdInRange(c, i, j);
    var s := Initial(c);
    pc, cell, w := s.scheds[i].pc, CellOf(c, s, i, j), WorkerOf(c, s, i, j);
    assert Run(c, s, []) == s;
    assert Shows(c, s, i, j, pc, cell, w);
  }

  /** From a wake-up load that needs no interrupt to the store of HANG. */
  lemma ToPublishHang(c: Config, i: nat, j: nat, pc: SchedPc, cell: Cell, w: Worker)
    returns (pc': SchedPc, cell': Cell, w': Worker)
    requires j < c.queues && Sees(c, i, j, pc, cell, w) && pc == WakeLoad(j + 1)
    ensures Sees(c, i, j, pc', cell', w') && pc' == PublishHang(j)
    ensures cell' == cell.(tenant := Some(Queue(i, j))) && w' == w
  {
    hide Sees;
    pc' := SkipTurns(c, i, j, pc, cell, w, c.queues);
    pc', cell', w' := Scheduled(c, i, j, pc', cell, w, true);
    pc' := SkipTurns(c, i, j, pc', cell', w', j);
    pc', cell', w' := Scheduled(c, i, j, pc', cell', w', true);
  }

  lemma SeesLost(c: Config, i: nat, j: nat, pc: SchedPc, cell: Cell, w: Worker)
    requires Sees(c, i, j, pc, cell, w) && Lost(cell, w)
    ensures !NeverLoses(c, Thd(c, i, j))
  {
    hide Reachable;
    ThdInRange(c, i, j);
    var s :| Shows(c, s, i, j, pc, cell, w);
    assert Lost(s.cells[Thd(c, i, j)], s.workers[Thd(c, i, j)]);
  }

  /** Without a CQ number the first activation stores HANG over a parked worker and sends nothing. */
  lemma UnnumberedLoses(c: Config, i: nat, j: nat)
    requires i < c.schedulers && j < c.queues && c.cqNumber(Thd(c, i, j)) == 0
    ensures !NeverLoses(c, Thd(c, i, j))
  {
    hide Sees;
    var pc, cell, w := AtWakeUp(c, i, j);
    pc, cell, w := Scheduled(c, i, j, pc, cell, w, true);
    pc, cell, w := ToPublishHang(c, i, j, pc, cell, w);
    pc, cell, w := Scheduled(c, i, j, pc, cell, w, true);
    SeesLost(c, i, j, pc, cell, w);
  }

  /** The scheduler has been through its start-up, and the worker through a packet loop, up to arming its CQ. */
  lemma ReachArming(c: Config, i: nat, j: nat) returns (pc: SchedPc, cell: Cell, w: Worker)
    requires i < c.schedulers && j < c.queues
    ensures Sees(c, i, j, pc, cell, w)
    ensures pc == ClockTest && cell.status == HANG && w == Worker(Arm, false, false, Some(Queue(i, j)), true, 1)
  {
    hide Sees;
    pc, cell, w := AtWakeUp(c, i, j);
    pc, cell, w := Scheduled(c, i, j, pc, cell, w, true);
    if c.cqNumber(Thd(c, i, j)) != 0 {
      pc, cell, w := Scheduled(c, i, j, pc, cell, w, true);
    }
    pc, cell, w := ToPublishHang(c, i, j, pc, cell, w);
    pc, cell, w := Scheduled(c, i, j, pc, cell, w, true);
    pc := SkipTurns(c, i, j, pc, cell, w, c.queues);
    pc, cell, w := Scheduled(c, i, j, pc, cell, w, true);
    w := Started(c, i, j, pc, cell, w);
    cell, w := Worked(c, i, j, pc, cell, w, true);
    cell, w := Worked(c, i, j, pc, cell, w, true);
    cell, w := Worked(c, i, j, pc, cell, w, true);
    cell, w := LoopsOnce(c, i, j, pc, cell, w);
  }

  /** From loading the tenant, through one packet, to arming the CQ. */
  lemma LoopsOnce(c: Config, i: nat, j: nat, pc: SchedPc, cell: Cell, w: Worker) returns (cell': Cell, w': Worker)
    requires Sees(c, i, j, pc, cell, w) && w.pc.LoadTenant?
    ensures Sees(c, i, j, pc, cell', w')
    ensures w' == w.(pc := Arm, tenant := cell.tenant) && cell'.status == cell.status && cell'.tenant == cell.tenant
  {
    hide Sees;
    cell', w' := Worked(c, i, j, pc, cell, w, true);
    cell', w' := Worked(c, i, j, pc, cell', w', true);
    cell', w' := Worked(c, i, j, pc, cell', w', true);
  }

  /** From arming its CQ to being parked at OFF. */
  lemma Parks(c: Config, i: nat, j: nat, pc: SchedPc, cell: Cell, w: Worker) returns (cell': Cell, w': Worker)
    requires Sees(c, i, j, pc, cell, w) && w.pc.Arm?
    ensures Sees(c, i, j, pc, cell', w')
    ensures cell' == cell.(status := OFF) && w' == w.(pc := Parked, armed := true)
  {
    hide Sees;
    cell', w' := Worked(c, i, j, pc, cell, w, true);
    cell', w' := Worked(c, i, j, pc, cell', w', true);
    cell', w' := Worked(c, i, j, pc, cell', w', true);
  }

  // ---- the runs that lose a wake-up, and the exact condition ----

  /** A scheduler that is entered again sees HANG, sends nothing, and stores HANG after the worker has parked. */
  lemma ReentryLoses(c: Config, i: nat, j: nat)
    requires i < c.schedulers && j < c.queues && c.reenters(i)
    ensures !NeverLoses(c, Thd(c, i, j))
  {
    hide Sees;
    var pc, cell, w := ReachArming(c, i, j);
    pc, cell, w := Scheduled(c, i, j, pc, cell, w, false);
    pc, cell, w := Scheduled(c, i, j, pc, cell, w, true);
    pc := SkipTurns(c, i, j, pc, cell, w, j);
    pc, cell, w := Scheduled(c, i, j, pc, cell, w, true);
    pc, cell, w := ToPublishHang(c, i, j, pc, cell, w);
    cell, w := Parks(c, i, j, pc, cell, w);
    pc, cell, w := Scheduled(c, i, j, pc, cell, w, true);
    SeesLost(c, i, j, pc, cell, w);
  }

  /** A visit is about to begin and finds its worker parked at OFF. */
  lemma ReachParkedVisit(c: Config, i: nat, j: nat) returns (pc: SchedPc, cell: Cell, w: Worker)
    requires i < c.schedulers && j < c.queues
    ensures Sees(c, i, j, pc, cell, w)
    ensures pc == VisitLoad(j) && cell.status == OFF && w == Worker(Parked, true, false, Some(Queue(i, j)), true, 1)
  {
    hide Sees;
    pc, cell, w := ReachArming(c, i, j);
    cell, w := Parks(c, i, j, pc, cell, w);
    pc, cell, w := Scheduled(c, i, j, pc, cell, w, true);
    pc := SkipTurns(c, i, j, pc, cell, w, j);
  }

  /** A worker that skips its spin after the first activation can run a whole activation between the scheduler's
      interrupt, which finds its CQ unarmed, and the scheduler's store of HANG. */
  lemma SkippedSpinLoses(c: Config, i: nat, j: nat)
    requires i < c.schedulers && j < c.queues && c.variant(Thd(c, i, j)).Tnt2?
    ensures !NeverLoses(c, Thd(c, i, j))
  {
    hide Sees;
    var pc, cell, w := ReachParkedVisit(c, i, j);
    w := Started(c, i, j, pc, cell, w);
    pc, cell, w := Scheduled(c, i, j, pc, cell, w, true);
    pc, cell, w := Scheduled(c, i, j, pc, cell, w, true);
    cell, w := Worked(c, i, j, pc, cell, w, true);
    cell, w := Worked(c, i, j, pc, cell, w, true);
    cell, w := Worked(c, i, j, pc, cell, w, true);
    cell, w := LoopsOnce(c, i, j, pc, cell.(status := FREE), w);
    cell, w := Parks(c, i, j, pc, cell, w);
    pc, cell, w := Scheduled(c, i, j, pc, cell, w, true);
    SeesLost(c, i, j, pc, cell, w);
  }

  /** In every configuration, whatever its size and its other workers: a worker never loses a wake-up if and only if it
      spins on every activation, its CQ has a number, and its own scheduler is not entered a second time. */
  lemma NeverLosesExactly(c: Config, t: nat)
    requires t < c.schedulers * c.queues
    ensures NeverLoses(c, t) <==> c.variant(t).Tnt1? && c.cqNumber(t) != 0 && !c.reenters(t / c.queues)
  {
    hide Run, Initial;
    var i, j := QueueOfThd(c, t);
    if c.cqNumber(t) == 0 {
      UnnumberedLoses(c, i, j);
    } else if c.reenters(i) {
      ReentryLoses(c, i, j);
    } else if c.variant(t).Tnt2? {
      SkippedSpinLoses(c, i, j);
    } else {
      forall s: State | Reachable(c, s) && Sized(c, s) && t < |s.cells|
        ensures !Lost(s.cells[t], s.workers[t])
      {
        var acts :| Run(c, Initial(c), acts) == s;
        NoLostWakeup(c, acts, t);
      }
    }
  }

  /** Every run keeps what the status words of worker t tell. */
  ghost predicate AlwaysShakesHands(c: Config, t: nat) {
    forall s: State :: Reachable(c, s) && Sized(c, s) && t < |s.cells| ==> Handshake(s.cells[t], s.workers[t])
  }

  /** In every configuration: a worker's status word can be trusted in every run if and only if it spins on every
      activation. The other kind of worker is in its packet loop at FREE when it comes back. */
  lemma HandshakeExactly(c: Config, t: nat)
    requires t < c.schedulers * c.queues
    ensures AlwaysShakesHands(c, t) <==> c.variant(t).Tnt1?
  {
    hide Run, Initial, Sees;
    var i, j := QueueOfThd(c, t);
    if c.variant(t).Tnt1? {
      forall s: State | Reachable(c, s) && Sized(c, s) && t < |s.cells|
        ensures Handshake(s.cells[t], s.workers[t])
      {
        var acts :| Run(c, Initial(c), acts) == s;
        var i', j' := ReachableQueue(c, acts, t);
      }
    } else {
      var pc, cell, w := ReachParkedVisit(c, i, j);
      w := Started(c, i, j, pc, cell, w);
      cell, w := Worked(c, i, j, pc, cell, w, true);
      cell, w := Worked(c, i, j, pc, cell, w, true);
      cell, w := Worked(c, i, j, pc, cell, w, true);
      assert !Handshake(cell, w);
      var s := Shown(c, i, j, pc, cell, w);
    }
  }

  // ---- every kind of visit begins in some reachable state ----

  ghost predicate VisitBegins(c: Config, s: State, i: nat, j: nat) {
    Reachable(c, s) && GlobalInv(c, s) && i < c.schedulers && j < c.queues && s.scheds[i].pc == VisitLoad(j)
  }

  /** In every configuration, each worker can be visited while parked at OFF, while spinning on FREE, and between the
      visit's interrupt and its store of HANG. */
  lemma VisitsHappen(c: Config, i: nat, j: nat)
    requires i < c.schedulers && j < c.queues
    ensures exists s :: VisitBegins(c, s, i, j) && CellOf(c, s, i, j).status.OFF? && WorkerOf(c, s, i, j).pc.Parked?
    ensures exists s :: VisitBegins(c, s, i, j) && CellOf(c, s, i, j).status.FREE? && Spinning(WorkerOf(c, s, i, j))
    ensures exists s :: Reachable(c, s) && GlobalInv(c, s)
                        && OffMid(s.scheds[i].pc, j, CellOf(c, s, i, j), WorkerOf(c, s, i, j), CellOf(c, s, i, j).irqs)
  {
    hide Reachable, GlobalInv;
    var pc, cell, w := ReachParkedVisit(c, i, j);
    var s := Shown(c, i, j, pc, cell, w);
    assert VisitBegins(c, s, i, j) && CellOf(c, s, i, j).status.OFF? && WorkerOf(c, s, i, j).pc.Parked?;
    w := Started(c, i, j, pc, cell, w);
    var pc1, cell1, w1 := Scheduled(c, i, j, pc, cell, w, true);
    var s1 := Shown(c, i, j, pc1, cell1, w1);
    assert OffMid(pc1, j, cell1, w1, cell1.irqs);
    cell, w := Worked(c, i, j, pc, cell, w, true);
    cell, w := Worked(c, i, j, pc, cell, w, true);
    var s2 := Shown(c, i, j, pc, cell, w);
    assert VisitBegins(c, s2, i, j) && CellOf(c, s2, i, j).status.FREE? && Spinning(WorkerOf(c, s2, i, j));
  }

  lemma Shown(c: Config, i: nat, j: nat, pc: SchedPc, cell: Cell, w: Worker) returns (s: State)
    requires Sees(c, i, j, pc, cell, w)
    ensures Shows(c, s, i, j, pc, cell, w) && GlobalInv(c, s)
  {
    hide Run, Initial, GlobalInv, CellOf, WorkerOf;
    s :| Shows(c, s, i, j, pc, cell, w);
    var acts :| Run(c, Initial(c), acts) == s;
    ReachableInv(c, acts);
  }
}
