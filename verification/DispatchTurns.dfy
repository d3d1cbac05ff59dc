/** What the scheduler's start-up and its reports do to a queue, and which interrupts it sends, over runs and however
    the other steps interleave with them. */
module DispatchTurns {
  import opened Words
  import opened Sums
  import opened Accounting
  import opened Dispatch
  import opened DispatchTheorems
  import opened DispatchProgress

  // ---- what one action does to one queue ----

  /** The scheduler goes on to its next access, and that access is none to queue j. */
  predicate PassesBy(c: Config, i: nat, j: nat, d: Scheduler, d': Scheduler, choice: bool) {
    if Touches(c, d.pc).None? then d' == IdleStep(c, i, d, choice)
    else
      && d.pc.j != j
      && (|| d'.pc == Head(d.pc, d.pc.j + 1)
          || (Touches(c, d'.pc) == Touches(c, d.pc) && TurnRank(d'.pc) < TurnRank(d.pc)
              && Head(d'.pc, d.pc.j + 1) == Head(d.pc, d.pc.j + 1)))
  }

  /** All that can happen to queue j and its scheduler at once. */
  predicate Effect(c: Config, i: nat, j: nat, d: Scheduler, cell: Cell, w: Worker,
                   d': Scheduler, cell': Cell, w': Worker, a: Action)
  {
    if a.SchedStep? && a.i == i then
      if Touches(c, d.pc) == Some(j) then (d', cell', w') == TouchStep(c, i, d, cell, w)
      else cell' == cell && w' == w && PassesBy(c, i, j, d, d', a.choice)
    else
      && d' == d
      && (|| Elsewhere(cell, w, cell', w')
          || (a.WorkerAct? && !w.pc.Parked? && (cell', w') == WorkerStep(c, Thd(c, i, j), cell, w, a.delta, a.late)))
  }

  lemma ActEffect(c: Config, s: State, a: Action, i: nat, j: nat)
    requires Sized(c, s) && i < c.schedulers && j < c.queues
    ensures var s' := Act(c, s, a);
            Effect(c, i, j, s.scheds[i], CellOf(c, s, i, j), WorkerOf(c, s, i, j),
                   s'.scheds[i], CellOf(c, s', i, j), WorkerOf(c, s', i, j), a)
  {
    hide TouchStep, IdleStep, WorkerStep, Send, Activated, Head, TurnRank;
    ThdInRange(c, i, j);
    if Enabled(c, s, a) && a.SchedStep? {
      var d := s.scheds[i];
      if a.i != i {
        PartitionHolds(c, s, a.i, a.choice, i, j);
      } else if Touches(c, d.pc).Some? && d.pc.j != j {
        ThdInRange(c, i, d.pc.j);
        if Thd(c, i, d.pc.j) == Thd(c, i, j) {
          ThdInjective(c, i, d.pc.j, i, j);
        }
        TurnGoesOn(c, i, d, CellOf(c, s, i, d.pc.j), WorkerOf(c, s, i, d.pc.j));
      }
    }
  }

  // ---- interrupts ----

  /** The action sends the interrupt of queue j. */
  predicate Sends(c: Config, s: State, a: Action, i: nat, j: nat)
    requires Sized(c, s) && i < c.schedulers
  {
    && a.SchedStep? && a.i == i && (s.scheds[i].pc == WakeSend(j) || s.scheds[i].pc == VisitSend(j))
    && c.cqNumber(Thd(c, i, j)) != 0
  }

  ghost function Sent(c: Config, s: State, acts: seq<Action>, i: nat, j: nat): nat
    requires Sized(c, s) && i < c.schedulers
    decreases |acts|
  {
    if acts == [] then 0
    else (if Sends(c, s, acts[0], i, j) then 1 else 0) + Sent(c, Act(c, s, acts[0]), acts[1..], i, j)
  }

  lemma EffectSends(c: Config, s: State, a: Action, i: nat, j: nat)
    requires Sized(c, s) && i < c.schedulers && j < c.queues
    ensures CellOf(c, Act(c, s, a), i, j).irqs == CellOf(c, s, i, j).irqs + if Sends(c, s, a, i, j) then 1 else 0
  {
    hide Act, CellOf, WorkerOf, IdleStep, Head, TurnRank;
    ActEffect(c, s, a, i, j);
  }

  /** A queue's interrupts are those of the scheduler's two send statements, and only with a CQ number. */
  lemma {:induction false} InterruptsAreSends(c: Config, s: State, acts: seq<Action>, i: nat, j: nat)
    requires Sized(c, s) && i < c.schedulers && j < c.queues
    ensures CellOf(c, Run(c, s, acts), i, j).irqs == CellOf(c, s, i, j).irqs + Sent(c, s, acts, i, j)
    decreases |acts|
  {
    hide Act, CellOf, Sends;
    if acts != [] {
      EffectSends(c, s, acts[0], i, j);
      InterruptsAreSends(c, Act(c, s, acts[0]), acts[1..], i, j);
    }
  }

  lemma {:induction false} RestOfVisit(c: Config, s: State, acts: seq<Action>, i: nat, j: nat)
    requires Sized(c, s) && i < c.schedulers && j < c.queues && Finishes(c, s, acts, i, j)
    requires s.scheds[i].pc != VisitLoad(j)
    ensures CellOf(c, Run(c, s, acts), i, j).irqs == CellOf(c, s, i, j).irqs +
              if s.scheds[i].pc.VisitSend? && c.cqNumber(Thd(c, i, j)) != 0 then 1 else 0
    decreases |acts|
  {
    hide Act, CellOf, WorkerOf, IdleStep, Head, TurnRank;
    ActEffect(c, s, acts[0], i, j);
    if |acts| > 1 {
      RestOfVisit(c, Act(c, s, acts[0]), acts[1..], i, j);
    }
  }

  /** In every configuration, a visit sends one interrupt if its load reads OFF and the CQ has a number, and otherwise
      none. */
  lemma {:induction false} VisitInterrupts(c: Config, s: State, acts: seq<Action>, i: nat, j: nat)
    requires Sized(c, s) && i < c.schedulers && j < c.queues && Visit(c, s, acts, i, j)
    ensures CellOf(c, Run(c, s, acts), i, j).irqs == CellOf(c, s, i, j).irqs +
              if Loaded(c, s, acts, i, j) == OFF && c.cqNumber(Thd(c, i, j)) != 0 then 1 else 0
    decreases |acts|
  {
    hide Act, CellOf, WorkerOf, IdleStep, Head, TurnRank;
    var a, s' := acts[0], Act(c, s, acts[0]);
    ActEffect(c, s, a, i, j);
    if a.SchedStep? && a.i == i {
      RestOfVisit(c, s', acts[1..], i, j);
    } else {
      VisitInterrupts(c, s', acts[1..], i, j);
    }
  }

  // ---- the start-up of an activation, up to the store of HANG ----

  /** The run ends when scheduler i first stands at `goal`. */
  ghost predicate Until(c: Config, s: State, acts: seq<Action>, i: nat, goal: SchedPc)
    requires Sized(c, s) && i < c.schedulers
    decreases |acts|
  {
    if acts == [] then s.scheds[i].pc == goal
    else s.scheds[i].pc != goal && Until(c, Act(c, s, acts[0]), acts[1..], i, goal)
  }

  /** The wake-up loop has still to load queue j's status. */
  predicate BeforeWake(pc: SchedPc, j: nat) {
    pc.Done? || pc.ResetBusy? || (pc.WakeLoad? && pc.j <= j) || (pc.WakeSend? && pc.j < j)
  }

  /** The wake-up loop is done with queue j, and HANG is not stored yet. */
  predicate AfterWake(pc: SchedPc, j: nat) {
    || (pc.WakeLoad? && j < pc.j) || (pc.WakeSend? && j < pc.j)
    || (pc.PublishTenant? && pc.j <= j) || (pc.PublishHang? && pc.j <= j)
  }

  /** What the wake-up loop's load of queue j reads. */
  ghost function WakeLoaded(c: Config, s: State, acts: seq<Action>, i: nat, j: nat): Status
    requires Sized(c, s) && i < c.schedulers && j < c.queues
    decreases |acts|
  {
    if acts == [] || (acts[0].SchedStep? && acts[0].i == i && s.scheds[i].pc == WakeLoad(j))
    then CellOf(c, s, i, j).status
    else WakeLoaded(c, Act(c, s, acts[0]), acts[1..], i, j)
  }

  lemma WakeMoves(c: Config, i: nat, j: nat, d: Scheduler, cell: Cell, w: Worker,
                  d': Scheduler, cell': Cell, w': Worker, a: Action)
    requires j < c.queues && Effect(c, i, j, d, cell, w, d', cell', w', a)
    ensures BeforeWake(d.pc, j) ==>
              && cell'.irqs == cell.irqs
              && if d.pc == WakeLoad(j) && a.SchedStep? && a.i == i
                 then d'.pc == if cell.status == OFF && c.cqNumber(Thd(c, i, j)) != 0 then WakeSend(j)
                               else WakeLoad(j + 1)
                 else BeforeWake(d'.pc, j)
    ensures d.pc == WakeSend(j) ==>
              if a.SchedStep? && a.i == i
              then d'.pc == WakeLoad(j + 1) && (cell', w') == SendIfNumbered(c, Thd(c, i, j), cell, w)
              else d'.pc == d.pc && cell'.irqs == cell.irqs
    ensures AfterWake(d.pc, j) && d.pc != PublishHang(j) ==> AfterWake(d'.pc, j) && cell'.irqs == cell.irqs
  {
    hide Charge;
  }

  lemma {:induction false} AfterWakeCounts(c: Config, s: State, acts: seq<Action>, i: nat, j: nat)
    requires Sized(c, s) && i < c.schedulers && j < c.queues && Until(c, s, acts, i, PublishHang(j))
    requires AfterWake(s.scheds[i].pc, j) || s.scheds[i].pc == WakeSend(j)
    ensures CellOf(c, Run(c, s, acts), i, j).irqs == CellOf(c, s, i, j).irqs +
              if s.scheds[i].pc == WakeSend(j) && c.cqNumber(Thd(c, i, j)) != 0 then 1 else 0
    decreases |acts|
  {
    hide Act, CellOf, WorkerOf, Effect;
    if acts != [] {
      var s' := Act(c, s, acts[0]);
      ActEffect(c, s, acts[0], i, j);
      WakeMoves(c, i, j, s.scheds[i], CellOf(c, s, i, j), WorkerOf(c, s, i, j),
                s'.scheds[i], CellOf(c, s', i, j), WorkerOf(c, s', i, j), acts[0]);
      AfterWakeCounts(c, s', acts[1..], i, j);
    }
  }

  /** In every configuration and every activation, the start-up sends one interrupt if its load reads OFF and the CQ
      has a number, and otherwise none, up to the store of HANG. */
  lemma {:induction false} StartUpInterrupts(c: Config, s: State, acts: seq<Action>, i: nat, j: nat)
    requires Sized(c, s) && i < c.schedulers && j < c.queues && Until(c, s, acts, i, PublishHang(j))
    requires BeforeWake(s.scheds[i].pc, j)
    ensures CellOf(c, Run(c, s, acts), i, j).irqs == CellOf(c, s, i, j).irqs +
              if WakeLoaded(c, s, acts, i, j) == OFF && c.cqNumber(Thd(c, i, j)) != 0 then 1 else 0
    decreases |acts|
  {
    hide Act, CellOf, WorkerOf, Effect;
    var s' := Act(c, s, acts[0]);
    ActEffect(c, s, acts[0], i, j);
    WakeMoves(c, i, j, s.scheds[i], CellOf(c, s, i, j), WorkerOf(c, s, i, j),
              s'.scheds[i], CellOf(c, s', i, j), WorkerOf(c, s', i, j), acts[0]);
    if BeforeWake(s'.scheds[i].pc, j) {
      StartUpInterrupts(c, s', acts[1..], i, j);
    } else {
      AfterWakeCounts(c, s', acts[1..], i, j);
    }
  }

  /** The worker has not been told to run, and will look or be woken. */
  predicate Roused(cell: Cell, w: Worker) {
    !cell.status.HANG? && !PastSpin(w.pc) && (WillLook(w.pc) || w.pending)
  }

  /** The status word is OFF in every state of the run. */
  ghost predicate StaysOff(c: Config, s: State, acts: seq<Action>, i: nat, j: nat)
    requires Sized(c, s) && i < c.schedulers && j < c.queues
    decreases |acts|
  {
    CellOf(c, s, i, j).status.OFF? && (acts == [] || StaysOff(c, Act(c, s, acts[0]), acts[1..], i, j))
  }

  lemma RousedMoves(c: Config, i: nat, j: nat, d: Scheduler, cell: Cell, w: Worker,
                    d': Scheduler, cell': Cell, w': Worker, a: Action)
    requires j < c.queues && Effect(c, i, j, d, cell, w, d', cell', w', a)
    requires QueueInv(c, i, j, d.pc, cell, w) && (Spins(c, Thd(c, i, j), w) || cell.status.OFF?)
    requires Spins(c, Thd(c, i, j), w') || cell'.status.OFF?
    requires d.pc == WakeSend(j) ==> c.cqNumber(Thd(c, i, j)) != 0 && !cell.status.HANG? && !PastSpin(w.pc)
    requires AfterWake(d.pc, j) ==> d.pc != PublishHang(j) && Roused(cell, w)
    requires d.pc == WakeSend(j) || AfterWake(d.pc, j)
    ensures if d.pc == WakeSend(j) && !(a.SchedStep? && a.i == i) then !cell'.status.HANG? && !PastSpin(w'.pc)
            else Roused(cell', w')
  {
    hide Conserved, Quiet, Published, Unpublished, Woken, Charge, Standing, Head, TurnRank, IdleStep;
  }

  /** From the interrupt to the store of HANG the worker stays roused, unless it skips a spin. */
  lemma {:induction false} AfterWakeRouses(c: Config, s: State, acts: seq<Action>, i: nat, j: nat)
    requires GlobalInv(c, s) && i < c.schedulers && j < c.queues && Until(c, s, acts, i, PublishHang(j))
    requires Spins(c, Thd(c, i, j), WorkerOf(c, Run(c, s, acts), i, j)) || StaysOff(c, s, acts, i, j)
    requires var cell, w := CellOf(c, s, i, j), WorkerOf(c, s, i, j);
             if s.scheds[i].pc == WakeSend(j)
             then c.cqNumber(Thd(c, i, j)) != 0 && !cell.status.HANG? && !PastSpin(w.pc)
             else AfterWake(s.scheds[i].pc, j) && Roused(cell, w)
    ensures Roused(CellOf(c, Run(c, s, acts), i, j), WorkerOf(c, Run(c, s, acts), i, j))
    decreases |acts|
  {
    hide QueueInv, ReportOk, DrainedSum, Act, CellOf, Effect, Roused, PastSpin;
    if acts != [] {
      var a, s' := acts[0], Act(c, s, acts[0]);
      assert QueueOk(c, s, i, j);
      ThdInRange(c, i, j);
      ActivationsGrow(c, s, acts, Thd(c, i, j));
      ActivationsGrow(c, s', acts[1..], Thd(c, i, j));
      ActEffect(c, s, a, i, j);
      WakeMoves(c, i, j, s.scheds[i], CellOf(c, s, i, j), WorkerOf(c, s, i, j),
                s'.scheds[i], CellOf(c, s', i, j), WorkerOf(c, s', i, j), a);
      assert CellOf(c, s, i, j) == s.cells[Thd(c, i, j)] by {
        UnfoldCell(c, s, i, j);
      }
      RousedMoves(c, i, j, s.scheds[i], CellOf(c, s, i, j), WorkerOf(c, s, i, j),
                  s'.scheds[i], CellOf(c, s', i, j), WorkerOf(c, s', i, j), a);
      ActKeeps(c, s, a);
      AfterWakeRouses(c, s', acts[1..], i, j);
    }
  }

  lemma UnfoldCell(c: Config, s: State, i: nat, j: nat)
    requires Sized(c, s) && i < c.schedulers && j < c.queues
    ensures Thd(c, i, j) < |s.cells| && CellOf(c, s, i, j) == s.cells[Thd(c, i, j)]
  {
    ThdInRange(c, i, j);
  }

  /** In every activation of a scheduler: a worker on a numbered CQ that the start-up finds at OFF is roused when HANG
      is stored for it, if it has spun on every activation so far or its status is OFF throughout. */
  lemma {:induction false} StartUpRouses(c: Config, s: State, acts: seq<Action>, i: nat, j: nat)
    requires GlobalInv(c, s) && i < c.schedulers && j < c.queues && Until(c, s, acts, i, PublishHang(j))
    requires BeforeWake(s.scheds[i].pc, j) && c.cqNumber(Thd(c, i, j)) != 0 && WakeLoaded(c, s, acts, i, j) == OFF
    requires Spins(c, Thd(c, i, j), WorkerOf(c, Run(c, s, acts), i, j)) || StaysOff(c, s, acts, i, j)
    ensures Roused(CellOf(c, Run(c, s, acts), i, j), WorkerOf(c, Run(c, s, acts), i, j))
    decreases |acts|
  {
    hide QueueInv, ReportOk, DrainedSum, Act, CellOf, WorkerOf, Effect, Roused, PastSpin;
    var a, s' := acts[0], Act(c, s, acts[0]);
    ActKeeps(c, s, a);
    ActEffect(c, s, a, i, j);
    WakeMoves(c, i, j, s.scheds[i], CellOf(c, s, i, j), WorkerOf(c, s, i, j),
              s'.scheds[i], CellOf(c, s', i, j), WorkerOf(c, s', i, j), a);
    if BeforeWake(s'.scheds[i].pc, j) {
      StartUpRouses(c, s', acts[1..], i, j);
    } else {
      LoadChangesNothing(c, s, a, i, j);
      AfterWakeRouses(c, s', acts[1..], i, j);
    }
  }

  lemma LoadChangesNothing(c: Config, s: State, a: Action, i: nat, j: nat)
    requires GlobalInv(c, s) && i < c.schedulers && j < c.queues && s.scheds[i].pc == WakeLoad(j)
    requires a.SchedStep? && a.i == i
    ensures var s' := Act(c, s, a);
            CellOf(c, s', i, j) == CellOf(c, s, i, j) && WorkerOf(c, s', i, j) == WorkerOf(c, s, i, j)
    ensures CellOf(c, s, i, j).status.OFF? ==> !PastSpin(WorkerOf(c, s, i, j).pc)
  {
    hide QueueInv, ReportOk, DrainedSum;
    ThdInRange(c, i, j);
    assert QueueOk(c, s, i, j);
    LoadFinds(c, i, j, s.scheds[i].pc, CellOf(c, s, i, j), WorkerOf(c, s, i, j));
  }

  lemma {:induction false} OffIsLoaded(c: Config, s: State, acts: seq<Action>, i: nat, j: nat)
    requires Sized(c, s) && i < c.schedulers && j < c.queues && StaysOff(c, s, acts, i, j)
    ensures WakeLoaded(c, s, acts, i, j) == OFF
    decreases |acts|
  {
    hide Act, CellOf;
    if acts != [] && !(acts[0].SchedStep? && acts[0].i == i && s.scheds[i].pc == WakeLoad(j)) {
      OffIsLoaded(c, Act(c, s, acts[0]), acts[1..], i, j);
    }
  }

  /** Re-entry wakes: from the end of one activation to where the next one is about to store HANG, a worker on a
      numbered CQ whose status stays OFF is sent exactly one interrupt, and will look or be woken. */
  lemma ReentryWakes(c: Config, s: State, acts: seq<Action>, i: nat, j: nat)
    requires GlobalInv(c, s) && i < c.schedulers && j < c.queues && Until(c, s, acts, i, PublishHang(j))
    requires s.scheds[i].pc.Done? && c.cqNumber(Thd(c, i, j)) != 0 && StaysOff(c, s, acts, i, j)
    ensures var w := WorkerOf(c, Run(c, s, acts), i, j);
            && CellOf(c, Run(c, s, acts), i, j).irqs == CellOf(c, s, i, j).irqs + 1
            && (WillLook(w.pc) || w.pending)
  {
    hide QueueOk, ReportOk, DrainedSum, Run, Until, StaysOff;
    OffIsLoaded(c, s, acts, i, j);
    StartUpInterrupts(c, s, acts, i, j);
    StartUpRouses(c, s, acts, i, j);
  }

  /** The store of HANG that ends a start-up: the queue is published, and a roused worker is called. */
  lemma StartUpPublishes(c: Config, s: State, i: nat, j: nat, choice: bool)
    requires GlobalInv(c, s) && i < c.schedulers && j < c.queues && s.scheds[i].pc == PublishHang(j)
    ensures var e := Act(c, s, SchedStep(i, choice));
            var cell, w := CellOf(c, e, i, j), WorkerOf(c, e, i, j);
            && cell.status.HANG? && cell.tenant == Some(Queue(i, j)) && cell.irqs == CellOf(c, s, i, j).irqs
            && (Roused(CellOf(c, s, i, j), WorkerOf(c, s, i, j)) ==> Called(cell, w))
  {
    hide QueueInv, ReportOk, DrainedSum, Charge;
    ThdInRange(c, i, j);
    assert QueueOk(c, s, i, j);
    UnfoldCell(c, s, i, j);
    PublishedThere(c, i, j, s.scheds[i].pc, CellOf(c, s, i, j), WorkerOf(c, s, i, j));
  }

  lemma PublishedThere(c: Config, i: nat, j: nat, pc: SchedPc, cell: Cell, w: Worker)
    requires QueueInv(c, i, j, pc, cell, w) && pc == PublishHang(j)
    ensures cell.tenant == Some(Queue(i, j))
  {
  }

  /** The scheduler is on its way to its store of HANG for queue j. */
  predicate StartingUp(pc: SchedPc, j: nat) {
    BeforeWake(pc, j) || pc == WakeSend(j) || AfterWake(pc, j)
  }

  function StartPhase(pc: SchedPc): nat {
    match pc
    case Done => 3
    case ResetBusy(_) => 2
    case WakeLoad(_) => 1
    case WakeSend(_) => 1
    case _ => 0
  }

  lemma StartUpNearer(c: Config, s: State, i: nat, j: nat)
    requires Sized(c, s) && i < c.schedulers && j < c.queues && ReportOk(c, s.scheds[i])
    requires var pc := s.scheds[i].pc; StartingUp(pc, j) && pc != PublishHang(j) && (pc.Done? ==> c.reenters(i))
    ensures var pc, pc' := s.scheds[i].pc, Act(c, s, SchedStep(i, true)).scheds[i].pc;
            && StartingUp(pc', j) && !pc'.Done? && StartPhase(pc') <= StartPhase(pc)
            && (StartPhase(pc') == StartPhase(pc) ==> TurnsLeft(c, pc') <= TurnsLeft(c, pc))
            && (StartPhase(pc') == StartPhase(pc) && TurnsLeft(c, pc') == TurnsLeft(c, pc) ==>
                  TurnRank(pc') < TurnRank(pc))
  {
    hide Charge;
    if Touches(c, s.scheds[i].pc).Some? {
      ThdInRange(c, i, s.scheds[i].pc.j);
    }
  }

  /** A scheduler that may be entered again gets by its own steps to its next store of HANG for any of its queues. */
  lemma {:induction false} StartUpComes(c: Config, s: State, i: nat, j: nat) returns (acts: seq<Action>)
    requires GlobalInv(c, s) && i < c.schedulers && j < c.queues
    requires StartingUp(s.scheds[i].pc, j) && (s.scheds[i].pc.Done? ==> c.reenters(i))
    ensures Until(c, s, acts, i, PublishHang(j)) && forall a | a in acts :: a == SchedStep(i, true)
    decreases StartPhase(s.scheds[i].pc), TurnsLeft(c, s.scheds[i].pc), TurnRank(s.scheds[i].pc)
  {
    hide QueueOk, ReportOk, DrainedSum, Act, StartingUp, StartPhase, TurnsLeft, TurnRank;
    acts := [];
    if s.scheds[i].pc != PublishHang(j) {
      var a := SchedStep(i, true);
      StartUpNearer(c, s, i, j);
      ActKeeps(c, s, a);
      var rest := StartUpComes(c, Act(c, s, a), i, j);
      acts := [a] + rest;
      assert acts[1..] == rest;
    }
  }

  // ---- reports ----

  /** The run stays in one report, or ends it with its last action. */
  ghost predicate InReport(c: Config, s: State, acts: seq<Action>, i: nat)
    requires Sized(c, s) && i < c.schedulers
    decreases |acts|
  {
    && s.scheds[i].pc.Drain?
    && (acts == []
        || (|acts| == 1 && Act(c, s, acts[0]).scheds[i].pc.ClockTest?)
        || InReport(c, Act(c, s, acts[0]), acts[1..], i))
  }

  /** What one action does to the report, and to what has been taken out of queue k's counter. */
  lemma DrainMoves(c: Config, i: nat, k: nat, d: Scheduler, cell: Cell, w: Worker,
                   d': Scheduler, cell': Cell, w': Worker, a: Action)
    requires k < c.queues && d.pc.Drain? && |d.report| == d.pc.j <= c.queues
    requires Effect(c, i, k, d, cell, w, d', cell', w', a)
    ensures if a.SchedStep? && a.i == i && d.pc.j == k
            then d'.report == d.report + [cell'.drained - cell.drained] && cell'.drained >= cell.drained
            else cell'.drained == cell.drained
    ensures cell'.irqs == cell.irqs
    ensures if a.SchedStep? && a.i == i then d'.pc == if d.pc.j < c.queues then Drain(d.pc.j + 1) else ClockTest
            else d'.pc == d.pc
  {
    hide Charge;
  }

  lemma ReportGrows(c: Config, s: State, a: Action, i: nat)
    requires Sized(c, s) && i < c.schedulers
    requires s.scheds[i].pc.Drain? && |s.scheds[i].report| == s.scheds[i].pc.j <= c.queues
    ensures var d, d' := s.scheds[i], Act(c, s, a).scheds[i];
            && d.report <= d'.report && (d'.pc == d.pc ==> d'.report == d.report)
            && |d'.report| == if d'.pc.Drain? then d'.pc.j else c.queues
  {
    hide Charge, WorkerStep, Send;
  }

  /** In a report, queue k's counter is taken out exactly when the report reaches k, and what is listed is what was
      there. */
  lemma {:induction false} QueueDrained(c: Config, s: State, acts: seq<Action>, i: nat, k: nat)
    requires GlobalInv(c, s) && i < c.schedulers && k < c.queues && InReport(c, s, acts, i)
    ensures var e := Run(c, s, acts);
            var r, r' := s.scheds[i].report, e.scheds[i].report;
            && r <= r' && |r'| == (if e.scheds[i].pc.Drain? then e.scheds[i].pc.j else c.queues)
            && CellOf(c, e, i, k).drained == CellOf(c, s, i, k).drained + (if |r| <= k < |r'| then r'[k] else 0)
            && CellOf(c, e, i, k).irqs == CellOf(c, s, i, k).irqs
    decreases |acts|
  {
    hide QueueOk, DrainedSum, Act, CellOf, WorkerOf, Effect, Charged;
    if acts != [] {
      var a, s' := acts[0], Act(c, s, acts[0]);
      ActKeeps(c, s, a);
      ActEffect(c, s, a, i, k);
      DrainMoves(c, i, k, s.scheds[i], CellOf(c, s, i, k), WorkerOf(c, s, i, k),
                 s'.scheds[i], CellOf(c, s', i, k), WorkerOf(c, s', i, k), a);
      ReportGrows(c, s, a, i);
      var r, r1 := s.scheds[i].report, s'.scheds[i].report;
      assert CellOf(c, s', i, k).drained == CellOf(c, s, i, k).drained + if |r| <= k < |r1| then r1[k] else 0;
      if s'.scheds[i].pc.Drain? {
        QueueDrained(c, s', acts[1..], i, k);
      } else {
        assert Run(c, s, acts) == s';
      }
    }
  }

  /** In each report a tenant is charged with what has been taken out of its own queues' counters since the report
      began; a complete report takes from every queue once. The charges add up to all that was taken, up to 64-bit
      wraps. */
  lemma ReportCharges(c: Config, s: State, acts: seq<Action>, i: nat)
    requires GlobalInv(c, s) && i < c.schedulers && s.scheds[i].pc == Drain(0) && InReport(c, s, acts, i)
    ensures var e := Run(c, s, acts);
            var d := e.scheds[i];
            && |d.report| == (if d.pc.Drain? then d.pc.j else c.queues)
            && (forall k | 0 <= k < c.queues ::
                  CellOf(c, e, i, k).drained
                  == CellOf(c, s, i, k).drained + if k < |d.report| then d.report[k] else 0)
            && |d.used| == c.tenants > 0 && Charged(d.used, d.report)
            && (Sum(d.report) - Sum(d.used)) % WORD64 == 0
            && (Sum(d.report) < WORD64 ==> Sum(d.used) == Sum(d.report))
  {
    hide QueueOk, DrainedSum, Charged, CellOf, Sum, Run;
    var e := Run(c, s, acts);
    RunInv(c, s, acts);
    ReportLength(c, s, acts, i);
    forall k | 0 <= k < c.queues
      ensures CellOf(c, e, i, k).drained
              == CellOf(c, s, i, k).drained + if k < |e.scheds[i].report| then e.scheds[i].report[k] else 0
    {
      QueueDrained(c, s, acts, i, k);
    }
    ChargesAddUp(e.scheds[i].used, e.scheds[i].report);
  }

  lemma {:induction false} ReportLength(c: Config, s: State, acts: seq<Action>, i: nat)
    requires GlobalInv(c, s) && i < c.schedulers && InReport(c, s, acts, i)
    ensures var d := Run(c, s, acts).scheds[i];
            |d.report| == if d.pc.Drain? then d.pc.j else c.queues
    decreases |acts|
  {
    hide QueueOk, DrainedSum, Act, Charged;
    if acts != [] {
      ActKeeps(c, s, acts[0]);
      ReportGrows(c, s, acts[0], i);
      if Act(c, s, acts[0]).scheds[i].pc.Drain? {
        ReportLength(c, Act(c, s, acts[0]), acts[1..], i);
      }
    }
  }

  /** After the visits of a turn a due report begins with every tenant at zero, and without one nothing is drained. */
  lemma ReportStarts(c: Config, s: State, i: nat, due: bool)
    requires GlobalInv(c, s) && i < c.schedulers && s.scheds[i].pc == VisitLoad(c.queues)
    ensures var d, e := s.scheds[i], Act(c, s, SchedStep(i, due));
            && e.cells == s.cells
            && if due && c.tenants > 0
               then e.scheds[i].pc == Drain(0) && forall t | 0 <= t < |e.scheds[i].used| :: e.scheds[i].used[t] == 0
               else e.scheds[i].pc == ClockTest && e.scheds[i].used == d.used
  {
    hide QueueOk, DrainedSum;
  }

  /** A report that has begun is completed by the scheduler's own steps. */
  lemma {:induction false} ReportCompletes(c: Config, s: State, i: nat) returns (acts: seq<Action>)
    requires GlobalInv(c, s) && i < c.schedulers && s.scheds[i].pc.Drain?
    ensures InReport(c, s, acts, i) && Run(c, s, acts).scheds[i].pc.ClockTest?
    ensures forall a | a in acts :: a.SchedStep? && a.i == i
    decreases c.queues - s.scheds[i].pc.j
  {
    hide QueueOk, DrainedSum, Act, Charged;
    var a := SchedStep(i, true);
    var s' := Act(c, s, a);
    ActKeeps(c, s, a);
    DrainGoesOn(c, s, i);
    acts := [a];
    if s'.scheds[i].pc.Drain? {
      var rest := ReportCompletes(c, s', i);
      acts := [a] + rest;
      assert acts[1..] == rest;
    }
  }

  lemma DrainGoesOn(c: Config, s: State, i: nat)
    requires Sized(c, s) && i < c.schedulers && s.scheds[i].pc.Drain?
    ensures Act(c, s, SchedStep(i, true)).scheds[i].pc
            == if s.scheds[i].pc.j < c.queues then Drain(s.scheds[i].pc.j + 1) else ClockTest
  {
    hide Charge;
    if s.scheds[i].pc.j < c.queues {
      ThdInRange(c, i, s.scheds[i].pc.j);
    }
  }

  /** Reports happen: as long as its activation goes on, a scheduler with tenants gets by its own steps to the end of a
      turn of visits, and from there, if a report is due, through a complete report. */
  lemma ReportHappens(c: Config, s: State, i: nat) returns (turn: seq<Action>, report: seq<Action>)
    requires GlobalInv(c, s) && i < c.schedulers && c.queues > 0 && c.tenants > 0 && !s.scheds[i].pc.Done?
    ensures forall a | a in turn + report :: a.SchedStep? && a.i == i
    ensures var s1 := Run(c, s, turn);
            var s2 := Act(c, s1, SchedStep(i, true));
            && s1.scheds[i].pc == VisitLoad(c.queues) && s2.scheds[i].pc == Drain(0)
            && InReport(c, s2, report, i) && Run(c, s2, report).scheds[i].pc.ClockTest?
  {
    hide QueueOk, ReportOk, DrainedSum, Run, Act, Finishes, InReport;
    var j := c.queues - 1;
    var around := VisitComesAround(c, s, i, j);
    var visit := VisitCompletes(c, Run(c, s, around), i, j);
    turn := around + visit;
    RunSplit(c, s, around, visit);
    RunInv(c, s, turn);
    var s1 := Run(c, s, turn);
    ReportStarts(c, s1, i, true);
    ActKeeps(c, s1, SchedStep(i, true));
    report := ReportCompletes(c, Act(c, s1, SchedStep(i, true)), i);
  }
}
