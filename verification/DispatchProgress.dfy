/** What the visits of a scheduler to a queue achieve, however the other steps interleave with them. */
module DispatchProgress {
  import opened Accounting
  import opened Dispatch
  import opened DispatchTheorems

  function CellOf(c: Config, s: State, i: nat, j: nat): Cell
    requires Sized(c, s) && i < c.schedulers && j < c.queues
  {
    ThdInRange(c, i, j);
    s.cells[Thd(c, i, j)]
  }

  function WorkerOf(c: Config, s: State, i: nat, j: nat): Worker
    requires Sized(c, s) && i < c.schedulers && j < c.queues
  {
    ThdInRange(c, i, j);
    s.workers[Thd(c, i, j)]
  }

  /** The scheduler is between the first load and the last store of its visit to queue j. */
  predicate InVisit(pc: SchedPc, j: nat) {
    pc in {VisitLoad(j), VisitSend(j), VisitHang(j), VisitReload(j), ReleaseHang(j)}
  }

  /** Scheduler steps left in the visit, at most. */
  function VisitRank(pc: SchedPc): nat {
    match pc
    case VisitLoad(_) => 3
    case VisitSend(_) => 2
    case VisitReload(_) => 2
    case VisitHang(_) => 1
    case ReleaseHang(_) => 1
    case _ => 0
  }

  /** The run stays in the visit until its last action, which ends the visit. */
  ghost predicate Finishes(c: Config, s: State, acts: seq<Action>, i: nat, j: nat)
    requires Sized(c, s) && i < c.schedulers
    decreases |acts|
  {
    && InVisit(s.scheds[i].pc, j) && acts != []
    && var s' := Act(c, s, acts[0]);
       if |acts| == 1 then !InVisit(s'.scheds[i].pc, j) else Finishes(c, s', acts[1..], i, j)
  }

  /** The run is one complete visit of scheduler i to queue j, from before its first load on. */
  ghost predicate Visit(c: Config, s: State, acts: seq<Action>, i: nat, j: nat)
    requires Sized(c, s) && i < c.schedulers
  {
    s.scheds[i].pc == VisitLoad(j) && Finishes(c, s, acts, i, j)
  }

  /** All that can happen to the queue during a visit: the scheduler's own step, the worker's, or an interrupt. */
  predicate Moves(c: Config, i: nat, d: Scheduler, cell: Cell, w: Worker,
                  d': Scheduler, cell': Cell, w': Worker, a: Action)
    requires Touches(c, d.pc).Some?
  {
    || (d' == d && Elsewhere(cell, w, cell', w'))
    || (d' == d && a.WorkerAct? && !w.pc.Parked?
        && (cell', w') == WorkerStep(c, Thd(c, i, d.pc.j), cell, w, a.delta, a.late))
    || (a.SchedStep? && a.i == i && (d', cell', w') == TouchStep(c, i, d, cell, w))
  }

  /** Nothing, an interrupt, or the start of a pending activation. */
  predicate Elsewhere(cell: Cell, w: Worker, cell': Cell, w': Worker) {
    && cell' == cell
    && (w' == w || w' == Send(w) || w' == w.(pending := true)
        || (w.pc.Parked? && w.pending && w' == Activated(w)))
  }

  lemma VisitMoves(c: Config, s: State, a: Action, i: nat, j: nat)
    requires Sized(c, s) && i < c.schedulers && j < c.queues && InVisit(s.scheds[i].pc, j)
    ensures var s' := Act(c, s, a);
            Moves(c, i, s.scheds[i], CellOf(c, s, i, j), WorkerOf(c, s, i, j),
                  s'.scheds[i], CellOf(c, s', i, j), WorkerOf(c, s', i, j), a)
  {
    hide TouchStep, IdleStep, WorkerStep, Send;
    ThdInRange(c, i, j);
    if Enabled(c, s, a) && a.SchedStep? && a.i != i {
      PartitionHolds(c, s, a.i, a.choice, i, j);
    }
  }

  /** A visit takes at most three steps of its scheduler, and no other step prolongs it. */
  lemma VisitIsShort(c: Config, s: State, a: Action, i: nat, j: nat)
    requires Sized(c, s) && i < c.schedulers && j < c.queues && InVisit(s.scheds[i].pc, j)
    ensures VisitRank(s.scheds[i].pc) <= 3
    ensures var pc' := Act(c, s, a).scheds[i].pc;
            if a.SchedStep? && a.i == i
            then pc' == VisitLoad(j + 1) || (InVisit(pc', j) && VisitRank(pc') < VisitRank(s.scheds[i].pc))
            else pc' == s.scheds[i].pc
  {
    hide WorkerStep, Send;
    ThdInRange(c, i, j);
  }

  /** From wherever a visit stands, its scheduler's own steps complete it. */
  lemma {:induction false} VisitCompletes(c: Config, s: State, i: nat, j: nat) returns (acts: seq<Action>)
    requires Sized(c, s) && i < c.schedulers && j < c.queues && InVisit(s.scheds[i].pc, j)
    ensures |acts| <= VisitRank(s.scheds[i].pc) <= 3 && Finishes(c, s, acts, i, j)
    ensures Run(c, s, acts).scheds[i].pc == VisitLoad(j + 1)
    ensures forall a | a in acts :: a.SchedStep? && a.i == i
    decreases VisitRank(s.scheds[i].pc)
  {
    hide Act;
    var a := SchedStep(i, true);
    VisitIsShort(c, s, a, i, j);
    var s' := Act(c, s, a);
    if InVisit(s'.scheds[i].pc, j) {
      var rest := VisitCompletes(c, s', i, j);
      acts := [a] + rest;
      assert acts[1..] == rest;
    } else {
      acts := [a];
    }
  }

  // ---- the next visit ----

  /** The head of the loop that the step belongs to. */
  function Head(pc: SchedPc, k: nat): SchedPc {
    match pc
    case ResetBusy(_) => ResetBusy(k)
    case WakeLoad(_) => WakeLoad(k)
    case WakeSend(_) => WakeLoad(k)
    case PublishTenant(_) => PublishTenant(k)
    case PublishHang(_) => PublishTenant(k)
    case Drain(_) => Drain(k)
    case ClockTest => pc
    case Done => pc
    case _ => VisitLoad(k)
  }

  /** Steps to the next turn of the loop, at most. */
  function TurnRank(pc: SchedPc): nat {
    match pc
    case WakeLoad(_) => 2
    case PublishTenant(_) => 2
    case ResetBusy(_) => 1
    case WakeSend(_) => 1
    case PublishHang(_) => 1
    case Drain(_) => 1
    case _ => VisitRank(pc)
  }

  lemma TurnGoesOn(c: Config, i: nat, d: Scheduler, cell: Cell, w: Worker)
    requires Touches(c, d.pc).Some?
    ensures var pc' := TouchStep(c, i, d, cell, w).0.pc;
            || pc' == Head(d.pc, d.pc.j + 1)
            || (Touches(c, pc') == Touches(c, d.pc) && TurnRank(pc') < TurnRank(d.pc)
                && Head(pc', d.pc.j + 1) == Head(d.pc, d.pc.j + 1))
  {
    hide Charge;
  }

  /** How far the scheduler's loops are from the visits up to queue j: 0 in the turns before it. */
  function Phase(pc: SchedPc, j: nat): nat {
    match pc
    case ResetBusy(_) => 6
    case WakeLoad(_) => 5
    case WakeSend(_) => 5
    case PublishTenant(_) => 4
    case PublishHang(_) => 4
    case Drain(_) => 2
    case ClockTest => 1
    case Done => 7
    case _ => if pc.j < j || pc == VisitLoad(j) then 0 else 3
  }

  function TurnsLeft(c: Config, pc: SchedPc): nat {
    if Touches(c, pc).Some? then c.queues - pc.j else 0
  }

  lemma ComesNearer(c: Config, s: State, i: nat, j: nat)
    requires Sized(c, s) && i < c.schedulers && j < c.queues && ReportOk(c, s.scheds[i])
    requires !s.scheds[i].pc.Done? && s.scheds[i].pc != VisitLoad(j)
    ensures var pc, pc' := s.scheds[i].pc, Act(c, s, SchedStep(i, s.scheds[i].pc.ClockTest?)).scheds[i].pc;
            && !pc'.Done? && Phase(pc', j) <= Phase(pc, j)
            && (Phase(pc', j) == Phase(pc, j) ==> TurnsLeft(c, pc') <= TurnsLeft(c, pc))
            && (Phase(pc', j) == Phase(pc, j) && TurnsLeft(c, pc') == TurnsLeft(c, pc) ==> TurnRank(pc') < TurnRank(pc))
  {
    hide TouchStep;
    var d := s.scheds[i];
    if Touches(c, d.pc).Some? {
      ThdInRange(c, i, d.pc.j);
      TurnGoesOn(c, i, d, CellOf(c, s, i, d.pc.j), WorkerOf(c, s, i, d.pc.j));
    }
  }

  /** As long as its activation goes on, a scheduler's own steps bring it to the next visit of any of its queues. */
  lemma {:induction false} VisitComesAround(c: Config, s: State, i: nat, j: nat) returns (acts: seq<Action>)
    requires GlobalInv(c, s) && i < c.schedulers && j < c.queues && !s.scheds[i].pc.Done?
    ensures Run(c, s, acts).scheds[i].pc == VisitLoad(j)
    ensures forall a | a in acts :: a.SchedStep? && a.i == i
    decreases Phase(s.scheds[i].pc, j), TurnsLeft(c, s.scheds[i].pc), TurnRank(s.scheds[i].pc)
  {
    hide Act, Phase, TurnsLeft, TurnRank, QueueOk, ReportOk, DrainedSum;
    acts := [];
    if s.scheds[i].pc != VisitLoad(j) {
      ComesNearer(c, s, i, j);
      var a := SchedStep(i, s.scheds[i].pc.ClockTest?);
      ActKeeps(c, s, a);
      var rest := VisitComesAround(c, Act(c, s, a), i, j);
      acts := [a] + rest;
      assert acts[1..] == rest;
    }
  }

  // ---- a visit that finds its worker spinning on FREE ----

  predicate FreeMid(pc: SchedPc, j: nat, cell: Cell, w: Worker, irqs: nat) {
    && (pc == VisitLoad(j) || pc == VisitReload(j) || pc == ReleaseHang(j))
    && cell.status.FREE? && Spinning(w) && cell.irqs == irqs
  }

  /** The worker has been released: it spins on HANG. */
  predicate Released(cell: Cell, w: Worker) {
    cell.status.HANG? && Spinning(w)
  }

  /** The worker does not skip the spin of this activation. */
  predicate WillSpin(c: Config, t: nat, w: Worker) {
    c.variant(t).Tnt1? || !w.ranBefore
  }

  lemma FreeMoves(c: Config, i: nat, j: nat, d: Scheduler, cell: Cell, w: Worker,
                  d': Scheduler, cell': Cell, w': Worker, a: Action, irqs: nat)
    requires Touches(c, d.pc).Some? && FreeMid(d.pc, j, cell, w, irqs)
    requires Moves(c, i, d, cell, w, d', cell', w', a)
    ensures || (FreeMid(d'.pc, j, cell', w', irqs) && w'.ranBefore == w.ranBefore)
            || (!InVisit(d'.pc, j) && Released(cell', w') && cell'.irqs == irqs)
            || (PastSpin(w'.pc) && !WillSpin(c, Thd(c, i, j), w))
  {
  }

  /** A visit that finds its worker spinning on FREE ends with the worker released, and sends no interrupt. */
  lemma {:induction false} FreeVisitReleases(c: Config, s: State, acts: seq<Action>, i: nat, j: nat)
    requires Sized(c, s) && i < c.schedulers && j < c.queues && WillSpin(c, Thd(c, i, j), WorkerOf(c, s, i, j))
    requires var cell := CellOf(c, s, i, j); FreeMid(s.scheds[i].pc, j, cell, WorkerOf(c, s, i, j), cell.irqs)
    requires Finishes(c, s, acts, i, j)
    ensures var e := Run(c, s, acts);
            && Released(CellOf(c, e, i, j), WorkerOf(c, e, i, j))
            && CellOf(c, e, i, j).irqs == CellOf(c, s, i, j).irqs
    decreases |acts|
  {
    hide Act, Moves, Released, Spinning, CellOf, WorkerOf, PastSpin;
    var a, s' := acts[0], Act(c, s, acts[0]);
    VisitMoves(c, s, a, i, j);
    FreeMoves(c, i, j, s.scheds[i], CellOf(c, s, i, j), WorkerOf(c, s, i, j),
              s'.scheds[i], CellOf(c, s', i, j), WorkerOf(c, s', i, j), a, CellOf(c, s, i, j).irqs);
    if |acts| > 1 {
      FreeVisitReleases(c, s', acts[1..], i, j);
    }
  }

  // ---- a visit that has loaded OFF ----

  predicate OffMid(pc: SchedPc, j: nat, cell: Cell, w: Worker, irqs: nat) {
    && !cell.status.HANG? && !PastSpin(w.pc)
    && ((pc == VisitSend(j) && cell.irqs == irqs) || (pc == VisitHang(j) && cell.irqs == irqs + 1))
  }

  /** HANG has been stored for a worker that has still to look at it, and will. */
  predicate Called(cell: Cell, w: Worker) {
    cell.status.HANG? && !PastSpin(w.pc) && (WillLook(w.pc) || w.pending)
  }

  lemma OffMoves(c: Config, i: nat, j: nat, d: Scheduler, cell: Cell, w: Worker,
                 d': Scheduler, cell': Cell, w': Worker, a: Action, irqs: nat)
    requires Callable(c, Thd(c, i, j), w) && Touches(c, d.pc).Some? && OffMid(d.pc, j, cell, w, irqs)
    requires QueueInv(c, i, j, d.pc, cell, w)
    requires Moves(c, i, d, cell, w, d', cell', w', a)
    ensures OffMid(d'.pc, j, cell', w', irqs) || (!InVisit(d'.pc, j) && Called(cell', w') && cell'.irqs == irqs + 1)
  {
    hide Conserved, Quiet, Published, Unpublished, Woken;
  }

  /** Activations are only ever added. */
  lemma {:induction false} ActivationsGrow(c: Config, s: State, acts: seq<Action>, t: nat)
    requires Sized(c, s) && t < |s.workers|
    ensures s.workers[t].activations <= Run(c, s, acts).workers[t].activations
    decreases |acts|
  {
    hide Act;
    if acts != [] {
      ActActivates(c, s, acts[0], t);
      ActivationsGrow(c, Act(c, s, acts[0]), acts[1..], t);
    }
  }

  lemma ActActivates(c: Config, s: State, a: Action, t: nat)
    requires Sized(c, s) && t < |s.workers|
    ensures var n, n' := s.workers[t].activations, Act(c, s, a).workers[t].activations;
            n <= n' && (a.SchedStep? ==> n' == n)
  {
    hide IdleStep, Charge;
  }

  /** A visit that has loaded OFF ends with HANG stored, exactly one interrupt sent, and a worker that will see HANG. */
  lemma {:induction false} OffVisitCalls(c: Config, s: State, acts: seq<Action>, i: nat, j: nat, irqs: nat)
    requires GlobalInv(c, s) && i < c.schedulers && j < c.queues
    requires OffMid(s.scheds[i].pc, j, CellOf(c, s, i, j), WorkerOf(c, s, i, j), irqs)
    requires Finishes(c, s, acts, i, j) && Callable(c, Thd(c, i, j), WorkerOf(c, Run(c, s, acts), i, j))
    ensures var e := Run(c, s, acts);
            && Called(CellOf(c, e, i, j), WorkerOf(c, e, i, j))
            && CellOf(c, e, i, j).irqs == irqs + 1
    decreases |acts|
  {
    hide QueueInv, ReportOk, DrainedSum, Act, Moves, Called, PastSpin;
    var a, s' := acts[0], Act(c, s, acts[0]);
    VisitMoves(c, s, a, i, j);
    assert QueueOk(c, s, i, j);
    ThdInRange(c, i, j);
    ActivationsGrow(c, s, acts, Thd(c, i, j));
    OffMoves(c, i, j, s.scheds[i], CellOf(c, s, i, j), WorkerOf(c, s, i, j),
             s'.scheds[i], CellOf(c, s', i, j), WorkerOf(c, s', i, j), a, irqs);
    if |acts| > 1 {
      ActKeeps(c, s, a);
      OffVisitCalls(c, s', acts[1..], i, j, irqs);
    }
  }

  // ---- a visit that has loaded HANG ----

  lemma {:induction false} HangVisitIsQuiet(c: Config, s: State, acts: seq<Action>, i: nat, j: nat)
    requires Sized(c, s) && i < c.schedulers && j < c.queues
    requires s.scheds[i].pc == VisitReload(j) || s.scheds[i].pc == ReleaseHang(j)
    requires Finishes(c, s, acts, i, j)
    ensures CellOf(c, Run(c, s, acts), i, j).irqs == CellOf(c, s, i, j).irqs
    decreases |acts|
  {
    hide Act, CellOf, WorkerOf;
    VisitMoves(c, s, acts[0], i, j);
    if |acts| > 1 {
      HangVisitIsQuiet(c, Act(c, s, acts[0]), acts[1..], i, j);
    }
  }

  // ---- whole visits ----

  /** What the visit's own first load reads, wherever in the run it takes place. */
  ghost function Loaded(c: Config, s: State, acts: seq<Action>, i: nat, j: nat): Status
    requires Sized(c, s) && i < c.schedulers && j < c.queues
    decreases |acts|
  {
    if acts == [] || (acts[0].SchedStep? && acts[0].i == i) then CellOf(c, s, i, j).status
    else Loaded(c, Act(c, s, acts[0]), acts[1..], i, j)
  }

  lemma BeforeLoad(c: Config, s: State, a: Action, i: nat, j: nat)
    requires GlobalInv(c, s) && i < c.schedulers && j < c.queues && s.scheds[i].pc == VisitLoad(j)
    requires !(a.SchedStep? && a.i == i)
    ensures var s' := Act(c, s, a);
            && s'.scheds[i].pc == VisitLoad(j) && CellOf(c, s', i, j).irqs == CellOf(c, s, i, j).irqs
            && (!CellOf(c, s, i, j).status.HANG? ==> !CellOf(c, s', i, j).status.HANG?)
  {
    hide QueueOk, ReportOk, DrainedSum, Act, CellOf, WorkerOf;
    VisitMoves(c, s, a, i, j);
  }

  /** The load commits the visit: to interrupt and store after OFF, to the release of a spinning worker after FREE. */
  lemma LoadCommits(c: Config, s: State, a: Action, i: nat, j: nat)
    requires GlobalInv(c, s) && i < c.schedulers && j < c.queues && Callable(c, Thd(c, i, j), WorkerOf(c, s, i, j))
    requires s.scheds[i].pc == VisitLoad(j) && a.SchedStep? && a.i == i
    ensures var s' := Act(c, s, a);
            var pc', cell, cell', w' := s'.scheds[i].pc, CellOf(c, s, i, j), CellOf(c, s', i, j), WorkerOf(c, s', i, j);
            match cell.status
            case OFF => OffMid(pc', j, cell', w', cell.irqs)
            case FREE => FreeMid(pc', j, cell', w', cell.irqs) && WillSpin(c, Thd(c, i, j), w')
            case HANG => pc' == VisitReload(j) && cell'.irqs == cell.irqs
  {
    hide QueueInv, ReportOk, DrainedSum;
    ThdInRange(c, i, j);
    assert QueueOk(c, s, i, j);
    LoadFinds(c, i, j, s.scheds[i].pc, CellOf(c, s, i, j), WorkerOf(c, s, i, j));
  }

  lemma LoadFinds(c: Config, i: nat, j: nat, pc: SchedPc, cell: Cell, w: Worker)
    requires QueueInv(c, i, j, pc, cell, w)
    ensures Spinning(w) ==> !cell.status.OFF?
    ensures cell.status.OFF? ==> !PastSpin(w.pc)
    ensures Spins(c, Thd(c, i, j), w) && cell.status.FREE? ==> Spinning(w) && WillSpin(c, Thd(c, i, j), w)
  {
    hide Conserved, Quiet, Published;
  }

  /** A complete visit, load included, to a worker that has spun on every activation so far: it sends one interrupt if
      its load reads OFF and none otherwise. After OFF it leaves a worker called with HANG, after FREE a worker
      released; it reads OFF or FREE if it begins with either. Its scheduler may have been entered any number of
      times. */
  lemma {:induction false} VisitOutcome(c: Config, s: State, acts: seq<Action>, i: nat, j: nat)
    requires GlobalInv(c, s) && i < c.schedulers && j < c.queues && Visit(c, s, acts, i, j)
    requires Callable(c, Thd(c, i, j), WorkerOf(c, Run(c, s, acts), i, j))
    ensures var e, loaded := Run(c, s, acts), Loaded(c, s, acts, i, j);
            var cell', w' := CellOf(c, e, i, j), WorkerOf(c, e, i, j);
            && cell'.irqs == CellOf(c, s, i, j).irqs + (if loaded == OFF then 1 else 0)
            && (loaded == OFF ==> Called(cell', w'))
            && (loaded == FREE ==> Released(cell', w'))
            && (!CellOf(c, s, i, j).status.HANG? ==> loaded != HANG)
    decreases |acts|
  {
    hide QueueOk, ReportOk, DrainedSum, Act, Released, Called, CellOf, PastSpin, Spinning, WillSpin;
    var a, s' := acts[0], Act(c, s, acts[0]);
    ActKeeps(c, s, a);
    if a.SchedStep? && a.i == i {
      ThdInRange(c, i, j);
      ActivationsGrow(c, s, acts, Thd(c, i, j));
      LoadCommits(c, s, a, i, j);
      match CellOf(c, s, i, j).status
      case OFF => OffVisitCalls(c, s', acts[1..], i, j, CellOf(c, s, i, j).irqs);
      case FREE => FreeVisitReleases(c, s', acts[1..], i, j);
      case HANG => HangVisitIsQuiet(c, s', acts[1..], i, j);
    } else {
      BeforeLoad(c, s, a, i, j);
      VisitOutcome(c, s', acts[1..], i, j);
    }
  }

  /** A visit whose load comes first and finds its worker parked sends exactly one interrupt and leaves it called. */
  lemma ParkedIsCalled(c: Config, s: State, acts: seq<Action>, i: nat, j: nat)
    requires GlobalInv(c, s) && i < c.schedulers && j < c.queues && Visit(c, s, acts, i, j)
    requires Callable(c, Thd(c, i, j), WorkerOf(c, Run(c, s, acts), i, j))
    requires CellOf(c, s, i, j).status.OFF? && acts[0].SchedStep? && acts[0].i == i
    ensures var e := Run(c, s, acts);
            && CellOf(c, e, i, j).irqs == CellOf(c, s, i, j).irqs + 1
            && Called(CellOf(c, e, i, j), WorkerOf(c, e, i, j))
  {
    hide GlobalInv, Finishes, Run, Called, Callable;
    VisitOutcome(c, s, acts, i, j);
  }

  // ---- from the call to the packet loop ----

  /** The worker's own enabled actions in the run. */
  ghost function OwnMoves(c: Config, s: State, acts: seq<Action>, t: nat): nat
    requires Sized(c, s)
    decreases |acts|
  {
    if acts == [] then 0
    else (if OwnMove(c, s, acts[0], t) then 1 else 0) + OwnMoves(c, Act(c, s, acts[0]), acts[1..], t)
  }

  predicate OwnMove(c: Config, s: State, a: Action, t: nat) {
    Enabled(c, s, a) && ((a.WorkerAct? && a.t == t) || (a.Start? && a.t == t))
  }

  /** Own moves a called worker needs, at most, until it spins. */
  function CallRank(w: Worker): nat {
    match w.pc
    case Reschedule => 4
    case Parked => 3
    case Entry => 2
    case StoreFree => 1
    case _ => 0
  }

  /** A called worker always has a move of its own, and gets nearer to its spin by its own moves alone. */
  lemma CalledMoves(c: Config, s: State, a: Action, t: nat)
    requires Sized(c, s) && t < |s.cells| && Called(s.cells[t], s.workers[t]) && !Spinning(s.workers[t])
    ensures CallRank(s.workers[t]) > 0 && exists own :: OwnMove(c, s, own, t)
    ensures var s' := Act(c, s, a);
            || Spinning(s'.workers[t])
            || (Called(s'.cells[t], s'.workers[t])
                && CallRank(s'.workers[t]) <= CallRank(s.workers[t]) - if OwnMove(c, s, a, t) then 1 else 0)
  {
    hide IdleStep;
    var own := if s.workers[t].pc.Parked? then Start(t) else WorkerAct(t, 0, false);
    assert OwnMove(c, s, own, t);
  }

  lemma Later(c: Config, s: State, acts: seq<Action>, k: nat)
    requires Sized(c, s) && 0 < k <= |acts|
    ensures Run(c, s, acts[..k]) == Run(c, Act(c, s, acts[0]), acts[1..][..k - 1])
  {
    hide Act;
    assert acts[..k][1..] == acts[1..][..k - 1];
  }

  /** A called worker spins after at most four moves of its own. */
  lemma {:induction false} CalledSpins(c: Config, s: State, acts: seq<Action>, t: nat) returns (k: nat)
    requires Sized(c, s) && t < |s.cells| && Called(s.cells[t], s.workers[t])
    requires OwnMoves(c, s, acts, t) >= CallRank(s.workers[t])
    ensures k <= |acts| && Spinning(Run(c, s, acts[..k]).workers[t])
    decreases |acts|
  {
    hide Act, Called, OwnMove, Spinning;
    if Spinning(s.workers[t]) {
      k := 0;
    } else {
      CalledMoves(c, s, Spurious(t), t);
      CalledMoves(c, s, acts[0], t);
      var s' := Act(c, s, acts[0]);
      if Spinning(s'.workers[t]) {
        k := 0;
      } else {
        k := CalledSpins(c, s', acts[1..], t);
      }
      k := k + 1;
      Later(c, s, acts, k);
    }
  }

  /** The worker has got its answer: it is released, or already past its spin. */
  predicate Answered(cell: Cell, w: Worker) {
    Released(cell, w) || PastSpin(w.pc)
  }

  /** A worker spinning on FREE goes on doing so until it is answered. */
  lemma SpinnerWaits(c: Config, s: State, a: Action, t: nat)
    requires Sized(c, s) && t < |s.cells|
    requires s.cells[t].status.FREE? && Spinning(s.workers[t])
    ensures var s' := Act(c, s, a);
            || Answered(s'.cells[t], s'.workers[t])
            || (s'.cells[t].status.FREE? && Spinning(s'.workers[t]))
  {
    hide IdleStep;
  }

  /** Whatever its handler, a worker that a visit finds spinning on FREE is answered in the course of the visit. */
  lemma {:induction false} FreeVisitAnswers(c: Config, s: State, acts: seq<Action>, i: nat, j: nat) returns (k: nat)
    requires Sized(c, s) && i < c.schedulers && j < c.queues
    requires var cell := CellOf(c, s, i, j); FreeMid(s.scheds[i].pc, j, cell, WorkerOf(c, s, i, j), cell.irqs)
    requires Finishes(c, s, acts, i, j)
    ensures k <= |acts|
    ensures var e := Run(c, s, acts[..k]); Answered(CellOf(c, e, i, j), WorkerOf(c, e, i, j))
    decreases |acts|
  {
    hide Act, Moves, Released, Spinning, CellOf, WorkerOf, PastSpin, WillSpin;
    var a, s' := acts[0], Act(c, s, acts[0]);
    VisitMoves(c, s, a, i, j);
    FreeMoves(c, i, j, s.scheds[i], CellOf(c, s, i, j), WorkerOf(c, s, i, j),
              s'.scheds[i], CellOf(c, s', i, j), WorkerOf(c, s', i, j), a, CellOf(c, s, i, j).irqs);
    if Answered(CellOf(c, s', i, j), WorkerOf(c, s', i, j)) {
      k := 0;
    } else {
      k := FreeVisitAnswers(c, s', acts[1..], i, j);
    }
    k := k + 1;
    Later(c, s, acts, k);
  }

  /** A worker that spins is answered at the latest by the first complete visit that begins afterwards. */
  lemma {:induction false} SpinnerIsAnswered(c: Config, s: State, mid: seq<Action>, visit: seq<Action>, i: nat, j: nat)
    returns (k: nat)
    requires Sized(c, s) && i < c.schedulers && j < c.queues
    requires Spinning(WorkerOf(c, s, i, j)) && !CellOf(c, s, i, j).status.OFF?
    requires Visit(c, Run(c, s, mid), visit, i, j)
    ensures k <= |mid + visit|
    ensures var e := Run(c, s, (mid + visit)[..k]); Answered(CellOf(c, e, i, j), WorkerOf(c, e, i, j))
    decreases |mid|
  {
    hide Act, Spinning, Finishes;
    ThdInRange(c, i, j);
    var acts := mid + visit;
    if CellOf(c, s, i, j).status.HANG? {
      k := 0;
    } else if mid == [] {
      k := FreeVisitAnswers(c, s, visit, i, j);
      assert acts == visit;
    } else {
      SpinnerWaits(c, s, mid[0], Thd(c, i, j));
      var s' := Act(c, s, mid[0]);
      if Answered(CellOf(c, s', i, j), WorkerOf(c, s', i, j)) {
        k := 0;
      } else {
        k := SpinnerIsAnswered(c, s', mid[1..], visit, i, j);
      }
      k := k + 1;
      assert acts[1..] == mid[1..] + visit;
      Later(c, s, acts, k);
    }
  }

  /** A called worker is answered: four moves of its own and then one complete visit, in any interleaving, are enough.
      The HANG that called it may be overwritten by the worker's FREE, and then the visit restores it. */
  lemma CalledAnswers(c: Config, s: State, mid: seq<Action>, visit: seq<Action>, i: nat, j: nat) returns (k: nat)
    requires GlobalInv(c, s) && i < c.schedulers && j < c.queues
    requires Called(CellOf(c, s, i, j), WorkerOf(c, s, i, j))
    requires OwnMoves(c, s, mid, Thd(c, i, j)) >= CallRank(WorkerOf(c, s, i, j))
    requires Visit(c, Run(c, s, mid), visit, i, j)
    ensures k <= |mid + visit|
    ensures var e := Run(c, s, (mid + visit)[..k]); Answered(CellOf(c, e, i, j), WorkerOf(c, e, i, j))
  {
    hide QueueInv, ReportOk, DrainedSum, Run, Visit, Answered, Called, Spinning, OwnMoves;
    ThdInRange(c, i, j);
    var l := CalledSpins(c, s, mid, Thd(c, i, j));
    var s1 := Run(c, s, mid[..l]);
    RunInv(c, s, mid[..l]);
    assert QueueOk(c, s1, i, j);
    LoadFinds(c, i, j, s1.scheds[i].pc, CellOf(c, s1, i, j), WorkerOf(c, s1, i, j));
    RunSplit(c, s, mid[..l], mid[l..]);
    assert mid[..l] + mid[l..] == mid;
    var m := SpinnerIsAnswered(c, s1, mid[l..], visit, i, j);
    k := l + m;
    RunSplit(c, s, mid[..l], (mid[l..] + visit)[..m]);
    assert mid[..l] + (mid[l..] + visit)[..m] == (mid + visit)[..k];
  }

  /** A released worker stays released until it takes its own step past the spin; nothing overwrites its HANG. */
  lemma ReleasedStays(c: Config, s: State, a: Action, t: nat)
    requires Sized(c, s) && t < |s.cells| && Released(s.cells[t], s.workers[t])
    ensures var w, s' := s.workers[t], Act(c, s, a);
            if OwnMove(c, s, a, t) && (w.pc.Spin? || !WillSpin(c, t, w)) then PastSpin(s'.workers[t].pc)
            else Released(s'.cells[t], s'.workers[t])
                 && s'.workers[t].pc == if OwnMove(c, s, a, t) then Spin else w.pc
  {
    hide IdleStep;
  }

  /** An answered worker is past its spin after at most two moves of its own. */
  lemma {:induction false} AnsweredRuns(c: Config, s: State, acts: seq<Action>, t: nat) returns (k: nat)
    requires Sized(c, s) && t < |s.cells| && Answered(s.cells[t], s.workers[t])
    requires OwnMoves(c, s, acts, t) >= if s.workers[t].pc.StepOwnCq? then 2 else 1
    ensures k <= |acts| && PastSpin(Run(c, s, acts[..k]).workers[t].pc)
    decreases |acts|
  {
    hide Act, OwnMove, WillSpin;
    if PastSpin(s.workers[t].pc) {
      k := 0;
    } else {
      ReleasedStays(c, s, acts[0], t);
      var s' := Act(c, s, acts[0]);
      if PastSpin(s'.workers[t].pc) {
        k := 0;
      } else {
        k := AnsweredRuns(c, s', acts[1..], t);
      }
      k := k + 1;
      Later(c, s, acts, k);
    }
  }

  lemma {:induction false} OwnMovesSplit(c: Config, s: State, acts: seq<Action>, more: seq<Action>, t: nat)
    requires Sized(c, s)
    ensures OwnMoves(c, s, acts + more, t) == OwnMoves(c, s, acts, t) + OwnMoves(c, Run(c, s, acts), more, t)
    decreases |acts|
  {
    hide Act, OwnMove;
    if acts == [] {
      assert acts + more == more;
    } else {
      assert (acts + more)[1..] == acts[1..] + more;
      OwnMovesSplit(c, Act(c, s, acts[0]), acts[1..], more, t);
    }
  }

  /** Bounded progress, end to end: a worker found at OFF by a visit's load enters its packet loop. The visit sends
      exactly one interrupt; after four moves of the worker a second complete visit follows, and after two more moves
      the worker is past its spin, or has been before. Any other actions may come in between. */
  lemma ParkedWorkerRuns(c: Config, s: State, visit: seq<Action>, mid: seq<Action>, visit': seq<Action>,
                         end: seq<Action>, i: nat, j: nat) returns (k: nat)
    requires GlobalInv(c, s) && i < c.schedulers && j < c.queues
    requires Visit(c, s, visit, i, j) && Loaded(c, s, visit, i, j) == OFF
    requires Callable(c, Thd(c, i, j), WorkerOf(c, Run(c, s, visit), i, j))
    requires var s1 := Run(c, s, visit);
             var s2 := Run(c, s1, mid);
             && OwnMoves(c, s1, mid, Thd(c, i, j)) >= 4
             && Visit(c, s2, visit', i, j)
             && OwnMoves(c, Run(c, s2, visit'), end, Thd(c, i, j)) >= 2
    ensures CellOf(c, Run(c, s, visit), i, j).irqs == CellOf(c, s, i, j).irqs + 1
    ensures k <= |mid + visit' + end|
    ensures PastSpin(WorkerOf(c, Run(c, Run(c, s, visit), (mid + visit' + end)[..k]), i, j).pc)
  {
    hide QueueOk, ReportOk, DrainedSum, Run, Visit, Loaded, Called, OwnMoves, PastSpin, Answered;
    var t, s1, acts := Thd(c, i, j), Run(c, s, visit), mid + visit';
    ThdInRange(c, i, j);
    VisitOutcome(c, s, visit, i, j);
    RunInv(c, s, visit);
    var l := CalledAnswers(c, s1, mid, visit', i, j);
    var s3 := Run(c, s1, acts[..l]);
    RunSplit(c, s1, acts[..l], acts[l..]);
    assert acts[..l] + acts[l..] == acts;
    RunSplit(c, s1, mid, visit');
    OwnMovesSplit(c, s3, acts[l..], end, t);
    var m := AnsweredRuns(c, s3, acts[l..] + end, t);
    k := l + m;
    RunSplit(c, s1, acts[..l], (acts[l..] + end)[..m]);
    assert acts[..l] + (acts[l..] + end)[..m] == (acts + end)[..k];
  }

  // ---- a lost worker is not lost for good ----

  /** Own moves that a worker told to run needs, at most, until it is past its spin. */
  function HangRank(w: Worker): nat {
    match w.pc
    case Parked => 4
    case Entry => 3
    case StepOwnCq => 2
    case Spin => 1
    case _ => 0
  }

  /** Its status is HANG, and it has an activation coming or is on its way to the spin. */
  predicate Heading(cell: Cell, w: Worker) {
    cell.status.HANG? && ((w.pc.Parked? && w.pending) || w.pc.Entry? || Spinning(w))
  }

  lemma LostMoves(c: Config, s: State, a: Action, t: nat)
    requires Sized(c, s) && t < |s.cells| && Lost(s.cells[t], s.workers[t]) && s.workers[t].armed
    ensures var s' := Act(c, s, a);
            || Heading(s'.cells[t], s'.workers[t])
            || (Lost(s'.cells[t], s'.workers[t]) && s'.workers[t].armed && a != Arrival(t))
  {
    hide IdleStep;
  }

  lemma HeadingMoves(c: Config, s: State, a: Action, t: nat)
    requires Sized(c, s) && t < |s.cells| && Heading(s.cells[t], s.workers[t])
    ensures var s' := Act(c, s, a);
            || PastSpin(s'.workers[t].pc)
            || (Heading(s'.cells[t], s'.workers[t])
                && HangRank(s'.workers[t]) <= HangRank(s.workers[t]) - if OwnMove(c, s, a, t) then 1 else 0)
  {
    hide IdleStep;
  }

  lemma {:induction false} HeadingRuns(c: Config, s: State, acts: seq<Action>, t: nat) returns (k: nat)
    requires Sized(c, s) && t < |s.cells| && Heading(s.cells[t], s.workers[t])
    requires OwnMoves(c, s, acts, t) >= HangRank(s.workers[t])
    ensures k <= |acts| && PastSpin(Run(c, s, acts[..k]).workers[t].pc)
    decreases |acts|
  {
    hide Act, OwnMove;
    HeadingMoves(c, s, acts[0], t);
    var s' := Act(c, s, acts[0]);
    k := 0;
    if !PastSpin(s'.workers[t].pc) {
      k := HeadingRuns(c, s', acts[1..], t);
    }
    k := k + 1;
    Later(c, s, acts, k);
  }

  lemma {:induction false} LostWakes(c: Config, s: State, acts: seq<Action>, t: nat) returns (k: nat)
    requires Sized(c, s) && t < |s.cells| && Lost(s.cells[t], s.workers[t]) && s.workers[t].armed
    requires Arrival(t) in acts
    ensures k <= |acts| && var e := Run(c, s, acts[..k]); Heading(e.cells[t], e.workers[t])
    decreases |acts|
  {
    hide Act, Lost, Heading;
    LostMoves(c, s, acts[0], t);
    var s' := Act(c, s, acts[0]);
    k := 0;
    if !Heading(s'.cells[t], s'.workers[t]) {
      k := LostWakes(c, s', acts[1..], t);
    }
    k := k + 1;
    Later(c, s, acts, k);
  }

  /** In every configuration, and whatever interleaves: a worker that has lost its wake-up is woken by the next
      completion on its own CQ, which is armed, and is past its spin four moves of its own later at the latest. */
  lemma LostRuns(c: Config, acts: seq<Action>, until: seq<Action>, more: seq<Action>, t: nat) returns (k: nat)
    requires t < c.schedulers * c.queues
    requires var s := Run(c, Initial(c), acts);
             && Lost(s.cells[t], s.workers[t])
             && Arrival(t) in until
             && OwnMoves(c, Run(c, s, until), more, t) >= 4
    ensures Run(c, Initial(c), acts).workers[t].armed
    ensures k <= |until + more|
    ensures PastSpin(Run(c, Run(c, Initial(c), acts), (until + more)[..k]).workers[t].pc)
  {
    hide Run, Initial, OwnMoves, PastSpin, Heading, Conserved, Quiet, Published;
    var s := Run(c, Initial(c), acts);
    var i, j := ReachableQueue(c, acts, t);
    var l := LostWakes(c, s, until, t);
    var s1 := Run(c, s, until[..l]);
    RunSplit(c, s, until[..l], until[l..]);
    assert until[..l] + until[l..] == until;
    OwnMovesSplit(c, s1, until[l..], more, t);
    var m := HeadingRuns(c, s1, until[l..] + more, t);
    k := l + m;
    RunSplit(c, s, until[..l], (until[l..] + more)[..m]);
    assert until[..l] + (until[l..] + more)[..m] == (until + more)[..k];
  }

  // ---- such runs can always be continued ----

  /** The worker has been called, or is neither parked nor on its way to being parked. */
  predicate Going(cell: Cell, w: Worker) {
    Called(cell, w) || !(w.pc.Parked? || w.pc.Arm? || w.pc.StoreOff? || w.pc.Reschedule?)
  }

  lemma GoesOn(c: Config, s: State, t: nat) returns (a: Action)
    requires Sized(c, s) && t < |s.cells| && Going(s.cells[t], s.workers[t])
    ensures OwnMove(c, s, a, t)
    ensures var s' := Act(c, s, a); Going(s'.cells[t], s'.workers[t]) && s'.scheds == s.scheds
  {
    a := if s.workers[t].pc.Parked? then Start(t) else WorkerAct(t, 0, false);
  }

  lemma {:induction false} OwnSteps(c: Config, s: State, t: nat, n: nat) returns (acts: seq<Action>)
    requires Sized(c, s) && t < |s.cells| && Going(s.cells[t], s.workers[t])
    ensures OwnMoves(c, s, acts, t) == n
    ensures var s' := Run(c, s, acts); Going(s'.cells[t], s'.workers[t]) && s'.scheds == s.scheds
    decreases n
  {
    hide Act, OwnMove, Going;
    acts := [];
    if n > 0 {
      var a := GoesOn(c, s, t);
      var rest := OwnSteps(c, Act(c, s, a), t, n - 1);
      acts := [a] + rest;
      assert acts[1..] == rest;
    }
  }

  lemma SchedLetsGo(c: Config, s: State, i: nat, choice: bool, t: nat)
    requires Sized(c, s) && t < |s.cells| && Going(s.cells[t], s.workers[t])
    ensures var s' := Act(c, s, SchedStep(i, choice)); Going(s'.cells[t], s'.workers[t])
  {
    hide IdleStep;
  }

  lemma {:induction false} SchedsLetGo(c: Config, s: State, acts: seq<Action>, t: nat)
    requires Sized(c, s) && t < |s.cells| && Going(s.cells[t], s.workers[t])
    requires forall a | a in acts :: a.SchedStep?
    ensures var s' := Run(c, s, acts); Going(s'.cells[t], s'.workers[t])
    decreases |acts|
  {
    hide Act, Going;
    if acts != [] {
      assert acts[0] in acts;
      SchedLetsGo(c, s, acts[0].i, acts[0].choice, t);
      SchedsLetGo(c, Act(c, s, acts[0]), acts[1..], t);
    }
  }

  lemma {:induction false} SchedsActivateNobody(c: Config, s: State, acts: seq<Action>, t: nat)
    requires Sized(c, s) && t < |s.cells| && forall a | a in acts :: a.SchedStep?
    ensures Run(c, s, acts).workers[t].activations == s.workers[t].activations
    decreases |acts|
  {
    hide Act;
    if acts != [] {
      assert acts[0] in acts;
      ActActivates(c, s, acts[0], t);
      SchedsActivateNobody(c, Act(c, s, acts[0]), acts[1..], t);
    }
  }

  /** From every state in which a visit to a worker at OFF begins there are runs of the kind ParkedWorkerRuns is
      about. */
  lemma SuchRunsExist(c: Config, s: State, i: nat, j: nat)
    returns (visit: seq<Action>, mid: seq<Action>, visit': seq<Action>, end: seq<Action>)
    requires GlobalInv(c, s) && i < c.schedulers && j < c.queues && Callable(c, Thd(c, i, j), WorkerOf(c, s, i, j))
    requires s.scheds[i].pc == VisitLoad(j) && CellOf(c, s, i, j).status.OFF?
    ensures Visit(c, s, visit, i, j) && Loaded(c, s, visit, i, j) == OFF
    ensures Callable(c, Thd(c, i, j), WorkerOf(c, Run(c, s, visit), i, j))
    ensures var s1 := Run(c, s, visit);
            var s2 := Run(c, s1, mid);
            && OwnMoves(c, s1, mid, Thd(c, i, j)) >= 4
            && Visit(c, s2, visit', i, j)
            && OwnMoves(c, Run(c, s2, visit'), end, Thd(c, i, j)) >= 2
  {
    hide QueueOk, ReportOk, DrainedSum, Run, Act, Called, OwnMoves, Going;
    var t := Thd(c, i, j);
    ThdInRange(c, i, j);
    visit := VisitCompletes(c, s, i, j);
    assert visit[0] in visit;
    SchedsActivateNobody(c, s, visit, t);
    VisitOutcome(c, s, visit, i, j);
    var s1 := Run(c, s, visit);
    RunInv(c, s, visit);
    CalledIsGoing(s1.cells[t], s1.workers[t]);
    var own := OwnSteps(c, s1, t, 4);
    var m := Run(c, s1, own);
    RunInv(c, s1, own);
    var back := VisitComesAround(c, m, i, j);
    mid := own + back;
    RunSplit(c, s1, own, back);
    OwnMovesSplit(c, s1, own, back, t);
    SchedsLetGo(c, m, back, t);
    var s2 := Run(c, m, back);
    visit' := VisitCompletes(c, s2, i, j);
    SchedsLetGo(c, s2, visit', t);
    end := OwnSteps(c, Run(c, s2, visit'), t, 2);
  }

  lemma CalledIsGoing(cell: Cell, w: Worker)
    requires Called(cell, w)
    ensures Going(cell, w)
  {
  }
}
