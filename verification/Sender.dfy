/** The whole sender: schedulers, workers and queues together. A queue's memory and a worker's registers are kept
    apart, and a worker works on the queue that its tenant pointer names; that this makes every queue a run of the
    ring protocol, with one worker, is proved here. */
module Sender {
  import opened Words
  import opened MacSwap
  import opened CompletionQueue
  import opened SendQueue
  import opened HostRings
  import RingProtocol
  import RingTheorems
  import RingWitness
  import opened Dispatch
  import opened DispatchTheorems

  /** What belongs to a queue: its rings and buffers, and the history of its packets. */
  datatype Memory = Memory(cq: Cq, rqRing: seq<RqWqe>, rqDbr: nat, lkey: nat, base: nat, mem: seq<byte>,
                           received: seq<seq<byte>>, landed: seq<seq<byte>>, forwarded: seq<RingProtocol.Shot>,
                           consumed: nat)

  /** What belongs to a worker: its place in the packet loop, its send queue, and their history. */
  datatype Registers = Registers(pc: RingProtocol.Pc, pktCount: nat, activatedAt: nat, sq: Sq, descs: seq<Segment>,
                                 pad: seq<Segment>)

  /** A worker on a queue, as the ring protocol sees the two. */
  function Pair(variant: RingProtocol.Variant, m: Memory, r: Registers): RingProtocol.Sys {
    RingProtocol.Sys(
      RingProtocol.Dev(variant, m.cq, m.rqRing, m.rqDbr, m.lkey, m.base, m.mem, r.sq, r.pc, r.pktCount),
      m.received, m.landed, r.descs, m.forwarded, m.consumed, r.activatedAt, r.pad)
  }

  function MemoryOf(s: RingProtocol.Sys): Memory {
    Memory(s.dev.cq, s.dev.rqRing, s.dev.rqDbr, s.dev.lkey, s.dev.base, s.dev.mem, s.received, s.landed, s.forwarded,
           s.consumed)
  }

  function RegistersOf(s: RingProtocol.Sys): Registers {
    Registers(s.dev.pc, s.dev.pktCount, s.activatedAt, s.dev.sq, s.descs, s.pad)
  }

  /** Queue and worker t have the same number: the queue is the one scheduler t / n dispatches to worker t. */
  datatype Whole = Whole(disp: State, queues: seq<Memory>, regs: seq<Registers>)

  datatype Move =
    | Arrive(q: nat, packet: seq<byte>)
    | SendOwn(t: nat, byteCount: nat, lkey: nat, addr: nat)
    | Access(t: nat)
    | Disp(a: Action)

  predicate Complete(c: Config, x: Whole) {
    Sized(c, x.disp) && |x.queues| == |x.regs| == |x.disp.cells|
  }

  /** Worker t does one thing to queue q, or the NIC or send_packet do it while worker t is where it is. */
  ghost predicate RingStep(c: Config, x: Whole, t: nat, q: nat, a: RingProtocol.Action, x': Whole) {
    && t < |x.regs| && q < |x.queues|
    && var s := Pair(c.variant(t), x.queues[q], x.regs[t]);
       && RingProtocol.WellFormed(s.dev) && RingProtocol.Enabled(s, a)
       && var s' := RingProtocol.Next(s, a);
          x'.queues == x.queues[q := MemoryOf(s')] && x'.regs == x.regs[t := RegistersOf(s')]
  }

  /** The queue that a tenant pointer names. */
  ghost predicate Names(c: Config, tenant: Option<Queue>, q: nat) {
    tenant.Some? && q == Thd(c, tenant.value.sch, tenant.value.idx)
  }

  /** Where the worker adds its measured cycles: flexio_pp_dev_1 before com_step_cq, flexio_pp_dev_2 after it. */
  predicate AtMeasure(variant: RingProtocol.Variant, pc: RingProtocol.Pc) {
    if variant.Tnt1? then pc.Step? else pc.Check?
  }

  /** The worker's next step is an access to its queue. */
  predicate OnQueue(variant: RingProtocol.Variant, w: Worker, r: Registers) {
    (w.pc.Loop? && !AtMeasure(variant, r.pc)) || (w.pc.Counted? && r.pc.Step?)
  }

  ghost predicate DispStep(c: Config, x: Whole, a: Action, x': Whole)
    requires Complete(c, x)
  {
    && Enabled(c, x.disp, a) && x'.disp == Next(c, x.disp, a)
    && if !a.WorkerAct? then x'.queues == x.queues && x'.regs == x.regs
       else
         var t, w := a.t, x.disp.workers[a.t];
         match w.pc
         case LoadTenant =>
           exists q :: Names(c, x.disp.cells[t].tenant, q) && RingStep(c, x, t, q, RingProtocol.Activate, x')
         case Loop => AtMeasure(c.variant(t), x.regs[t].pc) && x'.queues == x.queues && x'.regs == x.regs
         case Counted =>
           && x.regs[t].pc.Check?
           && (c.variant(t).Tnt2? ==> a.late == (x.regs[t].pktCount >= RingProtocol.ROUND))
           && exists q :: Names(c, w.tenant, q) && RingStep(c, x, t, q, RingProtocol.Work(a.late), x')
         case _ => x'.queues == x.queues && x'.regs == x.regs
  }

  /** One step of the sender. */
  ghost predicate Step(c: Config, x: Whole, m: Move, x': Whole) {
    && Complete(c, x)
    && match m
       case Arrive(q, packet) => x'.disp == x.disp && RingStep(c, x, q, q, RingProtocol.Nic(packet), x')
       case SendOwn(t, byteCount, lkey, addr) =>
         x'.disp == x.disp && RingStep(c, x, t, t, RingProtocol.Send(byteCount, lkey, addr), x')
       case Access(t) =>
         && x'.disp == x.disp
         && t < |x.regs| && OnQueue(c.variant(t), x.disp.workers[t], x.regs[t])
         && exists q :: Names(c, x.disp.workers[t].tenant, q) && RingStep(c, x, t, q, RingProtocol.Work(false), x')
       case Disp(a) => DispStep(c, x, a, x')
  }

  ghost predicate Starts(c: Config, x: Whole) {
    && Complete(c, x) && x.disp == Initial(c)
    && forall t | 0 <= t < |x.regs| :: RingProtocol.Init(Pair(c.variant(t), x.queues[t], x.regs[t]))
  }

  ghost predicate StepTo(c: Config, x: Whole, x': Whole) {
    exists m :: Step(c, x, m, x')
  }

  ghost predicate RunOf(c: Config, xs: seq<Whole>) {
    && |xs| > 0 && Starts(c, xs[0])
    && forall k | 0 <= k < |xs| - 1 :: StepTo(c, xs[k], xs[k + 1])
  }

  // ---- the invariant ----

  /** Where a worker stands in its handler and where it stands in pp_queue fit together. */
  predicate Coupled(variant: RingProtocol.Variant, w: Worker, r: Registers) {
    match w.pc
    case Loop => !r.pc.Idle? && (variant.Tnt1? ==> !r.pc.Check?)
    case Counted => r.pc.Check? || (variant.Tnt1? && r.pc.Step?)
    case _ => r.pc.Idle?
  }

  ghost predicate ThreadOk(c: Config, x: Whole, t: nat)
    requires Complete(c, x) && t < |x.regs|
  {
    && RingWitness.Reachable(Pair(c.variant(t), x.queues[t], x.regs[t]))
    && Coupled(c.variant(t), x.disp.workers[t], x.regs[t])
  }

  ghost predicate WholeInv(c: Config, x: Whole) {
    && Complete(c, x) && GlobalInv(c, x.disp)
    && forall t | 0 <= t < |x.regs| :: ThreadOk(c, x, t)
  }

  /** A worker past its spin has, or is about to load, a pointer to the queue of its own number. */
  lemma NamesOwn(c: Config, s: State, t: nat)
    requires GlobalInv(c, s) && t < |s.cells|
    ensures PastSpin(s.workers[t].pc) ==> Names(c, s.cells[t].tenant, t)
    ensures InLoop(s.workers[t].pc) ==> Names(c, s.workers[t].tenant, t)
  {
    hide ReportOk, DrainedSum, Conserved;
    var i, j := QueueOfThd(c, t);
    assert QueueOk(c, s, i, j);
  }

  /** An action on one queue by the worker of its number is one action of the ring protocol. */
  lemma RingStepReaches(c: Config, x: Whole, t: nat, a: RingProtocol.Action, x': Whole)
    requires Complete(c, x) && RingStep(c, x, t, t, a, x')
    requires RingWitness.Reachable(Pair(c.variant(t), x.queues[t], x.regs[t]))
    ensures |x'.queues| == |x'.regs| == |x.regs|
    ensures var s := Pair(c.variant(t), x.queues[t], x.regs[t]);
            var s' := Pair(c.variant(t), x'.queues[t], x'.regs[t]);
            && RingProtocol.WellFormed(s.dev) && s' == RingProtocol.Next(s, a) && RingWitness.Reachable(s')
            && RingProtocol.StepTo(s, s')
    ensures forall t' | 0 <= t' < |x.regs| && t' != t :: x'.queues[t'] == x.queues[t'] && x'.regs[t'] == x.regs[t']
  {
    hide RingProtocol.WellFormed, RingProtocol.Enabled, RingProtocol.Next, RingWitness.Reachable;
    var s := Pair(c.variant(t), x.queues[t], x.regs[t]);
    RingWitness.ReachNext(s, a);
    RingTheorems.NextExtends(s, a);
  }

  /** What an action does to the worker's place in pp_queue. */
  lemma PcMoves(s: RingProtocol.Sys, a: RingProtocol.Action)
    requires RingProtocol.WellFormed(s.dev) && RingProtocol.Enabled(s, a)
    ensures var pc, pc' := s.dev.pc, RingProtocol.Next(s, a).dev.pc;
            match a
            case Nic(_) => pc' == pc
            case Send(_, _, _) => pc' == pc
            case Activate => pc' == RingProtocol.Head
            case Work(late) =>
              match pc
              case Check => pc' == if RingProtocol.Leaves(s.dev, late) then RingProtocol.Idle else RingProtocol.Head
              case Step => pc' == RingProtocol.Check
              case _ => !pc'.Idle? && !pc'.Check?
    ensures RingProtocol.Next(s, a).consumed == s.consumed + if a.Work? && s.dev.pc.Step? then 1 else 0
  {
    hide RingProtocol.WellFormed;
  }

  /** A step of the dispatch protocol moves the acting worker only. */
  lemma DispMoves(c: Config, s: State, a: Dispatch.Action, t: nat)
    requires Sized(c, s) && Enabled(c, s, a) && t < |s.workers|
    ensures var w, w' := s.workers[t], Next(c, s, a).workers[t];
            if a.WorkerAct? && a.t == t then w' == WorkerStep(c, t, s.cells[t], w, a.delta, a.late).1
            else if a.Start? && a.t == t then w.pc.Parked? && w'.pc.Entry?
            else w'.pc == w.pc
  {
    hide IdleStep, WorkerStep;
  }

  /** Queue t and worker t stay as they are, or take a step of the ring protocol. */
  ghost predicate PairSteps(c: Config, x: Whole, t: nat, x': Whole)
    requires t < |x.queues| == |x.regs| && t < |x'.queues| == |x'.regs|
  {
    var s, s' := Pair(c.variant(t), x.queues[t], x.regs[t]), Pair(c.variant(t), x'.queues[t], x'.regs[t]);
    s' == s || RingProtocol.StepTo(s, s')
  }

  lemma RingMoveKeeps(c: Config, x: Whole, m: Move, x': Whole)
    requires WholeInv(c, x) && Step(c, x, m, x') && !m.Disp?
    ensures WholeInv(c, x') && |x'.regs| == |x.regs|
    ensures forall t | 0 <= t < |x.regs| :: PairSteps(c, x, t, x')
  {
    hide GlobalInv, RingWitness.Reachable, Names;
    hide RingProtocol.WellFormed, RingProtocol.Enabled, RingProtocol.Next, RingProtocol.StepTo;
    NamesAreUnique(c);
    var t := if m.Arrive? then m.q else m.t;
    assert ThreadOk(c, x, t);
    if m.Access? {
      NamesOwn(c, x.disp, t);
    }
    var a := match m
      case Arrive(q, packet) => RingProtocol.Nic(packet)
      case SendOwn(t, byteCount, lkey, addr) => RingProtocol.Send(byteCount, lkey, addr)
      case _ => RingProtocol.Work(false);
    assert RingStep(c, x, t, t, a, x');
    RingStepReaches(c, x, t, a, x');
    PcMoves(Pair(c.variant(t), x.queues[t], x.regs[t]), a);
    forall t' | 0 <= t' < |x'.regs|
      ensures ThreadOk(c, x', t') && PairSteps(c, x, t', x')
    {
      assert ThreadOk(c, x, t');
    }
  }

  lemma NamesAreUnique(c: Config)
    ensures forall tenant, q, q' | Names(c, tenant, q) && Names(c, tenant, q') :: q == q'
  {
  }

  /** The ring action that goes with a worker's dispatch step, if there is one. */
  function RingActionOf(w: Worker, late: bool): Option<RingProtocol.Action> {
    match w.pc
    case LoadTenant => Some(RingProtocol.Activate)
    case Counted => Some(RingProtocol.Work(late))
    case _ => None
  }

  lemma EnabledKeeps(c: Config, s: State, a: Dispatch.Action)
    requires GlobalInv(c, s) && Enabled(c, s, a)
    ensures GlobalInv(c, Next(c, s, a)) && |Next(c, s, a).cells| == |s.cells|
  {
    hide QueueOk, ReportOk, DrainedSum, Next;
    ActKeeps(c, s, a);
  }

  lemma DispMoveKeeps(c: Config, x: Whole, a: Dispatch.Action, x': Whole)
    requires WholeInv(c, x) && Step(c, x, Disp(a), x')
    ensures WholeInv(c, x') && |x'.regs| == |x.regs|
    ensures forall t | 0 <= t < |x.regs| :: PairSteps(c, x, t, x')
  {
    hide GlobalInv, RingWitness.Reachable, Names, Next, Enabled;
    hide RingProtocol.WellFormed, RingProtocol.Enabled, RingProtocol.Next, RingProtocol.StepTo;
    EnabledKeeps(c, x.disp, a);
    NamesAreUnique(c);
    if a.WorkerAct? {
      ActorExists(c, x.disp, a);
      var t := a.t;
      assert ThreadOk(c, x, t);
      NamesOwn(c, x.disp, t);
      var ra := RingActionOf(x.disp.workers[t], a.late);
      if ra.Some? {
        assert RingStep(c, x, t, t, ra.value, x');
        RingStepReaches(c, x, t, ra.value, x');
        PcMoves(Pair(c.variant(t), x.queues[t], x.regs[t]), ra.value);
      }
    }
    forall t' | 0 <= t' < |x'.regs|
      ensures ThreadOk(c, x', t') && PairSteps(c, x, t', x')
    {
      assert ThreadOk(c, x, t');
      DispMoves(c, x.disp, a, t');
    }
  }

  lemma ActorExists(c: Config, s: State, a: Dispatch.Action)
    requires Sized(c, s) && Enabled(c, s, a) && a.WorkerAct?
    ensures a.t < |s.workers|
  {
  }

  lemma WholeKeeps(c: Config, x: Whole, m: Move, x': Whole)
    requires WholeInv(c, x) && Step(c, x, m, x')
    ensures WholeInv(c, x') && |x'.queues| == |x'.regs| == |x.regs| == |x.queues|
    ensures forall t | 0 <= t < |x.regs| :: PairSteps(c, x, t, x')
  {
    hide GlobalInv, ThreadOk, Step, PairSteps;
    if m.Disp? {
      DispMoveKeeps(c, x, m.a, x');
    } else {
      RingMoveKeeps(c, x, m, x');
    }
  }

  lemma StartsWhole(c: Config, x: Whole)
    requires Starts(c, x)
    ensures WholeInv(c, x)
  {
    hide RingProtocol.Init, GlobalInv;
    InitialInv(c);
    forall t | 0 <= t < |x.regs|
      ensures ThreadOk(c, x, t)
    {
      var s := Pair(c.variant(t), x.queues[t], x.regs[t]);
      RingProtocol.LeadsToItself(s);
      InitIsIdle(s);
    }
  }

  lemma InitIsIdle(s: RingProtocol.Sys)
    requires RingProtocol.Init(s)
    ensures s.dev.pc.Idle? && s.consumed == 0
  {
  }

  // ---- every run of the sender ----

  /** The number of workers, which no step changes. */
  function Size(c: Config): nat {
    c.schedulers * c.queues
  }

  /** In every run of the sender, every queue together with the worker of its number is a run of the ring protocol from
      its set-up on: nothing any other worker or any scheduler does is more than a pause in it. */
  lemma {:induction false} QueuesAreRings(c: Config, xs: seq<Whole>, k: nat, t: nat)
    requires RunOf(c, xs) && k < |xs| && t < Size(c)
    ensures WholeInv(c, xs[k]) && |xs[0].queues| == |xs[0].regs| == |xs[k].queues| == |xs[k].regs| == Size(c)
    ensures var s0 := Pair(c.variant(t), xs[0].queues[t], xs[0].regs[t]);
            RingProtocol.Init(s0) && RingProtocol.Leads(s0, Pair(c.variant(t), xs[k].queues[t], xs[k].regs[t]))
  {
    hide GlobalInv, ThreadOk, Step, RingProtocol.Leads, RingProtocol.Init, RingProtocol.StepTo;
    StartsWhole(c, xs[0]);
    var s0 := Pair(c.variant(t), xs[0].queues[t], xs[0].regs[t]);
    if k == 0 {
      RingProtocol.LeadsToItself(s0);
    } else {
      QueuesAreRings(c, xs, k - 1, t);
      assert StepTo(c, xs[k - 1], xs[k - 1 + 1]);
      var m :| Step(c, xs[k - 1], m, xs[k]);
      WholeKeeps(c, xs[k - 1], m, xs[k]);
      assert PairSteps(c, xs[k - 1], t, xs[k]);
      LeadsAlong(s0, Pair(c.variant(t), xs[k - 1].queues[t], xs[k - 1].regs[t]),
                 Pair(c.variant(t), xs[k].queues[t], xs[k].regs[t]));
    }
  }

  lemma LeadsAlong(s0: RingProtocol.Sys, s: RingProtocol.Sys, s': RingProtocol.Sys)
    requires RingProtocol.Leads(s0, s) && (s' == s || RingProtocol.StepTo(s, s'))
    ensures RingProtocol.Leads(s0, s')
  {
    hide RingProtocol.StepTo;
    if s' != s {
      assert RingProtocol.Chain([s, s']) && [s, s'][0] == s && [s, s'][|[s, s']| - 1] == s';
      RingProtocol.LeadsFurther(s0, s, s');
    }
  }

  /** Its schedulers and workers make a run of the dispatch protocol. */
  lemma {:induction false} DispatchIsARun(c: Config, xs: seq<Whole>, k: nat) returns (acts: seq<Dispatch.Action>)
    requires RunOf(c, xs) && k < |xs|
    ensures |acts| <= k && Run(c, Initial(c), acts) == xs[k].disp
  {
    hide Initial, Next, Enabled, RingStep, Names, OnQueue;
    if k == 0 {
      acts := [];
    } else {
      acts := DispatchIsARun(c, xs, k - 1);
      assert StepTo(c, xs[k - 1], xs[k - 1 + 1]);
      var m :| Step(c, xs[k - 1], m, xs[k]);
      if m.Disp? {
        RunSplit(c, Initial(c), acts, [m.a]);
        acts := acts + [m.a];
      }
    }
  }

  /** One worker per queue: in every run, a worker in its packet loop works on the queue of its own number. */
  lemma OneWorkerPerQueue(c: Config, xs: seq<Whole>, k: nat, t: nat, q: nat)
    requires RunOf(c, xs) && k < |xs| && t < Size(c)
    requires var x := xs[k]; |x.disp.workers| == Size(c) && InLoop(x.disp.workers[t].pc)
                             && Names(c, x.disp.workers[t].tenant, q)
    ensures q == t
  {
    hide GlobalInv, RunOf, ThreadOk, RingProtocol.Init, RingProtocol.Leads;
    QueuesAreRings(c, xs, k, t);
    NamesOwn(c, xs[k].disp, t);
  }

  // ---- one measurement for every packet ----

  /** How often worker t has added its cycles in the run: each time it leaves the access that adds them. */
  function Measurements(xs: seq<Whole>, t: nat): nat
    requires forall k | 0 <= k < |xs| :: t < |xs[k].disp.workers|
  {
    if |xs| < 2 then 0
    else
      var n := |xs| - 1;
      Measurements(xs[..n], t)
      + if xs[n - 1].disp.workers[t].pc.Loop? && xs[n].disp.workers[t].pc.Counted? then 1 else 0
  }

  /** Packets consumed but not yet measured, or the other way round. */
  function Unmeasured(variant: RingProtocol.Variant, w: Worker, r: Registers): int {
    if variant.Tnt1? then (if w.pc.Counted? && r.pc.Step? then -1 else 0)
    else (if w.pc.Loop? && r.pc.Check? then 1 else 0)
  }

  /** What a move does to worker t's places and to queue t's count, measured or not. */
  ghost predicate InStep(c: Config, x: Whole, x': Whole, t: nat)
    requires Complete(c, x) && Complete(c, x') && t < |x.regs| && t < |x'.regs|
  {
    var v, w, w', r, r' := c.variant(t), x.disp.workers[t], x'.disp.workers[t], x.regs[t], x'.regs[t];
    x'.queues[t].consumed - x.queues[t].consumed
    == Unmeasured(v, w', r') - Unmeasured(v, w, r) + if w.pc.Loop? && w'.pc.Counted? then 1 else 0
  }

  lemma RingMoveMeasures(c: Config, x: Whole, m: Move, x': Whole, t: nat)
    requires WholeInv(c, x) && Step(c, x, m, x') && !m.Disp? && Complete(c, x') && t < |x.regs| == |x'.regs|
    ensures InStep(c, x, x', t)
  {
    hide GlobalInv, RingWitness.Reachable, Names;
    hide RingProtocol.WellFormed, RingProtocol.Enabled, RingProtocol.Next, RingProtocol.StepTo;
    NamesAreUnique(c);
    var q := if m.Arrive? then m.q else m.t;
    assert ThreadOk(c, x, q) && ThreadOk(c, x, t);
    if m.Access? {
      NamesOwn(c, x.disp, q);
    }
    var a := match m
      case Arrive(_, packet) => RingProtocol.Nic(packet)
      case SendOwn(_, byteCount, lkey, addr) => RingProtocol.Send(byteCount, lkey, addr)
      case _ => RingProtocol.Work(false);
    assert RingStep(c, x, q, q, a, x');
    hide RingStep;
    MeasureRing(c, x, q, a, x', t);
  }

  lemma DispMoveMeasures(c: Config, x: Whole, a: Dispatch.Action, x': Whole, t: nat)
    requires WholeInv(c, x) && Step(c, x, Disp(a), x') && Complete(c, x') && t < |x.regs| == |x'.regs|
    ensures InStep(c, x, x', t)
  {
    hide GlobalInv, RingWitness.Reachable, Names, Next, Enabled;
    hide RingProtocol.WellFormed, RingProtocol.Enabled, RingProtocol.Next, RingProtocol.StepTo;
    assert ThreadOk(c, x, t);
    DispMoves(c, x.disp, a, t);
    if a.WorkerAct? {
      NamesAreUnique(c);
      ActorExists(c, x.disp, a);
      NamesOwn(c, x.disp, a.t);
      assert ThreadOk(c, x, a.t);
      var ra := RingActionOf(x.disp.workers[a.t], a.late);
      if ra.Some? {
        assert RingStep(c, x, a.t, a.t, ra.value, x');
        hide RingStep;
        MeasureRing(c, x, a.t, ra.value, x', t);
      }
    }
  }

  /** What a ring action of worker q on queue q does to worker t's place and to queue t's count. */
  lemma MeasureRing(c: Config, x: Whole, q: nat, a: RingProtocol.Action, x': Whole, t: nat)
    requires Complete(c, x) && RingStep(c, x, q, q, a, x') && t < |x.regs|
    requires RingWitness.Reachable(Pair(c.variant(q), x.queues[q], x.regs[q]))
    ensures |x'.queues| == |x'.regs| == |x.regs|
    ensures if t != q then x'.queues[t] == x.queues[t] && x'.regs[t] == x.regs[t]
            else
              var pc, pc' := x.regs[t].pc, x'.regs[t].pc;
              && x'.queues[t].consumed == x.queues[t].consumed + (if a.Work? && pc.Step? then 1 else 0)
              && (a.Nic? || a.Send? ==> pc' == pc)
              && (a.Activate? ==> pc'.Head?)
              && (a.Work? ==> (pc'.Check? <==> pc.Step?) && (pc.Check? ==> !pc'.Step?))
  {
    hide RingProtocol.WellFormed, RingProtocol.Enabled, RingProtocol.Next, RingWitness.Reachable, RingProtocol.StepTo;
    RingStepReaches(c, x, q, a, x');
    PcMoves(Pair(c.variant(q), x.queues[q], x.regs[q]), a);
  }

  /** Every packet is measured once: the additions of a worker's cycles keep in step with the packets consumed from its
      queue, before com_step_cq in flexio_pp_dev_1 and after it in flexio_pp_dev_2. */
  lemma {:induction false} PacketsAreMeasured(c: Config, xs: seq<Whole>, t: nat)
    requires RunOf(c, xs) && t < Size(c)
    ensures forall k | 0 <= k < |xs| :: t < |xs[k].disp.workers| && |xs[k].queues| == |xs[k].regs| == Size(c)
    ensures var x := xs[|xs| - 1];
            x.queues[t].consumed
            == Measurements(xs, t) + Unmeasured(c.variant(t), x.disp.workers[t], x.regs[t])
    decreases |xs|
  {
    hide GlobalInv, ThreadOk, Step, RingProtocol.Leads, RingProtocol.Init, Unmeasured;
    var n := |xs| - 1;
    QueuesAreRings(c, xs, n, t);
    if n == 0 {
      StartsUnmeasuredThere(c, xs[0], t);
    } else {
      var before := xs[..n];
      assert RunOf(c, before) by {
        forall k | 0 <= k < |before| - 1
          ensures StepTo(c, before[k], before[k + 1])
        {
          assert StepTo(c, xs[k], xs[k + 1]);
        }
      }
      PacketsAreMeasured(c, before, t);
      QueuesAreRings(c, xs, n - 1, t);
      assert StepTo(c, xs[n - 1], xs[n - 1 + 1]);
      var m :| Step(c, xs[n - 1], m, xs[n]);
      if m.Disp? {
        DispMoveMeasures(c, xs[n - 1], m.a, xs[n], t);
      } else {
        RingMoveMeasures(c, xs[n - 1], m, xs[n], t);
      }
      assert before[|before| - 1] == xs[n - 1];
    }
  }

  lemma StartsUnmeasuredThere(c: Config, x: Whole, t: nat)
    requires Starts(c, x) && t < Size(c)
    ensures x.queues[t].consumed == 0 && Unmeasured(c.variant(t), x.disp.workers[t], x.regs[t]) == 0
  {
    InitIsIdle(Pair(c.variant(t), x.queues[t], x.regs[t]));
  }

  /** The sender forwards: in every run, the n-th doorbell for a queue carries the n-th packet the queue received, in
      its own buffer and with its addresses exchanged, whoever dispatched the worker and whenever. */
  lemma SenderForwards(c: Config, xs: seq<Whole>, k: nat, t: nat, n: nat)
    requires RunOf(c, xs) && k < |xs| && t < Size(c)
    requires |xs[k].queues| == Size(c) && n < |xs[k].queues[t].forwarded|
    ensures var m := xs[k].queues[t];
            && n < |m.received| && |m.received[n]| <= ENTRY && |m.forwarded[n].buffer| == ENTRY
            && m.forwarded[n].desc == Data(|m.received[n]|, m.lkey, m.base + ENTRY * (n % DEPTH))
            && (|m.received[n]| >= 12 ==>
                  m.forwarded[n].buffer[..|m.received[n]|] == MacSwapped(m.received[n]))
            && m.consumed <= |m.forwarded| <= m.consumed + 1
  {
    hide GlobalInv, RunOf, RingProtocol.Init, RingProtocol.Leads, MacSwapped, RingProtocol.LandedOk;
    hide RingProtocol.CqesOk, RingProtocol.BuffersOk, RingProtocol.LocalsOk, RingProtocol.ForwardedOk, SqInv;
    QueuesAreRings(c, xs, k, t);
    assert ThreadOk(c, xs[k], t);
    var s := Pair(c.variant(t), xs[k].queues[t], xs[k].regs[t]);
    RingWitness.ReachableInv(s);
    RingTheorems.ForwardedMeans(s, n);
  }

  /** A step of the sender that is worker t's own. */
  predicate IsOwn(m: Move, t: nat) {
    m == Access(t) || (m.Disp? && m.a.WorkerAct? && m.a.t == t)
  }

  /** The two protocols do not block each other: in every run, a worker that is not parked has a step to take. */
  lemma NeverStuck(c: Config, xs: seq<Whole>, k: nat, t: nat)
    requires RunOf(c, xs) && k < |xs| && t < Size(c)
    requires |xs[k].disp.workers| == Size(c) && !xs[k].disp.workers[t].pc.Parked?
    ensures exists m, x' :: IsOwn(m, t) && Step(c, xs[k], m, x')
  {
    hide GlobalInv, ThreadOk, RunOf, RingProtocol.Init, RingProtocol.Leads, Step;
    QueuesAreRings(c, xs, k, t);
    if OnQueue(c.variant(t), xs[k].disp.workers[t], xs[k].regs[t]) {
      var x' := CanAccess(c, xs[k], t);
      assert IsOwn(Access(t), t);
    } else {
      var a, x' := CanMoveOn(c, xs[k], t);
      assert IsOwn(Disp(a), t);
    }
  }

  lemma CanRing(c: Config, x: Whole, t: nat, a: RingProtocol.Action) returns (x': Whole)
    requires WholeInv(c, x) && t < |x.regs|
    requires RingProtocol.Enabled(Pair(c.variant(t), x.queues[t], x.regs[t]), a)
    ensures x'.disp == x.disp && RingStep(c, x, t, t, a, x')
  {
    hide GlobalInv, RingProtocol.Next, RingProtocol.WellFormed, RingProtocol.Enabled, RingWitness.Reachable;
    assert ThreadOk(c, x, t);
    var s := Pair(c.variant(t), x.queues[t], x.regs[t]);
    RingWitness.ReachableInv(s);
    RingProtocol.InvIsWellFormed(s);
    var s' := RingProtocol.Next(s, a);
    x' := x.(queues := x.queues[t := MemoryOf(s')], regs := x.regs[t := RegistersOf(s')]);
  }

  lemma CanAccess(c: Config, x: Whole, t: nat) returns (x': Whole)
    requires WholeInv(c, x) && t < |x.regs| && OnQueue(c.variant(t), x.disp.workers[t], x.regs[t])
    ensures Step(c, x, Access(t), x')
  {
    hide GlobalInv, RingStep, RingWitness.Reachable, Names;
    assert ThreadOk(c, x, t);
    NamesOwn(c, x.disp, t);
    x' := CanRing(c, x, t, RingProtocol.Work(false));
  }

  lemma CanMoveOn(c: Config, x: Whole, t: nat) returns (a: Dispatch.Action, x': Whole)
    requires WholeInv(c, x) && t < |x.regs|
    requires !x.disp.workers[t].pc.Parked? && !OnQueue(c.variant(t), x.disp.workers[t], x.regs[t])
    ensures a.WorkerAct? && a.t == t && Step(c, x, Disp(a), x')
  {
    hide GlobalInv, RingStep, RingWitness.Reachable, Names, Next;
    assert ThreadOk(c, x, t);
    NamesOwn(c, x.disp, t);
    var late := c.variant(t).Tnt2? && x.regs[t].pktCount >= RingProtocol.ROUND;
    a := WorkerAct(t, 0, late);
    x' := x;
    var ra := RingActionOf(x.disp.workers[t], late);
    if ra.Some? {
      x' := CanRing(c, x, t, ra.value);
    }
    ghost var y := x';
    x' := y.(disp := Next(c, x.disp, a));
    if ra.Some? {
      SameRings(c, x, t, ra.value, y, x');
    }
  }

  lemma SameRings(c: Config, x: Whole, t: nat, a: RingProtocol.Action, y: Whole, x': Whole)
    requires RingStep(c, x, t, t, a, y) && x'.queues == y.queues && x'.regs == y.regs
    ensures RingStep(c, x, t, t, a, x')
  {
    hide RingProtocol.Next, RingProtocol.WellFormed, RingProtocol.Enabled;
  }

  /** In every configuration the sender has runs: its queues can be set up. */
  lemma SenderStarts(c: Config) returns (x: Whole)
    ensures Starts(c, x) && RunOf(c, [x])
  {
    hide RingProtocol.Init, RingWitness.Reachable, Step;
    var one := RingWitness.Setup(RingProtocol.Tnt1);
    var two := RingWitness.Setup(RingProtocol.Tnt2);
    x := Whole(Initial(c),
               seq(Size(c), (t: nat) => if c.variant(t).Tnt1? then MemoryOf(one) else MemoryOf(two)),
               seq(Size(c), (t: nat) => if c.variant(t).Tnt1? then RegistersOf(one) else RegistersOf(two)));
    forall t | 0 <= t < Size(c)
      ensures RingProtocol.Init(Pair(c.variant(t), x.queues[t], x.regs[t]))
    {
      assert Pair(c.variant(t), x.queues[t], x.regs[t]) == if c.variant(t).Tnt1? then one else two;
    }
  }
}
