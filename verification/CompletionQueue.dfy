/** The completion queue of com_dev.c: a wrapping 32-bit consumer index and a phase bit over a ring the device fills. */
module CompletionQueue {
  import opened Words

  const CQE_OPCODE_REQUESTER: nat := 0
  const CQE_OPCODE_RESPONDER: nat := 2   // any other code would do: the receive path never reads it

  datatype Cqe = Cqe(owner: nat, wqeCounter: nat, byteCount: nat, opcode: nat)

  /** The value of a cq_ctx_t: the ring, the index `at` of its `cqe` pointer, and the doorbell word `ci`. */
  datatype Cq = Cq(ring: seq<Cqe>, at: nat, idx: nat, hwOwner: nat, ci: nat, logDepth: nat)

  function Depth(q: Cq): (d: nat)
    ensures d > 0
  {
    Pow2(q.logDepth)
  }

  /** The slot of the n-th CQE; CQEs before the first one stand for the ring as it was allocated. */
  function Slot(n: int, depth: nat): (r: nat)
    requires depth > 0
    ensures r < depth
  {
    n % depth
  }

  /** The owner bit the device writes into the n-th CQE: the parity of its lap, 1 for the allocated ring. */
  function Phase(n: int, depth: nat): nat
    requires depth > 0
  {
    (n / depth) % 2
  }

  function InitCq(ring: seq<Cqe>, logDepth: nat): Cq {
    Cq(ring, 0, 0, 1, 0, logDepth)
  }

  /** com_step_cq. */
  function StepCq(q: Cq): Cq {
    var mask := L2M(q.logDepth);
    var idx := Inc32(q.idx);
    q.(idx := idx,
       at := And(idx, mask),
       hwOwner := if And(idx, mask) == 0 then (if q.hwOwner == 0 then 1 else 0) else q.hwOwner,
       ci := idx)
  }

  /** The machine fields of `q` are those of a consumer that has stepped `consumed` times. */
  ghost predicate Synced(q: Cq, consumed: nat) {
    && q.logDepth < 32
    && |q.ring| == Depth(q)
    && q.idx == consumed % WORD32
    && q.at == Slot(consumed, Depth(q))
    && q.hwOwner == 1 - Phase(consumed, Depth(q))
    && q.ci == q.idx
  }

  /** After `produced` CQEs the ring holds the last lap of them, and the allocated entries where there are fewer. */
  ghost predicate Window(ring: seq<Cqe>, produced: nat, depth: nat) {
    && depth > 0
    && |ring| == depth
    && forall n: int | produced - depth <= n < produced :: ring[Slot(n, depth)].owner == Phase(n, depth)
  }

  lemma InitSynced(ring: seq<Cqe>, logDepth: nat)
    requires logDepth < 32 && |ring| == Pow2(logDepth)
    requires forall k | 0 <= k < |ring| :: ring[k].owner == 1
    ensures Synced(InitCq(ring, logDepth), 0)
    ensures Window(ring, 0, Pow2(logDepth))
  {
    var d := Pow2(logDepth);
    forall n: int | -d <= n < 0
      ensures ring[Slot(n, d)].owner == Phase(n, d)
    {
      DivModUnique(n, d, -1, n + d);
    }
    DivModUnique(0, d, 0, 0);
  }

  /** The slot test of com_step_cq sees through the 2^32 wrap of the index. */
  lemma StepSlot(idx: nat, consumed: nat, log: nat)
    requires log < 32 && idx == consumed % WORD32
    ensures And(Inc32(idx), L2M(log)) == Slot(consumed + 1, Pow2(log))
    ensures Inc32(idx) == (consumed + 1) % WORD32
  {
    assert Inc32(idx) == (consumed + 1) % WORD32;
    MaskIsMod(Inc32(idx), log);
    WrapSlot(consumed + 1, log);
  }

  /** One step keeps the machine fields in step with the unbounded count, across the 2^32 wrap too. */
  lemma StepSynced(q: Cq, consumed: nat)
    requires Synced(q, consumed)
    ensures Synced(StepCq(q), consumed + 1)
  {
    hide And, L2M, Pow2;
    StepSlot(q.idx, consumed, q.logDepth);
    SlotStep(consumed, Depth(q));
  }

  lemma OwnerInWindow(ring: seq<Cqe>, produced: nat, depth: nat, n: int)
    requires Window(ring, produced, depth) && produced - depth <= n < produced
    ensures ring[Slot(n, depth)].owner == Phase(n, depth)
  {
  }

  /** A lap earlier: the same slot, the other phase. */
  lemma PhaseFlips(n: int, depth: nat)
    requires depth > 0
    ensures Slot(n - depth, depth) == Slot(n, depth)
    ensures Phase(n - depth, depth) == 1 - Phase(n, depth)
  {
    LapBack(n, depth);
  }

  /** Phase-bit exactness: the owner test at the consumer's slot tells whether an unconsumed CQE exists. */
  lemma PhaseExact(q: Cq, consumed: nat, produced: nat)
    requires Synced(q, consumed)
    requires Window(q.ring, produced, Depth(q))
    requires consumed <= produced <= consumed + Depth(q)
    ensures q.ring[q.at].owner != q.hwOwner <==> consumed < produced
  {
    hide Window, Phase, Pow2;
    var d := Depth(q);
    PhaseFlips(consumed, d);
    if consumed < produced {
      OwnerInWindow(q.ring, produced, d, consumed);
    } else {
      OwnerInWindow(q.ring, produced, d, consumed - d);
    }
  }

  /** The bound is sharp: with one more CQE outstanding than the ring holds, the owner test reads "empty". */
  lemma PhaseFailsBeyondDepth(q: Cq, consumed: nat)
    requires Synced(q, consumed)
    requires Window(q.ring, consumed + Depth(q) + 1, Depth(q))
    ensures q.ring[q.at].owner == q.hwOwner
  {
    hide Window, Phase, Pow2;
    var d := Depth(q);
    PhaseFlips(consumed + d, d);
    OwnerInWindow(q.ring, consumed + d + 1, d, consumed + d);
  }

  /** Writing the next CQE with its lap's parity slides the window; only the oldest entry is overwritten. */
  lemma WindowSlides(ring: seq<Cqe>, produced: nat, depth: nat, cqe: Cqe)
    requires Window(ring, produced, depth) && cqe.owner == Phase(produced, depth)
    ensures Window(ring[Slot(produced, depth) := cqe], produced + 1, depth)
    ensures forall n: int | produced - depth < n < produced :: Slot(n, depth) != Slot(produced, depth)
  {
    forall n: int | produced - depth < n < produced
      ensures Slot(n, depth) != Slot(produced, depth)
    {
      SlotsApart(n, produced, depth);
    }
  }

  /** How many of the CQEs from..until-1 precede the first one that is not a requester completion. */
  function RequesterRun(ring: seq<Cqe>, from: nat, until: nat): (r: nat)
    requires |ring| > 0 && from <= until
    ensures r <= until - from
    decreases until - from
  {
    if from == until || ring[Slot(from, |ring|)].opcode != CQE_OPCODE_REQUESTER then 0
    else 1 + RequesterRun(ring, from + 1, until)
  }

  lemma {:induction false} RequesterRunIsMaximal(ring: seq<Cqe>, from: nat, until: nat)
    requires |ring| > 0 && from <= until
    ensures var r := RequesterRun(ring, from, until);
            && (forall n | from <= n < from + r :: ring[Slot(n, |ring|)].opcode == 0)
            && (from + r < until ==> ring[Slot(from + r, |ring|)].opcode != 0)
    decreases until - from
  {
    if from < until && ring[Slot(from, |ring|)].opcode == CQE_OPCODE_REQUESTER {
      RequesterRunIsMaximal(ring, from + 1, until);
    }
  }

  /** A uint32_t that a caller passes by address. */
  class Word32Cell {
    var value: nat
  }

  class CqCtx {
    var cqNumber: nat
    var ring: array<Cqe>
    var cqe: nat
    var cqIdx: nat
    var hwOwnerBit: nat
    var dbr: array<nat>
    var logDepth: nat

    function View(): Cq
      reads this, ring, dbr
      requires dbr.Length > 0
    {
      Cq(ring[..], cqe, cqIdx, hwOwnerBit, dbr[0], logDepth)
    }

    ghost predicate Valid(consumed: nat)
      reads this, ring, dbr
    {
      dbr.Length > 0 && Synced(View(), consumed)
    }

    /** The consumer has stepped `consumed` times, and at most a ringful of the device's CQEs is left. */
    ghost predicate Ready(consumed: nat, produced: nat)
      reads this, ring, dbr
    {
      && Valid(consumed) && cqe < ring.Length < WORD32
      && Window(ring[..], produced, ring.Length)
      && consumed <= produced <= consumed + ring.Length
    }

    /** The owner test that guards every loop over the queue. */
    predicate HasCqe()
      reads this, ring
      requires cqe < ring.Length
    {
      ring[cqe].owner != hwOwnerBit
    }

    lemma HasCqeExact(consumed: nat, produced: nat)
      requires Ready(consumed, produced)
      ensures HasCqe() <==> consumed < produced
    {
      PhaseExact(View(), consumed, produced);
    }

    /** com_cq_ctx_init. The index is written to the doorbell word only by the first step. */
    constructor (num: nat, logDepth: nat, ring: array<Cqe>, dbr: array<nat>)
      requires logDepth < 32 && ring.Length == Pow2(logDepth) && dbr.Length > 0 && dbr[0] == 0
      requires forall k | 0 <= k < ring.Length :: ring[k].owner == 1
      ensures this.ring == ring && this.dbr == dbr && cqNumber == num
      ensures View() == InitCq(ring[..], logDepth)
      ensures Valid(0) && Window(ring[..], 0, Pow2(logDepth))
    {
      cqNumber := num;
      this.ring, this.dbr := ring, dbr;
      cqe, cqIdx, hwOwnerBit := 0, 0, 1;
      this.logDepth := logDepth;
      new;
      InitSynced(ring[..], logDepth);
    }

    /** com_step_cq. */
    method Step(ghost consumed: nat)
      requires Valid(consumed)
      modifies this`cqe, this`cqIdx, this`hwOwnerBit, dbr
      ensures View() == StepCq(old(View()))
      ensures Valid(consumed + 1)
      ensures dbr[1..] == old(dbr[1..])
    {
      StepSynced(View(), consumed);
      var mask := L2M(logDepth);
      cqIdx := Inc32(cqIdx);
      cqe := And(cqIdx, mask);
      if And(cqIdx, mask) == 0 {
        hwOwnerBit := if hwOwnerBit == 0 then 1 else 0;
      }
      dbr[0] := cqIdx;
    }
  }

  /** com_cq_poll: drains the completions that are there, up to the first one of another kind. The ring is fixed
      during the call. */
  method Poll(ctx: CqCtx?, consumedCqes: Word32Cell?, ghost consumed: nat, ghost produced: nat) returns (rc: nat)
    requires ctx != null ==> ctx.Ready(consumed, produced)
    modifies if ctx == null || consumedCqes == null then {} else {ctx, ctx.dbr, consumedCqes}
    ensures ctx == null || consumedCqes == null ==> rc == 255
    ensures ctx != null && consumedCqes != null ==>
              && ctx.ring == old(ctx.ring) && ctx.ring[..] == old(ctx.ring[..]) && ctx.ring.Length > 0
              && consumedCqes.value == RequesterRun(ctx.ring[..], consumed, produced)
              && ctx.Ready(consumed + consumedCqes.value, produced)
              && rc == (if consumed + consumedCqes.value == produced then 0 else 255)
  {
    if ctx == null || consumedCqes == null {
      return 255;
    }
    rc := Drain(ctx, consumedCqes, consumed, produced);
  }

  /** The body of com_cq_poll after its pointer test. */
  method Drain(ctx: CqCtx, consumedCqes: Word32Cell, ghost consumed: nat, ghost produced: nat) returns (rc: nat)
    requires ctx.Ready(consumed, produced)
    modifies ctx`cqe, ctx`cqIdx, ctx`hwOwnerBit, ctx.dbr, consumedCqes
    ensures ctx.Ready(consumed + consumedCqes.value, produced)
    ensures consumedCqes.value == RequesterRun(ctx.ring[..], consumed, produced)
    ensures rc == if consumed + consumedCqes.value == produced then 0 else 255
  {
    hide Window, Phase, Slot;
    consumedCqes.value := 0;
    ghost var ring := ctx.ring[..];
    ctx.HasCqeExact(consumed, produced);
    while ctx.HasCqe()
      invariant ctx.Ready(consumed + consumedCqes.value, produced)
      invariant ctx.HasCqe() <==> consumed + consumedCqes.value < produced
      invariant RequesterRun(ring, consumed, produced)
                == consumedCqes.value + RequesterRun(ring, consumed + consumedCqes.value, produced)
      decreases produced - consumed - consumedCqes.value
    {
      if ctx.ring[ctx.cqe].opcode != CQE_OPCODE_REQUESTER {
        return 255;
      }
      StepReady(ctx, consumed + consumedCqes.value, produced);
      consumedCqes.value := Inc32(consumedCqes.value);
    }
    return 0;
  }

  method StepReady(ctx: CqCtx, ghost consumed: nat, ghost produced: nat)
    requires ctx.Ready(consumed, produced) && consumed < produced
    modifies ctx`cqe, ctx`cqIdx, ctx`hwOwnerBit, ctx.dbr
    ensures ctx.Ready(consumed + 1, produced)
    ensures ctx.HasCqe() <==> consumed + 1 < produced
  {
    hide Window;
    ctx.Step(consumed);
    ctx.HasCqeExact(consumed + 1, produced);
  }

}
