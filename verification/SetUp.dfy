/** The whole life of a queue: what host and device set up is where the ring protocol starts, and activations follow. */
module SetUp {
  import opened Words
  import opened MacSwap
  import opened CompletionQueue
  import opened SendQueue
  import opened HostRings
  import opened RingProtocol
  import opened RingTheorems
  import opened PacketPath

  /** The arrays of a receive queue, all different. */
  method AllocReceive(mkey: nat, base: nat)
    returns (cqRing: array<Cqe>, cqDbr: array<nat>, rqRing: array<RqWqe>, rqDbr: array<nat>)
    ensures fresh(cqRing) && fresh(cqDbr) && fresh(rqRing) && fresh(rqDbr)
    ensures cqDbr != rqDbr
    ensures var a: object, b: object, c: object, d: object := cqRing, rqRing, cqDbr, rqDbr;
            a !in {b, c, d} && b !in {c, d}
    ensures cqRing.Length == DEPTH && forall k | 0 <= k < DEPTH :: cqRing[k].owner == 1
    ensures RqRingReady(rqRing[..], mkey, base)
    ensures cqDbr.Length == rqDbr.Length == 1 && cqDbr[0] == 0 && rqDbr[0] == InitRqDbr()
  {
    hide Window, RqRingReady;
    cqDbr, rqDbr := new nat[1](_ => 0), new nat[1](_ => 0);
    rqDbr[0] := InitRqDbr();
    cqRing := AllocCqRing();
    rqRing := InitRqRing(mkey, base);
  }

  method SetUpReceive(cqNumber: nat, mkey: nat, base: nat) returns (q: Tenant)
    ensures fresh(q) && fresh(q.cq) && fresh(q.cq.ring) && fresh(q.cq.dbr) && fresh(q.rqRing) && fresh(q.rqDbr)
    ensures q.cq.dbr.Length == 1 && q.rqDbr.Length == 1 && q.rqDbr[0] == InitRqDbr() && q.rqLkey == mkey
    ensures q.cq.cqNumber == cqNumber
    ensures q.cq.ring.Length == DEPTH && q.cq.View() == InitCq(q.cq.ring[..], 7)
    ensures forall k | 0 <= k < DEPTH :: q.cq.ring[k].owner == 1
    ensures RqRingReady(q.rqRing[..], mkey, base)
    ensures var cqDbr: object, cqRing: object, rqDbr: object, rqRing: object := q.cq.dbr, q.cq.ring, q.rqDbr, q.rqRing;
            cqDbr != rqDbr && cqRing !in {cqDbr, rqDbr, rqRing} && rqRing !in {cqDbr, rqDbr}
  {
    hide Window, RqRingReady, InitCq;
    var cqRing, cqDbr, rqRing, rqDbr := AllocReceive(mkey, base);
    Pow2Values();
    var cq := new CqCtx(cqNumber, 7, cqRing, cqDbr);
    q := new Tenant(mkey, cq, rqRing, rqDbr);
  }

  /** The send queue carries its number, in its context and in every WQE's control segment, and its key. */
  ghost predicate Templates(sq: SqCtx, sqNumber: nat, lkey: nat)
    reads sq, sq.ring
  {
    && sq.sqNumber == sqNumber && sq.ring.Length == SEGS
    && forall k | 0 <= k < DEPTH ::
         sq.ring[4 * k] == Ctrl(k, sqNumber) && sq.ring[4 * k + 1] == Eth && sq.ring[4 * k + 2] == Data(0, lkey, 0)
  }

  method SetUpSend(sqNumber: nat, lkey: nat) returns (sq: SqCtx, ghost pad: seq<Segment>)
    ensures fresh(sq) && fresh(sq.ring) && sq.ring.Length == SEGS && SqInv(sq.View(), [], 0, pad)
    ensures Templates(sq, sqNumber, lkey)
  {
    hide SqInv;
    var ring := new Segment[SEGS](_ => Untouched(0));
    sq := new SqCtx(sqNumber, ring);
    pad := ring[..];
    ghost var slots := sq.BuildTemplates(lkey);
    forall k | 0 <= k < DEPTH
      ensures sq.ring[4 * k] == Ctrl(k, sqNumber) && sq.ring[4 * k + 1] == Eth && sq.ring[4 * k + 2] == Data(0, lkey, 0)
    {
      assert (4 * k) % 4 == 0 && (4 * k + 1) % 4 == 1 && (4 * k + 2) % 4 == 2 && 4 * k / 4 == k;
    }
  }

  /** The host allocates and fills the rings, the device builds its contexts and templates over them. */
  method SetUpQueue(variant: Variant, cqNumber: nat, sqNumber: nat, mkey: nat, sqKey: nat, base: nat)
    returns (sq: SqCtx, q: Tenant, mem: array<byte>, ghost s: Sys)
    ensures fresh(sq) && fresh(sq.ring) && fresh(q) && fresh(q.cq) && fresh(q.cq.ring) && fresh(q.cq.dbr)
    ensures fresh(q.rqDbr) && fresh(mem) && Separate(sq, q, mem)
    ensures Init(s) && s.dev == DevOf(variant, sq, q, mem, base, Idle, 0)
    ensures q.rqLkey == mkey && q.cq.cqNumber == cqNumber && Templates(sq, sqNumber, sqKey)
  {
    hide SqInv, RqRingReady;
    q := SetUpReceive(cqNumber, mkey, base);
    ghost var pad;
    sq, pad := SetUpSend(sqNumber, sqKey);
    mem := new byte[REGION](_ => 0);
    s := Sys(DevOf(variant, sq, q, mem, base, Idle, 0), [], [], [], [], 0, 0, pad);
  }

  /** End to end: from set-up, the first activation of flexio_pp_dev_2 forwards what a queue of 128 places serves of the
      arriving packets, in order, each from its own buffer and with its addresses exchanged, and stops after a round. */
  method FirstActivation(cqNumber: nat, sqNumber: nat, mkey: nat, sqKey: nat, base: nat,
                         batches: seq<seq<seq<byte>>>)
    returns (full: bool, pktCount: nat, ghost s: Sys)
    ensures exists s0 :: Init(s0) && Leads(s0, s)
    ensures |s.forwarded| == s.consumed == pktCount <= |s.received| && (full <==> pktCount == 1_000_000)
    ensures s.received[..s.consumed] == Served([], batches, 1_000_000)
    ensures forall k | 0 <= k < |s.forwarded| ::
              && s.forwarded[k].number == sqNumber
              && s.forwarded[k].desc == Data(|s.received[k]|, mkey, base + ENTRY * (k % DEPTH))
              && (|s.received[k]| >= 12 ==>
                    |s.received[k]| <= |s.forwarded[k].buffer|
                    && s.forwarded[k].buffer[..|s.received[k]|] == MacSwapped(s.received[k]))
  {
    hide Init, Inv, Served, MacSwapped, Leads;
    ghost var s0;
    var sq, q, mem;
    sq, q, mem, s0 := SetUpQueue(Tnt2, cqNumber, sqNumber, mkey, sqKey, base);
    InitInv(s0);
    InitIsEmpty(s0);
    var n;
    full, pktCount, n, s := PacketRound(sq, q, mem, base, 0, batches, 0, s0);
    forall k | 0 <= k < |s.forwarded|
      ensures s.forwarded[k].number == sqNumber
      ensures s.forwarded[k].desc == Data(|s.received[k]|, mkey, base + ENTRY * (k % DEPTH))
      ensures |s.received[k]| >= 12 ==>
                |s.received[k]| <= |s.forwarded[k].buffer|
                && s.forwarded[k].buffer[..|s.received[k]|] == MacSwapped(s.received[k])
    {
      ForwardedMeans(s, k);
    }
  }

  lemma InitIsEmpty(s: Sys)
    requires Init(s)
    ensures s.received == [] && s.consumed == 0
  {
  }
}
