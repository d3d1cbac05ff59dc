/** pp_queue and the packet loop of flexio_pp_dev_2 over the device's own structures, updated in place, and
    proved to perform exactly the accesses of the ring protocol's worker. */
module PacketPath {
  import opened Words
  import opened MacSwap
  import opened CompletionQueue
  import opened SendQueue
  import opened HostRings
  import opened RingProtocol

  /** The part of flexio_dpa_dev_queue that the packet path uses. */
  class Tenant {
    var rqLkey: nat
    const cq: CqCtx
    const rqRing: array<RqWqe>
    const rqDbr: array<nat>

    constructor (lkey: nat, cq: CqCtx, rqRing: array<RqWqe>, rqDbr: array<nat>)
      ensures this.cq == cq && this.rqRing == rqRing && this.rqDbr == rqDbr && rqLkey == lkey
    {
      rqLkey := lkey;
      this.cq, this.rqRing, this.rqDbr := cq, rqRing, rqDbr;
    }
  }

  /** The structures as a device state of the ring protocol. */
  ghost function DevOf(variant: Variant, sq: SqCtx, q: Tenant, mem: array<byte>, base: nat, pc: Pc, count: nat): Dev
    reads sq, sq.ring, q, q.cq, q.cq.ring, q.cq.dbr, q.rqRing, q.rqDbr, mem
    requires q.cq.dbr.Length > 0 && q.rqDbr.Length > 0
  {
    Dev(variant, q.cq.View(), q.rqRing[..], q.rqDbr[0], q.rqLkey, base, mem[..], sq.View(), pc, count)
  }

  /** The doorbell words exist, and no array that the packet path or the NIC writes is also another of the queue's
      arrays. */
  predicate Separate(sq: SqCtx, q: Tenant, mem: array<byte>)
    reads sq, q, q.cq
  {
    var ring: object, rqDbr: object, cqDbr: object, frames: object := sq.ring, q.rqDbr, q.cq.dbr, mem;
    var rqRing: object, cqRing: object := q.rqRing, q.cq.ring;
    && q.cq.dbr.Length > 0 && q.rqDbr.Length > 0
    && ring != rqDbr && ring != cqDbr && ring != frames && rqDbr != cqDbr && rqDbr != frames && cqDbr != frames
    && rqRing !in {ring, rqDbr, cqDbr, frames, cqRing} && cqRing !in {ring, rqDbr, cqDbr, frames}
  }

  /** What pp_queue does to the device, for the completion at the head of the queue. */
  ghost function Forward(d: Dev): Dev
    requires WellFormed(d)
  {
    var cqe := d.cq.ring[d.cq.at];
    var addr := d.rqRing[RqSlot(cqe.wqeCounter)].addr;
    var off := addr - d.base;
    d.(mem := d.mem[..off] + MacSwapped(d.mem[off..]),
       sq := RingDoorbell(Patch(d.sq, Data(cqe.byteCount, d.lkey, addr))),
       rqDbr := (d.rqDbr + 1) % WORD16,
       pc := Step)
  }

  method PpQueue(sq: SqCtx, q: Tenant, mem: array<byte>, base: nat, ghost variant: Variant, ghost count: nat,
                 ghost descs: seq<Segment>, ghost pad: seq<Segment>)
    requires Separate(sq, q, mem) && WellFormed(DevOf(variant, sq, q, mem, base, Counter, count))
    requires SqInv(sq.View(), descs, |descs|, pad)
    modifies sq`segIdx, sq`pi, sq.ring, q.rqDbr, mem
    ensures DevOf(variant, sq, q, mem, base, Step, count)
            == Forward(old(DevOf(variant, sq, q, mem, base, Counter, count)))
  {
    hide Patch, RingDoorbell, MacSwapped, SqInv;
    var rqWqeIdx := q.cq.ring[q.cq.cqe].wqeCounter;
    var dataSz := q.cq.ring[q.cq.cqe].byteCount;
    var rqData := q.rqRing[RqSlot(rqWqeIdx)].addr;
    SwapMac(mem, rqData - base);
    sq.PatchNext(dataSz, q.rqLkey, rqData, descs, |descs|, pad);
    sq.Ring(descs + [Data(dataSz, q.rqLkey, rqData)], pad);
    q.rqDbr[0] := (q.rqDbr[0] + 1) % WORD16;
  }

  // ---- the accesses of pp_queue and com_step_cq ----

  /** From the head of the loop to the first store: the NIC may run between any two of these, here it does not. */
  lemma FirstAccesses(s: Sys) returns (s': Sys)
    requires Inv(s) && s.dev.pc.Head? && s.consumed < |s.received|
    ensures Inv(s') && Leads(s, s') && s'.dev.pc.StoreLow?
    ensures s' == s.(dev := s.dev.(pc := s'.dev.pc))
  {
    hide BuffersOk, CqesOk, RqRingReady, ForwardedOk, SqInv, LandedOk, Load64, MacSwapped, Leads;
    GuardExact(s);
    LeadsToItself(s);
    s' := s;
    for i := 0 to 6
      invariant Inv(s') && Leads(s, s') && s' == s.(dev := s.dev.(pc := s'.dev.pc))
      invariant match i case 0 => s'.dev.pc.Head? case 1 => s'.dev.pc.Counter? case 2 => s'.dev.pc.Size?
                        case 3 => s'.dev.pc.Addr? case 4 => s'.dev.pc.LoadSrc? case 5 => s'.dev.pc.LoadDst?
                        case _ => s'.dev.pc.StoreLow?
    {
      LeadsOn(s, s', Work(false));
      s' := Next(s', Work(false));
    }
  }

  /** The two stores, seen from the loop head. */
  lemma StoreAccesses(s: Sys) returns (s': Sys)
    requires Inv(s) && s.dev.pc.StoreLow?
    ensures Inv(s') && Leads(s, s') && s'.dev.pc.PatchSq?
    ensures s'.dev.pc.size == |s.received[s.consumed]| && s'.dev.pc.addr == s.dev.base + BufferOff(s.consumed)
    ensures var off := BufferOff(s.consumed);
            s' == s.(dev := s.dev.(pc := s'.dev.pc, mem := s.dev.mem[..off] + MacSwapped(s.dev.mem[off..])))
  {
    hide CqesOk, RqRingReady, ForwardedOk, SqInv, Load64, MacSwapped, Merged, Bytes, Splice, Leads;
    var off := BufferOff(s.consumed);
    LoadInBuffer(s.dev.mem, s.consumed);
    WordSwapRefinesByteSwap(s.dev.mem, off);
    LeadsToItself(s);
    LeadsOn(s, s, Work(false));
    s' := Next(s, Work(false));
    LeadsOn(s, s', Work(false));
    s' := Next(s', Work(false));
  }

  /** Patch, doorbell, repost. */
  lemma LastAccesses(s: Sys) returns (s': Sys)
    requires Inv(s) && s.dev.pc.PatchSq?
    ensures Inv(s') && Leads(s, s') && s'.dev.pc.Step?
    ensures s'.dev == s.dev.(sq := RingDoorbell(Patch(s.dev.sq, Data(s.dev.pc.size, s.dev.lkey, s.dev.pc.addr))),
                             rqDbr := (s.dev.rqDbr + 1) % WORD16, pc := Step)
    ensures s'.received == s.received && s'.consumed == s.consumed
  {
    hide BuffersOk, CqesOk, RqRingReady, ForwardedOk, SqInv, LandedOk, MacSwapped, Patch, RingDoorbell, ShotAt, Leads;
    LeadsToItself(s);
    s' := s;
    for i := 0 to 3
      invariant Inv(s') && Leads(s, s') && s'.received == s.received && s'.consumed == s.consumed
      invariant var patched := Patch(s.dev.sq, Data(s.dev.pc.size, s.dev.lkey, s.dev.pc.addr));
                match i
                case 0 => s' == s
                case 1 => s'.dev == s.dev.(sq := patched, pc := Ring)
                case 2 => s'.dev == s.dev.(sq := RingDoorbell(patched), pc := Repost)
                case _ => s'.dev == s.dev.(sq := RingDoorbell(patched), rqDbr := (s.dev.rqDbr + 1) % WORD16, pc := Step)
    {
      LeadsOn(s, s', Work(false));
      s' := Next(s', Work(false));
    }
  }

  /** pp_queue as a whole is the worker's accesses from the loop head to com_step_cq. */
  lemma ForwardIsTheWorker(s: Sys) returns (s': Sys)
    requires Inv(s) && s.dev.pc.Head? && s.consumed < |s.received|
    ensures Inv(s') && Leads(s, s') && WellFormed(s.dev.(pc := Counter)) && s'.dev == Forward(s.dev.(pc := Counter))
    ensures s'.received == s.received && s'.consumed == s.consumed
  {
    hide BuffersOk, CqesOk, ForwardedOk, SqInv, LandedOk, MacSwapped, Patch, RingDoorbell, Leads;
    GuardExact(s);
    LookupFindsBuffer(s.dev.rqRing, s.dev.lkey, s.dev.base, s.consumed, 0);
    var s1 := FirstAccesses(s);
    var s2 := StoreAccesses(s1);
    s' := LastAccesses(s2);
    LeadsFurther(s, s1, s2);
    LeadsFurther(s, s2, s');
  }

  /** com_step_cq and the count that follows it, at the end of one turn of the loop. */
  lemma StepAccess(s: Sys) returns (s': Sys)
    requires Inv(s) && s.dev.pc.Step?
    ensures Inv(s') && Leads(s, s')
    ensures s'.dev == s.dev.(cq := StepCq(s.dev.cq), pktCount := s.dev.pktCount + 1,
                             pc := if Leaves(s'.dev, false) then Idle else Head)
    ensures s'.received == s.received && s'.consumed == s.consumed + 1
  {
    hide BuffersOk, CqesOk, RqRingReady, ForwardedOk, SqInv, LandedOk, MacSwapped, StepCq, Leads;
    LeadsToItself(s);
    LeadsOn(s, s, Work(false));
    s' := Next(s, Work(false));
    LeadsOn(s, s', Work(false));
    s' := Next(s', Work(false));
  }

  lemma QueueIsSynced(s: Sys)
    requires Inv(s)
    ensures Synced(s.dev.cq, s.consumed) && s.dev.cq.at < |s.dev.cq.ring|
    ensures !s.dev.pc.Ring? ==> SqInv(s.dev.sq, s.descs, |s.descs|, s.pad)
  {
    hide BuffersOk, RqRingReady, ForwardedOk, SqInv, LandedOk;
  }

  // ---- the NIC, writing the same arrays ----

  lemma NicAccess(s: Sys, packet: seq<byte>) returns (s': Sys)
    requires Inv(s) && s.dev.rqDbr != |s.received| % WORD16 && |packet| <= ENTRY
    ensures Inv(s') && Leads(s, s') && s'.consumed == s.consumed && s'.received == s.received + [packet]
    ensures var n, addr := |s.received|, s.dev.rqRing[RqSlot(|s.received| % WORD16)].addr;
            && s.dev.base <= addr && addr + ENTRY <= s.dev.base + REGION
            && s'.dev == s.dev.(mem := Splice(s.dev.mem, addr - s.dev.base, packet),
                                cq := s.dev.cq.(ring := s.dev.cq.ring[Slot(n, DEPTH) := CqeOf(n, |packet|)]))
  {
    hide BuffersOk, CqesOk, ForwardedOk, SqInv, LandedOk, Leads;
    LookupFindsBuffer(s.dev.rqRing, s.dev.lkey, s.dev.base, |s.received|, ENTRY);
    LeadsToItself(s);
    LeadsOn(s, s, Nic(packet));
    s' := Next(s, Nic(packet));
  }

  /** Whether the NIC finds a posted entry. */
  lemma PostedWhileRoom(s: Sys)
    requires Inv(s) && s.dev.pc.Head?
    ensures |s.dev.cq.ring| == DEPTH && |s.dev.mem| == REGION && |s.dev.rqRing| == DEPTH && s.consumed <= |s.received|
    ensures s.dev.rqDbr != |s.received| % WORD16 <==> |s.received| - s.consumed < DEPTH
  {
    hide BuffersOk, CqesOk, ForwardedOk, SqInv, LandedOk;
    PostedExactly(s);
  }

  /** The NIC takes the packet if it fits a buffer and an entry is posted, and drops it otherwise; `n` is its own
      counter. */
  method Deliver(sq: SqCtx, q: Tenant, mem: array<byte>, base: nat, n: nat, packet: seq<byte>,
                 ghost count: nat, ghost s: Sys)
    returns (n': nat, ghost s': Sys)
    requires Separate(sq, q, mem) && Inv(s) && n == |s.received| && s.dev == DevOf(Tnt2, sq, q, mem, base, Head, count)
    modifies q.cq.ring, mem
    ensures Inv(s') && Leads(s, s') && n' == |s'.received| && s'.dev == DevOf(Tnt2, sq, q, mem, base, Head, count)
    ensures s.received <= s'.received && s'.consumed == s.consumed <= |s.received|
    ensures s'.received[s.consumed..] == Offer(s.received[s.consumed..], packet)
  {
    hide Inv, Leads, Splice, CqeOf;
    n', s' := n, s;
    LeadsToItself(s);
    PostedWhileRoom(s);
    if q.rqDbr[0] != n % WORD16 && |packet| <= ENTRY {
      s' := NicAccess(s, packet);
      WriteBytes(mem, q.rqRing[RqSlot(n % WORD16)].addr - base, packet);
      q.cq.ring[Slot(n, DEPTH)] := CqeOf(n, |packet|);
      n' := n + 1;
      assert s'.received[s.consumed..] == s.received[s.consumed..] + [packet];
    }
  }

  method DeliverAll(sq: SqCtx, q: Tenant, mem: array<byte>, base: nat, n: nat, packets: seq<seq<byte>>,
                    ghost count: nat, ghost s: Sys)
    returns (n': nat, ghost s': Sys)
    requires Separate(sq, q, mem) && Inv(s) && n == |s.received| && s.dev == DevOf(Tnt2, sq, q, mem, base, Head, count)
    modifies q.cq.ring, mem
    ensures Inv(s') && Leads(s, s') && n' == |s'.received| && s'.dev == DevOf(Tnt2, sq, q, mem, base, Head, count)
    ensures s.received <= s'.received && s'.consumed == s.consumed <= n'
    ensures s'.received[s.consumed..] == OfferAll(s.received[s.consumed..], packets)
  {
    hide BuffersOk, CqesOk, RqRingReady, ForwardedOk, SqInv, LandedOk, WellFormed, Leads, Offer;
    n', s' := n, s;
    LeadsToItself(s);
    for k := 0 to |packets|
      invariant Separate(sq, q, mem) && Inv(s') && Leads(s, s')
      invariant n' == |s'.received| && s'.dev == DevOf(Tnt2, sq, q, mem, base, Head, count)
      invariant s.received <= s'.received && s'.consumed == s.consumed <= n'
      invariant OfferAll(s'.received[s.consumed..], packets[k..]) == OfferAll(s.received[s.consumed..], packets)
    {
      ghost var s1 := s';
      n', s' := Deliver(sq, q, mem, base, n', packets[k], count, s');
      LeadsFurther(s, s1, s');
    }
  }

  // ---- the packet loop, against a bounded queue ----

  /** A queue of 128 places that drops what does not fit. */
  function Offer(waiting: seq<seq<byte>>, packet: seq<byte>): seq<seq<byte>> {
    if |waiting| < DEPTH && |packet| <= ENTRY then waiting + [packet] else waiting
  }

  function OfferAll(waiting: seq<seq<byte>>, packets: seq<seq<byte>>): seq<seq<byte>>
    decreases |packets|
  {
    if packets == [] then waiting else OfferAll(Offer(waiting, packets[0]), packets[1..])
  }

  /** What a loop serves that takes one packet, if there is one, after each batch of arrivals, and stops after
      `limit`. */
  function Served(waiting: seq<seq<byte>>, batches: seq<seq<seq<byte>>>, limit: nat): seq<seq<byte>>
    decreases |batches|
  {
    if batches == [] || limit == 0 then []
    else
      var w := OfferAll(waiting, batches[0]);
      if w == [] then Served([], batches[1..], limit)
      else [w[0]] + Served(w[1..], batches[1..], limit - 1)
  }

  lemma {:induction false} OffersStay(waiting: seq<seq<byte>>, packets: seq<seq<byte>>)
    ensures |OfferAll(waiting, packets)| >= |waiting|
    ensures packets != [] && |packets[0]| <= ENTRY ==> OfferAll(waiting, packets) != []
    decreases |packets|
  {
    if packets != [] {
      OffersStay(Offer(waiting, packets[0]), packets[1..]);
    }
  }

  /** With a packet for every test of the guard the loop serves one each time, until its round is full. */
  lemma {:induction false} BusyLoopServesAlways(waiting: seq<seq<byte>>, batches: seq<seq<seq<byte>>>, limit: nat)
    requires forall k | 0 <= k < |batches| :: batches[k] != [] && |batches[k][0]| <= ENTRY
    ensures |Served(waiting, batches, limit)| == if |batches| < limit then |batches| else limit
    decreases |batches|
  {
    if batches != [] && limit > 0 {
      OffersStay(waiting, batches[0]);
      BusyLoopServesAlways(OfferAll(waiting, batches[0])[1..], batches[1..], limit - 1);
    }
  }

  /** Without arrivals the loop serves what is waiting, and nothing else. */
  lemma {:induction false} QuietLoopServesBacklog(waiting: seq<seq<byte>>, batches: seq<seq<seq<byte>>>, limit: nat)
    requires |waiting| <= |batches| && |waiting| <= limit && forall k | 0 <= k < |batches| :: batches[k] == []
    ensures Served(waiting, batches, limit) == waiting
    decreases |batches|
  {
    if batches != [] && limit > 0 {
      assert OfferAll(waiting, batches[0]) == waiting;
      if waiting == [] {
        QuietLoopServesBacklog([], batches[1..], limit);
      } else {
        QuietLoopServesBacklog(waiting[1..], batches[1..], limit - 1);
      }
    }
  }

  /** One turn of the loop, from the guard that saw a completion on. */
  method Turn(sq: SqCtx, q: Tenant, mem: array<byte>, base: nat, ghost count: nat, ghost s: Sys) returns (ghost s': Sys)
    requires Separate(sq, q, mem) && Inv(s) && s.dev == DevOf(Tnt2, sq, q, mem, base, Head, count)
    requires s.consumed < |s.received|
    modifies sq`segIdx, sq`pi, sq.ring, q.rqDbr, mem, q.cq`cqe, q.cq`cqIdx, q.cq`hwOwnerBit, q.cq.dbr
    ensures Inv(s') && Leads(s, s') && s'.received == s.received && s'.consumed == s.consumed + 1
    ensures s'.dev == DevOf(Tnt2, sq, q, mem, base, if count + 1 >= ROUND then Idle else Head, count + 1)
  {
    hide BuffersOk, CqesOk, RqRingReady, ForwardedOk, SqInv, LandedOk, WellFormed, Forward, StepCq, Leads;
    QueueIsSynced(s);
    ghost var s1 := ForwardIsTheWorker(s);
    PpQueue(sq, q, mem, base, Tnt2, count, s.descs, s.pad);
    QueueIsSynced(s1);
    q.cq.Step(s1.consumed);
    s' := StepAccess(s1);
    LeadsFurther(s, s1, s');
  }

  lemma RoundStarts(s: Sys) returns (s': Sys)
    requires Inv(s) && s.dev.pc.Idle?
    ensures Inv(s') && Leads(s, s') && s'.dev == s.dev.(pc := Head, pktCount := 0)
    ensures s'.received == s.received && s'.consumed == s.consumed
  {
    hide BuffersOk, CqesOk, RqRingReady, ForwardedOk, SqInv, LandedOk, Leads;
    LeadsToItself(s);
    LeadsOn(s, s, Activate);
    s' := Next(s, Activate);
  }

  /** Between packets: the index is in the ring, and everything consumed has been forwarded. */
  lemma BetweenPackets(s: Sys)
    requires Inv(s) && (s.dev.pc.Head? || s.dev.pc.Idle?)
    ensures s.dev.cq.at < |s.dev.cq.ring| && s.consumed <= |s.received| && |s.forwarded| == s.consumed
  {
  }

  /** Arrivals, the test of the loop guard, and the turn of the loop if there is one. */
  method PollOnce(sq: SqCtx, q: Tenant, mem: array<byte>, base: nat, n: nat, batch: seq<seq<byte>>,
                  ghost count: nat, ghost s: Sys)
    returns (served: bool, n': nat, ghost s': Sys)
    requires Separate(sq, q, mem) && Inv(s) && n == |s.received| && s.dev == DevOf(Tnt2, sq, q, mem, base, Head, count)
    modifies sq`segIdx, sq`pi, sq.ring, q.rqDbr, mem, q.cq`cqe, q.cq`cqIdx, q.cq`hwOwnerBit, q.cq.dbr, q.cq.ring
    ensures Inv(s') && Leads(s, s') && n' == |s'.received| && s.received <= s'.received
    ensures s'.consumed == s.consumed + (if served then 1 else 0) && s'.consumed <= n'
    ensures var count' := if served then count + 1 else count;
            s'.dev == DevOf(Tnt2, sq, q, mem, base, if served && count' >= ROUND then Idle else Head, count')
    ensures s.consumed <= |s.received|
    ensures s'.received[s.consumed..] == OfferAll(s.received[s.consumed..], batch)
    ensures served <==> OfferAll(s.received[s.consumed..], batch) != []
  {
    hide Inv, Leads, OfferAll, Synced;
    BetweenPackets(s);
    n', s' := DeliverAll(sq, q, mem, base, n, batch, count, s);
    BetweenPackets(s');
    GuardExact(s');
    served := q.cq.HasCqe();
    if served {
      ghost var s1 := s';
      s' := Turn(sq, q, mem, base, count, s1);
      LeadsFurther(s, s1, s');
      BetweenPackets(s');
    }
  }

  lemma ServesNoMore(waiting: seq<seq<byte>>, batches: seq<seq<seq<byte>>>, limit: nat)
    requires batches == [] || limit == 0
    ensures Served(waiting, batches, limit) == []
  {
  }

  /** One turn of the bounded queue, next to the histories before and after it. */
  lemma ServedTurns(s: Sys, s': Sys, from: nat, served: bool, batches: seq<seq<seq<byte>>>, limit: nat)
    requires batches != [] && limit > 0 && from <= s.consumed <= |s.received| && s.received <= s'.received
    requires s'.consumed == s.consumed + (if served then 1 else 0) && s'.consumed <= |s'.received|
    requires s'.received[s.consumed..] == OfferAll(s.received[s.consumed..], batches[0])
    requires served <==> OfferAll(s.received[s.consumed..], batches[0]) != []
    ensures s'.received[from..s'.consumed]
            + Served(s'.received[s'.consumed..], batches[1..], if served then limit - 1 else limit)
            == s.received[from..s.consumed] + Served(s.received[s.consumed..], batches, limit)
  {
    hide OfferAll;
  }

  /** An activation of flexio_pp_dev_2 from its spin on, for as many tests of the loop guard as there are batches; a
      batch is what reaches the NIC before its test. The packets forwarded are those the bounded queue serves, in that
      order. */
  method PacketRound(sq: SqCtx, q: Tenant, mem: array<byte>, base: nat, n: nat, batches: seq<seq<seq<byte>>>,
                     ghost count: nat, ghost s: Sys)
    returns (full: bool, pktCount: nat, n': nat, ghost s': Sys)
    requires Separate(sq, q, mem) && Inv(s) && n == |s.received| && s.dev == DevOf(Tnt2, sq, q, mem, base, Idle, count)
    modifies sq`segIdx, sq`pi, sq.ring, q.rqDbr, mem, q.cq`cqe, q.cq`cqIdx, q.cq`hwOwnerBit, q.cq.dbr, q.cq.ring
    ensures Inv(s') && Leads(s, s') && n' == |s'.received|
    ensures s'.dev == DevOf(Tnt2, sq, q, mem, base, if full then Idle else Head, pktCount)
    ensures s.consumed + pktCount == s'.consumed == |s'.forwarded| <= n'
    ensures s'.received[s.consumed..s'.consumed] == Served(s.received[s.consumed..], batches, 1_000_000)
    ensures full <==> pktCount == 1_000_000
  {
    hide Inv, Leads, OfferAll, Served;
    s' := RoundStarts(s);
    pktCount, n' := 0, n;
    BetweenPackets(s');
    for turn := 0 to |batches|
      invariant Separate(sq, q, mem)
      invariant Inv(s') && Leads(s, s') && n' == |s'.received|
      invariant s'.dev == DevOf(Tnt2, sq, q, mem, base, Head, pktCount)
      invariant s.consumed + pktCount == s'.consumed <= n' && pktCount < ROUND
      invariant s'.received[s.consumed..s'.consumed]
                + Served(s'.received[s'.consumed..], batches[turn..], ROUND - pktCount)
                == Served(s.received[s.consumed..], batches, ROUND)
    {
      ghost var s1 := s';
      var served;
      served, n', s' := PollOnce(sq, q, mem, base, n', batches[turn], pktCount, s1);
      LeadsFurther(s, s1, s');
      ServedTurns(s1, s', s.consumed, served, batches[turn..], ROUND - pktCount);
      pktCount := if served then pktCount + 1 else pktCount;
      if pktCount >= ROUND {
        BetweenPackets(s');
        ServesNoMore(s'.received[s'.consumed..], batches[turn..][1..], 0);
        return true, pktCount, n', s';
      }
    }
    BetweenPackets(s');
    ServesNoMore(s'.received[s'.consumed..], [], ROUND - pktCount);
    return false, pktCount, n', s';
  }
}
