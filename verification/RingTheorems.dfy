/** What the ring protocol guarantees in every run. */
module RingTheorems {
  import opened Words
  import opened MacSwap
  import opened CompletionQueue
  import opened SendQueue
  import opened HostRings
  import opened RingProtocol

  /** Histories only grow, and the queue's key and region and the send queue's number never change. */
  ghost predicate Extends(s: Sys, s': Sys) {
    && s.received <= s'.received && s.landed <= s'.landed && s.descs <= s'.descs && s.forwarded <= s'.forwarded
    && s.consumed <= s'.consumed
    && s'.dev.lkey == s.dev.lkey && s'.dev.base == s.dev.base && s'.dev.variant == s.dev.variant
    && s'.dev.rqRing == s.dev.rqRing && s'.pad == s.pad && s'.dev.sq.number == s.dev.sq.number
  }

  lemma NextExtends(s: Sys, a: Action)
    requires WellFormed(s.dev) && Enabled(s, a)
    ensures Extends(s, Next(s, a))
  {
    hide WellFormed, Fetched, Splice, Store64, Load64;
  }

  lemma {:induction false} RunExtends(t: seq<Sys>, i: nat, j: nat)
    requires Behaviour(t) && i <= j < |t|
    ensures Extends(t[i], t[j])
    decreases j
  {
    hide Next, WellFormed, Init;
    if i < j {
      RunExtends(t, i, j - 1);
      assert StepTo(t[j - 1], t[j - 1 + 1]);
      var a :| Enabled(t[j - 1], a) && t[j] == Next(t[j - 1], a);
      NextExtends(t[j - 1], a);
    }
  }

  /** What the invariant says of the k-th doorbell. */
  lemma ForwardedMeans(s: Sys, k: nat)
    requires Inv(s) && k < |s.forwarded|
    ensures k < |s.received| && |s.received[k]| <= ENTRY
    ensures s.forwarded[k].desc == Data(|s.received[k]|, s.dev.lkey, s.dev.base + ENTRY * (k % DEPTH))
    ensures s.forwarded[k].number == s.dev.sq.number
    ensures |s.forwarded[k].buffer| == ENTRY
    ensures |s.received[k]| >= 12 ==> s.forwarded[k].buffer[..|s.received[k]|] == MacSwapped(s.received[k])
  {
    hide WellFormed, SqInv, CqesOk, BuffersOk;
    if |s.received[k]| >= 12 {
      MacSwappedPrefix(s.landed[k], |s.received[k]|);
    }
  }

  /** Exactly-once, in-order forwarding: in every interleaving, the k-th doorbell pp_queue rings makes the device
      fetch the address and size of the k-th packet received, and the buffer there holds that packet with its
      addresses exchanged. */
  lemma ExactlyOnceInOrder(t: seq<Sys>, i: nat, k: nat)
    requires Behaviour(t) && i < |t| && k < |t[i].forwarded|
    ensures k < |t[i].received| && |t[i].received[k]| <= ENTRY
    ensures t[i].forwarded[k].desc
            == Data(|t[i].received[k]|, t[0].dev.lkey, t[0].dev.base + ENTRY * (k % DEPTH))
    ensures t[i].forwarded[k].number == t[0].dev.sq.number
    ensures |t[i].forwarded[k].buffer| == ENTRY
    ensures |t[i].received[k]| >= 12 ==>
              t[i].forwarded[k].buffer[..|t[i].received[k]|] == MacSwapped(t[i].received[k])
  {
    hide Inv, Init, StepTo, MacSwapped;
    BehaviourInv(t, i);
    RunExtends(t, 0, i);
    ForwardedMeans(t[i], k);
  }

  /** No packet is skipped: between packets, everything consumed has been forwarded, and a doorbell precedes its
      repost. */
  lemma ForwardedIsConsumed(t: seq<Sys>, i: nat)
    requires Behaviour(t) && i < |t|
    ensures |t[i].forwarded| == t[i].consumed + if t[i].dev.pc.Repost? || t[i].dev.pc.Step? then 1 else 0
  {
    hide Init, StepTo;
    BehaviourInv(t, i);
  }

  /** In-flight bound: at most 128 completions are outstanding, 129 between the repost and com_step_cq. */
  lemma InFlightBound(t: seq<Sys>, i: nat)
    requires Behaviour(t) && i < |t|
    ensures t[i].consumed <= |t[i].received|
    ensures |t[i].received| - t[i].consumed <= DEPTH + if t[i].dev.pc.Step? then 1 else 0
  {
    hide Init, StepTo;
    BehaviourInv(t, i);
  }

  /** Phase-bit exactness, in every run and across the wrap of the 32-bit index: the loop guard sees a completion
      exactly when one is unconsumed, and the one it sees is the oldest. */
  lemma PhaseExactInRun(t: seq<Sys>, i: nat)
    requires Behaviour(t) && i < |t| && t[i].dev.pc.Head?
    ensures t[i].dev.cq.at < |t[i].dev.cq.ring|
    ensures t[i].dev.cq.ring[t[i].dev.cq.at].owner != t[i].dev.cq.hwOwner <==> t[i].consumed < |t[i].received|
    ensures t[i].consumed < |t[i].received| ==>
              t[i].dev.cq.ring[t[i].dev.cq.at] == CqeOf(t[i].consumed, |t[i].received[t[i].consumed]|)
    ensures t[i].dev.cq.idx == t[i].consumed % WORD32
  {
    hide Init, StepTo, BuffersOk, SqInv, RqRingReady;
    BehaviourInv(t, i);
    GuardExact(t[i]);
  }

  /** No early overwrite: a delivery changes no completion that still has to be read and no buffer that still has to be
      reposted, whatever the worker is doing. */
  lemma DeliveryOverwritesNothingLive(t: seq<Sys>, i: nat, packet: seq<byte>, n: nat)
    requires Behaviour(t) && i < |t| && Enabled(t[i], Nic(packet)) && WellFormed(t[i].dev)
    ensures var s, s' := t[i], Next(t[i], Nic(packet));
            && (s.consumed <= n < |s.received| && (n > s.consumed || !s.dev.pc.Step?) ==>
                  s'.dev.cq.ring[Slot(n, DEPTH)] == s.dev.cq.ring[Slot(n, DEPTH)])
            && (Reposted(s) <= n < |s.received| ==> Buffer(s'.dev.mem, n) == Buffer(s.dev.mem, n))
  {
    hide Init, StepTo, BuffersOk, SqInv, RqRingReady, ForwardedOk, Window, Splice, Load64;
    BehaviourInv(t, i);
    var s, p := t[i], |t[i].received|;
    PostedExactly(s);
    LookupFindsBuffer(s.dev.rqRing, s.dev.lkey, s.dev.base, p, |packet|);
    if s.consumed <= n < p && (n > s.consumed || !s.dev.pc.Step?) {
      SlotsApart(n, p, DEPTH);
      if Reposted(s) <= n {
        SpliceElsewhere(s.dev.mem, p, 0, packet, n);
      }
    }
  }

  /** The sliding window over the worker's SQ: segment index and producer index agree modulo 2^32, the last 128
      descriptors are in place, and control, Ethernet and padding segments are those of the template. */
  lemma SendWindow(t: seq<Sys>, i: nat)
    requires Behaviour(t) && i < |t| && !t[i].dev.pc.Ring?
    ensures var s := t[i];
            && s.dev.sq.segIdx == (4 * s.dev.sq.pi) % WORD32
            && s.dev.sq.pi == |s.descs| % WORD32
            && Sliding(s.dev.sq, s.descs)
            && TemplateIntact(s.dev.sq, t[0].pad) && s.dev.sq.number == t[0].dev.sq.number
            && forall k | 0 <= k < DEPTH ::
                 s.dev.sq.ring[4 * k] == Ctrl(k, t[0].dev.sq.number) && s.dev.sq.ring[4 * k + 1] == Eth
  {
    hide Init, StepTo, BuffersOk, CqesOk, RqRingReady, ForwardedOk, Sliding, TemplateIntact;
    BehaviourInv(t, i);
    RunExtends(t, 0, i);
    FourTimesWraps(|t[i].descs|);
    ControlsIntact(t[i].dev.sq, t[0].pad);
  }

  lemma ControlsIntact(q: Sq, pad: seq<Segment>)
    requires TemplateIntact(q, pad)
    ensures |q.ring| == SEGS
    ensures forall k | 0 <= k < DEPTH :: q.ring[4 * k] == Ctrl(k, q.number) && q.ring[4 * k + 1] == Eth
  {
    forall k | 0 <= k < DEPTH
      ensures q.ring[4 * k] == Ctrl(k, q.number) && q.ring[4 * k + 1] == Eth
    {
      assert (4 * k) % 4 == 0 && (4 * k + 1) % 4 == 1;
    }
  }

  lemma FourTimesWraps(n: nat)
    ensures (4 * (n % WORD32)) % WORD32 == (4 * n) % WORD32
  {
    var q, r := n / WORD32, n % WORD32;
    DivModUnique(4 * n, WORD32, 4 * q + (4 * r) / WORD32, (4 * r) % WORD32);
  }

  /** flexio_pp_dev_2 ends an activation after exactly a round of packets, all of them forwarded. */
  lemma RoundIsExact(t: seq<Sys>, i: nat)
    requires Behaviour(t) && i + 1 < |t|
    requires t[i].dev.variant.Tnt2? && t[i].dev.pc.Check? && t[i + 1].dev.pc.Idle?
    ensures |t[i + 1].forwarded| == t[i + 1].activatedAt + 1_000_000
  {
    hide Init, BuffersOk, CqesOk, RqRingReady, ForwardedOk, SqInv;
    BehaviourInv(t, i);
    BehaviourInv(t, i + 1);
    assert StepTo(t[i], t[i + 1]);
  }

  // ---- progress, across activations and while more packets arrive ----

  /** The worker's accesses so far, at thirteen a packet. */
  ghost function Progress(s: Sys): int {
    13 * s.consumed +
    match s.dev.pc
    case Idle => 0
    case Head => 0
    case Counter => 1
    case Size(_) => 2
    case Addr(_, _) => 3
    case LoadSrc(_, _) => 4
    case LoadDst(_, _, _) => 5
    case StoreLow(_, _, _, _) => 6
    case StoreHigh(_, _, _, _) => 7
    case PatchSq(_, _) => 8
    case Ring => 9
    case Repost => 10
    case Step => 11
    case Check => -1
  }

  /** Accesses the worker still has to make before its queue is empty, if nothing more arrives. */
  ghost function Remaining(s: Sys): int {
    13 * |s.received| - Progress(s)
  }

  function Works(acts: seq<Action>): nat {
    if acts == [] then 0 else Works(acts[..|acts| - 1]) + if acts[|acts| - 1].Work? then 1 else 0
  }

  /** `t` is what the actions make of its first state. */
  ghost predicate Made(t: seq<Sys>, acts: seq<Action>) {
    && |t| == |acts| + 1
    && forall i | 0 <= i < |acts| :: WellFormed(t[i].dev) && Enabled(t[i], acts[i]) && t[i + 1] == Next(t[i], acts[i])
  }

  /** Only the worker's own accesses count, and each counts one, as long as a packet is waiting. */
  lemma ActionCounts(s: Sys, a: Action)
    requires Inv(s) && WellFormed(s.dev) && Enabled(s, a)
    ensures var s' := Next(s, a);
            Progress(s') == Progress(s) + if a.Work? && (!s.dev.pc.Head? || s.consumed < |s.received|) then 1 else 0
  {
    hide BuffersOk, CqesOk, RqRingReady, ForwardedOk, SqInv, LandedOk;
    hide Load64, Store64, Patch, RingDoorbell, StepCq, ShotAt, MacSwapped, Splice, Fetched, RqSlot;
    if !s.dev.pc.Step? {
      GuardExact(s);
    }
  }

  lemma {:induction false} MadeProgress(t: seq<Sys>, acts: seq<Action>, k: nat)
    requires Made(t, acts) && Inv(t[0]) && k < |t[0].received|
    ensures Inv(t[|acts|]) && k < |t[|acts|].received|
    ensures Progress(t[|acts|]) >= 13 * k + 10 || Progress(t[|acts|]) == Progress(t[0]) + Works(acts)
    decreases |acts|
  {
    hide Inv, Next, WellFormed, Progress, Enabled;
    if acts != [] {
      var n := |acts| - 1;
      MadeProgress(t[..n + 1], acts[..n], k);
      ActionCounts(t[n], acts[n]);
      NextKeeps(t[n], acts[n]);
      NextExtends(t[n], acts[n]);
      ProgressMeans(t[n], k);
    }
  }

  lemma ProgressMeans(s: Sys, k: nat)
    requires Inv(s)
    ensures Progress(s) >= 13 * k + 10 <==> |s.forwarded| > k
    ensures Progress(s) >= 13 * s.consumed - 1
    ensures |s.forwarded| <= k ==> s.consumed <= k
  {
    hide BuffersOk, CqesOk, RqRingReady, ForwardedOk, SqInv, LandedOk;
  }

  /** Progress under load: whatever the NIC delivers and send_packet sends in between, and however often the worker is
      rescheduled and activated again, a received packet is forwarded after at most thirteen of the worker's accesses
      for it and for each packet before it. */
  lemma PacketIsForwarded(t: seq<Sys>, acts: seq<Action>, k: nat)
    requires Made(t, acts) && Inv(t[0]) && k < |t[0].received|
    requires Works(acts) >= 13 * (k + 1 - t[0].consumed)
    ensures |t[|acts|].forwarded| > k
  {
    hide Inv, Progress, Next, Enabled, WellFormed;
    MadeProgress(t, acts, k);
    ProgressMeans(t[0], k);
    ProgressMeans(t[|acts|], k);
  }

  /** The worker's next `n` accesses, with nothing else in between but the activations that its reschedules need. */
  ghost function Working(s: Sys, late: nat -> bool, n: nat): (s': Sys)
    requires Inv(s)
    decreases n, s.dev.pc.Idle?
  {
    if n == 0 then s
    else
      var a := if s.dev.pc.Idle? then Activate else Work(late(n));
      InvIsWellFormed(s);
      NextKeeps(s, a);
      ActionCounts(s, a);
      Working(Next(s, a), late, if s.dev.pc.Idle? then n else n - 1)
  }

  /** A worker whose queue gets nothing more forwards its whole backlog, in thirteen accesses a packet, whichever its
      handler and whenever its clock or its count ends an activation. */
  lemma {:induction false} BacklogIsForwarded(s: Sys, late: nat -> bool)
    requires Inv(s)
    ensures Remaining(s) >= 0
    ensures var s' := Working(s, late, Remaining(s));
            && s'.received == s.received && s'.consumed == |s.received| && |s'.forwarded| == |s.received|
            && (s'.dev.pc.Head? || s'.dev.pc.Idle?)
    decreases Remaining(s), s.dev.pc.Idle?
  {
    hide Inv, Next, WellFormed, Progress;
    NothingRemains(s);
    if Remaining(s) > 0 {
      var a := if s.dev.pc.Idle? then Activate else Work(late(Remaining(s)));
      InvIsWellFormed(s);
      ActionCounts(s, a);
      NextKeeps(s, a);
      NextReceives(s, a);
      BacklogIsForwarded(Next(s, a), late);
    }
  }

  lemma NothingRemains(s: Sys)
    requires Inv(s)
    ensures Remaining(s) >= 0
    ensures Remaining(s) > 0 && s.dev.pc.Head? ==> s.consumed < |s.received|
    ensures Remaining(s) == 0 ==>
              s.consumed == |s.forwarded| == |s.received| && (s.dev.pc.Head? || s.dev.pc.Idle?)
  {
    hide BuffersOk, CqesOk, RqRingReady, ForwardedOk, SqInv, LandedOk;
  }

  lemma NextReceives(s: Sys, a: Action)
    requires WellFormed(s.dev) && Enabled(s, a) && !a.Nic?
    ensures Next(s, a).received == s.received && (a.Activate? ==> Next(s, a).dev.pc.Head?)
  {
    hide WellFormed;
  }
}
