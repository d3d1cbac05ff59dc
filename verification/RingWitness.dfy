/** Runs of the ring protocol exist, and the in-flight bound is reached. */
module RingWitness {
  import opened MacSwap
  import opened CompletionQueue
  import opened SendQueue
  import opened HostRings
  import opened RingProtocol

  ghost predicate Reachable(s: Sys) {
    exists s0 :: Init(s0) && Leads(s0, s)
  }

  lemma ReachableInv(s: Sys)
    requires Reachable(s)
    ensures Inv(s)
  {
    hide Inv, Init, StepTo;
    var s0 :| Init(s0) && Leads(s0, s);
    InitInv(s0);
    var t :| Chain(t) && t[0] == s0 && t[|t| - 1] == s;
    ChainInv(t, |t| - 1);
  }

  lemma ReachNext(s: Sys, a: Action)
    requires Reachable(s) && Enabled(s, a)
    ensures WellFormed(s.dev) && Reachable(Next(s, a))
  {
    hide Next, Enabled, Init, WellFormed, Leads, Inv;
    ReachableInv(s);
    var s0 :| Init(s0) && Leads(s0, s);
    LeadsOn(s0, s, a);
  }

  lemma FreshSq() returns (sq: Sq, pad: seq<Segment>)
    ensures SqInv(sq, [], 0, pad) && |sq.ring| == SEGS
  {
    pad := seq(SEGS, _ => Untouched(0));
    sq := Sq(seq(SEGS, k requires 0 <= k < SEGS => TemplateSegment(k, 1, 0, Untouched(0))), 0, 0, 1);
  }

  lemma FreshRqRing() returns (ring: seq<RqWqe>)
    ensures RqRingReady(ring, 7, 0)
  {
    ring := seq(DEPTH, k requires 0 <= k < DEPTH => RqWqe(ENTRY, 7, ENTRY * k));
  }

  /** A host set-up with zeroed memory. */
  lemma Setup(variant: Variant) returns (s: Sys)
    ensures Init(s) && Reachable(s) && s.dev.variant == variant && s.dev.pc.Idle?
  {
    hide SqInv, RqRingReady;
    var sq, pad := FreshSq();
    var rqRing := FreshRqRing();
    var cq := InitCq(seq(DEPTH, _ => Cqe(1, 0, 0, 0)), 7);
    s := Sys(Dev(variant, cq, rqRing, InitRqDbr(), 7, 0, seq(REGION, _ => 0), sq, Idle, 0), [], [], [], [], 0, 0, pad);
    assert WellFormed(s.dev);
    assert Init(s);
    LeadsToItself(s);
  }

  /** The NIC can fill every posted entry, whatever the worker is doing. */
  lemma {:induction false} Fill(s: Sys) returns (s': Sys)
    requires Reachable(s)
    ensures Reachable(s') && s'.consumed == s.consumed && s'.dev.pc == s.dev.pc
    ensures |s'.received| == Reposted(s) + DEPTH
    decreases Reposted(s) + DEPTH - |s.received|
  {
    hide Reachable, BuffersOk, CqesOk, RqRingReady, ForwardedOk, SqInv, LandedOk, Splice;
    ReachableInv(s);
    PostedExactly(s);
    s' := s;
    if |s.received| < Reposted(s) + DEPTH {
      ReachNext(s, Nic([]));
      s' := Fill(Next(s, Nic([])));
    }
  }

  /** From the loop head with a packet waiting to the access before com_step_cq. */
  lemma UpToStep(s: Sys) returns (s': Sys)
    requires Reachable(s) && s.dev.pc.Head? && s.consumed < |s.received|
    ensures Reachable(s') && s'.dev.pc.Step? && s'.consumed == s.consumed && s'.received == s.received
  {
    hide Reachable, BuffersOk, CqesOk, RqRingReady, ForwardedOk, SqInv, LandedOk;
    hide Splice, Load64, Store64, Patch, ShotAt;
    s' := s;
    for i := 0 to 11
      invariant Reachable(s') && s'.consumed == s.consumed && s'.received == s.received
      invariant match i case 0 => s'.dev.pc.Head? case 1 => s'.dev.pc.Counter? case 2 => s'.dev.pc.Size?
                        case 3 => s'.dev.pc.Addr? case 4 => s'.dev.pc.LoadSrc? case 5 => s'.dev.pc.LoadDst?
                        case 6 => s'.dev.pc.StoreLow? case 7 => s'.dev.pc.StoreHigh? case 8 => s'.dev.pc.PatchSq?
                        case 9 => s'.dev.pc.Ring? case 10 => s'.dev.pc.Repost? case _ => s'.dev.pc.Step?
    {
      ReachableInv(s');
      if i == 0 {
        GuardExact(s');
      }
      ReachNext(s', Work(false));
      s' := Next(s', Work(false));
    }
  }

  /** Both in-flight bounds are reached: 128 completions outstanding at a loop head, 129 before com_step_cq. */
  lemma InFlightBoundIsReached()
    ensures exists s :: Reachable(s) && s.dev.pc.Head? && |s.received| - s.consumed == DEPTH
    ensures exists s :: Reachable(s) && s.dev.pc.Step? && |s.received| - s.consumed == DEPTH + 1
  {
    hide Reachable, WellFormed;
    var s := Setup(Tnt1);
    ReachNext(s, Activate);
    var head := Fill(Next(s, Activate));
    assert Reachable(head) && head.dev.pc.Head? && |head.received| - head.consumed == DEPTH;
    var step := UpToStep(head);
    var full := Fill(step);
    assert Reachable(full) && full.dev.pc.Step? && |full.received| - full.consumed == DEPTH + 1;
  }
}
