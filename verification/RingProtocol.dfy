/** The protocol between the NIC and one worker on one receive queue. The worker runs pp_queue and com_step_cq one
    shared memory access at a time; the NIC may deliver a packet between any two of them. */
module RingProtocol {
  import opened Words
  import opened MacSwap
  import opened CompletionQueue
  import opened SendQueue
  import opened HostRings

  datatype Variant = Tnt1 | Tnt2

  const ROUND: nat := 1_000_000   // packets per activation of flexio_pp_dev_2

  /** The worker's next access, with the locals it holds by then. */
  datatype Pc =
    | Idle
    | Head
    | Counter
    | Size(counter: nat)
    | Addr(counter: nat, size: nat)
    | LoadSrc(size: nat, addr: nat)
    | LoadDst(size: nat, addr: nat, src: bv64)
    | StoreLow(size: nat, addr: nat, src: bv64, dst: bv64)
    | StoreHigh(size: nat, addr: nat, src: bv64, dst: bv64)
    | PatchSq(size: nat, addr: nat)
    | Ring
    | Repost
    | Step
    | Check

  /** Memory and registers: the queue (CQ, RQ ring and doorbell, buffers), the worker's SQ and its program counter. */
  datatype Dev = Dev(variant: Variant, cq: Cq, rqRing: seq<RqWqe>, rqDbr: nat, lkey: nat, base: nat, mem: seq<byte>,
                     sq: Sq, pc: Pc, pktCount: nat)

  /** A doorbell: the descriptor the device fetches for it and the buffer that descriptor points at, at that moment. */
  datatype Shot = Shot(number: nat, desc: Segment, buffer: seq<byte>)

  /** The device with the history of the run: packets received, the buffer each landed in, descriptors patched into the
      SQ, doorbells rung by pp_queue, CQEs consumed, and how many had been when the worker was last activated. */
  datatype Sys = Sys(dev: Dev, received: seq<seq<byte>>, landed: seq<seq<byte>>, descs: seq<Segment>,
                     forwarded: seq<Shot>, consumed: nat, activatedAt: nat, pad: seq<Segment>)

  datatype Action =
    | Nic(packet: seq<byte>)
    | Work(late: bool)
    | Activate
    | Send(byteCount: nat, lkey: nat, addr: nat)

  function BufferOff(n: nat): (r: nat)
    ensures r + ENTRY <= REGION
  {
    ENTRY * (n % DEPTH)
  }

  function Buffer(mem: seq<byte>, n: nat): (r: seq<byte>)
    requires |mem| == REGION
    ensures |r| == ENTRY
  {
    mem[BufferOff(n)..BufferOff(n) + ENTRY]
  }

  function FrameFits(d: Dev, addr: nat): bool {
    d.base <= addr && addr + ENTRY <= d.base + REGION
  }

  predicate HasAddr(pc: Pc) {
    pc.LoadSrc? || pc.LoadDst? || pc.StoreLow? || pc.StoreHigh? || pc.PatchSq?
  }

  ghost predicate WellFormed(d: Dev) {
    && |d.cq.ring| == DEPTH && d.cq.at < DEPTH
    && RqRingReady(d.rqRing, d.lkey, d.base)
    && |d.mem| == REGION && |d.sq.ring| == SEGS
    && (HasAddr(d.pc) ==> FrameFits(d, d.pc.addr))
  }

  /** The worker's next access. `late` is what the clock comparison of flexio_pp_dev_1 says. */
  ghost function WorkerStep(d: Dev, late: bool): Dev
    requires WellFormed(d)
  {
    var cqe := d.cq.ring[d.cq.at];
    match d.pc
    case Idle => d
    case Head => if cqe.owner != d.cq.hwOwner then d.(pc := Counter) else d
    case Counter => d.(pc := Size(cqe.wqeCounter))
    case Size(counter) => d.(pc := Addr(counter, cqe.byteCount))
    case Addr(counter, size) => d.(pc := LoadSrc(size, d.rqRing[RqSlot(counter)].addr))
    case LoadSrc(size, addr) => d.(pc := LoadDst(size, addr, Load64(d.mem, addr - d.base)))
    case LoadDst(size, addr, src) => d.(pc := StoreLow(size, addr, src, Load64(d.mem, addr - d.base + 6)))
    case StoreLow(size, addr, src, dst) =>
      d.(mem := Store64(d.mem, addr - d.base, dst), pc := StoreHigh(size, addr, src, dst))
    case StoreHigh(size, addr, src, dst) =>
      d.(mem := Store64(d.mem, addr - d.base + 6, Merged(src, dst)), pc := PatchSq(size, addr))
    case PatchSq(size, addr) => d.(sq := Patch(d.sq, Data(size, d.lkey, addr)), pc := Ring)
    case Ring => d.(sq := RingDoorbell(d.sq), pc := Repost)
    case Repost => d.(rqDbr := (d.rqDbr + 1) % WORD16, pc := Step)
    case Step => d.(cq := StepCq(d.cq), pktCount := d.pktCount + 1, pc := Check)
    case Check => if Leaves(d, late) then d.(pc := Idle) else d.(pc := Head)
  }

  /** Whether the loop ends its activation after this packet: by the clock, or by the packet count. */
  predicate Leaves(d: Dev, late: bool) {
    if d.variant.Tnt1? then late else d.pktCount >= ROUND
  }

  /** What the device reads when the doorbell is rung. */
  ghost function ShotAt(d: Dev): Shot
    requires WellFormed(d)
  {
    var desc := Fetched(d.sq);
    Shot(d.sq.number,
         desc, if desc.Data? && FrameFits(d, desc.addr)
               then d.mem[desc.addr - d.base..desc.addr - d.base + ENTRY] else [])
  }

  /** The completion the NIC writes for the n-th packet: its lap's phase, its 16-bit counter, its size. */
  function CqeOf(n: nat, size: nat): Cqe {
    Cqe(Phase(n, DEPTH), n % WORD16, size, CQE_OPCODE_RESPONDER)
  }

  /** The NIC takes the next posted receive entry, stores the packet there and completes it with its lap's phase. */
  ghost function NicStep(d: Dev, n: nat, packet: seq<byte>): Dev
    requires WellFormed(d) && |packet| <= ENTRY
  {
    var off := d.rqRing[RqSlot(n % WORD16)].addr - d.base;
    d.(mem := Splice(d.mem, off, packet),
       cq := d.cq.(ring := d.cq.ring[Slot(n, DEPTH) := CqeOf(n, |packet|)]))
  }

  ghost predicate Enabled(s: Sys, a: Action) {
    match a
    case Nic(packet) => s.dev.rqDbr != |s.received| % WORD16 && |packet| <= ENTRY
    case Work(_) => !s.dev.pc.Idle?
    case Activate => s.dev.pc.Idle?
    case Send(_, _, _) => s.dev.pc.Idle? || s.dev.pc.Head?
  }

  ghost function Next(s: Sys, a: Action): Sys
    requires WellFormed(s.dev) && Enabled(s, a)
  {
    match a
    case Nic(packet) =>
      var d := NicStep(s.dev, |s.received|, packet);
      s.(dev := d, received := s.received + [packet], landed := s.landed + [Buffer(d.mem, |s.received|)])
    case Work(late) =>
      var d := WorkerStep(s.dev, late);
      (match s.dev.pc
       case PatchSq(size, addr) => s.(dev := d, descs := s.descs + [Data(size, s.dev.lkey, addr)])
       case Ring => s.(dev := d, forwarded := s.forwarded + [ShotAt(d)])
       case Step => s.(dev := d, consumed := s.consumed + 1)
       case _ => s.(dev := d))
    case Activate => s.(dev := s.dev.(pc := Head, pktCount := 0), activatedAt := s.consumed)
    case Send(byteCount, lkey, addr) =>
      var data := Data(byteCount, lkey, addr);
      s.(dev := s.dev.(sq := RingDoorbell(Patch(s.dev.sq, data))), descs := s.descs + [data])
  }

  /** The state the host's set-up and thd_ctx_init leave, before any packet. */
  ghost predicate Init(s: Sys) {
    && WellFormed(s.dev)
    && s.dev.pc == Idle
    && s.dev.cq == InitCq(s.dev.cq.ring, 7)
    && (forall k | 0 <= k < DEPTH :: s.dev.cq.ring[k].owner == 1)
    && s.dev.rqDbr == InitRqDbr()
    && SqInv(s.dev.sq, [], 0, s.pad)
    && s.received == [] && s.landed == [] && s.descs == [] && s.forwarded == []
    && s.consumed == 0 && s.activatedAt == 0 && s.dev.pktCount == 0
  }

  ghost predicate StepTo(s: Sys, s': Sys) {
    WellFormed(s.dev) && exists a :: Enabled(s, a) && s' == Next(s, a)
  }

  ghost predicate Chain(t: seq<Sys>) {
    |t| > 0 && forall i | 0 <= i < |t| - 1 :: StepTo(t[i], t[i + 1])
  }

  /** A run: any interleaving of NIC deliveries, worker accesses, activations and send_packet calls. */
  ghost predicate Behaviour(t: seq<Sys>) {
    Chain(t) && Init(t[0])
  }

  /** Some interleaving of actions takes the first state to the second. */
  ghost predicate Leads(s: Sys, s': Sys) {
    exists t :: Chain(t) && t[0] == s && t[|t| - 1] == s'
  }

  // ---- the invariant ----

  /** The worker has given the entry of the current packet back to the NIC. */
  function Reposted(s: Sys): nat {
    s.consumed + if s.dev.pc.Step? then 1 else 0
  }

  predicate InPacket(pc: Pc) {
    !pc.Idle? && !pc.Head? && !pc.Check?
  }

  /** The current packet's buffer is still as the NIC left it. */
  predicate Pristine(pc: Pc) {
    !pc.StoreHigh? && !pc.PatchSq? && !pc.Ring? && !pc.Repost? && !pc.Step?
  }

  ghost predicate CountsOk(s: Sys) {
    && s.consumed <= |s.received| && Reposted(s) <= |s.received| <= Reposted(s) + DEPTH
    && s.dev.rqDbr == (DEPTH + Reposted(s)) % WORD16
    && |s.forwarded| == s.consumed + (if s.dev.pc.Repost? || s.dev.pc.Step? then 1 else 0)
    && (InPacket(s.dev.pc) ==> s.consumed < |s.received|)
    && s.activatedAt <= s.consumed && s.dev.pktCount == s.consumed - s.activatedAt
    && (s.dev.variant.Tnt2? ==> s.dev.pktCount <= ROUND
                                && (s.dev.pc.Head? || InPacket(s.dev.pc) ==> s.dev.pktCount < ROUND))
  }

  /** Every CQE of the last lap is the one the NIC wrote for its packet. */
  ghost predicate CqesOk(cq: Cq, consumed: nat, received: seq<seq<byte>>) {
    && Synced(cq, consumed) && cq.logDepth == 7 && |cq.ring| == DEPTH
    && Window(cq.ring, |received|, DEPTH)
    && forall n: nat | |received| - DEPTH <= n < |received| :: cq.ring[Slot(n, DEPTH)] == CqeOf(n, |received[n]|)
  }

  /** Each packet landed whole at the start of a buffer. */
  ghost predicate LandedOk(received: seq<seq<byte>>, landed: seq<seq<byte>>) {
    && |landed| == |received|
    && forall n | 0 <= n < |received| ::
         |received[n]| <= ENTRY && |landed[n]| == ENTRY && landed[n][..|received[n]|] == received[n]
  }

  /** The buffers of the packets from `from` on hold what the NIC put there. */
  ghost predicate BuffersOk(mem: seq<byte>, landed: seq<seq<byte>>, from: nat) {
    && |mem| == REGION
    && forall n | from <= n < |landed| :: Buffer(mem, n) == landed[n]
  }

  /** What the worker's locals mean at each access: `c` counts the packets before this one. */
  ghost predicate LocalsOk(d: Dev, c: nat, size: nat, landed: seq<byte>, descs: seq<Segment>)
    requires |d.mem| == REGION && |landed| == ENTRY
  {
    match d.pc
    case Size(counter) => counter == c % WORD16
    case Addr(counter, sz) => counter == c % WORD16 && sz == size
    case LoadSrc(sz, addr) => sz == size && addr == d.base + BufferOff(c)
    case LoadDst(sz, addr, src) => sz == size && addr == d.base + BufferOff(c) && src == Load64(landed, 0)
    case StoreLow(sz, addr, src, dst) =>
      && sz == size && addr == d.base + BufferOff(c)
      && src == Load64(landed, 0) && dst == Load64(landed, 6)
    case StoreHigh(sz, addr, src, dst) =>
      && sz == size && addr == d.base + BufferOff(c)
      && src == Load64(landed, 0) && dst == Load64(landed, 6)
      && Buffer(d.mem, c) == Store64(landed, 0, dst)
    case PatchSq(sz, addr) =>
      sz == size && addr == d.base + BufferOff(c) && Buffer(d.mem, c) == MacSwapped(landed)
    case Ring =>
      && Buffer(d.mem, c) == MacSwapped(landed)
      && |descs| > 0 && descs[|descs| - 1] == DescOf(d.lkey, d.base, c, size)
    case _ => true
  }

  /** The descriptor that forwards the k-th packet: its own buffer, under the receive region's key. */
  function DescOf(lkey: nat, base: nat, k: nat, size: nat): Segment {
    Data(size, lkey, base + BufferOff(k))
  }

  /** Doorbell k carried packet k, in its own buffer, with the addresses exchanged. */
  ghost predicate ForwardedOk(forwarded: seq<Shot>, received: seq<seq<byte>>, landed: seq<seq<byte>>,
                              lkey: nat, base: nat, number: nat)
  {
    && |forwarded| <= |received| && |landed| == |received|
    && forall k | 0 <= k < |forwarded| ::
         && |landed[k]| == ENTRY
         && forwarded[k] == Shot(number, DescOf(lkey, base, k, |received[k]|), MacSwapped(landed[k]))
  }

  ghost predicate Inv(s: Sys) {
    && WellFormed(s.dev)
    && CountsOk(s)
    && CqesOk(s.dev.cq, s.consumed, s.received)
    && LandedOk(s.received, s.landed)
    && BuffersOk(s.dev.mem, s.landed, s.consumed + if Pristine(s.dev.pc) then 0 else 1)
    && (InPacket(s.dev.pc) ==>
          LocalsOk(s.dev, s.consumed, |s.received[s.consumed]|, s.landed[s.consumed], s.descs))
    && ForwardedOk(s.forwarded, s.received, s.landed, s.dev.lkey, s.dev.base, s.dev.sq.number)
    && (s.dev.pc.Ring? ==> |s.descs| > 0)
    && SqInv(s.dev.sq, s.descs, |s.descs| - (if s.dev.pc.Ring? then 1 else 0), s.pad)
  }

  // ---- memory ----

  /** A write inside one buffer changes that buffer only. */
  lemma SpliceInBuffer(mem: seq<byte>, n: nat, o: nat, data: seq<byte>)
    requires |mem| == REGION && o + |data| <= ENTRY
    ensures Buffer(Splice(mem, BufferOff(n) + o, data), n) == Splice(Buffer(mem, n), o, data)
  {
  }

  lemma SpliceElsewhere(mem: seq<byte>, n: nat, o: nat, data: seq<byte>, m: nat)
    requires |mem| == REGION && o + |data| <= ENTRY && m % DEPTH != n % DEPTH
    ensures Buffer(Splice(mem, BufferOff(n) + o, data), m) == Buffer(mem, m)
  {
    assert BufferOff(m) + ENTRY <= BufferOff(n) || BufferOff(n) + ENTRY <= BufferOff(m);
  }

  lemma LoadInBuffer(mem: seq<byte>, n: nat)
    requires |mem| == REGION
    ensures Load64(mem, BufferOff(n)) == Load64(Buffer(mem, n), 0)
    ensures Load64(mem, BufferOff(n) + 6) == Load64(Buffer(mem, n), 6)
  {
  }

  // ---- the invariant holds at the start and is kept by every action ----

  lemma InitInv(s: Sys)
    requires Init(s)
    ensures Inv(s)
  {
    Pow2Values();
    InitSynced(s.dev.cq.ring, 7);
  }

  /** The NIC finds a posted entry exactly when fewer than 128 packets are waiting to be reposted. */
  lemma PostedExactly(s: Sys)
    requires CountsOk(s)
    ensures s.dev.rqDbr != |s.received| % WORD16 <==> |s.received| < Reposted(s) + DEPTH
  {
    if |s.received| < Reposted(s) + DEPTH {
      SlotsApart(|s.received|, Reposted(s) + DEPTH, WORD16);
    }
  }

  lemma NicKeepsCqes(cq: Cq, consumed: nat, received: seq<seq<byte>>, packet: seq<byte>)
    requires CqesOk(cq, consumed, received)
    ensures var ring' := cq.ring[Slot(|received|, DEPTH) := CqeOf(|received|, |packet|)];
            CqesOk(cq.(ring := ring'), consumed, received + [packet])
  {
    var p := |received|;
    WindowSlides(cq.ring, p, DEPTH, CqeOf(p, |packet|));
    var ring', received' := cq.ring[Slot(p, DEPTH) := CqeOf(p, |packet|)], received + [packet];
    forall n: nat | |received'| - DEPTH <= n < |received'|
      ensures ring'[Slot(n, DEPTH)] == CqeOf(n, |received'[n]|)
    {
      if n < p {
        assert Slot(n, DEPTH) != Slot(p, DEPTH);
      }
    }
  }

  /** Delivering a packet touches no buffer that is still waiting for its repost. */
  lemma NicKeepsBuffers(mem: seq<byte>, landed: seq<seq<byte>>, from: nat, packet: seq<byte>)
    requires BuffersOk(mem, landed, from) && |landed| < from + DEPTH && |packet| <= ENTRY
    ensures var mem' := Splice(mem, BufferOff(|landed|), packet);
            BuffersOk(mem', landed + [Buffer(mem', |landed|)], from)
  {
    var p := |landed|;
    var mem' := Splice(mem, BufferOff(p), packet);
    forall n | from <= n < p
      ensures Buffer(mem', n) == landed[n]
    {
      SlotsApart(n, p, DEPTH);
      SpliceElsewhere(mem, p, 0, packet, n);
    }
  }

  lemma DeliveredWhole(mem: seq<byte>, p: nat, packet: seq<byte>)
    requires |mem| == REGION && |packet| <= ENTRY
    ensures Buffer(Splice(mem, BufferOff(p), packet), p)[..|packet|] == packet
  {
    SpliceInBuffer(mem, p, 0, packet);
  }

  lemma NicKeepsHistory(received: seq<seq<byte>>, landed: seq<seq<byte>>, forwarded: seq<Shot>, lkey: nat, base: nat,
                        number: nat,                        packet: seq<byte>, buffer: seq<byte>)
    requires LandedOk(received, landed) && ForwardedOk(forwarded, received, landed, lkey, base, number)
    requires |packet| <= ENTRY && |buffer| == ENTRY && buffer[..|packet|] == packet
    ensures LandedOk(received + [packet], landed + [buffer])
    ensures ForwardedOk(forwarded, received + [packet], landed + [buffer], lkey, base, number)
  {
    hide MacSwapped;
  }

  lemma LocalsKeepTheirMeaning(d: Dev, d': Dev, c: nat, size: nat, landed: seq<byte>, descs: seq<Segment>)
    requires |d.mem| == |d'.mem| == REGION && |landed| == ENTRY && LocalsOk(d, c, size, landed, descs)
    requires d'.pc == d.pc && d'.base == d.base && d'.lkey == d.lkey
    requires d.pc.Step? || Buffer(d'.mem, c) == Buffer(d.mem, c)
    ensures LocalsOk(d', c, size, landed, descs)
  {
    hide Load64, Store64, MacSwapped;
  }

  lemma NicKeeps(s: Sys, packet: seq<byte>)
    requires Inv(s) && Enabled(s, Nic(packet))
    ensures Inv(Next(s, Nic(packet)))
  {
    hide SqInv, CqesOk, BuffersOk, RqRingReady, Splice, Load64, Merged, MacSwapped, Bytes, ForwardedOk, LocalsOk, CqeOf;
    var p, c, mem := |s.received|, s.consumed, s.dev.mem;
    PostedExactly(s);
    LookupFindsBuffer(s.dev.rqRing, s.dev.lkey, s.dev.base, p, |packet|);
    var s' := Next(s, Nic(packet));
    assert s'.dev.mem == Splice(mem, BufferOff(p), packet);
    NicKeepsCqes(s.dev.cq, c, s.received, packet);
    NicKeepsBuffers(mem, s.landed, c + if Pristine(s.dev.pc) then 0 else 1, packet);
    DeliveredWhole(mem, p, packet);
    NicKeepsHistory(s.received, s.landed, s.forwarded, s.dev.lkey, s.dev.base, s.dev.sq.number, packet,
                    Buffer(s'.dev.mem, p));
    if InPacket(s.dev.pc) && !s.dev.pc.Step? {
      SlotsApart(c, p, DEPTH);
      SpliceElsewhere(mem, p, 0, packet, c);
    }
    if InPacket(s.dev.pc) {
      LocalsKeepTheirMeaning(s.dev, s'.dev, c, |s.received[c]|, s.landed[c], s.descs);
    }
  }

  /** Phase-bit exactness in every interleaving: the loop guard reads "not owned" exactly when a packet waits. */
  lemma GuardExact(s: Sys)
    requires Inv(s) && !s.dev.pc.Step?
    ensures s.dev.cq.ring[s.dev.cq.at].owner != s.dev.cq.hwOwner <==> s.consumed < |s.received|
    ensures s.consumed < |s.received| ==>
              s.dev.cq.ring[s.dev.cq.at] == CqeOf(s.consumed, |s.received[s.consumed]|)
  {
    hide SqInv, BuffersOk, RqRingReady, Load64, MacSwapped;
    Pow2Values();
    PhaseExact(s.dev.cq, s.consumed, |s.received|);
  }

  lemma ReadsKeep(s: Sys, late: bool)
    requires Inv(s) && (s.dev.pc.Head? || s.dev.pc.Counter? || s.dev.pc.Size? || s.dev.pc.Addr?)
    ensures Inv(Next(s, Work(late)))
  {
    hide SqInv, CqesOk, BuffersOk, RqRingReady, ForwardedOk, Load64, MacSwapped;
    GuardExact(s);
    if s.dev.pc.Addr? {
      LookupFindsBuffer(s.dev.rqRing, s.dev.lkey, s.dev.base, s.consumed, s.dev.pc.size);
    }
  }

  lemma LoadKeeps(s: Sys, late: bool)
    requires Inv(s) && (s.dev.pc.LoadSrc? || s.dev.pc.LoadDst?)
    ensures Inv(Next(s, Work(late)))
  {
    hide SqInv, CqesOk, RqRingReady, ForwardedOk, Load64, MacSwapped;
    LoadInBuffer(s.dev.mem, s.consumed);
  }

  /** A store into the current packet's buffer leaves the waiting ones alone. */
  lemma StoreKeepsBuffers(mem: seq<byte>, landed: seq<seq<byte>>, c: nat, o: nat, data: seq<byte>)
    requires BuffersOk(mem, landed, c + 1) && |landed| <= c + DEPTH && o + |data| <= ENTRY
    ensures BuffersOk(Splice(mem, BufferOff(c) + o, data), landed, c + 1)
  {
    forall n | c < n < |landed|
      ensures Buffer(Splice(mem, BufferOff(c) + o, data), n) == landed[n]
    {
      SlotsApart(c, n, DEPTH);
      SpliceElsewhere(mem, c, o, data, n);
    }
  }

  lemma StoreLowKeeps(s: Sys, late: bool)
    requires Inv(s) && s.dev.pc.StoreLow?
    ensures Inv(Next(s, Work(late)))
  {
    hide SqInv, CqesOk, RqRingReady, ForwardedOk, Load64, MacSwapped, Bytes, Splice;
    StoreKeepsBuffers(s.dev.mem, s.landed, s.consumed, 0, Bytes(s.dev.pc.dst));
    SpliceInBuffer(s.dev.mem, s.consumed, 0, Bytes(s.dev.pc.dst));
  }

  /** The two stores together exchange the addresses in a buffer. */
  lemma StoresExchange(f: seq<byte>)
    requires |f| == ENTRY
    ensures Store64(Store64(f, 0, Load64(f, 6)), 6, Merged(Load64(f, 0), Load64(f, 6))) == MacSwapped(f)
  {
    hide Load64, Store64, MacSwapped, Merged;
    WordSwapRefinesByteSwap(f, 0);
    assert f[0..] == f && f[..0] == [];
  }

  /** The second store completes the exchange in the packet's own buffer. */
  lemma StoreHighKeeps(s: Sys, late: bool)
    requires Inv(s) && s.dev.pc.StoreHigh?
    ensures Inv(Next(s, Work(late)))
  {
    hide SqInv, CqesOk, RqRingReady, ForwardedOk, Load64, MacSwapped, Merged, Bytes, Splice;
    var high := Merged(s.dev.pc.src, s.dev.pc.dst);
    StoreKeepsBuffers(s.dev.mem, s.landed, s.consumed, 6, Bytes(high));
    SpliceInBuffer(s.dev.mem, s.consumed, 6, Bytes(high));
    StoresExchange(s.landed[s.consumed]);
  }

  lemma PatchKeepsInv(s: Sys, late: bool)
    requires Inv(s) && s.dev.pc.PatchSq?
    ensures Inv(Next(s, Work(late)))
  {
    hide CqesOk, BuffersOk, RqRingReady, ForwardedOk, MacSwapped, TemplateIntact, Sliding;
    PatchKeeps(s.dev.sq, s.descs, |s.descs|, s.pad, Data(s.dev.pc.size, s.dev.lkey, s.dev.pc.addr));
  }

  /** The doorbell makes the device fetch this packet's descriptor, and its buffer holds the packet with the addresses
      exchanged. */
  lemma RingFetches(s: Sys)
    requires Inv(s) && s.dev.pc.Ring?
    ensures ShotAt(s.dev.(sq := RingDoorbell(s.dev.sq), pc := Repost))
            == Shot(s.dev.sq.number, DescOf(s.dev.lkey, s.dev.base, s.consumed, |s.received[s.consumed]|),
                                  MacSwapped(s.landed[s.consumed]))
    ensures SqInv(RingDoorbell(s.dev.sq), s.descs, |s.descs|, s.pad)
  {
    hide CqesOk, BuffersOk, RqRingReady, ForwardedOk, MacSwapped, TemplateIntact, Sliding;
    DoorbellFetchesPatched(s.dev.sq, s.descs, s.pad);
  }

  lemma RingKeeps(s: Sys, late: bool)
    requires Inv(s) && s.dev.pc.Ring?
    ensures Inv(Next(s, Work(late)))
  {
    hide CqesOk, BuffersOk, RqRingReady, MacSwapped, SqInv, ShotAt, Buffer, Load64;
    RingFetches(s);
  }

  lemma RepostKeeps(s: Sys, late: bool)
    requires Inv(s) && s.dev.pc.Repost?
    ensures Inv(Next(s, Work(late)))
  {
    hide CqesOk, BuffersOk, RqRingReady, ForwardedOk, MacSwapped, SqInv;
    assert ((DEPTH + s.consumed) % WORD16 + 1) % WORD16 == (DEPTH + s.consumed + 1) % WORD16;
  }

  lemma StepKeepsCqes(cq: Cq, consumed: nat, received: seq<seq<byte>>)
    requires CqesOk(cq, consumed, received)
    ensures CqesOk(StepCq(cq), consumed + 1, received) && StepCq(cq).at < DEPTH
  {
    hide Window;
    Pow2Values();
    StepSynced(cq, consumed);
  }

  lemma StepKeeps(s: Sys, late: bool)
    requires Inv(s) && (s.dev.pc.Step? || s.dev.pc.Check?)
    ensures Inv(Next(s, Work(late)))
  {
    hide CqesOk, BuffersOk, RqRingReady, ForwardedOk, MacSwapped, SqInv, And;
    StepKeepsCqes(s.dev.cq, s.consumed, s.received);
  }

  lemma ActivateKeeps(s: Sys)
    requires Inv(s) && s.dev.pc.Idle?
    ensures Inv(Next(s, Activate))
  {
    hide CqesOk, BuffersOk, RqRingReady, ForwardedOk, MacSwapped, SqInv;
  }

  lemma SendKeeps(s: Sys, byteCount: nat, lkey: nat, addr: nat)
    requires Inv(s) && Enabled(s, Send(byteCount, lkey, addr))
    ensures Inv(Next(s, Send(byteCount, lkey, addr)))
  {
    hide CqesOk, BuffersOk, RqRingReady, ForwardedOk, MacSwapped, TemplateIntact, Sliding;
    var data := Data(byteCount, lkey, addr);
    PatchKeeps(s.dev.sq, s.descs, |s.descs|, s.pad, data);
    DoorbellFetchesPatched(Patch(s.dev.sq, data), s.descs + [data], s.pad);
  }

  lemma NextKeeps(s: Sys, a: Action)
    requires Inv(s) && Enabled(s, a)
    ensures Inv(Next(s, a))
  {
    hide Inv, Next, WellFormed;
    match a
    case Nic(packet) => NicKeeps(s, packet);
    case Activate => ActivateKeeps(s);
    case Send(byteCount, lkey, addr) => SendKeeps(s, byteCount, lkey, addr);
    case Work(late) =>
      match s.dev.pc
      case LoadSrc(_, _) => LoadKeeps(s, late);
      case LoadDst(_, _, _) => LoadKeeps(s, late);
      case StoreLow(_, _, _, _) => StoreLowKeeps(s, late);
      case StoreHigh(_, _, _, _) => StoreHighKeeps(s, late);
      case PatchSq(_, _) => PatchKeepsInv(s, late);
      case Ring => RingKeeps(s, late);
      case Repost => RepostKeeps(s, late);
      case Step => StepKeeps(s, late);
      case Check => StepKeeps(s, late);
      case _ => ReadsKeep(s, late);
  }

  lemma {:induction false} ChainInv(t: seq<Sys>, i: nat)
    requires Chain(t) && Inv(t[0]) && i < |t|
    ensures Inv(t[i])
  {
    hide Inv, Next;
    if i > 0 {
      ChainInv(t, i - 1);
      assert StepTo(t[i - 1], t[i - 1 + 1]);
      var a :| Enabled(t[i - 1], a) && t[i] == Next(t[i - 1], a);
      NextKeeps(t[i - 1], a);
    }
  }

  /** Every state of every run satisfies the invariant. */
  lemma BehaviourInv(t: seq<Sys>, i: nat)
    requires Behaviour(t) && i < |t|
    ensures Inv(t[i])
  {
    hide Inv, Init, Chain;
    InitInv(t[0]);
    ChainInv(t, i);
  }

  lemma InvIsWellFormed(s: Sys)
    requires Inv(s)
    ensures WellFormed(s.dev)
  {
  }

  lemma LeadsToItself(s: Sys)
    ensures Leads(s, s)
  {
    assert Chain([s]) && [s][0] == s;
  }

  /** One action more. */
  lemma LeadsOn(s: Sys, s': Sys, a: Action)
    requires Leads(s, s') && Inv(s') && Enabled(s', a)
    ensures WellFormed(s'.dev) && Leads(s, Next(s', a)) && Inv(Next(s', a))
  {
    hide Inv, Next, Enabled, WellFormed;
    InvIsWellFormed(s');
    NextKeeps(s', a);
    var t :| Chain(t) && t[0] == s && t[|t| - 1] == s';
    var e := Next(s', a);
    assert StepTo(s', e);
    assert Chain(t + [e]) by {
      forall i | 0 <= i < |t|
        ensures StepTo((t + [e])[i], (t + [e])[i + 1])
      {
        if i < |t| - 1 {
          assert StepTo(t[i], t[i + 1]);
        }
      }
    }
    assert (t + [e])[|t|] == e;
  }

  lemma LeadsFurther(s: Sys, s': Sys, s2: Sys)
    requires Leads(s, s') && Leads(s', s2)
    ensures Leads(s, s2)
  {
    hide StepTo;
    var t :| Chain(t) && t[0] == s && t[|t| - 1] == s';
    var u :| Chain(u) && u[0] == s' && u[|u| - 1] == s2;
    var v := t + u[1..];
    assert Chain(v) by {
      forall i | 0 <= i < |v| - 1
        ensures StepTo(v[i], v[i + 1])
      {
        if i < |t| - 1 {
          assert StepTo(t[i], t[i + 1]);
        } else {
          var k := i - (|t| - 1);
          assert v[i] == u[k] && v[i + 1] == u[k + 1];
          assert StepTo(u[k], u[k + 1]);
        }
      }
    }
    assert v[|v| - 1] == s2;
  }
}
