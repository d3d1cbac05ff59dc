/** The memory the host prepares for a queue: the completion ring, the receive ring and the buffers behind it. */
module HostRings {
  import opened Words
  import opened CompletionQueue
  import opened SendQueue

  const REGION: nat := 262144    // Q_DATA_BSIZE: Q_DEPTH buffers of ENTRY bytes, and the length of a memory key

  datatype RqWqe = RqWqe(byteCount: nat, lkey: nat, addr: nat)

  /** RQ_IDX_MASK applied to the wqe_counter of a CQE. */
  function RqSlot(counter: nat): (r: nat)
    ensures r == counter % DEPTH
  {
    MaskIsMod(counter, 7);
    Pow2Values();
    And(counter, L2M(7))
  }

  /** The receive ring init_dpa_rq_ring leaves. */
  ghost predicate RqRingReady(ring: seq<RqWqe>, mkey: nat, base: nat) {
    && |ring| == DEPTH
    && forall k | 0 <= k < DEPTH :: ring[k] == RqWqe(ENTRY, mkey, base + ENTRY * k)
  }

  /** cq_mem_alloc: a zeroed ring whose owner bits are all set, which the device has not written yet. */
  method AllocCqRing() returns (ring: array<Cqe>)
    ensures fresh(ring) && ring.Length == DEPTH
    ensures forall k | 0 <= k < DEPTH :: ring[k] == Cqe(1, 0, 0, 0)
    ensures Window(ring[..], 0, DEPTH)
  {
    ring := new Cqe[DEPTH](_ => Cqe(0, 0, 0, 0));
    var cqe := 0;
    for i := 0 to DEPTH
      invariant cqe == i
      invariant forall k | 0 <= k < DEPTH :: ring[k] == Cqe(if k < i then 1 else 0, 0, 0, 0)
    {
      ring[cqe] := ring[cqe].(owner := 1);
      cqe := cqe + 1;
    }
    Pow2Values();
    InitSynced(ring[..], 7);
  }

  /** init_dpa_rq_ring: one entry per buffer, the data pointer advanced by a buffer each time. */
  method InitRqRing(mkey: nat, base: nat) returns (ring: array<RqWqe>)
    ensures fresh(ring) && RqRingReady(ring[..], mkey, base)
  {
    ring := new RqWqe[DEPTH](_ => RqWqe(0, 0, 0));
    var dataAddr, dseg := base, 0;
    for i := 0 to DEPTH
      invariant dseg == i && dataAddr == base + ENTRY * i
      invariant forall k | 0 <= k < i :: ring[k] == RqWqe(ENTRY, mkey, base + ENTRY * k)
    {
      ring[dseg] := RqWqe(ENTRY, mkey, dataAddr);
      dseg := dseg + 1;
      dataAddr := dataAddr + ENTRY;
    }
  }

  /** init_rq_dbr: the receive counter starts at the number of posted entries. */
  function InitRqDbr(): (r: nat)
    ensures r == DEPTH
  {
    Pow2Values();
    MaskIsMod(DEPTH, 16);
    And(DEPTH, L2M(16))
  }

  /** The 128 buffers tile the memory-key region: every byte of it lies in exactly one of them. */
  lemma BuffersTileRegion(ring: seq<RqWqe>, mkey: nat, base: nat, a: nat)
    requires RqRingReady(ring, mkey, base)
    ensures base <= a < base + REGION <==>
            exists k | 0 <= k < DEPTH :: ring[k].addr <= a < ring[k].addr + ring[k].byteCount
    ensures forall j, k | 0 <= j < k < DEPTH :: ring[j].addr + ring[j].byteCount <= ring[k].addr
  {
    if base <= a < base + REGION {
      var k := (a - base) / ENTRY;
      assert ring[k].addr <= a < ring[k].addr + ring[k].byteCount;
    }
  }

  /** The masked lookup of the n-th packet's 16-bit counter finds buffer n mod 128, inside its key's region. */
  lemma LookupFindsBuffer(ring: seq<RqWqe>, mkey: nat, base: nat, n: nat, size: nat)
    requires RqRingReady(ring, mkey, base) && size <= ENTRY
    ensures ring[RqSlot(n % WORD16)] == RqWqe(ENTRY, mkey, base + ENTRY * (n % DEPTH))
    ensures base <= ring[RqSlot(n % WORD16)].addr && ring[RqSlot(n % WORD16)].addr + size <= base + REGION
  {
    Pow2Values();
    ModMod(n, 128, 512);
  }

  /** A descriptor's bytes lie in the region its key was created for. */
  predicate Covered(regionBase: nat, addr: nat, size: nat) {
    regionBase <= addr && addr + size <= regionBase + REGION
  }

  /** send_packet pairs the receive region's key with an address in the transmit region. Over all transmit buffers
      that is covered exactly when the transmit region is the receive region, up to the slack of a short packet. */
  lemma SendPacketKeyCovers(rqBase: nat, sqBase: nat, size: nat)
    requires size <= ENTRY
    ensures (forall idx: nat :: Covered(rqBase, EntryAddr(sqBase, idx), size))
            <==> rqBase <= sqBase <= rqBase + (ENTRY - size)
  {
    if forall idx: nat :: Covered(rqBase, EntryAddr(sqBase, idx), size) {
      assert Covered(rqBase, EntryAddr(sqBase, 0), size);
      assert Covered(rqBase, EntryAddr(sqBase, 127), size);
    }
  }

  /** Hence never when the host allocates the two regions apart, as it does. */
  lemma SendPacketKeyNeverCovers(rqBase: nat, sqBase: nat, idx: nat, size: nat)
    requires 0 < size <= ENTRY
    requires sqBase + REGION <= rqBase || rqBase + REGION <= sqBase
    ensures !Covered(rqBase, EntryAddr(sqBase, idx), size)
  {
  }
}
