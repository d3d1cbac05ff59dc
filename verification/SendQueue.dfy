/** The send queue: a ring of 128 four-segment WQEs built once and patched per packet. */
module SendQueue {
  import opened Words
  import opened MacSwap

  const DEPTH: nat := 128        // 1 << LOG_Q_DEPTH
  const SEGS: nat := 512         // 1 << (LOG_Q_DEPTH + LOG_SQE_NUM_SEGS)

  datatype Segment =
    | Ctrl(wqeIdx: nat, sqNumber: nat)
    | Eth
    | Data(byteCount: nat, lkey: nat, addr: nat)
    | Untouched(word: nat)

  /** The value of a sq_ctx_t. */
  datatype Sq = Sq(ring: seq<Segment>, segIdx: nat, pi: nat, number: nat)

  /** SQ_IDX_MASK applied to a uint32_t segment index. */
  function SegSlot(idx: nat): (r: nat)
    ensures r == idx % SEGS
  {
    MaskIsMod(idx, 9);
    Pow2Values();
    And(idx, L2M(9))
  }

  /** The segment where the device finds the data pointer of the n-th WQE. */
  function DataSlot(n: nat): (r: nat)
    ensures r < SEGS && r % 4 == 2
  {
    4 * (n % DEPTH) + 2
  }

  function TemplateSegment(k: nat, number: nat, lkey: nat, before: Segment): Segment {
    if k % 4 == 0 then Ctrl(k / 4, number)
    else if k % 4 == 1 then Eth
    else if k % 4 == 2 then Data(0, lkey, 0)
    else before
  }

  /** Patching the next WQE's data segment: pp_queue and prepare_send_packet. */
  function Patch(q: Sq, data: Segment): Sq
    requires |q.ring| == SEGS
  {
    q.(ring := q.ring[SegSlot((q.segIdx + 2) % WORD32) := data], segIdx := (q.segIdx + 4) % WORD32)
  }

  /** Ringing the doorbell: pp_queue and finish_send. */
  function RingDoorbell(q: Sq): Sq {
    q.(pi := Inc32(q.pi))
  }

  /** The data segment of the last WQE that the doorbell value covers, which is what the device fetches for it. */
  function Fetched(q: Sq): Segment
    requires |q.ring| == SEGS
  {
    q.ring[DataSlot((q.pi + (WORD32 - 1)) % WORD32)]
  }

  /** Control, Ethernet and padding segments are those the template loop left. */
  ghost predicate TemplateIntact(q: Sq, pad: seq<Segment>) {
    && |q.ring| == |pad| == SEGS
    && forall k | 0 <= k < SEGS && k % 4 != 2 :: q.ring[k] == TemplateSegment(k, q.number, 0, pad[k])
  }

  /** The last lap of `descs` is in place, each at its WQE's slot. */
  ghost predicate Sliding(q: Sq, descs: seq<Segment>) {
    && |q.ring| == SEGS
    && forall n | 0 <= n < |descs| && |descs| <= n + DEPTH :: q.ring[DataSlot(n)] == descs[n]
  }

  /** `descs` have been patched in, the first `rung` of them have been rung, and the machine indices agree with both
      counts. */
  ghost predicate SqInv(q: Sq, descs: seq<Segment>, rung: nat, pad: seq<Segment>) {
    && TemplateIntact(q, pad)
    && Sliding(q, descs)
    && q.segIdx == (4 * |descs|) % WORD32
    && q.pi == rung % WORD32
  }

  /** The segment index, wrapped or not, points at the data segment of the next WQE. */
  lemma NextSlot(n: nat)
    ensures SegSlot(((4 * n) % WORD32 + 2) % WORD32) == DataSlot(n)
    ensures ((4 * n) % WORD32 + 4) % WORD32 == (4 * (n + 1)) % WORD32
  {
    AddWraps(4 * n, 2);
    AddWraps(4 * n, 4);
    Pow2Values();
    WrapSlot(4 * n + 2, 9);
    DivModUnique(4 * n + 2, SEGS, n / DEPTH, 4 * (n % DEPTH) + 2);
  }

  lemma PatchKeeps(q: Sq, descs: seq<Segment>, rung: nat, pad: seq<Segment>, data: Segment)
    requires SqInv(q, descs, rung, pad)
    ensures SqInv(Patch(q, data), descs + [data], rung, pad)
  {
    NextSlot(|descs|);
    var q', descs' := Patch(q, data), descs + [data];
    forall n | 0 <= n < |descs'| && |descs'| <= n + DEPTH
      ensures q'.ring[DataSlot(n)] == descs'[n]
    {
      if n < |descs| {
        SlotsApart(n, |descs|, DEPTH);
      }
    }
  }

  /** The doorbell that follows a patch makes the device fetch the descriptor just patched. */
  lemma DoorbellFetchesPatched(q: Sq, descs: seq<Segment>, pad: seq<Segment>)
    requires |descs| > 0 && SqInv(q, descs, |descs| - 1, pad)
    ensures SqInv(RingDoorbell(q), descs, |descs|, pad)
    ensures Fetched(RingDoorbell(q)) == descs[|descs| - 1]
  {
    var n := |descs| - 1;
    WrapsBack(n);
    Pow2Values();
    WrapSlot(n, 7);
    assert q.ring[DataSlot(n)] == descs[n];
  }

  class SqCtx {
    var sqNumber: nat
    var ring: array<Segment>
    var segIdx: nat
    var pi: nat

    function View(): Sq
      reads this, ring
    {
      Sq(ring[..], segIdx, pi, sqNumber)
    }

    /** com_sq_ctx_init. It leaves `pi` alone: the contexts are zero-initialised globals. */
    constructor (num: nat, ring: array<Segment>)
      ensures this.ring == ring && View() == Sq(ring[..], 0, 0, num)
    {
      sqNumber := num;
      this.ring := ring;
      segIdx, pi := 0, 0;
    }

    /** get_next_sqe: the slot of the segment the index points at, and the index moved on. */
    method GetNextSqe() returns (slot: nat)
      requires ring.Length == SEGS
      modifies this`segIdx
      ensures slot == old(segIdx) % SEGS && segIdx == Inc32(old(segIdx))
    {
      slot := SegSlot(segIdx);
      segIdx := Inc32(segIdx);
    }

    /** One turn of the template loop: three segments written, the fourth only stepped over. */
    method BuildWqe(a: nat, lkey: nat) returns (ghost visited: seq<nat>)
      requires ring.Length == SEGS && segIdx == 4 * a && a < DEPTH
      modifies this`segIdx, ring
      ensures visited == [4 * a, 4 * a + 1, 4 * a + 2, 4 * a + 3] && segIdx == 4 * a + 4
      ensures ring[4 * a] == Ctrl(a, sqNumber) && ring[4 * a + 1] == Eth && ring[4 * a + 2] == Data(0, lkey, 0)
      ensures forall k | 0 <= k < SEGS && !(4 * a <= k < 4 * a + 3) :: ring[k] == old(ring[k])
    {
      var swqe := GetNextSqe();
      ring[swqe] := Ctrl(a, sqNumber);
      visited := [swqe];
      swqe := GetNextSqe();
      ring[swqe] := Eth;
      visited := visited + [swqe];
      swqe := GetNextSqe();
      ring[swqe] := Data(0, lkey, 0);
      visited := visited + [swqe];
      swqe := GetNextSqe();
      visited := visited + [swqe];
    }

    /** The template loop of thd_ctx_init: every segment is visited once, in order, and the fourth of each WQE is left
        alone. */
    method BuildTemplates(lkey: nat) returns (ghost visited: seq<nat>)
      requires ring.Length == SEGS && segIdx == 0 && pi == 0
      modifies this`segIdx, ring
      ensures visited == seq(SEGS, i => i)
      ensures forall k | 0 <= k < SEGS :: ring[k] == TemplateSegment(k, sqNumber, lkey, old(ring[k]))
      ensures SqInv(View(), [], 0, old(ring[..]))
    {
      visited := [];
      for a := 0 to DEPTH
        invariant segIdx == 4 * a && visited == seq(4 * a, i => i)
        invariant forall k | 0 <= k < SEGS ::
          ring[k] == if k < 4 * a then TemplateSegment(k, sqNumber, lkey, old(ring[k])) else old(ring[k])
      {
        ghost var slots := BuildWqe(a, lkey);
        visited := visited + slots;
      }
      segIdx := 0;
    }

    /** prepare_send_packet without its context: whatever the wrapped index, the descriptor takes the place of the
        next WQE's data segment, and the last 128 descriptors and the template are in place. */
    method PatchNext(byteCount: nat, lkey: nat, addr: nat,
                     ghost descs: seq<Segment>, ghost rung: nat, ghost pad: seq<Segment>)
      requires SqInv(View(), descs, rung, pad)
      modifies this`segIdx, ring
      ensures SqInv(View(), descs + [Data(byteCount, lkey, addr)], rung, pad)
      ensures View() == Patch(old(View()), Data(byteCount, lkey, addr))
    {
      PatchKeeps(View(), descs, rung, pad, Data(byteCount, lkey, addr));
      ring[SegSlot((segIdx + 2) % WORD32)] := Data(byteCount, lkey, addr);
      segIdx := (segIdx + 4) % WORD32;
    }

    /** finish_send: the device fetches the descriptor patched last, and nothing patched is left unrung. */
    method Ring(ghost descs: seq<Segment>, ghost pad: seq<Segment>)
      requires |descs| > 0 && SqInv(View(), descs, |descs| - 1, pad)
      modifies this`pi
      ensures Fetched(View()) == descs[|descs| - 1] && SqInv(View(), descs, |descs|, pad)
      ensures View() == RingDoorbell(old(View()))
    {
      DoorbellFetchesPatched(View(), descs, pad);
      pi := Inc32(pi);
    }
  }

  const ENTRY: nat := 2048       // 1 << LOG_Q_DATA_ENTRY_BSIZE
  const SRC_ADDR: seq<byte> := [0xa0, 0x88, 0xc2, 0x32, 0x04, 0x40]
  const ETHER_TYPE: seq<byte> := [0x08, 0x00]

  /** The address get_next_dte hands out for a buffer index. */
  function EntryAddr(base: nat, idx: nat): (r: nat)
    ensures r == base + ENTRY * (idx % DEPTH)
  {
    MaskIsMod(idx, 7);
    Pow2Values();
    base + And(idx, L2M(7)) * Pow2(11)
  }

  class DtCtx {
    var base: nat
    var idx: nat

    /** com_dt_ctx_init. */
    constructor (base: nat)
      ensures this.base == base && idx == 0
    {
      this.base, idx := base, 0;
    }

    /** get_next_dte. */
    method GetNextDte() returns (addr: nat)
      modifies this`idx
      ensures addr == base + ENTRY * (old(idx) % DEPTH) && idx == Inc32(old(idx))
    {
      addr := EntryAddr(base, idx);
      idx := Inc32(idx);
    }
  }

  /** A frame header: destination, the sender's fixed source address as the low 48 bits of a little-endian word, and the
      type of IPv4 as a big-endian 16-bit word (IEEE Std 802.3, clause 3.2.6). */
  predicate HeaderAt(s: seq<byte>, off: nat, mac: seq<byte>)
    requires off + 14 <= |s|
  {
    && s[off..off + 6] == mac
    && Load64(s, off + 6) & 0x0000_ffff_ffff_ffff == 0x0000_4004_32c2_88a0
    && s[off + 12] as int * 256 + s[off + 13] as int == 0x0800
  }

  lemma SourceWord(b6: byte, b7: byte)
    ensures Word(0xa0, 0x88, 0xc2, 0x32, 0x04, 0x40, b6, b7) & 0x0000_ffff_ffff_ffff == 0x0000_4004_32c2_88a0
  {
  }

  lemma SplicedHeader(s: seq<byte>, off: nat, mac: seq<byte>)
    requires |mac| == 6 && off + 14 <= |s|
    ensures HeaderAt(Splice(s, off, mac + SRC_ADDR + ETHER_TYPE), off, mac)
    ensures forall k | 0 <= k < |s| && !(off <= k < off + 14) ::
              Splice(s, off, mac + SRC_ADDR + ETHER_TYPE)[k] == s[k]
  {
    hide Word;
    var t := Splice(s, off, mac + SRC_ADDR + ETHER_TYPE);
    assert t[off..off + 6] == mac;
    SourceWord(t[off + 12], t[off + 13]);
  }

  /** prepare_packet: the header and nothing else. */
  method PreparePacket(mem: array<byte>, off: nat, mac: seq<byte>)
    requires |mac| == 6 && off + 14 <= mem.Length
    modifies mem
    ensures HeaderAt(mem[..], off, mac)
    ensures forall k | 0 <= k < mem.Length && !(off <= k < off + 14) :: mem[k] == old(mem[k])
  {
    hide HeaderAt, Splice;
    ghost var before := mem[..];
    WriteBytes(mem, off + 6, SRC_ADDR);
    WriteBytes(mem, off, mac);
    WriteBytes(mem, off + 12, ETHER_TYPE);
    SplicesJoin(before, off, mac);
    SplicedHeader(before, off, mac);
    assert mem[..] == Splice(before, off, mac + SRC_ADDR + ETHER_TYPE);
    forall k | 0 <= k < mem.Length && !(off <= k < off + 14)
      ensures mem[k] == before[k]
    {
      assert mem[k] == mem[..][k];
    }
  }

  /** send_packet: the next transmit buffer gets a frame header, and its descriptor is the one the device fetches.
      The descriptor carries the receive region's key, as prepare_send_packet does. */
  method SendPacket(sq: SqCtx, dt: DtCtx, mem: array<byte>, mac: seq<byte>, dataSize: nat, rqLkey: nat,
                    ghost descs: seq<Segment>, ghost pad: seq<Segment>)
    requires |mac| == 6 && mem.Length == ENTRY * DEPTH
    requires SqInv(sq.View(), descs, |descs|, pad)
    modifies sq`segIdx, sq`pi, sq.ring, dt`idx, mem
    ensures var off := ENTRY * (old(dt.idx) % DEPTH);
            && HeaderAt(mem[..], off, mac)
            && (forall k | 0 <= k < mem.Length && !(off <= k < off + 14) :: mem[k] == old(mem[k]))
            && var d := Data(dataSize % WORD32, rqLkey, dt.base + off);
               && sq.View() == RingDoorbell(Patch(old(sq.View()), d))
               && SqInv(sq.View(), descs + [d], |descs| + 1, pad)
               && Fetched(sq.View()) == d
    ensures dt.idx == Inc32(old(dt.idx))
  {
    var addr := dt.GetNextDte();
    hide HeaderAt, Patch, RingDoorbell, SqInv, Fetched;
    PreparePacket(mem, addr - dt.base, mac);
    sq.PatchNext(dataSize % WORD32, rqLkey, addr, descs, |descs|, pad);
    sq.Ring(descs + [Data(dataSize % WORD32, rqLkey, addr)], pad);
  }

  lemma SplicesJoin(s: seq<byte>, off: nat, mac: seq<byte>)
    requires |mac| == 6 && off + 14 <= |s|
    ensures Splice(Splice(Splice(s, off + 6, SRC_ADDR), off, mac), off + 12, ETHER_TYPE)
            == Splice(s, off, mac + SRC_ADDR + ETHER_TYPE)
  {
    var t := Splice(Splice(s, off + 6, SRC_ADDR), off, mac);
    assert t[..off + 12] == s[..off] + mac + SRC_ADDR;
    assert t[off + 14..] == s[off + 14..];
  }
}
