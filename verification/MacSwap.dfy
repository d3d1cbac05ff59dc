/** The two MAC swaps of com_dev.c: the byte loop swap_macs and the overlapping-word swap_mac. */
module MacSwap {

  type byte = bv8

  const MASK: bv64 := 0x0000_ffff_ffff_ffff

  /** IEEE Std 802.3, clauses 3.2.4 to 3.2.6: destination, source, then length/type and payload. */
  function MacSwapped(s: seq<byte>): (r: seq<byte>)
    requires |s| >= 12
    ensures |r| == |s|
  {
    s[6..12] + s[..6] + s[12..]
  }

  lemma MacSwappedIsInvolution(s: seq<byte>)
    requires |s| >= 12
    ensures MacSwapped(MacSwapped(s)) == s
    ensures MacSwapped(s)[12..] == s[12..]
  {
    var t := MacSwapped(s);
    assert t[6..12] == s[..6] && t[..6] == s[6..12] && t[12..] == s[12..];
  }

  /** Swapping the addresses commutes with cutting the frame out of a larger buffer. */
  lemma MacSwappedPrefix(s: seq<byte>, n: nat)
    requires 12 <= n <= |s|
    ensures MacSwapped(s)[..n] == MacSwapped(s[..n])
  {
    assert s[..n][6..12] == s[6..12] && s[..n][..6] == s[..6] && s[..n][12..] == s[12..n];
  }

  /** A 64-bit little-endian load. */
  function Load64(s: seq<byte>, off: nat): bv64
    requires off + 8 <= |s|
  {
    Word(s[off], s[off + 1], s[off + 2], s[off + 3], s[off + 4], s[off + 5], s[off + 6], s[off + 7])
  }

  function Word(b0: byte, b1: byte, b2: byte, b3: byte, b4: byte, b5: byte, b6: byte, b7: byte): bv64 {
    (b0 as bv64) | ((b1 as bv64) << 8) | ((b2 as bv64) << 16) | ((b3 as bv64) << 24)
    | ((b4 as bv64) << 32) | ((b5 as bv64) << 40) | ((b6 as bv64) << 48) | ((b7 as bv64) << 56)
  }

  function ByteAt(w: bv64, shift: bv7): byte
    requires shift <= 56
  {
    ((w >> shift) & 0xff) as byte
  }

  function Bytes(w: bv64): (r: seq<byte>)
    ensures |r| == 8
  {
    [ByteAt(w, 0), ByteAt(w, 8), ByteAt(w, 16), ByteAt(w, 24),
     ByteAt(w, 32), ByteAt(w, 40), ByteAt(w, 48), ByteAt(w, 56)]
  }

  /** `s` with the bytes from `off` on replaced by `data`. */
  function Splice(s: seq<byte>, off: nat, data: seq<byte>): (r: seq<byte>)
    requires off + |data| <= |s|
    ensures |r| == |s|
  {
    s[..off] + data + s[off + |data|..]
  }

  /** A 64-bit little-endian store. */
  function Store64(s: seq<byte>, off: nat, w: bv64): (r: seq<byte>)
    requires off + 8 <= |s|
    ensures |r| == |s|
  {
    Splice(s, off, Bytes(w))
  }

  /** The second word swap_mac stores: the old destination address, then the two bytes that must not change. */
  function Merged(src: bv64, dst: bv64): bv64 {
    (src & MASK) | (dst & !MASK)
  }

  lemma BytesOfWord(b0: byte, b1: byte, b2: byte, b3: byte, b4: byte, b5: byte, b6: byte, b7: byte)
    ensures Bytes(Word(b0, b1, b2, b3, b4, b5, b6, b7)) == [b0, b1, b2, b3, b4, b5, b6, b7]
  {
  }

  lemma BytesOfLoad(s: seq<byte>, off: nat)
    requires off + 8 <= |s|
    ensures Bytes(Load64(s, off)) == s[off..off + 8]
  {
    BytesOfWord(s[off], s[off + 1], s[off + 2], s[off + 3], s[off + 4], s[off + 5], s[off + 6], s[off + 7]);
  }

  lemma MergedLowBytes(src: bv64, dst: bv64)
    ensures Bytes(Merged(src, dst))[..6] == Bytes(src)[..6]
  {
  }

  lemma MergedHighBytes(src: bv64, dst: bv64)
    ensures Bytes(Merged(src, dst))[6..] == Bytes(dst)[6..]
  {
  }

  lemma BytesOfMerged(src: bv64, dst: bv64)
    ensures Bytes(Merged(src, dst)) == Bytes(src)[..6] + Bytes(dst)[6..]
  {
    hide Merged, ByteAt;
    MergedLowBytes(src, dst);
    MergedHighBytes(src, dst);
    var m := Bytes(Merged(src, dst));
    assert m == m[..6] + m[6..];
  }

  /** Writing the upper eight bytes low and the merged eight bytes high exchanges the two addresses. */
  lemma OverlappingSplices(s: seq<byte>, off: nat, low: seq<byte>, high: seq<byte>)
    requires off + 14 <= |s|
    requires low == s[off + 6..off + 14]
    requires high == s[off..off + 6] + s[off + 12..off + 14]
    ensures Splice(Splice(s, off, low), off + 6, high) == s[..off] + MacSwapped(s[off..])
  {
    var t := Splice(s, off, low);
    assert t[..off + 6] == s[..off] + s[off + 6..off + 12];
    assert t[off + 14..] == s[off + 14..];
    var f := s[off..];
    assert f[6..12] == s[off + 6..off + 12] && f[..6] == s[off..off + 6];
    assert f[12..] == s[off + 12..off + 14] + s[off + 14..];
  }

  /** The two overlapping word stores of swap_mac amount to the byte-wise exchange, wherever the frame starts. */
  lemma WordSwapRefinesByteSwap(s: seq<byte>, off: nat)
    requires off + 14 <= |s|
    ensures var src, dst := Load64(s, off), Load64(s, off + 6);
            Store64(Store64(s, off, dst), off + 6, Merged(src, dst)) == s[..off] + MacSwapped(s[off..])
  {
    var src, dst := Load64(s, off), Load64(s, off + 6);
    StoredBytes(s, off);
    OverlappingSplices(s, off, Bytes(dst), Bytes(Merged(src, dst)));
  }

  lemma StoredBytes(s: seq<byte>, off: nat)
    requires off + 14 <= |s|
    ensures Bytes(Load64(s, off + 6)) == s[off + 6..off + 14]
    ensures Bytes(Merged(Load64(s, off), Load64(s, off + 6))) == s[off..off + 6] + s[off + 12..off + 14]
  {
    BytesOfLoad(s, off);
    BytesOfLoad(s, off + 6);
    BytesOfMerged(Load64(s, off), Load64(s, off + 6));
    assert s[off..off + 8][..6] == s[off..off + 6];
    assert s[off + 6..off + 14][6..] == s[off + 12..off + 14];
  }

  method WriteBytes(mem: array<byte>, off: nat, data: seq<byte>)
    requires off + |data| <= mem.Length
    modifies mem
    ensures mem[..] == Splice(old(mem[..]), off, data)
  {
    forall k | off <= k < off + |data| {
      mem[k] := data[k - off];
    }
  }

  /** swap_mac on the frame that starts at `off`. */
  method SwapMac(mem: array<byte>, off: nat)
    requires off + 14 <= mem.Length
    modifies mem
    ensures mem[..] == old(mem[..])[..off] + MacSwapped(old(mem[..])[off..])
  {
    WordSwapRefinesByteSwap(mem[..], off);
    var src := Load64(mem[..], off);
    var dst := Load64(mem[..], off + 6);
    WriteBytes(mem, off, Bytes(dst));
    WriteBytes(mem, off + 6, Bytes(Merged(src, dst)));
  }

  /** swap_macs on the frame that starts at `off`. */
  method SwapMacs(mem: array<byte>, off: nat)
    requires off + 12 <= mem.Length
    modifies mem
    ensures mem[..] == old(mem[..])[..off] + MacSwapped(old(mem[..])[off..])
  {
    var dmac, smac := off, off + 6;
    for i := 0 to 6
      invariant dmac == off + i && smac == off + 6 + i
      invariant forall k | 0 <= k < mem.Length ::
        mem[k] == if off <= k < off + i then old(mem[k + 6])
                  else if off + 6 <= k < off + 6 + i then old(mem[k - 6]) else old(mem[k])
    {
      mem[smac], mem[dmac] := mem[dmac], mem[smac];
      dmac, smac := dmac + 1, smac + 1;
    }
  }
}
