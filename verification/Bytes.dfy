/** Machine integers, their little-endian layout, byte lists, and the block copy
    that both the C# and the C++ servers are built on. */
module Bytes {
  import opened Collections

  newtype byte = x: int | 0 <= x < 0x100
  newtype uint32 = x: int | 0 <= x < 0x1_0000_0000
  newtype int32 = x: int | -0x8000_0000 <= x < 0x8000_0000

  /** Little-endian layout of a 32-bit unsigned integer. */
  function EncodeUint32(v: uint32): (s: seq<byte>)
    ensures |s| == 4
  {
    var q1, q2, q3 := v / 0x100, v / 0x100 / 0x100, v / 0x100 / 0x100 / 0x100;
    [(v % 0x100) as byte, (q1 % 0x100) as byte, (q2 % 0x100) as byte, q3 as byte]
  }

  /** BitConverter.ToUInt32(s, 0) on a little-endian machine. */
  function DecodeUint32(s: seq<byte>): uint32
    requires |s| >= 4
  {
    s[0] as uint32 + 0x100 * (s[1] as uint32 + 0x100 * (s[2] as uint32 + 0x100 * s[3] as uint32))
  }

  /** The number with these digits in base 256, lowest digit first. */
  function LittleEndian(s: seq<byte>): nat {
    if s == [] then 0 else s[0] as nat + 0x100 * LittleEndian(s[1..])
  }

  lemma DecodesLittleEndian(s: seq<byte>)
    requires |s| >= 4
    ensures DecodeUint32(s) as nat == LittleEndian(s[..4])
  {
    var t := s[..4];
    assert LittleEndian(t[3..]) == t[3] as nat + 0x100 * LittleEndian([]) by { assert t[3..][1..] == []; }
    assert LittleEndian(t[2..]) == t[2] as nat + 0x100 * LittleEndian(t[3..]) by { assert t[2..][1..] == t[3..]; }
    assert LittleEndian(t[1..]) == t[1] as nat + 0x100 * LittleEndian(t[2..]) by { assert t[1..][1..] == t[2..]; }
  }

  lemma EncodesLittleEndian(v: uint32)
    ensures LittleEndian(EncodeUint32(v)) == v as nat
  {
    var s := EncodeUint32(v);
    DecodeEncode(v, []);
    assert s + [] == s && s[..4] == s;
    DecodesLittleEndian(s);
  }

  /** Two's complement reinterpretation. */
  function ToSigned(v: uint32): int32 {
    if v < 0x8000_0000 then v as int32 else (v as int - 0x1_0000_0000) as int32
  }

  function ToUnsigned(v: int32): uint32 {
    if v >= 0 then v as uint32 else (v as int + 0x1_0000_0000) as uint32
  }

  /** Both views agree modulo 2^32, and are each other's inverse. */
  lemma SignedRoundTrip(v: int32)
    ensures ToSigned(ToUnsigned(v)) == v
    ensures (ToUnsigned(v) as int - v as int) % 0x1_0000_0000 == 0
  {
  }

  lemma DecodeEncode(v: uint32, tail: seq<byte>)
    ensures DecodeUint32(EncodeUint32(v) + tail) == v
  {
    var s := EncodeUint32(v) + tail;
    assert s[..4] == EncodeUint32(v);
  }

  lemma EncodeDecode(s: seq<byte>)
    requires |s| == 4
    ensures EncodeUint32(DecodeUint32(s)) == s
  {
    var q2 := s[2] as uint32 + 0x100 * s[3] as uint32;
    var q1 := s[1] as uint32 + 0x100 * q2;
    assert DecodeUint32(s) / 0x100 == q1;
    assert q1 / 0x100 == q2;
  }

  /** Concatenation of a list of byte strings. */
  function Flatten(ss: seq<seq<byte>>): seq<byte> {
    if ss == [] then [] else ss[0] + Flatten(ss[1..])
  }

  lemma {:induction false} FlattenAppend(a: seq<seq<byte>>, b: seq<seq<byte>>)
    ensures Flatten(a + b) == Flatten(a) + Flatten(b)
  {
    if a == [] {
      assert a + b == b;
    } else {
      FlattenAppend(a[1..], b);
      DropFromAppend(a, b, 1);
      Reassociate(a[0], Flatten(a[1..]), Flatten(b));
    }
  }

  /** The bytes of a destination after n bytes from a source have replaced those at dstOff. */
  function Patched(dst: seq<byte>, dstOff: nat, src: seq<byte>, srcOff: nat, n: nat): (r: seq<byte>)
    requires srcOff + n <= |src| && dstOff + n <= |dst|
  {
    dst[..dstOff] + src[srcOff..srcOff + n] + dst[dstOff + n..]
  }

  /** Each byte of the result, whatever the offsets. */
  lemma PatchedAt(dst: seq<byte>, dstOff: nat, src: seq<byte>, srcOff: nat, n: nat, k: nat)
    requires srcOff + n <= |src| && dstOff + n <= |dst| && k < |dst|
    ensures |Patched(dst, dstOff, src, srcOff, n)| == |dst|
    ensures Patched(dst, dstOff, src, srcOff, n)[k]
            == if dstOff <= k < dstOff + n then src[srcOff + k - dstOff] else dst[k]
  {
  }

  /** Lowest index first: right when the target starts at or before the source. */
  method CopyUp(src: array<byte>, srcOff: nat, dst: array<byte>, dstOff: nat, n: nat)
    requires srcOff + n <= src.Length && dstOff + n <= dst.Length && dstOff <= srcOff
    modifies dst
    ensures dst[..] == old(Patched(dst[..], dstOff, src[..], srcOff, n))
  {
    for i := 0 to n
      invariant forall k :: 0 <= k < dstOff || dstOff + i <= k < dst.Length ==> dst[k] == old(dst[k])
      invariant forall k :: dstOff <= k < dstOff + i ==> dst[k] == old(src[srcOff - dstOff + k])
    {
      dst[dstOff + i] := src[srcOff + i];
    }
    assert dst[dstOff..dstOff + n] == old(src[srcOff..srcOff + n]);
  }

  /** Highest index first: right when the target starts after the source. */
  method CopyDown(src: array<byte>, srcOff: nat, dst: array<byte>, dstOff: nat, n: nat)
    requires srcOff + n <= src.Length && dstOff + n <= dst.Length && srcOff <= dstOff
    modifies dst
    ensures dst[..] == old(Patched(dst[..], dstOff, src[..], srcOff, n))
  {
    for i := n downto 0
      invariant forall k :: 0 <= k < dstOff + i || dstOff + n <= k < dst.Length ==> dst[k] == old(dst[k])
      invariant forall k :: dstOff + i <= k < dstOff + n ==> dst[k] == old(src[srcOff - dstOff + k])
    {
      dst[dstOff + i] := src[srcOff + i];
    }
    assert dst[dstOff..dstOff + n] == old(src[srcOff..srcOff + n]);
  }

  /** Array.Copy / CopyMemory of n bytes. The two ranges may overlap, in which case
      the bytes arrive as they were before the copy. */
  method ArrayCopy(src: array<byte>, srcOff: nat, dst: array<byte>, dstOff: nat, n: nat)
    requires srcOff + n <= src.Length && dstOff + n <= dst.Length
    modifies dst
    ensures dst[..] == old(Patched(dst[..], dstOff, src[..], srcOff, n))
  {
    if dstOff <= srcOff {
      CopyUp(src, srcOff, dst, dstOff, n);
    } else {
      CopyDown(src, srcOff, dst, dstOff, n);
    }
  }
}
