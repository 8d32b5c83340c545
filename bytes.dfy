/**
 * Byte-level view of the values the engine copies into mapped uniform
 * buffers. Vectors and matrices of floats are opaque payloads of their
 * in-memory size; a `u32` is stored least significant byte first, as
 * `memcpy` lays it out on the little-endian hosts the engine runs on.
 */
module Bytes {
  import opened Bits

  newtype byte = b: int | 0 <= b < 256

  /** A `glm::vec3`: three 4-byte floats. */
  type Vec3 = s: seq<byte> | |s| == 12 witness [0, 0, 0, 0, 0, 0, 0, 0, 0, 0, 0, 0]

  /** A `glm::mat4`: sixteen 4-byte floats. */
  type Mat4 = s: seq<byte> | |s| == 64 witness seq(64, _ => 0)

  /** The four bytes `memcpy` copies for a `u32`. */
  function U32Bytes(v: u32): (r: seq<byte>)
    ensures |r| == 4
  {
    [(v % 256) as byte, (v / 256 % 256) as byte, (v / 65536 % 256) as byte, (v / 16777216) as byte]
  }

  /** Reads back a `u32` from four bytes in the same order. */
  function DecodeU32(b: seq<byte>): (v: u32)
    requires |b| == 4
  {
    b[0] as int + 256 * b[1] as int + 65536 * b[2] as int + 16777216 * b[3] as int
  }

  lemma DecodeU32Encode(v: u32)
    ensures DecodeU32(U32Bytes(v)) == v
  {
    var q1 := v / 256;
    var q2 := q1 / 256;
    var q3 := q2 / 256;
    ModUnique(v, 65536, q2, v % 256 + 256 * (q1 % 256));
    ModUnique(v, 16777216, q3, v % 256 + 256 * (q1 % 256) + 65536 * (q2 % 256));
  }

  lemma EncodeDecodeU32(b: seq<byte>)
    requires |b| == 4
    ensures U32Bytes(DecodeU32(b)) == b
  {
    var v := DecodeU32(b);
    var b0, b1, b2, b3 := b[0] as int, b[1] as int, b[2] as int, b[3] as int;
    ModUnique(v, 256, b1 + 256 * b2 + 65536 * b3, b0);
    ModUnique(v / 256, 256, b2 + 256 * b3, b1);
    ModUnique(v, 65536, b2 + 256 * b3, b0 + 256 * b1);
    ModUnique(v / 65536, 256, b3, b2);
    ModUnique(v, 16777216, b3, b0 + 256 * b1 + 65536 * b2);
  }

  /** `d` with `bytes` copied in at `start`: the effect of one `memcpy`. */
  function Overwrite(d: seq<byte>, start: nat, bytes: seq<byte>): (r: seq<byte>)
    requires start + |bytes| <= |d|
    ensures |r| == |d|
  {
    d[..start] + bytes + d[start + |bytes|..]
  }

  /** After a copy, the copied range holds the copied bytes and every other byte is unchanged. */
  lemma OverwriteAt(d: seq<byte>, start: nat, bytes: seq<byte>)
    requires start + |bytes| <= |d|
    ensures |Overwrite(d, start, bytes)| == |d|
    ensures Overwrite(d, start, bytes)[start..start + |bytes|] == bytes
    ensures forall i :: 0 <= i < |d| && !(start <= i < start + |bytes|) ==> Overwrite(d, start, bytes)[i] == d[i]
  {
  }

  /** A range that does not overlap the copied one reads as before. */
  lemma OverwriteElsewhere(d: seq<byte>, start: nat, bytes: seq<byte>, lo: nat, hi: nat)
    requires start + |bytes| <= |d| && lo <= hi <= |d|
    requires hi <= start || start + |bytes| <= lo
    ensures Overwrite(d, start, bytes)[lo..hi] == d[lo..hi]
  {
    OverwriteAt(d, start, bytes);
    assert forall i :: 0 <= i < hi - lo ==> Overwrite(d, start, bytes)[lo..hi][i] == d[lo..hi][i];
  }

  /** Byte strings that agree on a prefix agree on every range inside it. */
  lemma PrefixAgrees(d: seq<byte>, e: seq<byte>, p: nat, lo: nat, hi: nat)
    requires p <= |d| && p <= |e| && d[..p] == e[..p] && lo <= hi <= p
    ensures d[lo..hi] == e[lo..hi]
  {
    assert d[lo..hi] == d[..p][lo..hi];
    assert e[lo..hi] == e[..p][lo..hi];
  }

  /** Byte strings that agree from `p` on agree from every later position on. */
  lemma SuffixAgrees(d: seq<byte>, e: seq<byte>, p: nat, q: nat)
    requires |d| == |e| && p <= q <= |d| && d[p..] == e[p..]
    ensures d[q..] == e[q..]
  {
    assert d[q..] == d[p..][q - p..];
    assert e[q..] == e[p..][q - p..];
  }
}
