/** Little-endian integers, in-place field writes and the fixed-size records of the wire format. */
module Wire {
  import opened Basics

  // ---------------------------------------------------------- byte primitives

  function Pow256(k: nat): nat {
    if k == 0 then 1 else 256 * Pow256(k - 1)
  }

  /** The `k` low-order bytes of `n`, least significant first. */
  function Le(n: nat, k: nat): (s: Bytes)
    ensures |s| == k
    decreases k
  {
    if k == 0 then [] else [n % 256] + Le(n / 256, k - 1)
  }

  function UnLe(s: Bytes): nat {
    if s == [] then 0 else s[0] + 256 * UnLe(s[1..])
  }

  lemma {:induction false} LeThenUnLe(n: nat, k: nat)
    requires n < Pow256(k)
    ensures UnLe(Le(n, k)) == n
    decreases k
  {
    if k > 0 {
      LeThenUnLe(n / 256, k - 1);
      assert Le(n, k)[1..] == Le(n / 256, k - 1);
    }
  }

  lemma LowByte(b: Byte, rest: nat)
    ensures (b + 256 * rest) % 256 == b && (b + 256 * rest) / 256 == rest
  {
  }

  lemma {:induction false} UnLeThenLe(s: Bytes)
    ensures UnLe(s) < Pow256(|s|)
    ensures Le(UnLe(s), |s|) == s
  {
    if s != [] {
      UnLeThenLe(s[1..]);
      LowByte(s[0], UnLe(s[1..]));
      assert s == [s[0]] + s[1..];
    }
  }

  lemma WordSizes()
    ensures Pow256(1) == 256 && Pow256(2) == U16_LIMIT && Pow256(4) == U32_LIMIT && Pow256(8) == U64_LIMIT
  {
    assert Pow256(2) == 256 * Pow256(1) && Pow256(3) == 256 * Pow256(2) && Pow256(4) == 256 * Pow256(3);
    assert Pow256(5) == 256 * Pow256(4) && Pow256(6) == 256 * Pow256(5) && Pow256(7) == 256 * Pow256(6);
  }

  /** `k` is the size of an encoded integer and `n` is representable in it. */
  predicate Fits(n: nat, k: nat) {
    n < Pow256(k)
  }

  function Zeros(n: nat): (z: Bytes)
    ensures |z| == n && forall i :: 0 <= i < n ==> z[i] == 0
  {
    seq(n, _ => 0)
  }

  /** `piece` written over `bytes` at `offset`. */
  function Put(bytes: Bytes, offset: nat, piece: Bytes): (r: Bytes)
    requires offset + |piece| <= |bytes|
    ensures |r| == |bytes|
    ensures forall i :: 0 <= i < |r| ==> r[i] == if offset <= i < offset + |piece| then piece[i - offset] else bytes[i]
  {
    bytes[..offset] + piece + bytes[offset + |piece|..]
  }

  predicate InRange(bytes: Bytes, offset: nat, len: nat) {
    offset + len <= |bytes|
  }

  function ReadLe(bytes: Bytes, offset: nat, k: nat): nat
    requires InRange(bytes, offset, k)
  {
    UnLe(bytes[offset..offset + k])
  }

  predicate AllZero(bytes: Bytes) {
    forall i :: 0 <= i < |bytes| ==> bytes[i] == 0
  }

  /** A field that reads back what was written. */
  lemma ReadsNumber(bytes: Bytes, offset: nat, n: nat, k: nat)
    requires InRange(bytes, offset, k) && Fits(n, k)
    requires forall i :: 0 <= i < k ==> bytes[offset + i] == Le(n, k)[i]
    ensures ReadLe(bytes, offset, k) == n
  {
    assert bytes[offset..offset + k] == Le(n, k);
    LeThenUnLe(n, k);
  }

  lemma ReadsArray(bytes: Bytes, offset: nat, piece: Bytes)
    requires InRange(bytes, offset, |piece|)
    requires forall i :: 0 <= i < |piece| ==> bytes[offset + i] == piece[i]
    ensures bytes[offset..offset + |piece|] == piece
  {
  }

  lemma ReadsReserved(bytes: Bytes, lo: nat, hi: nat)
    requires lo <= hi <= |bytes| && forall i :: lo <= i < hi ==> bytes[i] == 0
    ensures AllZero(bytes[lo..hi])
  {
  }

  /** A field that writes back what was read. */
  lemma WritesNumber(bytes: Bytes, offset: nat, k: nat)
    requires InRange(bytes, offset, k)
    ensures Fits(ReadLe(bytes, offset, k), k)
    ensures forall i :: 0 <= i < k ==> Le(ReadLe(bytes, offset, k), k)[i] == bytes[offset + i]
  {
    UnLeThenLe(bytes[offset..offset + k]);
  }
}
