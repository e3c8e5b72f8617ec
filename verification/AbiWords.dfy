/** Bytes and 32-byte big-endian words, as the contract ABI encodes them (Solidity Contract ABI
    Specification, section "Formal Specification of the Encoding"). */
module AbiWords {

  newtype byte = b: int | 0 <= b < 256

  function Pow256(n: nat): (r: nat)
    ensures 0 < r
  {
    if n == 0 then 1 else 256 * Pow256(n - 1)
  }

  /** The number that `k` bytes spell, most significant first. */
  function BigEndian(data: seq<byte>, offset: nat, k: nat): nat
    requires offset + k <= |data|
  {
    if k == 0 then 0 else 256 * BigEndian(data, offset, k - 1) + data[offset + k - 1] as nat
  }

  /** Python's `int.from_bytes(data[offset : offset + k], "big")`, with the digits read so far. */
  function FromBytes(data: seq<byte>, offset: nat, k: nat, read: nat): nat
    requires offset + k <= |data|
    decreases |data| - offset
  {
    if k == 0 then read else FromBytes(data, offset + 1, k - 1, 256 * read + data[offset] as nat)
  }

  lemma {:induction false} FromBytesIsBigEndian(data: seq<byte>, offset: nat, j: nat, k: nat)
    requires offset + j + k <= |data|
    ensures FromBytes(data, offset + j, k, BigEndian(data, offset, j)) == BigEndian(data, offset, j + k)
    decreases k
  {
    if k != 0 {
      FromBytesIsBigEndian(data, offset, j + 1, k - 1);
    }
  }

  /** The low `len` bytes of `n`, most significant first. */
  function ToBytes(n: nat, len: nat): (r: seq<byte>)
    ensures |r| == len
  {
    if len == 0 then [] else ToBytes(n / 256, len - 1) + [(n % 256) as byte]
  }

  lemma {:induction false} BigEndianBound(data: seq<byte>, offset: nat, k: nat)
    requires offset + k <= |data|
    ensures BigEndian(data, offset, k) < Pow256(k)
  {
    if k != 0 {
      BigEndianBound(data, offset, k - 1);
    }
  }

  lemma {:induction false} BytesRoundTrip(data: seq<byte>, offset: nat, k: nat)
    requires offset + k <= |data|
    ensures ToBytes(BigEndian(data, offset, k), k) == data[offset..offset + k]
  {
    if k != 0 {
      BytesRoundTrip(data, offset, k - 1);
      var high, last := BigEndian(data, offset, k - 1), data[offset + k - 1];
      var n := 256 * high + last as nat;
      assert n / 256 == high && n % 256 == last as nat;
      assert data[offset..offset + k] == data[offset..offset + k - 1] + [last];
    }
  }

  lemma {:induction false} NumberRoundTrip(data: seq<byte>, offset: nat, n: nat, k: nat)
    requires offset + k <= |data| && n < Pow256(k) && data[offset..offset + k] == ToBytes(n, k)
    ensures BigEndian(data, offset, k) == n
  {
    if k != 0 {
      var r := ToBytes(n, k);
      assert r[..k - 1] == ToBytes(n / 256, k - 1) && r[k - 1] == (n % 256) as byte;
      assert data[offset..offset + k - 1] == data[offset..offset + k][..k - 1];
      assert data[offset + k - 1] == data[offset..offset + k][k - 1];
      NumberRoundTrip(data, offset, n / 256, k - 1);
    }
  }

  const WORD_LIMIT: nat := 0x10000000000000000000000000000000000000000000000000000000000000000

  lemma {:induction false} PowSplits(m: nat, n: nat)
    ensures Pow256(m + n) == Pow256(m) * Pow256(n)
  {
    if m != 0 {
      PowSplits(m - 1, n);
      assert 256 * (Pow256(m - 1) * Pow256(n)) == 256 * Pow256(m - 1) * Pow256(n);
    }
  }

  lemma WordLimit()
    ensures Pow256(32) == WORD_LIMIT
  {
    assert Pow256(8) == 0x10000000000000000;
    PowSplits(8, 8);
    PowSplits(16, 16);
  }

  /** A number that one word can hold. */
  predicate FitsWord(n: nat) {
    n < WORD_LIMIT
  }

  /** The word at an offset. */
  function WordAt(data: seq<byte>, offset: nat): nat
    requires offset + 32 <= |data|
  {
    FromBytes(data, offset, 32, 0)
  }

  lemma WordExists(n: nat)
    requires FitsWord(n)
    ensures exists w: seq<byte> :: |w| == 32 && WordAt(w, 0) == n
  {
    WordLimit();
    var w := ToBytes(n, 32);
    assert w[0..32] == w;
    NumberRoundTrip(w, 0, n, 32);
    FromBytesIsBigEndian(w, 0, 0, 32);
  }

  /** The word that a number is written as. */
  ghost function Word(n: nat): (r: seq<byte>)
    ensures |r| == 32
  {
    if FitsWord(n) then
      WordExists(n);
      var w: seq<byte> :| |w| == 32 && WordAt(w, 0) == n;
      w
    else Zeros(32)
  }

  /** It is the 32 bytes of the number, most significant first. */
  lemma WordIsBigEndian(n: nat)
    requires FitsWord(n)
    ensures Word(n) == ToBytes(n, 32)
  {
    BytesRoundTrip(Word(n), 0, 32);
    FromBytesIsBigEndian(Word(n), 0, 0, 32);
    assert Word(n)[0..32] == Word(n);
  }

  /** The bytes of `e` lie in `data` at `at`. */
  ghost predicate Holds(data: seq<byte>, at: nat, e: seq<byte>) {
    at + |e| <= |data| && data[at..at + |e|] == e
  }

  lemma HoldsBoth(data: seq<byte>, at: nat, a: seq<byte>, b: seq<byte>)
    ensures Holds(data, at, a + b) <==> Holds(data, at, a) && Holds(data, at + |a|, b)
  {
    if Holds(data, at, a + b) {
      var whole := data[at..at + |a + b|];
      assert data[at..at + |a|] == whole[..|a|] == a;
      assert data[at + |a|..at + |a| + |b|] == whole[|a|..] == b;
    }
    if Holds(data, at, a) && Holds(data, at + |a|, b) {
      assert data[at..at + |a + b|] == data[at..at + |a|] + data[at + |a|..at + |a| + |b|];
    }
  }

  lemma HoldsSuffix(data: seq<byte>, at: nat, e: seq<byte>)
    requires at <= |data|
    ensures data[at..] == e <==> Holds(data, at, e) && at + |e| == |data|
  {
  }

  lemma WordAtFits(data: seq<byte>, offset: nat)
    requires offset + 32 <= |data|
    ensures FitsWord(WordAt(data, offset))
  {
    WordLimit();
    BigEndianBound(data, offset, 32);
    FromBytesIsBigEndian(data, offset, 0, 32);
  }

  /** The last byte of a word is its least: the word is 256 times what the 31 bytes before it spell, plus
      that byte. */
  lemma LastByteIsLeast(data: seq<byte>, offset: nat)
    requires offset + 32 <= |data|
    ensures WordAt(data, offset) % 256 == data[offset + 31] as int
    ensures (forall i :: offset <= i < offset + 31 ==> data[i] == 0) ==> WordAt(data, offset) == data[offset + 31] as int
  {
    FromBytesIsBigEndian(data, offset, 0, 32);
    assert BigEndian(data, offset, 32) == 256 * BigEndian(data, offset, 31) + data[offset + 31] as nat;
    if forall i :: offset <= i < offset + 31 ==> data[i] == 0 { ZerosSpellZero(data, offset, 31); }
  }

  lemma {:induction false} ZerosSpellZero(data: seq<byte>, offset: nat, k: nat)
    requires offset + k <= |data| && forall i :: offset <= i < offset + k ==> data[i] == 0
    ensures BigEndian(data, offset, k) == 0
  {
    if k != 0 { ZerosSpellZero(data, offset, k - 1); }
  }

  /** What is read behind a prefix is read from the whole. */
  lemma {:induction false} FromBytesBehind(data: seq<byte>, from: nat, offset: nat, k: nat, read: nat)
    requires from + offset + k <= |data|
    ensures FromBytes(data[from..], offset, k, read) == FromBytes(data, from + offset, k, read)
    decreases k
  {
    if k != 0 { FromBytesBehind(data, from, offset + 1, k - 1, 256 * read + data[from + offset] as nat); }
  }

  /** What is read before an end is read from the whole. */
  lemma {:induction false} FromBytesAhead(data: seq<byte>, offset: nat, end: nat, k: nat, read: nat)
    requires offset + k <= end <= |data|
    ensures FromBytes(data[..end], offset, k, read) == FromBytes(data, offset, k, read)
    decreases k
  {
    if k != 0 { FromBytesAhead(data, offset + 1, end, k - 1, 256 * read + data[offset] as nat); }
  }

  lemma WordAhead(data: seq<byte>, offset: nat, end: nat)
    requires offset + 32 <= end <= |data|
    ensures WordAt(data[..end], offset) == WordAt(data, offset)
  {
    FromBytesAhead(data, offset, end, 32, 0);
  }

  lemma WordBehind(data: seq<byte>, from: nat, offset: nat)
    requires from + offset + 32 <= |data|
    ensures WordAt(data[from..], offset) == WordAt(data, from + offset)
  {
    FromBytesBehind(data, from, offset, 32, 0);
  }

  /** What lies at an offset is the word read there, and only that. */
  lemma WordHeld(data: seq<byte>, offset: nat, n: nat)
    requires FitsWord(n)
    ensures Holds(data, offset, Word(n)) <==> offset + 32 <= |data| && WordAt(data, offset) == n
  {
    if offset + 32 <= |data| {
      WordIsBigEndian(n);
      WordLimit();
      BytesRoundTrip(data, offset, 32);
      FromBytesIsBigEndian(data, offset, 0, 32);
      if Holds(data, offset, Word(n)) {
        NumberRoundTrip(data, offset, n, 32);
      }
    }
  }

  function Zeros(n: nat): (r: seq<byte>)
    ensures |r| == n
  {
    if n == 0 then [] else Zeros(n - 1) + [0]
  }

  predicate AllZero(data: seq<byte>, from: nat, to: nat)
    requires to <= |data|
  {
    forall k :: from <= k < to ==> data[k] == 0
  }

  lemma {:induction false} ZerosHeld(data: seq<byte>, at: nat, n: nat)
    ensures Holds(data, at, Zeros(n)) <==> at + n <= |data| && AllZero(data, at, at + n)
  {
    if n != 0 {
      ZerosHeld(data, at, n - 1);
      HoldsBoth(data, at, Zeros(n - 1), [0]);
      if at + n <= |data| {
        assert data[at + n - 1..at + n] == [data[at + n - 1]];
      }
    } else {
      assert at <= |data| ==> data[at..at] == [];
    }
  }

  /** A length rounded up to whole words. */
  function Padded(n: nat): (r: nat)
    ensures n <= r < n + 32
  {
    if n == 0 then 0 else if n <= 32 then 32 else 32 + Padded(n - 32)
  }

  lemma {:induction false} PaddedIsRoundedUp(n: nat)
    ensures Padded(n) == ((n + 31) / 32) * 32
  {
    if 32 < n { PaddedIsRoundedUp(n - 32); }
  }

  lemma {:induction false} PaddedIsAligned(n: nat)
    ensures Padded(n) % 32 == 0
  {
    if 32 < n { PaddedIsAligned(n - 32); }
  }

  /** Dynamic bytes: the length, the bytes, and zeros up to a whole word. */
  ghost function EncodeBytes(s: seq<byte>): (r: seq<byte>)
    ensures |r| == 32 + Padded(|s|)
  {
    Word(|s|) + (s + Zeros(Padded(|s|) - |s|))
  }

  /** Where a dynamic value that starts at `start` ends, padding included. */
  function PaddedEnd(data: seq<byte>, start: nat): nat
    requires start + 32 <= |data|
  {
    start + 32 + Padded(WordAt(data, start))
  }

  /** A dynamic value lies at `start`, inside the data and zero-padded. */
  predicate BytesAt(data: seq<byte>, start: nat) {
    && start + 32 <= |data|
    && PaddedEnd(data, start) <= |data|
    && AllZero(data, start + 32 + WordAt(data, start), PaddedEnd(data, start))
  }

  function BytesOf(data: seq<byte>, start: nat): (r: seq<byte>)
    requires BytesAt(data, start)
    ensures |r| == WordAt(data, start)
  {
    data[start + 32..start + 32 + WordAt(data, start)]
  }

  lemma HeldInParts(data: seq<byte>, start: nat, w: seq<byte>, s: seq<byte>, zeros: seq<byte>)
    ensures Holds(data, start, w + (s + zeros)) <==>
              Holds(data, start, w) && Holds(data, start + |w|, s) && Holds(data, start + |w| + |s|, zeros)
  {
    HoldsBoth(data, start, w, s + zeros);
    HoldsBoth(data, start + |w|, s, zeros);
  }

  /** A dynamic value of a length is its bytes, and the zeros up to its end, behind the word of that length. */
  lemma LaidOut(data: seq<byte>, start: nat, s: seq<byte>, padding: nat)
    requires padding == Padded(|s|) - |s|
    ensures BytesAt(data, start) && BytesOf(data, start) == s <==>
              && start + 32 <= |data| && WordAt(data, start) == |s| && Holds(data, start + 32, s)
              && start + 32 + |s| + padding <= |data| && AllZero(data, start + 32 + |s|, start + 32 + |s| + padding)
  {
    if start + 32 <= |data| && WordAt(data, start) == |s| {
      assert PaddedEnd(data, start) == start + 32 + |s| + padding;
    }
  }

  /** Dynamic bytes can be read at an offset, and are `s`, exactly when the encoding of `s` lies
      there, byte for byte. */
  lemma BytesHeld(data: seq<byte>, start: nat, s: seq<byte>)
    requires FitsWord(|s|)
    ensures Holds(data, start, EncodeBytes(s)) <==> BytesAt(data, start) && BytesOf(data, start) == s
    ensures Holds(data, start, EncodeBytes(s)) ==> PaddedEnd(data, start) == start + |EncodeBytes(s)|
  {
    var padding := Padded(|s|) - |s|;
    HeldInParts(data, start, Word(|s|), s, Zeros(padding));
    ZerosHeld(data, start + 32 + |s|, padding);
    WordHeld(data, start, |s|);
    LaidOut(data, start, s, padding);
  }
}
