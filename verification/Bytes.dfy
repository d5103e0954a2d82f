/** Byte strings, big-endian and little-endian numbers, and 32-byte words. */
module Bytes {

  type byte = x: int | 0 <= x < 256

  const WORD: nat := 32

  type Word = w: seq<byte> | |w| == WORD witness seq(WORD, _ => 0)

  type Address = a: seq<byte> | |a| == 20 witness seq(20, _ => 0)

  function Zeros(n: nat): seq<byte> {
    seq(n, _ => 0)
  }

  function Pow256(k: nat): nat {
    if k == 0 then 1 else 256 * Pow256(k - 1)
  }

  // Numbers as bytes

  function BigEndian(n: nat, k: nat): (bs: seq<byte>)
    ensures |bs| == k
  {
    if k == 0 then [] else BigEndian(n / 256, k - 1) + [n % 256]
  }

  function FromBigEndian(bs: seq<byte>): nat {
    if bs == [] then 0 else 256 * FromBigEndian(bs[..|bs| - 1]) + bs[|bs| - 1]
  }

  lemma {:induction false} BigEndianRead(n: nat, k: nat)
    requires n < Pow256(k)
    ensures FromBigEndian(BigEndian(n, k)) == n
  {
    if k > 0 {
      BigEndianRead(n / 256, k - 1);
      assert BigEndian(n, k)[..k - 1] == BigEndian(n / 256, k - 1);
    }
  }

  function LittleEndian(n: nat, k: nat): (bs: seq<byte>)
    ensures |bs| == k
  {
    if k == 0 then [] else [n % 256] + LittleEndian(n / 256, k - 1)
  }

  function FromLittleEndian(bs: seq<byte>): nat {
    if bs == [] then 0 else bs[0] + 256 * FromLittleEndian(bs[1..])
  }

  lemma {:induction false} LittleEndianRead(n: nat, k: nat)
    requires n < Pow256(k)
    ensures FromLittleEndian(LittleEndian(n, k)) == n
  {
    if k > 0 {
      LittleEndianRead(n / 256, k - 1);
    }
  }

  lemma {:induction false} LittleEndianBound(bs: seq<byte>)
    ensures FromLittleEndian(bs) < Pow256(|bs|)
  {
    if bs != [] {
      LittleEndianBound(bs[1..]);
    }
  }

  lemma {:induction false} Pow256Grows(j: nat, k: nat)
    requires j <= k
    ensures 1 <= Pow256(j) <= Pow256(k)
  {
    if j < k {
      Pow256Grows(j, k - 1);
    } else if j > 0 {
      Pow256Grows(j - 1, j - 1);
    }
  }

  /** A number below 2^64 fits a word. */
  lemma WordRead(n: nat)
    requires n < 0x1_0000_0000_0000_0000
    ensures FromBigEndian(BigEndian(n, WORD)) == n
  {
    Pow256Grows(8, WORD);
    assert Pow256(8) == 0x1_0000_0000_0000_0000;
    BigEndianRead(n, WORD);
  }

  // Sequences of words

  function Concat(ws: seq<Word>): (bs: seq<byte>)
    ensures |bs| == WORD * |ws|
  {
    if ws == [] then [] else Concat(ws[..|ws| - 1]) + ws[|ws| - 1]
  }

  lemma {:induction false} ConcatAt(ws: seq<Word>, i: nat)
    requires i < |ws|
    ensures Concat(ws)[WORD * i..WORD * i + WORD] == ws[i]
  {
    if i < |ws| - 1 {
      var n := |ws| - 1;
      ConcatAt(ws[..n], i);
      assert Concat(ws)[..WORD * n] == Concat(ws[..n]);
      assert Concat(ws)[WORD * i..WORD * i + WORD] == Concat(ws)[..WORD * n][WORD * i..WORD * i + WORD];
    }
  }

  /** Concatenation of words loses nothing. */
  lemma ConcatInjective(xs: seq<Word>, ys: seq<Word>)
    requires Concat(xs) == Concat(ys)
    ensures xs == ys
  {
    forall i | 0 <= i < |xs| ensures xs[i] == ys[i] {
      ConcatAt(xs, i);
      ConcatAt(ys, i);
    }
  }

  function NumberWord(n: nat): Word {
    BigEndian(n, WORD)
  }

  /** A list behind its length, as in the ABI encoding of dynamic arrays. */
  function List(ws: seq<Word>): seq<byte> {
    NumberWord(|ws|) + Concat(ws)
  }

  lemma FiveWords(a: Word, b: Word, c: Word, d: Word, e: Word, data: seq<byte>)
    requires a + b + c + d + e <= data
    ensures |data| >= 160 && data[..32] == a && data[32..64] == b && data[64..96] == c && data[96..128] == d
    ensures data[128..160] == e
  {
    var head := a + b + c + d + e;
    assert data[..32] == head[..32] && data[32..64] == head[32..64] && data[64..96] == head[64..96];
    assert data[96..128] == head[96..128] && data[128..160] == head[128..160];
  }

  function AddressWord(a: Address): Word {
    Zeros(12) + a
  }

  function AddressWords(xs: seq<Address>): (ws: seq<Word>)
    ensures |ws| == |xs|
    ensures forall i | 0 <= i < |xs| :: ws[i] == AddressWord(xs[i])
  {
    seq(|xs|, i requires 0 <= i < |xs| => AddressWord(xs[i]))
  }

  lemma AddressWordsInjective(xs: seq<Address>, ys: seq<Address>)
    requires AddressWords(xs) == AddressWords(ys)
    ensures xs == ys
  {
    forall i | 0 <= i < |xs| ensures xs[i] == ys[i] {
      assert AddressWords(xs)[i][12..] == xs[i] && AddressWords(ys)[i][12..] == ys[i];
    }
  }
}
