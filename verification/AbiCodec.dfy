/** The hand-written ABI codec of contracts/client.go: the call data of registerConsent, the readers of the
    length-prefixed tails, and the bytes32 string conversions. */
module AbiCodec {
  import opened Basics
  import opened Bytes
  import opened Wrappers

  /** The largest allocation of a Go slice, in bytes; make panics beyond it. */
  const MAX_ALLOC: nat := 0x1_0000_0000_0000

  /** Lists that can exist as Go slices of 20-byte and 32-byte arrays. */
  predicate Allocatable(parties: seq<Address>, scopes: seq<Word>) {
    20 * |parties| <= MAX_ALLOC && WORD * |scopes| <= MAX_ALLOC
  }

  // Layout of the arguments, after the four selector bytes

  const HEAD: nat := 3 * WORD

  /** The offset the encoder writes for the scopes. */
  function WrittenScopesOffset(parties: nat): nat {
    HEAD + WORD + WORD * parties + WORD
  }

  function Arguments(parties: seq<Address>, scopes: seq<Word>, duration: nat): seq<byte> {
    NumberWord(HEAD) + NumberWord(WrittenScopesOffset(|parties|)) + NumberWord(duration)
    + List(AddressWords(parties)) + List(scopes)
  }

  method AppendParties(start: seq<byte>, parties: seq<Address>) returns (data: seq<byte>)
    ensures data == start + List(AddressWords(parties))
  {
    data := start + NumberWord(|parties|);
    for i := 0 to |parties|
      invariant data == start + NumberWord(|parties|) + Concat(AddressWords(parties)[..i])
    {
      var addrBytes := Zeros(12) + parties[i];
      data := data + addrBytes;
      assert AddressWords(parties)[..i + 1][..i] == AddressWords(parties)[..i];
    }
    assert AddressWords(parties)[..|parties|] == AddressWords(parties);
  }

  method AppendScopes(start: seq<byte>, scopes: seq<Word>) returns (data: seq<byte>)
    ensures data == start + List(scopes)
  {
    data := start + NumberWord(|scopes|);
    for i := 0 to |scopes|
      invariant data == start + NumberWord(|scopes|) + Concat(scopes[..i])
    {
      data := data + scopes[i];
      assert scopes[..i + 1][..i] == scopes[..i];
    }
    assert scopes[..|scopes|] == scopes;
  }

  lemma ArgumentsAppended(start: seq<byte>, parties: seq<Address>, scopes: seq<Word>, duration: nat,
                          partiesAt: nat, scopesAt: nat)
    requires partiesAt == HEAD && scopesAt == WrittenScopesOffset(|parties|)
    ensures start + NumberWord(partiesAt) + NumberWord(scopesAt) + NumberWord(duration) + List(AddressWords(parties))
            + List(scopes)
            == start + Arguments(parties, scopes, duration)
  {
    Reassociated(start, NumberWord(partiesAt), NumberWord(scopesAt), NumberWord(duration), List(AddressWords(parties)),
                 List(scopes));
  }

  lemma Reassociated(start: seq<byte>, a: seq<byte>, b: seq<byte>, c: seq<byte>, d: seq<byte>, e: seq<byte>)
    ensures start + a + b + c + d + e == start + (a + b + c + d + e)
  {
  }

  /** FillBytes writes the absolute value, and panics if that does not fit 32 bytes: None then. */
  method EncodeRegisterConsent(selector: seq<byte>, parties: seq<Address>, scopes: seq<Word>, duration: int)
    returns (r: Option<seq<byte>>)
    requires |selector| == 4
    ensures var written := if duration < 0 then -duration else duration;
            && (r.None? <==> written >= Pow256(WORD))
            && (r.Some? ==> r.value == selector + Arguments(parties, scopes, written))
  {
    var written := if duration < 0 then -duration else duration;
    if written >= Pow256(WORD) {
      return None;
    }
    var data := selector;
    var dynOffset := WORD + WORD + WORD;
    data := data + NumberWord(dynOffset);
    var scopesDynamicOffset := dynOffset + WORD + |parties| * WORD + WORD;
    data := data + NumberWord(scopesDynamicOffset);
    data := data + NumberWord(written);

    data := AppendParties(data, parties);
    data := AppendScopes(data, scopes);
    ArgumentsAppended(selector, parties, scopes, written, dynOffset, scopesDynamicOffset);
    return Some(data);
  }

  // The tail readers

  /** Entry i of a tail, left zero when the tail is too short for it. */
  function EntryAt(tail: seq<byte>, i: nat): Word {
    var start := WORD + i * WORD;
    if start + WORD <= |tail| then tail[start..start + WORD] else Zeros(WORD)
  }

  /** The number of entries a tail announces, of `size` bytes each; None where make panics. */
  function Announced(tail: seq<byte>, size: nat): Option<nat>
    requires WORD <= |tail|
  {
    var count := FromBigEndian(tail[..WORD]) % UINT64;
    if count * size > MAX_ALLOC then None else Some(count)
  }

  function Entries(tail: seq<byte>, count: nat): seq<Word> {
    seq(count, i requires 0 <= i => EntryAt(tail, i))
  }

  function AddressAt(tail: seq<byte>, i: nat): Address {
    EntryAt(tail, i)[12..]
  }

  function AddressEntries(tail: seq<byte>, count: nat): seq<Address> {
    seq(count, i requires 0 <= i => AddressAt(tail, i))
  }

  /** The scopes at an offset; None where slicing or make panics. */
  function ReadWords(data: seq<byte>, offset: nat): Option<seq<Word>> {
    if offset > |data| then None
    else if |data| - offset < WORD then Some([])
    else
      var tail := data[offset..];
      match Announced(tail, WORD)
      case None => None
      case Some(count) => Some(Entries(tail, count))
  }

  function ReadAddresses(data: seq<byte>, offset: nat): Option<seq<Address>> {
    if offset > |data| then None
    else if |data| - offset < WORD then Some([])
    else
      var tail := data[offset..];
      match Announced(tail, 20)
      case None => None
      case Some(count) => Some(AddressEntries(tail, count))
  }

  /** The loop of decodeConsentData over one tail. */
  method DecodeScopes(data: seq<byte>, offset: nat) returns (r: Option<seq<Word>>)
    ensures r == ReadWords(data, offset)
  {
    if offset > |data| {
      return None;
    }
    var tail := data[offset..];
    if |tail| < WORD {
      return Some([]);
    }
    var count := FromBigEndian(tail[..WORD]) % UINT64;
    if count * WORD > MAX_ALLOC {
      return None;
    }
    var result: seq<Word> := seq(count, _ => Zeros(WORD));
    for i := 0 to count
      invariant |result| == count
      invariant forall j | 0 <= j < i :: result[j] == EntryAt(tail, j)
      invariant forall j | i <= j < count :: result[j] == Zeros(WORD)
    {
      var start := WORD + i * WORD;
      if start + WORD <= |tail| {
        result := result[i := tail[start..start + WORD]];
      }
    }
    assert result == Entries(tail, count);
    return Some(result);
  }

  /** What the reader does with any data and any offset: it panics where the offset is beyond the end or the announced
      list cannot be allocated; it announces as many entries as the low 64 bits of the length word say, fills those
      that lie within the data, and leaves the others zero. */
  lemma TailReads(data: seq<byte>, offset: nat)
    ensures var r := ReadWords(data, offset);
            if offset > |data| then r == None
            else if |data| < offset + 32 then r == Some([])
            else
              var count := FromBigEndian(data[offset..offset + 32]) % 0x1_0000_0000_0000_0000;
              if count * 32 > MAX_ALLOC then r == None
              else
                && r.Some? && |r.value| == count
                && forall i | 0 <= i < count ::
                     var at := offset + 32 + i * 32;
                     r.value[i] == if at + 32 <= |data| then data[at..at + 32] else Zeros(32)
  {
    if offset + 32 <= |data| {
      var tail := data[offset..];
      assert tail[..WORD] == data[offset..offset + 32];
      forall i: nat | offset + 32 + i * 32 + 32 <= |data|
        ensures EntryAt(tail, i) == data[offset + 32 + i * 32..offset + 32 + i * 32 + 32]
      {
        assert tail[WORD + i * WORD..WORD + i * WORD + WORD] == data[offset + 32 + i * 32..offset + 32 + i * 32 + 32];
      }
    }
  }

  /** The reader of addresses is the same with the last 20 bytes of each entry, and entries of 20 bytes to allocate. */
  lemma AddressTailReads(data: seq<byte>, offset: nat, count: nat)
    requires offset + 32 <= |data| && count == FromBigEndian(data[offset..offset + 32]) % 0x1_0000_0000_0000_0000
    ensures ReadAddresses(data, offset)
            == if count * 20 > MAX_ALLOC then None
               else Some(seq(count, i requires 0 <= i => EntryAt(data[offset..], i)[12..]))
  {
    assert data[offset..][..WORD] == data[offset..offset + 32];
    if count * 20 <= MAX_ALLOC {
      assert AddressEntries(data[offset..], count)
          == seq(count, i requires 0 <= i => EntryAt(data[offset..], i)[12..]);
    }
  }

  lemma ListEntries(ws: seq<Word>, rest: seq<byte>, i: nat)
    requires i < |ws|
    ensures EntryAt(List(ws) + rest, i) == ws[i]
  {
    ConcatAt(ws, i);
    var tail := List(ws) + rest;
    assert tail[WORD..WORD + WORD * |ws|] == Concat(ws);
    assert tail[WORD + i * WORD..WORD + i * WORD + WORD] == Concat(ws)[WORD * i..WORD * i + WORD];
  }

  lemma ListAnnounces(ws: seq<Word>, rest: seq<byte>, size: nat)
    requires |ws| * size <= MAX_ALLOC && |ws| <= MAX_ALLOC
    ensures Announced(List(ws) + rest, size) == Some(|ws|)
  {
    var n, tail := |ws|, List(ws) + rest;
    WordRead(n);
    assert tail[..WORD] == NumberWord(n);
    assert n % UINT64 == n;
  }

  /** Reading a list where it was written gives the list back. */
  lemma ReadWordsList(before: seq<byte>, ws: seq<Word>, rest: seq<byte>)
    requires WORD * |ws| <= MAX_ALLOC
    ensures ReadWords(before + List(ws) + rest, |before|) == Some(ws)
  {
    var data := before + List(ws) + rest;
    var tail := List(ws) + rest;
    assert data[|before|..] == tail;
    ListAnnounces(ws, rest, WORD);
    forall i | 0 <= i < |ws| ensures EntryAt(tail, i) == ws[i] {
      ListEntries(ws, rest, i);
    }
    assert Entries(tail, |ws|) == ws;
  }

  lemma ReadAddressesList(before: seq<byte>, xs: seq<Address>, rest: seq<byte>)
    requires 20 * |xs| <= MAX_ALLOC
    ensures ReadAddresses(before + List(AddressWords(xs)) + rest, |before|) == Some(xs)
  {
    var ws := AddressWords(xs);
    var data := before + List(ws) + rest;
    var tail := List(ws) + rest;
    assert data[|before|..] == tail;
    ListAnnounces(ws, rest, 20);
    forall i | 0 <= i < |xs| ensures AddressAt(tail, i) == xs[i] {
      ListEntries(ws, rest, i);
    }
    assert AddressEntries(tail, |xs|) == xs;
  }

  // Round trips

  lemma HeadWords(parties: seq<Address>, scopes: seq<Word>, duration: nat)
    requires Allocatable(parties, scopes) && duration < Pow256(WORD)
    ensures var args := Arguments(parties, scopes, duration);
            && |args| == WrittenScopesOffset(|parties|) + WORD * |scopes|
            && FromBigEndian(args[..WORD]) == HEAD
            && FromBigEndian(args[WORD..2 * WORD]) == WrittenScopesOffset(|parties|)
            && FromBigEndian(args[2 * WORD..3 * WORD]) == duration
  {
    var args := Arguments(parties, scopes, duration);
    assert args[..WORD] == NumberWord(HEAD);
    assert args[WORD..2 * WORD] == NumberWord(WrittenScopesOffset(|parties|));
    assert args[2 * WORD..3 * WORD] == NumberWord(duration);
    WordRead(HEAD);
    WordRead(WrittenScopesOffset(|parties|));
    BigEndianRead(duration, WORD);
  }

  /** Parties and duration survive the round trip through the offset the encoder writes, whatever the lists. */
  lemma PartiesRoundTrip(parties: seq<Address>, scopes: seq<Word>, duration: nat, args: seq<byte>)
    requires Allocatable(parties, scopes) && duration < Pow256(WORD) && args == Arguments(parties, scopes, duration)
    ensures |args| >= HEAD
    ensures ReadAddresses(args, FromBigEndian(args[..WORD])) == Some(parties)
    ensures FromBigEndian(args[2 * WORD..3 * WORD]) == duration
  {
    HeadWords(parties, scopes, duration);
    var head := NumberWord(HEAD) + NumberWord(WrittenScopesOffset(|parties|)) + NumberWord(duration);
    ReadAddressesList(head, parties, List(scopes));
    assert args == head + List(AddressWords(parties)) + List(scopes);
  }

  /** The scopes survive it when they are read where the ABI specification puts them ... */
  lemma ScopesRoundTrip(parties: seq<Address>, scopes: seq<Word>, duration: nat)
    requires Allocatable(parties, scopes) && duration < Pow256(WORD)
    ensures ReadWords(Arguments(parties, scopes, duration), 128 + 32 * |parties|) == Some(scopes)
  {
    var before := NumberWord(HEAD) + NumberWord(WrittenScopesOffset(|parties|)) + NumberWord(duration)
                  + List(AddressWords(parties));
    ReadWordsList(before, scopes, []);
    assert Arguments(parties, scopes, duration) == before + List(scopes) + [];
  }

  /** ... but the offset in the call data points exactly one word beyond that place. */
  lemma WrittenOffsetIsOneWordTooFar(parties: seq<Address>, scopes: seq<Word>, duration: nat, args: seq<byte>)
    requires Allocatable(parties, scopes) && duration < Pow256(WORD) && args == Arguments(parties, scopes, duration)
    ensures |args| >= 96 && FromBigEndian(args[32..64]) == 128 + 32 * |parties| + 32
  {
    HeadWords(parties, scopes, duration);
  }

  lemma {:induction false} FromZeros(n: nat)
    ensures FromBigEndian(Zeros(n)) == 0
  {
    if n > 0 {
      assert Zeros(n)[..n - 1] == Zeros(n - 1);
      FromZeros(n - 1);
    }
  }

  lemma {:induction false} ShiftedIsConstant(ws: seq<Word>, i: nat)
    requires i < |ws| && forall j | 0 <= j < |ws| - 1 :: ws[j] == ws[j + 1]
    ensures ws[i] == ws[|ws| - 1]
    decreases |ws| - i
  {
    if i < |ws| - 1 {
      ShiftedIsConstant(ws, i + 1);
    }
  }

  /** The entries after the first scope, taken as a list, are the scopes shifted by one, and a zero word. */
  lemma ShiftedEntry(ws: seq<Word>, tail: seq<byte>, i: nat)
    requires i < |ws| && tail == Concat(ws)
    ensures EntryAt(tail, i) == if i + 1 < |ws| then ws[i + 1] else Zeros(WORD)
  {
    var start := WORD + i * WORD;
    assert start == WORD * (i + 1);
    if i + 1 < |ws| {
      ConcatAt(ws, i + 1);
      assert tail[start..start + WORD] == ws[i + 1];
    } else {
      assert start == |tail|;
    }
  }

  /** A reader that lands on the first scope takes it for the length, and never gets the scopes back. */
  lemma SkippedLengthIsNeverRecovered(before: seq<byte>, ws: seq<Word>)
    requires ws != []
    ensures ReadWords(before + Concat(ws), |before|) != Some(ws)
  {
    var tail, n := Concat(ws), |ws|;
    assert (before + tail)[|before|..] == tail;
    if ReadWords(before + tail, |before|) == Some(ws) {
      assert ws == Entries(tail, FromBigEndian(tail[..WORD]) % UINT64);
      forall j | 0 <= j < n ensures ws[j] == if j + 1 < n then ws[j + 1] else Zeros(WORD) {
        ShiftedEntry(ws, tail, j);
      }
      ShiftedIsConstant(ws, 0);
      ConcatAt(ws, 0);
      FromZeros(WORD);
    }
  }

  /** Read through the written offset, the scopes come back if and only if there are none. */
  lemma ScopesThroughWrittenOffset(parties: seq<Address>, scopes: seq<Word>, duration: nat, args: seq<byte>)
    requires Allocatable(parties, scopes) && duration < Pow256(WORD) && args == Arguments(parties, scopes, duration)
    ensures |args| >= HEAD
    ensures ReadWords(args, FromBigEndian(args[WORD..2 * WORD])) == Some(scopes) <==> scopes == []
  {
    HeadWords(parties, scopes, duration);
    var before := NumberWord(HEAD) + NumberWord(WrittenScopesOffset(|parties|)) + NumberWord(duration)
                  + List(AddressWords(parties)) + NumberWord(|scopes|);
    assert args == before + Concat(scopes);
    if scopes != [] {
      SkippedLengthIsNeverRecovered(before, scopes);
    }
  }

  // Strings in bytes32

  function StringToBytes32(s: seq<byte>): Word {
    if |s| >= WORD then s[..WORD] else s + Zeros(WORD - |s|)
  }

  /** The word holds the first 32 bytes of the string, and zeros after it. */
  lemma StringIsKept(s: seq<byte>)
    ensures forall i | 0 <= i < 32 :: StringToBytes32(s)[i] == if i < |s| then s[i] else 0
  {
  }

  function TrimRight(s: seq<byte>): seq<byte> {
    if s != [] && s[|s| - 1] == 0 then TrimRight(s[..|s| - 1]) else s
  }

  function Bytes32ToString(b: Word): seq<byte> {
    TrimRight(b)
  }

  lemma {:induction false} TrimRightSplit(s: seq<byte>)
    ensures |TrimRight(s)| <= |s| && s == TrimRight(s) + Zeros(|s| - |TrimRight(s)|)
    ensures TrimRight(s) != [] ==> TrimRight(s)[|TrimRight(s)| - 1] != 0
  {
    if s != [] && s[|s| - 1] == 0 {
      TrimRightSplit(s[..|s| - 1]);
      assert s == s[..|s| - 1] + [0];
    }
  }

  lemma {:induction false} TrimRightPadded(s: seq<byte>, n: nat)
    requires s != [] ==> s[|s| - 1] != 0
    ensures TrimRight(s + Zeros(n)) == s
  {
    if n == 0 {
      assert s + Zeros(0) == s;
    } else {
      assert (s + Zeros(n))[..|s| + n - 1] == s + Zeros(n - 1);
      TrimRightPadded(s, n - 1);
    }
  }

  /** A string comes back from bytes32 exactly when it has at most 32 bytes and does not end in a zero byte; a word
      always comes back from its string. */
  lemma Bytes32RoundTrips(s: seq<byte>, b: Word)
    ensures Bytes32ToString(StringToBytes32(s)) == s <==> |s| <= WORD && (s != [] ==> s[|s| - 1] != 0)
    ensures StringToBytes32(Bytes32ToString(b)) == b
  {
    TrimRightSplit(b);
    TrimRightSplit(StringToBytes32(s));
    if |s| <= WORD && (s != [] ==> s[|s| - 1] != 0) {
      TrimRightPadded(s, WORD - |s|);
      assert StringToBytes32(s) == s + Zeros(WORD - |s|);
    }
  }
}
