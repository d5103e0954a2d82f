/** How handleConsentRegistered reads the data of an event: offsets and counts are uint64 and wrap, bounds are compared
    as int, and a slice out of bounds panics. */
module EventData {
  import opened Basics
  import opened Bytes
  import opened Wrappers
  import AbiCodec

  const INT64_MAX: nat := 0x7fff_ffff_ffff_ffff

  /** The two lists of an event: addresses, and words read as strings. */
  datatype Kind = Party | Scope

  datatype Fields = Fields(parties: seq<seq<byte>>, scopes: seq<seq<byte>>, validFrom: nat, validUntil: nat)

  /** big.Int.SetBytes(bs).Uint64(). */
  function Low64(bs: seq<byte>): (n: nat)
    ensures n < UINT64
  {
    FromBigEndian(bs) % UINT64
  }

  /** The guard int(x + 32) <= len(data). */
  predicate InBounds(data: seq<byte>, x: nat) {
    Signed64(x + WORD) <= |data|
  }

  /** data[lo:hi], None where it panics. */
  function Slice(data: seq<byte>, lo: nat, hi: nat): Option<seq<byte>> {
    if lo <= hi <= |data| then Some(data[lo..hi]) else None
  }

  function ReadWord(data: seq<byte>, x: nat): Option<seq<byte>> {
    Slice(data, x, (x + WORD) % UINT64)
  }

  /** One entry of a list: the last 20 bytes of its word, or the word without trailing zero bytes. */
  function ReadEntry(kind: Kind, data: seq<byte>, x: nat): Option<seq<byte>> {
    match kind
    case Party => Slice(data, (x + 12) % UINT64, (x + WORD) % UINT64)
    case Scope => match ReadWord(data, x) case None => None case Some(w) => Some(AbiCodec.TrimRight(w))
  }

  function Start(offset: nat, i: nat): nat {
    (offset + WORD + i * WORD) % UINT64
  }

  /** The loop over a list after n entries; an entry that is out of bounds is left out. */
  function Collect(kind: Kind, data: seq<byte>, offset: nat, n: nat): Option<seq<seq<byte>>> {
    if n == 0 then Some([])
    else
      match Collect(kind, data, offset, n - 1)
      case None => None
      case Some(xs) =>
        if !InBounds(data, Start(offset, n - 1)) then Some(xs)
        else
          match ReadEntry(kind, data, Start(offset, n - 1))
          case None => None
          case Some(x) => Some(xs + [x])
  }

  function ReadList(kind: Kind, data: seq<byte>, offset: nat): Option<seq<seq<byte>>> {
    if !InBounds(data, offset) then Some([])
    else
      match ReadWord(data, offset)
      case None => None
      case Some(w) => Collect(kind, data, offset, Low64(w))
  }

  /** None where the handler panics. */
  function Decode(data: seq<byte>): Option<Fields>
    requires |data| >= 128
  {
    match ReadList(Party, data, Low64(data[32..64]))
    case None => None
    case Some(parties) =>
      match ReadList(Scope, data, Low64(data[64..96]))
      case None => None
      case Some(scopes) =>
        Some(Fields(parties, scopes, Low64(data[96..128]), if |data| >= 160 then Low64(data[128..160]) else 0))
  }

  lemma {:induction false} PanicSticks(kind: Kind, data: seq<byte>, offset: nat, m: nat, n: nat)
    requires m <= n && Collect(kind, data, offset, m).None?
    ensures Collect(kind, data, offset, n).None?
  {
    if m < n {
      PanicSticks(kind, data, offset, m, n - 1);
    }
  }

  /** One of the two list loops of the handler. */
  method DecodeList(kind: Kind, data: seq<byte>, offset: nat) returns (r: Option<seq<seq<byte>>>)
    ensures r == ReadList(kind, data, offset)
  {
    if !InBounds(data, offset) {
      return Some([]);
    }
    var word := ReadWord(data, offset);
    if word.None? {
      return None;
    }
    var list: seq<seq<byte>> := [];
    for i := 0 to Low64(word.value)
      invariant Collect(kind, data, offset, i) == Some(list)
    {
      var start := Start(offset, i);
      if InBounds(data, start) {
        var entry := ReadEntry(kind, data, start);
        if entry.None? {
          PanicSticks(kind, data, offset, i + 1, Low64(word.value));
          return None;
        }
        list := list + [entry.value];
      }
    }
    return Some(list);
  }

  // What the loops read, and when they panic

  /** Whole words from position x to the end of the data. */
  function Room(data: seq<byte>, x: nat): nat {
    if x <= |data| then (|data| - x) / WORD else 0
  }

  /** Entry i of the list at an offset within the data. */
  function EntryAt(kind: Kind, data: seq<byte>, offset: nat, i: nat): seq<byte>
    requires offset + WORD + i * WORD + WORD <= |data|
  {
    var x := offset + WORD + i * WORD;
    match kind
    case Party => data[x + 12..x + WORD]
    case Scope => AbiCodec.TrimRight(data[x..x + WORD])
  }

  /** What one turn of the loop does at position x, which has not passed the largest int64. */
  lemma OneEntry(kind: Kind, data: seq<byte>, x: nat)
    requires |data| <= INT64_MAX && x <= INT64_MAX
    ensures InBounds(data, x) <==> x + WORD <= |data| || x + WORD > INT64_MAX
    ensures x + WORD <= |data| ==>
              ReadEntry(kind, data, x)
              == Some(match kind
                      case Party => data[x + 12..x + WORD]
                      case Scope => AbiCodec.TrimRight(data[x..x + WORD]))
    ensures x + WORD > INT64_MAX ==> ReadEntry(kind, data, x).None?
  {
  }

  lemma RoomFor(data: seq<byte>, x: nat, n: nat)
    requires x <= |data|
    ensures n <= Room(data, x) <==> x + n * WORD <= |data|
  {
  }

  /** The list holds the first n entries, as far as they lie within the data. */
  predicate Holds(kind: Kind, data: seq<byte>, offset: nat, n: nat, xs: seq<seq<byte>>) {
    && |xs| == Min(n, Room(data, offset + WORD))
    && forall i | 0 <= i < |xs| ::
         offset + WORD + i * WORD + WORD <= |data| && xs[i] == EntryAt(kind, data, offset, i)
  }

  lemma HoldsMore(kind: Kind, data: seq<byte>, offset: nat, n: nat, xs: seq<seq<byte>>)
    requires offset + WORD <= |data| && Holds(kind, data, offset, n, xs)
    ensures var x := offset + WORD + n * WORD;
            if x + WORD <= |data| then Holds(kind, data, offset, n + 1, xs + [EntryAt(kind, data, offset, n)])
            else Holds(kind, data, offset, n + 1, xs)
  {
    RoomFor(data, offset + WORD, n);
    RoomFor(data, offset + WORD, n + 1);
  }

  lemma CollectStep(kind: Kind, data: seq<byte>, offset: nat, n: nat, x: nat)
    requires Collect(kind, data, offset, n).Some?
    requires x == offset + WORD + n * WORD <= INT64_MAX && |data| <= INT64_MAX
    ensures var xs := Collect(kind, data, offset, n).value;
            Collect(kind, data, offset, n + 1)
            == if x + WORD > INT64_MAX then None
               else if x + WORD <= |data| then Some(xs + [EntryAt(kind, data, offset, n)])
               else Some(xs)
  {
    assert Start(offset, n) == x;
    OneEntry(kind, data, x);
  }

  lemma {:induction false} CollectReads(kind: Kind, data: seq<byte>, offset: nat, n: nat)
    requires offset + WORD <= |data| <= INT64_MAX
    ensures var r := Collect(kind, data, offset, n);
            && (r.None? <==> offset + WORD + n * WORD > INT64_MAX)
            && (r.Some? ==> Holds(kind, data, offset, n, r.value))
  {
    if n > 0 {
      CollectReads(kind, data, offset, n - 1);
      var before := Collect(kind, data, offset, n - 1);
      if before.Some? {
        CollectStep(kind, data, offset, n - 1, offset + WORD + (n - 1) * WORD);
        HoldsMore(kind, data, offset, n - 1, before.value);
      }
    }
  }

  lemma OffsetTooLarge(data: seq<byte>, offset: nat)
    requires 128 <= |data| <= INT64_MAX && INT64_MAX - WORD < offset < UINT64
    ensures InBounds(data, offset) && ReadWord(data, offset).None?
  {
  }

  lemma OffsetFits(data: seq<byte>, offset: nat)
    requires offset + WORD <= INT64_MAX
    ensures InBounds(data, offset) <==> offset + WORD <= |data|
    ensures offset + WORD <= |data| ==> ReadWord(data, offset) == Some(data[offset..offset + WORD])
  {
  }

  /** A list is read as its announced entries, as far as they lie within the data, for any offset and any announced
      count; except that the handler panics exactly if the offset, or the position after the last announced entry, is
      so large that it turns negative as an int. */
  lemma ListReads(kind: Kind, data: seq<byte>, offset: nat)
    requires 128 <= |data| <= INT64_MAX && offset < UINT64
    ensures var r := ReadList(kind, data, offset);
            if offset + WORD > INT64_MAX then r.None?
            else if offset + WORD > |data| then r == Some([])
            else
              var n := Low64(data[offset..offset + WORD]);
              && (r.None? <==> offset + WORD + n * WORD > INT64_MAX)
              && (r.Some? ==> Holds(kind, data, offset, n, r.value))
  {
    if offset + WORD > INT64_MAX {
      OffsetTooLarge(data, offset);
    } else {
      OffsetFits(data, offset);
      if offset + WORD <= |data| {
        CollectReads(kind, data, offset, Low64(data[offset..offset + WORD]));
      }
    }
  }

  // Round trip

  /** The ABI encoding of (bytes32, address[], bytes32[], uint256, uint256), the event that the indexer decodes. */
  function Encode(id: Word, parties: seq<Address>, scopes: seq<Word>, validFrom: nat, validUntil: nat): seq<byte> {
    id + NumberWord(5 * WORD) + NumberWord(6 * WORD + WORD * |parties|) + NumberWord(validFrom) + NumberWord(validUntil)
    + List(AddressWords(parties)) + List(scopes)
  }

  lemma EntryWord(before: seq<byte>, ws: seq<Word>, rest: seq<byte>, data: seq<byte>, i: nat)
    requires data == before + List(ws) + rest && i < |ws|
    ensures |before| + WORD + i * WORD + WORD <= |data|
    ensures data[|before| + WORD + i * WORD..|before| + WORD + i * WORD + WORD] == ws[i]
  {
    ConcatAt(ws, i);
    var at := |before| + WORD;
    assert data[at..at + WORD * |ws|] == Concat(ws);
    assert WORD * i + WORD <= WORD * |ws|;
    assert data[at + WORD * i..at + WORD * i + WORD] == data[at..at + WORD * |ws|][WORD * i..WORD * i + WORD];
  }

  /** A word as an entry of a list. */
  function WordEntry(kind: Kind, w: Word): seq<byte> {
    match kind
    case Party => w[12..]
    case Scope => AbiCodec.TrimRight(w)
  }

  lemma EntryIs(kind: Kind, before: seq<byte>, ws: seq<Word>, rest: seq<byte>, data: seq<byte>, i: nat)
    requires data == before + List(ws) + rest && i < |ws|
    ensures |before| + WORD + i * WORD + WORD <= |data|
    ensures EntryAt(kind, data, |before|, i) == WordEntry(kind, ws[i])
  {
    EntryWord(before, ws, rest, data, i);
    var x := |before| + WORD + i * WORD;
    assert data[x + 12..x + WORD] == data[x..x + WORD][12..];
  }

  lemma CountIs(before: seq<byte>, ws: seq<Word>, rest: seq<byte>, data: seq<byte>)
    requires data == before + List(ws) + rest && |data| <= INT64_MAX
    ensures |before| + WORD + WORD * |ws| <= |data|
    ensures Low64(data[|before|..|before| + WORD]) == |ws|
  {
    assert data[|before|..|before| + WORD] == NumberWord(|ws|);
    WordRead(|ws|);
  }

  /** An encoded list is read where it begins. */
  lemma ListAt(kind: Kind, before: seq<byte>, ws: seq<Word>, rest: seq<byte>, data: seq<byte>)
    requires data == before + List(ws) + rest && 128 <= |data| <= INT64_MAX
    ensures var r := ReadList(kind, data, |before|);
            && r.Some? && |r.value| == |ws|
            && forall i | 0 <= i < |ws| :: r.value[i] == WordEntry(kind, ws[i])
  {
    CountIs(before, ws, rest, data);
    ListReads(kind, data, |before|);
    RoomFor(data, |before| + WORD, |ws|);
    var r := ReadList(kind, data, |before|);
    forall i | 0 <= i < |ws| ensures r.value[i] == WordEntry(kind, ws[i]) {
      EntryIs(kind, before, ws, rest, data, i);
    }
  }

  lemma HeadWords(id: Word, parties: seq<Address>, scopes: seq<Word>, validFrom: nat, validUntil: nat, data: seq<byte>,
                  partiesAt: nat)
    requires data == Encode(id, parties, scopes, validFrom, validUntil) && partiesAt == 5 * WORD
    ensures |data| >= 160 + WORD * |parties| + 2 * WORD && data[..32] == id && data[32..64] == NumberWord(partiesAt)
    ensures data[64..96] == NumberWord(partiesAt + WORD + WORD * |parties|)
    ensures data[96..128] == NumberWord(validFrom) && data[128..160] == NumberWord(validUntil)
  {
    FiveWords(id, NumberWord(partiesAt), NumberWord(partiesAt + WORD + WORD * |parties|), NumberWord(validFrom),
              NumberWord(validUntil), data);
  }

  lemma NumberRead(n: nat, w: seq<byte>)
    requires w == NumberWord(n) && n < UINT64
    ensures Low64(w) == n
  {
    WordRead(n);
  }

  lemma EncodedOffsets(id: Word, parties: seq<Address>, scopes: seq<Word>, validFrom: nat, validUntil: nat,
                       data: seq<byte>,
                       partiesAt: nat)
    requires data == Encode(id, parties, scopes, validFrom, validUntil) && |data| <= INT64_MAX && partiesAt == 5 * WORD
    ensures |data| >= 160 && data[..WORD] == id
    ensures Low64(data[32..64]) == partiesAt && Low64(data[64..96]) == partiesAt + WORD + WORD * |parties|
  {
    HeadWords(id, parties, scopes, validFrom, validUntil, data, partiesAt);
    NumberRead(partiesAt, data[32..64]);
    NumberRead(partiesAt + WORD + WORD * |parties|, data[64..96]);
  }

  lemma EncodedTimes(id: Word, parties: seq<Address>, scopes: seq<Word>, validFrom: nat, validUntil: nat,
                     data: seq<byte>)
    requires data == Encode(id, parties, scopes, validFrom, validUntil)
    requires validFrom < Pow256(WORD) && validUntil < Pow256(WORD)
    ensures |data| >= 160
    ensures Low64(data[96..128]) == validFrom % UINT64 && Low64(data[128..160]) == validUntil % UINT64
  {
    HeadWords(id, parties, scopes, validFrom, validUntil, data, 5 * WORD);
    BigEndianRead(validFrom, WORD);
    BigEndianRead(validUntil, WORD);
  }

  lemma EncodedParties(id: Word, parties: seq<Address>, scopes: seq<Word>, validFrom: nat, validUntil: nat,
                       data: seq<byte>)
    requires data == Encode(id, parties, scopes, validFrom, validUntil) && |data| <= INT64_MAX
    ensures |data| >= 160 && ReadList(Party, data, 5 * WORD) == Some(parties)
  {
    var head := id + NumberWord(5 * WORD) + NumberWord(6 * WORD + WORD * |parties|) + NumberWord(validFrom)
                + NumberWord(validUntil);
    ListAt(Party, head, AddressWords(parties), List(scopes), data);
    var read := ReadList(Party, data, 5 * WORD).value;
    forall i | 0 <= i < |parties| ensures read[i] == parties[i] {
      assert AddressWord(parties[i])[12..] == parties[i];
    }
    assert read == parties;
  }

  lemma ScopesBegin(id: Word, parties: seq<Address>, scopes: seq<Word>, validFrom: nat, validUntil: nat,
                    data: seq<byte>) returns (head: seq<byte>)
    requires data == Encode(id, parties, scopes, validFrom, validUntil)
    ensures |head| == 6 * WORD + WORD * |parties| && |data| >= 160 && data == head + List(scopes) + []
  {
    head := id + NumberWord(5 * WORD) + NumberWord(6 * WORD + WORD * |parties|) + NumberWord(validFrom)
            + NumberWord(validUntil) + List(AddressWords(parties));
  }

  lemma ScopesAt(head: seq<byte>, scopes: seq<Word>, data: seq<byte>, at: nat)
    requires data == head + List(scopes) + [] && 128 <= |data| <= INT64_MAX && at == |head|
    ensures ReadList(Scope, data, at).Some?
    ensures var r := ReadList(Scope, data, at).value;
            |r| == |scopes| && forall i | 0 <= i < |scopes| :: r[i] == AbiCodec.Bytes32ToString(scopes[i])
  {
    ListAt(Scope, head, scopes, [], data);
  }

  lemma EncodedScopes(id: Word, parties: seq<Address>, scopes: seq<Word>, validFrom: nat, validUntil: nat,
                      data: seq<byte>)
    requires data == Encode(id, parties, scopes, validFrom, validUntil) && |data| <= INT64_MAX
    ensures |data| >= 160 && ReadList(Scope, data, 6 * WORD + WORD * |parties|).Some?
    ensures var r := ReadList(Scope, data, 6 * WORD + WORD * |parties|).value;
            |r| == |scopes| && forall i | 0 <= i < |scopes| :: r[i] == AbiCodec.Bytes32ToString(scopes[i])
  {
    var head := ScopesBegin(id, parties, scopes, validFrom, validUntil, data);
    ScopesAt(head, scopes, data, 6 * WORD + WORD * |parties|);
  }

  /** Decoding undoes the ABI encoding for all lists: no panic, all parties, all scopes as strings, and the times
      modulo 2^64. */
  lemma EventRoundTrip(id: Word, parties: seq<Address>, scopes: seq<Word>, validFrom: nat, validUntil: nat,
                       data: seq<byte>)
    requires data == Encode(id, parties, scopes, validFrom, validUntil) && |data| <= INT64_MAX
    requires validFrom < Pow256(WORD) && validUntil < Pow256(WORD)
    ensures |data| >= 128 && data[..WORD] == id && Decode(data).Some?
    ensures var f := Decode(data).value;
            && f.parties == parties
            && |f.scopes| == |scopes|
            && (forall i | 0 <= i < |scopes| :: f.scopes[i] == AbiCodec.Bytes32ToString(scopes[i]))
            && f.validFrom == validFrom % UINT64 && f.validUntil == validUntil % UINT64
  {
    EncodedOffsets(id, parties, scopes, validFrom, validUntil, data, 5 * WORD);
    EncodedTimes(id, parties, scopes, validFrom, validUntil, data);
    EncodedParties(id, parties, scopes, validFrom, validUntil, data);
    EncodedScopes(id, parties, scopes, validFrom, validUntil, data);
  }

  /** Logs that panic exist: this one has the offset 2^64 - 16 in place of that of the parties. */
  lemma PanickingData(data: seq<byte>, offset: nat)
    requires offset == 0xffff_ffff_ffff_fff0 && data == Zeros(WORD) + NumberWord(offset) + Zeros(2 * WORD)
    ensures |data| == 128 && Decode(data).None?
  {
    assert data[32..64] == NumberWord(offset);
    NumberRead(offset, data[32..64]);
    ListReads(Party, data, offset);
  }
}
