/** ConsentLib.sol: consents, their identifiers and the hash that is signed. keccak256 and ecrecover are parameters of
    which nothing is assumed. */
module ConsentTerms {
  import opened Bytes
  import opened Wrappers
  import AbiCodec

  datatype Crypto = Crypto(keccak: seq<byte> -> Word, ecrecover: (Word, byte, Word, Word) -> Address)

  /** The part of a consent that its identifier and its signatures cover. */
  datatype Terms = Terms(parties: seq<Address>, scopes: seq<Word>, validFrom: nat, validUntil: nat, uri: seq<byte>)

  datatype Consent = Consent(id: Word, terms: Terms, revoked: bool, createdAt: nat)

  /** Terms as they occur on chain: uint256 times, and lengths that fit calldata. */
  predicate OnChain(t: Terms) {
    && t.validFrom < Pow256(WORD) && t.validUntil < Pow256(WORD)
    && |t.parties| < 0x1_0000_0000 && |t.scopes| < 0x1_0000_0000 && |t.uri| < 0x1_0000_0000
  }

  function Ascii(s: string): seq<byte> {
    seq(|s|, i requires 0 <= i < |s| => s[i] as int % 256)
  }

  const CONSENT_TYPE: string :=
    "Consent" + "(" + ("address[] parties" + ("," + ("bytes32[] scopes" + ("," + ("uint256 validFrom" + ("," +
    ("uint256 validUntil" + ("," + "string encryptedMetadataUri")))))))) + ")"

  function TypeHash(c: Crypto): Word {
    c.keccak(Ascii(CONSENT_TYPE))
  }

  // hashConsent

  function StructPreimage(c: Crypto, t: Terms): seq<byte> {
    TypeHash(c) + c.keccak(Concat(AddressWords(t.parties))) + c.keccak(Concat(t.scopes))
    + NumberWord(t.validFrom) + NumberWord(t.validUntil) + c.keccak(t.uri)
  }

  function HashConsent(c: Crypto, t: Terms): Word {
    c.keccak(StructPreimage(c, t))
  }

  /** Values of the types that the members of a consent and of a domain have. */
  datatype Value =
    | AddressArray(xs: seq<Address>)
    | Bytes32Array(ws: seq<Word>)
    | Uint256(n: nat)
    | Text(s: seq<byte>)
    | SingleAddress(a: Address)

  datatype Member = Member(name: string, value: Value)

  function TypeOf(v: Value): string {
    match v
    case AddressArray(_) => "address[]"
    case Bytes32Array(_) => "bytes32[]"
    case Uint256(_) => "uint256"
    case Text(_) => "string"
    case SingleAddress(_) => "address"
  }

  function Declared(members: seq<Member>): string {
    if members == [] then ""
    else
      var declaration := TypeOf(members[0].value) + " " + members[0].name;
      if |members| == 1 then declaration else declaration + ("," + Declared(members[1..]))
  }

  /** "Definition of encodeType" in EIP-712, for a struct that refers to no other. */
  function EncodeType(name: string, members: seq<Member>): string {
    name + "(" + Declared(members) + ")"
  }

  /** "Definition of encodeData" in EIP-712, for one member: atomic values as words, dynamic ones hashed, and arrays as
      the hash of the concatenated encodeData of their elements. */
  function EncodeData(c: Crypto, v: Value): Word {
    match v
    case AddressArray(xs) => c.keccak(Concat(seq(|xs|, i requires 0 <= i < |xs| => AddressWord(xs[i]))))
    case Bytes32Array(ws) => c.keccak(Concat(ws))
    case Uint256(n) => NumberWord(n)
    case Text(s) => c.keccak(s)
    case SingleAddress(a) => AddressWord(a)
  }

  function Encoded(c: Crypto, members: seq<Member>): seq<byte> {
    if members == [] then [] else EncodeData(c, members[0].value) + Encoded(c, members[1..])
  }

  /** "Definition of hashStruct" in EIP-712. */
  function HashStruct(c: Crypto, name: string, members: seq<Member>): Word {
    c.keccak(c.keccak(Ascii(EncodeType(name, members))) + Encoded(c, members))
  }

  function MembersOf(t: Terms): seq<Member> {
    [Member("parties", AddressArray(t.parties)), Member("scopes", Bytes32Array(t.scopes)),
     Member("validFrom", Uint256(t.validFrom)), Member("validUntil", Uint256(t.validUntil)),
     Member("encryptedMetadataUri", Text(t.uri))]
  }

  predicate Declares(m: Member, declaration: string) {
    TypeOf(m.value) + " " + m.name == declaration
  }

  lemma DeclaredFive(ms: seq<Member>, a: string, b: string, c: string, d: string, e: string)
    requires |ms| == 5 && Declares(ms[0], a) && Declares(ms[1], b) && Declares(ms[2], c) && Declares(ms[3], d)
    requires Declares(ms[4], e)
    ensures Declared(ms) == a + ("," + (b + ("," + (c + ("," + (d + ("," + e)))))))
  {
    assert ms[1..][1..] == ms[2..] && ms[2..][1..] == ms[3..] && ms[3..][1..] == ms[4..];
    assert Declared(ms[4..]) == e;
    assert Declared(ms[3..]) == d + ("," + e);
    assert Declared(ms[2..]) == c + ("," + (d + ("," + e)));
  }

  /** The type string in the code is the encodeType of the members that are hashed. */
  lemma TypeDeclaresMembers(t: Terms)
    ensures EncodeType("Consent", MembersOf(t)) == CONSENT_TYPE
  {
    DeclaredFive(MembersOf(t), "address[] parties", "bytes32[] scopes", "uint256 validFrom", "uint256 validUntil",
                 "string encryptedMetadataUri");
  }

  lemma {:induction false} MembersEncoded(c: Crypto, t: Terms)
    ensures TypeHash(c) + Encoded(c, MembersOf(t)) == StructPreimage(c, t)
  {
    var ms := MembersOf(t);
    assert ms[1..][1..][1..][1..] == [Member("encryptedMetadataUri", Text(t.uri))];
    assert ms[1..][1..][1..][1..][1..] == [];
    assert AddressWords(t.parties)
           == seq(|t.parties|, i requires 0 <= i < |t.parties| => AddressWord(t.parties[i]));
    assert Encoded(c, ms[1..][1..][1..][1..]) == c.keccak(t.uri);
    assert Encoded(c, ms[1..][1..]) == NumberWord(t.validFrom) + NumberWord(t.validUntil) + c.keccak(t.uri);
  }

  /** The consent hash is hashStruct of EIP-712 of the five members, type string included. */
  lemma HashConsentIsHashStruct(c: Crypto, t: Terms)
    ensures HashConsent(c, t) == HashStruct(c, "Consent", MembersOf(t))
  {
    TypeDeclaresMembers(t);
    MembersEncoded(c, t);
  }

  // The domain separator

  datatype Domain = Domain(name: seq<byte>, version: seq<byte>, chainId: nat, verifyingContract: Address)

  const DOMAIN_TYPE: string :=
    "EIP712Domain" + "(" + ("string name" + ("," + ("string version" + ("," + ("uint256 chainId" + ("," +
    "address verifyingContract")))))) + ")"

  function DomainPreimage(c: Crypto, d: Domain): seq<byte> {
    c.keccak(Ascii(DOMAIN_TYPE)) + c.keccak(d.name) + c.keccak(d.version) + NumberWord(d.chainId)
    + AddressWord(d.verifyingContract)
  }

  function DomainSeparator(c: Crypto, d: Domain): Word {
    c.keccak(DomainPreimage(c, d))
  }

  function DomainMembers(d: Domain): seq<Member> {
    [Member("name", Text(d.name)), Member("version", Text(d.version)), Member("chainId", Uint256(d.chainId)),
     Member("verifyingContract", SingleAddress(d.verifyingContract))]
  }

  lemma DeclaredFour(ms: seq<Member>, a: string, b: string, c: string, d: string)
    requires |ms| == 4 && Declares(ms[0], a) && Declares(ms[1], b) && Declares(ms[2], c) && Declares(ms[3], d)
    ensures Declared(ms) == a + ("," + (b + ("," + (c + ("," + d)))))
  {
    assert ms[1..][1..] == ms[2..] && ms[2..][1..] == ms[3..];
    assert Declared(ms[3..]) == d;
    assert Declared(ms[2..]) == c + ("," + d);
  }

  lemma DomainTypeDeclares(d: Domain)
    ensures EncodeType("EIP712Domain", DomainMembers(d)) == DOMAIN_TYPE
  {
    DeclaredFour(DomainMembers(d), "string name", "string version", "uint256 chainId", "address verifyingContract");
  }

  lemma DomainEncoded(c: Crypto, d: Domain)
    ensures c.keccak(Ascii(DOMAIN_TYPE)) + Encoded(c, DomainMembers(d)) == DomainPreimage(c, d)
  {
    var ms := DomainMembers(d);
    assert ms[1..][1..][1..] == [Member("verifyingContract", SingleAddress(d.verifyingContract))];
    assert ms[1..][1..][1..][1..] == [];
    assert Encoded(c, ms[1..][1..][1..]) == AddressWord(d.verifyingContract);
    assert Encoded(c, ms[1..][1..]) == NumberWord(d.chainId) + AddressWord(d.verifyingContract);
  }

  /** The domain separator is hashStruct of EIP-712 of the four members of the domain. */
  lemma SeparatorIsHashStruct(c: Crypto, d: Domain)
    ensures DomainSeparator(c, d) == HashStruct(c, "EIP712Domain", DomainMembers(d))
  {
    DomainTypeDeclares(d);
    DomainEncoded(c, d);
  }

  // The digest that is signed

  function DigestPreimage(c: Crypto, domainSeparator: Word, t: Terms): seq<byte> {
    [0x19, 0x01] + domainSeparator + HashConsent(c, t)
  }

  function ConsentDigest(c: Crypto, domainSeparator: Word, t: Terms): Word {
    c.keccak(DigestPreimage(c, domainSeparator, t))
  }

  /** The digest is the one that EIP-712 defines, the bytes 19 and 01 in hexadecimal, the domain separator
      and hashStruct of the message, hashed. */
  lemma DigestIsEip712(c: Crypto, d: Domain, t: Terms)
    ensures ConsentDigest(c, DomainSeparator(c, d), t)
            == c.keccak([0x19, 0x01] + HashStruct(c, "EIP712Domain", DomainMembers(d))
                        + HashStruct(c, "Consent", MembersOf(t)))
  {
    SeparatorIsHashStruct(c, d);
    HashConsentIsHashStruct(c, t);
  }

  predicate Collide(c: Crypto, x: seq<byte>, y: seq<byte>) {
    x != y && c.keccak(x) == c.keccak(y)
  }

  /** Where two different statements with the same digest have collided. */
  function DigestCollision(c: Crypto, d1: Word, t1: Terms, d2: Word, t2: Terms): (seq<byte>, seq<byte>) {
    if DigestPreimage(c, d1, t1) != DigestPreimage(c, d2, t2) then
      (DigestPreimage(c, d1, t1), DigestPreimage(c, d2, t2))
    else if StructPreimage(c, t1) != StructPreimage(c, t2) then (StructPreimage(c, t1), StructPreimage(c, t2))
    else if t1.parties != t2.parties then (Concat(AddressWords(t1.parties)), Concat(AddressWords(t2.parties)))
    else if t1.scopes != t2.scopes then (Concat(t1.scopes), Concat(t2.scopes))
    else (t1.uri, t2.uri)
  }

  lemma StructWords(c: Crypto, t: Terms, p: seq<byte>)
    requires p == StructPreimage(c, t)
    ensures |p| == 6 * WORD
    ensures c.keccak(Concat(AddressWords(t.parties))) == p[WORD..2 * WORD]
    ensures c.keccak(Concat(t.scopes)) == p[2 * WORD..3 * WORD]
    ensures NumberWord(t.validFrom) == p[3 * WORD..4 * WORD]
    ensures NumberWord(t.validUntil) == p[4 * WORD..5 * WORD]
    ensures c.keccak(t.uri) == p[5 * WORD..]
  {
  }

  lemma StructBinds(c: Crypto, t1: Terms, t2: Terms)
    requires StructPreimage(c, t1) == StructPreimage(c, t2)
    ensures c.keccak(Concat(AddressWords(t1.parties))) == c.keccak(Concat(AddressWords(t2.parties)))
    ensures c.keccak(Concat(t1.scopes)) == c.keccak(Concat(t2.scopes))
    ensures NumberWord(t1.validFrom) == NumberWord(t2.validFrom)
    ensures NumberWord(t1.validUntil) == NumberWord(t2.validUntil)
    ensures c.keccak(t1.uri) == c.keccak(t2.uri)
  {
    StructWords(c, t1, StructPreimage(c, t1));
    StructWords(c, t2, StructPreimage(c, t1));
  }

  /** A digest binds its signers to one domain and one set of terms: two different ones with the same digest yield a
      collision of the hash, which DigestCollision computes. */
  lemma DigestBinds(c: Crypto, d1: Word, t1: Terms, d2: Word, t2: Terms)
    requires OnChain(t1) && OnChain(t2) && ConsentDigest(c, d1, t1) == ConsentDigest(c, d2, t2)
    ensures (d1 == d2 && t1 == t2)
            || (var (x, y) := DigestCollision(c, d1, t1, d2, t2); Collide(c, x, y))
  {
    var p, q := DigestPreimage(c, d1, t1), DigestPreimage(c, d2, t2);
    if p == q {
      assert d1 == p[2..2 + WORD] == q[2..2 + WORD] == d2;
      assert HashConsent(c, t1) == p[2 + WORD..] == q[2 + WORD..] == HashConsent(c, t2);
      if StructPreimage(c, t1) == StructPreimage(c, t2) {
        StructBinds(c, t1, t2);
        BigEndianRead(t1.validFrom, WORD);
        BigEndianRead(t2.validFrom, WORD);
        BigEndianRead(t1.validUntil, WORD);
        BigEndianRead(t2.validUntil, WORD);
        ListsCollide(c, t1, t2);
      }
    }
  }

  lemma ListsCollide(c: Crypto, t1: Terms, t2: Terms)
    ensures Concat(AddressWords(t1.parties)) == Concat(AddressWords(t2.parties)) ==> t1.parties == t2.parties
    ensures Concat(t1.scopes) == Concat(t2.scopes) ==> t1.scopes == t2.scopes
  {
    if Concat(AddressWords(t1.parties)) == Concat(AddressWords(t2.parties)) {
      ConcatInjective(AddressWords(t1.parties), AddressWords(t2.parties));
      AddressWordsInjective(t1.parties, t2.parties);
    }
    if Concat(t1.scopes) == Concat(t2.scopes) {
      ConcatInjective(t1.scopes, t2.scopes);
    }
  }

  // computeConsentId

  /** Zero bytes that fill up a byte string to whole words. */
  function Padding(n: nat): nat {
    (WORD - n % WORD) % WORD
  }

  function Bytestring(s: seq<byte>): seq<byte> {
    NumberWord(|s|) + s + Zeros(Padding(|s|))
  }

  /** abi.encode(parties, scopes, validFrom, validUntil, encryptedMetadataUri). */
  function IdPreimage(t: Terms): seq<byte> {
    var scopesAt := 5 * WORD + WORD + WORD * |t.parties|;
    var uriAt := scopesAt + WORD + WORD * |t.scopes|;
    NumberWord(5 * WORD) + NumberWord(scopesAt) + NumberWord(t.validFrom) + NumberWord(t.validUntil) + NumberWord(uriAt)
    + List(AddressWords(t.parties)) + List(t.scopes) + Bytestring(t.uri)
  }

  function ConsentId(c: Crypto, t: Terms): Word {
    c.keccak(IdPreimage(t))
  }

  lemma HeadWords(t: Terms, p: seq<byte>, scopesAt: nat, uriAt: nat)
    requires p == IdPreimage(t)
    requires scopesAt == 6 * WORD + WORD * |t.parties| && uriAt == scopesAt + WORD + WORD * |t.scopes|
    ensures |p| >= 5 * WORD
    ensures p[WORD..2 * WORD] == NumberWord(scopesAt) && p[4 * WORD..5 * WORD] == NumberWord(uriAt)
    ensures p[2 * WORD..3 * WORD] == NumberWord(t.validFrom) && p[3 * WORD..4 * WORD] == NumberWord(t.validUntil)
  {
    FiveWords(NumberWord(5 * WORD), NumberWord(scopesAt), NumberWord(t.validFrom), NumberWord(t.validUntil),
              NumberWord(uriAt), p);
  }

  lemma HeadOffsets(t: Terms, p: seq<byte>)
    requires OnChain(t) && p == IdPreimage(t)
    ensures |p| >= 5 * WORD
    ensures FromBigEndian(p[WORD..2 * WORD]) == 6 * WORD + WORD * |t.parties|
    ensures FromBigEndian(p[4 * WORD..5 * WORD]) == 7 * WORD + WORD * |t.parties| + WORD * |t.scopes|
  {
    var scopesAt := 6 * WORD + WORD * |t.parties|;
    var uriAt := scopesAt + WORD + WORD * |t.scopes|;
    HeadWords(t, p, scopesAt, uriAt);
    WordRead(scopesAt);
    WordRead(uriAt);
  }

  lemma HeadTimes(t: Terms, p: seq<byte>)
    requires OnChain(t) && p == IdPreimage(t)
    ensures |p| >= 5 * WORD
    ensures FromBigEndian(p[2 * WORD..3 * WORD]) == t.validFrom
    ensures FromBigEndian(p[3 * WORD..4 * WORD]) == t.validUntil
  {
    var scopesAt := 6 * WORD + WORD * |t.parties|;
    HeadWords(t, p, scopesAt, scopesAt + WORD + WORD * |t.scopes|);
    BigEndianRead(t.validFrom, WORD);
    BigEndianRead(t.validUntil, WORD);
  }

  lemma TailSlices(t: Terms, p: seq<byte>)
    requires p == IdPreimage(t)
    ensures var scopesAt := 6 * WORD + WORD * |t.parties|;
            var uriAt := scopesAt + WORD + WORD * |t.scopes|;
            && |p| == uriAt + WORD + |t.uri| + Padding(|t.uri|)
            && p[6 * WORD..scopesAt] == Concat(AddressWords(t.parties))
            && p[scopesAt + WORD..uriAt] == Concat(t.scopes)
            && p[uriAt..uriAt + WORD] == NumberWord(|t.uri|)
            && p[uriAt + WORD..uriAt + WORD + |t.uri|] == t.uri
  {
    var scopesAt := 6 * WORD + WORD * |t.parties|;
    var uriAt := scopesAt + WORD + WORD * |t.scopes|;
    var head := NumberWord(5 * WORD) + NumberWord(scopesAt) + NumberWord(t.validFrom) + NumberWord(t.validUntil)
                + NumberWord(uriAt) + NumberWord(|t.parties|);
    var front := head + Concat(AddressWords(t.parties)) + NumberWord(|t.scopes|);
    assert p == head + Concat(AddressWords(t.parties)) + List(t.scopes) + Bytestring(t.uri);
    assert p == front + Concat(t.scopes) + Bytestring(t.uri);
    assert p == (front + Concat(t.scopes)) + NumberWord(|t.uri|) + t.uri + Zeros(Padding(|t.uri|));
  }

  // Reading the encoding as the ABI specification says

  /** The bytes at an offset, behind their length. */
  function ReadBytes(p: seq<byte>, offset: nat): Option<seq<byte>> {
    if offset + WORD > |p| then None
    else
      var n := FromBigEndian(p[offset..offset + WORD]);
      if offset + WORD + n > |p| then None else Some(p[offset + WORD..offset + WORD + n])
  }

  /** The five arguments of the encoding are read back from their places: both lists and the text through the offsets
      in the first, second and fifth word, the times from the third and fourth; and after the text only zero bytes
      follow, up to a whole word. */
  lemma IdPreimageIsAbi(t: Terms, p: seq<byte>)
    requires OnChain(t) && p == IdPreimage(t)
    ensures |p| >= 160 && |p| % 32 == 0
    ensures AbiCodec.ReadAddresses(p, FromBigEndian(p[..32])) == Some(t.parties)
    ensures AbiCodec.ReadWords(p, FromBigEndian(p[32..64])) == Some(t.scopes)
    ensures FromBigEndian(p[64..96]) == t.validFrom && FromBigEndian(p[96..128]) == t.validUntil
    ensures var uriAt := FromBigEndian(p[128..160]);
            && ReadBytes(p, uriAt) == Some(t.uri)
            && |p| < uriAt + 32 + |t.uri| + 32
            && forall i | uriAt + 32 + |t.uri| <= i < |p| :: p[i] == 0
  {
    HeadOffsets(t, p);
    HeadTimes(t, p);
    PartiesOffset(t, p, 5 * WORD);
    PartiesRead(t, p, 5 * WORD);
    ScopesRead(t, p);
    UriRead(t, p, FromBigEndian(p[4 * WORD..5 * WORD]));
    UriPadded(t, p, FromBigEndian(p[4 * WORD..5 * WORD]) + WORD + |t.uri|);
  }

  lemma PartiesOffset(t: Terms, p: seq<byte>, at: nat)
    requires p == IdPreimage(t) && at == 5 * WORD
    ensures |p| >= 5 * WORD && FromBigEndian(p[..WORD]) == at
  {
    HeadFirst(t, p, at);
    WordRead(at);
  }

  lemma HeadFirst(t: Terms, p: seq<byte>, at: nat)
    requires p == IdPreimage(t) && at == 5 * WORD
    ensures |p| >= 5 * WORD && p[..WORD] == NumberWord(at)
  {
    var scopesAt := 6 * WORD + WORD * |t.parties|;
    FiveWords(NumberWord(at), NumberWord(scopesAt), NumberWord(t.validFrom), NumberWord(t.validUntil),
              NumberWord(scopesAt + WORD + WORD * |t.scopes|), p);
  }

  lemma IdParts(t: Terms) returns (head: seq<byte>)
    ensures |head| == 5 * WORD
    ensures IdPreimage(t) == head + List(AddressWords(t.parties)) + List(t.scopes) + Bytestring(t.uri)
  {
    var scopesAt := 6 * WORD + WORD * |t.parties|;
    head := NumberWord(5 * WORD) + NumberWord(scopesAt) + NumberWord(t.validFrom) + NumberWord(t.validUntil)
            + NumberWord(scopesAt + WORD + WORD * |t.scopes|);
  }

  lemma Regrouped(a: seq<byte>, b: seq<byte>, c: seq<byte>)
    ensures a + b + c == a + (b + c)
  {
  }

  lemma PartiesRead(t: Terms, p: seq<byte>, at: nat)
    requires OnChain(t) && p == IdPreimage(t) && at == 5 * WORD
    ensures AbiCodec.ReadAddresses(p, at) == Some(t.parties)
  {
    var head := IdParts(t);
    AbiCodec.ReadAddressesList(head, t.parties, List(t.scopes) + Bytestring(t.uri));
    Regrouped(head + List(AddressWords(t.parties)), List(t.scopes), Bytestring(t.uri));
  }

  lemma ScopesRead(t: Terms, p: seq<byte>)
    requires OnChain(t) && p == IdPreimage(t)
    ensures AbiCodec.ReadWords(p, 6 * WORD + WORD * |t.parties|) == Some(t.scopes)
  {
    var head := IdParts(t);
    AbiCodec.ReadWordsList(head + List(AddressWords(t.parties)), t.scopes, Bytestring(t.uri));
  }

  lemma TextRead(p: seq<byte>, at: nat, text: seq<byte>)
    requires at + WORD + |text| <= |p| && |text| < 0x1_0000_0000
    requires p[at..at + WORD] == NumberWord(|text|) && p[at + WORD..at + WORD + |text|] == text
    ensures ReadBytes(p, at) == Some(text)
  {
    WordRead(|text|);
  }

  lemma UriRead(t: Terms, p: seq<byte>, uriAt: nat)
    requires OnChain(t) && p == IdPreimage(t) && uriAt == 7 * WORD + WORD * |t.parties| + WORD * |t.scopes|
    ensures ReadBytes(p, uriAt) == Some(t.uri)
  {
    TailSlices(t, p);
    TextRead(p, uriAt, t.uri);
  }

  lemma UriPadded(t: Terms, p: seq<byte>, end: nat)
    requires p == IdPreimage(t) && end == 8 * WORD + WORD * |t.parties| + WORD * |t.scopes| + |t.uri|
    ensures |p| % 32 == 0 && end <= |p| < end + 32
    ensures forall i | end <= i < |p| :: p[i] == 0
  {
    var head := IdParts(t);
    var front := head + List(AddressWords(t.parties)) + List(t.scopes) + NumberWord(|t.uri|) + t.uri;
    assert p == front + Zeros(Padding(|t.uri|)) && |front| == end;
    PaddingFills(|t.uri|);
    WholeWords(8 + |t.parties| + |t.scopes|, |t.uri| + Padding(|t.uri|));
  }

  lemma WholeWords(words: nat, n: nat)
    requires n % 32 == 0
    ensures (32 * words + n) % 32 == 0
  {
  }

  lemma PaddingFills(n: nat)
    ensures Padding(n) < 32 && (n + Padding(n)) % 32 == 0
  {
  }

  /** The encoding behind the identifier loses nothing: different terms have different preimages, so two of them with
      the same identifier are a collision of the hash. */
  lemma IdBinds(c: Crypto, t1: Terms, p1: seq<byte>, t2: Terms, p2: seq<byte>)
    requires OnChain(t1) && OnChain(t2) && p1 == IdPreimage(t1) && p2 == IdPreimage(t2)
    requires ConsentId(c, t1) == ConsentId(c, t2)
    ensures t1 == t2 || Collide(c, p1, p2)
  {
    if p1 == p2 {
      IdPreimageIsAbi(t1, p1);
      IdPreimageIsAbi(t2, p2);
    }
  }

  // validateConsent, with block.timestamp as a parameter

  predicate ValidateConsent(t: Terms, now: nat) {
    |t.parties| >= 1 && t.validFrom != 0 && t.validUntil > t.validFrom && t.validUntil > now
  }

  method ContainsParty(t: Terms, party: Address) returns (found: bool)
    ensures found <==> party in t.parties
  {
    for i := 0 to |t.parties|
      invariant party !in t.parties[..i]
    {
      if t.parties[i] == party {
        return true;
      }
    }
    return false;
  }
}
