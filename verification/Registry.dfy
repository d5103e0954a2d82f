/** The ledger behind ConsentRegistry.sol: its transactions on values, and what every run of them keeps. */
module Registry {
  import opened Basics
  import opened Bytes
  import opened Wrappers
  import opened ConsentTerms
  import opened Signatures

  /** The storage of the contract. A key missing from partyConsents stands for the empty array. */
  datatype Ledger = Ledger(
    count: nat,
    consents: map<Word, Consent>,
    existing: set<Word>,
    partyConsents: map<Address, seq<Word>>,
    partyIndex: set<(Address, Word)>)

  const EMPTY: Ledger := Ledger(0, map[], {}, map[], {})

  datatype Error =
    | NoParties
    | SignatureCountMismatch
    | AlreadyExists
    | InvalidSignatures
    | BadSignature(error: SignatureError)
    | DoesNotExist
    | AlreadyRevoked
    | NotAParty
    | InvalidParameters

  /** The contract instance: its hash functions and its domain separator. */
  datatype Chain = Chain(crypto: Crypto, domainSeparator: Word)

  function ListOf(l: Ledger, p: Address): seq<Word> {
    if p in l.partyConsents then l.partyConsents[p] else []
  }

  // Transactions

  /** The loop at the end of registerConsent, after n parties. */
  function IndexParties(l: Ledger, parties: seq<Address>, n: nat, id: Word): Ledger
    requires n <= |parties|
  {
    if n == 0 then l
    else IndexParty(IndexParties(l, parties, n - 1, id), parties[n - 1], id)
  }

  function IndexParty(l: Ledger, p: Address, id: Word): Ledger {
    if (p, id) in l.partyIndex then l
    else l.(partyConsents := l.partyConsents[p := ListOf(l, p) + [id]], partyIndex := l.partyIndex + {(p, id)})
  }

  function CheckSignatures(ch: Chain, t: Terms, signatures: seq<seq<byte>>): Result<(), Error> {
    match MultiSig(ch.crypto, ConsentDigest(ch.crypto, ch.domainSeparator, t), signatures, t.parties)
    case Err(e) => Err(BadSignature(e))
    case Ok(valid) => if valid then Ok(()) else Err(InvalidSignatures)
  }

  function Store(l: Ledger, id: Word, t: Terms, now: nat): Ledger {
    l.(consents := l.consents[id := Consent(id, t, false, now)], existing := l.existing + {id}, count := l.count + 1)
  }

  function RegisterConsent(ch: Chain, l: Ledger, t: Terms, signatures: seq<seq<byte>>, now: nat)
    : Result<(Ledger, Word), Error>
  {
    if |t.parties| == 0 then Err(NoParties)
    else if |signatures| != |t.parties| then Err(SignatureCountMismatch)
    else
      var id := ConsentId(ch.crypto, t);
      if id in l.existing then Err(AlreadyExists)
      else
        match CheckSignatures(ch, t, signatures)
        case Err(e) => Err(e)
        case Ok(_) =>
          Ok((IndexParties(Store(l, id, t, now), t.parties, |t.parties|, id), id))
  }

  function RevokeConsent(l: Ledger, id: Word, sender: Address): Result<Ledger, Error> {
    if id !in l.existing || id !in l.consents then Err(DoesNotExist)
    else if l.consents[id].revoked then Err(AlreadyRevoked)
    else if sender !in l.consents[id].terms.parties then Err(NotAParty)
    else Ok(l.(consents := l.consents[id := l.consents[id].(revoked := true)]))
  }

  function UpdateConsent(ch: Chain, l: Ledger, id: Word, validUntil: nat, uri: seq<byte>, signatures: seq<seq<byte>>,
                         now: nat)
    : Result<Ledger, Error>
  {
    if id !in l.existing || id !in l.consents then Err(DoesNotExist)
    else
      var current := l.consents[id];
      var updated := current.terms.(validUntil := validUntil, uri := uri);
      if !ValidateConsent(updated, now) then Err(InvalidParameters)
      else if |signatures| != |current.terms.parties| then Err(SignatureCountMismatch)
      else
        match CheckSignatures(ch, updated, signatures)
        case Err(e) => Err(e)
        case Ok(_) => Ok(l.(consents := l.consents[id := current.(terms := updated)]))
  }

  predicate IsConsentValid(l: Ledger, id: Word, now: nat) {
    && id in l.existing && id in l.consents
    && !l.consents[id].revoked
    && l.consents[id].terms.validFrom <= now < l.consents[id].terms.validUntil
  }

  /** A registration is accepted exactly when there is a party, the terms are not registered yet and the signatures
      recover the parties, one each, from the digest of the terms. */
  lemma RegisterAcceptedIff(ch: Chain, l: Ledger, t: Terms, signatures: seq<seq<byte>>, now: nat)
    ensures RegisterConsent(ch, l, t, signatures, now).Ok?
            <==> && t.parties != [] && ConsentId(ch.crypto, t) !in l.existing
                 && AllSigned(ch.crypto, ConsentDigest(ch.crypto, ch.domainSeparator, t), signatures, t.parties)
  {
    MultiSigIsAllSigned(ch.crypto, ConsentDigest(ch.crypto, ch.domainSeparator, t), signatures, t.parties);
  }

  /** An update is accepted exactly when the consent exists, the new terms are sound at that time and the signatures
      recover the parties from their digest; the consent is then valid unless it is revoked or has not begun. */
  lemma UpdateAcceptedIff(ch: Chain, l: Ledger, id: Word, validUntil: nat, uri: seq<byte>, signatures: seq<seq<byte>>,
                          now: nat)
    requires l.consents.Keys == l.existing
    ensures var r := UpdateConsent(ch, l, id, validUntil, uri, signatures, now);
            && (r.Ok? <==>
                  && id in l.existing
                  && var t := l.consents[id].terms.(validUntil := validUntil, uri := uri);
                  && t.parties != [] && 0 < t.validFrom < validUntil && now < validUntil
                  && AllSigned(ch.crypto, ConsentDigest(ch.crypto, ch.domainSeparator, t), signatures, t.parties))
            && (r.Ok? ==> (IsConsentValid(r.value, id, now)
                           <==> !l.consents[id].revoked && l.consents[id].terms.validFrom <= now))
  {
    if id in l.existing {
      var t := l.consents[id].terms.(validUntil := validUntil, uri := uri);
      MultiSigIsAllSigned(ch.crypto, ConsentDigest(ch.crypto, ch.domainSeparator, t), signatures, t.parties);
    }
  }

  /** Which revert comes first when a registration is refused for other reasons than its signatures. */
  lemma RegisterRevertsIff(ch: Chain, l: Ledger, t: Terms, signatures: seq<seq<byte>>, now: nat)
    ensures var r := RegisterConsent(ch, l, t, signatures, now);
            && (r == Err(NoParties) <==> t.parties == [])
            && (r == Err(SignatureCountMismatch) <==> t.parties != [] && |signatures| != |t.parties|)
            && (r == Err(AlreadyExists) <==>
                  t.parties != [] && |signatures| == |t.parties| && ConsentId(ch.crypto, t) in l.existing)
  {
  }

  /** When nothing else is wrong with it, the first signature that does not recover its party decides. */
  lemma SignatureReverts(ch: Chain, l: Ledger, t: Terms, signatures: seq<seq<byte>>, now: nat, i: nat, digest: Word)
    requires t.parties != [] && ConsentId(ch.crypto, t) !in l.existing && i < |signatures| == |t.parties|
    requires digest == ConsentDigest(ch.crypto, ch.domainSeparator, t)
    requires forall j | 0 <= j < i :: RecoverSigner(ch.crypto, digest, signatures[j]) == Ok(t.parties[j])
    requires RecoverSigner(ch.crypto, digest, signatures[i]) != Ok(t.parties[i])
    ensures RegisterConsent(ch, l, t, signatures, now)
            == Err(match RecoverSigner(ch.crypto, digest, signatures[i])
                   case Err(e) => BadSignature(e)
                   case Ok(_) => InvalidSignatures)
  {
    FirstFailureDecides(ch.crypto, digest, signatures, t.parties, i);
  }

  lemma UpdateRevertsIff(ch: Chain, l: Ledger, id: Word, validUntil: nat, uri: seq<byte>, signatures: seq<seq<byte>>,
                         now: nat)
    requires l.consents.Keys == l.existing
    ensures var r := UpdateConsent(ch, l, id, validUntil, uri, signatures, now);
            && (r == Err(DoesNotExist) <==> id !in l.existing)
            && (id in l.existing ==>
                  var t := l.consents[id].terms;
                  var sound := t.parties != [] && 0 < t.validFrom < validUntil && now < validUntil;
                  && (r == Err(InvalidParameters) <==> !sound)
                  && (r == Err(SignatureCountMismatch) <==> sound && |signatures| != |t.parties|))
  {
  }

  /** A revocation is accepted exactly from a party of an existing consent that is not revoked. It revokes that consent
      and leaves everything else as it was. */
  lemma RevokeAcceptedIff(l: Ledger, id: Word, sender: Address)
    requires l.consents.Keys == l.existing
    ensures var r := RevokeConsent(l, id, sender);
            && (r.Ok? <==> id in l.existing && !l.consents[id].revoked && sender in l.consents[id].terms.parties)
            && (r == Err(DoesNotExist) <==> id !in l.existing)
            && (r == Err(AlreadyRevoked) <==> id in l.existing && l.consents[id].revoked)
            && (r.Ok? ==>
                  && r.value.consents.Keys == l.consents.Keys
                  && r.value.consents[id].revoked
                  && r.value.consents[id].id == l.consents[id].id
                  && r.value.consents[id].terms == l.consents[id].terms
                  && r.value.consents[id].createdAt == l.consents[id].createdAt
                  && (forall other | other in l.consents && other != id ::
                        r.value.consents[other] == l.consents[other])
                  && r.value.count == l.count && r.value.existing == l.existing
                  && r.value.partyConsents == l.partyConsents && r.value.partyIndex == l.partyIndex)
  {
  }

  // Runs

  datatype Call =
    | Register(t: Terms, signatures: seq<seq<byte>>)
    | Revoke(id: Word, sender: Address)
    | Update(id: Word, validUntil: nat, uri: seq<byte>, signatures: seq<seq<byte>>)

  /** A transaction in a block with the given timestamp; a revert leaves the storage as it was. */
  datatype Tx = Tx(call: Call, now: nat)

  function Step(ch: Chain, l: Ledger, tx: Tx): Ledger {
    match tx.call
    case Register(t, signatures) =>
      (match RegisterConsent(ch, l, t, signatures, tx.now) case Ok(r) => r.0 case Err(_) => l)
    case Revoke(id, sender) =>
      (match RevokeConsent(l, id, sender) case Ok(l') => l' case Err(_) => l)
    case Update(id, validUntil, uri, signatures) =>
      (match UpdateConsent(ch, l, id, validUntil, uri, signatures, tx.now) case Ok(l') => l' case Err(_) => l)
  }

  function Exec(ch: Chain, l: Ledger, run: seq<Tx>): Ledger
    decreases |run|
  {
    if run == [] then l else Exec(ch, Step(ch, l, run[0]), run[1..])
  }

  // Party index agreement

  ghost predicate PartyAgrees(l: Ledger, p: Address) {
    && (forall id: Word :: id in ListOf(l, p) <==> id in l.consents && p in l.consents[id].terms.parties)
    && (forall id: Word :: (p, id) in l.partyIndex <==> id in ListOf(l, p))
    && Distinct(ListOf(l, p))
  }

  /** The primary map, the existence map, the per-party lists, the membership index and the count say the same. */
  ghost predicate Agrees(l: Ledger) {
    && l.consents.Keys == l.existing
    && l.count == |l.existing|
    && (forall id | id in l.consents :: l.consents[id].id == id && l.consents[id].terms.parties != [])
    && (forall p: Address :: PartyAgrees(l, p))
  }

  /** What the indexing loop has done to the list and the index entry of one party. */
  lemma {:induction false} IndexPartiesResult(l: Ledger, parties: seq<Address>, n: nat, id: Word, p: Address)
    requires n <= |parties|
    ensures var l' := IndexParties(l, parties, n, id);
            && l'.count == l.count && l'.consents == l.consents && l'.existing == l.existing
            && ListOf(l', p) == ListOf(l, p) + (if p in parties[..n] && (p, id) !in l.partyIndex then [id] else [])
            && ((p, id) in l'.partyIndex <==> (p, id) in l.partyIndex || p in parties[..n])
            && (forall id' | id' != id :: (p, id') in l'.partyIndex <==> (p, id') in l.partyIndex)
  {
    if n > 0 {
      IndexPartiesResult(l, parties, n - 1, id, p);
      assert parties[..n] == parties[..n - 1] + [parties[n - 1]];
    }
  }

  /** What an accepted registration does to everything but lists and index. */
  lemma Registered(ch: Chain, l: Ledger, t: Terms, signatures: seq<seq<byte>>, now: nat)
    requires RegisterConsent(ch, l, t, signatures, now).Ok?
    ensures var (l', id) := RegisterConsent(ch, l, t, signatures, now).value;
            && id == ConsentId(ch.crypto, t) && id !in l.existing && t.parties != []
            && CheckSignatures(ch, t, signatures).Ok?
            && l'.consents == l.consents[id := Consent(id, t, false, now)]
            && l'.existing == l.existing + {id} && l'.count == l.count + 1
  {
    var id := ConsentId(ch.crypto, t);
    IndexPartiesResult(Store(l, id, t, now), t.parties, |t.parties|, id, t.parties[0]);
  }

  lemma RegisteredParty(ch: Chain, l: Ledger, t: Terms, signatures: seq<seq<byte>>, now: nat, p: Address)
    requires RegisterConsent(ch, l, t, signatures, now).Ok?
    ensures var (l', id) := RegisterConsent(ch, l, t, signatures, now).value;
            && ListOf(l', p) == ListOf(l, p) + (if p in t.parties && (p, id) !in l.partyIndex then [id] else [])
            && (forall x: Word :: (p, x) in l'.partyIndex <==> (p, x) in l.partyIndex || (x == id && p in t.parties))
  {
    var id := ConsentId(ch.crypto, t);
    var stored := Store(l, id, t, now);
    assert ListOf(stored, p) == ListOf(l, p);
    assert t.parties[..|t.parties|] == t.parties;
    IndexPartiesResult(stored, t.parties, |t.parties|, id, p);
  }

  lemma RegisterPartyAgrees(ch: Chain, l: Ledger, t: Terms, signatures: seq<seq<byte>>, now: nat, p: Address)
    requires RegisterConsent(ch, l, t, signatures, now).Ok? && PartyAgrees(l, p) && l.consents.Keys == l.existing
    ensures PartyAgrees(RegisterConsent(ch, l, t, signatures, now).value.0, p)
  {
    Registered(ch, l, t, signatures, now);
    RegisteredParty(ch, l, t, signatures, now, p);
    var (l', id) := RegisterConsent(ch, l, t, signatures, now).value;
    assert id !in ListOf(l, p) && (p, id) !in l.partyIndex;
    AppendedParty(l, l', id, t, now, p);
  }

  lemma AppendedParty(l: Ledger, l': Ledger, id: Word, t: Terms, now: nat, p: Address)
    requires PartyAgrees(l, p) && id !in l.consents
    requires l'.consents == l.consents[id := Consent(id, t, false, now)]
    requires ListOf(l', p) == ListOf(l, p) + (if p in t.parties then [id] else [])
    requires forall x: Word :: (p, x) in l'.partyIndex <==> (p, x) in l.partyIndex || (x == id && p in t.parties)
    ensures PartyAgrees(l', p)
  {
    assert id !in ListOf(l, p);
  }

  lemma RegisterAgrees(ch: Chain, l: Ledger, t: Terms, signatures: seq<seq<byte>>, now: nat)
    requires Agrees(l) && RegisterConsent(ch, l, t, signatures, now).Ok?
    ensures Agrees(RegisterConsent(ch, l, t, signatures, now).value.0)
  {
    Registered(ch, l, t, signatures, now);
    forall p: Address ensures PartyAgrees(RegisterConsent(ch, l, t, signatures, now).value.0, p) {
      assert PartyAgrees(l, p);
      RegisterPartyAgrees(ch, l, t, signatures, now, p);
    }
  }

  /** Revocations and updates change neither the keys nor the parties. */
  lemma ReplaceAgrees(l: Ledger, id: Word, consent: Consent)
    requires Agrees(l) && id in l.existing
    requires consent.id == id && consent.terms.parties == l.consents[id].terms.parties
    ensures Agrees(l.(consents := l.consents[id := consent]))
  {
    var l' := l.(consents := l.consents[id := consent]);
    assert l'.consents.Keys == l.consents.Keys;
    forall p: Address ensures PartyAgrees(l', p) {
      assert PartyAgrees(l, p) && ListOf(l', p) == ListOf(l, p);
    }
  }

  lemma AgreesStep(ch: Chain, l: Ledger, tx: Tx)
    requires Agrees(l)
    ensures Agrees(Step(ch, l, tx))
  {
    match tx.call
    case Register(t, signatures) =>
      if RegisterConsent(ch, l, t, signatures, tx.now).Ok? {
        RegisterAgrees(ch, l, t, signatures, tx.now);
      }
    case Revoke(id, sender) =>
      if RevokeConsent(l, id, sender).Ok? {
        ReplaceAgrees(l, id, l.consents[id].(revoked := true));
      }
    case Update(id, validUntil, uri, signatures) =>
      if UpdateConsent(ch, l, id, validUntil, uri, signatures, tx.now).Ok? {
        ReplaceAgrees(l, id, l.consents[id].(terms := l.consents[id].terms.(validUntil := validUntil, uri := uri)));
      }
  }

  lemma {:induction false} AlwaysAgrees(ch: Chain, l: Ledger, run: seq<Tx>)
    requires Agrees(l)
    ensures Agrees(Exec(ch, l, run))
    decreases |run|
  {
    if run != [] {
      AgreesStep(ch, l, run[0]);
      AlwaysAgrees(ch, Step(ch, l, run[0]), run[1..]);
    }
  }

  /** In every reachable state all five parts of the storage agree. */
  lemma PartyIndexAgreement(ch: Chain, run: seq<Tx>)
    ensures Agrees(Exec(ch, EMPTY, run))
  {
    AlwaysAgrees(ch, EMPTY, run);
  }

  // Finality

  /** How a ledger may change over time. */
  ghost predicate Evolves(l: Ledger, l': Ledger) {
    && l.existing <= l'.existing
    && (forall id | id in l.consents :: id in l'.consents && EvolvesTo(l.consents[id], l'.consents[id]))
  }

  predicate EvolvesTo(c: Consent, c': Consent) {
    && c'.id == c.id
    && c'.terms == c.terms.(validUntil := c'.terms.validUntil, uri := c'.terms.uri)
    && c'.createdAt == c.createdAt
    && (c.revoked ==> c'.revoked)
  }

  lemma EvolvesStep(ch: Chain, l: Ledger, tx: Tx)
    requires l.consents.Keys == l.existing
    ensures Evolves(l, Step(ch, l, tx)) && Step(ch, l, tx).consents.Keys == Step(ch, l, tx).existing
  {
    if tx.call.Register? && RegisterConsent(ch, l, tx.call.t, tx.call.signatures, tx.now).Ok? {
      Registered(ch, l, tx.call.t, tx.call.signatures, tx.now);
    }
  }

  lemma {:induction false} EvolvesRun(ch: Chain, l: Ledger, run: seq<Tx>)
    requires l.consents.Keys == l.existing
    ensures Evolves(l, Exec(ch, l, run)) && Exec(ch, l, run).consents.Keys == Exec(ch, l, run).existing
    decreases |run|
  {
    if run != [] {
      var l1 := Step(ch, l, run[0]);
      EvolvesStep(ch, l, run[0]);
      EvolvesRun(ch, l1, run[1..]);
      forall id | id in l.consents
        ensures id in Exec(ch, l, run).consents && EvolvesTo(l.consents[id], Exec(ch, l, run).consents[id])
      {
        assert EvolvesTo(l.consents[id], l1.consents[id]);
      }
    }
  }

  lemma StaysRevoked(ch: Chain, l: Ledger, run: seq<Tx>, id: Word)
    requires l.consents.Keys == l.existing && id in l.existing && l.consents[id].revoked
    ensures var l' := Exec(ch, l, run);
            && id in l'.consents && l'.consents[id].revoked && EvolvesTo(l.consents[id], l'.consents[id])
            && (forall now :: !IsConsentValid(l', id, now))
  {
    EvolvesRun(ch, l, run);
    assert EvolvesTo(l.consents[id], Exec(ch, l, run).consents[id]);
  }

  /** Terms are registered at most once, even if their consent has been updated or revoked since, and whatever
      signatures come with them. */
  lemma RegisteredOnce(ch: Chain, l: Ledger, t: Terms, signatures: seq<seq<byte>>, now: nat, l1: Ledger, id: Word,
                       run: seq<Tx>, signatures': seq<seq<byte>>, now': nat)
    requires l.consents.Keys == l.existing && RegisterConsent(ch, l, t, signatures, now) == Ok((l1, id))
    ensures RegisterConsent(ch, Exec(ch, l1, run), t, signatures', now')
            == Err(if |signatures'| != |t.parties| then SignatureCountMismatch else AlreadyExists)
  {
    Registered(ch, l, t, signatures, now);
    EvolvesRun(ch, l1, run);
  }

  // Provenance

  predicate Accepted(ch: Chain, l: Ledger, tx: Tx) {
    match tx.call
    case Register(t, signatures) => RegisterConsent(ch, l, t, signatures, tx.now).Ok?
    case Revoke(id, sender) => RevokeConsent(l, id, sender).Ok?
    case Update(id, validUntil, uri, signatures) => UpdateConsent(ch, l, id, validUntil, uri, signatures, tx.now).Ok?
  }

  /** The call writes the terms of consent id if it is accepted. */
  predicate Concerns(ch: Chain, call: Call, id: Word) {
    match call
    case Register(t, _) => ConsentId(ch.crypto, t) == id
    case Revoke(_, _) => false
    case Update(id', _, _, _) => id' == id
  }

  /** The call puts the terms t forward, and its i-th signature recovers the i-th party from their EIP-712 digest. */
  ghost predicate Presents(ch: Chain, call: Call, t: Terms) {
    && (call.Register? || call.Update?)
    && (call.Register? ==> t == call.t)
    && (call.Update? ==> t.validUntil == call.validUntil && t.uri == call.uri)
    && AllSigned(ch.crypto, ConsentDigest(ch.crypto, ch.domainSeparator, t), call.signatures, t.parties)
  }

  /** Transaction i of a run from the empty ledger was accepted and wrote the terms of consent id. */
  predicate Wrote(ch: Chain, run: seq<Tx>, i: nat, id: Word) {
    i < |run| && Concerns(ch, run[i].call, id) && Accepted(ch, Exec(ch, EMPTY, run[..i]), run[i])
  }

  predicate RegisteredAt(ch: Chain, run: seq<Tx>, i: nat, id: Word) {
    Wrote(ch, run, i, id) && run[i].call.Register?
  }

  /** Transaction i is the registration that consent c of id goes back to. */
  ghost predicate IsOrigin(ch: Chain, run: seq<Tx>, id: Word, c: Consent, i: nat) {
    && RegisteredAt(ch, run, i, id)
    && Presents(ch, run[i].call, run[i].call.t)
    && c.terms == run[i].call.t.(validUntil := c.terms.validUntil, uri := c.terms.uri)
    && c.createdAt == run[i].now
  }

  /** Transaction i is the latest accepted one to write the terms of id, and wrote t. */
  ghost predicate IsLatest(ch: Chain, run: seq<Tx>, id: Word, t: Terms, i: nat) {
    && Wrote(ch, run, i, id)
    && Presents(ch, run[i].call, t)
    && (run[i].call.Update? ==> ValidateConsent(t, run[i].now))
    && NotWrittenSince(ch, run, id, i)
  }

  ghost predicate NotWrittenSince(ch: Chain, run: seq<Tx>, id: Word, i: nat) {
    forall j | i < j < |run| :: !Wrote(ch, run, j, id)
  }

  /** Consent c of id comes from its registration `first` and the latest transaction to write its terms, `last`, each
      with signatures of its own for the terms it wrote. */
  ghost predicate ComesFrom(ch: Chain, run: seq<Tx>, id: Word, c: Consent, first: nat, last: nat) {
    first <= last && IsOrigin(ch, run, id, c, first) && IsLatest(ch, run, id, c.terms, last)
  }

  lemma {:induction false} ExecConcat(ch: Chain, l: Ledger, x: seq<Tx>, y: seq<Tx>)
    ensures Exec(ch, l, x + y) == Exec(ch, Exec(ch, l, x), y)
    decreases |x|
  {
    if x == [] {
      assert x + y == y;
    } else {
      assert (x + y)[0] == x[0] && (x + y)[1..] == x[1..] + y;
      ExecConcat(ch, Step(ch, l, x[0]), x[1..], y);
    }
  }

  /** The last transaction of a run, and the run before it. */
  lemma LastOf(ch: Chain, run: seq<Tx>)
    requires run != []
    ensures var n := |run| - 1; Exec(ch, EMPTY, run) == Step(ch, Exec(ch, EMPTY, run[..n]), run[n])
  {
    var n := |run| - 1;
    assert run == run[..n] + [run[n]] && [run[n]][1..] == [];
    ExecConcat(ch, EMPTY, run[..n], [run[n]]);
  }

  lemma WroteEarlier(ch: Chain, run: seq<Tx>, past: seq<Tx>, i: nat, id: Word)
    requires i < |past| && past <= run
    ensures Wrote(ch, past, i, id) == Wrote(ch, run, i, id)
  {
    assert past[..i] == run[..i];
  }

  lemma UntouchedTerms(ch: Chain, l: Ledger, tx: Tx, id: Word)
    requires id in Step(ch, l, tx).consents && !(Concerns(ch, tx.call, id) && Accepted(ch, l, tx))
    ensures id in l.consents
    ensures Step(ch, l, tx).consents[id].terms == l.consents[id].terms
    ensures Step(ch, l, tx).consents[id].createdAt == l.consents[id].createdAt
  {
    if tx.call.Register? && Accepted(ch, l, tx) {
      Registered(ch, l, tx.call.t, tx.call.signatures, tx.now);
    }
  }

  /** What an accepted writing transaction leaves, and the signatures it came with. */
  lemma WrittenTerms(ch: Chain, l: Ledger, tx: Tx, id: Word)
    requires Concerns(ch, tx.call, id) && Accepted(ch, l, tx)
    ensures id in Step(ch, l, tx).consents
    ensures var c := Step(ch, l, tx).consents[id];
            && Presents(ch, tx.call, c.terms)
            && (tx.call.Register? ==> c == Consent(id, tx.call.t, false, tx.now))
            && (tx.call.Update? ==>
                  && id in l.consents && c.createdAt == l.consents[id].createdAt && ValidateConsent(c.terms, tx.now)
                  && c.terms == l.consents[id].terms.(validUntil := c.terms.validUntil, uri := c.terms.uri))
  {
    if tx.call.Register? {
      Registered(ch, l, tx.call.t, tx.call.signatures, tx.now);
    }
    var t := Step(ch, l, tx).consents[id].terms;
    MultiSigIsAllSigned(ch.crypto, ConsentDigest(ch.crypto, ch.domainSeparator, t), tx.call.signatures, t.parties);
  }

  lemma StillOrigin(ch: Chain, run: seq<Tx>, past: seq<Tx>, id: Word, c: Consent, c': Consent, i: nat)
    requires past <= run && IsOrigin(ch, past, id, c, i)
    requires c'.terms == c.terms.(validUntil := c'.terms.validUntil, uri := c'.terms.uri) && c'.createdAt == c.createdAt
    ensures IsOrigin(ch, run, id, c', i)
  {
    WroteEarlier(ch, run, past, i, id);
  }

  lemma StillNotWritten(ch: Chain, run: seq<Tx>, past: seq<Tx>, id: Word, i: nat)
    requires past < run && |run| == |past| + 1
    requires NotWrittenSince(ch, past, id, i) && !Wrote(ch, run, |past|, id)
    ensures NotWrittenSince(ch, run, id, i)
  {
    forall j: nat | j < |past| ensures Wrote(ch, past, j, id) == Wrote(ch, run, j, id) {
      WroteEarlier(ch, run, past, j, id);
    }
  }

  lemma StillLatest(ch: Chain, run: seq<Tx>, past: seq<Tx>, id: Word, t: Terms, i: nat)
    requires past < run && |run| == |past| + 1
    requires IsLatest(ch, past, id, t, i) && !Wrote(ch, run, |past|, id)
    ensures IsLatest(ch, run, id, t, i)
  {
    WroteEarlier(ch, run, past, i, id);
    StillNotWritten(ch, run, past, id, i);
  }

  /** Signed terms: whatever the run, a stored consent is filed under the identifier of the terms of an accepted
      registration of that run, from which its current terms differ in validUntil and URI only; the current terms are
      those of the latest accepted transaction that wrote them; and both transactions carried a signature vector whose
      i-th entry recovers the i-th party from the digest of the terms it wrote. */
  lemma {:induction false} SignedTerms(ch: Chain, run: seq<Tx>, id: Word)
    requires id in Exec(ch, EMPTY, run).consents
    ensures exists first, last :: ComesFrom(ch, run, id, Exec(ch, EMPTY, run).consents[id], first, last)
    decreases |run|
  {
    if run != [] {
      var n := |run| - 1;
      var past, l, l' := run[..n], Exec(ch, EMPTY, run[..n]), Exec(ch, EMPTY, run);
      LastOf(ch, run);
      if !Wrote(ch, run, n, id) {
        UntouchedTerms(ch, l, run[n], id);
        SignedTerms(ch, past, id);
        var first, last :| ComesFrom(ch, past, id, l.consents[id], first, last);
        StillOrigin(ch, run, past, id, l.consents[id], l'.consents[id], first);
        StillLatest(ch, run, past, id, l.consents[id].terms, last);
        assert ComesFrom(ch, run, id, l'.consents[id], first, last);
      } else {
        WrittenTerms(ch, l, run[n], id);
        if run[n].call.Update? {
          SignedTerms(ch, past, id);
          var first, last :| ComesFrom(ch, past, id, l.consents[id], first, last);
          StillOrigin(ch, run, past, id, l.consents[id], l'.consents[id], first);
          assert ComesFrom(ch, run, id, l'.consents[id], first, n);
        } else {
          assert ComesFrom(ch, run, id, l'.consents[id], n, n);
        }
      }
    }
  }

  /** Signatures are good for ever: those with which a transaction was accepted are accepted again by an update to the
      same terms, whatever came after, exactly when the terms still validate; the update brings them back. */
  lemma SignaturesStayGood(ch: Chain, l: Ledger, tx: Tx, id: Word, t: Terms, run: seq<Tx>, now: nat)
    requires l.consents.Keys == l.existing && Concerns(ch, tx.call, id) && Accepted(ch, l, tx)
    requires id in Step(ch, l, tx).consents && t == Step(ch, l, tx).consents[id].terms
    ensures var l' := Exec(ch, Step(ch, l, tx), run);
            var again := UpdateConsent(ch, l', id, t.validUntil, t.uri, tx.call.signatures, now);
            && (again.Ok? <==> ValidateConsent(t, now))
            && (again.Ok? ==> again.value.consents[id].terms == t)
  {
    var l1 := Step(ch, l, tx);
    WrittenTerms(ch, l, tx, id);
    EvolvesStep(ch, l, tx);
    EvolvesRun(ch, l1, run);
    assert EvolvesTo(l1.consents[id], Exec(ch, l1, run).consents[id]);
    UpdateAcceptedIff(ch, Exec(ch, l1, run), id, t.validUntil, t.uri, tx.call.signatures, now);
  }

  /** The digest holds no identifier. So signatures accepted for terms of a consent, by an update say, also register
      the same terms as a consent of their own, after whatever run, revocations of the first one included, exactly when
      the identifier of those terms is not registered. */
  lemma SignaturesRegisterToo(ch: Chain, l: Ledger, tx: Tx, id: Word, t: Terms, run: seq<Tx>, now: nat)
    requires l.consents.Keys == l.existing && Concerns(ch, tx.call, id) && Accepted(ch, l, tx)
    requires id in Step(ch, l, tx).consents && t == Step(ch, l, tx).consents[id].terms
    ensures var l' := Exec(ch, Step(ch, l, tx), run);
            RegisterConsent(ch, l', t, tx.call.signatures, now).Ok? <==> ConsentId(ch.crypto, t) !in l'.existing
  {
    WrittenTerms(ch, l, tx, id);
    RegisterAcceptedIff(ch, Exec(ch, Step(ch, l, tx), run), t, tx.call.signatures, now);
    if tx.call.Register? {
      Registered(ch, l, tx.call.t, tx.call.signatures, tx.now);
    }
  }

  /** Revocation is final: after an accepted revocation in any run, whatever transactions follow, at whatever times,
      the consent stays stored and revoked, is never valid again, and keeps identifier, parties, scopes, validFrom and
      creation time. */
  lemma RevocationIsFinal(ch: Chain, past: seq<Tx>, tx: Tx, run: seq<Tx>)
    requires tx.call.Revoke? && Accepted(ch, Exec(ch, EMPTY, past), tx)
    ensures tx.call.id in Exec(ch, EMPTY, past).consents
    ensures var id, c := tx.call.id, Exec(ch, EMPTY, past).consents[tx.call.id];
            var l' := Exec(ch, Step(ch, Exec(ch, EMPTY, past), tx), run);
            && id in l'.consents && l'.consents[id].revoked
            && (forall now :: !IsConsentValid(l', id, now))
            && l'.consents[id].id == id
            && l'.consents[id].terms.parties == c.terms.parties
            && l'.consents[id].terms.scopes == c.terms.scopes
            && l'.consents[id].terms.validFrom == c.terms.validFrom
            && l'.consents[id].createdAt == c.createdAt
  {
    var l := Exec(ch, EMPTY, past);
    AlwaysAgrees(ch, EMPTY, past);
    RevokeAcceptedIff(l, tx.call.id, tx.call.sender);
    EvolvesStep(ch, l, tx);
    StaysRevoked(ch, Step(ch, l, tx), run, tx.call.id);
  }

  /** A registration looks at no time: it is accepted at one timestamp as at another, and the new consent is ever valid
      exactly if its interval is not empty. */
  lemma RegistrationIgnoresTimes(ch: Chain, l: Ledger, t: Terms, signatures: seq<seq<byte>>, now: nat, now': nat)
    ensures RegisterConsent(ch, l, t, signatures, now).Ok? == RegisterConsent(ch, l, t, signatures, now').Ok?
    ensures RegisterConsent(ch, l, t, signatures, now).Ok? ==>
              var (l', id) := RegisterConsent(ch, l, t, signatures, now).value;
              (exists time :: IsConsentValid(l', id, time)) <==> t.validFrom < t.validUntil
  {
    if RegisterConsent(ch, l, t, signatures, now).Ok? {
      Registered(ch, l, t, signatures, now);
      var (l', id) := RegisterConsent(ch, l, t, signatures, now).value;
      assert IsConsentValid(l', id, t.validFrom) <==> t.validFrom < t.validUntil;
    }
  }

  // Validity

  /** Transaction i of a run from the empty ledger was an accepted revocation of consent id. */
  predicate RevokedAt(ch: Chain, run: seq<Tx>, i: nat, id: Word) {
    i < |run| && run[i].call.Revoke? && run[i].call.id == id && Accepted(ch, Exec(ch, EMPTY, run[..i]), run[i])
  }

  ghost predicate Revoked(ch: Chain, run: seq<Tx>, id: Word) {
    exists i: nat :: RevokedAt(ch, run, i, id)
  }

  /** Transaction i is the latest accepted one to write the terms of id. */
  ghost predicate LastWrote(ch: Chain, run: seq<Tx>, i: nat, id: Word) {
    Wrote(ch, run, i, id) && NotWrittenSince(ch, run, id, i)
  }

  /** The validUntil that a call writes. */
  function EndOf(call: Call): nat {
    match call
    case Register(t, _) => t.validUntil
    case Revoke(_, _) => 0
    case Update(_, validUntil, _, _) => validUntil
  }

  /** By the accepted transactions of a run, consent id is valid at a time: it was registered with a validFrom that has
      come, the latest transaction to write its terms wrote a validUntil that has not, and none has revoked it. */
  ghost predicate ValidIn(ch: Chain, run: seq<Tx>, id: Word, now: nat) {
    && (exists first: nat, last: nat :: RegisteredAt(ch, run, first, id) && LastWrote(ch, run, last, id)
                                        && run[first].call.t.validFrom <= now < EndOf(run[last].call))
    && !Revoked(ch, run, id)
  }

  /** By those transactions, p is a party of consent id. */
  ghost predicate PartyIn(ch: Chain, run: seq<Tx>, id: Word, p: Address) {
    exists first: nat :: RegisteredAt(ch, run, first, id) && p in run[first].call.t.parties
  }

  lemma RevokedEarlier(ch: Chain, run: seq<Tx>, past: seq<Tx>, i: nat, id: Word)
    requires i < |past| && past <= run
    ensures RevokedAt(ch, past, i, id) == RevokedAt(ch, run, i, id)
  {
    assert past[..i] == run[..i];
  }

  lemma ExistingGrows(ch: Chain, run: seq<Tx>, i: nat, l: Ledger)
    requires i <= |run| && l == Exec(ch, EMPTY, run[..i])
    ensures l.existing <= Exec(ch, EMPTY, run).existing
  {
    assert run == run[..i] + run[i..];
    ExecConcat(ch, EMPTY, run[..i], run[i..]);
    AlwaysAgrees(ch, EMPTY, run[..i]);
    EvolvesRun(ch, l, run[i..]);
  }

  lemma RevokedExists(ch: Chain, run: seq<Tx>, i: nat, id: Word)
    requires RevokedAt(ch, run, i, id)
    ensures id in Exec(ch, EMPTY, run).existing
  {
    ExistingGrows(ch, run, i, Exec(ch, EMPTY, run[..i]));
  }

  /** The flag of a consent in one step. */
  lemma FlagStep(ch: Chain, l: Ledger, tx: Tx, id: Word)
    requires l.consents.Keys == l.existing && id in Step(ch, l, tx).consents
    ensures id in l.consents ==>
              (Step(ch, l, tx).consents[id].revoked
               <==> l.consents[id].revoked || (tx.call.Revoke? && tx.call.id == id && Accepted(ch, l, tx)))
    ensures id !in l.consents ==> !Step(ch, l, tx).consents[id].revoked
  {
    if tx.call.Register? && Accepted(ch, l, tx) {
      Registered(ch, l, tx.call.t, tx.call.signatures, tx.now);
    } else if tx.call.Revoke? {
      RevokeAcceptedIff(l, tx.call.id, tx.call.sender);
    }
  }

  lemma NotRevokedBefore(ch: Chain, run: seq<Tx>, id: Word)
    requires run != [] && id !in Exec(ch, EMPTY, run[..|run| - 1]).existing
    ensures !Revoked(ch, run, id)
  {
    var past := run[..|run| - 1];
    forall i: nat | i < |run| ensures !RevokedAt(ch, run, i, id) {
      if i < |past| {
        RevokedEarlier(ch, run, past, i, id);
        if RevokedAt(ch, past, i, id) {
          RevokedExists(ch, past, i, id);
          assert false;
        }
      }
    }
  }

  lemma RevokedMore(ch: Chain, run: seq<Tx>, id: Word)
    requires run != []
    ensures Revoked(ch, run, id) <==> Revoked(ch, run[..|run| - 1], id) || RevokedAt(ch, run, |run| - 1, id)
  {
    var past := run[..|run| - 1];
    if i: nat :| RevokedAt(ch, run, i, id) && i < |past| {
      RevokedEarlier(ch, run, past, i, id);
    }
    if i: nat :| RevokedAt(ch, past, i, id) {
      RevokedEarlier(ch, run, past, i, id);
    }
  }

  lemma {:induction false} FlagIsRevocation(ch: Chain, run: seq<Tx>, id: Word)
    requires id in Exec(ch, EMPTY, run).consents
    ensures Exec(ch, EMPTY, run).consents[id].revoked <==> Revoked(ch, run, id)
    decreases |run|
  {
    if run != [] {
      var n := |run| - 1;
      LastOf(ch, run);
      AlwaysAgrees(ch, EMPTY, run[..n]);
      FlagStep(ch, Exec(ch, EMPTY, run[..n]), run[n], id);
      if id in Exec(ch, EMPTY, run[..n]).consents {
        FlagIsRevocation(ch, run[..n], id);
        RevokedMore(ch, run, id);
      } else {
        NotRevokedBefore(ch, run, id);
      }
    }
  }

  lemma {:induction false} RegisteredAtOnce(ch: Chain, run: seq<Tx>, i: nat, j: nat, id: Word)
    requires RegisteredAt(ch, run, i, id) && RegisteredAt(ch, run, j, id)
    ensures i == j
    decreases |run|
  {
    var n := |run| - 1;
    if i < n && j < n {
      WroteEarlier(ch, run, run[..n], i, id);
      WroteEarlier(ch, run, run[..n], j, id);
      RegisteredAtOnce(ch, run[..n], i, j, id);
    } else if i == n {
      RegisteredOnlyAt(ch, run, j, id);
    } else {
      RegisteredOnlyAt(ch, run, i, id);
    }
  }

  /** The transactions behind a stored consent, and no others, are its registration and the latest to write its terms.
      */
  lemma TermsOf(ch: Chain, run: seq<Tx>, id: Word, first: nat, last: nat)
    requires RegisteredAt(ch, run, first, id) && LastWrote(ch, run, last, id)
    ensures id in Exec(ch, EMPTY, run).consents
    ensures var t := Exec(ch, EMPTY, run).consents[id].terms;
            && t.parties == run[first].call.t.parties && t.scopes == run[first].call.t.scopes
            && t.validFrom == run[first].call.t.validFrom && t.validUntil == EndOf(run[last].call)
  {
    RegisteredExists(ch, run, first, id);
    AlwaysAgrees(ch, EMPTY, run);
    SignedTerms(ch, run, id);
    var c := Exec(ch, EMPTY, run).consents[id];
    var i, j :| ComesFrom(ch, run, id, c, i, j);
    RegisteredAtOnce(ch, run, first, i, id);
    assert j == last;
  }

  lemma LastWroteOnce(ch: Chain, run: seq<Tx>, i: nat, j: nat, id: Word)
    requires LastWrote(ch, run, i, id) && LastWrote(ch, run, j, id)
    ensures i == j
  {
  }

  /** Every stored consent has them. */
  lemma WritersOf(ch: Chain, run: seq<Tx>, id: Word) returns (first: nat, last: nat)
    requires id in Exec(ch, EMPTY, run).consents
    ensures RegisteredAt(ch, run, first, id) && LastWrote(ch, run, last, id)
  {
    SignedTerms(ch, run, id);
    var c := Exec(ch, EMPTY, run).consents[id];
    first, last :| ComesFrom(ch, run, id, c, first, last);
  }

  lemma ValidByWriters(ch: Chain, run: seq<Tx>, id: Word, now: nat, first: nat, last: nat)
    requires RegisteredAt(ch, run, first, id) && LastWrote(ch, run, last, id)
    ensures ValidIn(ch, run, id, now)
            <==> run[first].call.t.validFrom <= now < EndOf(run[last].call) && !Revoked(ch, run, id)
  {
    if ValidIn(ch, run, id, now) {
      var i: nat, j: nat :| RegisteredAt(ch, run, i, id) && LastWrote(ch, run, j, id)
                            && run[i].call.t.validFrom <= now < EndOf(run[j].call);
      RegisteredAtOnce(ch, run, i, first, id);
      LastWroteOnce(ch, run, j, last, id);
    }
  }

  lemma ValidExists(ch: Chain, run: seq<Tx>, id: Word, now: nat)
    requires ValidIn(ch, run, id, now)
    ensures id in Exec(ch, EMPTY, run).existing
  {
    var i: nat, j: nat :| RegisteredAt(ch, run, i, id) && LastWrote(ch, run, j, id)
                          && run[i].call.t.validFrom <= now < EndOf(run[j].call);
    RegisteredExists(ch, run, i, id);
  }

  /** In every reachable state and at every time, a consent is valid if and only if the accepted transactions say so:
      it is registered, has begun, has not ended by the latest terms written, and has not been revoked. */
  lemma ValidIff(ch: Chain, run: seq<Tx>, id: Word, now: nat)
    ensures IsConsentValid(Exec(ch, EMPTY, run), id, now) <==> ValidIn(ch, run, id, now)
  {
    AlwaysAgrees(ch, EMPTY, run);
    if id in Exec(ch, EMPTY, run).consents {
      var first, last := WritersOf(ch, run, id);
      TermsOf(ch, run, id, first, last);
      FlagIsRevocation(ch, run, id);
      ValidByWriters(ch, run, id, now, first, last);
    } else if ValidIn(ch, run, id, now) {
      ValidExists(ch, run, id, now);
      assert false;
    }
  }

  lemma PartyIff(ch: Chain, run: seq<Tx>, id: Word, p: Address)
    ensures PartyIn(ch, run, id, p)
            <==> id in Exec(ch, EMPTY, run).consents && p in Exec(ch, EMPTY, run).consents[id].terms.parties
  {
    AlwaysAgrees(ch, EMPTY, run);
    if PartyIn(ch, run, id, p) {
      var i: nat :| RegisteredAt(ch, run, i, id) && p in run[i].call.t.parties;
      RegisteredExists(ch, run, i, id);
      var first, last := WritersOf(ch, run, id);
      RegisteredAtOnce(ch, run, i, first, id);
      TermsOf(ch, run, id, first, last);
    } else if id in Exec(ch, EMPTY, run).consents {
      var first, last := WritersOf(ch, run, id);
      TermsOf(ch, run, id, first, last);
    }
  }

  // Active listing

  /** Ids of a list that are valid at a timestamp, in their order. */
  function ActiveOf(l: Ledger, ids: seq<Word>, now: nat): seq<Word> {
    if ids == [] then []
    else
      var n := |ids| - 1;
      ActiveOf(l, ids[..n], now) + (if IsConsentValid(l, ids[n], now) then [ids[n]] else [])
  }

  lemma {:induction false} ActiveOfPrefix(l: Ledger, ids: seq<Word>, n: nat, now: nat)
    requires n <= |ids|
    ensures ActiveOf(l, ids[..n], now) <= ActiveOf(l, ids, now)
  {
    if n < |ids| {
      assert ids[..|ids| - 1][..n] == ids[..n];
      ActiveOfPrefix(l, ids[..|ids| - 1], n, now);
    } else {
      assert ids[..n] == ids;
    }
  }

  /** The positions of the selected ids in the list. */
  function Positions(l: Ledger, ids: seq<Word>, now: nat): seq<nat> {
    if ids == [] then []
    else
      var n := |ids| - 1;
      Positions(l, ids[..n], now) + (if IsConsentValid(l, ids[n], now) then [n] else [])
  }

  lemma {:induction false} ActiveOfIsSubsequence(l: Ledger, ids: seq<Word>, now: nat)
    ensures var active, at := ActiveOf(l, ids, now), Positions(l, ids, now);
            && |at| == |active|
            && (forall i | 0 <= i < |at| :: at[i] < |ids| && active[i] == ids[at[i]])
            && (forall i, j | 0 <= i < j < |at| :: at[i] < at[j])
    ensures forall id :: id in ActiveOf(l, ids, now) <==> id in ids && IsConsentValid(l, id, now)
  {
    if ids != [] {
      var n := |ids| - 1;
      ActiveOfIsSubsequence(l, ids[..n], now);
      assert ids == ids[..n] + [ids[n]];
    }
  }

  /** The ids were registered in the order in which they are listed. */
  ghost predicate InOrder(ch: Chain, run: seq<Tx>, ids: seq<Word>) {
    && (forall id | id in ids :: exists i :: RegisteredAt(ch, run, i, id))
    && (forall a, b, i, j |
          0 <= a < b < |ids| && RegisteredAt(ch, run, i, ids[a]) && RegisteredAt(ch, run, j, ids[b]) :: i < j)
  }

  lemma {:induction false} RegisteredExists(ch: Chain, run: seq<Tx>, i: nat, id: Word)
    requires RegisteredAt(ch, run, i, id)
    ensures id in Exec(ch, EMPTY, run).existing
    decreases |run|
  {
    var n := |run| - 1;
    var l := Exec(ch, EMPTY, run[..n]);
    LastOf(ch, run);
    if i == n {
      Registered(ch, l, run[n].call.t, run[n].call.signatures, run[n].now);
    } else {
      WroteEarlier(ch, run, run[..n], i, id);
      RegisteredExists(ch, run[..n], i, id);
      AlwaysAgrees(ch, EMPTY, run[..n]);
      EvolvesStep(ch, l, run[n]);
    }
  }

  /** An id that is already there is not registered by the last transaction. */
  lemma RegisteredBeforeLast(ch: Chain, run: seq<Tx>, i: nat, id: Word)
    requires RegisteredAt(ch, run, i, id) && id in Exec(ch, EMPTY, run[..|run| - 1]).existing
    ensures i < |run| - 1 && RegisteredAt(ch, run[..|run| - 1], i, id)
  {
    var n := |run| - 1;
    if i == n {
      assert false;
    }
    WroteEarlier(ch, run, run[..n], i, id);
  }

  lemma AppendInOrder(ch: Chain, run: seq<Tx>, ids: seq<Word>, ids': seq<Word>)
    requires run != [] && InOrder(ch, run[..|run| - 1], ids)
    requires forall id | id in ids :: id in Exec(ch, EMPTY, run[..|run| - 1]).existing
    requires ids' == ids || (exists id :: ids' == ids + [id] && RegisteredAt(ch, run, |run| - 1, id))
    ensures InOrder(ch, run, ids')
  {
    var n := |run| - 1;
    var m := |ids|;
    assert forall k | 0 <= k < m :: ids'[k] == ids[k] && ids[k] in ids;
    forall id | id in ids' ensures exists i :: RegisteredAt(ch, run, i, id) {
      if id in ids {
        var i :| RegisteredAt(ch, run[..n], i, id);
        WroteEarlier(ch, run, run[..n], i, id);
        assert RegisteredAt(ch, run, i, id);
      }
    }
    forall a, b, i, j | 0 <= a < b < |ids'| && RegisteredAt(ch, run, i, ids'[a]) && RegisteredAt(ch, run, j, ids'[b])
      ensures i < j
    {
      RegisteredBeforeLast(ch, run, i, ids'[a]);
      if b < m {
        RegisteredBeforeLast(ch, run, j, ids'[b]);
      } else {
        RegisteredOnlyAt(ch, run, j, ids'[b]);
      }
    }
  }

  lemma RegisteredOnlyAt(ch: Chain, run: seq<Tx>, j: nat, id: Word)
    requires run != [] && RegisteredAt(ch, run, |run| - 1, id) && RegisteredAt(ch, run, j, id)
    ensures j == |run| - 1
  {
    var n := |run| - 1;
    if j < n {
      WroteEarlier(ch, run, run[..n], j, id);
      RegisteredExists(ch, run[..n], j, id);
      assert false;
    }
  }

  lemma {:induction false} ListsInOrder(ch: Chain, run: seq<Tx>, p: Address)
    ensures InOrder(ch, run, ListOf(Exec(ch, EMPTY, run), p))
    decreases |run|
  {
    if run != [] {
      var n := |run| - 1;
      var l, l', tx := Exec(ch, EMPTY, run[..n]), Exec(ch, EMPTY, run), run[n];
      LastOf(ch, run);
      ListsInOrder(ch, run[..n], p);
      AlwaysAgrees(ch, EMPTY, run[..n]);
      assert PartyAgrees(l, p);
      if tx.call.Register? && Accepted(ch, l, tx) {
        RegisteredParty(ch, l, tx.call.t, tx.call.signatures, tx.now, p);
        Registered(ch, l, tx.call.t, tx.call.signatures, tx.now);
        assert RegisteredAt(ch, run, n, ConsentId(ch.crypto, tx.call.t));
      }
      AppendInOrder(ch, run, ListOf(l, p), ListOf(l', p));
    }
  }

  lemma ListedIff(ch: Chain, run: seq<Tx>, p: Address, now: nat, id: Word)
    ensures var l := Exec(ch, EMPTY, run);
            id in ActiveOf(l, ListOf(l, p), now) <==> ValidIn(ch, run, id, now) && PartyIn(ch, run, id, p)
  {
    var l := Exec(ch, EMPTY, run);
    AlwaysAgrees(ch, EMPTY, run);
    assert PartyAgrees(l, p);
    ActiveOfIsSubsequence(l, ListOf(l, p), now);
    ValidIff(ch, run, id, now);
    PartyIff(ch, run, id, p);
  }

  /** In every reachable state the listing of a party holds, once each and in the order of their registration, exactly
      the consents that by the accepted transactions name the party and are valid at that timestamp. */
  lemma ListingIsExact(ch: Chain, run: seq<Tx>, p: Address, now: nat)
    ensures var l := Exec(ch, EMPTY, run);
            var active := ActiveOf(l, ListOf(l, p), now);
            && (forall id :: id in active <==> ValidIn(ch, run, id, now) && PartyIn(ch, run, id, p))
            && Distinct(active)
            && InOrder(ch, run, active)
  {
    var l := Exec(ch, EMPTY, run);
    var ids := ListOf(l, p);
    forall id: Word
      ensures id in ActiveOf(l, ids, now) <==> ValidIn(ch, run, id, now) && PartyIn(ch, run, id, p)
    {
      ListedIff(ch, run, p, now, id);
    }
    AlwaysAgrees(ch, EMPTY, run);
    ActiveOfIsSubsequence(l, ids, now);
    assert PartyAgrees(l, p);
    ListsInOrder(ch, run, p);
    SelectInOrder(ch, run, ids, ActiveOf(l, ids, now), Positions(l, ids, now));
  }

  lemma SelectInOrder(ch: Chain, run: seq<Tx>, ids: seq<Word>, some: seq<Word>, at: seq<nat>)
    requires InOrder(ch, run, ids) && |at| == |some|
    requires forall i | 0 <= i < |at| :: at[i] < |ids| && some[i] == ids[at[i]]
    requires forall i, j | 0 <= i < j < |at| :: at[i] < at[j]
    ensures InOrder(ch, run, some)
  {
    forall id | id in some ensures exists i :: RegisteredAt(ch, run, i, id) {
      assert id in ids;
    }
  }

  /** Registration order: a run only appends to the list of a party. */
  lemma {:induction false} ListsOnlyGrow(ch: Chain, l: Ledger, run: seq<Tx>, p: Address)
    ensures ListOf(l, p) <= ListOf(Exec(ch, l, run), p)
    decreases |run|
  {
    if run != [] {
      var tx := run[0];
      if tx.call.Register? && RegisterConsent(ch, l, tx.call.t, tx.call.signatures, tx.now).Ok? {
        RegisteredParty(ch, l, tx.call.t, tx.call.signatures, tx.now, p);
      }
      ListsOnlyGrow(ch, Step(ch, l, tx), run[1..], p);
    }
  }
}
