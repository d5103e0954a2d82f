/** The ConsentRegistry contract as an object whose methods update its storage in place. A revert is an Err that leaves
    the storage as it was. */
module RegistryContract {
  import opened Bytes
  import opened Wrappers
  import opened ConsentTerms
  import opened Signatures
  import opened Registry

  class ConsentRegistry {
    const chain: Chain
    var consentCount: nat
    var consents: map<Word, Consent>
    var consentExists: set<Word>
    var partyConsents: map<Address, seq<Word>>
    var partyConsentIndex: set<(Address, Word)>

    ghost function View(): Ledger
      reads this
    {
      Ledger(consentCount, consents, consentExists, partyConsents, partyConsentIndex)
    }

    /** The five parts of the storage agree, after every transaction. */
    ghost predicate Valid()
      reads this
    {
      Agrees(View())
    }

    /** All that the views need of it: what exists is stored. */
    ghost predicate Stored()
      reads this
      ensures Valid() ==> Stored()
    {
      consents.Keys == consentExists
    }

    constructor (ch: Chain)
      ensures Valid() && View() == EMPTY && chain == ch
    {
      chain := ch;
      consentCount, consents, consentExists, partyConsents, partyConsentIndex := 0, map[], {}, map[], {};
    }

    /** The revert of a signature check that is not passed. */
    method RequireSigned(t: Terms, signatures: seq<seq<byte>>) returns (r: Result<(), Error>)
      ensures r == CheckSignatures(chain, t, signatures)
    {
      var valid := VerifyMultiSig(chain.crypto, chain.domainSeparator, t, signatures, t.parties);
      if valid.Err? {
        return Err(BadSignature(valid.error));
      }
      if !valid.value {
        return Err(InvalidSignatures);
      }
      return Ok(());
    }

    method RegisterConsent(t: Terms, signatures: seq<seq<byte>>, now: nat) returns (r: Result<Word, Error>)
      requires Valid()
      modifies this
      ensures Valid() && View() == Step(chain, old(View()), Tx(Register(t, signatures), now))
      ensures var spec := Registry.RegisterConsent(chain, old(View()), t, signatures, now);
              r == if spec.Ok? then Ok(spec.value.1) else Err(spec.error)
    {
      if |t.parties| == 0 {
        return Err(NoParties);
      }
      if |signatures| != |t.parties| {
        return Err(SignatureCountMismatch);
      }
      var consentId := ConsentId(chain.crypto, t);
      if consentId in consentExists {
        return Err(AlreadyExists);
      }
      var valid := RequireSigned(t, signatures);
      if valid.Err? {
        return Err(valid.error);
      }
      AgreesStep(chain, View(), Tx(Register(t, signatures), now));
      StoreConsent(consentId, t, now);
      IndexAllParties(t.parties, consentId);
      return Ok(consentId);
    }

    method StoreConsent(id: Word, t: Terms, now: nat)
      modifies this`consents, this`consentExists, this`consentCount
      ensures View() == Store(old(View()), id, t, now)
    {
      consents, consentExists, consentCount :=
        consents[id := Consent(id, t, false, now)], consentExists + {id}, consentCount + 1;
    }

    method IndexAllParties(parties: seq<Address>, id: Word)
      modifies this`partyConsents, this`partyConsentIndex
      ensures View() == IndexParties(old(View()), parties, |parties|, id)
    {
      for i := 0 to |parties|
        invariant View() == IndexParties(old(View()), parties, i, id)
      {
        IndexParty(parties[i], id);
      }
    }

    /** The body of the loop over the parties. */
    method IndexParty(p: Address, id: Word)
      modifies this`partyConsents, this`partyConsentIndex
      ensures View() == Registry.IndexParty(old(View()), p, id)
    {
      if (p, id) !in partyConsentIndex {
        var list := if p in partyConsents then partyConsents[p] else [];
        partyConsents, partyConsentIndex := partyConsents[p := list + [id]], partyConsentIndex + {(p, id)};
      }
    }

    method RevokeConsent(id: Word, sender: Address) returns (r: Result<(), Error>)
      requires Valid()
      modifies this`consents
      ensures Valid() && View() == Step(chain, old(View()), Tx(Revoke(id, sender), 0))
      ensures var spec := Registry.RevokeConsent(old(View()), id, sender);
              r == if spec.Ok? then Ok(()) else Err(spec.error)
    {
      if id !in consentExists {
        return Err(DoesNotExist);
      }
      if consents[id].revoked {
        return Err(AlreadyRevoked);
      }
      var isParty := ContainsParty(consents[id].terms, sender);
      if !isParty {
        return Err(NotAParty);
      }
      AgreesStep(chain, View(), Tx(Revoke(id, sender), 0));
      consents := consents[id := consents[id].(revoked := true)];
      return Ok(());
    }

    method UpdateConsent(id: Word, newValidUntil: nat, newMetadataUri: seq<byte>, signatures: seq<seq<byte>>, now: nat)
      returns (r: Result<(), Error>)
      requires Valid()
      modifies this`consents
      ensures Valid()
      ensures View() == Step(chain, old(View()), Tx(Update(id, newValidUntil, newMetadataUri, signatures), now))
      ensures var l := old(View());
              var spec := Registry.UpdateConsent(chain, l, id, newValidUntil, newMetadataUri, signatures, now);
              r == if spec.Ok? then Ok(()) else Err(spec.error)
    {
      if id !in consentExists {
        return Err(DoesNotExist);
      }
      var current := consents[id];
      var updated := current.terms.(validUntil := newValidUntil, uri := newMetadataUri);
      if !ValidateConsent(updated, now) {
        return Err(InvalidParameters);
      }
      if |signatures| != |current.terms.parties| {
        return Err(SignatureCountMismatch);
      }
      var valid := RequireSigned(updated, signatures);
      if valid.Err? {
        return Err(valid.error);
      }
      AgreesStep(chain, View(), Tx(Update(id, newValidUntil, newMetadataUri, signatures), now));
      consents := consents[id := current.(terms := updated)];
      return Ok(());
    }

    /** Two passes: the first sizes the array, the second fills it exactly. */
    method GetActiveConsentsForParty(p: Address, now: nat) returns (active: array<Word>)
      requires Stored()
      ensures fresh(active) && active[..] == ActiveOf(View(), ListOf(View(), p), now)
    {
      var all := if p in partyConsents then partyConsents[p] else [];
      ghost var l := View();
      var activeCount := 0;
      for i := 0 to |all|
        invariant activeCount == |ActiveOf(l, all[..i], now)|
      {
        assert all[..i + 1][..i] == all[..i];
        if CheckValid(all[i], now) {
          activeCount := activeCount + 1;
        }
      }
      assert all[..|all|] == all;
      active := new Word[activeCount](_ => Zeros(WORD));
      var index := 0;
      for i := 0 to |all|
        invariant index == |ActiveOf(l, all[..i], now)| <= activeCount
        invariant active[..index] == ActiveOf(l, all[..i], now)
      {
        assert all[..i + 1][..i] == all[..i];
        ActiveOfPrefix(l, all, i + 1, now);
        if CheckValid(all[i], now) {
          active[index] := all[i];
          index := index + 1;
        }
      }
    }

    /** _isConsentValid, as a cascade of guards. */
    function CheckValid(id: Word, now: nat): (valid: bool)
      requires Stored()
      reads this
      ensures valid == IsConsentValid(View(), id, now)
    {
      if id !in consentExists then false
      else if consents[id].revoked then false
      else if now < consents[id].terms.validFrom then false
      else if now >= consents[id].terms.validUntil then false
      else true
    }

    method AreConsentsValid(ids: seq<Word>, now: nat) returns (results: array<bool>)
      requires Stored()
      ensures fresh(results) && results.Length == |ids|
      ensures forall i | 0 <= i < |ids| :: results[i] == IsConsentValid(View(), ids[i], now)
    {
      results := new bool[|ids|](_ => false);
      for i := 0 to |ids|
        invariant forall j | 0 <= j < i :: results[j] == IsConsentValid(View(), ids[j], now)
      {
        results[i] := CheckValid(ids[i], now);
      }
    }
  }
}
