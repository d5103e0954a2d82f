/** The consent receipts of ConsentToken.sol. The balances of a token are a multiset of holders: an address occurs as
    often as its balance says. */
module ConsentToken {
  import opened Bytes
  import opened Wrappers

  datatype Error =
    | NoParties
    | ReceiptAlreadyMinted
    | NoReceipt
    | InvalidReceiver
    | Refused
    | InvalidSender
    | InsufficientBalance
    | NoSuchToken

  /** The storage; a missing key stands for the default value. */
  datatype Ledger = Ledger(
    nextTokenId: nat,
    totalMinted: nat,
    consentTokenIds: map<Word, nat>,
    tokenConsentIds: map<nat, Word>,
    consentHasToken: set<Word>,
    consentURIs: map<Word, seq<byte>>,
    holders: map<nat, multiset<Address>>)

  const FIRST: Ledger := Ledger(1, 0, map[], map[], {}, map[], map[])

  const NOBODY: Address := Zeros(20)

  datatype Tx =
    | Mint(parties: seq<Address>, consentId: Word, uri: seq<byte>, refusing: set<Address>)
    | Burn(consentId: Word)
    | Transfer(from: Address, dest: Address, tokenId: nat, amount: nat, refusing: set<Address>)

  function TokenIdOf(l: Ledger, consentId: Word): nat {
    if consentId in l.consentTokenIds then l.consentTokenIds[consentId] else 0
  }

  function HoldersOf(l: Ledger, tokenId: nat): multiset<Address> {
    if tokenId in l.holders then l.holders[tokenId] else multiset{}
  }

  function Supply(l: Ledger, tokenId: nat): nat {
    |HoldersOf(l, tokenId)|
  }

  /** One token to each entry of the list, as the batch mint is meant to. Minting to the zero address reverts, and so
      does minting to a contract that refuses; `refusing` are the contracts that would. */
  function MintReceipt(l: Ledger, parties: seq<Address>, consentId: Word, uri: seq<byte>, refusing: set<Address>)
    : Result<(Ledger, nat), Error>
  {
    if |parties| == 0 then Err(NoParties)
    else if consentId in l.consentHasToken then Err(ReceiptAlreadyMinted)
    else if NOBODY in parties then Err(InvalidReceiver)
    else if exists p | p in parties :: p in refusing then Err(Refused)
    else
      var tokenId := l.nextTokenId;
      Ok((Ledger(l.nextTokenId + 1,
                 l.totalMinted + 1,
                 l.consentTokenIds[consentId := tokenId],
                 l.tokenConsentIds[tokenId := consentId],
                 l.consentHasToken + {consentId},
                 l.consentURIs[consentId := uri],
                 l.holders[tokenId := HoldersOf(l, tokenId) + multiset(parties)]), tokenId))
  }

  /** Burning takes the amount 0 from the contract's own balance, so no holder loses anything. */
  function BurnReceipt(l: Ledger, consentId: Word): Result<Ledger, Error> {
    if consentId !in l.consentHasToken then Err(NoReceipt)
    else
      var tokenId := TokenIdOf(l, consentId);
      Ok(l.(consentTokenIds := l.consentTokenIds - {consentId},
            tokenConsentIds := l.tokenConsentIds - {tokenId},
            consentHasToken := l.consentHasToken - {consentId},
            consentURIs := l.consentURIs - {consentId}))
  }

  function Moved(held: multiset<Address>, from: Address, dest: Address, amount: nat): multiset<Address>
    requires amount <= held[from]
  {
    var taken: multiset<Address> := held[from := held[from] - amount];
    var given: multiset<Address> := taken[dest := taken[dest] + amount];
    given
  }

  /** The ERC-1155 transfer inherited from the base contract. */
  function TransferTokens(l: Ledger, from: Address, dest: Address, tokenId: nat, amount: nat, refusing: set<Address>)
    : Result<Ledger, Error>
  {
    if dest == NOBODY then Err(InvalidReceiver)
    else if from == NOBODY then Err(InvalidSender)
    else if HoldersOf(l, tokenId)[from] < amount then Err(InsufficientBalance)
    else if dest in refusing then Err(Refused)
    else
      var held := HoldersOf(l, tokenId);
      Ok(l.(holders := l.holders[tokenId := Moved(held, from, dest, amount)]))
  }

  function Step(l: Ledger, tx: Tx): Ledger {
    match tx
    case Mint(parties, consentId, uri, refusing) =>
      (match MintReceipt(l, parties, consentId, uri, refusing) case Ok(r) => r.0 case Err(_) => l)
    case Burn(consentId) => (match BurnReceipt(l, consentId) case Ok(l') => l' case Err(_) => l)
    case Transfer(from, dest, tokenId, amount, refusing) =>
      (match TransferTokens(l, from, dest, tokenId, amount, refusing) case Ok(l') => l' case Err(_) => l)
  }

  function Exec(l: Ledger, run: seq<Tx>): Ledger
    decreases |run|
  {
    if run == [] then l else Exec(Step(l, run[0]), run[1..])
  }

  // Receipt maps

  /** The two maps are inverse on exactly the active receipts, ids are handed out in order, and only ids handed out
      occur anywhere. */
  ghost predicate Consistent(l: Ledger) {
    && l.totalMinted + 1 == l.nextTokenId
    && l.consentTokenIds.Keys == l.consentHasToken == l.consentURIs.Keys
    && (forall c | c in l.consentHasToken ::
          && 0 < l.consentTokenIds[c] < l.nextTokenId
          && l.consentTokenIds[c] in l.tokenConsentIds && l.tokenConsentIds[l.consentTokenIds[c]] == c)
    && (forall t | t in l.tokenConsentIds ::
          l.tokenConsentIds[t] in l.consentHasToken && l.consentTokenIds[l.tokenConsentIds[t]] == t)
    && (forall t | t in l.holders && HoldersOf(l, t) != multiset{} :: 0 < t < l.nextTokenId)
  }

  lemma ConsistentMint(l: Ledger, parties: seq<Address>, consentId: Word, uri: seq<byte>, refusing: set<Address>)
    requires Consistent(l) && MintReceipt(l, parties, consentId, uri, refusing).Ok?
    ensures Consistent(MintReceipt(l, parties, consentId, uri, refusing).value.0)
  {
    assert l.nextTokenId !in l.tokenConsentIds;
  }

  lemma ConsistentBurn(l: Ledger, consentId: Word)
    requires Consistent(l) && BurnReceipt(l, consentId).Ok?
    ensures Consistent(BurnReceipt(l, consentId).value)
  {
  }

  lemma MovedTokens(held: multiset<Address>, from: Address, dest: Address, amount: nat)
    requires amount <= held[from]
    ensures var moved := Moved(held, from, dest, amount);
            && |moved| == |held|
            && (from != dest ==> moved[from] == held[from] - amount && moved[dest] == held[dest] + amount)
            && (from == dest ==> moved == held)
  {
    var taken: multiset<Address> := held[from := held[from] - amount];
    var given: multiset<Address> := taken[dest := taken[dest] + amount];
    assert |taken| == |held| - amount;
    assert |given| == |taken| + amount;
    if from == dest {
      assert given == held;
    }
  }

  /** A transfer moves tokens: it changes the holders of no other token, and the supply of none. */
  lemma TransferKeepsSupply(l: Ledger, from: Address, dest: Address, tokenId: nat, amount: nat, refusing: set<Address>,
                            t: nat)
    requires TransferTokens(l, from, dest, tokenId, amount, refusing).Ok?
    ensures var l' := TransferTokens(l, from, dest, tokenId, amount, refusing).value;
            && Supply(l', t) == Supply(l, t)
            && (t != tokenId ==> HoldersOf(l', t) == HoldersOf(l, t))
            && (from != dest ==>
                  && HoldersOf(l', tokenId)[from] == HoldersOf(l, tokenId)[from] - amount
                  && HoldersOf(l', tokenId)[dest] == HoldersOf(l, tokenId)[dest] + amount)
            && (from == dest ==> HoldersOf(l', tokenId) == HoldersOf(l, tokenId))
  {
    MovedTokens(HoldersOf(l, tokenId), from, dest, amount);
  }

  lemma ConsistentTransfer(l: Ledger, from: Address, dest: Address, tokenId: nat, amount: nat, refusing: set<Address>)
    requires Consistent(l) && TransferTokens(l, from, dest, tokenId, amount, refusing).Ok?
    ensures Consistent(TransferTokens(l, from, dest, tokenId, amount, refusing).value)
  {
    var l' := TransferTokens(l, from, dest, tokenId, amount, refusing).value;
    TransferKeepsSupply(l, from, dest, tokenId, amount, refusing, tokenId);
    if HoldersOf(l, tokenId) == multiset{} {
      assert Supply(l', tokenId) == 0;
    }
  }

  lemma ConsistentStep(l: Ledger, tx: Tx)
    requires Consistent(l)
    ensures Consistent(Step(l, tx))
  {
    match tx
    case Mint(parties, consentId, uri, refusing) =>
      if MintReceipt(l, parties, consentId, uri, refusing).Ok? {
        ConsistentMint(l, parties, consentId, uri, refusing);
      }
    case Burn(consentId) =>
      if BurnReceipt(l, consentId).Ok? {
        ConsistentBurn(l, consentId);
      }
    case Transfer(from, dest, tokenId, amount, refusing) =>
      if TransferTokens(l, from, dest, tokenId, amount, refusing).Ok? {
        ConsistentTransfer(l, from, dest, tokenId, amount, refusing);
      }
  }

  /** Over all runs of mints, burns, mints again and transfers. */
  lemma {:induction false} AlwaysConsistent(l: Ledger, run: seq<Tx>)
    requires Consistent(l)
    ensures Consistent(Exec(l, run))
    decreases |run|
  {
    if run != [] {
      ConsistentStep(l, run[0]);
      AlwaysConsistent(Step(l, run[0]), run[1..]);
    }
  }

  /** What no later transaction changes about an id that has been handed out. */
  ghost predicate Settled(l: Ledger, l': Ledger, t: nat) {
    && l'.nextTokenId >= l.nextTokenId
    && Supply(l', t) == Supply(l, t)
    && (t in l'.tokenConsentIds ==> t in l.tokenConsentIds && l'.tokenConsentIds[t] == l.tokenConsentIds[t])
  }

  lemma SettledStep(l: Ledger, tx: Tx, t: nat)
    requires Consistent(l) && t < l.nextTokenId
    ensures Settled(l, Step(l, tx), t)
  {
    if tx.Transfer? && TransferTokens(l, tx.from, tx.dest, tx.tokenId, tx.amount, tx.refusing).Ok? {
      TransferKeepsSupply(l, tx.from, tx.dest, tx.tokenId, tx.amount, tx.refusing, t);
    }
  }

  /** An id below nextTokenId keeps its supply for ever, and is never given to another consent. */
  lemma {:induction false} IdsAreNeverReused(l: Ledger, run: seq<Tx>, t: nat)
    requires Consistent(l) && t < l.nextTokenId
    ensures Settled(l, Exec(l, run), t)
    decreases |run|
  {
    if run != [] {
      ConsistentStep(l, run[0]);
      SettledStep(l, run[0], t);
      IdsAreNeverReused(Step(l, run[0]), run[1..], t);
    }
  }

  /** A minted receipt has one token for each party entry, and keeps that supply whatever follows, burning included. */
  lemma SupplyIsFixedAtMint(past: seq<Tx>, parties: seq<Address>, consentId: Word, uri: seq<byte>,
                            refusing: set<Address>,
                          run: seq<Tx>)
    requires MintReceipt(Exec(FIRST, past), parties, consentId, uri, refusing).Ok?
    ensures var (minted, t) := MintReceipt(Exec(FIRST, past), parties, consentId, uri, refusing).value;
            && t == Exec(FIRST, past).nextTokenId
            && HoldersOf(minted, t) == multiset(parties) && minted.consentURIs[consentId] == uri
            && Supply(Exec(minted, run), t) == |parties|
            && (t in Exec(minted, run).tokenConsentIds ==> Exec(minted, run).tokenConsentIds[t] == consentId)
  {
    var l := Exec(FIRST, past);
    AlwaysConsistent(FIRST, past);
    var (minted, t) := MintReceipt(l, parties, consentId, uri, refusing).value;
    assert HoldersOf(l, t) == multiset{};
    assert HoldersOf(minted, t) == multiset(parties);
    ConsistentMint(l, parties, consentId, uri, refusing);
    IdsAreNeverReused(minted, run, t);
  }

  // Lookups

  function GetConsentTokenId(l: Ledger, consentId: Word): Result<nat, Error> {
    if consentId !in l.consentHasToken then Err(NoReceipt) else Ok(TokenIdOf(l, consentId))
  }

  /** The zero identifier marks a missing token. */
  function GetTokenConsentId(l: Ledger, tokenId: nat): Result<Word, Error> {
    var consentId := if tokenId in l.tokenConsentIds then l.tokenConsentIds[tokenId] else Zeros(WORD);
    if consentId == Zeros(WORD) then Err(NoSuchToken) else Ok(consentId)
  }

  function BalanceOfParty(l: Ledger, consentId: Word, party: Address): nat {
    if consentId !in l.consentHasToken then 0 else HoldersOf(l, TokenIdOf(l, consentId))[party]
  }

  /** A receipt is minted exactly for a consent without one, to parties that are there, none the zero address or a
      contract that refuses. The consent then has the next id, and no other consent or token changes. */
  lemma MintAcceptedIff(l: Ledger, parties: seq<Address>, consentId: Word, uri: seq<byte>, refusing: set<Address>)
    ensures var r := MintReceipt(l, parties, consentId, uri, refusing);
            && (r.Ok? <==>
                  && parties != [] && consentId !in l.consentHasToken
                  && (forall p | p in parties :: p != Zeros(20) && p !in refusing))
            && (r == Err(NoParties) <==> parties == [])
            && (r == Err(ReceiptAlreadyMinted) <==> parties != [] && consentId in l.consentHasToken)
            && (r.Ok? ==>
                  var (l', t) := r.value;
                  && GetConsentTokenId(l', consentId) == Ok(t) == Ok(l.nextTokenId)
                  && l'.nextTokenId == t + 1
                  && (forall c | c != consentId ::
                        && GetConsentTokenId(l', c) == GetConsentTokenId(l, c)
                        && (c in l.consentURIs ==> c in l'.consentURIs && l'.consentURIs[c] == l.consentURIs[c]))
                  && (forall u | u != t :: HoldersOf(l', u) == HoldersOf(l, u)))
  {
    if parties != [] {
      assert parties[0] in parties;
    }
  }

  /** A receipt is burnt exactly for a consent that has one. The consent then has no token, URI or balance any more, no
      other consent changes, and no holder loses a token. */
  lemma BurnAcceptedIff(run: seq<Tx>, consentId: Word, l: Ledger)
    requires l == Exec(FIRST, run)
    ensures var r := BurnReceipt(l, consentId);
            && (r.Ok? <==> consentId in l.consentHasToken)
            && (r.Ok? ==>
                  var burnt := TokenIdOf(l, consentId);
                  && GetConsentTokenId(l, consentId) == Ok(burnt) && GetTokenConsentId(r.value, burnt).Err?
                  && GetConsentTokenId(r.value, consentId).Err? && consentId !in r.value.consentURIs
                  && (forall p :: BalanceOfParty(r.value, consentId, p) == 0)
                  && (forall c | c != consentId :: GetConsentTokenId(r.value, c) == GetConsentTokenId(l, c))
                  && (forall t | t != burnt :: GetTokenConsentId(r.value, t) == GetTokenConsentId(l, t))
                  && (forall t :: HoldersOf(r.value, t) == HoldersOf(l, t))
                  && r.value.nextTokenId == l.nextTokenId && r.value.totalMinted == l.totalMinted)
  {
    AlwaysConsistent(FIRST, run);
  }

  /** A transfer is accepted exactly between accounts that are not the zero address, if there is enough and the
      receiver does not refuse. */
  lemma TransferAcceptedIff(l: Ledger, from: Address, dest: Address, tokenId: nat, amount: nat, refusing: set<Address>)
    ensures TransferTokens(l, from, dest, tokenId, amount, refusing).Ok?
            <==> && dest != Zeros(20) && from != Zeros(20) && dest !in refusing
                 && amount <= HoldersOf(l, tokenId)[from]
  {
  }

  /** The balance seen through a consent is that of its token, and 0 without a receipt. */
  lemma BalanceIs(l: Ledger, consentId: Word, party: Address)
    ensures match GetConsentTokenId(l, consentId)
            case Ok(t) => BalanceOfParty(l, consentId, party) == HoldersOf(l, t)[party]
            case Err(_) => BalanceOfParty(l, consentId, party) == 0
  {
  }

  /** In every reachable state the two lookups undo each other; the way back fails for the one consent whose
      identifier is the zero word, and for that one only. */
  lemma LookupsAreInverse(run: seq<Tx>, consentId: Word, tokenId: nat)
    ensures var l := Exec(FIRST, run);
            && (GetTokenConsentId(l, tokenId) == Ok(consentId) ==> GetConsentTokenId(l, consentId) == Ok(tokenId))
            && (GetConsentTokenId(l, consentId) == Ok(tokenId) ==>
                  (GetTokenConsentId(l, tokenId) == Ok(consentId) <==> consentId != Zeros(WORD)))
  {
    AlwaysConsistent(FIRST, run);
  }

  /** Minting again after a burn gives a new token; the old ones stay with their holders, out of reach of the lookup by
      consent. */
  lemma MintAfterBurn(past: seq<Tx>, consentId: Word, parties: seq<Address>, uri: seq<byte>, refusing: set<Address>)
    requires BurnReceipt(Exec(FIRST, past), consentId).Ok? && parties != [] && NOBODY !in parties
    requires forall p | p in parties :: p !in refusing
    ensures var l := Exec(FIRST, past);
            var before := TokenIdOf(l, consentId);
            var again := MintReceipt(BurnReceipt(l, consentId).value, parties, consentId, uri, refusing);
            && again.Ok? && again.value.1 > before
            && HoldersOf(again.value.0, before) == HoldersOf(l, before)
            && forall p :: BalanceOfParty(again.value.0, consentId, p) == multiset(parties)[p]
  {
    var l := Exec(FIRST, past);
    AlwaysConsistent(FIRST, past);
    var burnt := BurnReceipt(l, consentId).value;
    ConsistentBurn(l, consentId);
    assert HoldersOf(burnt, burnt.nextTokenId) == multiset{};
  }

  // The contract

  class Receipts {
    var nextTokenId: nat
    var totalMinted: nat
    var consentTokenIds: map<Word, nat>
    var tokenConsentIds: map<nat, Word>
    var consentHasToken: set<Word>
    var consentURIs: map<Word, seq<byte>>
    var holders: map<nat, multiset<Address>>

    ghost function View(): Ledger
      reads this
    {
      Ledger(nextTokenId, totalMinted, consentTokenIds, tokenConsentIds, consentHasToken, consentURIs, holders)
    }

    constructor ()
      ensures View() == FIRST && Consistent(View())
    {
      nextTokenId, totalMinted := 1, 0;
      consentTokenIds, tokenConsentIds, consentHasToken, consentURIs, holders := map[], map[], {}, map[], map[];
    }

    method MintConsentReceipt(parties: seq<Address>, consentId: Word, uri: seq<byte>, refusing: set<Address>)
      returns (r: Result<nat, Error>)
      modifies this
      ensures View() == Step(old(View()), Mint(parties, consentId, uri, refusing))
      ensures Consistent(old(View())) ==> Consistent(View())
      ensures var spec := MintReceipt(old(View()), parties, consentId, uri, refusing);
              r == if spec.Ok? then Ok(spec.value.1) else Err(spec.error)
    {
      if |parties| == 0 {
        return Err(NoParties);
      }
      if consentId in consentHasToken {
        return Err(ReceiptAlreadyMinted);
      }
      if NOBODY in parties {
        return Err(InvalidReceiver);
      }
      if exists p | p in parties :: p in refusing {
        return Err(Refused);
      }
      var tokenId := RecordReceipt(parties, consentId, uri, refusing);
      if Consistent(old(View())) {
        ConsistentStep(old(View()), Mint(parties, consentId, uri, refusing));
      }
      return Ok(tokenId);
    }

    /** The part of the mint after its checks. */
    method RecordReceipt(parties: seq<Address>, consentId: Word, uri: seq<byte>, ghost refusing: set<Address>)
      returns (tokenId: nat)
      requires MintReceipt(View(), parties, consentId, uri, refusing).Ok?
      modifies this
      ensures (View(), tokenId) == MintReceipt(old(View()), parties, consentId, uri, refusing).value
    {
      tokenId := nextTokenId;
      nextTokenId, totalMinted := nextTokenId + 1, totalMinted + 1;
      consentTokenIds, tokenConsentIds := consentTokenIds[consentId := tokenId], tokenConsentIds[tokenId := consentId];
      consentHasToken, consentURIs := consentHasToken + {consentId}, consentURIs[consentId := uri];
      MintBatch(parties, tokenId);
    }

    /** One token for each entry, one entry after the other. */
    method MintBatch(parties: seq<Address>, tokenId: nat)
      modifies this`holders
      ensures holders == old(holders)[tokenId := HoldersOf(old(View()), tokenId) + multiset(parties)]
    {
      var held: multiset<Address> := if tokenId in holders then holders[tokenId] else multiset{};
      held := AddEach(held, parties);
      holders := holders[tokenId := held];
    }

    static method AddEach(held: multiset<Address>, parties: seq<Address>) returns (r: multiset<Address>)
      ensures r == held + multiset(parties)
    {
      r := held;
      for i := 0 to |parties|
        invariant r == held + multiset(parties[..i])
      {
        assert parties[..i + 1] == parties[..i] + [parties[i]];
        r := r + multiset{parties[i]};
      }
      assert parties[..|parties|] == parties;
    }

    method BurnConsentReceipt(consentId: Word) returns (r: Result<(), Error>)
      modifies this
      ensures View() == Step(old(View()), Burn(consentId))
      ensures Consistent(old(View())) ==> Consistent(View())
      ensures r == if BurnReceipt(old(View()), consentId).Ok? then Ok(()) else Err(NoReceipt)
    {
      if consentId !in consentHasToken {
        return Err(NoReceipt);
      }
      var tokenId := if consentId in consentTokenIds then consentTokenIds[consentId] else 0;
      consentTokenIds, tokenConsentIds := consentTokenIds - {consentId}, tokenConsentIds - {tokenId};
      consentHasToken, consentURIs := consentHasToken - {consentId}, consentURIs - {consentId};
      if Consistent(old(View())) {
        ConsistentStep(old(View()), Burn(consentId));
      }
      return Ok(());
    }
  }
}
