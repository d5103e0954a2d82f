/** The replay window of the Solana consent verifier. Hash and key recovery are parameters. */
module ReplayWindow {
  import opened Basics
  import opened Bytes
  import opened Wrappers

  const MAX_PROOF_HASHES: nat := 1000

  datatype Error = ProofAlreadyUsed | InvalidSignature | SignerMismatch

  /** recover is None where secp256k1_recover fails. */
  datatype Crypto = Crypto(
    hash: seq<byte> -> Word,
    recover: (Word, byte, seq<byte>) -> Option<seq<byte>>)

  datatype Request = Request(
    proofData: seq<byte>,
    publicKey: seq<byte>,
    signature: seq<byte>,
    recoveryId: byte,
    message: seq<byte>)

  function Drop(n: nat): nat {
    if n < MAX_PROOF_HASHES then 0 else n - MAX_PROOF_HASHES
  }

  /** The window after the given acceptances: the last thousand of them. */
  function Window(accepted: seq<Word>): seq<Word> {
    accepted[Drop(|accepted|)..]
  }

  /** The checks in their order. */
  function Check(c: Crypto, used: seq<Word>, r: Request): Result<Word, Error> {
    var proofHash := c.hash(r.proofData);
    if proofHash in used then Err(ProofAlreadyUsed)
    else
      match c.recover(c.hash(r.message), r.recoveryId, r.signature)
      case None => Err(InvalidSignature)
      case Some(key) => if key != r.publicKey then Err(SignerMismatch) else Ok(proofHash)
  }

  function Push(used: seq<Word>, proofHash: Word): seq<Word> {
    var pushed := used + [proofHash];
    if |pushed| > MAX_PROOF_HASHES then pushed[1..] else pushed
  }

  /** The window as the code keeps it, and the acceptances so far. */
  datatype State = State(used: seq<Word>, accepted: seq<Word>)

  function Step(c: Crypto, s: State, r: Request): State {
    match Check(c, s.used, r)
    case Ok(h) => State(Push(s.used, h), s.accepted + [h])
    case Err(_) => s
  }

  function Exec(c: Crypto, s: State, run: seq<Request>): State
    decreases |run|
  {
    if run == [] then s else Exec(c, Step(c, s, run[0]), run[1..])
  }

  /** Two acceptances of one hash have at least a thousand others in between. */
  ghost predicate Spaced(accepted: seq<Word>) {
    forall i, j | 0 <= i < j < |accepted| && accepted[i] == accepted[j] :: j - i > MAX_PROOF_HASHES
  }

  ghost predicate Inv(s: State) {
    s.used == Window(s.accepted) && Spaced(s.accepted)
  }

  lemma PushIsWindow(accepted: seq<Word>, h: Word)
    ensures Push(Window(accepted), h) == Window(accepted + [h])
  {
  }

  lemma SpacedAppend(accepted: seq<Word>, h: Word)
    requires Spaced(accepted) && h !in Window(accepted)
    ensures Spaced(accepted + [h])
  {
    var n, more := |accepted|, accepted + [h];
    forall k | Drop(n) <= k < n ensures accepted[k] != h {
      assert Window(accepted)[k - Drop(n)] == accepted[k];
    }
    forall i, j | 0 <= i < j < |more| && more[i] == more[j] ensures j - i > MAX_PROOF_HASHES {
      if j < n {
        assert accepted[i] == accepted[j];
      }
    }
  }

  lemma InvStep(c: Crypto, s: State, r: Request)
    requires Inv(s)
    ensures Inv(Step(c, s, r))
  {
    if Check(c, s.used, r).Ok? {
      PushIsWindow(s.accepted, Check(c, s.used, r).value);
      SpacedAppend(s.accepted, Check(c, s.used, r).value);
    }
  }

  lemma {:induction false} InvRun(c: Crypto, s: State, run: seq<Request>)
    requires Inv(s)
    ensures Inv(Exec(c, s, run))
    decreases |run|
  {
    if run != [] {
      InvStep(c, s, run[0]);
      InvRun(c, Step(c, s, run[0]), run[1..]);
    }
  }

  lemma WindowDistinct(accepted: seq<Word>, i: nat, j: nat)
    requires Spaced(accepted) && i < j < |Window(accepted)|
    ensures Window(accepted)[i] != Window(accepted)[j]
  {
    var d := Drop(|accepted|);
    assert Window(accepted)[i] == accepted[d + i] && Window(accepted)[j] == accepted[d + j];
  }

  lemma InvDistinct(s: State)
    requires Inv(s)
    ensures Distinct(s.used) && |s.used| <= MAX_PROOF_HASHES
  {
    forall i, j | 0 <= i < j < |s.used| ensures s.used[i] != s.used[j] {
      WindowDistinct(s.accepted, i, j);
    }
  }

  /** In every run the window is the last min(n, 1000) accepted hashes in order, without duplicates, and between two
      acceptances of one hash at least 1000 other proofs were accepted. */
  lemma {:induction false} ReplaySpacing(c: Crypto, start: State, run: seq<Request>)
    requires start == State([], [])
    ensures var s := Exec(c, start, run);
            && s.used == s.accepted[if |s.accepted| < 1000 then 0 else |s.accepted| - 1000..]
            && Distinct(s.used)
            && (forall i, j | 0 <= i < j < |s.accepted| && s.accepted[i] == s.accepted[j] :: j - i - 1 >= 1000)
  {
    assert Inv(start);
    var s := Exec(c, start, run);
    InvRun(c, start, run);
    InvDistinct(s);
  }

  /** One of the last thousand acceptances. */
  ghost predicate Recent(accepted: seq<Word>, h: Word) {
    exists i :: 0 <= i < |accepted| && i >= |accepted| - 1000 && accepted[i] == h
  }

  lemma RecentIsInWindow(accepted: seq<Word>, h: Word)
    ensures h in Window(accepted) <==> Recent(accepted, h)
  {
    var w, d := Window(accepted), Drop(|accepted|);
    if h in w {
      var k :| 0 <= k < |w| && w[k] == h;
      assert accepted[d + k] == h;
    }
    if i :| d <= i < |accepted| && accepted[i] == h {
      assert w[i - d] == h;
    }
  }

  lemma {:induction false} UsedIsWindow(c: Crypto, start: State, run: seq<Request>)
    requires start == State([], [])
    ensures Exec(c, start, run).used == Window(Exec(c, start, run).accepted)
  {
    assert Inv(start);
    InvRun(c, start, run);
  }

  lemma CheckIs(c: Crypto, s: State, r: Request)
    ensures var recovered := c.recover(c.hash(r.message), r.recoveryId, r.signature);
            && Check(c, s.used, r)
               == (if c.hash(r.proofData) in s.used then Err(ProofAlreadyUsed)
                   else if recovered == None then Err(InvalidSignature)
                   else if recovered != Some(r.publicKey) then Err(SignerMismatch)
                   else Ok(c.hash(r.proofData)))
            && (Check(c, s.used, r).Ok? ==> Step(c, s, r).accepted == s.accepted + [c.hash(r.proofData)])
            && (Check(c, s.used, r).Err? ==> Step(c, s, r) == s)
  {
  }

  /** In every run, a proof is accepted exactly if it is not among the last thousand acceptances and the signature over
      the message recovers the given key; otherwise the first of these that fails is the error, and nothing changes. So
      after a thousand others a proof is accepted again. */
  lemma {:induction false} AcceptedIff(c: Crypto, start: State, run: seq<Request>, s: State, r: Request)
    requires start == State([], []) && s == Exec(c, start, run)
    ensures var recovered := c.recover(c.hash(r.message), r.recoveryId, r.signature);
            && Check(c, s.used, r)
               == (if Recent(s.accepted, c.hash(r.proofData)) then Err(ProofAlreadyUsed)
                   else if recovered == None then Err(InvalidSignature)
                   else if recovered != Some(r.publicKey) then Err(SignerMismatch)
                   else Ok(c.hash(r.proofData)))
            && (Check(c, s.used, r).Ok? ==> Step(c, s, r).accepted == s.accepted + [c.hash(r.proofData)])
            && (Check(c, s.used, r).Err? ==> Step(c, s, r) == s)
  {
    UsedIsWindow(c, start, run);
    RecentIsInWindow(s.accepted, c.hash(r.proofData));
    CheckIs(c, s, r);
  }

  class VerifierAccount {
    var usedProofHashes: seq<Word>
    ghost var accepted: seq<Word>

    ghost function View(): State
      reads this
    {
      State(usedProofHashes, accepted)
    }

    constructor ()
      ensures View() == State([], []) && Inv(View())
    {
      usedProofHashes, accepted := [], [];
    }

    method VerifyConsentProof(c: Crypto, r: Request) returns (result: Result<(), Error>)
      modifies this
      ensures View() == Step(c, old(View()), r)
      ensures Inv(old(View())) ==> Inv(View())
      ensures result == match Check(c, old(usedProofHashes), r) case Ok(_) => Ok(()) case Err(e) => Err(e)
    {
      var proofHash := c.hash(r.proofData);
      if proofHash in usedProofHashes {
        return Err(ProofAlreadyUsed);
      }
      var recovered := c.recover(c.hash(r.message), r.recoveryId, r.signature);
      if recovered.None? {
        return Err(InvalidSignature);
      }
      if recovered.value != r.publicKey {
        return Err(SignerMismatch);
      }
      usedProofHashes := usedProofHashes + [proofHash];
      if |usedProofHashes| > MAX_PROOF_HASHES {
        usedProofHashes := usedProofHashes[1..];
      }
      accepted := accepted + [proofHash];
      if Inv(old(View())) {
        InvStep(c, old(View()), r);
      }
      return Ok(());
    }
  }
}
