/** SignatureLib.sol: recovering the signer of a digest, checking one signature per party, and joining signatures. */
module Signatures {
  import opened Bytes
  import opened Wrappers
  import opened ConsentTerms

  datatype SignatureError = InvalidLength | InvalidV

  const SIGNATURE_LENGTH: nat := 65

  /** A recovery byte below 27 is raised by 27. */
  function NormalizedV(v: byte): byte {
    if v < 27 then v + 27 else v
  }

  function RecoverSigner(c: Crypto, digest: Word, signature: seq<byte>): Result<Address, SignatureError> {
    if |signature| != SIGNATURE_LENGTH then Err(InvalidLength)
    else
      var r: Word, s: Word := signature[..WORD], signature[WORD..2 * WORD];
      var v := NormalizedV(signature[64]);
      if v != 27 && v != 28 then Err(InvalidV) else Ok(c.ecrecover(digest, v, r, s))
  }

  /** A signature is read at all exactly when it has 65 bytes and its last is 0, 1, 27 or 28, and 27 and 28 read the
      same as 0 and 1. */
  lemma RecoveryByte(c: Crypto, digest: Word, signature: seq<byte>)
    ensures RecoverSigner(c, digest, signature).Ok?
            <==> |signature| == SIGNATURE_LENGTH && signature[64] in {0, 1, 27, 28}
    ensures |signature| == SIGNATURE_LENGTH && signature[64] < 27 ==>
              RecoverSigner(c, digest, signature[64 := signature[64] + 27]) == RecoverSigner(c, digest, signature)
  {
    if |signature| == SIGNATURE_LENGTH && signature[64] < 27 {
      var other := signature[64 := signature[64] + 27];
      assert other[..WORD] == signature[..WORD] && other[WORD..2 * WORD] == signature[WORD..2 * WORD];
    }
  }

  /** The bytes of a signature are r, s and v in this order. */
  lemma SignatureLayout(c: Crypto, digest: Word, r: Word, s: Word, v: byte)
    ensures RecoverSigner(c, digest, r + s + [v])
            == if v in {0, 27} then Ok(c.ecrecover(digest, 27, r, s))
               else if v in {1, 28} then Ok(c.ecrecover(digest, 28, r, s))
               else Err(InvalidV)
    ensures forall signature :: |signature| != 65 ==> RecoverSigner(c, digest, signature) == Err(InvalidLength)
  {
    var signature := r + s + [v];
    assert signature[..WORD] == r && signature[WORD..2 * WORD] == s;
  }

  /** Every signature recovers the signer at its own position. */
  ghost predicate AllSigned(c: Crypto, digest: Word, signatures: seq<seq<byte>>, signers: seq<Address>) {
    |signatures| == |signers|
    && forall i | 0 <= i < |signers| :: RecoverSigner(c, digest, signatures[i]) == Ok(signers[i])
  }

  /** The outcome of the first n signatures: the first one that does not recover its signer decides, by a revert or by
      false. */
  function Verdict(c: Crypto, digest: Word, signatures: seq<seq<byte>>, signers: seq<Address>, n: nat)
    : Result<bool, SignatureError>
    requires n <= |signatures| == |signers|
  {
    if n == 0 then Ok(true)
    else
      var before := Verdict(c, digest, signatures, signers, n - 1);
      if before != Ok(true) then before
      else
        match RecoverSigner(c, digest, signatures[n - 1])
        case Err(e) => Err(e)
        case Ok(a) => Ok(a == signers[n - 1])
  }

  function MultiSig(c: Crypto, digest: Word, signatures: seq<seq<byte>>, signers: seq<Address>)
    : Result<bool, SignatureError>
  {
    if |signatures| != |signers| then Ok(false) else Verdict(c, digest, signatures, signers, |signers|)
  }

  lemma {:induction false} VerdictSticks(c: Crypto, digest: Word, signatures: seq<seq<byte>>, signers: seq<Address>,
                                         m: nat, n: nat)
    requires m <= n <= |signatures| == |signers| && Verdict(c, digest, signatures, signers, m) != Ok(true)
    ensures Verdict(c, digest, signatures, signers, n) == Verdict(c, digest, signatures, signers, m)
  {
    if m < n {
      VerdictSticks(c, digest, signatures, signers, m, n - 1);
    }
  }

  lemma {:induction false} VerdictTrue(c: Crypto, digest: Word, signatures: seq<seq<byte>>, signers: seq<Address>,
                                       n: nat)
    requires n <= |signatures| == |signers|
    ensures Verdict(c, digest, signatures, signers, n) == Ok(true)
            <==> forall i | 0 <= i < n :: RecoverSigner(c, digest, signatures[i]) == Ok(signers[i])
  {
    if n > 0 {
      VerdictTrue(c, digest, signatures, signers, n - 1);
    }
  }

  /** The multi-signature check succeeds exactly when the i-th signature recovers the i-th signer, for all of them. */
  lemma MultiSigIsAllSigned(c: Crypto, digest: Word, signatures: seq<seq<byte>>, signers: seq<Address>)
    ensures MultiSig(c, digest, signatures, signers) == Ok(true) <==> AllSigned(c, digest, signatures, signers)
  {
    if |signatures| == |signers| {
      VerdictTrue(c, digest, signatures, signers, |signers|);
    }
  }

  /** The first signature that does not recover its signer decides how the check fails: by a revert if it cannot be
      read. */
  lemma FirstFailureDecides(c: Crypto, digest: Word, signatures: seq<seq<byte>>, signers: seq<Address>, i: nat)
    requires i < |signatures| == |signers| && RecoverSigner(c, digest, signatures[i]) != Ok(signers[i])
    requires forall j | 0 <= j < i :: RecoverSigner(c, digest, signatures[j]) == Ok(signers[j])
    ensures MultiSig(c, digest, signatures, signers)
            == match RecoverSigner(c, digest, signatures[i]) case Err(e) => Err(e) case Ok(_) => Ok(false)
  {
    VerdictTrue(c, digest, signatures, signers, i);
    VerdictSticks(c, digest, signatures, signers, i + 1, |signers|);
  }

  method VerifyMultiSig(c: Crypto, domainSeparator: Word, t: Terms, signatures: seq<seq<byte>>, signers: seq<Address>)
    returns (r: Result<bool, SignatureError>)
    ensures r == MultiSig(c, ConsentDigest(c, domainSeparator, t), signatures, signers)
    ensures r == Ok(true) <==> AllSigned(c, ConsentDigest(c, domainSeparator, t), signatures, signers)
  {
    var digest := ConsentDigest(c, domainSeparator, t);
    MultiSigIsAllSigned(c, digest, signatures, signers);
    if |signatures| != |signers| {
      return Ok(false);
    }
    for i := 0 to |signatures|
      invariant Verdict(c, digest, signatures, signers, i) == Ok(true)
    {
      var recovered := RecoverSigner(c, digest, signatures[i]);
      if recovered.Err? {
        VerdictSticks(c, digest, signatures, signers, i + 1, |signers|);
        return Err(recovered.error);
      }
      if recovered.value != signers[i] {
        VerdictSticks(c, digest, signatures, signers, i + 1, |signers|);
        return Ok(false);
      }
    }
    return Ok(true);
  }

  // aggregateSignatures

  function Joined(signatures: seq<seq<byte>>): seq<byte> {
    if signatures == [] then [] else Joined(signatures[..|signatures| - 1]) + signatures[|signatures| - 1]
  }

  lemma {:induction false} JoinedPrefix(signatures: seq<seq<byte>>, n: nat)
    requires n <= |signatures|
    ensures Joined(signatures[..n]) <= Joined(signatures)
  {
    if n < |signatures| {
      assert signatures[..|signatures| - 1][..n] == signatures[..n];
      JoinedPrefix(signatures[..|signatures| - 1], n);
    } else {
      assert signatures[..n] == signatures;
    }
  }

  method AggregateSignatures(signatures: seq<seq<byte>>) returns (result: array<byte>)
    ensures fresh(result) && result[..] == Joined(signatures)
  {
    var totalLength := 0;
    for i := 0 to |signatures|
      invariant totalLength == |Joined(signatures[..i])|
    {
      assert signatures[..i + 1][..i] == signatures[..i];
      totalLength := totalLength + |signatures[i]|;
    }
    assert signatures[..|signatures|] == signatures;
    result := new byte[totalLength](_ => 0);
    var offset := 0;
    for i := 0 to |signatures|
      invariant offset == |Joined(signatures[..i])| <= totalLength
      invariant result[..offset] == Joined(signatures[..i])
    {
      var sig := signatures[i];
      assert signatures[..i + 1][..i] == signatures[..i];
      JoinedPrefix(signatures, i + 1);
      for j := 0 to |sig|
        invariant offset + |sig| <= totalLength
        invariant result[..offset] == Joined(signatures[..i])
        invariant result[offset..offset + j] == sig[..j]
      {
        result[offset + j] := sig[j];
      }
      assert result[..offset + |sig|] == result[..offset] + result[offset..offset + |sig|];
      offset := offset + |sig|;
    }
  }

  /** Joined signatures of the proper length can be taken apart again. */
  lemma {:induction false} JoinedSplits(signatures: seq<seq<byte>>, i: nat)
    requires forall s | s in signatures :: |s| == SIGNATURE_LENGTH
    requires i < |signatures|
    ensures |Joined(signatures)| == SIGNATURE_LENGTH * |signatures|
    ensures Joined(signatures)[SIGNATURE_LENGTH * i..SIGNATURE_LENGTH * (i + 1)] == signatures[i]
  {
    var n := |signatures| - 1;
    var front := Joined(signatures[..n]);
    assert |signatures[n]| == SIGNATURE_LENGTH && Joined(signatures) == front + signatures[n];
    if n > 0 {
      var k := if i < n then i else 0;
      JoinedSplits(signatures[..n], k);
    }
    if i < n {
      assert Joined(signatures)[SIGNATURE_LENGTH * i..SIGNATURE_LENGTH * (i + 1)]
             == front[SIGNATURE_LENGTH * i..SIGNATURE_LENGTH * (i + 1)];
    } else {
      assert Joined(signatures)[|front|..] == signatures[n];
    }
  }
}
