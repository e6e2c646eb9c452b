/**
 The cryptography the protocol relies on, as functions that are passed in. What is assumed of them
 is stated as predicates, which the theorems that need them require.
 */
module Crypto {
  import opened Common

  datatype CryptoSuite = CryptoSuite(
    keccak: bytes -> Word32,
    /** privateKeyToAccount accepts the key: nonzero and below the curve order. */
    keyOk: Word32 -> bool,
    addressOf: Word32 -> Address,
    sign: (Word32, Word32) -> bytes,
    /** The precompile, on (hash, v, r, s); zero when recovery fails. */
    ecrecover: (Word32, byte, Word32, Word32) -> Address)

  /** MindorrVault._recover: a 65-byte r, s, v signature, with v accepted in either convention. */
  function Recover(c: CryptoSuite, hash: Word32, sig: bytes): Address {
    if |sig| != 65 then ZERO_ADDRESS
    else
      var v: byte := if sig[64] < 27 then sig[64] + 27 else sig[64];
      c.ecrecover(hash, v, sig[..32], sig[32..64])
  }

  /** Recovery hands the precompile the three parts, with v as 27 or 28 however it is written. */
  lemma RecoverIsExact(c: CryptoSuite, hash: Word32, r: Word32, s: Word32, b: byte)
    requires b in {0, 1}
    ensures Recover(c, hash, r + s + [27 + b]) == c.ecrecover(hash, 27 + b, r, s)
    ensures Recover(c, hash, r + s + [b]) == c.ecrecover(hash, 27 + b, r, s)
  {
    forall v: byte
      ensures (r + s + [v])[..32] == r && (r + s + [v])[32..64] == s && (r + s + [v])[64] == v
    {
    }
    assert (r + s + [27 + b])[..32] == r && (r + s + [b])[..32] == r;
  }

  lemma OtherLengthsFail(c: CryptoSuite, hash: Word32, sig: bytes)
    requires |sig| != 65
    ensures Recover(c, hash, sig) == ZERO_ADDRESS
  {
  }

  /** The key's signature on d is r, s and 27 + b, and the precompile gives the key's address for them. */
  predicate SignsAs(c: CryptoSuite, k: Word32, d: Word32, r: Word32, s: Word32, b: byte) {
    b in {0, 1} && c.sign(k, d) == r + s + [27 + b] && c.ecrecover(d, 27 + b, r, s) == c.addressOf(k)
  }

  ghost predicate SignsRecoverably(c: CryptoSuite, k: Word32, d: Word32) {
    exists r, s, b :: SignsAs(c, k, d, r, s, b)
  }

  /** The precompile undoes signing, and no valid key has the zero address. */
  ghost predicate SignaturesRecover(c: CryptoSuite) {
    forall k: Word32, d: Word32 :: c.keyOk(k) ==> SignsRecoverably(c, k, d) && c.addressOf(k) != ZERO_ADDRESS
  }

  /** Signing then recovering as the contract does yields the signer. */
  lemma SignatureRecovers(c: CryptoSuite, k: Word32, d: Word32)
    requires SignaturesRecover(c) && c.keyOk(k)
    ensures Recover(c, d, c.sign(k, d)) == c.addressOf(k) && c.addressOf(k) != ZERO_ADDRESS
  {
    assert SignsRecoverably(c, k, d);
    var r, s, b :| SignsAs(c, k, d, r, s, b);
    RecoverIsExact(c, d, r, s, b);
    hide Recover;
  }

  /** A recovered signature is a 65-byte one: the wrong length recovers to the zero address. */
  lemma SignatureLength(c: CryptoSuite, k: Word32, d: Word32)
    requires SignaturesRecover(c) && c.keyOk(k)
    ensures |c.sign(k, d)| == 65
  {
    SignatureRecovers(c, k, d);
    hide SignaturesRecover;
  }
}
