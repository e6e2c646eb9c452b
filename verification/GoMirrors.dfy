/**
 The Go tools recompute what the enclave computes: addresses and wallets (live-server/main.go), operation ids (the
 same) and digests (run-test/main.go). Their functions are modelled with the go-ethereum helpers they call, and
 proved to agree with the enclave's.
 */
module GoMirrors {
  import opened Common
  import opened Encoding
  import opened PolicyGuard
  import opened Crypto
  import opened Codec
  import opened Handlers
  import opened Dispatch
  import opened EndToEnd
  import A = Abi
  import R = HandlerRuns
  import S = Signing
  import W = Wallet

  // ---- hex and addresses -----------------------------------------------------------------

  /** hex.DecodeString: the bytes decoded before the first error, and whether there was none. */
  function DecodeString(s: string): (bytes, bool) {
    if s == "" then ([], true)
    else if |s| == 1 || !IsHexDigit(s[0]) || !IsHexDigit(s[1]) then ([], false)
    else
      var (rest, ok) := DecodeString(s[2..]);
      ([16 * Nibble(s[0]) + Nibble(s[1])] + rest, ok)
  }

  lemma HexTail(s: string)
    requires |s| >= 2
    ensures IsHex(s) <==> IsHexDigit(s[0]) && IsHexDigit(s[1]) && IsHex(s[2..])
  {
    hide IsHexDigit;
    if IsHex(s[2..]) {
      forall i | 2 <= i < |s| ensures IsHexDigit(s[i]) {
        assert s[i] == s[2..][i - 2];
      }
    }
  }

  /** It succeeds exactly on an even number of hex digits. */
  lemma {:induction false} DecodeStringIsExact(s: string)
    ensures DecodeString(s).1 <==> IsHex(s) && |s| % 2 == 0
    ensures IsHex(s) && |s| % 2 == 0 ==> DecodeString(s).0 == DigitsToBytes(s)
  {
    hide IsHexDigit, IsHex, Nibble;
    if |s| >= 2 {
      HexTail(s);
      DecodeStringIsExact(s[2..]);
      if IsHex(s) && |s| % 2 == 0 {
        assert DigitsToBytes(s) == [16 * Nibble(s[0]) + Nibble(s[1])] + DigitsToBytes(s[2..]);
      }
    } else if s == "" {
      EmptyIsHex();
    }
  }

  lemma EmptyIsHex()
    ensures IsHex("")
  {
  }

  /** common.FromHex: an odd number of digits is padded, and what comes after a bad digit is dropped. */
  function FromHex(s: string): bytes {
    var digits := StripPrefix(s);
    DecodeString(if |digits| % 2 == 1 then "0" + digits else digits).0
  }

  /** What comes before the first bad pair of digits is kept, and nothing behind it. */
  lemma {:induction false} BadDigitsCutOff(good: string, rest: string)
    requires IsHex(good) && |good| % 2 == 0
    requires rest != "" && !(|rest| >= 2 && IsHexDigit(rest[0]) && IsHexDigit(rest[1]))
    ensures DecodeString(good + rest) == (DigitsToBytes(good), false)
  {
    hide IsHexDigit, IsHex, Nibble;
    if good == "" {
      assert good + rest == rest;
    } else {
      HexTail(good);
      assert (good + rest)[2..] == good[2..] + rest;
      BadDigitsCutOff(good[2..], rest);
      assert DigitsToBytes(good) == [16 * Nibble(good[0]) + Nibble(good[1])] + DigitsToBytes(good[2..]);
    }
  }

  /** Any hex number is read, with a zero in front where a digit is missing. */
  lemma FromHexPads(s: string)
    requires IsHex(StripPrefix(s))
    ensures var digits := StripPrefix(s);
      var even := if |digits| % 2 == 0 then digits else ['0'] + digits;
      IsHex(even) && FromHex(s) == DigitsToBytes(even)
  {
    var digits := StripPrefix(s);
    var even := if |digits| % 2 == 0 then digits else ['0'] + digits;
    DecodeStringIsExact(even);
    hide DecodeString;
  }

  /** common.BytesToAddress: cropped or padded on the left. */
  function BytesToAddress(b: bytes): Address {
    if |b| > 20 then b[|b| - 20..] else Zeros(20 - |b|) + b
  }

  /** On any bytes it keeps the last 20, with zeros in front where there are fewer. */
  lemma KeepsLastTwenty(b: bytes)
    ensures BytesToAddress(b) == (Zeros(20) + b)[|b|..]
    ensures |b| >= 20 ==> exists front :: b == front + BytesToAddress(b)
  {
    if |b| >= 20 {
      assert b == b[..|b| - 20] + BytesToAddress(b);
    }
  }

  function HexToAddress(s: string): Address {
    BytesToAddress(FromHex(s))
  }

  method ValidAddr(a: string) returns (ok: bool)
    ensures ok <==> IsAddress(a)
  {
    if !("0x" <= a) || |a| != 42 {
      return false;
    }
    DecodeStringIsExact(a[2..]);
    var (_, valid) := DecodeString(a[2..]);
    return valid;
  }

  /** On what both sides accept as an address, Go and the enclave read the same 20 bytes. */
  lemma HexToAddressAgrees(s: string)
    requires IsAddress(s)
    ensures HexToAddress(s) == AddressBytes(s)
  {
    DecodeStringIsExact(s[2..]);
    assert StripPrefix(s) == s[2..];
    hide DecodeString;
  }

  // ---- derived wallets -----------------------------------------------------------------------

  /** deriveWalletAddress, up to the checksum casing of the address it prints. */
  method DeriveWalletAddress(c: CryptoSuite, masterSeedHex: string, user: string) returns (r: Option<Address>)
    ensures r == GoWallet(c, masterSeedHex, user)
  {
    var (seed, ok) := DecodeString(masterSeedHex);
    if !ok {
      return None;
    }
    var material := [] + seed;
    material := material + HexToAddress(user);
    assert material == seed + HexToAddress(user);
    var key := c.keccak(material);
    if !c.keyOk(key) {
      return None;
    }
    return Some(c.addressOf(key));
  }

  function GoWallet(c: CryptoSuite, masterSeedHex: string, user: string): Option<Address> {
    var (seed, ok) := DecodeString(masterSeedHex);
    var key := c.keccak(seed + HexToAddress(user));
    if ok && c.keyOk(key) then Some(c.addressOf(key)) else None
  }

  /** For every valid address, Go predicts the wallet the enclave derives from the same seed, and its failures. */
  lemma GoDerivesSameWallet(c: CryptoSuite, masterSeedHex: string, seed: Word32, user: string)
    requires DecodeString(masterSeedHex) == (seed, true) && IsAddress(user)
    ensures GoWallet(c, masterSeedHex, user) ==
      match W.Derive(c, seed, user)
      case Ok(key) => Some(c.addressOf(key))
      case Err(_) => None
  {
    HexToAddressAgrees(user);
    W.DeriveForAddress(c, seed, user);
    hide W.Derive, HexToAddress, AddressBytes, DecodeString;
  }

  // ---- operation ids --------------------------------------------------------------------------

  /** toHash: copy into a fixed array of 32 bytes, cropping first. */
  method ToHash(s: bytes) returns (h: Word32)
    ensures h == Pad32(if |s| > 32 then s[..32] else s)
  {
    var b := if |s| > 32 then s[..32] else s;
    var a := new byte[32](_ => 0);
    forall i | 0 <= i < |b| {
      a[i] := b[i];
    }
    assert a[..] == Pad32(b);
    return a[..];
  }

  /** The ids Go sends for operation i, written in any letter case, reach handler i in the enclave and no other. */
  lemma GoIdsReachHandlers(opType: string, opCommand: string, i: nat)
    requires i < |OPERATIONS|
    requires IsName(OPERATIONS[i].0) && IsName(OPERATIONS[i].1)
    requires ToLower(opType) == EncodeHex(OpId(OPERATIONS[i].0))
    requires ToLower(opCommand) == EncodeHex(OpId(OPERATIONS[i].1))
    ensures Find(Registrations(), opType, opCommand) == Some(OPERATIONS[i].2)
  {
    hide OPERATIONS, Find;
    DecodeHexIgnoresCase(opType);
    DecodeHexIgnoresCase(opCommand);
    HexRoundTrip(OpId(OPERATIONS[i].0));
    HexRoundTrip(OpId(OPERATIONS[i].1));
    hide DecodeHex, EncodeHex, OpId;
    EachOperationReachesItsHandler(opType, opCommand);
  }

  // ---- digests -----------------------------------------------------------------------------------

  /** The digest the Go driver computes from the fields of a Signed answer and a code that it writes as a literal. */
  function GoDigest(c: CryptoSuite, kind: byte, r: Reply): Word32
    requires r.Signed? && IsDecimal(r.amount)
  {
    var a := A.Action(kind, HexToAddress(r.asset), DecimalValue(r.amount), HexToAddress(r.destination));
    c.keccak(A.GoBytes(a))
  }

  lemma GoRecomputesDigest(env: Env, s: EnclaveState, r: Reply)
    requires S.Sound(env, s, r)
    ensures r.Signed? && IsDecimal(r.amount)
    ensures GoDigest(env.crypto, match r.kind case Allocate => 1 case Rebalance => 2 case Withdraw => 3, r) == r.digest
  {
    SoundDigest(env, s, r);
    HexToAddressAgrees(r.asset);
    HexToAddressAgrees(r.destination);
    A.GoEncodeIsAbi(S.PrintedAction(r));
    hide S.Sound, A.GoBytes, A.AbiEncode, HexToAddress, DecimalValue;
  }

  /**
   Whatever the run, the Go driver recomputes the reported digest from the printed fields of every signed answer: with 1
   for an allocation, which is what it passes, and with 2 and 3 for the other two.
   */
  lemma GoRecomputesEveryDigest(env: Env, trace: seq<R.Event>, k: nat)
    requires k < |R.Run(env, R.INITIAL, trace).1|
    requires var o := R.Run(env, R.INITIAL, trace).1[k]; o.Success? && o.reply.Signed?
    ensures var r := R.Run(env, R.INITIAL, trace).1[k].reply;
      && IsDecimal(r.amount)
      && (r.kind == Allocate ==> GoDigest(env.crypto, 1, r) == r.digest)
      && (r.kind == Rebalance ==> GoDigest(env.crypto, 2, r) == r.digest)
      && (r.kind == Withdraw ==> GoDigest(env.crypto, 3, r) == r.digest)
  {
    hide R.Run;
    S.EverySignatureIsSound(env, trace, k);
    GoRecomputesDigest(env, R.Before(env, trace, k), R.Run(env, R.INITIAL, trace).1[k].reply);
  }
}
