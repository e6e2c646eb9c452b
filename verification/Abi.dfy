/**
 The action encoding, in the three forms the repository computes it:
 - the contract's abi.encode(uint8, address, uint256, address), after the Solidity Contract
   ABI Specification, section "Formal Specification of the Encoding";
 - the enclave's hex string (encodeAbiParameters in codec.ts);
 - the Go driver's left-padded byte slices (run-test/main.go).
 */
module Abi {
  import opened Common
  import opened Encoding

  function Pow256(k: nat): (p: nat)
    ensures p > 0
  {
    if k == 0 then 1 else 256 * Pow256(k - 1)
  }

  /** The k low-order base-256 digits of n, most significant first. */
  function BigEndian(n: nat, k: nat): (b: bytes)
    ensures |b| == k
  {
    if k == 0 then [] else BigEndian(n / 256, k - 1) + [n % 256]
  }

  function Value(b: bytes): nat {
    if b == [] then 0 else 256 * Value(b[..|b| - 1]) + b[|b| - 1]
  }

  lemma {:induction false} ValueOfBigEndian(n: nat, k: nat)
    requires n < Pow256(k)
    ensures Value(BigEndian(n, k)) == n
  {
    if k > 0 {
      ValueOfBigEndian(n / 256, k - 1);
      assert BigEndian(n, k)[..k - 1] == BigEndian(n / 256, k - 1);
    }
  }

  lemma {:induction false} ValueBound(b: bytes)
    ensures Value(b) < Pow256(|b|)
  {
    if b != [] {
      ValueBound(b[..|b| - 1]);
    }
  }

  /** Reading bytes as a number and writing it k wide pads them on the left. */
  lemma {:induction false} BigEndianOfValue(b: bytes, k: nat)
    requires |b| <= k
    ensures BigEndian(Value(b), k) == Zeros(k - |b|) + b
  {
    if b != [] {
      BigEndianOfValue(b[..|b| - 1], k - 1);
      assert b == b[..|b| - 1] + [b[|b| - 1]];
    } else if k > 0 {
      BigEndianOfValue(b, k - 1);
      assert Zeros(k) == Zeros(k - 1) + [0];
    }
  }

  lemma {:induction false} Pow256Sum(a: nat, b: nat)
    ensures Pow256(a + b) == Pow256(a) * Pow256(b)
  {
    if a > 0 {
      Pow256Sum(a - 1, b);
      Associate(256, Pow256(a - 1), Pow256(b));
    }
  }

  lemma Associate(a: nat, b: nat, c: nat)
    ensures a * (b * c) == (a * b) * c
  {
  }

  lemma Pow256Of32()
    ensures Pow256(32) == TWO_256
  {
    assert Pow256(1) == 256;
    hide Pow256;
    assert Pow256(2) == 0x1_0000 by { Pow256Sum(1, 1); }
    assert Pow256(4) == 0x1_0000_0000 by { Pow256Sum(2, 2); }
    assert Pow256(8) == 0x1_0000_0000_0000_0000 by { Pow256Sum(4, 4); }
    assert Pow256(16) == 0x1_0000_0000_0000_0000_0000_0000_0000_0000 by { Pow256Sum(8, 8); }
    Pow256Sum(16, 16);
  }

  // ---- the contract's encoding ------------------------------------------------

  /** What an action signature covers. */
  datatype Action = Action(kind: byte, asset: Address, amount: nat, dest: Address) {
    predicate Fits() { amount < TWO_256 }
  }

  function Word(n: nat): (w: bytes)
    ensures |w| == 32
  {
    BigEndian(n, 32)
  }

  /** abi.encode(kind, asset, amount, dest); an address is encoded as a uint160. */
  function AbiEncode(a: Action): (e: bytes)
    requires a.Fits()
    ensures |e| == 128
  {
    Word(a.kind) + Word(Value(a.asset)) + Word(a.amount) + Word(Value(a.dest))
  }

  function LastBytes(b: bytes, k: nat): (r: bytes)
    requires k <= |b|
    ensures |r| == k
  {
    b[|b| - k..]
  }

  /** The decoder a reader of the 128 bytes would write. */
  function AbiDecode(e: bytes): Action
    requires |e| == 128
  {
    Action(e[31], LastBytes(e[32..64], 20), Value(e[64..96]), LastBytes(e[96..128], 20))
  }

  lemma LastDigit(n: nat, k: nat)
    requires k > 0
    ensures BigEndian(n, k)[k - 1] == n % 256
  {
  }

  lemma WordsOf(w: bytes, x: bytes, y: bytes, z: bytes)
    requires |w| == |x| == |y| == |z| == 32
    ensures var e := w + x + y + z;
      e[..32] == w && e[32..64] == x && e[64..96] == y && e[96..128] == z && e[31] == w[31]
  {
    var e := w + x + y + z;
    assert e[..32] == w;
    assert e[32..64] == x;
    assert e[64..96] == y;
    assert e[96..128] == z;
  }

  lemma AddressRoundTrip(a: Address)
    ensures LastBytes(Word(Value(a)), 20) == a
  {
    hide BigEndian, Value;
    BigEndianOfValue(a, 32);
  }

  lemma ActionRoundTrip(a: Action)
    requires a.Fits()
    ensures AbiDecode(AbiEncode(a)) == a
  {
    WordsOf(Word(a.kind), Word(Value(a.asset)), Word(a.amount), Word(Value(a.dest)));
    var e := AbiEncode(a);
    assert e[31] == a.kind by { LastDigit(a.kind, 32); }
    AddressRoundTrip(a.asset);
    AddressRoundTrip(a.dest);
    assert Value(e[64..96]) == a.amount by { Pow256Of32(); ValueOfBigEndian(a.amount, 32); }
    hide Word, Value, BigEndian, LastBytes, AbiEncode;
  }

  /** Two actions have the same encoding only if they are the same action. */
  lemma AbiEncodeInjective(a: Action, b: Action)
    requires a.Fits() && b.Fits() && AbiEncode(a) == AbiEncode(b)
    ensures a == b
  {
    ActionRoundTrip(a);
    ActionRoundTrip(b);
  }

  // ---- the enclave's encoding -----------------------------------------------------

  /** The k low-order hex digits of n, in lower case. */
  function FixedHex(n: nat, k: nat): (s: string)
    ensures |s| == k && IsHex(s)
  {
    if k == 0 then "" else FixedHex(n / 16, k - 1) + [HexChar(n % 16)]
  }

  function ZeroDigits(k: nat): (s: string)
    ensures |s| == k && IsHex(s)
  {
    seq(k, (_: nat) => '0')
  }

  /** The hex string encodeAbiParameters builds from a code, two address strings and a bigint. */
  function HexEncode(kind: byte, asset: string, amount: nat, dest: string): (s: string)
    requires IsAddress(asset) && IsAddress(dest)
    ensures |s| == 258
  {
    "0x" + FixedHex(kind, 64) + (ZeroDigits(24) + asset[2..]) + FixedHex(amount, 64) + (ZeroDigits(24) + dest[2..])
  }

  lemma TwoDigits(n: nat)
    ensures n / 16 / 16 == n / 256
    ensures DigitsToBytes([HexChar(n / 16 % 16), HexChar(n % 16)]) == [n % 256]
  {
    assert 16 * (n / 16 % 16) + n % 16 == n % 256;
  }

  lemma {:induction false} FixedHexBytes(n: nat, k: nat)
    ensures DigitsToBytes(FixedHex(n, 2 * k)) == BigEndian(n, k)
  {
    if k > 0 {
      FixedHexBytes(n / 256, k - 1);
      TwoDigits(n);
      var rest, last := FixedHex(n / 256, 2 * (k - 1)), [HexChar(n / 16 % 16), HexChar(n % 16)];
      assert FixedHex(n / 16, 2 * k - 1) == rest + [HexChar(n / 16 % 16)];
      assert FixedHex(n, 2 * k) == rest + last;
      DigitsConcat(rest, last);
    }
  }

  lemma DigitsConcat(s: string, t: string)
    requires IsHex(s) && IsHex(t) && |s| % 2 == 0 && |t| % 2 == 0
    ensures IsHex(s + t) && DigitsToBytes(s + t) == DigitsToBytes(s) + DigitsToBytes(t)
  {
  }

  lemma PaddedAddress(a: string)
    requires IsAddress(a)
    ensures IsHex(ZeroDigits(24) + a[2..])
    ensures DigitsToBytes(ZeroDigits(24) + a[2..]) == Word(Value(AddressBytes(a)))
  {
    DigitsConcat(ZeroDigits(24), a[2..]);
    assert DigitsToBytes(ZeroDigits(24)) == Zeros(12);
    BigEndianOfValue(AddressBytes(a), 32);
  }

  /** The enclave's hex string denotes exactly the contract's 128 bytes. */
  lemma HexEncodeIsAbi(kind: byte, asset: string, amount: nat, dest: string)
    requires IsAddress(asset) && IsAddress(dest) && amount < TWO_256
    ensures DecodeHex(HexEncode(kind, asset, amount, dest))
         == Ok(AbiEncode(Action(kind, AddressBytes(asset), amount, AddressBytes(dest))))
  {
    FixedHexBytes(kind, 32);
    FixedHexBytes(amount, 32);
    PaddedAddress(asset);
    PaddedAddress(dest);
    FourWords(FixedHex(kind, 64), ZeroDigits(24) + asset[2..], FixedHex(amount, 64), ZeroDigits(24) + dest[2..]);
  }

  lemma FourWords(w0: string, w1: string, w2: string, w3: string)
    requires IsHex(w0) && IsHex(w1) && IsHex(w2) && IsHex(w3)
    requires |w0| % 2 == |w1| % 2 == |w2| % 2 == |w3| % 2 == 0
    ensures DecodeHex("0x" + w0 + w1 + w2 + w3)
         == Ok(DigitsToBytes(w0) + DigitsToBytes(w1) + DigitsToBytes(w2) + DigitsToBytes(w3))
  {
    DigitsConcat(w0, w1);
    DigitsConcat(w0 + w1, w2);
    DigitsConcat(w0 + w1 + w2, w3);
    var s := w0 + w1 + w2 + w3;
    assert "0x" + w0 + w1 + w2 + w3 == "0x" + s;
    assert StripPrefix("0x" + s) == s;
  }

  // ---- the Go driver's encoding ---------------------------------------------------

  /** big.Int.Bytes: big-endian without leading zero bytes. */
  function MinimalBytes(n: nat): bytes {
    if n == 0 then [] else MinimalBytes(n / 256) + [n % 256]
  }

  /** common.LeftPadBytes: a slice that is already long enough is returned as it is. */
  function LeftPad(b: bytes, k: nat): bytes {
    if k <= |b| then b else Zeros(k - |b|) + b
  }

  /** The byte slice actionDigest in run-test/main.go hands to Keccak256Hash. */
  method GoEncode(kind: byte, asset: Address, amount: nat, dest: Address) returns (enc: bytes)
    ensures enc == GoBytes(Action(kind, asset, amount, dest))
  {
    enc := [];
    enc := enc + LeftPad([kind], 32);
    enc := enc + LeftPad(asset, 32);
    enc := enc + LeftPad(MinimalBytes(amount), 32);
    enc := enc + LeftPad(dest, 32);
  }

  function GoBytes(a: Action): bytes {
    LeftPad([a.kind], 32) + LeftPad(a.asset, 32) + LeftPad(MinimalBytes(a.amount), 32) + LeftPad(a.dest, 32)
  }

  lemma {:induction false} MinimalLength(n: nat, k: nat)
    ensures |MinimalBytes(n)| <= k <==> n < Pow256(k)
  {
    if n > 0 && k > 0 {
      MinimalLength(n / 256, k - 1);
    }
  }

  lemma {:induction false} ValueOfMinimal(n: nat)
    ensures Value(MinimalBytes(n)) == n
  {
    if n > 0 {
      ValueOfMinimal(n / 256);
      assert MinimalBytes(n)[..|MinimalBytes(n)| - 1] == MinimalBytes(n / 256);
    }
  }

  lemma OneByte(b: byte)
    ensures Value([b]) == b
  {
    assert [b][..0] == [];
  }

  /** Go hashes the contract's bytes exactly when the amount is a uint256; otherwise it hashes more than 128. */
  lemma GoEncodeIsAbi(a: Action)
    ensures |GoBytes(a)| == 128 <==> a.Fits()
    ensures a.Fits() ==> GoBytes(a) == AbiEncode(a)
  {
    hide Pow256, BigEndian, Value, MinimalBytes;
    OneByte(a.kind);
    Pow256Of32();
    MinimalLength(a.amount, 32);
    if a.Fits() {
      BigEndianOfValue(MinimalBytes(a.amount), 32);
      ValueOfMinimal(a.amount);
      BigEndianOfValue([a.kind], 32);
      BigEndianOfValue(a.asset, 32);
      BigEndianOfValue(a.dest, 32);
    }
  }
}
