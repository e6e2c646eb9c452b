/** Model of extension/typescript/src/base/encoding.ts: hex and bytes32 encodings. */
module Encoding {
  import opened Common

  predicate IsHexDigit(c: char) {
    '0' <= c <= '9' || 'a' <= c <= 'f' || 'A' <= c <= 'F'
  }

  predicate IsHex(s: string) {
    forall i :: 0 <= i < |s| ==> IsHexDigit(s[i])
  }

  /** ASCII part of String.prototype.toLowerCase. */
  function LowerChar(c: char): char {
    if 'A' <= c <= 'Z' then c + 32 as char else c
  }

  function ToLower(s: string): (r: string)
    ensures |r| == |s|
    ensures forall i :: 0 <= i < |s| ==> r[i] == LowerChar(s[i])
  {
    seq(|s|, i requires 0 <= i < |s| => LowerChar(s[i]))
  }

  function Nibble(c: char): (n: nat)
    requires IsHexDigit(c)
    ensures n < 16
  {
    if '0' <= c <= '9' then c as int - '0' as int
    else if 'a' <= c <= 'f' then c as int - 'a' as int + 10
    else c as int - 'A' as int + 10
  }

  function HexChar(n: nat): (c: char)
    requires n < 16
    ensures IsHexDigit(c) && Nibble(c) == n && LowerChar(c) == c
  {
    if n < 10 then '0' + n as char else 'a' + (n - 10) as char
  }

  /** Two hex digits are equal up to letter case exactly when they have the same value. */
  lemma NibbleCase(a: char, b: char)
    requires IsHexDigit(a) && IsHexDigit(b)
    ensures LowerChar(a) == LowerChar(b) <==> Nibble(a) == Nibble(b)
    ensures IsHexDigit(LowerChar(a)) && LowerChar(LowerChar(a)) == LowerChar(a)
  {
  }

  /** What hexToBytes removes before it looks at the digits. */
  function StripPrefix(h: string): string {
    if |h| >= 2 && h[0] == '0' && (h[1] == 'x' || h[1] == 'X') then h[2..] else h
  }

  function DigitsToBytes(s: string): (b: bytes)
    requires IsHex(s) && |s| % 2 == 0
    ensures |b| == |s| / 2
    ensures forall i :: 0 <= i < |b| ==> b[i] == 16 * Nibble(s[2 * i]) + Nibble(s[2 * i + 1])
  {
    seq(|s| / 2, i requires 0 <= i < |s| / 2 => 16 * Nibble(s[2 * i]) + Nibble(s[2 * i + 1]))
  }

  function BytesToDigits(b: bytes): (s: string)
    ensures |s| == 2 * |b|
    ensures forall i :: 0 <= i < |b| ==> s[2 * i] == HexChar(b[i] / 16) && s[2 * i + 1] == HexChar(b[i] % 16)
  {
    if b == [] then ""
    else BytesToDigits(b[..|b| - 1]) + [HexChar(b[|b| - 1] / 16), HexChar(b[|b| - 1] % 16)]
  }

  datatype HexError = OddLength | NonHexCharacters

  /** The value hexToBytes returns, and which of its two errors it throws. */
  function DecodeHex(h: string): Result<bytes, HexError> {
    var s := StripPrefix(h);
    if |s| % 2 != 0 then Err(OddLength)
    else if !IsHex(s) then Err(NonHexCharacters)
    else Ok(DigitsToBytes(s))
  }

  function EncodeHex(b: bytes): string {
    "0x" + BytesToDigits(b)
  }

  method HexToBytes(h: Option<string>) returns (r: Result<bytes, HexError>)
    ensures r == if h.None? then Ok([]) else DecodeHex(h.value)
  {
    if h.None? { return Ok([]); }
    var s := h.value;
    if |s| >= 2 && s[0] == '0' && (s[1] == 'x' || s[1] == 'X') { s := s[2..]; }
    if |s| == 0 { return Ok([]); }
    if |s| % 2 != 0 { return Err(OddLength); }
    for k := 0 to |s|
      invariant IsHex(s[..k])
    {
      if !IsHexDigit(s[k]) {
        return Err(NonHexCharacters);
      }
    }
    assert s[..|s|] == s;
    var out := new byte[|s| / 2];
    for i := 0 to out.Length
      invariant forall j :: 0 <= j < i ==> out[j] == DigitsToBytes(s)[j]
    {
      out[i] := 16 * Nibble(s[2 * i]) + Nibble(s[2 * i + 1]);
    }
    assert out[..] == DigitsToBytes(s);
    return Ok(out[..]);
  }

  method BytesToHex(b: bytes) returns (s: string)
    ensures s == EncodeHex(b)
  {
    s := "0x";
    for i := 0 to |b|
      invariant s == EncodeHex(b[..i])
    {
      s := s + [HexChar(b[i] / 16), HexChar(b[i] % 16)];
      assert b[..i + 1][..i] == b[..i];
    }
    assert b[..|b|] == b;
  }

  /** hexToBytes inverts bytesToHex on every byte array. */
  lemma HexRoundTrip(b: bytes)
    ensures DecodeHex(EncodeHex(b)) == Ok(b)
  {
    var s := BytesToDigits(b);
    assert StripPrefix(EncodeHex(b)) == s;
    forall i | 0 <= i < |s|
      ensures IsHexDigit(s[i])
    {
      assert s[2 * (i / 2)] == HexChar(b[i / 2] / 16) && s[2 * (i / 2) + 1] == HexChar(b[i / 2] % 16);
    }
    assert DigitsToBytes(s) == b;
  }

  /** Hex output is in lower case, so bytesToHex is the canonical form of its bytes. */
  lemma HexOutputIsLower(b: bytes)
    ensures ToLower(EncodeHex(b)) == EncodeHex(b)
  {
    var s := EncodeHex(b);
    forall i | 0 <= i < |s|
      ensures LowerChar(s[i]) == s[i]
    {
      if i >= 2 {
        var j := (i - 2) / 2;
        assert s[2 + 2 * j] == HexChar(b[j] / 16) && s[2 + 2 * j + 1] == HexChar(b[j] % 16);
      }
    }
  }

  /** Same digits up to case, if and only if same bytes. */
  lemma CaseInsensitiveDigits(s: string, t: string)
    requires IsHex(s) && IsHex(t) && |s| == |t| && |s| % 2 == 0
    ensures ToLower(s) == ToLower(t) <==> DigitsToBytes(s) == DigitsToBytes(t)
  {
    if ToLower(s) == ToLower(t) {
      SameLowerSameBytes(s, t);
    }
    if DigitsToBytes(s) == DigitsToBytes(t) {
      forall i | 0 <= i < |s|
        ensures ToLower(s)[i] == ToLower(t)[i]
      {
        SameBytesSameNibbles(s, t, i / 2);
        NibbleCase(s[i], t[i]);
      }
    }
  }

  lemma SameLowerSameBytes(s: string, t: string)
    requires IsHex(s) && IsHex(t) && |s| == |t| && |s| % 2 == 0
    requires ToLower(s) == ToLower(t)
    ensures DigitsToBytes(s) == DigitsToBytes(t)
  {
    forall i | 0 <= i < |s|
      ensures Nibble(s[i]) == Nibble(t[i])
    {
      assert ToLower(s)[i] == ToLower(t)[i];
      NibbleCase(s[i], t[i]);
    }
  }

  lemma SameBytesSameNibbles(s: string, t: string, j: nat)
    requires IsHex(s) && IsHex(t) && |s| == |t| && |s| % 2 == 0
    requires DigitsToBytes(s) == DigitsToBytes(t)
    requires 2 * j < |s|
    ensures Nibble(s[2 * j]) == Nibble(t[2 * j]) && Nibble(s[2 * j + 1]) == Nibble(t[2 * j + 1])
  {
    assert DigitsToBytes(s)[j] == DigitsToBytes(t)[j];
    hide Nibble;
  }

  /** hexToBytes does not look at letter case, on any string, malformed ones included. */
  lemma DecodeHexIgnoresCase(h: string)
    ensures DecodeHex(ToLower(h)) == DecodeHex(h)
  {
    var s := StripPrefix(h);
    assert StripPrefix(ToLower(h)) == ToLower(s);
    forall i | 0 <= i < |s|
      ensures IsHexDigit(s[i]) <==> IsHexDigit(ToLower(s)[i])
    {
    }
    assert IsHex(s) <==> IsHex(ToLower(s)) by {
      if !IsHex(s) {
        var i :| 0 <= i < |s| && !IsHexDigit(s[i]);
        assert !IsHexDigit(ToLower(s)[i]);
      }
    }
    if IsHex(s) && |s| % 2 == 0 {
      assert ToLower(ToLower(s)) == ToLower(s);
      CaseInsensitiveDigits(s, ToLower(s));
    }
  }

  // ---- addresses on the wire -------------------------------------------------

  /** ADDRESS_RE: "0x" and exactly forty hex digits. */
  predicate IsAddress(s: string) {
    |s| == 42 && s[0] == '0' && s[1] == 'x' && IsHex(s[2..])
  }

  function AddressBytes(s: string): (a: Address)
    requires IsAddress(s)
    ensures DecodeHex(s) == Ok(a)
  {
    DigitsToBytes(s[2..])
  }

  /** An address string is 0x and two digits of either case for each of 20 bytes. */
  lemma AddressSpellings(s: string)
    ensures IsAddress(s) <==> "0x" <= s && exists a: Address :: DecodeHex(s) == Ok(a)
  {
    assert "0x" <= s ==> StripPrefix(s) == s[2..];
    if IsAddress(s) {
      assert DecodeHex(s) == Ok(AddressBytes(s));
    }
  }

  lemma LowerHexIsHex(s: string)
    requires IsHex(ToLower(s))
    ensures IsHex(s)
  {
    forall i | 0 <= i < |s|
      ensures IsHexDigit(s[i])
    {
      assert IsHexDigit(ToLower(s)[i]);
    }
  }

  lemma DigitsOf(b: bytes)
    ensures var d := BytesToDigits(b); IsHex(d) && |d| % 2 == 0 && DigitsToBytes(d) == b && ToLower(d) == d
  {
    hide DigitsToBytes, BytesToDigits, IsHex, ToLower;
    var d := BytesToDigits(b);
    HexRoundTrip(b);
    assert StripPrefix(EncodeHex(b)) == d;
    HexOutputIsLower(b);
    LowerBehindPrefix(EncodeHex(b));
    assert ("0x" + ToLower(d))[2..] == ToLower(d) && EncodeHex(b)[2..] == d;
  }

  /** Of each error, the digits that are left without the prefix. */
  lemma DecodeFailsExactly(h: string)
    ensures DecodeHex(h) == Err(OddLength) <==> |StripPrefix(h)| % 2 == 1
    ensures DecodeHex(h) == Err(NonHexCharacters) <==>
      |StripPrefix(h)| % 2 == 0 && exists c :: c in StripPrefix(h) && !IsHexDigit(c)
  {
    hide DigitsToBytes, StripPrefix, IsHexDigit;
  }

  /** What decodes are the spellings of its bytes, with or without the prefix, in either case. */
  lemma DecodesSpellings(h: string, b: bytes)
    ensures DecodeHex(h) == Ok(b) <==> "0x" + ToLower(StripPrefix(h)) == EncodeHex(b)
  {
    hide DigitsToBytes, BytesToDigits, IsHex, ToLower, StripPrefix;
    var s, d := StripPrefix(h), BytesToDigits(b);
    DigitsOf(b);
    assert EncodeHex(b)[2..] == d && ("0x" + ToLower(s))[2..] == ToLower(s);
    if ToLower(s) == d {
      LowerHexIsHex(s);
    }
    if IsHex(s) && |s| == |d| {
      CaseInsensitiveDigits(s, d);
    }
  }

  /** The two representations agree: equal up to letter case if and only if the same 20 bytes. */
  lemma AddressCase(s: string, t: string)
    requires IsAddress(s) && IsAddress(t)
    ensures ToLower(s) == ToLower(t) <==> AddressBytes(s) == AddressBytes(t)
  {
    hide DigitsToBytes;
    CaseInsensitiveDigits(s[2..], t[2..]);
    LowerBehindPrefix(s);
    LowerBehindPrefix(t);
    assert ("0x" + ToLower(s[2..]))[2..] == ToLower(s[2..]) && ("0x" + ToLower(t[2..]))[2..] == ToLower(t[2..]);
    hide ToLower, IsHex;
  }

  lemma LowerBehindPrefix(s: string)
    requires "0x" <= s
    ensures ToLower(s) == "0x" + ToLower(s[2..])
  {
    assert s == "0x" + s[2..];
  }

  lemma LowerAddress(s: string)
    requires IsAddress(s)
    ensures IsAddress(ToLower(s)) && ToLower(ToLower(s)) == ToLower(s)
    ensures AddressBytes(ToLower(s)) == AddressBytes(s)
  {
    var l := ToLower(s);
    forall i | 0 <= i < |l[2..]|
      ensures IsHexDigit(l[2..][i])
    {
      assert IsHexDigit(s[2..][i]);
    }
    assert ToLower(l) == l;
    AddressCase(s, l);
  }

  // ---- bytes32 identifiers ------------------------------------------------------

  /** Right-padding to 32 bytes. */
  function Pad32(b: bytes): (p: bytes)
    requires |b| <= 32
    ensures |p| == 32
  {
    b + Zeros(32 - |b|)
  }

  /** stringToBytes32Hex, on the UTF-8 bytes of its argument. */
  method StringToBytes32Hex(encoded: bytes) returns (r: Result<string, int>)
    ensures r == if |encoded| > 32 then Err(|encoded|) else Ok(EncodeHex(Pad32(encoded)))
  {
    if |encoded| > 32 {
      return Err(|encoded|);
    }
    var padded := new byte[32](_ => 0);
    for i := 0 to |encoded|
      invariant padded[..] == encoded[..i] + Zeros(32 - i)
    {
      padded[i] := encoded[i];
    }
    assert padded[..] == Pad32(encoded);
    var s := BytesToHex(padded[..]);
    return Ok(s);
  }

  /** The longest prefix that does not end in a zero byte. */
  function TrimZeros(b: bytes): (t: bytes)
    ensures t <= b
    ensures t == [] || t[|t| - 1] != 0
    ensures forall i :: |t| <= i < |b| ==> b[i] == 0
  {
    if b != [] && b[|b| - 1] == 0 then TrimZeros(b[..|b| - 1]) else b
  }

  lemma TrimIsUnique(b: bytes, end: nat)
    requires end <= |b| && forall i :: end <= i < |b| ==> b[i] == 0
    requires end == 0 || b[end - 1] != 0
    ensures TrimZeros(b) == b[..end]
  {
    var t := TrimZeros(b);
    assert t == b[..|t|];
  }

  /** bytes32HexToString up to its TextDecoder: malformed hex reads as no bytes. */
  method Bytes32HexToBytes(h: string) returns (t: bytes)
    ensures t == if DecodeHex(h).Err? then [] else TrimZeros(DecodeHex(h).value)
  {
    var r := HexToBytes(Some(h));
    if r.Err? { return []; }
    var b := r.value;
    var end := |b|;
    while end > 0 && b[end - 1] == 0
      invariant 0 <= end <= |b|
      invariant forall i :: end <= i < |b| ==> b[i] == 0
    {
      end := end - 1;
    }
    TrimIsUnique(b, end);
    return b[..end];
  }

  /** Padding then trimming restores a byte string exactly when it does not end in zero. */
  lemma PadTrimRoundTrip(b: bytes)
    requires |b| <= 32
    ensures TrimZeros(Pad32(b)) == b <==> (b == [] || b[|b| - 1] != 0)
  {
    var t := TrimZeros(Pad32(b));
    if b == [] || b[|b| - 1] != 0 {
      assert forall i :: |b| <= i < 32 ==> Pad32(b)[i] == 0;
      assert b != [] ==> Pad32(b)[|b| - 1] != 0;
      assert |t| == |b|;
      assert t == Pad32(b)[..|b|] == b;
    }
  }

  /** The bytes32 hex of an identifier determines it, among those not ending in a zero byte. */
  lemma Bytes32Injective(a: bytes, b: bytes)
    requires |a| <= 32 && |b| <= 32
    requires a == [] || a[|a| - 1] != 0
    requires b == [] || b[|b| - 1] != 0
    requires EncodeHex(Pad32(a)) == EncodeHex(Pad32(b))
    ensures a == b
  {
    HexRoundTrip(Pad32(a));
    HexRoundTrip(Pad32(b));
    PadTrimRoundTrip(a);
    PadTrimRoundTrip(b);
  }
}
