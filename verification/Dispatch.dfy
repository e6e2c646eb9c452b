/**
 Model of Framework in extension/typescript/src/base/types.ts and of register in handlers.ts: which handler an
 (opType, opCommand) pair reaches.
 */
module Dispatch {
  import opened Common
  import opened Encoding
  import opened PolicyGuard

  /** stringToBytes32Hex("") */
  const EMPTY_BYTES32: string := EncodeHex(Pad32([]))

  /** opType, opCommand, handler */
  type Registration<H> = (string, string, H)

  predicate StartsWith0x(s: string) {
    |s| >= 2 && s[0] == '0' && s[1] == 'x'
  }

  /** An absent identifier is written as the empty string. */
  function Normalize(h: string): string {
    if h == "" then EMPTY_BYTES32
    else if StartsWith0x(ToLower(h)) then ToLower(h)
    else "0x" + ToLower(h)
  }

  // ---- normalized identifiers are the bytes they stand for ------------------------------

  lemma PrefixIsStripped(h: string)
    ensures DecodeHex("0x" + StripPrefix(h)) == DecodeHex(h)
  {
    assert StripPrefix("0x" + StripPrefix(h)) == StripPrefix(h);
  }

  /** A prefixed lower-case string is the hex of what it decodes to. */
  lemma LowerHexIsCanonical(s: string, b: bytes)
    requires ToLower(s) == s && StartsWith0x(s)
    ensures s == EncodeHex(b) <==> DecodeHex(s) == Ok(b)
  {
    HexRoundTrip(b);
    if DecodeHex(s) == Ok(b) {
      HexOutputIsLower(b);
      SameBytesSameLower(s, EncodeHex(b));
    }
  }

  lemma SameBytesSameLower(s: string, t: string)
    requires ToLower(s) == s && ToLower(t) == t && StartsWith0x(s) && StartsWith0x(t)
    requires DecodeHex(s).Ok? && DecodeHex(t) == DecodeHex(s)
    ensures s == t
  {
    hide DigitsToBytes, IsHexDigit, IsHex;
    var x, y := s[2..], t[2..];
    assert StripPrefix(s) == x && StripPrefix(t) == y;
    assert ToLower(x) == x && ToLower(y) == y;
    assert |x| == |y| by { assert |DigitsToBytes(x)| == |DigitsToBytes(y)|; }
    CaseInsensitiveDigits(x, y);
    assert s == "0x" + x && t == "0x" + y;
  }

  /**
   An identifier in any letter case, with or without a prefix, is normalized to the encoding of its bytes, and an absent
   one to that of 32 zeros.
   */
  lemma NormalizeIsCanonical(h: string, b: bytes)
    ensures h == "" ==> Normalize(h) == EncodeHex(Zeros(32))
    ensures h != "" ==> (Normalize(h) == EncodeHex(b) <==> DecodeHex(h) == Ok(b))
  {
    assert Pad32([]) == Zeros(32);
    if h != "" {
      PresentIsCanonical(h, b);
    }
    hide Normalize;
  }

  lemma PresentIsCanonical(h: string, b: bytes)
    requires h != ""
    ensures Normalize(h) == EncodeHex(b) <==> DecodeHex(h) == Ok(b)
  {
    hide DigitsToBytes, BytesToDigits, IsHex;
    var l := ToLower(h);
    DecodeHexIgnoresCase(h);
    assert ToLower(l) == l;
    if StartsWith0x(l) {
      LowerHexIsCanonical(l, b);
    } else {
      assert StripPrefix(l) == l;
      PrefixIsStripped(l);
      assert ToLower("0x" + l) == "0x" + l;
      LowerHexIsCanonical("0x" + l, b);
    }
  }

  // ---- lookup -----------------------------------------------------------------------------

  predicate Matches<H>(r: Registration<H>, t: string, c: string) {
    r.0 == t && r.1 == c
  }

  /** Registration i is the first one for (t, c). */
  predicate IsFirst<H>(regs: seq<Registration<H>>, i: int, t: string, c: string) {
    && 0 <= i < |regs| && Matches(regs[i], t, c)
    && forall j :: 0 <= j < i ==> !Matches(regs[j], t, c)
  }

  predicate NoneFor<H>(regs: seq<Registration<H>>, t: string, c: string) {
    forall j :: 0 <= j < |regs| ==> !Matches(regs[j], t, c)
  }

  function FirstFor<H>(regs: seq<Registration<H>>, t: string, c: string): Option<H> {
    if regs == [] then None
    else if Matches(regs[0], t, c) then Some(regs[0].2)
    else FirstFor(regs[1..], t, c)
  }

  function Find<H>(regs: seq<Registration<H>>, opType: string, opCommand: string): Option<H> {
    var exact := FirstFor(regs, Normalize(opType), Normalize(opCommand));
    if exact.Some? then exact else FirstFor(regs, Normalize(opType), EMPTY_BYTES32)
  }

  lemma {:induction false} FirstForIsFirst<H>(regs: seq<Registration<H>>, t: string, c: string)
    ensures FirstFor(regs, t, c).None? <==> NoneFor(regs, t, c)
    ensures forall i :: IsFirst(regs, i, t, c) ==> FirstFor(regs, t, c) == Some(regs[i].2)
  {
    if regs != [] && !Matches(regs[0], t, c) {
      FirstForIsFirst(regs[1..], t, c);
      forall i | IsFirst(regs, i, t, c)
        ensures FirstFor(regs, t, c) == Some(regs[i].2)
      {
        assert IsFirst(regs[1..], i - 1, t, c);
      }
      if NoneFor(regs[1..], t, c) {
        forall j | 0 <= j < |regs| ensures !Matches(regs[j], t, c) {
          if j > 0 { assert !Matches(regs[1..][j - 1], t, c); }
        }
      }
    }
  }

  /** The answers of lookup: the first exact registration, else the first wildcard of the type, else nothing. */
  lemma FindIsExactThenWildcard<H>(regs: seq<Registration<H>>, opType: string, opCommand: string)
    ensures var t, c := Normalize(opType), Normalize(opCommand);
      && (forall i :: IsFirst(regs, i, t, c) ==> Find(regs, opType, opCommand) == Some(regs[i].2))
      && (forall i :: NoneFor(regs, t, c) && IsFirst(regs, i, t, EMPTY_BYTES32) ==>
            Find(regs, opType, opCommand) == Some(regs[i].2))
      && (Find(regs, opType, opCommand).None? <==> NoneFor(regs, t, c) && NoneFor(regs, t, EMPTY_BYTES32))
  {
    hide FirstFor;
    FirstForIsFirst(regs, Normalize(opType), Normalize(opCommand));
    FirstForIsFirst(regs, Normalize(opType), EMPTY_BYTES32);
  }

  class Framework<H(==)> {
    var handlers: seq<Registration<H>>

    constructor ()
      ensures handlers == []
    {
      handlers := [];
    }

    /** Throws, and registers nothing, when a name is longer than 32 bytes. */
    method Handle(opType: bytes, opCommand: bytes, handler: H) returns (ok: bool)
      modifies this
      ensures ok == (|opType| <= 32 && |opCommand| <= 32)
      ensures handlers == old(handlers) +
        if ok then [(EncodeHex(Pad32(opType)), EncodeHex(Pad32(opCommand)), handler)] else []
    {
      var t := StringToBytes32Hex(opType);
      if t.Err? {
        return false;
      }
      var c := StringToBytes32Hex(opCommand);
      if c.Err? {
        return false;
      }
      handlers := handlers + [(t.value, c.value, handler)];
      return true;
    }

    method Lookup(opType: string, opCommand: string) returns (r: Option<H>)
      ensures r == Find(handlers, opType, opCommand)
    {
      var t, c := Normalize(opType), Normalize(opCommand);
      FirstForIsFirst(handlers, t, c);
      FirstForIsFirst(handlers, t, EMPTY_BYTES32);
      for i := 0 to |handlers|
        invariant forall j :: 0 <= j < i ==> !Matches(handlers[j], t, c)
      {
        if handlers[i].0 == t && handlers[i].1 == c {
          assert IsFirst(handlers, i, t, c);
          return Some(handlers[i].2);
        }
      }
      for i := 0 to |handlers|
        invariant forall j :: 0 <= j < i ==> !Matches(handlers[j], t, EMPTY_BYTES32)
      {
        if handlers[i].0 == t && handlers[i].1 == EMPTY_BYTES32 {
          assert IsFirst(handlers, i, t, EMPTY_BYTES32);
          return Some(handlers[i].2);
        }
      }
      return None;
    }
  }

  // ---- the registered operations --------------------------------------------------------------

  datatype Op = OpUpdateKey | OpCreate | OpSetPolicy | OpConfirmDeposit | OpAction(kind: IntentKind)

  predicate IsAscii(s: string) {
    forall i :: 0 <= i < |s| ==> s[i] < 128 as char
  }

  /** UTF-8, on ASCII strings. */
  function Utf8(s: string): (b: bytes)
    requires IsAscii(s)
    ensures |b| == |s|
    ensures forall i :: 0 <= i < |s| ==> b[i] == s[i] as int
  {
    seq(|s|, i requires 0 <= i < |s| => s[i] as int)
  }

  const OP_TYPE_WALLET := "WALLET"
  const OP_TYPE_VAULT := "VAULT"

  /** The registrations in order: op type, op command, handler. */
  const OPERATIONS: seq<(string, string, Op)> := [
    (OP_TYPE_WALLET, "UPDATE_KEY", OpUpdateKey),
    (OP_TYPE_WALLET, "CREATE", OpCreate),
    (OP_TYPE_VAULT, "SET_POLICY", OpSetPolicy),
    (OP_TYPE_VAULT, "CONFIRM_DEPOSIT", OpConfirmDeposit),
    (OP_TYPE_VAULT, "ALLOCATE", OpAction(Allocate)),
    (OP_TYPE_VAULT, "REBALANCE", OpAction(Rebalance)),
    (OP_TYPE_VAULT, "WITHDRAW", OpAction(Withdraw))]

  predicate IsName(s: string) {
    IsAscii(s) && 0 < |s| <= 32 && s[|s| - 1] != 0 as char
  }

  lemma OperationNames(i: nat)
    requires i < |OPERATIONS|
    ensures IsName(OPERATIONS[i].0) && IsName(OPERATIONS[i].1)
  {
  }

  /** The 32 bytes a name crosses the wire as. */
  function OpId(name: string): (id: Word32)
    requires IsName(name)
  {
    Pad32(Utf8(name))
  }

  function Registered(i: nat): Registration<Op>
    requires i < |OPERATIONS|
  {
    OperationNames(i);
    (EncodeHex(OpId(OPERATIONS[i].0)), EncodeHex(OpId(OPERATIONS[i].1)), OPERATIONS[i].2)
  }

  function Registrations(): (regs: seq<Registration<Op>>)
    ensures |regs| == |OPERATIONS|
    ensures forall i :: 0 <= i < |regs| ==> regs[i] == Registered(i)
  {
    seq(|OPERATIONS|, i requires 0 <= i < |OPERATIONS| => Registered(i))
  }

  /** register in handlers.ts */
  method Register(framework: Framework<Op>)
    modifies framework
    ensures framework.handlers == old(framework.handlers) + Registrations()
  {
    hide OPERATIONS, EncodeHex;
    for i := 0 to |OPERATIONS|
      invariant framework.handlers == old(framework.handlers) + Registrations()[..i]
    {
      OperationNames(i);
      var _ := framework.Handle(Utf8(OPERATIONS[i].0), Utf8(OPERATIONS[i].1), OPERATIONS[i].2);
      assert Registrations()[..i + 1] == Registrations()[..i] + [Registered(i)];
    }
  }

  lemma NameInjective(a: string, b: string)
    requires IsName(a) && IsName(b)
    ensures EncodeHex(OpId(a)) == EncodeHex(OpId(b)) <==> a == b
  {
    if EncodeHex(OpId(a)) == EncodeHex(OpId(b)) {
      assert Utf8(a)[|a| - 1] != 0 && Utf8(b)[|b| - 1] != 0;
      Bytes32Injective(Utf8(a), Utf8(b));
      forall i | 0 <= i < |a| ensures a[i] == b[i] {
        assert Utf8(a)[i] == Utf8(b)[i];
      }
    }
  }

  lemma NoNameIsEmpty(name: string)
    requires IsName(name)
    ensures EncodeHex(OpId(name)) != EMPTY_BYTES32
  {
    if EncodeHex(OpId(name)) == EncodeHex(Pad32([])) {
      assert Utf8(name)[|name| - 1] != 0;
      Bytes32Injective(Utf8(name), []);
    }
  }

  lemma NoWildcards(t: string)
    ensures NoneFor(Registrations(), t, EMPTY_BYTES32)
  {
    forall j | 0 <= j < |OPERATIONS|
      ensures !Matches(Registrations()[j], t, EMPTY_BYTES32)
    {
      OperationNames(j);
      NoNameIsEmpty(OPERATIONS[j].1);
    }
  }

  /** An identifier, absent ones included, normalizes to a name's encoding if and only if it decodes to the name. */
  lemma NameIsNormalized(h: string, name: string)
    requires IsName(name)
    ensures Normalize(h) == EncodeHex(OpId(name)) <==> DecodeHex(h) == Ok(OpId(name))
  {
    if h == "" {
      NoNameIsEmpty(name);
      assert DecodeHex("") == Ok([]);
    } else {
      NormalizeIsCanonical(h, OpId(name));
    }
    hide OpId, EncodeHex, DecodeHex;
  }

  lemma OperationsAreDistinct(i: nat, j: nat)
    requires i < |OPERATIONS| && j < |OPERATIONS|
    ensures OPERATIONS[i].0 == OPERATIONS[j].0 && OPERATIONS[i].1 == OPERATIONS[j].1 <==> i == j
    ensures OPERATIONS[i].2 == OPERATIONS[j].2 <==> i == j
  {
  }

  /** The identifiers, however their hex is written, are the bytes of operation i's two names. */
  predicate Names(opType: string, opCommand: string, i: nat)
    requires i < |OPERATIONS|
  {
    OperationNames(i);
    DecodeHex(opType) == Ok(OpId(OPERATIONS[i].0)) && DecodeHex(opCommand) == Ok(OpId(OPERATIONS[i].1))
  }

  lemma NamesAreMatched(opType: string, opCommand: string, i: nat)
    requires i < |OPERATIONS|
    ensures Matches(Registrations()[i], Normalize(opType), Normalize(opCommand)) <==> Names(opType, opCommand, i)
  {
    OperationNames(i);
    NameIsNormalized(opType, OPERATIONS[i].0);
    NameIsNormalized(opCommand, OPERATIONS[i].1);
    hide OpId, EncodeHex, DecodeHex, Normalize;
  }

  lemma NamesOneOperation(opType: string, opCommand: string, i: nat, j: nat)
    requires i < |OPERATIONS| && j < |OPERATIONS|
    requires Names(opType, opCommand, i) && Names(opType, opCommand, j)
    ensures i == j
  {
    OperationNames(i);
    OperationNames(j);
    NameInjective(OPERATIONS[i].0, OPERATIONS[j].0);
    NameInjective(OPERATIONS[i].1, OPERATIONS[j].1);
    OperationsAreDistinct(i, j);
    hide OPERATIONS, EncodeHex;
  }

  lemma NamedIsFound(opType: string, opCommand: string, i: nat)
    requires i < |OPERATIONS| && Names(opType, opCommand, i)
    ensures Find(Registrations(), opType, opCommand) == Some(OPERATIONS[i].2)
  {
    hide Names, Normalize, Find, OPERATIONS;
    var regs, t, c := Registrations(), Normalize(opType), Normalize(opCommand);
    NamesAreMatched(opType, opCommand, i);
    forall j | 0 <= j < i
      ensures !Matches(regs[j], t, c)
    {
      NamesAreMatched(opType, opCommand, j);
      if Names(opType, opCommand, j) {
        NamesOneOperation(opType, opCommand, i, j);
      }
    }
    assert IsFirst(regs, i, t, c);
    FindIsExactThenWildcard(regs, opType, opCommand);
    assert regs[i] == Registered(i);
  }

  /**
   A pair of identifiers reaches the handler of operation i exactly when it names operation i, and reaches nothing
   exactly when it names no operation.
   */
  lemma EachOperationReachesItsHandler(opType: string, opCommand: string)
    ensures var found := Find(Registrations(), opType, opCommand);
      && (forall i :: 0 <= i < |OPERATIONS| ==> (found == Some(OPERATIONS[i].2) <==> Names(opType, opCommand, i)))
      && (found == None <==> forall i :: 0 <= i < |OPERATIONS| ==> !Names(opType, opCommand, i))
  {
    hide Names, Normalize, Find, OPERATIONS;
    var regs, t, c := Registrations(), Normalize(opType), Normalize(opCommand);
    var found := Find(regs, opType, opCommand);
    if i :| 0 <= i < |OPERATIONS| && Names(opType, opCommand, i) {
      NamedIsFound(opType, opCommand, i);
      forall j | 0 <= j < |OPERATIONS|
        ensures found == Some(OPERATIONS[j].2) <==> Names(opType, opCommand, j)
      {
        OperationsAreDistinct(i, j);
        if Names(opType, opCommand, j) {
          NamesOneOperation(opType, opCommand, i, j);
        }
      }
    } else {
      FindIsExactThenWildcard(regs, opType, opCommand);
      NoWildcards(t);
      forall j | 0 <= j < |OPERATIONS|
        ensures !Matches(regs[j], t, c)
      {
        NamesAreMatched(opType, opCommand, j);
      }
    }
  }
}
