/** Model of extension/typescript/src/app/wallet.ts: one master seed, one derived key per user, a cache. */
module Wallet {
  import opened Common
  import opened Encoding
  import opened Crypto

  datatype WalletError =
    | NoSeed
    | BadSeedLength(n: nat)
    | BadUserHex(e: HexError)
    | BadUserLength(n: nat)
    | InvalidKey

  /** A managed wallet is its private key; its address is c.addressOf of it. */
  type WalletKey = Word32

  /** What walletFor means: derive the user's key from the seed, or fail. */
  function Derive(c: CryptoSuite, seed: Word32, user: string): Result<WalletKey, WalletError> {
    var userBytes := DecodeHex(user);
    if userBytes.Err? then Err(BadUserHex(userBytes.error))
    else if |userBytes.value| != 20 then Err(BadUserLength(|userBytes.value|))
    else
      var key := c.keccak(seed + userBytes.value);
      if c.keyOk(key) then Ok(key) else Err(InvalidKey)
  }

  /** Derivation does not look at letter case, on any string. */
  lemma DeriveIgnoresCase(c: CryptoSuite, seed: Word32, user: string, other: string)
    requires ToLower(user) == ToLower(other)
    ensures Derive(c, seed, user) == Derive(c, seed, other)
  {
    DecodeHexIgnoresCase(user);
    DecodeHexIgnoresCase(other);
  }

  /** For a 20-byte address only the key itself can be refused. */
  lemma DeriveForAddress(c: CryptoSuite, seed: Word32, user: string)
    requires IsAddress(user)
    ensures Derive(c, seed, user) ==
      var key := c.keccak(seed + AddressBytes(user));
      if c.keyOk(key) then Ok(key) else Err(InvalidKey)
  {
  }

  /** Without a seed there is no wallet; each other failure has its own condition on the bytes of the name. */
  lemma DerivationFailsExactly(c: CryptoSuite, seed: Word32, user: string)
    ensures var r, name := Derive(c, seed, user), DecodeHex(user);
      && (forall e :: r == Err(BadUserHex(e)) <==> name == Err(e))
      && (forall n :: r == Err(BadUserLength(n)) <==> name.Ok? && n == |name.value| != 20)
      && (r == Err(InvalidKey) <==> name.Ok? && |name.value| == 20 && !c.keyOk(c.keccak(seed + name.value)))
      && (forall key :: r == Ok(key) <==>
            name.Ok? && |name.value| == 20 && key == c.keccak(seed + name.value) && c.keyOk(key))
    ensures Answer(c, None, user) == Err(NoSeed)
  {
    hide DecodeHex;
  }

  /** The wallet a manager with this seed hands out. */
  function Answer(c: CryptoSuite, seed: Option<Word32>, user: string): Result<WalletKey, WalletError> {
    if seed.None? then Err(NoSeed) else Derive(c, seed.value, user)
  }

  function LoadAnswer(seed: bytes): Result<(), WalletError> {
    if |seed| != 32 then Err(BadSeedLength(|seed|)) else Ok(())
  }

  class WalletManager {
    const c: CryptoSuite
    var seed: Option<Word32>
    var cache: map<string, WalletKey>

    /** Every cached wallet is the one a fresh derivation from the current seed gives. */
    ghost predicate Valid()
      reads this
    {
      forall k :: k in cache ==> ToLower(k) == k && Answer(c, seed, k) == Ok(cache[k])
    }

    constructor (c: CryptoSuite)
      ensures Valid() && this.c == c && seed == None && cache == map[]
    {
      this.c := c;
      seed := None;
      cache := map[];
    }

    method LoadSeed(plain: bytes) returns (r: Result<(), WalletError>)
      requires Valid()
      modifies this
      ensures Valid()
      ensures r == LoadAnswer(plain)
      ensures r == if |plain| == 32 then Ok(()) else Err(BadSeedLength(|plain|))
      ensures seed == if |plain| == 32 then Some(plain) else old(seed)
      ensures r.Err? ==> cache == old(cache)
    {
      if |plain| != 32 {
        return Err(BadSeedLength(|plain|));
      }
      seed := Some(plain);
      cache := map[];
      return Ok(());
    }

    method WalletFor(user: string) returns (r: Result<WalletKey, WalletError>)
      requires Valid()
      modifies this`cache
      ensures Valid()
      ensures r == Answer(c, seed, user)
    {
      if seed.None? {
        return Err(NoSeed);
      }
      var key := ToLower(user);
      assert ToLower(key) == key;
      DeriveIgnoresCase(c, seed.value, user, key);
      if key in cache {
        return Ok(cache[key]);
      }
      r := DeriveKey(c, seed.value, user);
      if r.Ok? {
        cache := cache[key := r.value];
      }
    }

    method Clear()
      modifies this
      ensures Valid() && seed == None && cache == map[]
    {
      seed := None;
      cache := map[];
    }
  }

  /** deriveKey followed by fromPrivateKey, with the 52-byte buffer it fills. */
  method DeriveKey(c: CryptoSuite, seed: Word32, user: string) returns (r: Result<WalletKey, WalletError>)
    ensures r == Derive(c, seed, user)
  {
    var decoded := HexToBytes(Some(user));
    if decoded.Err? {
      return Err(BadUserHex(decoded.error));
    }
    var userBytes := decoded.value;
    if |userBytes| != 20 {
      return Err(BadUserLength(|userBytes|));
    }
    var material := new byte[|seed| + |userBytes|];
    forall i | 0 <= i < |seed| {
      material[i] := seed[i];
    }
    forall i | 0 <= i < |userBytes| {
      material[|seed| + i] := userBytes[i];
    }
    assert material[..] == seed + userBytes;
    var key := c.keccak(material[..]);
    return if c.keyOk(key) then Ok(key) else Err(InvalidKey);
  }

  // ---- runs: the cache is invisible ---------------------------------------------

  datatype Op = Load(plain: bytes) | Get(user: string) | Clear

  datatype Reply = Loaded(r: Result<(), WalletError>) | Got(w: Result<WalletKey, WalletError>) | Cleared

  /** A manager without a cache. */
  function Step(c: CryptoSuite, seed: Option<Word32>, op: Op): (Option<Word32>, Reply) {
    match op
    case Load(plain) => (if |plain| == 32 then Some(plain) else seed, Loaded(LoadAnswer(plain)))
    case Get(user) => (seed, Got(Answer(c, seed, user)))
    case Clear => (None, Cleared)
  }

  function Run(c: CryptoSuite, seed: Option<Word32>, ops: seq<Op>): (r: (Option<Word32>, seq<Reply>))
    ensures |r.1| == |ops|
  {
    if ops == [] then (seed, [])
    else
      var (before, replies) := Run(c, seed, ops[..|ops| - 1]);
      var (after, reply) := Step(c, before, ops[|ops| - 1]);
      (after, replies + [reply])
  }

  /** Over every run of loads, failed loads, lookups and clears, the caching manager answers as the cacheless one. */
  method RunManager(m: WalletManager, ops: seq<Op>) returns (replies: seq<Reply>)
    requires m.Valid()
    modifies m
    ensures m.Valid()
    ensures (m.seed, replies) == Run(m.c, old(m.seed), ops)
  {
    replies := [];
    for i := 0 to |ops|
      invariant m.Valid()
      invariant (m.seed, replies) == Run(m.c, old(m.seed), ops[..i])
    {
      match ops[i] {
        case Load(plain) =>
          var r := m.LoadSeed(plain);
          replies := replies + [Loaded(r)];
        case Get(user) =>
          var w := m.WalletFor(user);
          replies := replies + [Got(w)];
        case Clear =>
          m.Clear();
          replies := replies + [Cleared];
      }
      assert ops[..i + 1][..i] == ops[..i];
    }
    assert ops[..|ops|] == ops;
  }

  /** Users whose names differ only in case get the same wallet at every point of a run. */
  lemma SameUserSameWallet(c: CryptoSuite, ops: seq<Op>, i: nat, j: nat)
    requires i < j < |ops| && ops[i].Get? && ops[j].Get?
    requires ToLower(ops[i].user) == ToLower(ops[j].user)
    requires forall k :: i < k < j ==> ops[k].Get? || (ops[k].Load? && |ops[k].plain| != 32)
    ensures Run(c, None, ops).1[i] == Run(c, None, ops).1[j]
  {
    ReplyAt(c, None, ops, i);
    ReplyAt(c, None, ops, j);
    SeedUnchanged(c, None, ops, i, j);
    var seed := Run(c, None, ops[..i]).0;
    if seed.Some? {
      DeriveIgnoresCase(c, seed.value, ops[i].user, ops[j].user);
    }
  }

  lemma {:induction false} ReplyAt(c: CryptoSuite, seed: Option<Word32>, ops: seq<Op>, i: nat)
    requires i < |ops|
    ensures Run(c, seed, ops).1[i] == Step(c, Run(c, seed, ops[..i]).0, ops[i]).1
  {
    if i < |ops| - 1 {
      ReplyAt(c, seed, ops[..|ops| - 1], i);
      assert ops[..|ops| - 1][..i] == ops[..i];
    }
  }

  lemma {:induction false} SeedUnchanged(c: CryptoSuite, seed: Option<Word32>, ops: seq<Op>, i: nat, j: nat)
    requires i <= j <= |ops|
    requires forall k :: i <= k < j ==> ops[k].Get? || (ops[k].Load? && |ops[k].plain| != 32)
    ensures Run(c, seed, ops[..i]).0 == Run(c, seed, ops[..j]).0
  {
    if i < j {
      SeedUnchanged(c, seed, ops, i, j - 1);
      assert ops[..j][..j - 1] == ops[..j - 1];
    }
  }
}
