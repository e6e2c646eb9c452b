/** Model of setExtensionId and _getExtensionId in extension/contracts/InstructionSender.sol. */
module InstructionSender {
  import opened Common

  const FIRST_PUBLIC_EXTENSION_ID: nat := 0x10000

  /** The registry's public part: the instruction senders of the ids from FIRST_PUBLIC_EXTENSION_ID on. */
  type Registry = seq<Address>

  function NextPublicExtensionId(registry: Registry): nat {
    FIRST_PUBLIC_EXTENSION_ID + |registry|
  }

  predicate RegisteredTo(registry: Registry, id: int, sender: Address) {
    && FIRST_PUBLIC_EXTENSION_ID <= id < NextPublicExtensionId(registry)
    && registry[id - FIRST_PUBLIC_EXTENSION_ID] == sender
  }

  /** The id is the least public one registered to this sender. */
  predicate IsLeastId(registry: Registry, id: int, sender: Address) {
    && RegisteredTo(registry, id, sender)
    && forall i :: 0 <= i < id - FIRST_PUBLIC_EXTENSION_ID ==> registry[i] != sender
  }

  datatype IdError = AlreadySet | NotFound | NotSet

  /** _getExtensionId on the stored id, which is 0 until it is set. */
  function GetId(id: nat): Result<nat, IdError> {
    if id == 0 then Err(NotSet) else Ok(id)
  }

  class Contract {
    const self: Address
    var extensionId: nat

    constructor (self: Address)
      ensures this.self == self && extensionId == 0
    {
      this.self := self;
      extensionId := 0;
    }

    method SetExtensionId(registry: Registry) returns (r: Result<(), IdError>)
      modifies this
      ensures old(extensionId) != 0 ==> r == Err(AlreadySet)
      ensures old(extensionId) == 0 ==> (r == Ok(()) <==> self in registry)
      ensures old(extensionId) == 0 ==> (r == Err(NotFound) <==> self !in registry)
      ensures r.Ok? ==> IsLeastId(registry, extensionId, self)
      ensures r.Err? ==> extensionId == old(extensionId)
      ensures extensionId == SetId(old(extensionId), registry, self)
    {
      LeastFrom(registry, self, 0);
      if extensionId != 0 {
        return Err(AlreadySet);
      }
      var c := NextPublicExtensionId(registry);
      for i := FIRST_PUBLIC_EXTENSION_ID to c
        invariant forall j :: 0 <= j < i - FIRST_PUBLIC_EXTENSION_ID ==> registry[j] != self
      {
        if registry[i - FIRST_PUBLIC_EXTENSION_ID] == self {
          extensionId := i;
          LeastIsUnique(registry, i, SetId(0, registry, self), self);
          return Ok(());
        }
      }
      return Err(NotFound);
    }

    method GetExtensionId() returns (r: Result<nat, IdError>)
      ensures r == GetId(extensionId)
    {
      if extensionId == 0 {
        return Err(NotSet);
      }
      return Ok(extensionId);
    }
  }

  // ---- runs -----------------------------------------------------------------------------------

  /** The index of the first entry of a sender from i on, or the length. */
  function Least(registry: Registry, sender: Address, i: nat): (k: nat)
    requires i <= |registry|
    ensures i <= k <= |registry|
    decreases |registry| - i
  {
    if i == |registry| || registry[i] == sender then i else Least(registry, sender, i + 1)
  }

  lemma {:induction false} LeastFrom(registry: Registry, sender: Address, i: nat)
    requires i <= |registry|
    ensures var k := Least(registry, sender, i);
      && (k < |registry| ==> registry[k] == sender)
      && (forall j :: i <= j < k ==> registry[j] != sender)
    decreases |registry| - i
  {
    if i < |registry| && registry[i] != sender {
      LeastFrom(registry, sender, i + 1);
    }
  }

  lemma LeastIsUnique(registry: Registry, a: int, b: int, sender: Address)
    requires IsLeastId(registry, a, sender) && IsLeastId(registry, b, sender)
    ensures a == b
  {
    assert registry[a - FIRST_PUBLIC_EXTENSION_ID] == registry[b - FIRST_PUBLIC_EXTENSION_ID] == sender;
  }

  /** The stored id after a call: a call that reverts changes nothing. */
  function SetId(id: nat, registry: Registry, self: Address): nat {
    var k := Least(registry, self, 0);
    if id != 0 || k == |registry| then id else FIRST_PUBLIC_EXTENSION_ID + k
  }

  /** The registry appends an extension, or anyone calls setExtensionId. */
  datatype Event = Appended(sender: Address) | SetCalled

  function RegistryAfter(events: seq<Event>): Registry {
    if events == [] then []
    else
      var before, last := RegistryAfter(events[..|events| - 1]), events[|events| - 1];
      if last.Appended? then before + [last.sender] else before
  }

  function IdAfter(events: seq<Event>, self: Address): nat {
    if events == [] then 0
    else
      var before, last := events[..|events| - 1], events[|events| - 1];
      if last.SetCalled? then SetId(IdAfter(before, self), RegistryAfter(before), self) else IdAfter(before, self)
  }

  lemma SetIdIsLeast(registry: Registry, self: Address)
    ensures SetId(0, registry, self) == 0 <==> self !in registry
    ensures self in registry ==> IsLeastId(registry, SetId(0, registry, self), self)
  {
    LeastFrom(registry, self, 0);
  }

  /** Call k of the run is one of setExtensionId that finds this contract registered. */
  predicate Succeeds(events: seq<Event>, self: Address, k: int) {
    0 <= k < |events| && events[k].SetCalled? && self in RegistryAfter(events[..k])
  }

  /**
   In every run the id is set exactly if some call found the contract registered, and then it is the least public id
   registered to it: in the registry of that moment, and still in the registry of now.
   */
  lemma {:induction false} IdIsLeastOrUnset(events: seq<Event>, self: Address)
    ensures var id := IdAfter(events, self);
      && (id != 0 <==> exists k :: Succeeds(events, self, k))
      && (id != 0 ==> IsLeastId(RegistryAfter(events), id, self))
  {
    if events != [] {
      var n := |events| - 1;
      var before := events[..n];
      IdIsLeastOrUnset(before, self);
      SetIdIsLeast(RegistryAfter(before), self);
      forall k | 0 <= k < n
        ensures Succeeds(events, self, k) <==> Succeeds(before, self, k)
      {
        assert before[..k] == events[..k];
      }
      if k :| Succeeds(before, self, k) {
        assert Succeeds(events, self, k);
      }
      if events[n].SetCalled? && self in RegistryAfter(before) {
        assert Succeeds(events, self, n);
      }
    }
  }

  /** Once set, the id never changes. */
  lemma {:induction false} IdNeverChanges(events: seq<Event>, self: Address, k: nat)
    requires k <= |events| && IdAfter(events[..k], self) != 0
    ensures IdAfter(events, self) == IdAfter(events[..k], self)
  {
    if k < |events| {
      assert events[..|events| - 1][..k] == events[..k];
      IdNeverChanges(events[..|events| - 1], self, k);
    } else {
      assert events[..k] == events;
    }
  }

  /**
   A forwarding call gets an id exactly if some call of setExtensionId found the contract registered before. The id is
   then the one least public id registered to the contract, and the one that every earlier forwarding call got.
   */
  lemma {:induction false} GetIdAnswersForRun(events: seq<Event>, self: Address)
    ensures var r := GetId(IdAfter(events, self));
      && (r.Ok? <==> exists k :: Succeeds(events, self, k))
      && (r.Err? ==> r.error == NotSet)
      && (r.Ok? ==> forall id :: IsLeastId(RegistryAfter(events), id, self) <==> id == r.value)
      && (forall k :: 0 <= k <= |events| && GetId(IdAfter(events[..k], self)).Ok? ==>
            GetId(IdAfter(events[..k], self)) == r)
  {
    hide IdAfter, RegistryAfter;
    IdIsLeastOrUnset(events, self);
    var id := IdAfter(events, self);
    forall other | id != 0 && IsLeastId(RegistryAfter(events), other, self)
      ensures other == id
    {
      LeastIsUnique(RegistryAfter(events), other, id, self);
    }
    forall k | 0 <= k <= |events| && GetId(IdAfter(events[..k], self)).Ok?
      ensures GetId(IdAfter(events[..k], self)) == GetId(id)
    {
      IdNeverChanges(events, self, k);
    }
  }
}
