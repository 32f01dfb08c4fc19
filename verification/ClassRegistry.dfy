/** `TClassRegistry` over its fixed array; every method performs one ClassRegistryModel step. */
module ClassRegistry {
  import opened Basics
  import opened ClassRegistryModel

  class ClassRegistry {
    const registeredClasses: array<Descriptor>
    var registeredClassCount: nat
    var nextAutomaticTypeId: nat

    ghost predicate Valid()
      reads this, registeredClasses
    {
      registeredClassCount <= registeredClasses.Length && Inv(Model())
    }

    ghost function Model(): Registry
      reads this, registeredClasses
      requires registeredClassCount <= registeredClasses.Length
    {
      Registry(registeredClasses[..registeredClassCount], registeredClasses.Length, nextAutomaticTypeId)
    }

    constructor (maxClasses: nat)
      ensures Valid() && Model() == NewRegistry(maxClasses) && fresh(registeredClasses)
    {
      registeredClasses := new Descriptor[maxClasses](_ => NO_CLASS);
      registeredClassCount, nextAutomaticTypeId := 0, FIRST_AUTOMATIC_ID;
    }

    method Find(id: nat) returns (index: nat)
      requires registeredClassCount <= registeredClasses.Length
      ensures index == FindFrom(Model().classes, id, 0)
    {
      index := 0;
      while index < registeredClassCount
        invariant index <= registeredClassCount && FindFrom(Model().classes, id, 0) == FindFrom(Model().classes, id, index)
      {
        if registeredClasses[index].typeId == id { return; }
        index := index + 1;
      }
    }

    method FindByTypeToken(token: nat) returns (index: nat)
      requires registeredClassCount <= registeredClasses.Length
      ensures index == if token == 0 then registeredClassCount else FindTokenFrom(Model().classes, token, 0)
    {
      if token == 0 { return registeredClassCount; }
      index := 0;
      while index < registeredClassCount
        invariant index <= registeredClassCount && FindTokenFrom(Model().classes, token, 0) == FindTokenFrom(Model().classes, token, index)
      {
        if registeredClasses[index].token == token { return; }
        index := index + 1;
      }
    }

    method CheckParentChain(d: Descriptor, at: nat, idAt: nat -> nat) returns (valid: bool)
      requires Valid()
      ensures valid == HasValidParentChain(Model(), d, at, idAt)
    {
      if d.parent.None? { return true; }
      var p := d.parent.value;
      var id := if p < registeredClassCount then registeredClasses[p].typeId else idAt(p);
      var found := Find(id);
      if found == registeredClassCount || found != p { return false; }
      ghost var classes := Model().classes;
      var current: Option<nat>, visited := d.parent, 0;
      while current.Some?
        invariant visited <= registeredClassCount && (current.Some? ==> current.value < registeredClassCount)
        invariant ChainEndsInside(classes, at, d.parent, 0) == ChainEndsInside(classes, at, current, visited)
        decreases registeredClassCount - visited
      {
        if current == Some(at) || visited >= registeredClassCount { return false; }
        current := registeredClasses[current.value].parent;
        visited := visited + 1;
      }
      return true;
    }

    method Register(d: Descriptor, at: nat, idAt: nat -> nat) returns (result: RegistryResult)
      requires Valid()
      modifies this, registeredClasses
      ensures Valid() && (Model(), result) == ClassRegistryModel.Register(old(Model()), d, at, idAt)
    {
      hide Inv, HasValidParentChain;
      RegisterKeeps(Model(), d, at, idAt);
      if !WellFormed(d) || d.typeId == 0 { return InvalidClassDescriptor; }
      var found := Find(d.typeId);
      if found < registeredClassCount { return DuplicateClass; }
      var valid := CheckParentChain(d, at, idAt);
      if !valid { return UnknownClass; }
      if registeredClassCount >= registeredClasses.Length { return CapacityExceeded; }
      registeredClasses[registeredClassCount] := d;
      registeredClassCount := registeredClassCount + 1;
      result := Success;
      assert registeredClasses[..registeredClassCount] == old(Model()).classes + [d];
    }

    method AllocateAutomaticTypeId() returns (id: nat)
      requires registeredClassCount <= registeredClasses.Length
      modifies `nextAutomaticTypeId
      ensures (id, nextAutomaticTypeId) == old(Allocate(Model().classes, nextAutomaticTypeId, registeredClasses.Length))
    {
      ghost var classes := Model().classes;
      var probe := 0;
      while probe < registeredClasses.Length
        invariant probe <= registeredClasses.Length
        invariant Allocate(classes, old(nextAutomaticTypeId), registeredClasses.Length)
               == Allocate(classes, nextAutomaticTypeId, registeredClasses.Length - probe)
      {
        var candidate := nextAutomaticTypeId;
        nextAutomaticTypeId := if nextAutomaticTypeId == UINT32_MAX then FIRST_AUTOMATIC_ID else nextAutomaticTypeId + 1;
        var found := Find(candidate);
        if candidate != 0 && found == registeredClassCount { return candidate; }
        probe := probe + 1;
      }
      return 0;
    }

    method RegisterAutomatic(d: Descriptor, at: nat, idAt: nat -> nat) returns (result: RegistryResult, address: Option<nat>)
      requires Valid()
      modifies this, registeredClasses
      ensures Valid() && (Model(), result, address) == ClassRegistryModel.RegisterAutomatic(old(Model()), d, at, idAt)
    {
      hide Inv, HasValidParentChain, Allocate;
      address := None;
      RegisterAutomaticKeeps(Model(), d, at, idAt);
      var found := FindByTypeToken(d.token);
      if found < registeredClassCount { return Success, Some(found); }
      if !WellFormed(d) || d.typeId != 0 { return InvalidClassDescriptor, None; }
      var valid := CheckParentChain(d, at, idAt);
      if !valid { return UnknownClass, None; }
      if registeredClassCount >= registeredClasses.Length { return CapacityExceeded, None; }
      var id := AllocateAutomaticTypeId();
      if id == 0 { return CapacityExceeded, None; }
      registeredClasses[registeredClassCount] := d.(typeId := id);
      address := Some(registeredClassCount);
      registeredClassCount := registeredClassCount + 1;
      result := Success;
      assert registeredClasses[..registeredClassCount] == old(Model()).classes + [d.(typeId := id)];
    }
  }
}
