/** InMemoryRepository: a store of entities kept in a list, in insertion
    order. Entities are looked up by a linear search for the first one whose
    id matches; a missing id raises NotFoundException. */
module Repositories {
  import opened Errors
  import opened ValueObjects
  import opened Entities

  /** What `find_by_id` and `delete` accept: an id string or a UniqueEntityId. */
  datatype EntityKey = ByString(s: string) | ByUid(uid: ValidUid)

  /** `str(entity_id)`: a UniqueEntityId gives its id string, a string itself. */
  function KeyString(key: EntityKey): (s: string)
    ensures key.ByUid? ==> s == key.uid.id
    ensures key.ByString? ==> s == key.s
  {
    match key
    case ByString(s) => s
    case ByUid(u) => u.ToString()
  }

  /** The position of the first entity whose id is `id`, if there is one. */
  function FirstIndex(items: seq<Entity>, id: string): (r: Option<nat>)
    ensures r.Some? ==> r.value < |items| && items[r.value].Id() == id
    ensures r.Some? ==> forall j :: 0 <= j < r.value ==> items[j].Id() != id
    ensures r.None? <==> forall j :: 0 <= j < |items| ==> items[j].Id() != id
    decreases |items|
  {
    if items == [] then None
    else if items[0].Id() == id then Some(0)
    else
      match FirstIndex(items[1..], id)
      case None => None
      case Some(k) => Some(k + 1)
  }

  /** No two stored entities share an id. */
  predicate UniqueIds(items: seq<Entity>)
  {
    forall i, j :: 0 <= i < j < |items| ==> items[i].Id() != items[j].Id()
  }

  /** The list with the element at position `i` taken out. */
  function RemoveAt(items: seq<Entity>, i: nat): (r: seq<Entity>)
    requires i < |items|
    ensures |r| == |items| - 1
    ensures forall j :: 0 <= j < i ==> r[j] == items[j]
    ensures forall j :: i <= j < |r| ==> r[j] == items[j + 1]
  {
    items[..i] + items[i + 1..]
  }

  /** After an insert, the new entity is found by its id unless an earlier
      entity already had that id (duplicates are kept, and the earlier one
      wins); the entities found before are found as before. */
  lemma {:induction false} FindAfterInsert(items: seq<Entity>, entity: Entity, id: string)
    ensures FirstIndex(items, id).Some? ==> FirstIndex(items + [entity], id) == FirstIndex(items, id)
    ensures FirstIndex(items, id).None? && entity.Id() == id ==>
              FirstIndex(items + [entity], id) == Some(|items|)
    ensures FirstIndex(items, id).None? && entity.Id() != id ==>
              FirstIndex(items + [entity], id).None?
  {
    var after := items + [entity];
    assert forall j :: 0 <= j < |items| ==> after[j] == items[j];
    assert after[|items|] == entity;
  }

  /** After an update, the id of the updated entity finds the new entity at
      the same position. */
  lemma {:induction false} FindAfterUpdate(items: seq<Entity>, entity: Entity, i: nat)
    requires FirstIndex(items, entity.Id()) == Some(i)
    ensures FirstIndex(items[i := entity], entity.Id()) == Some(i)
    ensures UniqueIds(items) ==> UniqueIds(items[i := entity])
  {
    var after := items[i := entity];
    assert forall j :: 0 <= j < |items| && j != i ==> after[j] == items[j];
    assert after[i].Id() == entity.Id();
    var r := FirstIndex(after, entity.Id());
    assert r.Some?;
  }

  /** With unique ids, a deleted entity's id is no longer found, and the
      rest keep their ids. */
  lemma {:induction false} FindAfterDelete(items: seq<Entity>, id: string, i: nat)
    requires UniqueIds(items)
    requires FirstIndex(items, id) == Some(i)
    ensures FirstIndex(RemoveAt(items, i), id).None?
    ensures UniqueIds(RemoveAt(items, i))
  {
    var after := RemoveAt(items, i);
    forall j | 0 <= j < |after|
      ensures after[j].Id() != id
    {
      if j >= i {
        assert after[j] == items[j + 1];
      }
    }
  }

  class InMemoryRepository {
    /** The stored entities, in insertion order. */
    var items: seq<Entity>

    /** A fresh repository holds no items. */
    constructor ()
      ensures items == []
    {
      items := [];
    }

    /** `insert`: appends the entity; duplicate ids are not rejected. */
    method Insert(entity: Entity)
      modifies this
      ensures items == old(items) + [entity]
    {
      items := items + [entity];
    }

    /** `_get`: the first stored entity whose id is `id`, or NotFoundException. */
    method Get(id: string) returns (r: Result<Entity>)
      ensures FirstIndex(items, id).Some? ==> r == Ok(items[FirstIndex(items, id).value])
      ensures FirstIndex(items, id).None? ==> r == Err(NotFound(NotFoundMessage(id)))
    {
      var k := 0;
      while k < |items|
        invariant 0 <= k <= |items|
        invariant forall j :: 0 <= j < k ==> items[j].Id() != id
      {
        if items[k].Id() == id {
          return Ok(items[k]);
        }
        k := k + 1;
      }
      return Err(NotFound(NotFoundMessage(id)));
    }

    /** `find_by_id`: the first entity whose id is the key's string form, so a
        string and a UniqueEntityId with that string find the same entity. */
    method FindById(key: EntityKey) returns (r: Result<Entity>)
      ensures r.Ok? <==> exists j :: 0 <= j < |items| && items[j].Id() == KeyString(key)
      ensures r.Ok? ==> r.value.Id() == KeyString(key) &&
                        exists j :: 0 <= j < |items| && items[j] == r.value &&
                                    forall k :: 0 <= k < j ==> items[k].Id() != KeyString(key)
      ensures r.Err? ==> r.error == NotFound("Entity not using ID '" + KeyString(key) + "'")
    {
      r := Get(KeyString(key));
    }

    /** `find_all`: the stored entities, in insertion order. */
    method FindAll() returns (all: seq<Entity>)
      ensures all == items
    {
      all := items;
    }

    /** `list.index(entity)`: the first position holding the entity. */
    method IndexOf(entity: Entity) returns (index: nat)
      requires entity in items
      ensures index < |items| && items[index] == entity
      ensures forall j :: 0 <= j < index ==> items[j] != entity
    {
      index := 0;
      while items[index] != entity
        invariant 0 <= index < |items|
        invariant entity in items[index..]
        invariant forall j :: 0 <= j < index ==> items[j] != entity
        decreases |items| - index
      {
        index := index + 1;
      }
    }

    /** `update`: replaces the first entity with the same id; every other
        position is unchanged. A missing id raises NotFoundException and
        changes nothing. */
    method Update(entity: Entity) returns (r: Outcome)
      modifies this
      ensures FirstIndex(old(items), entity.Id()).Some? ==>
                r == Pass && items == old(items)[FirstIndex(old(items), entity.Id()).value := entity]
      ensures FirstIndex(old(items), entity.Id()).None? ==>
                r == Fail(NotFound(NotFoundMessage(entity.Id()))) && items == old(items)
    {
      var found := Get(entity.Id());
      if found.Err? {
        return Fail(found.error);
      }
      var index := IndexOf(found.value);
      items := items[index := entity];
      return Pass;
    }

    /** `delete`: removes the first entity with the key's id and keeps the
        order of the rest. A missing id raises NotFoundException and changes
        nothing. */
    method Delete(key: EntityKey) returns (r: Outcome)
      modifies this
      ensures FirstIndex(old(items), KeyString(key)).Some? ==>
                r == Pass && items == RemoveAt(old(items), FirstIndex(old(items), KeyString(key)).value)
      ensures FirstIndex(old(items), KeyString(key)).None? ==>
                r == Fail(NotFound(NotFoundMessage(KeyString(key)))) && items == old(items)
    {
      var id := KeyString(key);
      var found := Get(id);
      if found.Err? {
        return Fail(found.error);
      }
      var index := IndexOf(found.value);
      items := items[..index] + items[index + 1..];
      return Pass;
    }
  }
}
