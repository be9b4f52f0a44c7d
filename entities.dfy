/** Entity: the base of the domain's entities. Every entity carries a
    UniqueEntityId, generated when none is given, and the fields its subclass
    declares. The fields are modelled as an ordered list of (name, value)
    pairs, as the dataclass declares them. */
module Entities {
  import opened Errors
  import opened Values
  import opened ValueObjects

  /** The declared fields of an entity other than `unique_entity_id`, with
      their values, in declaration order. */
  type Props = seq<(string, Value)>

  function Names(props: Props): set<string>
  {
    set i | 0 <= i < |props| :: props[i].0
  }

  predicate DistinctProps(props: Props)
  {
    forall i, j :: 0 <= i < j < |props| ==> props[i].0 != props[j].0
  }

  /** What a dataclass declaration guarantees of its fields: the names are
      distinct, and none of them is the inherited field `unique_entity_id` or
      the name of the `id` property. */
  predicate WellFormed(props: Props)
  {
    DistinctProps(props) && "unique_entity_id" !in Names(props) && "id" !in Names(props)
  }

  /** The dict of name to value of the fields, as `asdict` builds it: one
      entry per field, in declaration order. */
  function PropsDict(props: Props): map<string, Value>
    decreases |props|
  {
    if props == [] then map[]
    else PropsDict(props[..|props| - 1])[props[|props| - 1].0 := props[|props| - 1].1]
  }

  /** The dict has one key per field name. */
  lemma {:induction false} PropsDictKeys(props: Props)
    ensures PropsDict(props).Keys == Names(props)
    decreases |props|
  {
    if props != [] {
      var init := props[..|props| - 1];
      PropsDictKeys(init);
      assert forall i :: 0 <= i < |init| ==> init[i] == props[i];
      assert Names(props) == Names(init) + {props[|props| - 1].0};
    }
  }

  /** With distinct names, each field's name maps to that field's value. */
  lemma {:induction false} PropsDictAt(props: Props, i: nat)
    requires DistinctProps(props) && i < |props|
    ensures props[i].0 in PropsDict(props) && PropsDict(props)[props[i].0] == props[i].1
    decreases |props|
  {
    if i < |props| - 1 {
      var init := props[..|props| - 1];
      assert forall j :: 0 <= j < |init| ==> init[j] == props[j];
      PropsDictAt(init, i);
    }
  }

  lemma {:induction false} PropsDictValues(props: Props)
    requires DistinctProps(props)
    ensures forall i :: 0 <= i < |props| ==>
              props[i].0 in PropsDict(props) && PropsDict(props)[props[i].0] == props[i].1
  {
    forall i | 0 <= i < |props|
      ensures props[i].0 in PropsDict(props) && PropsDict(props)[props[i].0] == props[i].1
    {
      PropsDictAt(props, i);
    }
  }

  /** The fields after field `name` is set to `value`; a name that is not a
      declared field changes none of them. */
  function Replaced(props: Props, name: string, value: Value): (r: Props)
    ensures |r| == |props| && Names(r) == Names(props)
    ensures forall i :: 0 <= i < |r| ==> r[i].0 == props[i].0
    ensures forall i :: 0 <= i < |r| ==> r[i].1 == if props[i].0 == name then value else props[i].1
    ensures WellFormed(props) ==> WellFormed(r)
  {
    var r := seq(|props|, i requires 0 <= i < |props| =>
                  if props[i].0 == name then (name, value) else props[i]);
    assert Names(r) == Names(props) by {
      assert forall i :: 0 <= i < |r| ==> r[i].0 == props[i].0;
    }
    r
  }

  /** Setting one field changes that key of the dict, and no other. */
  lemma {:induction false} ReplacedDict(props: Props, name: string, value: Value)
    ensures PropsDict(Replaced(props, name, value)) ==
              if name in Names(props) then PropsDict(props)[name := value] else PropsDict(props)
    decreases |props|
  {
    if props != [] {
      var init, last := props[..|props| - 1], props[|props| - 1];
      var r := Replaced(props, name, value);
      assert r[..|r| - 1] == Replaced(init, name, value);
      assert Names(props) == Names(init) + {last.0} by {
        assert forall i :: 0 <= i < |init| ==> init[i] == props[i];
      }
      ReplacedDict(init, name, value);
    }
  }

  /** The same, once the 'id' key of `to_dict` is added: 'id' is not a field
      name, so setting a field never touches it. */
  lemma {:induction false} ReplacedDictWithId(props: Props, name: string, value: Value, id: string)
    requires WellFormed(props)
    ensures PropsDict(Replaced(props, name, value))["id" := Str(id)] ==
              if name in Names(props) then PropsDict(props)["id" := Str(id)][name := value]
              else PropsDict(props)["id" := Str(id)]
  {
    ReplacedDict(props, name, value);
    if name in Names(props) {
      assert name != "id";
      var d := PropsDict(props);
      assert d[name := value]["id" := Str(id)] == d["id" := Str(id)][name := value];
    }
  }

  class Entity {
    /** `unique_entity_id`. */
    const uniqueEntityId: ValidUid
    /** The fields the subclass declares. */
    var props: Props

    ghost predicate Valid()
      reads this
    {
      WellFormed(props)
    }

    /** An entity built with the UniqueEntityId it is given, and its fields
        stored as given. */
    constructor (uniqueEntityId: ValidUid, props: Props)
      requires WellFormed(props)
      ensures Valid()
      ensures this.uniqueEntityId == uniqueEntityId && this.props == props
    {
      this.uniqueEntityId := uniqueEntityId;
      this.props := props;
    }

    /** An entity built without an id: `default_factory=UniqueEntityId` draws
        a fresh UUID, passed in here as `drawn`. */
    constructor WithGeneratedId(drawn: Uuid, props: Props)
      requires WellFormed(props)
      ensures Valid()
      ensures uniqueEntityId == Generate(drawn) && IsUuid(Id()) && this.props == props
    {
      this.uniqueEntityId := Generate(drawn);
      this.props := props;
    }

    /** The `id` property: the string form of the entity's UniqueEntityId. */
    function Id(): (r: string)
      ensures r == uniqueEntityId.id && IsUuid(r)
    {
      uniqueEntityId.ToString()
    }

    /** `asdict(self)`: every field, `unique_entity_id` included, which is
        itself a dataclass and becomes the nested dict `{'id': ...}`. */
    function AsDict(): (d: map<string, Value>)
      reads this
      ensures d.Keys == Names(props) + {"unique_entity_id"}
      ensures d["unique_entity_id"] == Dict(map["id" := Str(Id())])
    {
      PropsDictKeys(props);
      PropsDict(props)["unique_entity_id" := Dict(map["id" := Str(uniqueEntityId.id)])]
    }

    /** `to_dict`: every declared field with its value, plus 'id', and no
        'unique_entity_id'. */
    function ToDict(): (d: map<string, Value>)
      requires Valid()
      reads this
      ensures d.Keys == Names(props) + {"id"}
      ensures "unique_entity_id" !in d
      ensures d["id"] == Str(Id())
      ensures forall i :: 0 <= i < |props| ==> d[props[i].0] == props[i].1
      ensures d == PropsDict(props)["id" := Str(Id())]
    {
      PropsDictKeys(props);
      PropsDictValues(props);
      assert PropsDict(props)["unique_entity_id" := Dict(map["id" := Str(uniqueEntityId.id)])] - {"unique_entity_id"}
             == PropsDict(props);
      (AsDict() - {"unique_entity_id"})["id" := Str(Id())]
    }

    /** `_set(name, value)`: overwrites field `name` in place and returns the
        entity itself. */
    method Set(name: string, value: Value) returns (self: Entity)
      requires Valid()
      modifies this
      ensures self == this && Valid()
      ensures props == Replaced(old(props), name, value)
      ensures ToDict() == if name in Names(old(props)) then old(ToDict())[name := value] else old(ToDict())
    {
      ReplacedDictWithId(props, name, value, Id());
      props := Replaced(props, name, value);
      self := this;
    }
  }
}
