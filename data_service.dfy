/** Entities and the data service the REST layer talks to: entity values,
    entities as maps from attribute name to value, and an in-memory store of
    entities per entity type, keyed by id value. */
module EntityData {
  import opened Wrappers
  import opened Strings
  import opened Metadata

  /** An attribute value as the entity holds it; NullV is Java's null. A
      reference holds the referenced entity, a multi-reference the list of
      referenced entities. */
  datatype Value =
    | NullV
    | BoolV(b: bool)
    | IntV(i: int)
    | LongV(l: int)
    | DecimalV(d: real)
    | TextV(s: string)
    | DateV(instant: int)
    | RefV(target: Entity)
    | RefsV(targets: seq<Entity>)

  /** An entity of an entity type. */
  datatype Entity = Entity(entityType: EntityType, values: map<string, Value>)

  /** entity.get(name): null when the entity holds nothing under name. */
  function Get(e: Entity, name: string): Value {
    if name in e.values then e.values[name] else NullV
  }

  /** entity.set(name, value). */
  function Set(e: Entity, name: string, v: Value): (r: Entity)
    ensures r.entityType == e.entityType
    ensures Get(r, name) == v
    ensures forall n :: n != name ==> Get(r, n) == Get(e, n)
  {
    Entity(e.entityType, e.values[name := v])
  }

  /** entity.getIdValue(): the value of the id attribute. */
  function IdOf(e: Entity): Value {
    Get(e, e.entityType.idAttribute.name)
  }

  /** The toString of an id value. Id attributes are of a string or an
      integer type; the text of any other value is not part of this model. */
  function IdText(v: Value): string {
    match v
    case TextV(s) => s
    case IntV(i) => IntToString(i)
    case LongV(l) => IntToString(l)
    case BoolV(b) => if b then "true" else "false"
    case _ => "null"
  }

  /** A call that changes the store, as the data service receives it. */
  datatype Call = AddCall(entityName: string, entities: seq<Entity>) | UpdateCall(entityName: string, entities: seq<Entity>)

  /** The stored entities of one type after writing entities, in order:
      each is stored under its id, a later one replacing an earlier one. */
  function Stored(current: map<Value, Entity>, entities: seq<Entity>): (r: map<Value, Entity>)
    ensures forall e :: e in entities ==> IdOf(e) in r
    ensures forall id :: id in r <==> id in current || exists e :: e in entities && IdOf(e) == id
    decreases |entities|
  {
    if entities == [] then current
    else
      var last := entities[|entities| - 1];
      assert forall e :: e in entities ==> e == last || e in entities[..|entities| - 1];
      Stored(current, entities[..|entities| - 1])[IdOf(last) := last]
  }

  /** Every stored entity sits under its own id. */
  predicate KeyedById(m: map<Value, Entity>) {
    forall id :: id in m ==> IdOf(m[id]) == id
  }

  /** Writing keeps the store keyed by id. */
  lemma {:induction false} StoredKeyedById(current: map<Value, Entity>, entities: seq<Entity>)
    requires KeyedById(current)
    ensures KeyedById(Stored(current, entities))
    decreases |entities|
  {
    if entities != [] {
      StoredKeyedById(current, entities[..|entities| - 1]);
    }
  }

  /** The last entity written with a given id is the one stored under it. */
  lemma {:induction false} StoredLastWins(current: map<Value, Entity>, entities: seq<Entity>, k: nat)
    requires k < |entities|
    requires forall j :: k < j < |entities| ==> IdOf(entities[j]) != IdOf(entities[k])
    ensures Stored(current, entities)[IdOf(entities[k])] == entities[k]
    decreases |entities|
  {
    if k < |entities| - 1 {
      StoredLastWins(current, entities[..|entities| - 1], k);
    }
  }

  /** The in-memory data service. */
  class DataService {
    /** The entity types, by name (getEntityMetaData). */
    var metas: map<string, EntityType>
    /** The stored entities, per entity type name, by id value. */
    var store: map<string, map<Value, Entity>>
    /** The add and update calls received, in order. */
    var calls: seq<Call>
    /** Whether the backend accepts an add or update call; its own constraint
        checks are not part of this model. */
    const accepts: Call -> bool
    /** How the backend completes an entity it adds: it may fill in an id
        (an auto id); which id it picks is not part of this model. */
    const assignId: Entity -> Entity

    constructor(
      metas: map<string, EntityType>, store: map<string, map<Value, Entity>>,
      accepts: Call -> bool, assignId: Entity -> Entity)
      ensures this.metas == metas && this.store == store && this.accepts == accepts
      ensures this.assignId == assignId && calls == []
    {
      this.metas := metas;
      this.store := store;
      this.accepts := accepts;
      this.assignId := assignId;
      calls := [];
    }

    /** The entities as the backend adds them, in order, with the ids it
        fills in. Java's add completes the caller's own objects, so the
        caller then reads the ids from these. */
    function Assigned(entities: seq<Entity>): (r: seq<Entity>)
      ensures |r| == |entities|
      ensures forall i :: 0 <= i < |entities| ==> r[i] == assignId(entities[i])
    {
      seq(|entities|, i requires 0 <= i < |entities| => assignId(entities[i]))
    }

    /** getEntityMetaData(name): null for an unknown name. */
    function GetEntityMetaData(name: string): (r: Option<EntityType>)
      reads this
      ensures r.Some? <==> name in metas
      ensures r.Some? ==> r.value == metas[name]
    {
      if name in metas then Some(metas[name]) else None
    }

    /** The stored entities of a type; none for a type with nothing stored. */
    function Entities(name: string): map<Value, Entity>
      reads this
    {
      if name in store then store[name] else map[]
    }

    /** findOne(name, id): null when nothing is stored under id. */
    function FindOne(name: string, id: Value): (r: Option<Entity>)
      reads this
      ensures r.Some? <==> id in Entities(name)
      ensures r.Some? ==> r.value == Entities(name)[id]
    {
      if id in Entities(name) then Some(Entities(name)[id]) else None
    }

    /** findAll(name, ids), collected by id value: the stored entities whose
        id is among ids. Ids with nothing stored are absent. */
    function FindAll(name: string, ids: set<Value>): (r: map<Value, Entity>)
      reads this
      ensures forall id :: id in r <==> id in ids && id in Entities(name)
      ensures forall id :: id in r ==> r[id] == Entities(name)[id]
    {
      map id | id in ids && id in Entities(name) :: Entities(name)[id]
    }

    /** add(name, entities): one call; when the backend accepts it, every
        entity, completed with the id the backend fills in, is stored under
        that id, and the completed entities are returned. */
    method Add(name: string, entities: seq<Entity>) returns (ok: bool, added: seq<Entity>)
      modifies this
      ensures calls == old(calls) + [AddCall(name, entities)] && metas == old(metas)
      ensures ok == accepts(AddCall(name, entities))
      ensures added == Assigned(entities)
      ensures ok ==> store == old(store)[name := Stored(old(Entities(name)), added)]
      ensures !ok ==> store == old(store)
    {
      calls := calls + [AddCall(name, entities)];
      ok := accepts(AddCall(name, entities));
      added := Assigned(entities);
      if ok {
        store := store[name := Stored(Entities(name), added)];
      }
    }

    /** update(name, entities): one call; when the backend accepts it, every
        entity replaces the one stored under its id. */
    method Update(name: string, entities: seq<Entity>) returns (ok: bool)
      modifies this
      ensures calls == old(calls) + [UpdateCall(name, entities)] && metas == old(metas)
      ensures ok == accepts(UpdateCall(name, entities))
      ensures ok ==> store == old(store)[name := Stored(old(Entities(name)), entities)]
      ensures !ok ==> store == old(store)
    {
      calls := calls + [UpdateCall(name, entities)];
      ok := accepts(UpdateCall(name, entities));
      if ok {
        store := store[name := Stored(Entities(name), entities)];
      }
    }
  }
}
