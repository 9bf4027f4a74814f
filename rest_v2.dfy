/** The REST v2 controller's collection logic (RestControllerV2): the guards
    shared by the batch operations, batch create, batch update and the
    attribute-wide update, the aggregate-query guard and the default
    attribute filter used when references are expanded. */
module RestV2 {
  import opened Wrappers
  import opened Strings
  import opened Metadata
  import opened EntityData

  const MAX_ENTITIES: nat := 1000
  const BASE_URI: string := "/api/v2"

  /** HttpServletResponse status codes. */
  const SC_OK: int := 200
  const SC_CREATED: int := 201
  const SC_NO_CONTENT: int := 204

  /** The name of FileMeta's url attribute. */
  const FILE_URL: string := "url"

  datatype RestError =
    | NoEntities
    | MaxEntitiesExceeded
    | UnknownEntity(entityName: string)
    | UnknownAttribute(entityName: string, attributeName: string)
    | ReadOnlyAttribute(entityName: string, attributeName: string)
    | IdentifierAndValue
    | UnknownIdentifier(index: nat)
    | NotValidId(id: string)
    | AggregateMissingXY
      /** The data service's add or update raised. */
    | BackendRejected
      /** getIdValue() was null where the code calls toString on it. */
    | NullId

  /** The message of each exception the controller raises itself; None for
      the ones raised by code outside it. */
  function Message(e: RestError): Option<string> {
    match e
    case NoEntities => Some("Operation failed. No entities to update")
    case MaxEntitiesExceeded => Some("Operation failed. Max " + NatToString(MAX_ENTITIES) + " entities are allowed")
    case UnknownEntity(n) => Some("Operation failed. Unknown entity: '" + n + "'")
    case UnknownAttribute(n, a) => Some("Operation failed. Unknown attribute: '" + a + "', of entity: '" + n + "'")
    case ReadOnlyAttribute(n, a) => Some("Operation failed. Attribute '" + a + "' of entity '" + n + "' is readonly")
    case IdentifierAndValue => Some("Operation failed. Entities must provide only an identifier and a value")
    case UnknownIdentifier(i) => Some("Operation failed. Unknown identifier on index " + NatToString(i))
    case NotValidId(id) => Some("Operation failed. Identifier: " + id + " is not valid")
    case AggregateMissingXY => Some("Aggregate query is missing 'x' or 'y' attribute")
    case BackendRejected => None
    case NullId => None
  }

  /** Hrefs of the v2 API (Href.concatEntityHref and concatEntityCollectionHref);
      their rendering is not part of this model. */
  datatype Href =
    | EntityHref(base: string, entityName: string, id: string)
    | CollectionHref(base: string, entityName: string, idAttributeName: string, ids: seq<string>)

  /** The body of a batch-create response. */
  datatype CreateResponse = CreateResponse(resources: seq<Href>, location: Href)

  /** A batch request is acceptable: not empty, at most MAX_ENTITIES entities,
      for a known entity type. */
  predicate BatchAcceptable(count: nat, meta: Option<EntityType>) {
    0 < count <= MAX_ENTITIES && meta.Some?
  }

  /** generalChecksForBachOperations: an empty batch first, then an oversized
      one, then an unknown entity type. */
  function BatchCheck(count: nat, meta: Option<EntityType>, entityName: string): (r: Outcome<RestError>)
    ensures r.Pass? <==> BatchAcceptable(count, meta)
    ensures count == 0 ==> r == Fail(NoEntities)
    ensures count > MAX_ENTITIES ==> r == Fail(MaxEntitiesExceeded)
    ensures 0 < count <= MAX_ENTITIES && meta.None? ==> r == Fail(UnknownEntity(entityName))
  {
    if count == 0 then Fail(NoEntities)
    else if count > MAX_ENTITIES then Fail(MaxEntitiesExceeded)
    else if meta.None? then Fail(UnknownEntity(entityName))
    else Pass
  }

  /** The guards fire in order: an empty batch for an unknown entity type
      reports the empty batch, an oversized one the size. */
  lemma BatchGuardOrder(entityName: string)
    ensures BatchCheck(0, None, entityName) == Fail(NoEntities)
    ensures BatchCheck(MAX_ENTITIES + 1, None, entityName) == Fail(MaxEntitiesExceeded)
    ensures BatchCheck(MAX_ENTITIES, None, entityName) == Fail(UnknownEntity(entityName))
  {
  }

  /** The guard of an aggregate query: it needs an x or a y attribute. */
  function AggregateCheck(x: Option<Attribute>, y: Option<Attribute>): (r: Outcome<RestError>)
    ensures r.Fail? <==> x.None? && y.None?
    ensures r.Fail? ==> r.error == AggregateMissingXY
  {
    if x.None? && y.None? then Fail(AggregateMissingXY) else Pass
  }

  /** An attribute filter (AttributeFilter): everything, or the named
      attributes, each possibly with a filter for the entities it refers to. */
  datatype AttrFilter = AttrFilter(includeAll: bool, names: set<string>, refFilters: map<string, AttrFilter>)

  /** AttributeFilter.ALL_ATTRS_FILTER. */
  const ALL_ATTRS: AttrFilter := AttrFilter(true, {}, map[])

  predicate IncludeAttribute(f: AttrFilter, a: Attribute) {
    f.includeAll || a.name in f.names
  }

  /** getAttributeFilter(attr): the filter for the entities attr refers to. */
  function RefFilter(f: AttrFilter, a: Attribute): Option<AttrFilter> {
    if a.name in f.refFilters then Some(f.refFilters[a.name]) else None
  }

  /** createDefaultRefAttributeFilter: the referenced entity type's id and
      label attributes, and the file url for a FILE attribute. The referenced
      entity type must be set. */
  function DefaultRefAttributeFilter(a: Attribute): (r: AttrFilter)
    requires a.refEntity.Some?
    ensures !r.includeAll && r.refFilters == map[]
    ensures forall n :: n in r.names <==>
      n == a.refEntity.value.idAttribute.name || n == a.refEntity.value.labelAttribute.name
      || (a.dataType == File && n == FILE_URL)
  {
    var ref := a.refEntity.value;
    var names := {ref.idAttribute.name, ref.labelAttribute.name};
    AttrFilter(false, if a.dataType == File then names + {FILE_URL} else names, map[])
  }

  /** The url is in the default filter of a FILE attribute and, unless the
      referenced type's id or label attribute is called that, of no other. */
  lemma DefaultFilterUrlIffFile(a: Attribute)
    requires a.refEntity.Some?
    requires a.refEntity.value.idAttribute.name != FILE_URL && a.refEntity.value.labelAttribute.name != FILE_URL
    ensures FILE_URL in DefaultRefAttributeFilter(a).names <==> a.dataType == File
  {
  }

  /** The filter used for a reference: the request's, else the default. */
  function RefFilterOrDefault(f: AttrFilter, a: Attribute): AttrFilter
    requires a.refEntity.Some?
  {
    match RefFilter(f, a)
    case Some(g) => g
    case None => DefaultRefAttributeFilter(a)
  }

  /** restService.toEntity(meta, e): the request's values as an entity of
      the type (the conversion of request values is not part of this model). */
  function ToEntities(meta: EntityType, request: seq<map<string, Value>>): (r: seq<Entity>)
    ensures |r| == |request|
    ensures forall i :: 0 <= i < |r| ==> r[i] == Entity(meta, request[i])
  {
    seq(|request|, i requires 0 <= i < |request| => Entity(meta, request[i]))
  }

  /** Every entity has an id. */
  predicate HaveIds(entities: seq<Entity>) {
    forall i :: 0 <= i < |entities| ==> IdOf(entities[i]) != NullV
  }

  /** The ids of the entities, as text, in order. */
  function IdTexts(entities: seq<Entity>): (ids: seq<string>)
    ensures |ids| == |entities|
    ensures forall i :: 0 <= i < |entities| ==> ids[i] == IdText(IdOf(entities[i]))
  {
    seq(|entities|, i requires 0 <= i < |entities| => IdText(IdOf(entities[i])))
  }

  /** The batch-create answer for the added entities: an entity href per
      id and the collection href over the same ids. */
  function Created(entityName: string, idAttributeName: string, ids: seq<string>): CreateResponse {
    CreateResponse(
      seq(|ids|, i requires 0 <= i < |ids| => EntityHref(BASE_URI, entityName, ids[i])),
      CollectionHref(BASE_URI, entityName, idAttributeName, ids))
  }

  /** One resource per entity, in request order, each naming the same id as
      the location at the same position. */
  lemma CreatedMatchesEntities(entityName: string, idAttributeName: string, entities: seq<Entity>)
    ensures var c := Created(entityName, idAttributeName, IdTexts(entities));
      && |c.resources| == |entities|
      && c.location == CollectionHref(BASE_URI, entityName, idAttributeName, c.location.ids)
      && |c.location.ids| == |entities|
      && forall i :: 0 <= i < |entities| ==>
           c.resources[i] == EntityHref(BASE_URI, entityName, c.location.ids[i])
           && c.location.ids[i] == IdText(IdOf(entities[i]))
  {
  }

  /** The update built from the request's entities, from index i on: the
      entity stored under each one's id with the attribute set to the
      requested value. The first index without an id, or with an id nothing
      is stored under, is the error. */
  function UpdatedFrom(
    stored: map<Value, Entity>, entities: seq<Entity>, attributeName: string, i: nat)
    : (r: Result<seq<Entity>, RestError>)
    requires i <= |entities|
    ensures r.Ok? ==> |r.value| == |entities| - i
    decreases |entities| - i
  {
    if i == |entities| then Ok([])
    else
      var id := IdOf(entities[i]);
      if id == NullV then Err(UnknownIdentifier(i))
      else if id !in stored then Err(NotValidId(IdText(id)))
      else
        match UpdatedFrom(stored, entities, attributeName, i + 1)
        case Err(e) => Err(e)
        case Ok(rest) => Ok([Set(stored[id], attributeName, Get(entities[i], attributeName))] + rest)
  }

  /** A successful attribute update holds, in request order, each request
      entity's stored original with only the attribute replaced by the
      requested value. */
  lemma {:induction false} UpdatedFromOk(
    stored: map<Value, Entity>, entities: seq<Entity>, attributeName: string, i: nat)
    requires i <= |entities|
    requires UpdatedFrom(stored, entities, attributeName, i).Ok?
    ensures var us := UpdatedFrom(stored, entities, attributeName, i).value;
      forall k :: i <= k < |entities| ==>
        && IdOf(entities[k]) != NullV && IdOf(entities[k]) in stored
        && Get(us[k - i], attributeName) == Get(entities[k], attributeName)
        && us[k - i].entityType == stored[IdOf(entities[k])].entityType
        && (forall n :: n != attributeName ==> Get(us[k - i], n) == Get(stored[IdOf(entities[k])], n))
    decreases |entities| - i
  {
    if i < |entities| {
      UpdatedFromOk(stored, entities, attributeName, i + 1);
    }
  }

  /** The entity has an id under which an entity is stored. */
  predicate Resolvable(stored: map<Value, Entity>, e: Entity) {
    IdOf(e) != NullV && IdOf(e) in stored
  }

  /** The first index from i on whose entity is not resolvable, or the
      length when there is none. */
  function FirstUnresolvable(stored: map<Value, Entity>, entities: seq<Entity>, i: nat): (k: nat)
    requires i <= |entities|
    ensures i <= k <= |entities|
    ensures forall j :: i <= j < k ==> Resolvable(stored, entities[j])
    ensures k < |entities| ==> !Resolvable(stored, entities[k])
    decreases |entities| - i
  {
    if i == |entities| || !Resolvable(stored, entities[i]) then i
    else FirstUnresolvable(stored, entities, i + 1)
  }

  /** The error for an unresolvable entity at index k. */
  function UnresolvableError(e: Entity, k: nat): RestError {
    if IdOf(e) == NullV then UnknownIdentifier(k) else NotValidId(IdText(IdOf(e)))
  }

  /** An attribute update fails exactly when some entity from i on is not
      resolvable, and then with the error of the first such entity. */
  lemma {:induction false} UpdatedFromErr(
    stored: map<Value, Entity>, entities: seq<Entity>, attributeName: string, i: nat)
    requires i <= |entities|
    ensures var k := FirstUnresolvable(stored, entities, i);
      && (UpdatedFrom(stored, entities, attributeName, i).Err? <==> k < |entities|)
      && (k < |entities| ==>
            UpdatedFrom(stored, entities, attributeName, i) == Err(UnresolvableError(entities[k], k)))
    decreases |entities| - i
  {
    if i < |entities| && Resolvable(stored, entities[i]) {
      UpdatedFromErr(stored, entities, attributeName, i + 1);
    }
  }

  /** The loop of createEntities after the add: each entity's id, in order,
      becomes an entity href and an id of the location; an entity without
      an id fails the request where toString is called on its null id. */
  method CreatedResponse(entityName: string, idAttributeName: string, entities: seq<Entity>)
    returns (r: Result<CreateResponse, RestError>)
    ensures r.Ok? <==> HaveIds(entities)
    ensures r.Ok? ==> r.value == Created(entityName, idAttributeName, IdTexts(entities))
    ensures r.Err? ==> r.error == NullId
  {
    var ids: seq<string> := [];
    var resources: seq<Href> := [];
    var i := 0;
    while i < |entities|
      invariant 0 <= i <= |entities|
      invariant forall k :: 0 <= k < i ==> IdOf(entities[k]) != NullV
      invariant ids == IdTexts(entities[..i])
      invariant resources == Created(entityName, idAttributeName, ids).resources
    {
      var id := IdOf(entities[i]);
      if id == NullV {
        return Err(NullId);
      }
      ids := ids + [IdText(id)];
      resources := resources + [EntityHref(BASE_URI, entityName, IdText(id))];
      assert entities[..i + 1] == entities[..i] + [entities[i]];
      i := i + 1;
    }
    assert entities[..i] == entities;
    var location := CollectionHref(BASE_URI, entityName, idAttributeName, ids);
    return Ok(CreateResponse(resources, location));
  }

  /** Every request entity consists of exactly two fields. */
  predicate IdentifierAndValueOnly(request: seq<map<string, Value>>) {
    forall i :: 0 <= i < |request| ==> |request[i]| == 2
  }

  class RestControllerV2 {
    const dataService: DataService

    constructor(dataService: DataService)
      ensures this.dataService == dataService
    {
      this.dataService := dataService;
    }

    /** createEntities: after the batch guards, adds all entities in one call
        and answers one href per added entity and a location over the same
        ids, in request order, with status 201. The ids are read after the
        add, so an id the backend fills in is the one answered. A failure
        after the guards sets status 204 and is raised again. */
    method CreateEntities(entityName: string, request: seq<map<string, Value>>)
      returns (r: Result<CreateResponse, RestError>, status: Option<int>)
      modifies dataService
      ensures var meta := old(dataService.GetEntityMetaData(entityName));
        !BatchAcceptable(|request|, meta) ==>
          r == Err(BatchCheck(|request|, meta, entityName).error) && status == None
          && dataService.calls == old(dataService.calls) && dataService.store == old(dataService.store)
      ensures var meta := old(dataService.GetEntityMetaData(entityName));
        BatchAcceptable(|request|, meta) ==>
          var entities := ToEntities(meta.value, request);
          var added := dataService.Assigned(entities);
          && dataService.calls == old(dataService.calls) + [AddCall(entityName, entities)]
          && (dataService.accepts(AddCall(entityName, entities)) ==>
                dataService.store == old(dataService.store)[entityName := Stored(old(dataService.Entities(entityName)), added)])
          && (!dataService.accepts(AddCall(entityName, entities)) ==> dataService.store == old(dataService.store))
          && (r.Ok? <==> dataService.accepts(AddCall(entityName, entities)) && HaveIds(added))
          && (r.Err? ==> status == Some(SC_NO_CONTENT))
          && (r.Ok? ==> (status == Some(SC_CREATED)
                && r.value == Created(entityName, meta.value.idAttribute.name, IdTexts(added))))
      ensures dataService.metas == old(dataService.metas)
    {
      var meta := dataService.GetEntityMetaData(entityName);
      var check := BatchCheck(|request|, meta, entityName);
      if check.Fail? {
        return Err(check.error), None;
      }
      var entities := ToEntities(meta.value, request);
      var ok, added := dataService.Add(entityName, entities);
      if !ok {
        return Err(BackendRejected), Some(SC_NO_CONTENT);
      }
      r := CreatedResponse(entityName, meta.value.idAttribute.name, added);
      status := if r.Ok? then Some(SC_CREATED) else Some(SC_NO_CONTENT);
    }

    /** updateEntities: after the batch guards, updates all entities in one
        call; status 200, or 204 when the update raises. */
    method UpdateEntities(entityName: string, request: seq<map<string, Value>>)
      returns (r: Outcome<RestError>, status: Option<int>)
      modifies dataService
      ensures var meta := old(dataService.GetEntityMetaData(entityName));
        !BatchAcceptable(|request|, meta) ==>
          r == Fail(BatchCheck(|request|, meta, entityName).error) && status == None
          && dataService.calls == old(dataService.calls) && dataService.store == old(dataService.store)
      ensures var meta := old(dataService.GetEntityMetaData(entityName));
        BatchAcceptable(|request|, meta) ==>
          var entities := ToEntities(meta.value, request);
          && dataService.calls == old(dataService.calls) + [UpdateCall(entityName, entities)]
          && (r.Pass? <==> dataService.accepts(UpdateCall(entityName, entities)))
          && (r.Pass? ==>
                dataService.store == old(dataService.store)[entityName := Stored(old(dataService.Entities(entityName)), entities)])
          && (r.Fail? ==> dataService.store == old(dataService.store))
          && status == Some(if r.Pass? then SC_OK else SC_NO_CONTENT)
      ensures dataService.metas == old(dataService.metas)
    {
      var meta := dataService.GetEntityMetaData(entityName);
      var check := BatchCheck(|request|, meta, entityName);
      if check.Fail? {
        return check, None;
      }
      var entities := ToEntities(meta.value, request);
      var updated := dataService.Update(entityName, entities);
      if !updated {
        return Fail(BackendRejected), Some(SC_NO_CONTENT);
      }
      return Pass, Some(SC_OK);
    }

    /** updateAttribute: after the batch guards, the attribute must exist and
        not be read-only and every request entity must hold exactly two
        fields; then each entity, in order, must have an id under which an
        entity is stored. Only when all of that holds is the single update
        call made, with the stored originals and the attribute replaced. */
    method UpdateAttribute(entityName: string, attributeName: string, request: seq<map<string, Value>>)
      returns (r: Outcome<RestError>, status: Option<int>)
      modifies dataService
      ensures var meta := old(dataService.GetEntityMetaData(entityName));
        !BatchAcceptable(|request|, meta) ==>
          r == Fail(BatchCheck(|request|, meta, entityName).error) && status == None
      ensures var meta := old(dataService.GetEntityMetaData(entityName));
        BatchAcceptable(|request|, meta) && GetAttribute(meta.value, attributeName).None? ==>
          r == Fail(UnknownAttribute(entityName, attributeName)) && status == Some(SC_NO_CONTENT)
      ensures var meta := old(dataService.GetEntityMetaData(entityName));
        BatchAcceptable(|request|, meta) && GetAttribute(meta.value, attributeName).Some?
        && GetAttribute(meta.value, attributeName).value.flags.readOnly ==>
          r == Fail(ReadOnlyAttribute(entityName, attributeName)) && status == Some(SC_NO_CONTENT)
      ensures var meta := old(dataService.GetEntityMetaData(entityName));
        BatchAcceptable(|request|, meta) && GetAttribute(meta.value, attributeName).Some?
        && !GetAttribute(meta.value, attributeName).value.flags.readOnly && !IdentifierAndValueOnly(request) ==>
          r == Fail(IdentifierAndValue) && status == Some(SC_NO_CONTENT)
      ensures var meta := old(dataService.GetEntityMetaData(entityName));
        var checked := BatchAcceptable(|request|, meta) && GetAttribute(meta.value, attributeName).Some?
          && !GetAttribute(meta.value, attributeName).value.flags.readOnly && IdentifierAndValueOnly(request);
        var updates := if checked
          then UpdatedFrom(old(dataService.Entities(entityName)), ToEntities(meta.value, request), attributeName, 0)
          else Err(NoEntities);
        && (!checked || updates.Err? ==> dataService.calls == old(dataService.calls) && dataService.store == old(dataService.store))
        && (checked && updates.Err? ==> r == Fail(updates.error) && status == Some(SC_NO_CONTENT))
        && (checked && updates.Ok? ==>
              dataService.calls == old(dataService.calls) + [UpdateCall(entityName, updates.value)]
              && (r.Pass? <==> dataService.accepts(UpdateCall(entityName, updates.value)))
              && (r.Pass? ==>
                    dataService.store == old(dataService.store)[entityName := Stored(old(dataService.Entities(entityName)), updates.value)])
              && (r.Fail? ==> dataService.store == old(dataService.store))
              && status == Some(if r.Pass? then SC_OK else SC_NO_CONTENT))
      ensures dataService.metas == old(dataService.metas)
    {
      var meta := dataService.GetEntityMetaData(entityName);
      var check := BatchCheck(|request|, meta, entityName);
      if check.Fail? {
        return check, None;
      }
      var attr := GetAttribute(meta.value, attributeName);
      if attr.None? {
        return Fail(UnknownAttribute(entityName, attributeName)), Some(SC_NO_CONTENT);
      }
      if attr.value.flags.readOnly {
        return Fail(ReadOnlyAttribute(entityName, attributeName)), Some(SC_NO_CONTENT);
      }
      if !IdentifierAndValueOnly(request) {
        return Fail(IdentifierAndValue), Some(SC_NO_CONTENT);
      }
      var entities := ToEntities(meta.value, request);
      var stored := dataService.Entities(entityName);
      var updatedEntities: seq<Entity> := [];
      var count := 0;
      while count < |entities|
        invariant 0 <= count <= |entities|
        invariant stored == dataService.Entities(entityName)
        invariant UpdatedFrom(stored, entities, attributeName, 0).Ok? ==>
          UpdatedFrom(stored, entities, attributeName, count).Ok?
          && UpdatedFrom(stored, entities, attributeName, 0).value
             == updatedEntities + UpdatedFrom(stored, entities, attributeName, count).value
        invariant UpdatedFrom(stored, entities, attributeName, 0).Err? ==>
          UpdatedFrom(stored, entities, attributeName, count) == UpdatedFrom(stored, entities, attributeName, 0)
      {
        var id := IdOf(entities[count]);
        if id == NullV {
          return Fail(UnknownIdentifier(count)), Some(SC_NO_CONTENT);
        }
        var originalEntity := dataService.FindOne(entityName, id);
        if originalEntity.None? {
          return Fail(NotValidId(IdText(id))), Some(SC_NO_CONTENT);
        }
        var updatedEntity := Set(originalEntity.value, attributeName, Get(entities[count], attributeName));
        updatedEntities := updatedEntities + [updatedEntity];
        count := count + 1;
      }
      assert updatedEntities + [] == updatedEntities;
      var updated := dataService.Update(entityName, updatedEntities);
      if !updated {
        return Fail(BackendRejected), Some(SC_NO_CONTENT);
      }
      return Pass, Some(SC_OK);
    }
  }
}
