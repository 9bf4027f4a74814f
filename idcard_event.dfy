/** The id-card indexing event (IdCardIndexingEvent): a typed view over an
    entity's attribute values. The status is stored as its name and read
    back by name; the message is stored as is. An event built from an
    existing entity shares that entity, so writes through the event are
    writes to it. */
module IdCardEvents {
  import opened Wrappers

  /** The attribute names of the event's entity type. */
  const ID: string := "id"
  const STATUS: string := "status"
  const MESSAGE: string := "message"

  /** The indexing event statuses. */
  datatype Status = Success | Failed

  /** Enum.toString / name(). */
  function StatusName(s: Status): string {
    match s
    case Success => "SUCCESS"
    case Failed => "FAILED"
  }

  /** Enum.valueOf: the status of that name, None for any other string
      (where valueOf throws IllegalArgumentException). */
  function StatusOf(name: string): (r: Option<Status>)
    ensures r.Some? ==> StatusName(r.value) == name
    ensures r.None? ==> forall s :: StatusName(s) != name
  {
    if name == "SUCCESS" then Some(Success)
    else if name == "FAILED" then Some(Failed)
    else None
  }

  /** valueOf inverts toString. */
  lemma StatusNameRoundTrip(s: Status)
    ensures StatusOf(StatusName(s)) == Some(s)
  {
    assert "SUCCESS"[0] != "FAILED"[0];
  }

  datatype EventError =
      /** valueOf on a stored string that names no status. */
    | IllegalStatusName(name: string)
      /** setStatus(null): toString on null. */
    | NullStatus

  /** An entity: a mutable map from attribute name to value (None: null). */
  class Entity {
    const entityTypeId: string
    var values: map<string, Option<string>>

    constructor(entityTypeId: string)
      ensures this.entityTypeId == entityTypeId && values == map[]
    {
      this.entityTypeId := entityTypeId;
      values := map[];
    }

    /** getString: null when the attribute holds no value. */
    function GetString(attr: string): Option<string>
      reads this
    {
      if attr in values then values[attr] else None
    }

    method Set(attr: string, value: Option<string>)
      modifies this
      ensures values == old(values)[attr := value]
    {
      values := values[attr := value];
    }
  }

  class IdCardIndexingEvent {
    /** The entity this static entity wraps. */
    const entity: Entity

    /** IdCardIndexingEvent(entity): a view over the given entity. */
    constructor Of(entity: Entity)
      ensures this.entity == entity
    {
      this.entity := entity;
    }

    /** IdCardIndexingEvent(entityMeta): a fresh, empty entity of that type. */
    constructor New(entityTypeId: string)
      ensures fresh(entity) && entity.entityTypeId == entityTypeId && entity.values == map[]
    {
      entity := new Entity(entityTypeId);
    }

    /** IdCardIndexingEvent(id, entityMeta): a fresh entity holding the id. */
    constructor WithId(id: string, entityTypeId: string)
      ensures fresh(entity) && entity.entityTypeId == entityTypeId
      ensures entity.values == map[ID := Some(id)]
    {
      var e := new Entity(entityTypeId);
      e.Set(ID, Some(id));
      entity := e;
    }

    /** getStatus: null when no status string is stored, else the status of
        that name. */
    function GetStatus(): (r: Result<Option<Status>, EventError>)
      reads this, entity
      ensures entity.GetString(STATUS).None? ==> r == Ok(None)
      ensures r.Ok? && r.value.Some? ==> entity.GetString(STATUS) == Some(StatusName(r.value.value))
      ensures r.Err? ==> (entity.GetString(STATUS).Some? && StatusOf(entity.GetString(STATUS).value).None?
        && r == Err(IllegalStatusName(entity.GetString(STATUS).value)))
    {
      match entity.GetString(STATUS)
      case None => Ok(None)
      case Some(name) =>
        match StatusOf(name)
        case None => Err(IllegalStatusName(name))
        case Some(s) => Ok(Some(s))
    }

    /** setStatus: stores the status's name; a null status fails before
        anything is written. */
    method SetStatus(status: Option<Status>) returns (r: Outcome<EventError>)
      modifies entity
      ensures status.None? ==> r == Fail(NullStatus) && entity.values == old(entity.values)
      ensures status.Some? ==> r == Pass && entity.values == old(entity.values)[STATUS := Some(StatusName(status.value))]
      ensures status.Some? ==> GetStatus() == Ok(status)
      ensures GetMessage() == old(GetMessage()) && entity.GetString(ID) == old(entity.GetString(ID))
    {
      if status.None? {
        return Fail(NullStatus);
      }
      entity.Set(STATUS, Some(StatusName(status.value)));
      StatusNameRoundTrip(status.value);
      r := Pass;
    }

    function GetMessage(): Option<string>
      reads this, entity
    {
      entity.GetString(MESSAGE)
    }

    /** setMessage: stores the message (null included) and nothing else. */
    method SetMessage(message: Option<string>)
      modifies entity
      ensures entity.values == old(entity.values)[MESSAGE := message]
      ensures GetMessage() == message
      ensures GetStatus() == old(GetStatus()) && entity.GetString(ID) == old(entity.GetString(ID))
    {
      entity.Set(MESSAGE, message);
    }
  }
}
