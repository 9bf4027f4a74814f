/** The read side of the REST v2 controller: turning entities into response
    value maps. createEntitiesValuesResponse works in two passes. Pass 1
    builds a value map per entity and records, per reference attribute, the
    ids of the entities referred to. Pass 2 fetches the referenced entities
    with one findAll per recorded attribute and puts their value maps, built
    the same way, in place of the ids. createEntityValuesResponseRec builds
    the value map of a single entity, following references directly. */
module RestReads {
  import opened Wrappers
  import opened Metadata
  import opened EntityData
  import opened RestV2

  /** A value in a response map. RNull is null; RPlain a value passed on as
      the entity holds it; RText a formatted date; RIds the ids of a
      multi-reference before expansion; RRow and RRows expanded references;
      RHref the entity's own href. */
  datatype RValue =
    | RNull
    | RPlain(v: Value)
    | RText(s: string)
    | RIds(ids: seq<Value>)
    | RRow(row: map<string, RValue>)
    | RRows(rows: seq<map<string, RValue>>)
    | RHref(href: Href)

  type Row = map<string, RValue>

  /** The date and date-time formats (MolgenisDateFormat). */
  datatype Formats = Formats(date: int -> string, dateTime: int -> string)

  datatype ReadError =
      /** An IMAGE attribute: UnsupportedOperationException. */
    | Unsupported(t: AttributeType)
      /** A type the switch does not list: "Unknown data type". */
    | UnknownDataType(t: AttributeType)
      /** A getter called on a referenced entity that was not found. */
    | NullEntity
      /** A reference attribute without a referenced entity type. */
    | NullRefEntity

  /** The attributes of the list that the filter includes, in order. */
  function Included(attrs: seq<Attribute>, f: AttrFilter): (r: seq<Attribute>)
    ensures forall a :: a in r <==> a in attrs && IncludeAttribute(f, a)
  {
    if attrs == [] then []
    else (if IncludeAttribute(f, attrs[0]) then [attrs[0]] else []) + Included(attrs[1..], f)
  }

  /** Flattening a sublist gives a sublist of the flattening. */
  lemma {:induction false} FlattenIncluded(attrs: seq<Attribute>, f: AttrFilter, a: Attribute)
    requires a in Flatten(Included(attrs, f))
    ensures a in Flatten(attrs)
    decreases attrs
  {
    assert attrs != [];
    var rest := Included(attrs[1..], f);
    if IncludeAttribute(f, attrs[0]) {
      assert Included(attrs, f) == [attrs[0]] + rest;
      FlattenAppend([attrs[0]], rest);
      FlattenAppend([attrs[0]], attrs[1..]);
      assert attrs == [attrs[0]] + attrs[1..];
      if a in Flatten(rest) {
        FlattenIncluded(attrs[1..], f, a);
      }
    } else {
      assert Included(attrs, f) == rest;
      FlattenIncluded(attrs[1..], f, a);
      FlattenAppend([attrs[0]], attrs[1..]);
      assert attrs == [attrs[0]] + attrs[1..];
    }
  }

  /** The attributes pass 1 gives values for: the included top-level
      attributes with each compound replaced by all its parts. */
  function Flat(meta: EntityType, f: AttrFilter): seq<Attribute> {
    Flatten(Included(meta.attributes, f))
  }

  lemma FlatInMeta(meta: EntityType, f: AttrFilter, a: Attribute)
    requires a in Flat(meta, f)
    ensures a in Flatten(meta.attributes)
  {
    FlattenIncluded(meta.attributes, f, a);
  }

  /** No two attributes of the list have the same name. */
  predicate UniqueNames(attrs: seq<Attribute>) {
    forall i, j :: 0 <= i < j < |attrs| ==> attrs[i].name != attrs[j].name
  }

  /** A value passed on as it is, null as null. */
  function Plain(v: Value): RValue {
    if v == NullV then RNull else RPlain(v)
  }

  /** getEntities(name): the referenced entities, none for a null value. */
  function Targets(v: Value): seq<Entity> {
    if v.RefsV? then v.targets else []
  }

  function TargetIds(ts: seq<Entity>): (ids: seq<Value>)
    ensures |ids| == |ts|
    ensures forall i :: 0 <= i < |ts| ==> ids[i] == IdOf(ts[i])
  {
    seq(|ts|, i requires 0 <= i < |ts| => IdOf(ts[i]))
  }

  predicate IsRef(t: AttributeType) {
    IsSingleRef(t) || IsMultiRef(t)
  }

  /** The value createEntityAttrValues puts for a held value of a listed,
      non-compound type: a reference becomes the referenced entity's id, a
      multi-reference the list of ids, a date its formatted text. */
  function TypedValue(v: Value, t: AttributeType, fmt: Formats): RValue {
    match t
    case Categorical => if v.RefV? then Plain(IdOf(v.target)) else RNull
    case Xref => if v.RefV? then Plain(IdOf(v.target)) else RNull
    case File => if v.RefV? then Plain(IdOf(v.target)) else RNull
    case CategoricalMref => RIds(TargetIds(Targets(v)))
    case Mref => RIds(TargetIds(Targets(v)))
    case Date => if v.DateV? then RText(fmt.date(v.instant)) else RNull
    case DateTime => if v.DateV? then RText(fmt.dateTime(v.instant)) else RNull
    case _ => Plain(v)
  }

  /** Reference values become ids: the referenced entity's id (null when
      unset) and the list of referenced ids. */
  lemma TypedValueOfRefs(v: Value, t: AttributeType, fmt: Formats)
    ensures IsSingleRef(t) ==> TypedValue(v, t, fmt) == (if v.RefV? then Plain(IdOf(v.target)) else RNull)
    ensures IsMultiRef(t) ==> TypedValue(v, t, fmt) == RIds(TargetIds(Targets(v)))
    ensures !IsRef(t) ==> !TypedValue(v, t, fmt).RIds?
  {
  }

  /** The value createEntityAttrValues puts for a non-compound attribute:
      IMAGE and unlisted types raise before the entity is read, and a null
      entity raises on the first getter. */
  function AttrValue(e: Option<Entity>, a: Attribute, fmt: Formats): (r: Result<RValue, ReadError>)
    ensures r.Ok? <==> e.Some? && a.dataType !in {Image, OneToMany, Compound}
    ensures a.dataType == Image ==> r == Err(Unsupported(Image))
    ensures (a.dataType == OneToMany || a.dataType == Compound) ==> r == Err(UnknownDataType(a.dataType))
    ensures a.dataType !in {Image, OneToMany, Compound} && e.None? ==> r == Err(NullEntity)
  {
    if a.dataType == Image then Err(Unsupported(Image))
    else if a.dataType == OneToMany || a.dataType == Compound then Err(UnknownDataType(a.dataType))
    else if e.None? then Err(NullEntity)
    else Ok(TypedValue(Get(e.value, a.name), a.dataType, fmt))
  }

  /** The ids a read of attribute a records for the entity: the referenced
      entity's id when a single reference is set, every referenced id of a
      multi-reference (even none), nothing for other attributes. */
  function RecordedIds(e: Entity, a: Attribute): (r: Option<set<Value>>)
    ensures r.Some? ==> IsRef(a.dataType)
    ensures IsMultiRef(a.dataType) ==> r.Some?
  {
    var v := Get(e, a.name);
    if IsSingleRef(a.dataType) then (if v.RefV? then Some({IdOf(v.target)}) else None)
    else if IsMultiRef(a.dataType) then Some(set t | t in Targets(v) :: IdOf(t))
    else None
  }

  /** The bookkeeping of pass 1: the ids recorded per reference attribute and
      the order in which attributes were first recorded. */
  datatype Refs = Refs(ids: map<Attribute, set<Value>>, order: seq<Attribute>)

  const NO_REFS: Refs := Refs(map[], [])

  /** The attributes recorded are exactly those in the order, each once. */
  ghost predicate Consistent(refs: Refs) {
    && (forall a :: a in refs.ids <==> a in refs.order)
    && (forall i, j :: 0 <= i < j < |refs.order| ==> refs.order[i] != refs.order[j])
  }

  /** Record ids under an attribute, creating its set on first use. */
  function Record(refs: Refs, a: Attribute, ids: Option<set<Value>>): (r: Refs)
    ensures Consistent(refs) ==> Consistent(r)
    ensures forall b :: b in r.ids <==> b in refs.ids || (b == a && ids.Some?)
    ensures forall b :: b in r.ids && b != a ==> r.ids[b] == refs.ids[b]
    ensures ids.Some? ==> r.ids[a] == (if a in refs.ids then refs.ids[a] else {}) + ids.value
  {
    match ids
    case None => refs
    case Some(s) =>
      Refs(refs.ids[a := (if a in refs.ids then refs.ids[a] else {}) + s],
           if a in refs.ids then refs.order else refs.order + [a])
  }

  /** The state while one entity is read: its value map so far and the
      bookkeeping. */
  datatype Acc = Acc(row: Row, refs: Refs)

  /** Reading one attribute of one entity. */
  function Step(acc: Acc, e: Option<Entity>, a: Attribute, fmt: Formats): Result<Acc, ReadError> {
    match AttrValue(e, a, fmt)
    case Err(x) => Err(x)
    case Ok(v) => Ok(Acc(acc.row[a.name := v], Record(acc.refs, a, RecordedIds(e.value, a))))
  }

  /** Reading the attributes of one entity in order, stopping at the first
      failure. */
  function ReadRow(acc: Acc, e: Option<Entity>, attrs: seq<Attribute>, fmt: Formats): Result<Acc, ReadError>
    decreases |attrs|
  {
    if attrs == [] then Ok(acc)
    else
      match Step(acc, e, attrs[0], fmt)
      case Err(x) => Err(x)
      case Ok(next) => ReadRow(next, e, attrs[1..], fmt)
  }

  /** The state of pass 1: the value maps so far and the bookkeeping. */
  datatype Pass1 = Pass1(rows: seq<Row>, refs: Refs)

  /** Pass 1 over the entities in order, stopping at the first failure. */
  function ReadRows(p: Pass1, entities: seq<Option<Entity>>, attrs: seq<Attribute>, fmt: Formats)
    : Result<Pass1, ReadError>
    decreases |entities|
  {
    if entities == [] then Ok(p)
    else
      match ReadRow(Acc(map[], p.refs), entities[0], attrs, fmt)
      case Err(x) => Err(x)
      case Ok(acc) => ReadRows(Pass1(p.rows + [acc.row], acc.refs), entities[1..], attrs, fmt)
  }

  /** createEntityAttrValues over the flattened attributes of one entity. */
  method CollectRow(e: Option<Entity>, attrs: seq<Attribute>, refs: Refs, fmt: Formats)
    returns (r: Result<Acc, ReadError>)
    ensures r == ReadRow(Acc(map[], refs), e, attrs, fmt)
  {
    var entityValues: Row := map[];
    var refEntitiesIds := refs;
    var i := 0;
    while i < |attrs|
      invariant 0 <= i <= |attrs|
      invariant ReadRow(Acc(entityValues, refEntitiesIds), e, attrs[i..], fmt) == ReadRow(Acc(map[], refs), e, attrs, fmt)
    {
      assert attrs[i..][1..] == attrs[i + 1..];
      var attr := attrs[i];
      var value := AttrValue(e, attr, fmt);
      if value.Err? {
        return Err(value.error);
      }
      entityValues := entityValues[attr.name := value.value];
      refEntitiesIds := Record(refEntitiesIds, attr, RecordedIds(e.value, attr));
      i := i + 1;
    }
    assert attrs[i..] == [];
    return Ok(Acc(entityValues, refEntitiesIds));
  }

  /** Pass 1 of createEntitiesValuesResponse: one value map per entity, in
      order, and the recorded ids. */
  method CollectRows(entities: seq<Option<Entity>>, attrs: seq<Attribute>, fmt: Formats)
    returns (r: Result<Pass1, ReadError>)
    ensures r == ReadRows(Pass1([], NO_REFS), entities, attrs, fmt)
  {
    var entitiesValues: seq<Row> := [];
    var refEntitiesIds := NO_REFS;
    var k := 0;
    while k < |entities|
      invariant 0 <= k <= |entities|
      invariant ReadRows(Pass1(entitiesValues, refEntitiesIds), entities[k..], attrs, fmt)
        == ReadRows(Pass1([], NO_REFS), entities, attrs, fmt)
    {
      assert entities[k..][1..] == entities[k + 1..];
      var row := CollectRow(entities[k], attrs, refEntitiesIds, fmt);
      if row.Err? {
        return Err(row.error);
      }
      entitiesValues := entitiesValues + [row.value.row];
      refEntitiesIds := row.value.refs;
      k := k + 1;
    }
    assert entities[k..] == [];
    return Ok(Pass1(entitiesValues, refEntitiesIds));
  }

  /** Reading an entity gives its map exactly the attributes' names as
      keys, on top of what was there. */
  lemma {:induction false} ReadRowKeys(acc: Acc, e: Option<Entity>, attrs: seq<Attribute>, fmt: Formats)
    requires ReadRow(acc, e, attrs, fmt).Ok?
    ensures ReadRow(acc, e, attrs, fmt).value.row.Keys == acc.row.Keys + Names(attrs)
    decreases |attrs|
  {
    if attrs != [] {
      var next := Step(acc, e, attrs[0], fmt).value;
      ReadRowKeys(next, e, attrs[1..], fmt);
      assert Names(attrs) == {attrs[0].name} + Names(attrs[1..]) by {
        assert forall a :: a in attrs <==> a == attrs[0] || a in attrs[1..];
      }
    }
  }

  /** Reading leaves untouched every name that is not an attribute's. */
  lemma {:induction false} ReadRowKeeps(
    acc: Acc, e: Option<Entity>, attrs: seq<Attribute>, fmt: Formats, name: string)
    requires ReadRow(acc, e, attrs, fmt).Ok? && name in acc.row
    requires forall i :: 0 <= i < |attrs| ==> attrs[i].name != name
    ensures name in ReadRow(acc, e, attrs, fmt).value.row
    ensures ReadRow(acc, e, attrs, fmt).value.row[name] == acc.row[name]
    decreases |attrs|
  {
    if attrs != [] {
      var next := Step(acc, e, attrs[0], fmt);
      assert next.Ok? && next.value.row == acc.row[attrs[0].name := AttrValue(e, attrs[0], fmt).value];
      assert forall i :: 0 <= i < |attrs[1..]| ==> attrs[1..][i] == attrs[i + 1];
      ReadRowKeeps(next.value, e, attrs[1..], fmt, name);
    }
  }

  /** With distinct names, each attribute's key holds the value read for it. */
  lemma {:induction false} ReadRowValues(acc: Acc, e: Option<Entity>, attrs: seq<Attribute>, fmt: Formats)
    requires ReadRow(acc, e, attrs, fmt).Ok? && UniqueNames(attrs)
    ensures forall i :: 0 <= i < |attrs| ==> AttrValue(e, attrs[i], fmt).Ok?
    ensures forall i :: 0 <= i < |attrs| ==> attrs[i].name in ReadRow(acc, e, attrs, fmt).value.row
    ensures forall i :: 0 <= i < |attrs| ==>
      ReadRow(acc, e, attrs, fmt).value.row[attrs[i].name] == AttrValue(e, attrs[i], fmt).value
    decreases |attrs|
  {
    ReadRowKeys(acc, e, attrs, fmt);
    assert forall i :: 0 <= i < |attrs| ==> attrs[i].name in Names(attrs);
    if attrs != [] {
      var step := Step(acc, e, attrs[0], fmt);
      assert step.Ok? && step.value.row == acc.row[attrs[0].name := AttrValue(e, attrs[0], fmt).value];
      var next := step.value;
      var rest := attrs[1..];
      assert UniqueNames(rest) by {
        forall i, j | 0 <= i < j < |rest| ensures rest[i].name != rest[j].name {
          assert rest[i] == attrs[i + 1] && rest[j] == attrs[j + 1];
        }
      }
      ReadRowValues(next, e, rest, fmt);
      assert forall i :: 0 <= i < |rest| ==> rest[i].name != attrs[0].name by {
        forall i | 0 <= i < |rest| ensures rest[i].name != attrs[0].name {
          assert rest[i] == attrs[i + 1];
        }
      }
      ReadRowKeeps(next, e, rest, fmt, attrs[0].name);
      var out := ReadRow(acc, e, attrs, fmt).value.row;
      assert out == ReadRow(next, e, rest, fmt).value.row;
      forall i | 0 <= i < |attrs|
        ensures AttrValue(e, attrs[i], fmt).Ok? && out[attrs[i].name] == AttrValue(e, attrs[i], fmt).value
      {
        if i > 0 {
          assert attrs[i] == rest[i - 1];
        }
      }
    }
  }

  /** Reading an entity fails exactly when one of the attributes cannot be
      read, and then with the first such attribute's error. */
  lemma {:induction false} ReadRowFails(acc: Acc, e: Option<Entity>, attrs: seq<Attribute>, fmt: Formats)
    ensures ReadRow(acc, e, attrs, fmt).Err? <==> exists i :: 0 <= i < |attrs| && AttrValue(e, attrs[i], fmt).Err?
    ensures ReadRow(acc, e, attrs, fmt).Err? ==>
      exists i :: 0 <= i < |attrs| && AttrValue(e, attrs[i], fmt).Err?
        && (forall j :: 0 <= j < i ==> AttrValue(e, attrs[j], fmt).Ok?)
        && ReadRow(acc, e, attrs, fmt).error == AttrValue(e, attrs[i], fmt).error
    decreases |attrs|
  {
    if attrs != [] {
      if AttrValue(e, attrs[0], fmt).Ok? {
        var next := Step(acc, e, attrs[0], fmt).value;
        ReadRowFails(next, e, attrs[1..], fmt);
        if ReadRow(acc, e, attrs, fmt).Err? {
          var i :| 0 <= i < |attrs[1..]| && AttrValue(e, attrs[1..][i], fmt).Err?
            && (forall j :: 0 <= j < i ==> AttrValue(e, attrs[1..][j], fmt).Ok?)
            && ReadRow(next, e, attrs[1..], fmt).error == AttrValue(e, attrs[1..][i], fmt).error;
          assert AttrValue(e, attrs[i + 1], fmt).Err?;
          forall j | 0 <= j < i + 1 ensures AttrValue(e, attrs[j], fmt).Ok? {
            if j > 0 {
              assert attrs[j] == attrs[1..][j - 1];
            }
          }
        } else {
          forall i | 0 <= i < |attrs| ensures AttrValue(e, attrs[i], fmt).Ok? {
            if i > 0 {
              assert attrs[i] == attrs[1..][i - 1];
            }
          }
        }
      }
    }
  }

  /** Every recorded attribute is a reference attribute of the list read
      (or was recorded before), and the bookkeeping stays consistent. */
  lemma {:induction false} ReadRowRefs(acc: Acc, e: Option<Entity>, attrs: seq<Attribute>, fmt: Formats)
    requires ReadRow(acc, e, attrs, fmt).Ok? && Consistent(acc.refs)
    ensures var refs := ReadRow(acc, e, attrs, fmt).value.refs;
      && Consistent(refs)
      && forall a :: a in refs.ids ==> a in acc.refs.ids || (a in attrs && IsRef(a.dataType))
    decreases |attrs|
  {
    if attrs != [] {
      var next := Step(acc, e, attrs[0], fmt).value;
      ReadRowRefs(next, e, attrs[1..], fmt);
    }
  }

  /** The value map of one entity read on its own. */
  function RowOf(e: Option<Entity>, attrs: seq<Attribute>, fmt: Formats): Result<Row, ReadError> {
    match ReadRow(Acc(map[], NO_REFS), e, attrs, fmt)
    case Err(x) => Err(x)
    case Ok(acc) => Ok(acc.row)
  }

  /** The value map does not depend on what was recorded before. */
  lemma {:induction false} ReadRowIgnoresRefs(
    row: Row, refs1: Refs, refs2: Refs, e: Option<Entity>, attrs: seq<Attribute>, fmt: Formats)
    ensures ReadRow(Acc(row, refs1), e, attrs, fmt).Ok? == ReadRow(Acc(row, refs2), e, attrs, fmt).Ok?
    ensures ReadRow(Acc(row, refs1), e, attrs, fmt).Err? ==>
      ReadRow(Acc(row, refs1), e, attrs, fmt) == ReadRow(Acc(row, refs2), e, attrs, fmt)
    ensures ReadRow(Acc(row, refs1), e, attrs, fmt).Ok? ==>
      ReadRow(Acc(row, refs1), e, attrs, fmt).value.row == ReadRow(Acc(row, refs2), e, attrs, fmt).value.row
    decreases |attrs|
  {
    if attrs != [] {
      var a := attrs[0];
      var v := AttrValue(e, a, fmt);
      if v.Ok? {
        var r1 := Record(refs1, a, RecordedIds(e.value, a));
        var r2 := Record(refs2, a, RecordedIds(e.value, a));
        assert Step(Acc(row, refs1), e, a, fmt) == Ok(Acc(row[a.name := v.value], r1));
        assert Step(Acc(row, refs2), e, a, fmt) == Ok(Acc(row[a.name := v.value], r2));
        ReadRowIgnoresRefs(row[a.name := v.value], r1, r2, e, attrs[1..], fmt);
      }
    }
  }

  /** Pass 1 succeeds exactly when every entity can be read on its own. */
  lemma {:induction false} ReadRowsOk(p: Pass1, entities: seq<Option<Entity>>, attrs: seq<Attribute>, fmt: Formats)
    ensures ReadRows(p, entities, attrs, fmt).Ok? <==> forall k :: 0 <= k < |entities| ==> RowOf(entities[k], attrs, fmt).Ok?
    decreases |entities|
  {
    if entities != [] {
      var e := entities[0];
      ReadRowIgnoresRefs(map[], p.refs, NO_REFS, e, attrs, fmt);
      var first := ReadRow(Acc(map[], p.refs), e, attrs, fmt);
      if first.Ok? {
        ReadRowsOk(Pass1(p.rows + [first.value.row], first.value.refs), entities[1..], attrs, fmt);
        assert forall k :: 1 <= k < |entities| ==> entities[k] == entities[1..][k - 1];
      }
    }
  }

  /** A successful pass 1 holds, after the earlier value maps, each entity's
      own value map, in order. */
  lemma {:induction false} ReadRowsRows(p: Pass1, entities: seq<Option<Entity>>, attrs: seq<Attribute>, fmt: Formats)
    requires ReadRows(p, entities, attrs, fmt).Ok?
    ensures var q := ReadRows(p, entities, attrs, fmt).value;
      && |q.rows| == |p.rows| + |entities|
      && q.rows[..|p.rows|] == p.rows
      && forall k :: 0 <= k < |entities| ==> RowOf(entities[k], attrs, fmt).Ok? && q.rows[|p.rows| + k] == RowOf(entities[k], attrs, fmt).value
    decreases |entities|
  {
    if entities != [] {
      var e := entities[0];
      ReadRowIgnoresRefs(map[], p.refs, NO_REFS, e, attrs, fmt);
      var first := ReadRow(Acc(map[], p.refs), e, attrs, fmt);
      var next := Pass1(p.rows + [first.value.row], first.value.refs);
      ReadRowsRows(next, entities[1..], attrs, fmt);
      var q := ReadRows(p, entities, attrs, fmt).value;
      assert q == ReadRows(next, entities[1..], attrs, fmt).value;
      assert q.rows[..|p.rows|] == q.rows[..|next.rows|][..|p.rows|];
      forall k | 0 <= k < |entities|
        ensures RowOf(entities[k], attrs, fmt).Ok? && q.rows[|p.rows| + k] == RowOf(entities[k], attrs, fmt).value
      {
        if k > 0 {
          assert entities[k] == entities[1..][k - 1];
          assert q.rows[|next.rows| + (k - 1)] == RowOf(entities[1..][k - 1], attrs, fmt).value;
        } else {
          assert q.rows[|p.rows|] == q.rows[..|next.rows|][|p.rows|];
        }
      }
    }
  }

  /** Every attribute pass 1 records is a reference attribute read, and its
      bookkeeping stays consistent. */
  lemma {:induction false} ReadRowsRefs(p: Pass1, entities: seq<Option<Entity>>, attrs: seq<Attribute>, fmt: Formats)
    requires ReadRows(p, entities, attrs, fmt).Ok? && Consistent(p.refs)
    ensures var q := ReadRows(p, entities, attrs, fmt).value;
      && Consistent(q.refs)
      && forall a :: a in q.refs.ids ==> a in p.refs.ids || (a in attrs && IsRef(a.dataType))
    decreases |entities|
  {
    if entities != [] {
      var first := ReadRow(Acc(map[], p.refs), entities[0], attrs, fmt);
      ReadRowRefs(Acc(map[], p.refs), entities[0], attrs, fmt);
      ReadRowsRefs(Pass1(p.rows + [first.value.row], first.value.refs), entities[1..], attrs, fmt);
    }
  }

  /** The value map of an entity read on its own has exactly the attributes'
      names as keys and, when those are distinct, each attribute's value
      under its name. */
  lemma RowOfContents(e: Option<Entity>, attrs: seq<Attribute>, fmt: Formats)
    requires RowOf(e, attrs, fmt).Ok?
    ensures RowOf(e, attrs, fmt).value.Keys == Names(attrs)
    ensures UniqueNames(attrs) ==> forall i :: 0 <= i < |attrs| ==>
      AttrValue(e, attrs[i], fmt).Ok? && RowOf(e, attrs, fmt).value[attrs[i].name] == AttrValue(e, attrs[i], fmt).value
  {
    ReadRowKeys(Acc(map[], NO_REFS), e, attrs, fmt);
    if UniqueNames(attrs) {
      ReadRowValues(Acc(map[], NO_REFS), e, attrs, fmt);
    }
  }

  /** One findAll call: the entity type's name and the ids asked for. */
  datatype Fetch = Fetch(entityName: string, ids: set<Value>)

  /** The referenced entity for an id, None (Java's null) when findAll did
      not return one. */
  function Lookup(fetched: map<Value, Entity>, id: Value): Option<Entity> {
    if id in fetched then Some(fetched[id]) else None
  }

  /** The ids a pass-1 value of a multi-reference holds. */
  function IdsIn(v: RValue): seq<Value> {
    if v.RIds? then v.ids else []
  }

  /** createEntitiesValuesResponse over the entities stored in the data
      service: pass 1 over the flattened included attributes, then pass 2
      over the attributes recorded, in the order first recorded. */
  function ValuesResponse(
    ds: DataService, entities: seq<Option<Entity>>, meta: EntityType, filter: AttrFilter, fmt: Formats)
    : (r: Result<seq<Row>, ReadError>)
    reads ds
    ensures r.Ok? ==> |r.value| == |entities|
    decreases EntityDepth(meta), 3, 0
  {
    match ReadRows(Pass1([], NO_REFS), entities, Flat(meta, filter), fmt)
    case Err(x) => Err(x)
    case Ok(p) =>
      Pass1Rows(entities, meta, filter, fmt);
      Pass1Refs(entities, meta, filter, fmt);
      ExpandRows(ds, p.rows, p.refs.order, p.refs.ids, filter, fmt, meta)
  }

  /** Pass 2: for each recorded attribute in turn, one findAll for the ids
      recorded under it, then its values resolved in every value map. */
  function ExpandRows(
    ds: DataService, rows: seq<Row>, order: seq<Attribute>, ids: map<Attribute, set<Value>>,
    filter: AttrFilter, fmt: Formats, ghost meta: EntityType)
    : (r: Result<seq<Row>, ReadError>)
    reads ds
    requires forall a :: a in order ==> a in ids && a in Flatten(meta.attributes)
    ensures r.Ok? ==> |r.value| == |rows|
    decreases EntityDepth(meta), 2, |order|
  {
    if order == [] then Ok(rows)
    else
      var a := order[0];
      if a.refEntity.None? then Err(NullRefEntity)
      else
        RefTargetShallower(meta, a);
        match ResolveRows(ds, [], rows, a, filter, ds.FindAll(a.refEntity.value.name, ids[a]), fmt)
        case Err(x) => Err(x)
        case Ok(next) => ExpandRows(ds, next, order[1..], ids, filter, fmt, meta)
  }

  /** The forEach over the value maps for one recorded attribute: the maps
      done so far, then the rest, stopping at the first failure. */
  function ResolveRows(
    ds: DataService, done: seq<Row>, rows: seq<Row>, a: Attribute, filter: AttrFilter,
    fetched: map<Value, Entity>, fmt: Formats)
    : (r: Result<seq<Row>, ReadError>)
    reads ds
    requires a.refEntity.Some?
    ensures r.Ok? ==> |r.value| == |done| + |rows|
    decreases EntityDepth(a.refEntity.value) + 1, 1, |rows|
  {
    if rows == [] then Ok(done)
    else
      match ResolveRow(ds, rows[0], a, filter, fetched, fmt)
      case Err(x) => Err(x)
      case Ok(row) => ResolveRows(ds, done + [row], rows[1..], a, filter, fetched, fmt)
  }

  /** One value map with the recorded attribute's value resolved. */
  function ResolveRow(
    ds: DataService, row: Row, a: Attribute, filter: AttrFilter, fetched: map<Value, Entity>, fmt: Formats)
    : Result<Row, ReadError>
    reads ds
    requires a.refEntity.Some?
    decreases EntityDepth(a.refEntity.value) + 1, 0, 1
  {
    if a.name in row then
      match ResolveRef(ds, row[a.name], a, filter, fetched, fmt)
      case Err(x) => Err(x)
      case Ok(v) => Ok(row[a.name := v])
    else Ok(row)
  }

  /** One value of a recorded attribute: null stays null; otherwise the
      referenced entities are looked up among those fetched and their own
      value maps built with the request's filter for the attribute or the
      default one. */
  function ResolveRef(
    ds: DataService, v: RValue, a: Attribute, filter: AttrFilter, fetched: map<Value, Entity>, fmt: Formats)
    : Result<RValue, ReadError>
    reads ds
    requires a.refEntity.Some?
    decreases EntityDepth(a.refEntity.value) + 1, 0, 0
  {
    var sub := RefFilterOrDefault(filter, a);
    if v == RNull then Ok(RNull)
    else if IsSingleRef(a.dataType) then
      match ValuesResponse(ds, [Lookup(fetched, if v.RPlain? then v.v else NullV)], a.refEntity.value, sub, fmt)
      case Err(x) => Err(x)
      case Ok(rs) => Ok(RRow(rs[0]))
    else
      var ids := IdsIn(v);
      match ValuesResponse(ds, seq(|ids|, i requires 0 <= i < |ids| => Lookup(fetched, ids[i])), a.refEntity.value, sub, fmt)
      case Err(x) => Err(x)
      case Ok(rs) => Ok(RRows(rs))
  }

  /** Each recorded attribute, in the order recorded, was fetched once, for
      its referenced entity type and all the ids recorded under it. */
  ghost predicate FetchedOnce(fetches: seq<Fetch>, order: seq<Attribute>, ids: map<Attribute, set<Value>>) {
    && |fetches| == |order|
    && forall j :: 0 <= j < |order| ==>
         order[j].refEntity.Some? && order[j] in ids
         && fetches[j] == Fetch(order[j].refEntity.value.name, ids[order[j]])
  }

  /** createEntitiesValuesResponse. fetches are this level's findAll calls;
      the expansions of the referenced entities make their own. */
  method EntitiesValuesResponse(
    ds: DataService, entities: seq<Option<Entity>>, meta: EntityType, filter: AttrFilter, fmt: Formats)
    returns (r: Result<seq<Row>, ReadError>, fetches: seq<Fetch>)
    ensures r == ValuesResponse(ds, entities, meta, filter, fmt)
    ensures var pass1 := ReadRows(Pass1([], NO_REFS), entities, Flat(meta, filter), fmt);
      && (pass1.Err? ==> fetches == [])
      && (r.Ok? ==> pass1.Ok? && FetchedOnce(fetches, pass1.value.refs.order, pass1.value.refs.ids))
    decreases EntityDepth(meta), 3, 0
  {
    var flat := Flat(meta, filter);
    var pass1 := CollectRows(entities, flat, fmt);
    if pass1.Err? {
      return Err(pass1.error), [];
    }
    Pass1Refs(entities, meta, filter, fmt);
    r, fetches := ExpandAll(ds, pass1.value.rows, pass1.value.refs.order, pass1.value.refs.ids, filter, fmt, meta);
  }

  /** A successful pass 1 builds one value map per entity, keyed by the
      names read. */
  lemma Pass1Rows(entities: seq<Option<Entity>>, meta: EntityType, filter: AttrFilter, fmt: Formats)
    requires ReadRows(Pass1([], NO_REFS), entities, Flat(meta, filter), fmt).Ok?
    ensures var q := ReadRows(Pass1([], NO_REFS), entities, Flat(meta, filter), fmt).value;
      && |q.rows| == |entities|
      && (forall k :: 0 <= k < |entities| ==> q.rows[k].Keys == Names(Flat(meta, filter)))
  {
    var flat := Flat(meta, filter);
    var q := ReadRows(Pass1([], NO_REFS), entities, flat, fmt).value;
    ReadRowsRows(Pass1([], NO_REFS), entities, flat, fmt);
    forall k | 0 <= k < |entities| ensures q.rows[k].Keys == Names(flat) {
      RowOfContents(entities[k], flat, fmt);
    }
  }

  /** A successful pass 1 records each attribute once, with its ids, and
      only reference attributes read. */
  lemma Pass1Refs(entities: seq<Option<Entity>>, meta: EntityType, filter: AttrFilter, fmt: Formats)
    requires ReadRows(Pass1([], NO_REFS), entities, Flat(meta, filter), fmt).Ok?
    ensures var q := ReadRows(Pass1([], NO_REFS), entities, Flat(meta, filter), fmt).value;
      && (forall a :: a in q.refs.order ==> a in q.refs.ids && a in Flatten(meta.attributes))
      && (forall a :: a in q.refs.ids ==> a in Flat(meta, filter) && IsRef(a.dataType))
      && (forall i, j :: 0 <= i < j < |q.refs.order| ==> q.refs.order[i] != q.refs.order[j])
  {
    var flat := Flat(meta, filter);
    var q := ReadRows(Pass1([], NO_REFS), entities, flat, fmt).value;
    ReadRowsRefs(Pass1([], NO_REFS), entities, flat, fmt);
    forall a | a in q.refs.order ensures a in q.refs.ids && a in Flatten(meta.attributes) {
      FlatInMeta(meta, filter, a);
    }
  }

  /** Pass 2 proper. */
  method ExpandAll(
    ds: DataService, rows: seq<Row>, order: seq<Attribute>, ids: map<Attribute, set<Value>>,
    filter: AttrFilter, fmt: Formats, ghost meta: EntityType)
    returns (r: Result<seq<Row>, ReadError>, fetches: seq<Fetch>)
    requires forall a :: a in order ==> a in ids && a in Flatten(meta.attributes)
    ensures r == ExpandRows(ds, rows, order, ids, filter, fmt, meta)
    ensures r.Ok? ==> FetchedOnce(fetches, order, ids)
    decreases EntityDepth(meta), 2, |order|
  {
    var entitiesValues := rows;
    fetches := [];
    var j := 0;
    while j < |order|
      invariant 0 <= j <= |order|
      invariant FetchedOnce(fetches, order[..j], ids)
      invariant ExpandRows(ds, entitiesValues, order[j..], ids, filter, fmt, meta)
        == ExpandRows(ds, rows, order, ids, filter, fmt, meta)
    {
      var refAttr := order[j];
      ExpandRowsStep(ds, entitiesValues, order, j, ids, filter, fmt, meta);
      if refAttr.refEntity.None? {
        return Err(NullRefEntity), fetches;
      }
      var refEntityMeta := refAttr.refEntity.value;
      RefTargetShallower(meta, refAttr);
      var refEntities := ds.FindAll(refEntityMeta.name, ids[refAttr]);
      fetches := fetches + [Fetch(refEntityMeta.name, ids[refAttr])];
      var resolved := ResolveAttribute(ds, entitiesValues, refAttr, filter, refEntities, fmt);
      if resolved.Err? {
        return Err(resolved.error), fetches;
      }
      assert order[..j + 1] == order[..j] + [refAttr];
      entitiesValues := resolved.value;
      j := j + 1;
    }
    assert order[j..] == [];
    return Ok(entitiesValues), fetches;
  }

  /** Pass 2 from the attribute at index j on: that attribute is resolved
      first, then the rest. */
  lemma ExpandRowsStep(
    ds: DataService, rows: seq<Row>, order: seq<Attribute>, j: int, ids: map<Attribute, set<Value>>,
    filter: AttrFilter, fmt: Formats, meta: EntityType)
    requires forall a :: a in order ==> a in ids && a in Flatten(meta.attributes)
    requires 0 <= j < |order|
    ensures forall a :: a in order[j..] ==> a in ids && a in Flatten(meta.attributes)
    ensures forall a :: a in order[j + 1..] ==> a in ids && a in Flatten(meta.attributes)
    ensures order[j].refEntity.None? ==>
      ExpandRows(ds, rows, order[j..], ids, filter, fmt, meta) == Err(NullRefEntity)
    ensures order[j].refEntity.Some? ==>
      var a := order[j];
      ExpandRows(ds, rows, order[j..], ids, filter, fmt, meta) ==
        match ResolveRows(ds, [], rows, a, filter, ds.FindAll(a.refEntity.value.name, ids[a]), fmt)
        case Err(x) => Err(x)
        case Ok(next) => ExpandRows(ds, next, order[j + 1..], ids, filter, fmt, meta)
  {
    assert order[j..][0] == order[j] && order[j..][1..] == order[j + 1..];
  }

  /** The forEach over the value maps for one recorded attribute, updating
      them in place. */
  method ResolveAttribute(
    ds: DataService, rows: seq<Row>, refAttr: Attribute, filter: AttrFilter,
    refEntities: map<Value, Entity>, fmt: Formats)
    returns (r: Result<seq<Row>, ReadError>)
    requires refAttr.refEntity.Some?
    ensures r == ResolveRows(ds, [], rows, refAttr, filter, refEntities, fmt)
    decreases EntityDepth(refAttr.refEntity.value) + 1, 1, |rows|
  {
    var entitiesValues := rows;
    var k := 0;
    while k < |rows|
      invariant 0 <= k <= |rows|
      invariant |entitiesValues| == |rows|
      invariant entitiesValues[k..] == rows[k..]
      invariant ResolveRows(ds, entitiesValues[..k], rows[k..], refAttr, filter, refEntities, fmt)
        == ResolveRows(ds, [], rows, refAttr, filter, refEntities, fmt)
    {
      assert rows[k..][0] == rows[k] && rows[k..][1..] == rows[k + 1..];
      var entityValue := entitiesValues[k];
      assert entityValue == rows[k..][0];
      if refAttr.name in entityValue {
        var resolved := ResolveValue(ds, entityValue[refAttr.name], refAttr, filter, refEntities, fmt);
        if resolved.Err? {
          return Err(resolved.error);
        }
        entityValue := entityValue[refAttr.name := resolved.value];
      }
      assert entitiesValues[k := entityValue][..k + 1] == entitiesValues[..k] + [entityValue];
      assert entitiesValues[k := entityValue][k + 1..] == entitiesValues[k + 1..];
      entitiesValues := entitiesValues[k := entityValue];
      k := k + 1;
    }
    assert entitiesValues[..k] == entitiesValues;
    return Ok(entitiesValues);
  }

  /** One value of a recorded attribute. */
  method ResolveValue(
    ds: DataService, refAttrValue: RValue, refAttr: Attribute, filter: AttrFilter,
    refEntities: map<Value, Entity>, fmt: Formats)
    returns (r: Result<RValue, ReadError>)
    requires refAttr.refEntity.Some?
    ensures r == ResolveRef(ds, refAttrValue, refAttr, filter, refEntities, fmt)
    decreases EntityDepth(refAttr.refEntity.value) + 1, 0, 0
  {
    var refEntityMeta := refAttr.refEntity.value;
    var refAttrFilter := RefFilterOrDefault(filter, refAttr);
    if refAttrValue == RNull {
      return Ok(RNull);
    }
    if IsSingleRef(refAttr.dataType) {
      var attrRefEntity := Lookup(refEntities, if refAttrValue.RPlain? then refAttrValue.v else NullV);
      var refEntitiesValues, _ := EntitiesValuesResponse(ds, [attrRefEntity], refEntityMeta, refAttrFilter, fmt);
      if refEntitiesValues.Err? {
        return Err(refEntitiesValues.error);
      }
      return Ok(RRow(refEntitiesValues.value[0]));
    } else {
      var ids := IdsIn(refAttrValue);
      var attrRefEntities := seq(|ids|, i requires 0 <= i < |ids| => Lookup(refEntities, ids[i]));
      var mrefEntitiesValues, _ := EntitiesValuesResponse(ds, attrRefEntities, refEntityMeta, refAttrFilter, fmt);
      if mrefEntitiesValues.Err? {
        return Err(mrefEntitiesValues.error);
      }
      return Ok(RRows(mrefEntitiesValues.value));
    }
  }

  /** Resolving the value maps succeeds exactly when each map resolves on
      its own, and then holds, after the maps done, each resolved map in
      order. */
  lemma {:induction false} ResolveRowsEach(
    ds: DataService, done: seq<Row>, rows: seq<Row>, a: Attribute, filter: AttrFilter,
    fetched: map<Value, Entity>, fmt: Formats)
    requires a.refEntity.Some?
    ensures ResolveRows(ds, done, rows, a, filter, fetched, fmt).Ok? <==>
      forall k :: 0 <= k < |rows| ==> ResolveRow(ds, rows[k], a, filter, fetched, fmt).Ok?
    ensures ResolveRows(ds, done, rows, a, filter, fetched, fmt).Ok? ==>
      var out := ResolveRows(ds, done, rows, a, filter, fetched, fmt).value;
      && out[..|done|] == done
      && forall k :: 0 <= k < |rows| ==>
           ResolveRow(ds, rows[k], a, filter, fetched, fmt).Ok?
           && out[|done| + k] == ResolveRow(ds, rows[k], a, filter, fetched, fmt).value
    decreases |rows|
  {
    if rows != [] {
      var first := ResolveRow(ds, rows[0], a, filter, fetched, fmt);
      assert forall k :: 1 <= k < |rows| ==> rows[k] == rows[1..][k - 1];
      if first.Ok? {
        var done1 := done + [first.value];
        ResolveRowsEach(ds, done1, rows[1..], a, filter, fetched, fmt);
        var res := ResolveRows(ds, done, rows, a, filter, fetched, fmt);
        assert res == ResolveRows(ds, done1, rows[1..], a, filter, fetched, fmt);
        if res.Ok? {
          var out := res.value;
          assert out[..|done|] == out[..|done1|][..|done|];
          assert out[|done|] == out[..|done1|][|done|];
        }
      }
    }
  }

  /** After one recorded attribute is resolved in every value map: the keys
      are the same, every other name keeps its value, and the attribute's
      own value is resolved. It succeeds exactly when each of those values
      resolves. */
  lemma ResolveRowsValues(
    ds: DataService, rows: seq<Row>, a: Attribute, filter: AttrFilter, fetched: map<Value, Entity>, fmt: Formats)
    requires a.refEntity.Some?
    ensures ResolveRows(ds, [], rows, a, filter, fetched, fmt).Ok? <==>
      forall k :: 0 <= k < |rows| && a.name in rows[k] ==> ResolveRef(ds, rows[k][a.name], a, filter, fetched, fmt).Ok?
    ensures ResolveRows(ds, [], rows, a, filter, fetched, fmt).Ok? ==>
      var next := ResolveRows(ds, [], rows, a, filter, fetched, fmt).value;
      && |next| == |rows|
      && (forall k :: 0 <= k < |rows| ==> next[k].Keys == rows[k].Keys)
      && (forall k, n :: 0 <= k < |rows| && n in rows[k] && n != a.name ==> next[k][n] == rows[k][n])
      && (forall k :: 0 <= k < |rows| && a.name in rows[k] ==>
            ResolveRef(ds, rows[k][a.name], a, filter, fetched, fmt).Ok?
            && next[k][a.name] == ResolveRef(ds, rows[k][a.name], a, filter, fetched, fmt).value)
  {
    ResolveRowsEach(ds, [], rows, a, filter, fetched, fmt);
  }

  /** The attribute names its referenced type and its value in each value
      map resolves against the entities fetched for it. */
  ghost predicate AllResolve(
    ds: DataService, rows: seq<Row>, a: Attribute, ids: map<Attribute, set<Value>>, filter: AttrFilter, fmt: Formats)
    reads ds
    requires a in ids
  {
    && a.refEntity.Some?
    && forall k :: 0 <= k < |rows| && a.name in rows[k] ==>
         ResolveRef(ds, rows[k][a.name], a, filter, ds.FindAll(a.refEntity.value.name, ids[a]), fmt).Ok?
  }

  /** Pass 2 over attributes with distinct names succeeds exactly when every
      recorded attribute names its referenced type and each of its values
      resolves; the value maps keep their keys, a name no recorded attribute
      has keeps its value, and a recorded attribute's value is resolved
      against the entities fetched for it. */
  lemma {:induction false} ExpandRowsValues(
    ds: DataService, rows: seq<Row>, order: seq<Attribute>, ids: map<Attribute, set<Value>>,
    filter: AttrFilter, fmt: Formats, meta: EntityType)
    requires forall a :: a in order ==> a in ids && a in Flatten(meta.attributes)
    requires UniqueNames(order)
    ensures ExpandRows(ds, rows, order, ids, filter, fmt, meta).Ok? <==>
      forall a :: a in order ==> AllResolve(ds, rows, a, ids, filter, fmt)
    ensures ExpandRows(ds, rows, order, ids, filter, fmt, meta).Ok? ==>
      var after := ExpandRows(ds, rows, order, ids, filter, fmt, meta).value;
      && (forall k :: 0 <= k < |rows| ==> after[k].Keys == rows[k].Keys)
      && (forall k, n :: 0 <= k < |rows| && n in rows[k] && n !in Names(order) ==> after[k][n] == rows[k][n])
      && (forall k, a :: 0 <= k < |rows| && a in order && a.name in rows[k] ==>
            && a.refEntity.Some?
            && ResolveRef(ds, rows[k][a.name], a, filter, ds.FindAll(a.refEntity.value.name, ids[a]), fmt).Ok?
            && after[k][a.name] == ResolveRef(ds, rows[k][a.name], a, filter, ds.FindAll(a.refEntity.value.name, ids[a]), fmt).value)
    decreases |order|
  {
    if order != [] {
      var a := order[0];
      var rest := order[1..];
      assert forall b :: b in order <==> b == a || b in rest;
      assert UniqueNames(rest) by {
        forall i, j | 0 <= i < j < |rest| ensures rest[i].name != rest[j].name {
          assert rest[i] == order[i + 1] && rest[j] == order[j + 1];
        }
      }
      assert forall b :: b in rest ==> b.name != a.name by {
        forall b | b in rest ensures b.name != a.name {
          var i :| 0 <= i < |rest| && rest[i] == b;
          assert order[i + 1] == b;
        }
      }
      assert Names(order) == {a.name} + Names(rest);
      if a.refEntity.Some? {
        RefTargetShallower(meta, a);
        var fetched := ds.FindAll(a.refEntity.value.name, ids[a]);
        var res := ResolveRows(ds, [], rows, a, filter, fetched, fmt);
        ResolveRowsValues(ds, rows, a, filter, fetched, fmt);
        if res.Ok? {
          var next := res.value;
          ExpandRowsValues(ds, next, rest, ids, filter, fmt, meta);
          ExpandRowsAfterStep(ds, rows, next, a, rest, ids, filter, fmt, meta);
        }
      }
    }
  }

  /** The inductive step of ExpandRowsValues, once the first attribute a
      has been resolved into next. */
  lemma ExpandRowsAfterStep(
    ds: DataService, rows: seq<Row>, next: seq<Row>, a: Attribute, rest: seq<Attribute>,
    ids: map<Attribute, set<Value>>, filter: AttrFilter, fmt: Formats, meta: EntityType)
    requires a.refEntity.Some? && a in ids
    requires forall b :: b in rest ==> b in ids && b in Flatten(meta.attributes)
    requires forall b :: b in rest ==> b.name != a.name
    requires |next| == |rows|
    requires forall k :: 0 <= k < |rows| ==> next[k].Keys == rows[k].Keys
    requires forall k, n :: 0 <= k < |rows| && n in rows[k] && n != a.name ==> next[k][n] == rows[k][n]
    requires forall k :: 0 <= k < |rows| && a.name in rows[k] ==>
      ResolveRef(ds, rows[k][a.name], a, filter, ds.FindAll(a.refEntity.value.name, ids[a]), fmt).Ok?
      && next[k][a.name] == ResolveRef(ds, rows[k][a.name], a, filter, ds.FindAll(a.refEntity.value.name, ids[a]), fmt).value
    requires ExpandRows(ds, next, rest, ids, filter, fmt, meta).Ok? <==>
      forall b :: b in rest ==> AllResolve(ds, next, b, ids, filter, fmt)
    requires ExpandRows(ds, next, rest, ids, filter, fmt, meta).Ok? ==>
      var after := ExpandRows(ds, next, rest, ids, filter, fmt, meta).value;
      && (forall k :: 0 <= k < |next| ==> after[k].Keys == next[k].Keys)
      && (forall k, n :: 0 <= k < |next| && n in next[k] && n !in Names(rest) ==> after[k][n] == next[k][n])
      && (forall k, b :: 0 <= k < |next| && b in rest && b.name in next[k] ==>
            && b.refEntity.Some?
            && ResolveRef(ds, next[k][b.name], b, filter, ds.FindAll(b.refEntity.value.name, ids[b]), fmt).Ok?
            && after[k][b.name] == ResolveRef(ds, next[k][b.name], b, filter, ds.FindAll(b.refEntity.value.name, ids[b]), fmt).value)
    ensures ExpandRows(ds, next, rest, ids, filter, fmt, meta).Ok? <==>
      forall b :: b in rest ==> AllResolve(ds, rows, b, ids, filter, fmt)
    ensures ExpandRows(ds, next, rest, ids, filter, fmt, meta).Ok? ==>
      var after := ExpandRows(ds, next, rest, ids, filter, fmt, meta).value;
      && (forall k :: 0 <= k < |rows| ==> after[k].Keys == rows[k].Keys)
      && (forall k, n :: 0 <= k < |rows| && n in rows[k] && n !in Names(rest) + {a.name} ==> after[k][n] == rows[k][n])
      && (forall k, b :: 0 <= k < |rows| && b in rest && b.name in rows[k] ==>
            && b.refEntity.Some?
            && ResolveRef(ds, rows[k][b.name], b, filter, ds.FindAll(b.refEntity.value.name, ids[b]), fmt).Ok?
            && after[k][b.name] == ResolveRef(ds, rows[k][b.name], b, filter, ds.FindAll(b.refEntity.value.name, ids[b]), fmt).value)
      && (forall k :: 0 <= k < |rows| && a.name in rows[k] ==>
            after[k][a.name] == ResolveRef(ds, rows[k][a.name], a, filter, ds.FindAll(a.refEntity.value.name, ids[a]), fmt).value)
  {
    assert a.name !in Names(rest);
  }

  /** Everything recorded in r1 is still recorded in r2. */
  ghost predicate Grows(r1: Refs, r2: Refs) {
    forall b :: b in r1.ids ==> b in r2.ids && r1.ids[b] <= r2.ids[b]
  }

  /** The ids the entity refers to under each attribute of attrs are
      recorded. */
  ghost predicate Covers(refs: Refs, e: Entity, attrs: seq<Attribute>) {
    forall a :: a in attrs && RecordedIds(e, a).Some? ==> a in refs.ids && RecordedIds(e, a).value <= refs.ids[a]
  }

  lemma GrowsCovers(r1: Refs, r2: Refs, e: Entity, attrs: seq<Attribute>)
    requires Grows(r1, r2) && Covers(r1, e, attrs)
    ensures Covers(r2, e, attrs)
  {
  }

  lemma GrowsTrans(r1: Refs, r2: Refs, r3: Refs)
    requires Grows(r1, r2) && Grows(r2, r3)
    ensures Grows(r1, r3)
  {
  }

  /** Reading an entity records, under each reference attribute read, the
      ids it refers to, and keeps what was recorded before. */
  lemma {:induction false} ReadRowRecords(acc: Acc, e: Option<Entity>, attrs: seq<Attribute>, fmt: Formats)
    requires ReadRow(acc, e, attrs, fmt).Ok?
    ensures Grows(acc.refs, ReadRow(acc, e, attrs, fmt).value.refs)
    ensures attrs != [] ==> e.Some?
    ensures e.Some? ==> Covers(ReadRow(acc, e, attrs, fmt).value.refs, e.value, attrs)
    decreases |attrs|
  {
    if attrs != [] {
      var next := Step(acc, e, attrs[0], fmt).value;
      ReadRowRecords(next, e, attrs[1..], fmt);
      var out := ReadRow(acc, e, attrs, fmt).value.refs;
      assert Grows(acc.refs, next.refs);
      GrowsTrans(acc.refs, next.refs, out);
      assert Covers(next.refs, e.value, [attrs[0]]);
      GrowsCovers(next.refs, out, e.value, [attrs[0]]);
      assert forall a :: a in attrs <==> a == attrs[0] || a in attrs[1..];
    }
  }

  /** Pass 1 records, under each reference attribute read, the ids every
      entity refers to, and keeps what was recorded before. */
  lemma {:induction false} ReadRowsRecords(p: Pass1, entities: seq<Option<Entity>>, attrs: seq<Attribute>, fmt: Formats)
    requires ReadRows(p, entities, attrs, fmt).Ok?
    ensures Grows(p.refs, ReadRows(p, entities, attrs, fmt).value.refs)
    ensures forall k :: 0 <= k < |entities| ==>
      (attrs != [] ==> entities[k].Some?)
      && (entities[k].Some? ==> Covers(ReadRows(p, entities, attrs, fmt).value.refs, entities[k].value, attrs))
    decreases |entities|
  {
    if entities != [] {
      var first := ReadRow(Acc(map[], p.refs), entities[0], attrs, fmt);
      ReadRowRecords(Acc(map[], p.refs), entities[0], attrs, fmt);
      var p1 := Pass1(p.rows + [first.value.row], first.value.refs);
      ReadRowsRecords(p1, entities[1..], attrs, fmt);
      var q := ReadRows(p, entities, attrs, fmt).value;
      assert q == ReadRows(p1, entities[1..], attrs, fmt).value;
      if entities[0].Some? {
        GrowsCovers(p1.refs, q.refs, entities[0].value, attrs);
      }
      GrowsTrans(p.refs, p1.refs, q.refs);
      assert forall k :: 1 <= k < |entities| ==> entities[k] == entities[1..][k - 1];
    }
  }

  /** findOne for each id, in order. */
  function FindEach(ds: DataService, name: string, ids: seq<Value>): (r: seq<Option<Entity>>)
    reads ds
    ensures |r| == |ids|
    ensures forall i :: 0 <= i < |ids| ==> r[i] == ds.FindOne(name, ids[i])
  {
    seq(|ids|, i requires 0 <= i < |ids| reads ds => ds.FindOne(name, ids[i]))
  }

  /** What an attribute of an entity holds in its value map of the response,
      stated over the stored entities: a reference is replaced by the value
      map of the entity stored under the referenced id (read as null when
      nothing is stored there), a multi-reference by the value maps of the
      entities stored under the referenced ids, in order, both read with the
      request's filter for the attribute or the default one; an unset
      reference stays null; any other attribute holds the value pass 1
      reads. */
  function ResponseEntry(ds: DataService, e: Entity, a: Attribute, filter: AttrFilter, fmt: Formats)
    : Result<RValue, ReadError>
    reads ds
  {
    var v := Get(e, a.name);
    if IsSingleRef(a.dataType) then
      if !v.RefV? || IdOf(v.target) == NullV then Ok(RNull)
      else if a.refEntity.None? then Err(NullRefEntity)
      else
        var stored := ds.FindOne(a.refEntity.value.name, IdOf(v.target));
        match ValuesResponse(ds, [stored], a.refEntity.value, RefFilterOrDefault(filter, a), fmt)
        case Err(x) => Err(x)
        case Ok(rs) => Ok(RRow(rs[0]))
    else if IsMultiRef(a.dataType) then
      if a.refEntity.None? then Err(NullRefEntity)
      else
        var stored := FindEach(ds, a.refEntity.value.name, TargetIds(Targets(v)));
        match ValuesResponse(ds, stored, a.refEntity.value, RefFilterOrDefault(filter, a), fmt)
        case Err(x) => Err(x)
        case Ok(rs) => Ok(RRows(rs))
    else Ok(TypedValue(v, a.dataType, fmt))
  }

  /** Looking a recorded id up among the entities fetched for the recorded
      ids is looking it up in the store. */
  lemma LookupIsFindOne(ds: DataService, name: string, recorded: set<Value>, id: Value)
    requires id in recorded
    ensures Lookup(ds.FindAll(name, recorded), id) == ds.FindOne(name, id)
  {
  }

  /** Resolving a reference attribute's pass-1 value against the entities
      fetched for the ids recorded under it gives the attribute's entry. */
  lemma ResolveRefIsEntry(ds: DataService, e: Entity, a: Attribute, filter: AttrFilter, fmt: Formats, recorded: set<Value>)
    requires a.refEntity.Some? && IsRef(a.dataType)
    requires RecordedIds(e, a).Some? ==> RecordedIds(e, a).value <= recorded
    ensures ResolveRef(ds, TypedValue(Get(e, a.name), a.dataType, fmt), a, filter,
      ds.FindAll(a.refEntity.value.name, recorded), fmt) == ResponseEntry(ds, e, a, filter, fmt)
  {
    var name := a.refEntity.value.name;
    var v := Get(e, a.name);
    if IsSingleRef(a.dataType) {
      if v.RefV? && IdOf(v.target) != NullV {
        LookupIsFindOne(ds, name, recorded, IdOf(v.target));
      }
    } else {
      ResolveMultiIsEntry(ds, e, a, filter, fmt, recorded);
    }
  }

  /** ResolveRefIsEntry for a multi-reference: the ids looked up, in order,
      are those of the referenced entities. */
  lemma ResolveMultiIsEntry(ds: DataService, e: Entity, a: Attribute, filter: AttrFilter, fmt: Formats, recorded: set<Value>)
    requires a.refEntity.Some? && IsMultiRef(a.dataType)
    requires RecordedIds(e, a).Some? ==> RecordedIds(e, a).value <= recorded
    ensures ResolveRef(ds, TypedValue(Get(e, a.name), a.dataType, fmt), a, filter,
      ds.FindAll(a.refEntity.value.name, recorded), fmt) == ResponseEntry(ds, e, a, filter, fmt)
  {
    var name := a.refEntity.value.name;
    var fetched := ds.FindAll(name, recorded);
    var ts := Targets(Get(e, a.name));
    var ids := TargetIds(ts);
    assert IdsIn(TypedValue(Get(e, a.name), a.dataType, fmt)) == ids;
    var looked := seq(|ids|, i requires 0 <= i < |ids| => Lookup(fetched, ids[i]));
    forall j | 0 <= j < |ids| ensures looked[j] == FindEach(ds, name, ids)[j] {
      assert ts[j] in ts;
      LookupIsFindOne(ds, name, recorded, ids[j]);
    }
    assert looked == FindEach(ds, name, ids);
  }

  /** Distinct attributes of a list with distinct names have distinct names. */
  lemma UniqueNamesOfSubset(order: seq<Attribute>, attrs: seq<Attribute>)
    requires UniqueNames(attrs) && forall a :: a in order ==> a in attrs
    requires forall i, j :: 0 <= i < j < |order| ==> order[i] != order[j]
    ensures UniqueNames(order)
  {
    forall i, j | 0 <= i < j < |order| ensures order[i].name != order[j].name {
      assert order[i] in order && order[j] in order;
      var x :| 0 <= x < |attrs| && attrs[x] == order[i];
      var y :| 0 <= y < |attrs| && attrs[y] == order[j];
      assert x != y;
    }
  }

  /** An entity's value map after pass 1 holds, under an attribute's name,
      the typed value of the attribute, and the ids the entity refers to
      under it are recorded. */
  lemma RowAt(entities: seq<Option<Entity>>, attrs: seq<Attribute>, fmt: Formats, k: int, a: Attribute)
    requires UniqueNames(attrs)
    requires ReadRows(Pass1([], NO_REFS), entities, attrs, fmt).Ok?
    requires 0 <= k < |entities| && a in attrs
    ensures var q := ReadRows(Pass1([], NO_REFS), entities, attrs, fmt).value;
      && entities[k].Some? && k < |q.rows| && a.name in q.rows[k]
      && q.rows[k][a.name] == TypedValue(Get(entities[k].value, a.name), a.dataType, fmt)
      && (RecordedIds(entities[k].value, a).Some? ==>
            a in q.refs.ids && RecordedIds(entities[k].value, a).value <= q.refs.ids[a])
  {
    var q := ReadRows(Pass1([], NO_REFS), entities, attrs, fmt).value;
    ReadRowsRows(Pass1([], NO_REFS), entities, attrs, fmt);
    ReadRowsRecords(Pass1([], NO_REFS), entities, attrs, fmt);
    RowOfContents(entities[k], attrs, fmt);
    var i :| 0 <= i < |attrs| && attrs[i] == a;
    assert q.rows[k] == RowOf(entities[k], attrs, fmt).value;
  }

  /** One entity's value map after pass 1, against the attribute's entry:
      an attribute not recorded already holds its entry, and a recorded one
      resolves to it. */
  lemma RowEntry(
    ds: DataService, entities: seq<Option<Entity>>, meta: EntityType, filter: AttrFilter, fmt: Formats, k: int, a: Attribute)
    requires UniqueNames(Flat(meta, filter))
    requires ReadRows(Pass1([], NO_REFS), entities, Flat(meta, filter), fmt).Ok?
    requires 0 <= k < |entities| && a in Flat(meta, filter)
    ensures var q := ReadRows(Pass1([], NO_REFS), entities, Flat(meta, filter), fmt).value;
      && entities[k].Some? && k < |q.rows| && a.name in q.rows[k]
      && (a !in q.refs.ids ==> ResponseEntry(ds, entities[k].value, a, filter, fmt) == Ok(q.rows[k][a.name]))
      && (a in q.refs.ids && a.refEntity.Some? ==>
            ResolveRef(ds, q.rows[k][a.name], a, filter, ds.FindAll(a.refEntity.value.name, q.refs.ids[a]), fmt)
            == ResponseEntry(ds, entities[k].value, a, filter, fmt))
  {
    var flat := Flat(meta, filter);
    var q := ReadRows(Pass1([], NO_REFS), entities, flat, fmt).value;
    RowAt(entities, flat, fmt, k, a);
    ReadRowsRefs(Pass1([], NO_REFS), entities, flat, fmt);
    if a in q.refs.ids && a.refEntity.Some? {
      ResolveRefIsEntry(ds, entities[k].value, a, filter, fmt, q.refs.ids[a]);
    }
  }

  /** What the response holds, when the names read are distinct: each
      entity's value map is keyed by the names read, and each attribute's
      value is its entry over the stored entities. */
  lemma ResponseValue(
    ds: DataService, entities: seq<Option<Entity>>, meta: EntityType, filter: AttrFilter, fmt: Formats, k: int, i: int)
    requires UniqueNames(Flat(meta, filter))
    requires ValuesResponse(ds, entities, meta, filter, fmt).Ok?
    requires 0 <= k < |entities| && 0 <= i < |Flat(meta, filter)|
    ensures var a := Flat(meta, filter)[i];
      var r := ValuesResponse(ds, entities, meta, filter, fmt).value;
      && entities[k].Some?
      && r[k].Keys == Names(Flat(meta, filter))
      && ResponseEntry(ds, entities[k].value, a, filter, fmt).Ok?
      && r[k][a.name] == ResponseEntry(ds, entities[k].value, a, filter, fmt).value
  {
    var flat := Flat(meta, filter);
    var a := flat[i];
    var q := ReadRows(Pass1([], NO_REFS), entities, flat, fmt).value;
    Pass1Rows(entities, meta, filter, fmt);
    Pass1Refs(entities, meta, filter, fmt);
    ReadRowsRefs(Pass1([], NO_REFS), entities, flat, fmt);
    UniqueNamesOfSubset(q.refs.order, flat);
    ExpandRowsValues(ds, q.rows, q.refs.order, q.refs.ids, filter, fmt, meta);
    RowEntry(ds, entities, meta, filter, fmt, k, a);
    assert a in q.refs.ids <==> a in q.refs.order;
    if a !in q.refs.order {
      assert a.name !in Names(q.refs.order) by {
        forall b | b in q.refs.order ensures b.name != a.name {
          var x :| 0 <= x < |flat| && flat[x] == b;
        }
      }
    }
  }

  /** When every reference attribute read names its referenced type and the
      names read are distinct, the response succeeds exactly when pass 1 does
      and every entry of every entity does. */
  lemma ValuesResponseOk(ds: DataService, entities: seq<Option<Entity>>, meta: EntityType, filter: AttrFilter, fmt: Formats)
    requires UniqueNames(Flat(meta, filter))
    requires forall a :: a in Flat(meta, filter) && IsRef(a.dataType) ==> a.refEntity.Some?
    ensures ValuesResponse(ds, entities, meta, filter, fmt).Ok? <==>
      && ReadRows(Pass1([], NO_REFS), entities, Flat(meta, filter), fmt).Ok?
      && forall k, i :: 0 <= k < |entities| && 0 <= i < |Flat(meta, filter)| && entities[k].Some? ==>
           ResponseEntry(ds, entities[k].value, Flat(meta, filter)[i], filter, fmt).Ok?
  {
    var flat := Flat(meta, filter);
    if ValuesResponse(ds, entities, meta, filter, fmt).Ok? {
      forall k, i | 0 <= k < |entities| && 0 <= i < |flat| && entities[k].Some?
        ensures ResponseEntry(ds, entities[k].value, flat[i], filter, fmt).Ok?
      {
        ResponseValue(ds, entities, meta, filter, fmt, k, i);
      }
    } else if ReadRows(Pass1([], NO_REFS), entities, flat, fmt).Ok? {
      ValuesResponseFails(ds, entities, meta, filter, fmt);
    }
  }

  /** A response that fails after pass 1 has an entry that fails. */
  lemma ValuesResponseFails(ds: DataService, entities: seq<Option<Entity>>, meta: EntityType, filter: AttrFilter, fmt: Formats)
    requires UniqueNames(Flat(meta, filter))
    requires forall a :: a in Flat(meta, filter) && IsRef(a.dataType) ==> a.refEntity.Some?
    requires ReadRows(Pass1([], NO_REFS), entities, Flat(meta, filter), fmt).Ok?
    requires ValuesResponse(ds, entities, meta, filter, fmt).Err?
    ensures exists k, i :: (0 <= k < |entities| && 0 <= i < |Flat(meta, filter)| && entities[k].Some? &&
      ResponseEntry(ds, entities[k].value, Flat(meta, filter)[i], filter, fmt).Err?)
  {
    var flat := Flat(meta, filter);
    var k, a := FailingValue(ds, entities, meta, filter, fmt);
    RowEntry(ds, entities, meta, filter, fmt, k, a);
    var i :| 0 <= i < |flat| && flat[i] == a;
    assert ResponseEntry(ds, entities[k].value, flat[i], filter, fmt).Err?;
  }

  /** A response that fails after pass 1 has a recorded value that does not
      resolve. */
  lemma FailingValue(ds: DataService, entities: seq<Option<Entity>>, meta: EntityType, filter: AttrFilter, fmt: Formats)
    returns (k: int, a: Attribute)
    requires UniqueNames(Flat(meta, filter))
    requires forall a :: a in Flat(meta, filter) && IsRef(a.dataType) ==> a.refEntity.Some?
    requires ReadRows(Pass1([], NO_REFS), entities, Flat(meta, filter), fmt).Ok?
    requires ValuesResponse(ds, entities, meta, filter, fmt).Err?
    ensures var q := ReadRows(Pass1([], NO_REFS), entities, Flat(meta, filter), fmt).value;
      && a in Flat(meta, filter) && a in q.refs.ids && a.refEntity.Some?
      && 0 <= k < |entities| && k < |q.rows| && a.name in q.rows[k]
      && ResolveRef(ds, q.rows[k][a.name], a, filter, ds.FindAll(a.refEntity.value.name, q.refs.ids[a]), fmt).Err?
  {
    var flat := Flat(meta, filter);
    var q := ReadRows(Pass1([], NO_REFS), entities, flat, fmt).value;
    Pass1Rows(entities, meta, filter, fmt);
    Pass1Refs(entities, meta, filter, fmt);
    assert ExpandRows(ds, q.rows, q.refs.order, q.refs.ids, filter, fmt, meta).Err?;
    UniqueNamesOfSubset(q.refs.order, flat);
    ExpandRowsValues(ds, q.rows, q.refs.order, q.refs.ids, filter, fmt, meta);
    a :| a in q.refs.order && !AllResolve(ds, q.rows, a, q.refs.ids, filter, fmt);
    assert a in flat && IsRef(a.dataType);
    assert a.refEntity.Some?;
    assert !(forall k :: 0 <= k < |q.rows| && a.name in q.rows[k] ==>
      ResolveRef(ds, q.rows[k][a.name], a, filter, ds.FindAll(a.refEntity.value.name, q.refs.ids[a]), fmt).Ok?);
    k :| 0 <= k < |q.rows| && a.name in q.rows[k] &&
      ResolveRef(ds, q.rows[k][a.name], a, filter, ds.FindAll(a.refEntity.value.name, q.refs.ids[a]), fmt).Err?;
  }

  /** The response fails when one of the entities is null (a referenced id
      with nothing stored under it) and any attribute is read: pass 1 calls
      a getter on it. */
  lemma UnstoredReferenceFails(
    ds: DataService, entities: seq<Option<Entity>>, meta: EntityType, filter: AttrFilter, fmt: Formats, j: int)
    requires 0 <= j < |entities| && entities[j].None? && Flat(meta, filter) != []
    ensures ValuesResponse(ds, entities, meta, filter, fmt).Err?
  {
    var flat := Flat(meta, filter);
    ReadRowsOk(Pass1([], NO_REFS), entities, flat, fmt);
    ReadRowFails(Acc(map[], NO_REFS), None, flat, fmt);
    assert AttrValue(None, flat[0], fmt).Err?;
  }

  /** The "_href" of an entity's value map: its entity href. */
  function SelfHref(e: Entity): RValue {
    RHref(EntityHref(BASE_URI, e.entityType.name, IdText(IdOf(e))))
  }

  /** The filter a COMPOUND attribute's parts are read with: their names. */
  function PartsFilter(parts: seq<Attribute>): AttrFilter {
    AttrFilter(false, Names(parts), map[])
  }

  /** The filter for the entities a reference attribute refers to: the
      request's, else the default one, which needs the referenced type. */
  function RefFilterFor(f: AttrFilter, a: Attribute): (r: Result<AttrFilter, ReadError>)
    ensures r.Err? <==> RefFilter(f, a).None? && a.refEntity.None?
    ensures r.Err? ==> r.error == NullRefEntity
    ensures r.Ok? && a.refEntity.Some? ==> r.value == RefFilterOrDefault(f, a)
  {
    match RefFilter(f, a)
    case Some(g) => Ok(g)
    case None => if a.refEntity.Some? then Ok(DefaultRefAttributeFilter(a)) else Err(NullRefEntity)
  }

  /** The first failure among the results, else all their values. */
  function AllOk(rs: seq<Result<Row, ReadError>>): (r: Result<seq<Row>, ReadError>)
    ensures r.Ok? <==> forall i :: 0 <= i < |rs| ==> rs[i].Ok?
    ensures r.Ok? ==> |r.value| == |rs| && forall i :: 0 <= i < |rs| ==> r.value[i] == rs[i].value
    decreases |rs|
  {
    if rs == [] then Ok([])
    else
      match rs[0]
      case Err(x) => Err(x)
      case Ok(row) =>
        match AllOk(rs[1..])
        case Err(x) => Err(x)
        case Ok(rows) => Ok([row] + rows)
  }

  /** createEntityValuesResponseRec: the entity's "_href", then the values of
      the attributes the filter includes, in order, into the same map. */
  function ValuesRec(e: Entity, attrs: seq<Attribute>, f: AttrFilter, fmt: Formats, acc: Row)
    : Result<Row, ReadError>
    decreases e, attrs, 2
  {
    ValuesFold(e, attrs, f, fmt, acc["_href" := SelfHref(e)])
  }

  /** The loop of createEntityValuesResponseRec over the attributes; a
      COMPOUND attribute's parts are read, by name, into the same map. */
  function ValuesFold(e: Entity, attrs: seq<Attribute>, f: AttrFilter, fmt: Formats, acc: Row)
    : Result<Row, ReadError>
    decreases e, attrs, 1
  {
    if attrs == [] then Ok(acc)
    else if !IncludeAttribute(f, attrs[0]) then ValuesFold(e, attrs[1..], f, fmt, acc)
    else if attrs[0].dataType == Compound then
      match ValuesRec(e, attrs[0].children, PartsFilter(attrs[0].children), fmt, acc)
      case Err(x) => Err(x)
      case Ok(next) => ValuesFold(e, attrs[1..], f, fmt, next)
    else
      match EntryValue(e, attrs[0], f, fmt, attrs)
      case Err(x) => Err(x)
      case Ok(v) => ValuesFold(e, attrs[1..], f, fmt, acc[attrs[0].name := v])
  }

  /** The value of one included, non-compound attribute: a reference is
      replaced by the referenced entity's own value map (createEntityResponse
      without metadata), null staying null, and a multi-reference by the list
      of them, empty when it holds none (getEntities never gives null). attrs
      is the list being read; it only bounds the recursion. */
  function EntryValue(e: Entity, a: Attribute, f: AttrFilter, fmt: Formats, ghost attrs: seq<Attribute>)
    : Result<RValue, ReadError>
    decreases e, attrs, 0
  {
    var v := Get(e, a.name);
    if IsSingleRef(a.dataType) then
      if v.RefV? then
        match RefFilterFor(f, a)
        case Err(x) => Err(x)
        case Ok(rf) =>
          match ValuesRec(v.target, v.target.entityType.attributes, rf, fmt, map[])
          case Err(x) => Err(x)
          case Ok(row) => Ok(RRow(row))
      else Ok(RNull)
    else if IsMultiRef(a.dataType) then
      match RefFilterFor(f, a)
      case Err(x) => Err(x)
      case Ok(rf) =>
        var ts := Targets(v);
        match AllOk(seq(|ts|, i requires 0 <= i < |ts| => ValuesRec(ts[i], ts[i].entityType.attributes, rf, fmt, map[])))
        case Err(x) => Err(x)
        case Ok(rows) => Ok(RRows(rows))
    else if a.dataType == Image then Err(Unsupported(Image))
    else if a.dataType == OneToMany then Err(UnknownDataType(OneToMany))
    else Ok(TypedValue(v, a.dataType, fmt))
  }

  /** createEntityResponse(entity, filter, false): the entity's own value map. */
  function EntityResponse(e: Entity, f: AttrFilter, fmt: Formats): Result<Row, ReadError> {
    ValuesRec(e, e.entityType.attributes, f, fmt, map[])
  }

  /** A filter including every attribute of the list keeps the list. */
  lemma {:induction false} IncludedAll(xs: seq<Attribute>, f: AttrFilter)
    requires forall a :: a in xs ==> IncludeAttribute(f, a)
    ensures Included(xs, f) == xs
    decreases xs
  {
    if xs != [] {
      IncludedAll(xs[1..], f);
      assert xs == [xs[0]] + xs[1..];
    }
  }

  lemma NamesAppend(xs: seq<Attribute>, ys: seq<Attribute>)
    ensures Names(xs + ys) == Names(xs) + Names(ys)
  {
    assert forall a :: a in xs + ys <==> a in xs || a in ys;
  }

  /** How the attributes read split over the head of the list. */
  lemma FlatSplit(attrs: seq<Attribute>, f: AttrFilter)
    requires attrs != []
    ensures var head := if IncludeAttribute(f, attrs[0]) then Flatten([attrs[0]]) else [];
      Flatten(Included(attrs, f)) == head + Flatten(Included(attrs[1..], f))
    ensures attrs[0].dataType == Compound ==> Flatten([attrs[0]]) == Flatten(attrs[0].children)
    ensures attrs[0].dataType != Compound ==> Flatten([attrs[0]]) == [attrs[0]]
  {
    var rest := Included(attrs[1..], f);
    if IncludeAttribute(f, attrs[0]) {
      assert Included(attrs, f) == [attrs[0]] + rest;
      FlattenAppend([attrs[0]], rest);
    } else {
      assert Included(attrs, f) == rest;
    }
    assert [attrs[0]][1..] == [];
  }

  /** The keys the loop adds are the names of the attributes it reads. */
  lemma {:induction false} ValuesFoldKeys(e: Entity, attrs: seq<Attribute>, f: AttrFilter, fmt: Formats, acc: Row)
    requires "_href" in acc && ValuesFold(e, attrs, f, fmt, acc).Ok?
    ensures ValuesFold(e, attrs, f, fmt, acc).value.Keys == acc.Keys + Names(Flatten(Included(attrs, f)))
    decreases attrs
  {
    if attrs != [] {
      var a := attrs[0];
      var restFlat := Flatten(Included(attrs[1..], f));
      FlatSplit(attrs, f);
      if !IncludeAttribute(f, a) {
        ValuesFoldKeys(e, attrs[1..], f, fmt, acc);
      } else if a.dataType == Compound {
        var acc1 := acc["_href" := SelfHref(e)];
        ValuesFoldKeys(e, a.children, PartsFilter(a.children), fmt, acc1);
        IncludedAll(a.children, PartsFilter(a.children));
        var next := ValuesFold(e, a.children, PartsFilter(a.children), fmt, acc1).value;
        ValuesFoldKeys(e, attrs[1..], f, fmt, next);
        NamesAppend(Flatten(a.children), restFlat);
      } else {
        var v := EntryValue(e, a, f, fmt, attrs).value;
        ValuesFoldKeys(e, attrs[1..], f, fmt, acc[a.name := v]);
        NamesAppend([a], restFlat);
      }
    }
  }

  /** The loop leaves alone every entry it does not write: any name it
      reads no attribute for, and an "_href" that is already the entity's. */
  lemma {:induction false} ValuesFoldKeeps(
    e: Entity, attrs: seq<Attribute>, f: AttrFilter, fmt: Formats, acc: Row, n: string)
    requires ValuesFold(e, attrs, f, fmt, acc).Ok?
    requires n in acc && n !in Names(Flatten(Included(attrs, f)))
    requires n == "_href" ==> acc[n] == SelfHref(e)
    ensures n in ValuesFold(e, attrs, f, fmt, acc).value
    ensures ValuesFold(e, attrs, f, fmt, acc).value[n] == acc[n]
    decreases attrs
  {
    if attrs != [] {
      var a := attrs[0];
      var restFlat := Flatten(Included(attrs[1..], f));
      FlatSplit(attrs, f);
      if !IncludeAttribute(f, a) {
        ValuesFoldKeeps(e, attrs[1..], f, fmt, acc, n);
      } else if a.dataType == Compound {
        NamesAppend(Flatten(a.children), restFlat);
        var acc1 := acc["_href" := SelfHref(e)];
        IncludedAll(a.children, PartsFilter(a.children));
        ValuesFoldKeeps(e, a.children, PartsFilter(a.children), fmt, acc1, n);
        var next := ValuesFold(e, a.children, PartsFilter(a.children), fmt, acc1).value;
        ValuesFoldKeeps(e, attrs[1..], f, fmt, next, n);
      } else {
        NamesAppend([a], restFlat);
        var v := EntryValue(e, a, f, fmt, attrs).value;
        ValuesFoldKeeps(e, attrs[1..], f, fmt, acc[a.name := v], n);
      }
    }
  }

  /** Distinct names over a concatenation: distinct on each side, and no
      name on both. */
  lemma UniqueNamesSplit(xs: seq<Attribute>, ys: seq<Attribute>)
    requires UniqueNames(xs + ys)
    ensures UniqueNames(xs) && UniqueNames(ys)
    ensures forall a, b :: a in xs && b in ys ==> a.name != b.name
  {
    forall i, j | 0 <= i < j < |xs| ensures xs[i].name != xs[j].name {
      assert (xs + ys)[i] == xs[i] && (xs + ys)[j] == xs[j];
    }
    forall i, j | 0 <= i < j < |ys| ensures ys[i].name != ys[j].name {
      assert (xs + ys)[|xs| + i] == ys[i] && (xs + ys)[|xs| + j] == ys[j];
    }
    forall a, b | a in xs && b in ys ensures a.name != b.name {
      var i :| 0 <= i < |xs| && xs[i] == a;
      var j :| 0 <= j < |ys| && ys[j] == b;
      assert (xs + ys)[i] == a && (xs + ys)[|xs| + j] == b;
    }
  }

  /** The filter the loop reads an attribute of the flattened list with: the
      request's for an attribute the list holds itself, the names of the
      parts for one inside an included COMPOUND attribute. */
  function FilterAt(attrs: seq<Attribute>, f: AttrFilter, b: Attribute): AttrFilter
    decreases attrs
  {
    if attrs == [] then f
    else if attrs[0] == b && IncludeAttribute(f, b) then f
    else if IncludeAttribute(f, attrs[0]) && attrs[0].dataType == Compound && b in Flatten(attrs[0].children) then
      FilterAt(attrs[0].children, PartsFilter(attrs[0].children), b)
    else FilterAt(attrs[1..], f, b)
  }

  /** The list bounding EntryValue's recursion does not change its value. */
  lemma EntryValueBound(e: Entity, a: Attribute, f: AttrFilter, fmt: Formats, xs: seq<Attribute>, ys: seq<Attribute>)
    ensures EntryValue(e, a, f, fmt, xs) == EntryValue(e, a, f, fmt, ys)
  {
  }

  /** When the names read are distinct and none is "_href", every attribute
      read holds its entry, read with the filter the loop reaches it with. */
  lemma {:induction false} ValuesFoldValue(
    e: Entity, attrs: seq<Attribute>, f: AttrFilter, fmt: Formats, acc: Row, b: Attribute)
    requires ValuesFold(e, attrs, f, fmt, acc).Ok?
    requires "_href" in acc && acc["_href"] == SelfHref(e)
    requires UniqueNames(Flatten(Included(attrs, f))) && "_href" !in Names(Flatten(Included(attrs, f)))
    requires b in Flatten(Included(attrs, f))
    ensures b.name in ValuesFold(e, attrs, f, fmt, acc).value
    ensures EntryValue(e, b, FilterAt(attrs, f, b), fmt, [b]).Ok?
    ensures ValuesFold(e, attrs, f, fmt, acc).value[b.name] == EntryValue(e, b, FilterAt(attrs, f, b), fmt, [b]).value
    decreases attrs, 1
  {
    var a := attrs[0];
    var restFlat := Flatten(Included(attrs[1..], f));
    FlatSplit(attrs, f);
    if !IncludeAttribute(f, a) {
      assert Flatten(Included(attrs, f)) == restFlat;
      assert ValuesFold(e, attrs, f, fmt, acc) == ValuesFold(e, attrs[1..], f, fmt, acc);
      ValuesFoldValue(e, attrs[1..], f, fmt, acc, b);
    } else if a.dataType == Compound {
      ValuesFoldValueParts(e, attrs, f, fmt, acc, b);
    } else {
      UniqueNamesSplit([a], restFlat);
      NamesAppend([a], restFlat);
      var v := EntryValue(e, a, f, fmt, attrs).value;
      assert ValuesFold(e, attrs, f, fmt, acc) == ValuesFold(e, attrs[1..], f, fmt, acc[a.name := v]);
      if b == a {
        ValuesFoldKeeps(e, attrs[1..], f, fmt, acc[a.name := v], a.name);
        EntryValueBound(e, a, f, fmt, attrs, [b]);
      } else {
        ValuesFoldValue(e, attrs[1..], f, fmt, acc[a.name := v], b);
      }
    }
  }

  /** ValuesFoldValue when the head of the list is an included compound
      attribute, whose parts are read first. */
  lemma {:induction false} ValuesFoldValueParts(
    e: Entity, attrs: seq<Attribute>, f: AttrFilter, fmt: Formats, acc: Row, b: Attribute)
    requires attrs != [] && IncludeAttribute(f, attrs[0]) && attrs[0].dataType == Compound
    requires ValuesFold(e, attrs, f, fmt, acc).Ok?
    requires "_href" in acc && acc["_href"] == SelfHref(e)
    requires UniqueNames(Flatten(Included(attrs, f))) && "_href" !in Names(Flatten(Included(attrs, f)))
    requires b in Flatten(Included(attrs, f))
    ensures b.name in ValuesFold(e, attrs, f, fmt, acc).value
    ensures EntryValue(e, b, FilterAt(attrs, f, b), fmt, [b]).Ok?
    ensures ValuesFold(e, attrs, f, fmt, acc).value[b.name] == EntryValue(e, b, FilterAt(attrs, f, b), fmt, [b]).value
    decreases attrs, 0
  {
    var a := attrs[0];
    var restFlat := Flatten(Included(attrs[1..], f));
    var parts := Flatten(a.children);
    FlatSplit(attrs, f);
    assert Flatten(Included(attrs, f)) == parts + restFlat;
    UniqueNamesSplit(parts, restFlat);
    NamesAppend(parts, restFlat);
    IncludedAll(a.children, PartsFilter(a.children));
    assert acc["_href" := SelfHref(e)] == acc;
    var next := ValuesFold(e, a.children, PartsFilter(a.children), fmt, acc).value;
    assert ValuesFold(e, attrs, f, fmt, acc) == ValuesFold(e, attrs[1..], f, fmt, next);
    if b in parts {
      ValuesFoldValue(e, a.children, PartsFilter(a.children), fmt, acc, b);
      ValuesFoldKeeps(e, attrs[1..], f, fmt, next, b.name);
    } else {
      ValuesFoldKeeps(e, a.children, PartsFilter(a.children), fmt, acc, "_href");
      ValuesFoldValue(e, attrs[1..], f, fmt, next, b);
    }
  }

  /** An attribute the list holds itself, included, is read with the
      request's filter; one inside a COMPOUND attribute with the parts'
      names, which carry no filter for referenced entities. */
  lemma {:induction false} FilterAtOf(attrs: seq<Attribute>, f: AttrFilter, b: Attribute)
    ensures b in attrs && IncludeAttribute(f, b) && b.dataType != Compound && UniqueNames(Flatten(Included(attrs, f)))
      ==> FilterAt(attrs, f, b) == f
    ensures FilterAt(attrs, f, b) == f || FilterAt(attrs, f, b).refFilters == map[]
    decreases attrs
  {
    if attrs != [] {
      var a := attrs[0];
      FlatSplit(attrs, f);
      if a == b && IncludeAttribute(f, b) {
      } else if IncludeAttribute(f, a) && a.dataType == Compound && b in Flatten(a.children) {
        FilterAtOf(a.children, PartsFilter(a.children), b);
        if b in attrs && IncludeAttribute(f, b) && b.dataType != Compound && UniqueNames(Flatten(Included(attrs, f))) {
          assert b in attrs[1..];
          assert b in Flatten(Included(attrs[1..], f)) by {
            IncludedFlat(attrs[1..], f, b);
          }
          UniqueNamesSplit(Flatten(a.children), Flatten(Included(attrs[1..], f)));
          assert false;
        }
      } else {
        FilterAtOf(attrs[1..], f, b);
        if b in attrs && IncludeAttribute(f, b) && b.dataType != Compound && UniqueNames(Flatten(Included(attrs, f))) {
          assert b in attrs[1..];
          UniqueNamesSplit(if IncludeAttribute(f, a) then Flatten([a]) else [], Flatten(Included(attrs[1..], f)));
        }
      }
    }
  }

  /** An included attribute that is not compound is read as it is. */
  lemma {:induction false} IncludedFlat(attrs: seq<Attribute>, f: AttrFilter, b: Attribute)
    requires b in attrs && IncludeAttribute(f, b) && b.dataType != Compound
    ensures b in Flatten(Included(attrs, f))
    decreases attrs
  {
    FlatSplit(attrs, f);
    if attrs[0] != b {
      IncludedFlat(attrs[1..], f, b);
    }
  }

  /** A successful loop read no IMAGE and no ONE_TO_MANY attribute: those
      fail. */
  lemma {:induction false} ValuesFoldReadable(
    e: Entity, attrs: seq<Attribute>, f: AttrFilter, fmt: Formats, acc: Row, b: Attribute)
    requires ValuesFold(e, attrs, f, fmt, acc).Ok? && b in Flatten(Included(attrs, f))
    ensures b.dataType != Image && b.dataType != OneToMany
    decreases attrs
  {
    var a := attrs[0];
    FlatSplit(attrs, f);
    if !IncludeAttribute(f, a) {
      ValuesFoldReadable(e, attrs[1..], f, fmt, acc, b);
    } else if a.dataType == Compound {
      IncludedAll(a.children, PartsFilter(a.children));
      var acc1 := acc["_href" := SelfHref(e)];
      if b in Flatten(a.children) {
        ValuesFoldReadable(e, a.children, PartsFilter(a.children), fmt, acc1, b);
      } else {
        var next := ValuesFold(e, a.children, PartsFilter(a.children), fmt, acc1).value;
        ValuesFoldReadable(e, attrs[1..], f, fmt, next, b);
      }
    } else if b != a {
      var v := EntryValue(e, a, f, fmt, attrs).value;
      ValuesFoldReadable(e, attrs[1..], f, fmt, acc[a.name := v], b);
    }
  }

  /** The value map of one entity holds its "_href" and the names of the
      attributes createEntitiesValuesResponse reads for it. */
  lemma EntityResponseKeys(e: Entity, f: AttrFilter, fmt: Formats)
    requires EntityResponse(e, f, fmt).Ok?
    ensures EntityResponse(e, f, fmt).value.Keys == {"_href"} + Names(Flat(e.entityType, f))
  {
    ValuesFoldKeys(e, e.entityType.attributes, f, fmt, map["_href" := SelfHref(e)]);
  }

  /** The two ways of building an entity's value map agree: when the names
      read are distinct and none is "_href", a non-reference attribute has
      the same value in the entity's own response as in its row of a
      collection response, and "_href" is the entity's href. */
  lemma EntityResponseMatchesCollection(e: Entity, f: AttrFilter, fmt: Formats, i: int)
    requires EntityResponse(e, f, fmt).Ok?
    requires UniqueNames(Flat(e.entityType, f)) && "_href" !in Names(Flat(e.entityType, f))
    requires 0 <= i < |Flat(e.entityType, f)| && !IsRef(Flat(e.entityType, f)[i].dataType)
    ensures RowOf(Some(e), Flat(e.entityType, f), fmt).Ok?
    ensures var a := Flat(e.entityType, f)[i];
      && a.name in EntityResponse(e, f, fmt).value
      && a.name in RowOf(Some(e), Flat(e.entityType, f), fmt).value
      && EntityResponse(e, f, fmt).value[a.name] == RowOf(Some(e), Flat(e.entityType, f), fmt).value[a.name]
    ensures "_href" in EntityResponse(e, f, fmt).value && EntityResponse(e, f, fmt).value["_href"] == SelfHref(e)
  {
    var flat := Flat(e.entityType, f);
    var a := flat[i];
    var acc := map["_href" := SelfHref(e)];
    forall j | 0 <= j < |flat| ensures AttrValue(Some(e), flat[j], fmt).Ok? {
      ValuesFoldReadable(e, e.entityType.attributes, f, fmt, acc, flat[j]);
    }
    ReadRowFails(Acc(map[], NO_REFS), Some(e), flat, fmt);
    RowOfContents(Some(e), flat, fmt);
    ValuesFoldReadable(e, e.entityType.attributes, f, fmt, acc, a);
    ValuesFoldValue(e, e.entityType.attributes, f, fmt, acc, a);
    ValuesFoldKeeps(e, e.entityType.attributes, f, fmt, acc, "_href");
  }

  /** In an entity's own value map a reference read holds the referenced
      entity's own value map (null when it refers to none), and a
      multi-reference the list of the value maps of the entities it refers
      to, in order; each is read with the filter the request gives for the
      reference, else the default one. */
  lemma EntityResponseReference(e: Entity, f: AttrFilter, fmt: Formats, i: int)
    requires EntityResponse(e, f, fmt).Ok?
    requires UniqueNames(Flat(e.entityType, f)) && "_href" !in Names(Flat(e.entityType, f))
    requires 0 <= i < |Flat(e.entityType, f)| && IsRef(Flat(e.entityType, f)[i].dataType)
    ensures var a := Flat(e.entityType, f)[i];
      var v := Get(e, a.name);
      var rf := RefFilterFor(FilterAt(e.entityType.attributes, f, a), a);
      var out := EntityResponse(e, f, fmt).value;
      && a.name in out
      && (IsSingleRef(a.dataType) && !v.RefV? ==> out[a.name] == RNull)
      && (IsSingleRef(a.dataType) && v.RefV? ==>
            && rf.Ok? && EntityResponse(v.target, rf.value, fmt).Ok?
            && out[a.name] == RRow(EntityResponse(v.target, rf.value, fmt).value))
      && (IsMultiRef(a.dataType) ==>
            && rf.Ok? && out[a.name].RRows? && |out[a.name].rows| == |Targets(v)|
            && (forall j :: 0 <= j < |Targets(v)| ==>
                  EntityResponse(Targets(v)[j], rf.value, fmt).Ok? &&
                  out[a.name].rows[j] == EntityResponse(Targets(v)[j], rf.value, fmt).value))
  {
    var flat := Flat(e.entityType, f);
    var a := flat[i];
    var acc := map["_href" := SelfHref(e)];
    ValuesFoldValue(e, e.entityType.attributes, f, fmt, acc, a);
    ReferenceEntry(e, a, FilterAt(e.entityType.attributes, f, a), fmt);
  }

  /** The entry of a reference attribute, as EntityResponseReference states. */
  lemma ReferenceEntry(e: Entity, a: Attribute, g: AttrFilter, fmt: Formats)
    requires IsRef(a.dataType) && EntryValue(e, a, g, fmt, [a]).Ok?
    ensures var v := Get(e, a.name);
      var rf := RefFilterFor(g, a);
      var out := EntryValue(e, a, g, fmt, [a]).value;
      && (IsSingleRef(a.dataType) && !v.RefV? ==> out == RNull)
      && (IsSingleRef(a.dataType) && v.RefV? ==>
            && rf.Ok? && EntityResponse(v.target, rf.value, fmt).Ok?
            && out == RRow(EntityResponse(v.target, rf.value, fmt).value))
      && (IsMultiRef(a.dataType) ==>
            && rf.Ok? && out.RRows? && |out.rows| == |Targets(v)|
            && (forall j :: 0 <= j < |Targets(v)| ==>
                  EntityResponse(Targets(v)[j], rf.value, fmt).Ok? &&
                  out.rows[j] == EntityResponse(Targets(v)[j], rf.value, fmt).value))
  {
    var v := Get(e, a.name);
    if IsMultiRef(a.dataType) {
      var rf := RefFilterFor(g, a).value;
      var ts := Targets(v);
      var rs := seq(|ts|, j requires 0 <= j < |ts| => ValuesRec(ts[j], ts[j].entityType.attributes, rf, fmt, map[]));
      assert AllOk(rs).Ok?;
      forall j | 0 <= j < |ts|
        ensures EntityResponse(ts[j], rf, fmt).Ok? && EntryValue(e, a, g, fmt, [a]).value.rows[j] == EntityResponse(ts[j], rf, fmt).value
      {
        assert rs[j] == EntityResponse(ts[j], rf, fmt);
      }
    }
  }
}
