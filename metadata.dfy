/** The metadata model that drives the REST layer, the attribute response and
    the metadata validator: attribute data types, attributes and entity types.
    Metadata is a finite tree of values, so an entity type can refer to other
    entity types only through strictly smaller descriptions. */
module Metadata {
  import opened Wrappers

  /** The attribute data types (the AttributeType / FieldTypeEnum constants). */
  datatype AttributeType =
    | Bool | Int | Long | Decimal | String | Text | Email | Hyperlink | Html | Script | Enum
    | Date | DateTime | Categorical | CategoricalMref | Xref | Mref | OneToMany | File
    | Compound | Image

  /** The enum constant's name, as Java's Enum.toString prints it. */
  function TypeName(t: AttributeType): string {
    match t
    case Bool => "BOOL"
    case Int => "INT"
    case Long => "LONG"
    case Decimal => "DECIMAL"
    case String => "STRING"
    case Text => "TEXT"
    case Email => "EMAIL"
    case Hyperlink => "HYPERLINK"
    case Html => "HTML"
    case Script => "SCRIPT"
    case Enum => "ENUM"
    case Date => "DATE"
    case DateTime => "DATE_TIME"
    case Categorical => "CATEGORICAL"
    case CategoricalMref => "CATEGORICAL_MREF"
    case Xref => "XREF"
    case Mref => "MREF"
    case OneToMany => "ONE_TO_MANY"
    case File => "FILE"
    case Compound => "COMPOUND"
    case Image => "IMAGE"
  }

  /** Types whose value is one referenced entity. */
  predicate IsSingleRef(t: AttributeType) {
    t == Categorical || t == Xref || t == File
  }

  /** Types whose value is a list of referenced entities. */
  predicate IsMultiRef(t: AttributeType) {
    t == CategoricalMref || t == Mref
  }

  datatype Direction = Asc | Desc

  /** One "attribute,direction" element of a sort. */
  datatype Order = Order(attr: string, direction: Direction)

  /** A sort specification (org.molgenis.data.Sort). */
  datatype Sort = Sort(orders: seq<Order>)

  datatype Range = Range(min: Option<int>, max: Option<int>)

  datatype Flags = Flags(
    auto: bool, nillable: bool, readOnly: bool, unique: bool, visible: bool, aggregatable: bool)

  /** The optional computed-attribute and dynamic-constraint expressions. */
  datatype Expressions = Expressions(
    expression: Option<string>, nullableExpression: Option<string>,
    visibleExpression: Option<string>, validationExpression: Option<string>)

  /** An attribute. ownerName is the name of the entity type that declares it
      (getEntityType().getName()); labels and descriptions are keyed by
      language code. */
  datatype Attribute = Attribute(
    identifier: string,
    name: string,
    dataType: AttributeType,
    ownerName: string,
    labels: map<string, string>,
    descriptions: map<string, string>,
    enumOptions: seq<string>,
    refEntity: Option<EntityType>,
    mappedBy: Option<Attribute>,
    orderBy: Option<Sort>,
    children: seq<Attribute>,
    flags: Flags,
    defaultValue: Option<string>,
    range: Option<Range>,
    expressions: Expressions)

  /** An entity type: its id, its name, the designated id and label attributes,
      the lookup attributes and the ordered top-level attributes. */
  datatype EntityType = EntityType(
    id: string,
    name: string,
    idAttribute: Attribute,
    labelAttribute: Attribute,
    lookupAttributes: seq<Attribute>,
    attributes: seq<Attribute>)

  /** getAttribute(name): the first top-level attribute with that name. */
  function FindAttribute(attrs: seq<Attribute>, name: string): (r: Option<Attribute>)
    ensures r.Some? ==> r.value in attrs && r.value.name == name
    ensures r.None? <==> forall a :: a in attrs ==> a.name != name
  {
    if attrs == [] then None
    else if attrs[0].name == name then Some(attrs[0])
    else FindAttribute(attrs[1..], name)
  }

  /** The attributes a row holds values for: every COMPOUND attribute replaced,
      recursively, by its children, in declaration order. */
  function Flatten(attrs: seq<Attribute>): (r: seq<Attribute>)
    ensures forall a :: a in r ==> a.dataType != Compound
    decreases attrs
  {
    if attrs == [] then []
    else
      (if attrs[0].dataType == Compound then Flatten(attrs[0].children) else [attrs[0]])
      + Flatten(attrs[1..])
  }

  lemma {:induction false} FlattenAppend(xs: seq<Attribute>, ys: seq<Attribute>)
    ensures Flatten(xs + ys) == Flatten(xs) + Flatten(ys)
    decreases xs
  {
    if xs == [] {
      assert xs + ys == ys;
    } else {
      assert (xs + ys)[0] == xs[0];
      assert (xs + ys)[1..] == xs[1..] + ys;
      FlattenAppend(xs[1..], ys);
    }
  }

  /** Every attribute of the list and, under each, its children, depth first:
      the attributes an entity type resolves by name. */
  function Descendants(attrs: seq<Attribute>): (r: seq<Attribute>)
    ensures forall a :: a in attrs ==> a in r
    decreases attrs
  {
    if attrs == [] then []
    else [attrs[0]] + Descendants(attrs[0].children) + Descendants(attrs[1..])
  }

  /** EntityType.getAttribute(name). */
  function GetAttribute(et: EntityType, name: string): (r: Option<Attribute>)
    ensures r.Some? ==> r.value.name == name
    ensures r.None? <==> forall a :: a in Descendants(et.attributes) ==> a.name != name
  {
    FindAttribute(Descendants(et.attributes), name)
  }

  /** The names a row's value map gets for these attributes. */
  function Names(attrs: seq<Attribute>): set<string> {
    set a | a in attrs :: a.name
  }

  function Max(a: nat, b: nat): nat {
    if a < b then b else a
  }

  function MaxOf(xs: seq<nat>): (m: nat)
    ensures forall i :: 0 <= i < |xs| ==> xs[i] <= m
  {
    if xs == [] then 0 else Max(xs[0], MaxOf(xs[1..]))
  }

  /** How deeply entity types nest inside an attribute, through reference
      targets and compound children. */
  function AttrDepth(a: Attribute): (d: nat)
    ensures a.refEntity.Some? ==> EntityDepth(a.refEntity.value) <= d
    ensures forall i :: 0 <= i < |a.children| ==> AttrDepth(a.children[i]) <= d
    decreases a
  {
    var childDepths := seq(|a.children|, i requires 0 <= i < |a.children| => AttrDepth(a.children[i]));
    assert forall i :: 0 <= i < |a.children| ==> childDepths[i] == AttrDepth(a.children[i]);
    Max(if a.refEntity.Some? then EntityDepth(a.refEntity.value) else 0, MaxOf(childDepths))
  }

  /** One more than the deepest attribute of the entity type. */
  function EntityDepth(et: EntityType): (d: nat)
    ensures forall i :: 0 <= i < |et.attributes| ==> AttrDepth(et.attributes[i]) < d
    decreases et
  {
    var depths := seq(|et.attributes|, i requires 0 <= i < |et.attributes| => AttrDepth(et.attributes[i]));
    assert forall i :: 0 <= i < |et.attributes| ==> depths[i] == AttrDepth(et.attributes[i]);
    1 + MaxOf(depths)
  }

  /** Every attribute obtained by flattening is no deeper than one of the
      attributes it came from. */
  lemma {:induction false} FlattenDepth(attrs: seq<Attribute>, a: Attribute)
    requires a in Flatten(attrs)
    ensures exists k :: 0 <= k < |attrs| && AttrDepth(a) <= AttrDepth(attrs[k])
    decreases attrs
  {
    assert attrs != [];
    var head := attrs[0];
    if head.dataType == Compound && a in Flatten(head.children) {
      FlattenDepth(head.children, a);
      var j :| 0 <= j < |head.children| && AttrDepth(a) <= AttrDepth(head.children[j]);
      assert AttrDepth(a) <= AttrDepth(attrs[0]);
    } else if head.dataType != Compound && a == head {
      assert AttrDepth(a) <= AttrDepth(attrs[0]);
    } else {
      FlattenDepth(attrs[1..], a);
      var j :| 0 <= j < |attrs[1..]| && AttrDepth(a) <= AttrDepth(attrs[1..][j]);
      assert AttrDepth(a) <= AttrDepth(attrs[j + 1]);
    }
  }

  /** The entity type a flattened reference attribute points to is strictly
      shallower than the entity type that declares the attribute: the measure
      on which recursive reference expansion terminates. */
  lemma RefTargetShallower(meta: EntityType, a: Attribute)
    requires a in Flatten(meta.attributes) && a.refEntity.Some?
    ensures EntityDepth(a.refEntity.value) < EntityDepth(meta)
  {
    FlattenDepth(meta.attributes, a);
  }

  /** The metadata invariant the REST layer relies on: every reference
      attribute, after flattening, names its target entity type, and the
      target satisfies the same invariant. */
  predicate WellFormed(meta: EntityType)
    decreases EntityDepth(meta)
  {
    forall a :: a in Flatten(meta.attributes) ==>
      ((IsSingleRef(a.dataType) || IsMultiRef(a.dataType)) ==> a.refEntity.Some?) &&
      (a.refEntity.Some? ==> (RefTargetShallower(meta, a); WellFormed(a.refEntity.value)))
  }
}
