/** The metadata response for one attribute (AttributeResponse): every field is
    reported only when the requested attribute set is absent or holds the
    field's lowercase key; references and children are expanded only when the
    expands map asks for it, and the expansion goes only one level deep. */
module AttributeResponses {
  import opened Wrappers
  import opened Metadata

  const BASE_URI: string := "/api/v1"

  /** A response field: left out by the attribute set, or present with a value
      (which may itself be null, modelled as an Option). */
  datatype Field<+T> = Omitted | Present(value: T)

  /** Links made by Href, whose rendering is not part of this model. */
  datatype Href =
    | MetaAttributeHref(base: string, entityName: string, attrName: string)
    | MetaEntityHref(base: string, entityId: string)

  /** The set of lowercase field names requested; None is the null set that
      asks for every field. */
  type AttributeSet = Option<set<string>>

  /** The expands map: per lowercase field name, the attribute set its
      expansion is built with. */
  type Expands = Option<map<string, AttributeSet>>

  predicate Included(attributesSet: AttributeSet, key: string) {
    attributesSet.None? || key in attributesSet.value
  }

  predicate Expanded(expands: Expands, key: string) {
    expands.Some? && key in expands.value
  }

  /** The referenced entity type: an entity-type response built with the given
      arguments (its own construction is not part of this model), or a link. */
  datatype RefEntityResponse =
    | ExpandedEntityType(entityType: EntityType, attributesSet: AttributeSet, expands: map<string, AttributeSet>)
    | RefHref(href: Href, hrefCollection: string)

  datatype ChildResponse =
    | Nested(response: AttributeResponse)
      /** A map holding only "href". */
    | HrefOnly(href: Href)

  datatype AttributeResponse = AttributeResponse(
    href: Href,
    fieldType: Field<AttributeType>,
    name: Field<string>,
    labelText: Field<Option<string>>,
    description: Field<Option<string>>,
    enumOptions: Field<seq<string>>,
    maxLength: Field<Option<int>>,
    expression: Field<Option<string>>,
    refEntity: Field<Option<RefEntityResponse>>,
    mappedBy: Option<string>,
    attributes: Field<seq<ChildResponse>>,
    auto: Field<bool>,
    nillable: Field<bool>,
    readOnly: Field<bool>,
    defaultValue: Field<Option<string>>,
    labelAttribute: Field<bool>,
    unique: Field<bool>,
    lookupAttribute: Field<bool>,
    isAggregatable: Field<bool>,
    range: Field<Option<Range>>,
    visible: Field<bool>,
    nullableExpression: Field<Option<string>>,
    visibleExpression: Field<Option<string>>,
    validationExpression: Field<Option<string>>)

  function Gate<T>(attributesSet: AttributeSet, key: string, v: T): (f: Field<T>)
    ensures f.Present? <==> Included(attributesSet, key)
    ensures f.Present? ==> f.value == v
  {
    if Included(attributesSet, key) then Present(v) else Omitted
  }

  function Localized(texts: map<string, string>, languageCode: string): Option<string> {
    if languageCode in texts then Some(texts[languageCode]) else None
  }

  /** The link to an attribute of the parent entity. */
  function AttrHref(entityParentName: string, attrName: string): Href {
    MetaAttributeHref(BASE_URI, entityParentName, attrName)
  }

  function RefEntityField(attr: Attribute, expands: Expands): (r: Option<RefEntityResponse>)
    ensures r.None? <==> attr.refEntity.None?
    ensures r.Some? ==> (r.value.ExpandedEntityType? <==> Expanded(expands, "refentity"))
    ensures r.Some? && r.value.ExpandedEntityType? ==>
      && r.value.entityType == attr.refEntity.value
      && r.value.attributesSet == expands.value["refentity"]
      && r.value.expands == map["attributes" := None]
    ensures r.Some? && r.value.RefHref? ==>
      && r.value.href == MetaEntityHref(BASE_URI, attr.refEntity.value.id)
      && r.value.hrefCollection == BASE_URI + "/" + attr.refEntity.value.id
  {
    match attr.refEntity
    case None => None
    case Some(e) =>
      if Expanded(expands, "refentity") then
        Some(ExpandedEntityType(e, expands.value["refentity"], map["attributes" := None]))
      else
        Some(RefHref(MetaEntityHref(BASE_URI, e.id), BASE_URI + "/" + e.id))
  }

  /** The attributes field: one entry per child, in order. Under an expansion
      of "attributes" each child becomes a nested response built with the
      expansion's attribute set and with only its ref entity still expandable;
      otherwise each child is a link. */
  function Children(
    entityParentName: string, entityType: EntityType, attr: Attribute, expands: Expands,
    languageCode: string, maxLengthOf: AttributeType -> Option<int>)
    : (cs: seq<ChildResponse>)
    ensures |cs| == |attr.children|
    ensures forall i :: 0 <= i < |cs| ==> (cs[i].Nested? <==> Expanded(expands, "attributes"))
    ensures forall i :: 0 <= i < |cs| && cs[i].HrefOnly? ==> cs[i].href == AttrHref(entityParentName, attr.children[i].name)
    ensures forall i :: 0 <= i < |cs| && cs[i].Nested? ==>
      && cs[i].response.href == AttrHref(entityParentName, attr.children[i].name)
      && Expanded(expands, "attributes")
      && FieldsFollowSet(cs[i].response, expands.value["attributes"])
      && ValuesFromAttribute(cs[i].response, entityType, attr.children[i], languageCode, maxLengthOf)
    decreases attr, 0
  {
    seq(|attr.children|, i requires 0 <= i < |attr.children| =>
      if Expanded(expands, "attributes") then
        Nested(Build(entityParentName, entityType, attr.children[i],
                     expands.value["attributes"], Some(map["refentity" := None]),
                     languageCode, maxLengthOf))
      else
        HrefOnly(AttrHref(entityParentName, attr.children[i].name)))
  }

  /** The response for attr of entityType under the parent name
      entityParentName. languageCode is the current user's language and
      maxLengthOf the maximum length each data type declares. */
  function Build(
    entityParentName: string, entityType: EntityType, attr: Attribute,
    attributesSet: AttributeSet, expands: Expands,
    languageCode: string, maxLengthOf: AttributeType -> Option<int>)
    : (r: AttributeResponse)
    ensures r.href == AttrHref(entityParentName, attr.name)
    ensures r.mappedBy == (if attr.mappedBy.Some? then Some(attr.mappedBy.value.name) else None)
    decreases attr, 1
  {
    var s := attributesSet;
    AttributeResponse(
      AttrHref(entityParentName, attr.name),
      Gate(s, "fieldtype", attr.dataType),
      Gate(s, "name", attr.name),
      Gate(s, "label", Localized(attr.labels, languageCode)),
      Gate(s, "description", Localized(attr.descriptions, languageCode)),
      Gate(s, "enumoptions", attr.enumOptions),
      Gate(s, "maxlength", maxLengthOf(attr.dataType)),
      Gate(s, "expression", attr.expressions.expression),
      Gate(s, "refentity", RefEntityField(attr, expands)),
      if attr.mappedBy.Some? then Some(attr.mappedBy.value.name) else None,
      Gate(s, "attributes", Children(entityParentName, entityType, attr, expands, languageCode, maxLengthOf)),
      Gate(s, "auto", attr.flags.auto),
      Gate(s, "nillable", attr.flags.nillable),
      Gate(s, "readonly", attr.flags.readOnly),
      Gate(s, "defaultvalue", attr.defaultValue),
      Gate(s, "labelattribute", attr == entityType.labelAttribute),
      Gate(s, "unique", attr.flags.unique),
      Gate(s, "lookupattribute", FindAttribute(entityType.lookupAttributes, attr.name).Some?),
      Gate(s, "isaggregatable", attr.flags.aggregatable),
      Gate(s, "range", attr.range),
      Gate(s, "isvisible", attr.flags.visible),
      Gate(s, "nullableexpression", attr.expressions.nullableExpression),
      Gate(s, "visibleexpression", attr.expressions.visibleExpression),
      Gate(s, "validationexpression", attr.expressions.validationExpression))
  }

  /** Every field follows the attribute set and reports the attribute's own
      value. */
  lemma BuildFollowsSet(
    entityParentName: string, entityType: EntityType, attr: Attribute,
    attributesSet: AttributeSet, expands: Expands,
    languageCode: string, maxLengthOf: AttributeType -> Option<int>)
    ensures var r := Build(entityParentName, entityType, attr, attributesSet, expands, languageCode, maxLengthOf);
      FieldsFollowSet(r, attributesSet)
  {
  }

  lemma BuildReportsAttribute(
    entityParentName: string, entityType: EntityType, attr: Attribute,
    attributesSet: AttributeSet, expands: Expands,
    languageCode: string, maxLengthOf: AttributeType -> Option<int>)
    ensures var r := Build(entityParentName, entityType, attr, attributesSet, expands, languageCode, maxLengthOf);
      ValuesFromAttribute(r, entityType, attr, languageCode, maxLengthOf)
  {
  }

  /** Each filtered field is present exactly when the attribute set is null or
      holds the field's lowercase key; visibility answers to "isvisible". */
  predicate FieldsFollowSet(r: AttributeResponse, s: AttributeSet) {
    && (r.fieldType.Present? <==> Included(s, "fieldtype"))
    && (r.name.Present? <==> Included(s, "name"))
    && (r.labelText.Present? <==> Included(s, "label"))
    && (r.description.Present? <==> Included(s, "description"))
    && (r.enumOptions.Present? <==> Included(s, "enumoptions"))
    && (r.maxLength.Present? <==> Included(s, "maxlength"))
    && (r.expression.Present? <==> Included(s, "expression"))
    && (r.refEntity.Present? <==> Included(s, "refentity"))
    && (r.attributes.Present? <==> Included(s, "attributes"))
    && (r.auto.Present? <==> Included(s, "auto"))
    && (r.nillable.Present? <==> Included(s, "nillable"))
    && (r.readOnly.Present? <==> Included(s, "readonly"))
    && (r.defaultValue.Present? <==> Included(s, "defaultvalue"))
    && (r.labelAttribute.Present? <==> Included(s, "labelattribute"))
    && (r.unique.Present? <==> Included(s, "unique"))
    && (r.lookupAttribute.Present? <==> Included(s, "lookupattribute"))
    && (r.isAggregatable.Present? <==> Included(s, "isaggregatable"))
    && (r.range.Present? <==> Included(s, "range"))
    && (r.visible.Present? <==> Included(s, "isvisible"))
    && (r.nullableExpression.Present? <==> Included(s, "nullableexpression"))
    && (r.visibleExpression.Present? <==> Included(s, "visibleexpression"))
    && (r.validationExpression.Present? <==> Included(s, "validationexpression"))
  }

  /** A present field reports the attribute's own value. */
  predicate ValuesFromAttribute(
    r: AttributeResponse, entityType: EntityType, attr: Attribute,
    languageCode: string, maxLengthOf: AttributeType -> Option<int>)
  {
    && (r.fieldType.Present? ==> r.fieldType.value == attr.dataType)
    && (r.name.Present? ==> r.name.value == attr.name)
    && (r.labelText.Present? ==> r.labelText.value == Localized(attr.labels, languageCode))
    && (r.description.Present? ==> r.description.value == Localized(attr.descriptions, languageCode))
    && (r.enumOptions.Present? ==> r.enumOptions.value == attr.enumOptions)
    && (r.maxLength.Present? ==> r.maxLength.value == maxLengthOf(attr.dataType))
    && (r.expression.Present? ==> r.expression.value == attr.expressions.expression)
    && (r.refEntity.Present? ==> (r.refEntity.value.None? <==> attr.refEntity.None?))
    && (r.auto.Present? ==> r.auto.value == attr.flags.auto)
    && (r.nillable.Present? ==> r.nillable.value == attr.flags.nillable)
    && (r.readOnly.Present? ==> r.readOnly.value == attr.flags.readOnly)
    && (r.defaultValue.Present? ==> r.defaultValue.value == attr.defaultValue)
    && (r.unique.Present? ==> r.unique.value == attr.flags.unique)
    && (r.isAggregatable.Present? ==> r.isAggregatable.value == attr.flags.aggregatable)
    && (r.range.Present? ==> r.range.value == attr.range)
    && (r.visible.Present? ==> r.visible.value == attr.flags.visible)
    && (r.nullableExpression.Present? ==> r.nullableExpression.value == attr.expressions.nullableExpression)
    && (r.visibleExpression.Present? ==> r.visibleExpression.value == attr.expressions.visibleExpression)
    && (r.validationExpression.Present? ==> r.validationExpression.value == attr.expressions.validationExpression)
  }

  /** labelAttribute says whether the attribute is the entity type's label
      attribute, and lookupAttribute whether the entity type has a lookup
      attribute of that name. */
  lemma LabelAndLookupFlags(
    entityParentName: string, entityType: EntityType, attr: Attribute,
    attributesSet: AttributeSet, expands: Expands,
    languageCode: string, maxLengthOf: AttributeType -> Option<int>)
    ensures var r := Build(entityParentName, entityType, attr, attributesSet, expands, languageCode, maxLengthOf);
      && (r.labelAttribute.Present? ==> (r.labelAttribute.value <==> attr == entityType.labelAttribute))
      && (r.lookupAttribute.Present? ==>
            (r.lookupAttribute.value <==> exists l :: l in entityType.lookupAttributes && l.name == attr.name))
  {
  }

  /** The visible flag is requested as "isvisible": asking for "visible" does
      not bring it in. */
  lemma VisibleKey(
    entityParentName: string, entityType: EntityType, attr: Attribute, expands: Expands,
    languageCode: string, maxLengthOf: AttributeType -> Option<int>)
    ensures Build(entityParentName, entityType, attr, Some({"visible"}), expands, languageCode, maxLengthOf).visible.Omitted?
    ensures Build(entityParentName, entityType, attr, Some({"isvisible"}), expands, languageCode, maxLengthOf).visible
      == Present(attr.flags.visible)
  {
  }

  /** With an empty attribute set only the href and mappedBy remain. */
  lemma EmptySetLeavesHrefAndMappedBy(
    entityParentName: string, entityType: EntityType, attr: Attribute, expands: Expands,
    languageCode: string, maxLengthOf: AttributeType -> Option<int>)
    ensures var r := Build(entityParentName, entityType, attr, Some({}), expands, languageCode, maxLengthOf);
      r == AttributeResponse(
        AttrHref(entityParentName, attr.name), Omitted, Omitted, Omitted, Omitted, Omitted, Omitted,
        Omitted, Omitted, if attr.mappedBy.Some? then Some(attr.mappedBy.value.name) else None,
        Omitted, Omitted, Omitted, Omitted, Omitted, Omitted, Omitted, Omitted, Omitted, Omitted,
        Omitted, Omitted, Omitted, Omitted)
  {
  }

  /** The attributes field lists the children in order: under an expansion of
      "attributes" as nested responses for the same parent, otherwise as links
      to the child attributes. */
  lemma ChildrenMirrored(
    entityParentName: string, entityType: EntityType, attr: Attribute,
    attributesSet: AttributeSet, expands: Expands,
    languageCode: string, maxLengthOf: AttributeType -> Option<int>, i: nat)
    requires Included(attributesSet, "attributes") && i < |attr.children|
    ensures var r := Build(entityParentName, entityType, attr, attributesSet, expands, languageCode, maxLengthOf);
      && r.attributes.Present?
      && |r.attributes.value| == |attr.children|
      && var c := r.attributes.value[i];
      && (c.Nested? <==> Expanded(expands, "attributes"))
      && (c.Nested? ==> c.response.href == AttrHref(entityParentName, attr.children[i].name))
      && (c.Nested? ==>
            && Expanded(expands, "attributes")
            && FieldsFollowSet(c.response, expands.value["attributes"])
            && ValuesFromAttribute(c.response, entityType, attr.children[i], languageCode, maxLengthOf))
      && (c.HrefOnly? ==> c.href == AttrHref(entityParentName, attr.children[i].name))
  {
    var cs := Children(entityParentName, entityType, attr, expands, languageCode, maxLengthOf);
    assert Build(entityParentName, entityType, attr, attributesSet, expands, languageCode, maxLengthOf).attributes
      == Present(cs);
  }

  /** A requested ref entity of an attribute that has one is, when "refentity"
      is expanded, the entity-type response of the referenced type built with
      the expansion's attribute set and asked to expand its attributes only;
      otherwise a link to the referenced entity type and its collection. */
  lemma BuildRefEntity(
    entityParentName: string, entityType: EntityType, attr: Attribute,
    attributesSet: AttributeSet, expands: Expands,
    languageCode: string, maxLengthOf: AttributeType -> Option<int>)
    requires Included(attributesSet, "refentity") && attr.refEntity.Some?
    ensures var r := Build(entityParentName, entityType, attr, attributesSet, expands, languageCode, maxLengthOf);
      var e := attr.refEntity.value;
      && r.refEntity.Present? && r.refEntity.value.Some?
      && (Expanded(expands, "refentity") ==>
            r.refEntity.value.value == ExpandedEntityType(e, expands.value["refentity"], map["attributes" := None]))
      && (!Expanded(expands, "refentity") ==>
            r.refEntity.value.value == RefHref(MetaEntityHref(BASE_URI, e.id), BASE_URI + "/" + e.id))
  {
  }

  /** Expansion stops after one level: an expanded child expands its ref
      entity, asking that entity-type response to expand only its attributes,
      but lists its own children as links only. */
  lemma ExpansionDepthLimited(
    entityParentName: string, entityType: EntityType, attr: Attribute, expands: Expands,
    languageCode: string, maxLengthOf: AttributeType -> Option<int>, i: nat)
    requires Expanded(expands, "attributes") && i < |attr.children|
    ensures var c := Children(entityParentName, entityType, attr, expands, languageCode, maxLengthOf)[i];
      && c.Nested?
      && (c.response.attributes.Present? ==>
            forall j :: 0 <= j < |c.response.attributes.value| ==> c.response.attributes.value[j].HrefOnly?)
      && (c.response.refEntity.Present? && attr.children[i].refEntity.Some? ==>
            c.response.refEntity.value == Some(ExpandedEntityType(
              attr.children[i].refEntity.value, None, map["attributes" := None])))
  {
    var child := attr.children[i];
    var childExpands: Expands := Some(map["refentity" := None]);
    var c := Children(entityParentName, entityType, attr, expands, languageCode, maxLengthOf)[i];
    var r := Build(entityParentName, entityType, child, expands.value["attributes"], childExpands,
                   languageCode, maxLengthOf);
    assert c == Nested(r);
    assert !Expanded(childExpands, "attributes") && Expanded(childExpands, "refentity");
    var grandChildren := Children(entityParentName, entityType, child, childExpands, languageCode, maxLengthOf);
    assert r.attributes.Present? ==> r.attributes.value == grandChildren;
    forall j | 0 <= j < |grandChildren| ensures grandChildren[j].HrefOnly? {
    }
  }
}
