# MOLGENIS entity-data API core, modelled in Dafny

This project models the request shaping and rule checking around the
MOLGENIS entity data API, and proves properties of it:

- **REST API v2** (`RestControllerV2`):
  - the batch guards (empty batch, more than 1000 entities, unknown
    entity type);
  - batch create and batch update against an in-memory data service;
  - the attribute-wide update (attribute checks, the identifier-and-value
    check, the per-index id checks, one update call);
  - the aggregate-query guard and the default reference attribute filter;
  - the two-pass reference expansion of `createEntitiesValuesResponse`;
  - the recursive single-entity response of
    `createEntityValuesResponseRec`.
- **Paging links** of the v1 entity collection response: next and previous
  hrefs computed from `(start, num, total)`.
- **Attribute metadata projection** (`AttributeResponse`): fields gated by a
  lower-case attribute set, with expansion of the reference entity and of
  the child attributes limited in depth.
- **Attribute metadata validation**: the rules that the validator's tests
  pin down. These cover the name character set, default values, stored-type
  transitions, mappedBy and orderBy.
- **The package repository validation decorator**: every write or delete
  path validates each package before the delegate repository sees it.
  Streams are validated lazily, element by element.
- **Permission seeding** (`PermissionRegistryImpl`) and the entity-type
  object identity (`EntityTypeIdentity`).
- **The user-account service**: the current user, the guarded update of the
  current user, and the password check.
- **The id-card indexing event**: typed accessors over an entity.

Files, one module each:

| file | module | models |
|---|---|---|
| wrappers.dfy | Wrappers | `Option`, `Result`, `Outcome` |
| strings.dfy | Strings | decimal rendering, Java integer parsing, joining |
| metadata.dfy | Metadata | attribute types, attributes, entity types, flattening of compound attributes, nesting depth |
| data_service.dfy | EntityData | entity values, entities, the in-memory data service (a class) |
| rest_v2.dfy | RestV2 | batch guards, create/update, attribute update, aggregate guard, reference filters |
| rest_read.dfy | RestReads | `createEntitiesValuesResponse` (two passes) and the single-entity response |
| entity_pager.dfy | EntityPager | next/previous paging links |
| attribute_response.dfy | AttributeResponses | the `AttributeResponse` constructor |
| attribute_validator.dfy | AttributeValidation | the attribute validator |
| package_decorator.dfy | PackageValidation | delegate repository and validation decorator (classes) |
| entity_type_identity.dfy | Identities | `EntityTypeIdentity` |
| permission_registry.dfy | PermissionSeeding | `getPermissions` |
| user_account.dfy | UserAccounts | `UserAccountServiceImpl` (a class) |
| idcard_event.dfy | IdCardEvents | `IdCardIndexingEvent` over a mutable entity (classes) |

Design choices:

- **Imperative code stays imperative.** This covers the controller's loops,
  the decorator, the registry builder, the user store and the event's
  setters. They are methods over classes and `seq`/`map` state. Each method
  is tied to a specification function by its `ensures`, and lemmas state the
  properties of that function.
- **Guards and builders are functions.** Examples are the batch check, the
  default filter, the pager, `AttributeResponse`, the validator and the
  single-entity response.
- **Java exceptions are error values.** An exception becomes a `Result` or
  `Outcome` error constructor carrying the data of its message. `Message`
  functions give the message texts.
- **Foreign code becomes parameters.** The date formats, hyperlink and date
  syntax, the allowed type transitions, the password encoder, the signed-in
  username, the backend's acceptance of a write, and the package validator
  are all parameters.

## Model

| member | source | states |
|---|---|---|
| RestV2.BatchCheck | molgenis-data-rest/src/main/java/org/molgenis/data/rest/v2/RestControllerV2.java:386-403 | passes iff 0 < count <= 1000 and the entity type is known; an empty batch fails NoEntities, a batch over 1000 fails MaxEntitiesExceeded, and only then does an unknown type fail UnknownEntity |
| RestV2.BatchGuardOrder | molgenis-data-rest/src/main/java/org/molgenis/data/rest/v2/RestControllerV2.java:389-402 | on an unknown entity type, 0 entities report NoEntities, 1001 report MaxEntitiesExceeded, 1000 report UnknownEntity |
| RestV2.AggregateCheck | molgenis-data-rest/src/main/java/org/molgenis/data/rest/v2/RestControllerV2.java:477-480 | fails, with the missing-x-or-y error, iff both the x and the y attribute are null |
| RestV2.DefaultRefAttributeFilter | molgenis-data-rest/src/main/java/org/molgenis/data/rest/v2/RestControllerV2.java:799-810 | a filter of named attributes only, no sub-filters, naming exactly the referenced type's id attribute, its label attribute, and "url" for a FILE attribute |
| RestV2.DefaultFilterUrlIffFile | molgenis-data-rest/src/main/java/org/molgenis/data/rest/v2/RestControllerV2.java:805-808 | when neither the id nor the label attribute is called "url", the default filter names "url" iff the attribute is of type FILE |
| RestV2.ToEntities | molgenis-data-rest/src/main/java/org/molgenis/data/rest/v2/RestControllerV2.java:243-244 | one entity per request element, in order, of the requested entity type and holding that element's values |
| RestV2.IdTexts | molgenis-data-rest/src/main/java/org/molgenis/data/rest/v2/RestControllerV2.java:251-254 | one id text per entity, in order: the text of that entity's id value |
| RestV2.CreatedMatchesEntities | molgenis-data-rest/src/main/java/org/molgenis/data/rest/v2/RestControllerV2.java:251-260 | the create response has one resource href per entity, and the location lists the same ids; resource i and location id i are both entity i's id |
| RestV2.CreatedResponse | molgenis-data-rest/src/main/java/org/molgenis/data/rest/v2/RestControllerV2.java:251-260 | the loop succeeds iff every entity has a non-null id, and then yields the response built from the entities' ids in input order; otherwise it fails on the null id |
| RestV2.UpdatedFrom | molgenis-data-rest/src/main/java/org/molgenis/data/rest/v2/RestControllerV2.java:348-364 | on success, one updated entity per remaining request element |
| RestV2.UpdatedFromOk | molgenis-data-rest/src/main/java/org/molgenis/data/rest/v2/RestControllerV2.java:352-362 | on success, each element's id is non-null and stored, and its updated entity is the stored original with only the attribute replaced by the request's value, in request order |
| RestV2.FirstUnresolvable | molgenis-data-rest/src/main/java/org/molgenis/data/rest/v2/RestControllerV2.java:352-358 | the first position from i whose id is null or not stored (or the length): every earlier element resolves and that one does not |
| RestV2.UpdatedFromErr | molgenis-data-rest/src/main/java/org/molgenis/data/rest/v2/RestControllerV2.java:352-358 | the loop fails iff some element fails to resolve, and then with the first such element's error: "Unknown identifier on index k" for a null id, "Identifier: id is not valid" for an id with nothing stored |
| RestV2.RestControllerV2.constructor | molgenis-data-rest/src/main/java/org/molgenis/data/rest/v2/RestControllerV2.java:238 | the controller uses the given data service |
| RestV2.RestControllerV2.CreateEntities | molgenis-data-rest/src/main/java/org/molgenis/data/rest/v2/RestControllerV2.java:233-271 | a failed batch guard gives its error with nothing sent to the store; otherwise exactly one add call with all entities, and the store then holds the entities as the backend assigned their ids (unchanged when it refuses); success iff the store accepts and every assigned id is set, with status 201 and the response built from those ids; any later failure gives status 204 |
| RestV2.RestControllerV2.UpdateEntities | molgenis-data-rest/src/main/java/org/molgenis/data/rest/v2/RestControllerV2.java:284-305 | a failed batch guard gives its error with nothing sent; otherwise exactly one update call with all entities; when the store accepts, status 200 and the store holds the old entities with the written ones replacing those of the same id; when not, status 204 and the store unchanged |
| RestV2.RestControllerV2.UpdateAttribute | molgenis-data-rest/src/main/java/org/molgenis/data/rest/v2/RestControllerV2.java:319-375 | checks in order: the batch guard, an unknown attribute, a read-only attribute, an element without exactly two fields, then the ids; any failure leaves the store and its calls untouched (204 after the guard); otherwise one update call with the updated entities; when accepted, status 200 and the store holds the updated entities under their ids, else 204 and the store unchanged |
| RestReads.Included | molgenis-data-rest/src/main/java/org/molgenis/data/rest/v2/RestControllerV2.java:512-520 | keeps exactly the attributes of the list that the filter includes |
| RestReads.FlattenIncluded | molgenis-data-rest/src/main/java/org/molgenis/data/rest/v2/RestControllerV2.java:630-633 | every attribute read after filtering and flattening compound parts is an attribute of the entity type |
| RestReads.TargetIds | molgenis-data-rest/src/main/java/org/molgenis/data/rest/v2/RestControllerV2.java:614-629 | one id per referenced entity, in order: that entity's id |
| RestReads.TypedValueOfRefs | molgenis-data-rest/src/main/java/org/molgenis/data/rest/v2/RestControllerV2.java:590-629 | a single reference becomes the referenced entity's id (null when unset), a multi-reference the list of referenced ids, and no other type produces an id list |
| RestReads.AttrValue | molgenis-data-rest/src/main/java/org/molgenis/data/rest/v2/RestControllerV2.java:580-667 | reading succeeds iff the entity exists and the type is not IMAGE, ONE_TO_MANY or COMPOUND; IMAGE fails Unsupported, unlisted types fail "Unknown data type", a missing entity fails on its getter |
| RestReads.RecordedIds | molgenis-data-rest/src/main/java/org/molgenis/data/rest/v2/RestControllerV2.java:590-629 | ids are recorded only for reference attributes, and always for a multi-reference |
| RestReads.Record | molgenis-data-rest/src/main/java/org/molgenis/data/rest/v2/RestControllerV2.java:599-628 | adds the ids to the attribute's set, creating it on first use; every other attribute's ids are kept; the order of first recording stays consistent |
| RestReads.CollectRow | molgenis-data-rest/src/main/java/org/molgenis/data/rest/v2/RestControllerV2.java:512-520 | the in-place loop over one entity's attributes computes exactly the specification ReadRow |
| RestReads.CollectRows | molgenis-data-rest/src/main/java/org/molgenis/data/rest/v2/RestControllerV2.java:510-521 | the in-place pass 1 over all entities computes exactly the specification ReadRows |
| RestReads.ReadRowKeys | molgenis-data-rest/src/main/java/org/molgenis/data/rest/v2/RestControllerV2.java:512-520 | a value map's keys are exactly the names of the attributes read |
| RestReads.ReadRowKeeps | molgenis-data-rest/src/main/java/org/molgenis/data/rest/v2/RestControllerV2.java:512-520 | a key that no attribute read carries keeps its value |
| RestReads.ReadRowValues | molgenis-data-rest/src/main/java/org/molgenis/data/rest/v2/RestControllerV2.java:512-520 | with distinct names, each attribute read holds its own typed value |
| RestReads.ReadRowFails | molgenis-data-rest/src/main/java/org/molgenis/data/rest/v2/RestControllerV2.java:580-667 | reading fails iff some attribute fails, and then with the error of the first failing attribute, those before it having succeeded |
| RestReads.ReadRowRefs | molgenis-data-rest/src/main/java/org/molgenis/data/rest/v2/RestControllerV2.java:596-628 | the bookkeeping stays consistent, and every newly recorded attribute is a reference attribute that was read |
| RestReads.ReadRowIgnoresRefs | molgenis-data-rest/src/main/java/org/molgenis/data/rest/v2/RestControllerV2.java:512-520 | the value map and the failure do not depend on the ids recorded before |
| RestReads.ReadRowsOk | molgenis-data-rest/src/main/java/org/molgenis/data/rest/v2/RestControllerV2.java:510-521 | pass 1 succeeds iff every entity's value map can be built |
| RestReads.ReadRowsRows | molgenis-data-rest/src/main/java/org/molgenis/data/rest/v2/RestControllerV2.java:510-521 | pass 1 appends each entity's own value map, in entity order, after the earlier ones |
| RestReads.ReadRowsRefs | molgenis-data-rest/src/main/java/org/molgenis/data/rest/v2/RestControllerV2.java:510-521 | over all entities, the bookkeeping stays consistent and only reference attributes read are recorded |
| RestReads.RowOfContents | molgenis-data-rest/src/main/java/org/molgenis/data/rest/v2/RestControllerV2.java:512-520 | one entity's value map has exactly the names read as keys, and each attribute's typed value when names are distinct |
| RestReads.Pass1Rows | molgenis-data-rest/src/main/java/org/molgenis/data/rest/v2/RestControllerV2.java:510-521 | a successful pass 1 yields one value map per entity, each keyed by the names read |
| RestReads.Pass1Refs | molgenis-data-rest/src/main/java/org/molgenis/data/rest/v2/RestControllerV2.java:510-521 | after a successful pass 1, each recorded attribute is recorded once, with its ids, and belongs to the entity type |
| RestReads.EntitiesValuesResponse | molgenis-data-rest/src/main/java/org/molgenis/data/rest/v2/RestControllerV2.java:504-578 | computes exactly the reference ValuesResponse; a pass 1 failure is returned with no fetch; on success one findAll per recorded attribute, in first-recorded order, for its referenced type and exactly the ids recorded under it |
| RestReads.ExpandAll | molgenis-data-rest/src/main/java/org/molgenis/data/rest/v2/RestControllerV2.java:524-577 | computes exactly pass 2 (ExpandRows), with one fetch per recorded attribute in order on success |
| RestReads.ResolveAttribute | molgenis-data-rest/src/main/java/org/molgenis/data/rest/v2/RestControllerV2.java:534-576 | computes exactly the resolution of one attribute over every value map (ResolveRows) |
| RestReads.ResolveValue | molgenis-data-rest/src/main/java/org/molgenis/data/rest/v2/RestControllerV2.java:536-574 | computes exactly the resolution of one held value (ResolveRef) |
| RestReads.ResolveRowsEach | molgenis-data-rest/src/main/java/org/molgenis/data/rest/v2/RestControllerV2.java:534-576 | resolving one attribute over the value maps succeeds iff it succeeds on each map, and then yields each map's own resolution, in order |
| RestReads.ResolveRowsValues | molgenis-data-rest/src/main/java/org/molgenis/data/rest/v2/RestControllerV2.java:534-576 | succeeds iff every held value of the attribute resolves; then every map keeps its keys and its other values, and the attribute's value is replaced by its resolution |
| RestReads.ExpandRowsValues | molgenis-data-rest/src/main/java/org/molgenis/data/rest/v2/RestControllerV2.java:524-577 | pass 2 over distinct names succeeds iff every recorded attribute names its referenced type and each of its held values resolves against the entities findAll returns for its recorded ids; then every map keeps its keys, unrecorded names keep their values, and each recorded value is its resolution |
| RestReads.ReadRowsRecords | molgenis-data-rest/src/main/java/org/molgenis/data/rest/v2/RestControllerV2.java:510-521 | pass 1 only adds to the ids recorded, and every id an entity refers to under an attribute read is recorded under that attribute |
| RestReads.LookupIsFindOne | molgenis-data-rest/src/main/java/org/molgenis/data/rest/v2/RestControllerV2.java:527-529 | for a recorded id, the entity the batch findAll gives is the one findOne gives, null when none is stored |
| RestReads.ResolveRefIsEntry | molgenis-data-rest/src/main/java/org/molgenis/data/rest/v2/RestControllerV2.java:536-574 | resolving a recorded reference against the batch fetch gives the same as reading that entity alone: null stays null, a single reference becomes the value map of the entity findOne gives, a multi-reference the value maps of the entities findOne gives per id, in order |
| RestReads.RowAt | molgenis-data-rest/src/main/java/org/molgenis/data/rest/v2/RestControllerV2.java:510-521 | after pass 1, an entity's value map holds the typed value of every attribute read, and the ids it refers to are recorded |
| RestReads.RowEntry | molgenis-data-rest/src/main/java/org/molgenis/data/rest/v2/RestControllerV2.java:504-578 | per entity and attribute read: an unrecorded attribute already holds its entry, and the resolution of a recorded one is its entry |
| RestReads.ResponseValue | molgenis-data-rest/src/main/java/org/molgenis/data/rest/v2/RestControllerV2.java:504-578 | in a successful response each entity exists, its value map is keyed by the names read, and each attribute holds that entity's own entry (ResponseEntry): the typed value, or the nested value map of each entity it refers to, read with the request's sub-filter or the default one |
| RestReads.ValuesResponseOk | molgenis-data-rest/src/main/java/org/molgenis/data/rest/v2/RestControllerV2.java:504-578 | when every reference read names its referenced type, the response succeeds iff pass 1 does and every entry of every entity does |
| RestReads.ValuesResponseFails | molgenis-data-rest/src/main/java/org/molgenis/data/rest/v2/RestControllerV2.java:524-577 | a response that fails after pass 1 has an entity whose entry for some attribute read fails |
| RestReads.UnstoredReferenceFails | molgenis-data-rest/src/main/java/org/molgenis/data/rest/v2/RestControllerV2.java:510-521 | a null entity in the list (an id that is not stored) makes the response fail once any attribute is read |
| RestReads.RefFilterFor | molgenis-data-rest/src/main/java/org/molgenis/data/rest/v2/RestControllerV2.java:716-720 | the request's sub-filter for a reference attribute, or else its default filter; fails with a missing referenced entity type exactly when neither exists |
| RestReads.AllOk | molgenis-data-rest/src/main/java/org/molgenis/data/rest/v2/RestControllerV2.java:741-744 | a list of reads succeeds iff every read succeeds, with their values in order |
| RestReads.ValuesFoldKeys | molgenis-data-rest/src/main/java/org/molgenis/data/rest/v2/RestControllerV2.java:698-796 | the single-entity loop adds exactly the names of the included attributes, compound parts flattened |
| RestReads.ValuesFoldKeeps | molgenis-data-rest/src/main/java/org/molgenis/data/rest/v2/RestControllerV2.java:698-796 | the loop leaves alone any entry whose name no attribute read carries, and an "_href" already the entity's |
| RestReads.ValuesFoldValue | molgenis-data-rest/src/main/java/org/molgenis/data/rest/v2/RestControllerV2.java:698-796 | with distinct names, none "_href", every attribute read holds its own entry (EntryValue), read with the request's filter or, inside a compound, the parts' names |
| RestReads.ValuesFoldValueParts | molgenis-data-rest/src/main/java/org/molgenis/data/rest/v2/RestControllerV2.java:752-760 | the same when the head attribute is a compound whose parts are read recursively into the same map |
| RestReads.FilterAtOf | molgenis-data-rest/src/main/java/org/molgenis/data/rest/v2/RestControllerV2.java:752-760 | an included top-level attribute is read with the request's filter; any attribute is read with it or with a parts filter that holds no sub-filter for references |
| RestReads.ValuesFoldReadable | molgenis-data-rest/src/main/java/org/molgenis/data/rest/v2/RestControllerV2.java:784-793 | a successful single-entity response read no IMAGE and no ONE_TO_MANY attribute |
| RestReads.EntityResponseKeys | molgenis-data-rest/src/main/java/org/molgenis/data/rest/v2/RestControllerV2.java:693-797 | the single-entity response is keyed by "_href" and the names of the included attributes, compound parts flattened |
| RestReads.EntityResponseMatchesCollection | molgenis-data-rest/src/main/java/org/molgenis/data/rest/v2/RestControllerV2.java:686-797 | the single-entity response and the collection value map agree on every non-reference attribute, and "_href" is the entity's own href |
| RestReads.EntityResponseReference | molgenis-data-rest/src/main/java/org/molgenis/data/rest/v2/RestControllerV2.java:709-750 | in the single-entity response a reference holds the referenced entity's own value map, or null when it refers to none; a multi-reference holds the value maps of its entities in order, empty when it holds none; each is read with the sub-filter, else the default filter |
| RestReads.ReferenceEntry | molgenis-data-rest/src/main/java/org/molgenis/data/rest/v2/RestControllerV2.java:709-750 | the entry of a reference attribute has the form EntityResponseReference states |
| EntityData.Set | molgenis-data-rest/src/main/java/org/molgenis/data/rest/v2/RestControllerV2.java:361 | setting an attribute changes that attribute only and keeps the entity type |
| EntityData.Stored | molgenis-data-rest/src/main/java/org/molgenis/data/rest/v2/RestControllerV2.java:249 | after a write, exactly the old ids and the written entities' ids are stored |
| EntityData.StoredKeyedById | molgenis-data-rest/src/main/java/org/molgenis/data/rest/v2/RestControllerV2.java:249 | a write keeps every stored entity under its own id |
| EntityData.StoredLastWins | molgenis-data-rest/src/main/java/org/molgenis/data/rest/v2/RestControllerV2.java:297 | the last entity written with a given id is the one stored under it |
| EntityData.DataService.constructor | molgenis-data-rest/src/main/java/org/molgenis/data/rest/v2/RestControllerV2.java:238 | a data service over the given metadata, store, backend acceptance and id assignment, with no calls yet |
| EntityData.DataService.Assigned | molgenis-data-rest/src/main/java/org/molgenis/data/rest/v2/RestControllerV2.java:249-253 | one entity per entity added, in order, each as the backend's id assignment leaves it |
| EntityData.DataService.GetEntityMetaData | molgenis-data-rest/src/main/java/org/molgenis/data/rest/v2/RestControllerV2.java:238 | the entity type of that name, null iff unknown |
| EntityData.DataService.FindOne | molgenis-data-rest/src/main/java/org/molgenis/data/rest/v2/RestControllerV2.java:354 | the entity stored under the id, null iff none |
| EntityData.DataService.FindAll | molgenis-data-rest/src/main/java/org/molgenis/data/rest/v2/RestControllerV2.java:527-529 | exactly the stored entities whose id was asked for |
| EntityData.DataService.Add | molgenis-data-rest/src/main/java/org/molgenis/data/rest/v2/RestControllerV2.java:249 | logs one add call and returns the entities with the ids the backend assigned; when the backend accepts, stores each of them under its id, else stores nothing |
| EntityData.DataService.Update | molgenis-data-rest/src/main/java/org/molgenis/data/rest/v2/RestControllerV2.java:297 | logs one update call; when the backend accepts, replaces every entity under its id, else changes nothing |
| Metadata.Flatten | molgenis-data-rest/src/main/java/org/molgenis/data/rest/v2/RestControllerV2.java:630-633 | flattening compound attributes into their parts leaves no compound attribute |
| Metadata.GetAttribute | molgenis-data-rest/src/main/java/org/molgenis/data/rest/v2/RestControllerV2.java:330 | the attribute of that name at any nesting depth, null iff no attribute has that name |
| EntityPager.NextStart | molgenis-api-data/src/test/java/org/molgenis/api/data/v1/EntityCollectionResponseTest.java:35-53 | no next page iff start + num >= total; otherwise it starts at start + num, which is below total |
| EntityPager.PrevStart | molgenis-api-data/src/test/java/org/molgenis/api/data/v1/EntityCollectionResponseTest.java:56-74 | no previous page iff start is 0; otherwise num before start, or 0 when start < num, never past start |
| EntityPager.NextHref | molgenis-api-data/src/test/java/org/molgenis/api/data/v1/EntityCollectionResponseTest.java:35-53 | null iff start + num >= total; otherwise path?start=(start+num)&num=num |
| EntityPager.PrevHref | molgenis-api-data/src/test/java/org/molgenis/api/data/v1/EntityCollectionResponseTest.java:56-74 | null iff start is 0; when start >= num, path?start=(start-num)&num=num |
| EntityPager.PrevHrefIgnoresTotal | molgenis-api-data/src/test/java/org/molgenis/api/data/v1/EntityCollectionResponseTest.java:69-73 | the previous link depends on start and num only, not on total |
| EntityPager.PrevOfNext | molgenis-api-data/src/test/java/org/molgenis/api/data/v1/EntityCollectionResponseTest.java:35-74 | going to the next page and back returns to the same start |
| EntityPager.NextOfPrev | molgenis-api-data/src/test/java/org/molgenis/api/data/v1/EntityCollectionResponseTest.java:35-74 | going to the previous page and forward again returns to the same start |
| EntityPager.Walk | molgenis-api-data/src/test/java/org/molgenis/api/data/v1/EntityCollectionResponseTest.java:35-53 | following next links from a page begins at that page |
| EntityPager.WalkTilesRows | molgenis-api-data/src/test/java/org/molgenis/api/data/v1/EntityCollectionResponseTest.java:35-53 | following next links visits pages num apart, all starting below total, and stops at the first page reaching total |
| EntityPager.RenderTen | molgenis-api-data/src/test/java/org/molgenis/api/data/v1/EntityCollectionResponseTest.java:35-74 | the numbers in the test links render as "0", "10", "15", "20", "25" |
| EntityPager.NextHrefExamples | molgenis-api-data/src/test/java/org/molgenis/api/data/v1/EntityCollectionResponseTest.java:35-53 | the three next-link cases of the test: (0,10,25), (10,10,25) and (0,25,25) |
| EntityPager.PrevHrefExamples | molgenis-api-data/src/test/java/org/molgenis/api/data/v1/EntityCollectionResponseTest.java:56-74 | the three previous-link cases of the test: (0,15,30), (15,15,30) and (30,15,30) |
| Strings.DigitsValueOfNatToString | molgenis-api-data/src/test/java/org/molgenis/api/data/v1/EntityCollectionResponseTest.java:35-74 | the decimal text of a number reads back as that number |
| Strings.NatToStringInjective | molgenis-api-data/src/test/java/org/molgenis/api/data/v1/EntityCollectionResponseTest.java:35-74 | different numbers render as different texts |
| Strings.ParseJavaInteger | molgenis-data-validation/src/test/java/org/molgenis/data/validation/meta/AttributeValidatorTest.java:250-317 | a parsed integer lies within the type's range, and parsing succeeds only on text that starts with a sign or a digit |
| Strings.ParseIntToString | molgenis-data-validation/src/test/java/org/molgenis/data/validation/meta/AttributeValidatorTest.java:250-317 | the decimal text of any in-range integer parses back to that integer |
| Strings.ParseRejectsNonDigit | molgenis-data-validation/src/test/java/org/molgenis/data/validation/meta/AttributeValidatorTest.java:250-317 | text with a non-digit after the optional sign does not parse |
| AttributeResponses.Gate | molgenis-ontology/src/main/java/org/molgenis/ontology/sorta/controller/AttributeResponse.java:70-72 | a field is present iff the attribute set is null or holds its key, and then carries the value |
| AttributeResponses.RefEntityField | molgenis-ontology/src/main/java/org/molgenis/ontology/sorta/controller/AttributeResponse.java:98-119 | null iff the attribute has no referenced entity; when "refentity" is expanded, the entity-type response of the referenced type built with the expansion's attribute set and {"attributes": null}; otherwise a link to the referenced entity type with its collection text |
| AttributeResponses.Children | molgenis-ontology/src/main/java/org/molgenis/ontology/sorta/controller/AttributeResponse.java:124-152 | one child response per child attribute, in order: under an "attributes" expansion a nested response with the child's href whose fields follow the expansion's attribute set and report the child's own values; otherwise only the child's href |
| AttributeResponses.Build | molgenis-ontology/src/main/java/org/molgenis/ontology/sorta/controller/AttributeResponse.java:59-205 | the href is always the parent entity's attribute href, and mappedBy is always the mappedBy attribute's name or null, whatever the attribute set |
| AttributeResponses.BuildFollowsSet | molgenis-ontology/src/main/java/org/molgenis/ontology/sorta/controller/AttributeResponse.java:70-204 | each of the 22 filtered fields is present iff the set is null or holds that field's lower-case key |
| AttributeResponses.BuildReportsAttribute | molgenis-ontology/src/main/java/org/molgenis/ontology/sorta/controller/AttributeResponse.java:70-204 | each present field carries the attribute's own value: type, name, localized label and description, options, type's max length, expressions, flags, default value, range |
| AttributeResponses.LabelAndLookupFlags | molgenis-ontology/src/main/java/org/molgenis/ontology/sorta/controller/AttributeResponse.java:170-180 | labelAttribute is true iff the attribute is the entity's label attribute; lookupAttribute is true iff the entity has a lookup attribute of that name |
| AttributeResponses.VisibleKey | molgenis-ontology/src/main/java/org/molgenis/ontology/sorta/controller/AttributeResponse.java:190-192 | visible is gated by "isvisible": the set {"visible"} omits it, {"isvisible"} reports it |
| AttributeResponses.EmptySetLeavesHrefAndMappedBy | molgenis-ontology/src/main/java/org/molgenis/ontology/sorta/controller/AttributeResponse.java:67-204 | with an empty attribute set only the href and mappedBy remain |
| AttributeResponses.ChildrenMirrored | molgenis-ontology/src/main/java/org/molgenis/ontology/sorta/controller/AttributeResponse.java:124-152 | attributes mirrors the children in order; child i is a nested response iff the expands map has "attributes", its fields following the expansion's attribute set and reporting child i's values; else only its href; in both cases child i's href |
| AttributeResponses.BuildRefEntity | molgenis-ontology/src/main/java/org/molgenis/ontology/sorta/controller/AttributeResponse.java:98-119 | a requested ref entity of an attribute that has one is the entity-type response built with the expansion's attribute set and {"attributes": null} when "refentity" is expanded, else the link to the referenced type and its collection |
| AttributeResponses.ExpansionDepthLimited | molgenis-ontology/src/main/java/org/molgenis/ontology/sorta/controller/AttributeResponse.java:107-141 | an expanded child is built with only {"refentity": null}: its own children are hrefs only, and its referenced entity is expanded with only {"attributes": null} |
| AttributeValidation.OrderStrings | molgenis-data-validation/src/test/java/org/molgenis/data/validation/meta/AttributeValidatorTest.java:107-125 | one text per sort order, in order, each the attribute name, a comma and ASC or DESC |
| AttributeValidation.NameCheck | molgenis-data-validation/src/test/java/org/molgenis/data/validation/meta/AttributeValidatorTest.java:35-40 | passes iff the name is non-empty and made of letters, digits, _ and #; else fails with the invalid-name error |
| AttributeValidation.DefaultValueCheck | molgenis-data-validation/src/test/java/org/molgenis/data/validation/meta/AttributeValidatorTest.java:142-317 | passes iff a set default value suits the type: an INT or LONG value parses in range, an ENUM value is an option, HYPERLINK, DATE and DATE_TIME values have their syntax |
| AttributeValidation.MappedByCheck | molgenis-data-validation/src/test/java/org/molgenis/data/validation/meta/AttributeValidatorTest.java:42-88 | passes iff any mappedBy attribute is an XREF and is an attribute of the referenced entity |
| AttributeValidation.FirstUnknownOrder | molgenis-data-validation/src/test/java/org/molgenis/data/validation/meta/AttributeValidatorTest.java:90-125 | none iff every sort order names an attribute of the referenced entity; otherwise an order naming none |
| AttributeValidation.OrderByCheckCorrect | molgenis-data-validation/src/test/java/org/molgenis/data/validation/meta/AttributeValidatorTest.java:90-125 | the orderBy check passes iff every sort attribute exists on the referenced entity |
| AttributeValidation.Validate | molgenis-data-validation/src/test/java/org/molgenis/data/validation/meta/AttributeValidatorTest.java:42-56 | the stored attribute is looked up at most once, by identifier |
| AttributeValidation.ValidateCorrect | molgenis-data-validation/src/test/java/org/molgenis/data/validation/meta/AttributeValidatorTest.java:35-317 | validation passes iff the name, default value, type transition, mappedBy and orderBy rules all hold, and a passing validation looked the stored attribute up exactly once |
| AttributeValidation.NameCheckedFirst | molgenis-data-validation/src/test/java/org/molgenis/data/validation/meta/AttributeValidatorTest.java:35-40 | an invalid name fails first, before the store is consulted |
| AttributeValidation.MappedByTypeCheckedFirst | molgenis-data-validation/src/test/java/org/molgenis/data/validation/meta/AttributeValidatorTest.java:74-88 | a mappedBy of a type other than XREF fails on its type, before membership is checked |
| AttributeValidation.DisallowedTransitionsRejected | molgenis-data-validation/src/test/java/org/molgenis/data/validation/meta/AttributeValidatorTest.java:127-133 | changing a stored BOOL to ONE_TO_MANY, CATEGORICAL to HYPERLINK or COMPOUND to FILE fails with the transition error |
| AttributeValidation.IntegerDefaultValues | molgenis-data-validation/src/test/java/org/molgenis/data/validation/meta/AttributeValidatorTest.java:250-317 | an integer's decimal text as default passes for INT iff it fits 32 bits and for LONG iff it fits 64 bits |
| AttributeValidation.DigitsOf123456 | molgenis-data-validation/src/test/java/org/molgenis/data/validation/meta/AttributeValidatorTest.java:250-317 | "123456" is all digits, with value 123456 |
| AttributeValidation.DefaultValueExamples | molgenis-data-validation/src/test/java/org/molgenis/data/validation/meta/AttributeValidatorTest.java:142-317 | the test cases: "test" and "1.0" fail integer parsing, "123456" passes, "b" is an option and "test" is not, "test^" is no hyperlink, "test" is no date |
| AttributeValidation.DefaultValueMessages | molgenis-data-validation/src/test/java/org/molgenis/data/validation/meta/AttributeValidatorTest.java:142-317 | the unparseable-date and number-format messages the tests expect |
| AttributeValidation.SortTextExample | molgenis-data-validation/src/test/java/org/molgenis/data/validation/meta/AttributeValidatorTest.java:107-125 | the sort "fail" ascending renders as "fail,ASC" in the orderBy message |
| AttributeValidation.OptionListExample | molgenis-data-validation/src/test/java/org/molgenis/data/validation/meta/AttributeValidatorTest.java:220-248 | the options a, b, c render as "[a, b, c]" in the enum message |
| AttributeValidation.InvalidNameExample | molgenis-data-validation/src/test/java/org/molgenis/data/validation/meta/AttributeValidatorTest.java:35-56 | "invalid.name" is rejected; "attrName" and "mappedByAttrName" are accepted |
| PackageValidation.PutRunProperties | molgenis-data-validation/src/test/java/org/molgenis/data/validation/meta/PackageRepositoryValidationDecoratorTest.java:47-68 | a stream write succeeds iff every element is valid; otherwise it fails on the first invalid element; only valid elements are stored and nothing is removed |
| PackageValidation.RemoveRunProperties | molgenis-data-validation/src/test/java/org/molgenis/data/validation/meta/PackageRepositoryValidationDecoratorTest.java:123-144 | a stream delete succeeds iff every element is valid; it only removes packages, and each removed one was a valid element consumed |
| PackageValidation.DeleteIdsRunProperties | molgenis-data-validation/src/test/java/org/molgenis/data/validation/meta/PackageRepositoryValidationDecoratorTest.java:182-208 | deleting by an id stream only removes packages, each under an id of the stream whose package was valid; on success none of the ids remain |
| PackageValidation.PackageRepository.constructor | molgenis-data-validation/src/test/java/org/molgenis/data/validation/meta/PackageRepositoryValidationDecoratorTest.java:26-31 | a delegate repository holding the given packages, with no calls yet |
| PackageValidation.PackageRepository.FindOneById | molgenis-data-validation/src/test/java/org/molgenis/data/validation/meta/PackageRepositoryValidationDecoratorTest.java:150 | the package stored under the id, null iff none |
| PackageValidation.PackageRepository.Iterate | molgenis-data-validation/src/test/java/org/molgenis/data/validation/meta/PackageRepositoryValidationDecoratorTest.java:168 | every stored package exactly once |
| PackageValidation.PackageRepository.Add | molgenis-data-validation/src/test/java/org/molgenis/data/validation/meta/PackageRepositoryValidationDecoratorTest.java:33-38 | stores the package under its id and logs the call |
| PackageValidation.PackageRepository.Update | molgenis-data-validation/src/test/java/org/molgenis/data/validation/meta/PackageRepositoryValidationDecoratorTest.java:70-76 | replaces the package under its id and logs the call |
| PackageValidation.PackageRepository.Delete | molgenis-data-validation/src/test/java/org/molgenis/data/validation/meta/PackageRepositoryValidationDecoratorTest.java:108-114 | removes the package's id and logs the call |
| PackageValidation.PackageRepository.DeleteOneById | molgenis-data-validation/src/test/java/org/molgenis/data/validation/meta/PackageRepositoryValidationDecoratorTest.java:146-154 | removes the id and logs the call |
| PackageValidation.PackageRepository.DeleteEverything | molgenis-data-validation/src/test/java/org/molgenis/data/validation/meta/PackageRepositoryValidationDecoratorTest.java:165-172 | empties the store and logs the call |
| PackageValidation.PackageRepository.PutEach | molgenis-data-validation/src/test/java/org/molgenis/data/validation/meta/PackageRepositoryValidationDecoratorTest.java:47-68 | consuming a validating stream element by element gives exactly the specification write run |
| PackageValidation.PackageRepository.AddAll | molgenis-data-validation/src/test/java/org/molgenis/data/validation/meta/PackageRepositoryValidationDecoratorTest.java:47-68 | one stream add call, consumed lazily as the specification write run |
| PackageValidation.PackageRepository.UpdateAll | molgenis-data-validation/src/test/java/org/molgenis/data/validation/meta/PackageRepositoryValidationDecoratorTest.java:85-106 | one stream update call, consumed lazily as the specification write run |
| PackageValidation.PackageRepository.DeleteAllOf | molgenis-data-validation/src/test/java/org/molgenis/data/validation/meta/PackageRepositoryValidationDecoratorTest.java:123-144 | one stream delete call, consumed lazily as the specification delete run |
| PackageValidation.PackageRepository.DeleteAllById | molgenis-data-validation/src/test/java/org/molgenis/data/validation/meta/PackageRepositoryValidationDecoratorTest.java:182-208 | one delete-by-ids call, each id resolved and validated as consumed, as the specification run |
| PackageValidation.PackageRepositoryValidationDecorator.constructor | molgenis-data-validation/src/test/java/org/molgenis/data/validation/meta/PackageRepositoryValidationDecoratorTest.java:26-31 | a decorator over the given delegate and validator |
| PackageValidation.PackageRepositoryValidationDecorator.Add | molgenis-data-validation/src/test/java/org/molgenis/data/validation/meta/PackageRepositoryValidationDecoratorTest.java:33-45 | a valid package goes to the delegate's add unchanged; an invalid one fails validation and the delegate sees nothing |
| PackageValidation.PackageRepositoryValidationDecorator.Update | molgenis-data-validation/src/test/java/org/molgenis/data/validation/meta/PackageRepositoryValidationDecoratorTest.java:70-83 | a valid package goes to the delegate's update unchanged; an invalid one fails and the delegate sees nothing |
| PackageValidation.PackageRepositoryValidationDecorator.Delete | molgenis-data-validation/src/test/java/org/molgenis/data/validation/meta/PackageRepositoryValidationDecoratorTest.java:108-121 | a valid package goes to the delegate's delete unchanged; an invalid one fails and the delegate sees nothing |
| PackageValidation.PackageRepositoryValidationDecorator.AddStream | molgenis-data-validation/src/test/java/org/molgenis/data/validation/meta/PackageRepositoryValidationDecoratorTest.java:47-68 | the delegate gets one stream add of exactly the input, validated element by element as it is consumed |
| PackageValidation.PackageRepositoryValidationDecorator.UpdateStream | molgenis-data-validation/src/test/java/org/molgenis/data/validation/meta/PackageRepositoryValidationDecoratorTest.java:85-106 | the delegate gets one stream update of exactly the input, validated element by element as it is consumed |
| PackageValidation.PackageRepositoryValidationDecorator.DeleteStream | molgenis-data-validation/src/test/java/org/molgenis/data/validation/meta/PackageRepositoryValidationDecoratorTest.java:123-144 | the delegate gets one stream delete of exactly the input, validated element by element as it is consumed |
| PackageValidation.PackageRepositoryValidationDecorator.DeleteById | molgenis-data-validation/src/test/java/org/molgenis/data/validation/meta/PackageRepositoryValidationDecoratorTest.java:146-163 | the package is fetched by id and validated; only a valid one is deleted by id on the delegate; a missing or invalid package leaves the delegate untouched |
| PackageValidation.PackageRepositoryValidationDecorator.DeleteAllPackages | molgenis-data-validation/src/test/java/org/molgenis/data/validation/meta/PackageRepositoryValidationDecoratorTest.java:165-180 | succeeds iff every stored package is valid, and then deletes all on the delegate; otherwise fails on an invalid stored package with the delegate untouched |
| PackageValidation.PackageRepositoryValidationDecorator.DeleteAllIds | molgenis-data-validation/src/test/java/org/molgenis/data/validation/meta/PackageRepositoryValidationDecoratorTest.java:182-208 | the delegate gets one delete-by-ids call, each id's package looked up and validated as the id is consumed |
| PackageValidation.NoInvalidPackageStored | molgenis-data-validation/src/test/java/org/molgenis/data/validation/meta/PackageRepositoryValidationDecoratorTest.java:47-106 | writing through the decorator keeps a store of valid packages free of invalid ones |
| PackageValidation.OneElementStreams | molgenis-data-validation/src/test/java/org/molgenis/data/validation/meta/PackageRepositoryValidationDecoratorTest.java:47-208 | a one-element stream behaves as the single-package operation: stored when valid, a validation failure with nothing changed when not |
| Identities.EntityTypeIdentityOf | molgenis-data-security/src/main/java/org/molgenis/data/security/EntityTypeIdentity.java:13-15 | the identity's type is "entityType" and its identifier is the given id |
| Identities.EntityTypeIdentitySameAsId | molgenis-data-security/src/main/java/org/molgenis/data/security/EntityTypeIdentity.java:9-15 | the identity of an entity type is the identity of its id, and two entity types share an identity iff their ids are equal |
| Identities.EntityTypeIdentityInjective | molgenis-data-security/src/main/java/org/molgenis/data/security/EntityTypeIdentity.java:13-15 | two ids give the same identity iff they are equal |
| PermissionSeeding.EntityTypeEntries | molgenis-bootstrap/src/main/java/org/molgenis/bootstrap/populate/PermissionRegistryImpl.java:58-66 | at most one entry per requested id, each an entity-type identity with cumulative READ for the given sid |
| PermissionSeeding.PackageEntries | molgenis-bootstrap/src/main/java/org/molgenis/bootstrap/populate/PermissionRegistryImpl.java:68-73 | at most one entry per requested id, each a package identity with cumulative WRITEMETA for the given sid |
| PermissionSeeding.GetPermissions | molgenis-bootstrap/src/main/java/org/molgenis/bootstrap/populate/PermissionRegistryImpl.java:48-76 | fails when the all-users role is missing; otherwise the builder loop yields exactly the seeded entries for that role's sid |
| PermissionSeeding.Found | molgenis-bootstrap/src/main/java/org/molgenis/bootstrap/populate/PermissionRegistryImpl.java:58-60 | exactly the requested ids that are stored |
| PermissionSeeding.EntityTypeEntriesFollowFound | molgenis-bootstrap/src/main/java/org/molgenis/bootstrap/populate/PermissionRegistryImpl.java:58-66 | one entry per found entity type, in request order, keyed by that entity type's identity |
| PermissionSeeding.SeededEntries | molgenis-bootstrap/src/main/java/org/molgenis/bootstrap/populate/PermissionRegistryImpl.java:50-75 | the first entry is the user-account plugin with READ; every entry carries the all-users sid; every entry is that plugin, a found system entity type with cumulative READ, or the upload package with cumulative WRITEMETA |
| PermissionSeeding.SeededCount | molgenis-bootstrap/src/main/java/org/molgenis/bootstrap/populate/PermissionRegistryImpl.java:50-75 | the entry count is 1 + the number of found system entity types + 1 if the upload package exists |
| PermissionSeeding.SystemIdsDistinct | molgenis-bootstrap/src/main/java/org/molgenis/bootstrap/populate/PermissionRegistryImpl.java:58-60 | the eight requested system entity type ids are distinct |
| PermissionSeeding.FoundDistinct | molgenis-bootstrap/src/main/java/org/molgenis/bootstrap/populate/PermissionRegistryImpl.java:58-60 | the found ids of distinct requested ids are distinct |
| PermissionSeeding.EntityTypeIdentitiesDistinct | molgenis-bootstrap/src/main/java/org/molgenis/bootstrap/populate/PermissionRegistryImpl.java:58-66 | distinct requested ids of a store keyed by id give entries with distinct identities |
| PermissionSeeding.SeededIdentitiesDistinct | molgenis-bootstrap/src/main/java/org/molgenis/bootstrap/populate/PermissionRegistryImpl.java:50-75 | the seeded multimap holds one pair per identity |
| UserAccounts.UserAccountService.constructor | molgenis-security/src/main/java/org/molgenis/security/user/UserAccountServiceImpl.java:14-17 | a service over the given user store, signed-in username and password encoder |
| UserAccounts.UserAccountService.CurrentUser | molgenis-security/src/main/java/org/molgenis/security/user/UserAccountServiceImpl.java:21-23 | the stored user with the signed-in name, null iff nobody is signed in or no such user is stored |
| UserAccounts.UserAccountService.UpdateCurrentUser | molgenis-security/src/main/java/org/molgenis/security/user/UserAccountServiceImpl.java:28-39 | a different username fails first, then a missing stored user; a failure leaves the store untouched; on success only the current user's entry is replaced by the updated user, and the password check then uses the new password |
| UserAccounts.UserAccountService.ValidateCurrentUserPassword | molgenis-security/src/main/java/org/molgenis/security/user/UserAccountServiceImpl.java:44-54 | a null or empty password is false without a lookup; otherwise a missing user fails, else the answer is the encoder's match against the stored password |
| IdCardEvents.StatusOf | molgenis-data-idcard/src/main/java/org/molgenis/data/idcard/model/IdCardIndexingEvent.java:27-31 | the status whose name is the string, none iff no status has that name |
| IdCardEvents.StatusNameRoundTrip | molgenis-data-idcard/src/main/java/org/molgenis/data/idcard/model/IdCardIndexingEvent.java:27-36 | reading back a status's name gives that status |
| IdCardEvents.Entity.constructor | molgenis-data-idcard/src/main/java/org/molgenis/data/idcard/model/IdCardIndexingEvent.java:16-19 | an empty entity of the given type |
| IdCardEvents.Entity.Set | molgenis-data-idcard/src/main/java/org/molgenis/data/idcard/model/IdCardIndexingEvent.java:24 | writes the one attribute and nothing else |
| IdCardEvents.IdCardIndexingEvent.Of | molgenis-data-idcard/src/main/java/org/molgenis/data/idcard/model/IdCardIndexingEvent.java:11-14 | the event is a view over the given entity itself |
| IdCardEvents.IdCardIndexingEvent.New | molgenis-data-idcard/src/main/java/org/molgenis/data/idcard/model/IdCardIndexingEvent.java:16-19 | the event wraps a fresh, empty entity of the given type |
| IdCardEvents.IdCardIndexingEvent.WithId | molgenis-data-idcard/src/main/java/org/molgenis/data/idcard/model/IdCardIndexingEvent.java:21-25 | the event wraps a fresh entity holding only the id under ID |
| IdCardEvents.IdCardIndexingEvent.GetStatus | molgenis-data-idcard/src/main/java/org/molgenis/data/idcard/model/IdCardIndexingEvent.java:27-31 | null when no status string is stored; otherwise the status of that name, or the valueOf failure for a string naming none |
| IdCardEvents.IdCardIndexingEvent.SetStatus | molgenis-data-idcard/src/main/java/org/molgenis/data/idcard/model/IdCardIndexingEvent.java:33-36 | a null status fails with nothing written; otherwise only STATUS is written, with the status's name, and getStatus then returns that status |
| IdCardEvents.IdCardIndexingEvent.SetMessage | molgenis-data-idcard/src/main/java/org/molgenis/data/idcard/model/IdCardIndexingEvent.java:43-46 | only MESSAGE is written, and getMessage then returns the message; status and id are unchanged |

## Left out

- Spring and servlet wiring is not part of this model: `WebAppConfig`, `MolgenisWebAppInitializer` and `MetadataManagerController` only configure or delegate.
- The MySQL repository test is not part of this model. It exercises a storage engine inside a Spring context; the in-memory data service stands in for the storage.
- `OntologyTermDynamicAnnotationTest` is a reflective context test with no stated behaviour, and `MappingJobExecutionMetadata` is a declarative attribute list. Neither is modelled.
- Date and date-time formatting, and the date and hyperlink syntax of default values, are library behaviour. They are parameters (`Formats`, `Syntax`).
- DECIMAL values are passed through as they are, with no floating-point reasoning.
- HTTP is not modelled. The response status exists only as the code that `CreateEntities`, `UpdateEntities` and `UpdateAttribute` return, and the `@ExceptionHandler` mapping is not modelled.
- `synchronized`, transactions and rollback are not modelled. A write is one atomic call to the data service. `createEntities` promises one transaction in which all entities fail if one fails; that all-or-nothing promise is out of scope. In `CreateEntities` a failure after the add (a null id) leaves the store as the add left it.
- These are parameters of the model: the password encoder, the signed-in username, the cumulative-permission helpers, the package validator, the backend's acceptance of a write and the ids the backend assigns on an add.
- `getLabel(languageCode)` and `getDescription(languageCode)` are modelled as a lookup in the attribute's texts per language. The `Attribute` class itself is not part of this model, and any fallback to a default language is not modelled.
- `RestService.toEntity` and `toEntityValue` are not part of this model. A request element becomes an entity holding exactly its values.
- `RestV2.RestControllerV2.UpdateAttribute`: the stored originals are not mutated in place. Java's `originalEntity.set` also changes the stored object before `update` is called; the model builds updated copies, and the store changes only through the update call. Ids are looked up by value rather than by their text.
- `EntityData.IdText`: only string and integer id values have a modelled text. The toString of other id types is not modelled.
- The allowed type transitions are a parameter. The data provider of allowed transitions never calls `validate`, so no allowed transition is claimed.
- The validator's own source is not part of this model. Only the rules its tests pin down are modelled, in this order: name, default value, stored-attribute lookup and transition, mappedBy type then membership, orderBy.
- The mappedBy rule requiring the mapped attribute to point back to this attribute's entity is not modelled.
- Matching filter names case-insensitively, the iteration order of Java maps, and the rendering of `Href` values as URL strings are not modelled. Hrefs are structured values. Pass 2 visits the recorded attributes in the order they were first recorded.
- Metadata is an inductive datatype, so self-referencing entity types cannot be represented. This is what bounds the recursion of reference expansion.
- `AttributeResponses.Build`: children are a list that is never null, so `attributes` is reported whenever it is included. The code yields null only when `getChildren()` returns null, not merely when the list is empty.
- In pass 1 and in the single-entity response, the referenced entities of a null multi-reference are read as an empty list, as `getEntities` never returns null. Typed getters are taken to find a value of the attribute's own type.
- `RestReads.EntitiesValuesResponse`: `fetches` lists only this level's `findAll` calls. The nested expansions of referenced entities make their own calls, which are not logged upward.
- The `_meta` part of `createEntityResponse` is not modelled. The single-entity response is the value map only.
- `EntityPager.PrevHref`: when start < num the link starts at 0. The tests pin down only start >= num, so the contract states the link only for that case.
- The user store is keyed by username. The user service and its persistence are not modelled beyond that map.
- Strings.ParseJavaInteger: only the ASCII digits 0-9 are accepted. Java's `Integer.parseInt` also accepts the other Unicode decimal digits, which the model rejects.
- UserAccounts.UserAccountService.UpdateCurrentUser: a username is never null in the model. So the case where nobody is signed in and the updated user has a null username is not represented. Java would pass `Objects.equals(null, null)` and fail with "User does not exist [null]". That case cannot come up behind `@PreAuthorize`, which requires a signed-in user.
- PermissionSeeding: the ids `useraccount`, `upload`, `plugin`, `package` and the `sys_` entity type ids are assumed values. The constants they stand for are defined in classes that are not part of this model.
