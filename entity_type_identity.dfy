/** ACL object identities: a (type, identifier) pair. EntityTypeIdentity is
    the identity of an entity type, of type "entityType", identified by the
    entity type's id. */
module Identities {
  import Metadata

  datatype ObjectIdentity = ObjectIdentity(identityType: string, identifier: string)

  const ENTITY_TYPE: string := "entityType"

  /** new EntityTypeIdentity(entityTypeId). */
  function EntityTypeIdentityOf(entityTypeId: string): (oi: ObjectIdentity)
    ensures oi.identityType == ENTITY_TYPE && oi.identifier == entityTypeId
  {
    ObjectIdentity(ENTITY_TYPE, entityTypeId)
  }

  /** new EntityTypeIdentity(entityType): delegates to the id constructor. */
  function EntityTypeIdentityFor(entityType: Metadata.EntityType): ObjectIdentity {
    EntityTypeIdentityOf(entityType.id)
  }

  /** Constructing from an entity type is constructing from its id, so two
      entity types with the same id get the same identity, and two with
      different ids never do. */
  lemma EntityTypeIdentitySameAsId(a: Metadata.EntityType, b: Metadata.EntityType)
    ensures EntityTypeIdentityFor(a) == EntityTypeIdentityOf(a.id)
    ensures EntityTypeIdentityFor(a) == EntityTypeIdentityFor(b) <==> a.id == b.id
  {
  }

  /** Distinct ids give distinct identities. */
  lemma EntityTypeIdentityInjective(x: string, y: string)
    ensures EntityTypeIdentityOf(x) == EntityTypeIdentityOf(y) <==> x == y
  {
  }
}
