/** The permissions seeded at bootstrap (PermissionRegistryImpl.getPermissions):
    a multimap from object identities to (permission, sid) pairs, all for the
    sid of the all-users role: read on the user-account plugin, cumulative read
    on each system entity type that exists, and cumulative write-meta on the
    upload package if it exists. */
module PermissionSeeding {
  import opened Wrappers
  import opened Identities
  import Metadata
  import PackageValidation

  /** The user-account plugin's id (UserAccountController.ID). */
  const USER_ACCOUNT_PLUGIN_ID: string := "useraccount"
  /** The upload package's id (UploadPackage.UPLOAD). */
  const UPLOAD_PACKAGE_ID: string := "upload"
  /** The identity types of plugins and packages (PluginIdentity and
      PackageIdentity). */
  const PLUGIN_TYPE: string := "plugin"
  const PACKAGE_TYPE: string := "package"

  /** The ids of the system entity types opened to all users, in the order
      they are requested: entity types, attributes, packages, tags, languages,
      localization strings, file metadata and decorator configurations. */
  const SYSTEM_ENTITY_TYPE_IDS: seq<string> := [
    "sys_md_EntityType", "sys_md_Attribute", "sys_md_Package", "sys_md_Tag",
    "sys_Language", "sys_L10nString", "sys_FileMeta", "sys_dec_DecoratorConfiguration"]

  function PluginIdentity(pluginId: string): ObjectIdentity {
    ObjectIdentity(PLUGIN_TYPE, pluginId)
  }

  function PackageIdentity(p: PackageValidation.Package): ObjectIdentity {
    ObjectIdentity(PACKAGE_TYPE, p.id)
  }

  datatype Role = Role(name: string)

  /** The security identity of a role (SidUtils.createSid). */
  datatype Sid = RoleSid(roleName: string)

  datatype Level = Read | WriteMeta

  /** PluginPermission.READ, and the cumulative permissions of an entity-type
      or package permission level (the cumulative-permission helpers, whose
      bit masks are not part of this model). */
  datatype Permission =
    | PluginRead
    | EntityTypeCumulative(level: Level)
    | PackageCumulative(level: Level)

  datatype Entry = Entry(identity: ObjectIdentity, permission: Permission, sid: Sid)

  datatype RegistryError =
      /** The all-users role is not stored: creating its sid dereferences null. */
    | MissingAllUsersRole

  /** The entries for the entity types found among ids, in the order of ids. */
  function EntityTypeEntries(ids: seq<string>, entityTypes: map<string, Metadata.EntityType>, sid: Sid)
    : (r: seq<Entry>)
    ensures |r| <= |ids|
    ensures forall e :: e in r ==>
      e.sid == sid && e.permission == EntityTypeCumulative(Read) && e.identity.identityType == ENTITY_TYPE
  {
    if ids == [] then []
    else
      var last := ids[|ids| - 1];
      EntityTypeEntries(ids[..|ids| - 1], entityTypes, sid)
      + (if last in entityTypes
         then [Entry(EntityTypeIdentityFor(entityTypes[last]), EntityTypeCumulative(Read), sid)]
         else [])
  }

  /** The entries for the packages found among ids, in the order of ids. */
  function PackageEntries(ids: seq<string>, packages: map<string, PackageValidation.Package>, sid: Sid)
    : (r: seq<Entry>)
    ensures |r| <= |ids|
    ensures forall e :: e in r ==>
      e.sid == sid && e.permission == PackageCumulative(WriteMeta) && e.identity.identityType == PACKAGE_TYPE
  {
    if ids == [] then []
    else
      var last := ids[|ids| - 1];
      PackageEntries(ids[..|ids| - 1], packages, sid)
      + (if last in packages then [Entry(PackageIdentity(packages[last]), PackageCumulative(WriteMeta), sid)] else [])
  }

  /** All seeded entries for the given sid, in insertion order. */
  function Seeded(sid: Sid, entityTypes: map<string, Metadata.EntityType>, packages: map<string, PackageValidation.Package>)
    : seq<Entry>
  {
    [Entry(PluginIdentity(USER_ACCOUNT_PLUGIN_ID), PluginRead, sid)]
    + EntityTypeEntries(SYSTEM_ENTITY_TYPE_IDS, entityTypes, sid)
    + PackageEntries([UPLOAD_PACKAGE_ID], packages, sid)
  }

  /** getPermissions, given the stored all-users role (if any), the stored
      entity types and the stored packages, each by id. */
  method GetPermissions(
    allUsersRole: Option<Role>,
    entityTypes: map<string, Metadata.EntityType>,
    packages: map<string, PackageValidation.Package>)
    returns (r: Result<seq<Entry>, RegistryError>)
    ensures allUsersRole.None? ==> r == Err(MissingAllUsersRole)
    ensures allUsersRole.Some? ==> r == Ok(Seeded(RoleSid(allUsersRole.value.name), entityTypes, packages))
  {
    if allUsersRole.None? {
      return Err(MissingAllUsersRole);
    }
    var sid := RoleSid(allUsersRole.value.name);
    var entries := [Entry(PluginIdentity(USER_ACCOUNT_PLUGIN_ID), PluginRead, sid)];
    var ids := SYSTEM_ENTITY_TYPE_IDS;
    var i := 0;
    while i < |ids|
      invariant 0 <= i <= |ids|
      invariant entries == [Entry(PluginIdentity(USER_ACCOUNT_PLUGIN_ID), PluginRead, sid)]
        + EntityTypeEntries(ids[..i], entityTypes, sid)
    {
      assert ids[..i + 1][..i] == ids[..i];
      if ids[i] in entityTypes {
        entries := entries + [Entry(EntityTypeIdentityFor(entityTypes[ids[i]]), EntityTypeCumulative(Read), sid)];
      }
      i := i + 1;
    }
    assert ids[..|ids|] == ids;
    var packageIds := [UPLOAD_PACKAGE_ID];
    var j := 0;
    var packageEntries := [];
    while j < |packageIds|
      invariant 0 <= j <= |packageIds|
      invariant packageEntries == PackageEntries(packageIds[..j], packages, sid)
    {
      assert packageIds[..j + 1][..j] == packageIds[..j];
      if packageIds[j] in packages {
        packageEntries := packageEntries
          + [Entry(PackageIdentity(packages[packageIds[j]]), PackageCumulative(WriteMeta), sid)];
      }
      j := j + 1;
    }
    assert packageIds[..|packageIds|] == packageIds;
    return Ok(entries + packageEntries);
  }

  /** The ids among ids that are keys of m. */
  function Found<T>(ids: seq<string>, m: map<string, T>): (r: seq<string>)
    ensures forall id :: id in r <==> id in ids && id in m
  {
    if ids == [] then []
    else Found(ids[..|ids| - 1], m) + (if ids[|ids| - 1] in m then [ids[|ids| - 1]] else [])
  }

  /** One entity-type entry per found id, in order, each for the entity type
      stored under that id. */
  lemma {:induction false} EntityTypeEntriesFollowFound(
    ids: seq<string>, entityTypes: map<string, Metadata.EntityType>, sid: Sid)
    ensures var es := EntityTypeEntries(ids, entityTypes, sid);
      var found := Found(ids, entityTypes);
      && |es| == |found|
      && forall k :: 0 <= k < |es| ==> es[k].identity == EntityTypeIdentityFor(entityTypes[found[k]])
  {
    if ids != [] {
      EntityTypeEntriesFollowFound(ids[..|ids| - 1], entityTypes, sid);
    }
  }

  /** Every seeded pair carries the sid of the all-users role; the plugin gets
      plugin read, the entity types cumulative read and the upload package
      cumulative write-meta. */
  lemma SeededEntries(sid: Sid, entityTypes: map<string, Metadata.EntityType>, packages: map<string, PackageValidation.Package>)
    ensures var s := Seeded(sid, entityTypes, packages);
      && s[0] == Entry(PluginIdentity(USER_ACCOUNT_PLUGIN_ID), PluginRead, sid)
      && (forall e :: e in s ==> e.sid == sid)
      && (forall e :: e in s ==>
            || e == Entry(PluginIdentity(USER_ACCOUNT_PLUGIN_ID), PluginRead, sid)
            || (e.identity.identityType == ENTITY_TYPE && e.permission == EntityTypeCumulative(Read))
            || (e.identity.identityType == PACKAGE_TYPE && e.permission == PackageCumulative(WriteMeta)))
  {
    var s := Seeded(sid, entityTypes, packages);
    var es := EntityTypeEntries(SYSTEM_ENTITY_TYPE_IDS, entityTypes, sid);
    var ps := PackageEntries([UPLOAD_PACKAGE_ID], packages, sid);
    assert s == [Entry(PluginIdentity(USER_ACCOUNT_PLUGIN_ID), PluginRead, sid)] + es + ps;
    forall e | e in s ensures e.sid == sid {
      if e !in es && e !in ps {
        assert e == s[0];
      }
    }
  }

  /** There is one entry for the plugin, one per found system entity type and
      one for the upload package if it exists: nothing else. */
  lemma SeededCount(sid: Sid, entityTypes: map<string, Metadata.EntityType>, packages: map<string, PackageValidation.Package>)
    ensures |Seeded(sid, entityTypes, packages)|
      == 1 + |Found(SYSTEM_ENTITY_TYPE_IDS, entityTypes)| + (if UPLOAD_PACKAGE_ID in packages then 1 else 0)
  {
    EntityTypeEntriesFollowFound(SYSTEM_ENTITY_TYPE_IDS, entityTypes, sid);
    assert [UPLOAD_PACKAGE_ID][..0] == [];
  }

  /** The system entity type ids are distinct. */
  lemma SystemIdsDistinct()
    ensures forall i, j :: 0 <= i < j < |SYSTEM_ENTITY_TYPE_IDS| ==> SYSTEM_ENTITY_TYPE_IDS[i] != SYSTEM_ENTITY_TYPE_IDS[j]
  {
    var ids := SYSTEM_ENTITY_TYPE_IDS;
    forall i, j | 0 <= i < j < |ids| ensures ids[i] != ids[j] {
      assert |ids[i]| != |ids[j]| || ids[i][4] != ids[j][4] || ids[i][7] != ids[j][7];
    }
  }

  predicate Distinct<T(==)>(xs: seq<T>) {
    forall i, j :: 0 <= i < j < |xs| ==> xs[i] != xs[j]
  }

  lemma {:induction false} FoundDistinct<T>(ids: seq<string>, m: map<string, T>)
    requires Distinct(ids)
    ensures Distinct(Found(ids, m))
  {
    if ids != [] {
      var prefix := ids[..|ids| - 1];
      assert Distinct(prefix) by {
        forall i, j | 0 <= i < j < |prefix| ensures prefix[i] != prefix[j] {
          assert prefix[i] == ids[i] && prefix[j] == ids[j];
        }
      }
      FoundDistinct(prefix, m);
      assert ids[|ids| - 1] !in prefix;
    }
  }

  /** No identity occurs in two entries. */
  predicate DistinctIdentities(es: seq<Entry>) {
    forall i, j :: 0 <= i < j < |es| ==> es[i].identity != es[j].identity
  }

  /** The entity-type entries have pairwise distinct identities when every
      entity type is stored under its own id. */
  lemma EntityTypeIdentitiesDistinct(
    ids: seq<string>, entityTypes: map<string, Metadata.EntityType>, sid: Sid)
    requires Distinct(ids)
    requires forall id :: id in entityTypes ==> entityTypes[id].id == id
    ensures DistinctIdentities(EntityTypeEntries(ids, entityTypes, sid))
  {
    var es := EntityTypeEntries(ids, entityTypes, sid);
    var found := Found(ids, entityTypes);
    FoundDistinct(ids, entityTypes);
    EntityTypeEntriesFollowFound(ids, entityTypes, sid);
    forall i, j | 0 <= i < j < |es| ensures es[i].identity != es[j].identity {
      assert found[i] in entityTypes && found[j] in entityTypes;
      assert es[i].identity.identifier == found[i];
      assert es[j].identity.identifier == found[j];
    }
  }

  /** When every entity type is stored under its own id, each identity is
      seeded once: one (permission, sid) pair per identity. */
  lemma SeededIdentitiesDistinct(
    sid: Sid, entityTypes: map<string, Metadata.EntityType>, packages: map<string, PackageValidation.Package>)
    requires forall id :: id in entityTypes ==> entityTypes[id].id == id
    ensures DistinctIdentities(Seeded(sid, entityTypes, packages))
  {
    var s := Seeded(sid, entityTypes, packages);
    var plugin := Entry(PluginIdentity(USER_ACCOUNT_PLUGIN_ID), PluginRead, sid);
    var es := EntityTypeEntries(SYSTEM_ENTITY_TYPE_IDS, entityTypes, sid);
    var ps := PackageEntries([UPLOAD_PACKAGE_ID], packages, sid);
    assert s == [plugin] + es + ps;
    SystemIdsDistinct();
    EntityTypeIdentitiesDistinct(SYSTEM_ENTITY_TYPE_IDS, entityTypes, sid);
    assert PLUGIN_TYPE != ENTITY_TYPE && PLUGIN_TYPE != PACKAGE_TYPE && ENTITY_TYPE != PACKAGE_TYPE by {
      assert PLUGIN_TYPE[0] == 'p' && ENTITY_TYPE[0] == 'e' && PACKAGE_TYPE[1] == 'a' && PLUGIN_TYPE[1] == 'l';
    }
    assert |s| == 1 + |es| + |ps|;
    forall i, j | 0 <= i < j < |s| ensures s[i].identity != s[j].identity {
      if i == 0 {
        assert s[i].identity.identityType == PLUGIN_TYPE;
        if j < 1 + |es| {
          assert s[j] == es[j - 1] && s[j] in es;
          assert s[j].identity.identityType == ENTITY_TYPE;
        } else {
          assert s[j] == ps[j - 1 - |es|] && s[j] in ps;
          assert s[j].identity.identityType == PACKAGE_TYPE;
        }
      } else if j < 1 + |es| {
        assert s[i] == es[i - 1] && s[j] == es[j - 1];
      } else if i < 1 + |es| {
        assert s[i] == es[i - 1] && s[i] in es;
        assert s[j] == ps[j - 1 - |es|] && s[j] in ps;
        assert s[i].identity.identityType == ENTITY_TYPE;
        assert s[j].identity.identityType == PACKAGE_TYPE;
      } else {
        assert false;
      }
    }
  }
}
