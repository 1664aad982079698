/**
 * `VersionAlias.createOrUpdate` (app/models/version-alias.ts): look up the
 * addon's version by its name and, when there is one, add an alias row that
 * points at it. Despite its name it never updates: existing alias rows are
 * neither read nor changed, so every call with a known version adds a row.
 */
module VersionAliasModel {
  import opened Wrappers
  import opened Records
  import opened Db

  /** The row `Version.queryOne({ version, addon_id })` filters for. */
  predicate IsNamedVersionOf(v: Version, versionName: string, addonName: string) {
    v.version == versionName && v.addonId == Some(addonName)
  }

  /**
   * The first key in `lo..hi`, in key order, whose row is the version named
   * `versionName` of the addon `addonName`.
   */
  function FindVersionFrom(versions: map<VersionId, Version>, lo: nat, hi: nat, versionName: string, addonName: string)
    : (r: Option<VersionId>)
    ensures r.Some? ==> lo <= r.value < hi && r.value in versions
                        && IsNamedVersionOf(versions[r.value], versionName, addonName)
    ensures r.Some? ==> forall id | lo <= id < r.value && id in versions ::
                          !IsNamedVersionOf(versions[id], versionName, addonName)
    ensures r.None? ==> forall id | lo <= id < hi && id in versions ::
                          !IsNamedVersionOf(versions[id], versionName, addonName)
    decreases hi - lo
  {
    if hi <= lo then None
    else if lo in versions && IsNamedVersionOf(versions[lo], versionName, addonName) then Some(lo)
    else FindVersionFrom(versions, lo + 1, hi, versionName, addonName)
  }

  /**
   * `Version.queryOne({ version: versionName, addon_id: addon.id })`, reading
   * rows in key order. An addon's id is its name.
   */
  function FindVersion(versions: map<VersionId, Version>, nextId: VersionId, versionName: string, addonName: string)
    : (r: Option<VersionId>)
    requires forall id | id in versions :: id < nextId
    ensures r.Some? ==> r.value in versions && IsNamedVersionOf(versions[r.value], versionName, addonName)
    ensures r.None? <==> forall id | id in versions :: !IsNamedVersionOf(versions[id], versionName, addonName)
  {
    FindVersionFrom(versions, 0, nextId, versionName, addonName)
  }

  /**
   * The store after `createOrUpdate(aliasName, versionName, addon)`: nothing
   * when the version is unknown; otherwise `create({ alias })` saves a new row
   * with no version, then `setVersion` and `save()` point it at the version.
   * The new row's `addon_id` is never set.
   */
  function CreateOrUpdateIn(t: Tables, aliasName: string, versionName: string, addon: Addon, now: Time): (r: Tables)
    requires WellFormed(t)
    ensures WellFormed(r)
  {
    match FindVersion(t.versions, t.nextVersionId, versionName, addon.name)
    case None => t
    case Some(id) =>
      var t1 := CreateAliasIn(t, VersionAlias(aliasName, None, None, Unstamped), now);
      SaveAliasIn(t1, t.nextAliasId, t1.aliases[t.nextAliasId].(versionId := Some(id)), now)
  }

  /** Without a version of that name for the addon, the store is left as it was. */
  lemma UnknownVersionChangesNothing(t: Tables, aliasName: string, versionName: string, addon: Addon, now: Time)
    requires WellFormed(t)
    requires forall id | id in t.versions :: !IsNamedVersionOf(t.versions[id], versionName, addon.name)
    ensures CreateOrUpdateIn(t, aliasName, versionName, addon, now) == t
  {
  }

  /**
   * With such a version, exactly one alias row is added, under a fresh key,
   * carrying the alias name and pointing at the addon's version of that name;
   * its `addon_id` stays NULL, it is stamped with the call's time, and the
   * rows already there, the versions and the addons are unchanged.
   */
  lemma {:induction false} KnownVersionAddsOneAlias(t: Tables, aliasName: string, versionName: string, addon: Addon, now: Time)
    requires WellFormed(t)
    requires exists id | id in t.versions :: IsNamedVersionOf(t.versions[id], versionName, addon.name)
    ensures var r := CreateOrUpdateIn(t, aliasName, versionName, addon, now);
      && t.nextAliasId !in t.aliases
      && r.aliases.Keys == t.aliases.Keys + {t.nextAliasId}
      && r.nextAliasId == t.nextAliasId + 1
      && (forall id | id in t.aliases :: r.aliases[id] == t.aliases[id])
      && r.aliases[t.nextAliasId].alias == aliasName
      && r.aliases[t.nextAliasId].addonId.None?
      && r.aliases[t.nextAliasId].stamps == Stamps(Some(now), Some(now))
      && r.aliases[t.nextAliasId].versionId.Some?
      && r.aliases[t.nextAliasId].versionId.value in t.versions
      && IsNamedVersionOf(t.versions[r.aliases[t.nextAliasId].versionId.value], versionName, addon.name)
      && r.versions == t.versions && r.nextVersionId == t.nextVersionId
      && r.addons == t.addons && r.registryChanges == t.registryChanges
  {
    var found := FindVersion(t.versions, t.nextVersionId, versionName, addon.name);
    assert found.Some?;
  }

  /**
   * Calling it twice with the same names adds two rows with that alias name:
   * existing aliases are not updated in place.
   */
  lemma {:induction false} RepeatedCallsAddRows(t: Tables, aliasName: string, versionName: string, addon: Addon, now: Time, later: Time)
    requires WellFormed(t)
    requires exists id | id in t.versions :: IsNamedVersionOf(t.versions[id], versionName, addon.name)
    ensures var r := CreateOrUpdateIn(CreateOrUpdateIn(t, aliasName, versionName, addon, now), aliasName, versionName, addon, later);
      && r.aliases.Keys == t.aliases.Keys + {t.nextAliasId, t.nextAliasId + 1}
      && r.aliases[t.nextAliasId].alias == aliasName
      && r.aliases[t.nextAliasId + 1].alias == aliasName
      && r.aliases[t.nextAliasId].versionId == r.aliases[t.nextAliasId + 1].versionId
  {
    var found := FindVersion(t.versions, t.nextVersionId, versionName, addon.name);
    KnownVersionAddsOneAlias(t, aliasName, versionName, addon, now);
    var t1 := CreateOrUpdateIn(t, aliasName, versionName, addon, now);
    assert t1.aliases[t.nextAliasId].versionId == found;
    KnownVersionAddsOneAlias(t1, aliasName, versionName, addon, later);
    var r := CreateOrUpdateIn(t1, aliasName, versionName, addon, later);
    assert r.aliases[t1.nextAliasId].versionId == FindVersion(t1.versions, t1.nextVersionId, versionName, addon.name);
  }

  /** `VersionAlias.createOrUpdate(aliasName, versionName, addon)`. */
  method CreateOrUpdate(store: Store, aliasName: string, versionName: string, addon: Addon, now: Time)
    requires store.Valid()
    modifies store
    ensures store.Valid()
    ensures store.Snapshot() == CreateOrUpdateIn(old(store.Snapshot()), aliasName, versionName, addon, now)
  {
    var version := FindVersion(store.versions, store.nextVersionId, versionName, addon.name);
    if version.None? {
      return;
    }
    var id := store.CreateAlias(VersionAlias(aliasName, None, None, Unstamped), now);
    var row := store.aliases[id].(versionId := Some(version.value));
    store.SaveAlias(id, row, now);
  }
}
