/**
 * The persistent store the core reads and writes: one table per model, the
 * next free key of the auto-increment tables, and a journal of every row
 * written, in order.
 */
module Db {
  import opened Wrappers
  import opened Records
  import ApplicationModel

  /** One row written to the store. */
  datatype Write =
    | InsertedAddon(name: string)
    | UpdatedAddon(name: string)
    | InsertedVersion(id: VersionId)
    | UpdatedVersion(id: VersionId)
    | LinkedVersion(id: VersionId, addonName: string)
    | DeletedVersion(id: VersionId)
    | InsertedAlias(id: AliasId)
    | UpdatedAlias(id: AliasId)
    | PatchedRegistryChange(id: nat)

  /** The contents of the store. */
  datatype Tables = Tables(
    addons: seq<Addon>,
    versions: map<VersionId, Version>,
    nextVersionId: VersionId,
    aliases: map<AliasId, VersionAlias>,
    nextAliasId: AliasId,
    registryChanges: map<nat, RegistryChange>,
    compiledVersions: seq<CompiledVersion>,
    journal: seq<Write>)

  /** Auto-increment keys are never reused: every key is below the next one handed out. */
  ghost predicate WellFormed(t: Tables) {
    && (forall id | id in t.versions :: id < t.nextVersionId)
    && (forall id | id in t.aliases :: id < t.nextAliasId)
  }

  function InsertAddonIn(t: Tables, row: Addon): Tables {
    t.(addons := t.addons + [row], journal := t.journal + [InsertedAddon(row.name)])
  }

  /** `save()` of the addon at position `i`. */
  function SaveAddonIn(t: Tables, i: nat, row: Addon, now: Time): Tables
    requires i < |t.addons|
  {
    t.(addons := t.addons[i := ApplicationModel.SavedAddon(row, now)],
       journal := t.journal + [UpdatedAddon(row.name)])
  }

  /** An insert into `versions`: the row gets the next free key. */
  function InsertVersionIn(t: Tables, row: Version): (r: Tables)
    requires WellFormed(t)
    ensures WellFormed(r)
  {
    t.(versions := t.versions[t.nextVersionId := row],
       nextVersionId := t.nextVersionId + 1,
       journal := t.journal + [InsertedVersion(t.nextVersionId)])
  }

  /**
   * Relating the version `id` to an addon: the row's `addon_id` is set, and
   * nothing else (the row is not re-saved, so its timestamps stay).
   */
  function LinkVersionIn(t: Tables, id: VersionId, addonName: string): (r: Tables)
    requires WellFormed(t) && id in t.versions
    ensures WellFormed(r)
  {
    t.(versions := t.versions[id := t.versions[id].(addonId := Some(addonName))],
       journal := t.journal + [LinkedVersion(id, addonName)])
  }

  /** `save()` of the version `id`. */
  function SaveVersionIn(t: Tables, id: VersionId, row: Version, now: Time): (r: Tables)
    requires WellFormed(t) && id in t.versions
    ensures WellFormed(r)
  {
    t.(versions := t.versions[id := ApplicationModel.SavedVersion(row, now)],
       journal := t.journal + [UpdatedVersion(id)])
  }

  /** `delete()` of the version `id`. */
  function DeleteVersionIn(t: Tables, id: VersionId): (r: Tables)
    requires WellFormed(t)
    ensures WellFormed(r)
  {
    t.(versions := t.versions - {id}, journal := t.journal + [DeletedVersion(id)])
  }

  /** An insert into `version_aliases` through `create()`, which saves the new row. */
  function CreateAliasIn(t: Tables, row: VersionAlias, now: Time): (r: Tables)
    requires WellFormed(t)
    ensures WellFormed(r)
  {
    t.(aliases := t.aliases[t.nextAliasId := ApplicationModel.SavedAlias(row, now)],
       nextAliasId := t.nextAliasId + 1,
       journal := t.journal + [InsertedAlias(t.nextAliasId)])
  }

  /** `save()` of the alias `id`. */
  function SaveAliasIn(t: Tables, id: AliasId, row: VersionAlias, now: Time): (r: Tables)
    requires WellFormed(t) && id in t.aliases
    ensures WellFormed(r)
  {
    t.(aliases := t.aliases[id := ApplicationModel.SavedAlias(row, now)],
       journal := t.journal + [UpdatedAlias(id)])
  }

  /**
   * `patchAndFetchById(id, { lastHandledSequence })`: an UPDATE of the row with
   * that key, which changes nothing when there is no such row.
   */
  function PatchRegistryChangeIn(t: Tables, id: nat, lastHandledSequence: string): Tables {
    if id in t.registryChanges then
      t.(registryChanges := t.registryChanges[id := t.registryChanges[id].(lastHandledSequence := Some(lastHandledSequence))],
         journal := t.journal + [PatchedRegistryChange(id)])
    else t
  }

  class Store {
    var addons: seq<Addon>
    var versions: map<VersionId, Version>
    var nextVersionId: VersionId
    var aliases: map<AliasId, VersionAlias>
    var nextAliasId: AliasId
    var registryChanges: map<nat, RegistryChange>
    var compiledVersions: seq<CompiledVersion>
    var journal: seq<Write>

    ghost function Snapshot(): Tables
      reads this
    {
      Tables(addons, versions, nextVersionId, aliases, nextAliasId, registryChanges, compiledVersions, journal)
    }

    ghost predicate Valid()
      reads this
    {
      WellFormed(Snapshot())
    }

    /** A store holding the given tables. */
    constructor (t: Tables)
      requires WellFormed(t)
      ensures Valid() && Snapshot() == t
    {
      addons, versions, nextVersionId := t.addons, t.versions, t.nextVersionId;
      aliases, nextAliasId := t.aliases, t.nextAliasId;
      registryChanges, compiledVersions, journal := t.registryChanges, t.compiledVersions, t.journal;
    }

    method InsertAddon(row: Addon)
      requires Valid()
      modifies this
      ensures Valid() && Snapshot() == InsertAddonIn(old(Snapshot()), row)
    {
      addons := addons + [row];
      journal := journal + [InsertedAddon(row.name)];
    }

    method SaveAddon(i: nat, row: Addon, now: Time)
      requires Valid() && i < |addons|
      modifies this
      ensures Valid() && Snapshot() == SaveAddonIn(old(Snapshot()), i, row, now)
    {
      addons := addons[i := ApplicationModel.SavedAddon(row, now)];
      journal := journal + [UpdatedAddon(row.name)];
    }

    method InsertVersion(row: Version) returns (id: VersionId)
      requires Valid()
      modifies this
      ensures Valid() && id == old(nextVersionId)
      ensures Snapshot() == InsertVersionIn(old(Snapshot()), row)
    {
      id := nextVersionId;
      versions := versions[id := row];
      nextVersionId := nextVersionId + 1;
      journal := journal + [InsertedVersion(id)];
    }

    method LinkVersion(id: VersionId, addonName: string)
      requires Valid() && id in versions
      modifies this
      ensures Valid() && Snapshot() == LinkVersionIn(old(Snapshot()), id, addonName)
    {
      versions := versions[id := versions[id].(addonId := Some(addonName))];
      journal := journal + [LinkedVersion(id, addonName)];
    }

    method SaveVersion(id: VersionId, row: Version, now: Time)
      requires Valid() && id in versions
      modifies this
      ensures Valid() && Snapshot() == SaveVersionIn(old(Snapshot()), id, row, now)
    {
      versions := versions[id := ApplicationModel.SavedVersion(row, now)];
      journal := journal + [UpdatedVersion(id)];
    }

    method DeleteVersion(id: VersionId)
      requires Valid()
      modifies this
      ensures Valid() && Snapshot() == DeleteVersionIn(old(Snapshot()), id)
    {
      versions := versions - {id};
      journal := journal + [DeletedVersion(id)];
    }

    method CreateAlias(row: VersionAlias, now: Time) returns (id: AliasId)
      requires Valid()
      modifies this
      ensures Valid() && id == old(nextAliasId)
      ensures Snapshot() == CreateAliasIn(old(Snapshot()), row, now)
    {
      id := nextAliasId;
      aliases := aliases[id := ApplicationModel.SavedAlias(row, now)];
      nextAliasId := nextAliasId + 1;
      journal := journal + [InsertedAlias(id)];
    }

    method SaveAlias(id: AliasId, row: VersionAlias, now: Time)
      requires Valid() && id in aliases
      modifies this
      ensures Valid() && Snapshot() == SaveAliasIn(old(Snapshot()), id, row, now)
    {
      aliases := aliases[id := ApplicationModel.SavedAlias(row, now)];
      journal := journal + [UpdatedAlias(id)];
    }

    method PatchRegistryChange(id: nat, lastHandledSequence: string)
      requires Valid()
      modifies this
      ensures Valid() && Snapshot() == PatchRegistryChangeIn(old(Snapshot()), id, lastHandledSequence)
    {
      if id in registryChanges {
        registryChanges := registryChanges[id := registryChanges[id].(lastHandledSequence := Some(lastHandledSequence))];
        journal := journal + [PatchedRegistryChange(id)];
      }
    }
  }
}
