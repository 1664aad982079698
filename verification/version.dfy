/**
 * The two ways a `versions` row comes into being (app/models/version.ts):
 * a row that tracks a GitHub branch, and a row for a version published to
 * the registry. Each is one INSERT followed by relating the new row to its
 * addon; no existing row is read or written.
 */
module VersionModel {
  import opened Wrappers
  import opened Records
  import opened Db

  /**
   * `config && config.branchName || branch.name`: the configured name when
   * there is a configuration whose `branchName` is a non-empty string, the
   * branch's own name otherwise.
   */
  function DisplayName(config: Option<BranchConfig>, branch: Branch): (r: string)
    ensures (config.Some? && config.value.branchName.Some? && config.value.branchName.value != "")
            ==> r == config.value.branchName.value
    ensures !(config.Some? && config.value.branchName.Some? && config.value.branchName.value != "")
            ==> r == branch.name
    ensures r != "" ==> r == branch.name || (config.Some? && config.value.branchName == Some(r))
  {
    match config
    case Some(BranchConfig(Some(name), _)) => if name != "" then name else branch.name
    case _ => branch.name
  }

  /**
   * The row `createBranchVersion` inserts. The columns it does not name keep
   * their defaults: no build time, no docs URL, no tarball, no addon yet.
   */
  function BranchVersionRow(config: Option<BranchConfig>, branch: Branch): (r: Version)
    ensures r.isBranch && r.version == branch.name && r.branchName == Some(branch.name)
    ensures r.lastSeenCommit == Some(branch.commit.sha)
    ensures r.displayName == Some(DisplayName(config, branch))
    ensures r.compiledAt.None? && r.docsUrl.None? && r.tarballUrl.None? && r.addonId.None?
    ensures r.stamps == Unstamped
  {
    Version(
      version := branch.name,
      displayName := Some(DisplayName(config, branch)),
      compiledAt := None,
      docsUrl := None,
      addonId := None,
      isBranch := true,
      branchName := Some(branch.name),
      lastSeenCommit := Some(branch.commit.sha),
      tarballUrl := None,
      stamps := Unstamped)
  }

  /**
   * The row `createFromVersionMetadata` inserts: the published version and its
   * tarball; `is_branch` keeps its column default, false.
   */
  function PublishedVersionRow(metadata: VersionMetadata): (r: Version)
    ensures !r.isBranch && r.version == metadata.version && r.tarballUrl == Some(metadata.tarball)
    ensures r.branchName.None? && r.lastSeenCommit.None? && r.displayName.None?
    ensures r.compiledAt.None? && r.docsUrl.None? && r.addonId.None?
    ensures r.stamps == Unstamped
  {
    Version(
      version := metadata.version,
      displayName := None,
      compiledAt := None,
      docsUrl := None,
      addonId := None,
      isBranch := false,
      branchName := None,
      lastSeenCommit := None,
      tarballUrl := Some(metadata.tarball),
      stamps := Unstamped)
  }

  /** A row as it reads once related to the addon named `addonName`. */
  function Linked(row: Version, addonName: string): Version {
    row.(addonId := Some(addonName))
  }

  /**
   * An insert of `row` followed by relating it to the addon named `addonName`:
   * exactly one row is added, under a key no row had, and it belongs to the
   * addon; every other row and every other table is unchanged.
   */
  function CreateVersionIn(t: Tables, row: Version, addonName: string): (r: Tables)
    requires WellFormed(t)
    ensures WellFormed(r)
    ensures t.nextVersionId !in t.versions
    ensures r.versions == t.versions[t.nextVersionId := Linked(row, addonName)]
    ensures r.nextVersionId == t.nextVersionId + 1
    ensures r.journal == t.journal + [InsertedVersion(t.nextVersionId), LinkedVersion(t.nextVersionId, addonName)]
    ensures r.(versions := t.versions, nextVersionId := t.nextVersionId, journal := t.journal) == t
  {
    LinkVersionIn(InsertVersionIn(t, row), t.nextVersionId, addonName)
  }

  /** `Version.createBranchVersion(addon, config, branch)`. */
  method CreateBranchVersion(store: Store, addon: Addon, config: Option<BranchConfig>, branch: Branch)
    returns (id: VersionId)
    requires store.Valid()
    modifies store
    ensures store.Valid() && id == old(store.nextVersionId)
    ensures store.Snapshot() == CreateVersionIn(old(store.Snapshot()), BranchVersionRow(config, branch), addon.name)
  {
    id := store.InsertVersion(BranchVersionRow(config, branch));
    store.LinkVersion(id, addon.name);
  }

  /** `Version.createFromVersionMetadata(addon, metadata)`. */
  method CreateFromVersionMetadata(store: Store, addon: Addon, metadata: VersionMetadata)
    returns (id: VersionId)
    requires store.Valid()
    modifies store
    ensures store.Valid() && id == old(store.nextVersionId)
    ensures store.Snapshot() == CreateVersionIn(old(store.Snapshot()), PublishedVersionRow(metadata), addon.name)
  {
    id := store.InsertVersion(PublishedVersionRow(metadata));
    store.LinkVersion(id, addon.name);
  }

  /**
   * Creating rows never touches an existing one: after any number of creates
   * the rows that were there are still there, unchanged, each created row has
   * a key above every old one, and the key counter moved by the number of
   * rows created.
   */
  lemma {:induction false} CreatesKeepExistingRows(t: Tables, rows: seq<Version>, addonName: string)
    requires WellFormed(t)
    ensures CreateAllIn(t, rows, addonName).nextVersionId == t.nextVersionId + |rows|
    ensures forall id | id in t.versions ::
      id in CreateAllIn(t, rows, addonName).versions && CreateAllIn(t, rows, addonName).versions[id] == t.versions[id]
    ensures forall id | id in CreateAllIn(t, rows, addonName).versions && id !in t.versions :: t.nextVersionId <= id
    decreases |rows|
  {
    if rows != [] {
      CreatesKeepExistingRows(CreateVersionIn(t, rows[0], addonName), rows[1..], addonName);
    }
  }

  /** The `k`-th of a run of creates is the `k`-th row, related to the addon, under key `nextVersionId + k`. */
  lemma {:induction false} CreatedRowAt(t: Tables, rows: seq<Version>, addonName: string, k: nat)
    requires WellFormed(t) && k < |rows|
    ensures t.nextVersionId + k in CreateAllIn(t, rows, addonName).versions
    ensures CreateAllIn(t, rows, addonName).versions[t.nextVersionId + k] == Linked(rows[k], addonName)
    decreases k
  {
    var t1 := CreateVersionIn(t, rows[0], addonName);
    var r := CreateAllIn(t1, rows[1..], addonName);
    assert CreateAllIn(t, rows, addonName) == r;
    var id := t.nextVersionId + k;
    if k == 0 {
      assert id in t1.versions && t1.versions[id] == Linked(rows[0], addonName);
      CreatesKeepExistingRows(t1, rows[1..], addonName);
      assert id in r.versions && r.versions[id] == t1.versions[id];
    } else {
      assert rows[1..][k - 1] == rows[k] && t1.nextVersionId + (k - 1) == id;
      CreatedRowAt(t1, rows[1..], addonName, k - 1);
    }
  }

  /** One create after another, in order. */
  function CreateAllIn(t: Tables, rows: seq<Version>, addonName: string): (r: Tables)
    requires WellFormed(t)
    ensures WellFormed(r)
    decreases |rows|
  {
    if rows == [] then t else CreateAllIn(CreateVersionIn(t, rows[0], addonName), rows[1..], addonName)
  }
}
