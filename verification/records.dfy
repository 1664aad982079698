/**
 * The rows of the store (addons, versions, version aliases, registry
 * changes, compiled versions) and the documents the core receives from the
 * package registry and from GitHub.
 */
module Records {
  import opened Wrappers
  import opened JsonValues

  /** A `new Date()` reading. */
  type Time = int
  type VersionId = nat
  type AliasId = nat

  /** The `createdAt` / `updatedAt` columns every model inherits. */
  datatype Stamps = Stamps(createdAt: Option<Time>, updatedAt: Option<Time>)

  const Unstamped := Stamps(None, None)

  /**
   * A row of `addons`, keyed by `name`. The three `docs…` attributes hold
   * whatever the docs configuration carried (`JNull` for SQL NULL).
   * `docsVersionGranularity` is the attribute the poller assigns; the
   * configuration refresh assigns `docsGranularity`. `compiledAt` is the
   * column the poller orders addons by.
   */
  datatype Addon = Addon(
    name: string,
    description: Option<string>,
    repoSlug: Option<string>,
    docsGranularity: Json,
    docsVersionGranularity: Json,
    docsVersionStrategy: Json,
    docsSemverBranches: Json,
    compiledAt: Option<Time>,
    stamps: Stamps)

  /** A row of `versions`: a published version, or a tracked branch when `isBranch`. */
  datatype Version = Version(
    version: string,
    displayName: Option<string>,
    compiledAt: Option<Time>,
    docsUrl: Option<string>,
    addonId: Option<string>,
    isBranch: bool,
    branchName: Option<string>,
    lastSeenCommit: Option<string>,
    tarballUrl: Option<string>,
    stamps: Stamps)

  /** A row of `version_aliases`. */
  datatype VersionAlias = VersionAlias(
    alias: string,
    versionId: Option<VersionId>,
    addonId: Option<string>,
    stamps: Stamps)

  /** A row of `registry_changes`; `last_handled_sequence` is a text column. */
  datatype RegistryChange = RegistryChange(lastHandledSequence: Option<string>, stamps: Stamps)

  /** A row of `compiled_versions`. */
  datatype CompiledVersion = CompiledVersion(name: string, version: string)

  /** A branch as GitHub's branch list reports it. */
  datatype Commit = Commit(sha: string, url: string)
  datatype Branch = Branch(name: string, commit: Commit)

  /** An entry of a docs configuration's `branches` list. */
  datatype BranchConfig = BranchConfig(branchName: Option<string>, displayName: Option<string>)

  /** The `repository` field of a version's package.json: a string or a `{type, url}` object. */
  datatype Repository =
    | RepoText(text: string)
    | RepoObject(kind: Option<string>, url: string)

  /** One published version of a package, as the registry reports it. */
  datatype VersionMetadata = VersionMetadata(
    name: string,
    version: string,
    keywords: seq<string>,
    tarball: string,
    repository: Option<Repository>)

  /** One key of a package's `versions` object, in the object's key order. */
  datatype VersionEntry = VersionEntry(key: string, metadata: VersionMetadata)

  /** A package document from the registry. */
  datatype PackageMetadata = PackageMetadata(
    name: string,
    description: Option<string>,
    distTags: map<string, string>,
    versions: seq<VersionEntry>)

  /** `Object.keys(pkg.versions)`. */
  function Keys(entries: seq<VersionEntry>): (keys: seq<string>)
    ensures |keys| == |entries|
    ensures forall i | 0 <= i < |entries| :: keys[i] == entries[i].key
  {
    if entries == [] then [] else [entries[0].key] + Keys(entries[1..])
  }

  /** `pkg.versions[key]`: the entry with that key, or `undefined`. */
  function Lookup(entries: seq<VersionEntry>, key: string): (r: Option<VersionMetadata>)
    ensures r.Some? <==> key in Keys(entries)
    ensures r.Some? ==> exists i | 0 <= i < |entries| :: entries[i] == VersionEntry(key, r.value)
  {
    if entries == [] then None
    else if entries[0].key == key then Some(entries[0].metadata)
    else
      var r := Lookup(entries[1..], key);
      assert Keys(entries) == [entries[0].key] + Keys(entries[1..]);
      r
  }

  /** A parsed JSON object has no repeated key. */
  predicate DistinctKeys(entries: seq<VersionEntry>) {
    forall i, j | 0 <= i < j < |entries| :: entries[i].key != entries[j].key
  }

  /** With distinct keys, looking up an entry's key gives that entry's metadata. */
  lemma {:induction false} LookupFindsEntry(entries: seq<VersionEntry>, i: nat)
    requires DistinctKeys(entries) && i < |entries|
    ensures Lookup(entries, entries[i].key) == Some(entries[i].metadata)
  {
    if i > 0 {
      assert entries[0].key != entries[i].key;
      assert entries[1..][i - 1] == entries[i];
      LookupFindsEntry(entries[1..], i - 1);
    }
  }
}
