/**
 * One cycle of the branch poller (`checkNextAddon` in
 * app/services/repository-poller.ts) as a function of the store and the
 * uploaded files: pick the least recently checked addon, delete the tracked
 * branch Versions whose branch is gone, create and build a Version for each
 * new version branch, rebuild the tracked ones whose head commit moved, and
 * schedule the next cycle. A rejected download ends the process (rejections
 * are not handled), keeping the writes made before it.
 */
module PollerCycle {
  import opened Wrappers
  import opened JsonValues
  import opened Records
  import opened Db
  import opened BranchDiff
  import opened PollerDocs
  import VersionModel
  import ApplicationModel

  /** What downloading and extracting a branch's archive gives: its `config/docs.json`, if readable. */
  datatype Archive = Extracted(docsConfig: Option<Json>) | DownloadFailed

  /** The docs the extractor is asked to build, known by what it is given. */
  datatype DocsBuild = DocsBuild(projectName: string, projectVersion: Option<string>, pagesDir: Json, sourceDirs: Json)

  /** One file stored by `files.save(bucket, path, contents)`. */
  datatype Upload = Upload(bucket: string, path: string, docs: DocsBuild)

  datatype PollState = PollState(db: Tables, uploads: seq<Upload>)

  /** When the next cycle runs: after a fixed retry, after the computed interval, or never (the process crashed). */
  datatype Schedule =
    | RetryAfterMs(ms: nat)
    | NextCheckAfter(seconds: Option<real>)
    | Crash

  // ---------------------------------------------------------------------
  // What a step may change
  // ---------------------------------------------------------------------

  /** No addon is added, removed, renamed or given another `compiledAt`. */
  predicate KeepsSchedule(a: seq<Addon>, b: seq<Addon>) {
    |a| == |b| && forall j | 0 <= j < |a| :: a[j].name == b[j].name && a[j].compiledAt == b[j].compiledAt
  }

  /** The alias, cursor and compiled-version tables are untouched. */
  predicate KeepsOtherTables(a: Tables, b: Tables) {
    b.aliases == a.aliases && b.nextAliasId == a.nextAliasId
    && b.registryChanges == a.registryChanges && b.compiledVersions == a.compiledVersions
  }

  /** `b`'s journal continues `a`'s with writes none of which is a deletion. */
  predicate AppendsNoDeletes(a: Tables, b: Tables) {
    |a.journal| <= |b.journal| && b.journal[..|a.journal|] == a.journal
    && forall i | |a.journal| <= i < |b.journal| :: !b.journal[i].DeletedVersion?
  }

  /** Every row of `a` is in `b`, unchanged, unless its key is in `touched`. */
  predicate KeepsRowsOutside(a: map<VersionId, Version>, b: map<VersionId, Version>, touched: set<VersionId>) {
    forall id | id in a :: id in b && (id !in touched ==> b[id] == a[id])
  }

  /** What a rebuild never changes in a Version: whose it is, that it is a branch, its branch and its names. */
  predicate SameBranchRow(a: Version, b: Version) {
    a.addonId == b.addonId && a.isBranch == b.isBranch && a.branchName == b.branchName
    && a.version == b.version && a.displayName == b.displayName
  }

  /** Every row of `a` is still in `b`, as the same branch of the same addon. */
  predicate KeepsIdentities(a: map<VersionId, Version>, b: map<VersionId, Version>) {
    forall id | id in a :: id in b && SameBranchRow(b[id], a[id])
  }

  lemma KeepsIdentitiesTrans(a: map<VersionId, Version>, b: map<VersionId, Version>, c: map<VersionId, Version>)
    requires KeepsIdentities(a, b) && KeepsIdentities(b, c)
    ensures KeepsIdentities(a, c)
  {
  }

  lemma AppendsNoDeletesTrans(a: Tables, b: Tables, c: Tables)
    requires AppendsNoDeletes(a, b) && AppendsNoDeletes(b, c)
    ensures AppendsNoDeletes(a, c)
  {
    assert c.journal[..|a.journal|] == c.journal[..|b.journal|][..|a.journal|];
    forall i | |a.journal| <= i < |c.journal| ensures !c.journal[i].DeletedVersion? {
      if i < |b.journal| {
        assert c.journal[i] == c.journal[..|b.journal|][i];
      }
    }
  }

  /** Two steps that each keep the schedule, the other tables and the rows outside what they touch, keep them together. */
  lemma StepsCompose(a: Tables, b: Tables, c: Tables, t1: set<VersionId>, t2: set<VersionId>)
    requires KeepsSchedule(a.addons, b.addons) && KeepsSchedule(b.addons, c.addons)
    requires KeepsOtherTables(a, b) && KeepsOtherTables(b, c)
    requires KeepsRowsOutside(a.versions, b.versions, t1) && KeepsRowsOutside(b.versions, c.versions, t2)
    requires AppendsNoDeletes(a, b) && AppendsNoDeletes(b, c)
    ensures KeepsSchedule(a.addons, c.addons) && KeepsOtherTables(a, c) && AppendsNoDeletes(a, c)
    ensures KeepsRowsOutside(a.versions, c.versions, t1 + t2)
  {
    AppendsNoDeletesTrans(a, b, c);
  }

  // ---------------------------------------------------------------------
  // Rebuilding one branch Version
  // ---------------------------------------------------------------------

  /** The Version row after its docs are stored (`docsUrl` is what `files.save` resolves to: nothing) and it is rebuilt. */
  function RebuiltRow(row: Version, b: Branch, now: Time): Version {
    row.(docsUrl := None, lastSeenCommit := Some(b.commit.sha), compiledAt := Some(now))
  }

  /**
   * The master branch's configured granularity copied to the addon at `ai`
   * and saved; any other branch leaves the addon alone.
   */
  function CopyGranularityIn(t: Tables, ai: nat, branchName: Option<string>, config: Config, now: Time): (r: Tables)
    requires ai < |t.addons|
    ensures r.(addons := t.addons, journal := t.journal) == t
    ensures KeepsSchedule(t.addons, r.addons) && AppendsNoDeletes(t, r)
    ensures branchName != Some("master") ==> r == t
    ensures branchName == Some("master") && "granularity" in config ==>
      && r.addons[ai].docsVersionGranularity == config["granularity"]
      && r.addons[ai].(docsVersionGranularity := t.addons[ai].docsVersionGranularity, stamps := t.addons[ai].stamps) == t.addons[ai]
      && (forall j | 0 <= j < |t.addons| && j != ai :: r.addons[j] == t.addons[j])
  {
    if branchName == Some("master") && "granularity" in config
    then SaveAddonIn(t, ai, t.addons[ai].(docsVersionGranularity := config["granularity"]), now)
    else t
  }

  /**
   * `saveDocs` storing the (absent) URL on the Version, then the branch's
   * commit and the build time saved on it.
   */
  function RecordBuildIn(t: Tables, id: VersionId, b: Branch, now: Time): (r: Tables)
    requires WellFormed(t) && id in t.versions
    ensures WellFormed(r) && id in r.versions
    ensures r.versions == t.versions[id := r.versions[id]]
    ensures r.versions[id].(stamps := t.versions[id].stamps) == RebuiltRow(t.versions[id], b, now)
    ensures r.journal == t.journal + [UpdatedVersion(id), UpdatedVersion(id)]
    ensures r.(versions := t.versions, journal := t.journal) == t
  {
    var t2 := SaveVersionIn(t, id, t.versions[id].(docsUrl := None), now);
    SaveVersionIn(t2, id, t2.versions[id].(lastSeenCommit := Some(b.commit.sha), compiledAt := Some(now)), now)
  }

  /** The granularity copy followed by the build record touches one row and appends no deletion. */
  lemma RebuildTables(t: Tables, db1: Tables, db2: Tables, id: VersionId)
    requires id in t.versions
    requires db1.(addons := t.addons, journal := t.journal) == t
    requires KeepsSchedule(t.addons, db1.addons) && AppendsNoDeletes(t, db1)
    requires id in db2.versions && db2.versions == db1.versions[id := db2.versions[id]]
    requires db2.journal == db1.journal + [UpdatedVersion(id), UpdatedVersion(id)]
    requires db2.(versions := db1.versions, journal := db1.journal) == db1
    ensures KeepsOtherTables(t, db2) && AppendsNoDeletes(t, db2) && KeepsSchedule(t.addons, db2.addons)
    ensures db2.versions.Keys == t.versions.Keys && db2.nextVersionId == t.nextVersionId
    ensures KeepsRowsOutside(t.versions, db2.versions, {id}) && db2.addons == db1.addons
  {
    assert AppendsNoDeletes(db1, db2);
    AppendsNoDeletesTrans(t, db1, db2);
  }

  /** The docs built from a branch's extracted archive and where they are stored. */
  function DocsUpload(addon: Addon, branchName: Option<string>, config: Config): (u: Upload)
    ensures u.bucket == DocsBucket && u.path == DocsPath(addon.name, branchName)
    ensures u.docs.projectName == addon.name && u.docs.projectVersion == branchName
  {
    var docs := DocsBuild(addon.name, branchName,
                          if "pagesDir" in config then config["pagesDir"] else JNull,
                          if "sourceDirs" in config then config["sourceDirs"] else JNull);
    Upload(DocsBucket, DocsPath(addon.name, branchName), docs)
  }

  /**
   * `updateDocsFromBranch(addon, branchVersion, branch)` for the addon at
   * position `ai` and the Version `id`: download the branch, load its docs
   * configuration, copy the granularity to the addon when the Version's
   * branch is `master`, build and upload the docs, then record the branch's
   * commit and the build time. A failed download leaves everything as it was.
   */
  function RebuildIn(st: PollState, ai: nat, id: VersionId, b: Branch, download: string -> Archive, now: Time)
    : (r: (PollState, bool))
    requires WellFormed(st.db) && ai < |st.db.addons| && id in st.db.versions
    ensures WellFormed(r.0.db) && KeepsOtherTables(st.db, r.0.db) && AppendsNoDeletes(st.db, r.0.db)
    ensures KeepsSchedule(st.db.addons, r.0.db.addons)
    ensures r.0.db.versions.Keys == st.db.versions.Keys && r.0.db.nextVersionId == st.db.nextVersionId
    ensures KeepsRowsOutside(st.db.versions, r.0.db.versions, {id})
    ensures !r.1 ==> r.0 == st
    ensures r.1 ==> r.0.db.versions[id].(stamps := st.db.versions[id].stamps) == RebuiltRow(st.db.versions[id], b, now)
    ensures st.db.versions[id].branchName != Some("master") ==> r.0.db.addons == st.db.addons
  {
    var addon := st.db.addons[ai];
    var row := st.db.versions[id];
    match download(ArchiveUrl(addon.repoSlug, row.branchName))
    case DownloadFailed => (st, false)
    case Extracted(file) =>
      var config := LoadDocsConfig(file);
      var db1 := CopyGranularityIn(st.db, ai, row.branchName, config, now);
      var db2 := RecordBuildIn(db1, id, b, now);
      RebuildTables(st.db, db1, db2, id);
      (PollState(db2, st.uploads + [DocsUpload(addon, row.branchName, config)]), true)
  }

  /**
   * A rebuild of a Version whose branch is `master` copies the branch's
   * configured granularity (`minor` by default) to the addon's
   * `docsVersionGranularity`, and changes no other field of it and no other
   * addon, timestamps aside.
   */
  lemma MasterRebuildCopiesGranularity(st: PollState, ai: nat, id: VersionId, b: Branch, download: string -> Archive, now: Time)
    requires WellFormed(st.db) && ai < |st.db.addons| && id in st.db.versions
    requires st.db.versions[id].branchName == Some("master")
    requires download(ArchiveUrl(st.db.addons[ai].repoSlug, Some("master"))).Extracted?
    ensures var r := RebuildIn(st, ai, id, b, download, now);
      var file := download(ArchiveUrl(st.db.addons[ai].repoSlug, Some("master"))).docsConfig;
      && r.1
      && r.0.db.addons[ai].docsVersionGranularity == LoadDocsConfig(file)["granularity"]
      && r.0.db.addons[ai].(docsVersionGranularity := st.db.addons[ai].docsVersionGranularity,
                            stamps := st.db.addons[ai].stamps) == st.db.addons[ai]
      && (forall j | 0 <= j < |st.db.addons| && j != ai :: r.0.db.addons[j] == st.db.addons[j])
  {
    var file := download(ArchiveUrl(st.db.addons[ai].repoSlug, Some("master"))).docsConfig;
    var db1 := CopyGranularityIn(st.db, ai, Some("master"), LoadDocsConfig(file), now);
    assert RebuildIn(st, ai, id, b, download, now).0.db == RecordBuildIn(db1, id, b, now);
  }

  /**
   * A successful rebuild stores exactly one file: the docs built from the
   * branch, under `<addon>/branch-<branch>/docs.json` in the docs bucket.
   */
  lemma RebuildUploadsOnce(st: PollState, ai: nat, id: VersionId, b: Branch, download: string -> Archive, now: Time)
    requires WellFormed(st.db) && ai < |st.db.addons| && id in st.db.versions
    requires download(ArchiveUrl(st.db.addons[ai].repoSlug, st.db.versions[id].branchName)).Extracted?
    ensures var r := RebuildIn(st, ai, id, b, download, now);
      var file := download(ArchiveUrl(st.db.addons[ai].repoSlug, st.db.versions[id].branchName)).docsConfig;
      && r.1
      && r.0.uploads == st.uploads + [DocsUpload(st.db.addons[ai], st.db.versions[id].branchName, LoadDocsConfig(file))]
      && r.0.uploads[|st.uploads|].bucket == "denali-docs"
      && r.0.uploads[|st.uploads|].path == DocsPath(st.db.addons[ai].name, st.db.versions[id].branchName)
  {
  }

  // ---------------------------------------------------------------------
  // The three loops
  // ---------------------------------------------------------------------

  /** The journal entries of deleting `ids` in order. */
  function DeletionWrites(ids: seq<VersionId>): (w: seq<Write>)
    ensures |w| == |ids| && forall i | 0 <= i < |ids| :: w[i] == DeletedVersion(ids[i])
  {
    if ids == [] then [] else [DeletedVersion(ids[0])] + DeletionWrites(ids[1..])
  }

  /** The rows of `m` whose keys are not in `del`. */
  function Without(m: map<VersionId, Version>, del: seq<VersionId>): map<VersionId, Version> {
    map id | id in m && id !in del :: m[id]
  }

  lemma WithoutStep(m: map<VersionId, Version>, del: seq<VersionId>)
    requires del != []
    ensures Without(m - {del[0]}, del[1..]) == Without(m, del)
  {
    assert forall id :: id in del <==> id == del[0] || id in del[1..] by {
      assert del == [del[0]] + del[1..];
    }
  }

  /** One turn of the delete loop, on the tables the rest of the loop leaves. */
  lemma DeleteStep(t: Tables, del: seq<VersionId>, r: Tables)
    requires del != []
    requires r == t.(versions := Without(t.versions - {del[0]}, del[1..]),
                     journal := (t.journal + [DeletedVersion(del[0])]) + DeletionWrites(del[1..]))
    ensures r == t.(versions := Without(t.versions, del), journal := t.journal + DeletionWrites(del))
  {
    WithoutStep(t.versions, del);
    var later := DeletionWrites(del[1..]);
    assert DeletionWrites(del) == [DeletedVersion(del[0])] + later;
    assert (t.journal + [DeletedVersion(del[0])]) + later == t.journal + ([DeletedVersion(del[0])] + later);
  }

  /** The delete loop: each Version in `del` is deleted, in order. */
  function DeleteBranchesIn(t: Tables, del: seq<VersionId>): (r: Tables)
    requires WellFormed(t)
    ensures WellFormed(r)
    ensures r == t.(versions := Without(t.versions, del), journal := t.journal + DeletionWrites(del))
    decreases |del|
  {
    if del == [] then
      assert Without(t.versions, del) == t.versions;
      t
    else
      var r := DeleteBranchesIn(DeleteVersionIn(t, del[0]), del[1..]);
      DeleteStep(t, del, r);
      r
  }

  /** What the delete loop leaves, key by key. */
  lemma DeletedRows(t: Tables, del: seq<VersionId>, r: Tables)
    requires WellFormed(t) && r == DeleteBranchesIn(t, del)
    ensures forall id :: id in r.versions <==> id in t.versions && id !in del
    ensures forall id | id in r.versions :: r.versions[id] == t.versions[id]
    ensures r.nextVersionId == t.nextVersionId && r.addons == t.addons
  {
  }

  /** Creating the Version of a new branch (`Version.createBranchVersion`, with no branch configuration) and building it. */
  function CreateStepIn(st: PollState, ai: nat, b: Branch, download: string -> Archive, now: Time): (r: (PollState, bool))
    requires WellFormed(st.db) && ai < |st.db.addons|
    ensures WellFormed(r.0.db) && KeepsOtherTables(st.db, r.0.db) && AppendsNoDeletes(st.db, r.0.db)
    ensures KeepsSchedule(st.db.addons, r.0.db.addons)
    ensures r.0.db.versions.Keys == st.db.versions.Keys + {st.db.nextVersionId}
    ensures r.0.db.nextVersionId == st.db.nextVersionId + 1
    ensures KeepsRowsOutside(st.db.versions, r.0.db.versions, {})
    ensures var v := r.0.db.versions[st.db.nextVersionId];
      && IsBranchVersionOf(v, st.db.addons[ai].name) && Tracks(v, b) && v.version == b.name
      && v.lastSeenCommit == Some(b.commit.sha)
      && (r.1 ==> v.compiledAt == Some(now))
      && (!r.1 ==> v.compiledAt.None? && r.0.uploads == st.uploads)
    ensures b.name != "master" ==> r.0.db.addons == st.db.addons
  {
    var addon := st.db.addons[ai];
    var t1 := VersionModel.CreateVersionIn(st.db, VersionModel.BranchVersionRow(None, b), addon.name);
    var st1 := st.(db := t1);
    assert AppendsNoDeletes(st.db, t1);
    var r := RebuildIn(st1, ai, st.db.nextVersionId, b, download, now);
    AppendsNoDeletesTrans(st.db, t1, r.0.db);
    r
  }

  /** The create loop: each new branch in order, stopping at the first failed download. */
  function CreateBranchesIn(st: PollState, ai: nat, bs: seq<Branch>, download: string -> Archive, now: Time)
    : (r: (PollState, bool))
    requires WellFormed(st.db) && ai < |st.db.addons|
    ensures WellFormed(r.0.db) && KeepsOtherTables(st.db, r.0.db) && AppendsNoDeletes(st.db, r.0.db)
    ensures KeepsSchedule(st.db.addons, r.0.db.addons)
    ensures KeepsRowsOutside(st.db.versions, r.0.db.versions, {})
    ensures st.db.nextVersionId <= r.0.db.nextVersionId <= st.db.nextVersionId + |bs|
    ensures r.1 ==> r.0.db.nextVersionId == st.db.nextVersionId + |bs|
    ensures forall id | id in r.0.db.versions && id !in st.db.versions :: st.db.nextVersionId <= id < r.0.db.nextVersionId
    ensures (forall b | b in bs :: b.name != "master") ==> r.0.db.addons == st.db.addons
    decreases |bs|
  {
    if bs == [] then (st, true)
    else
      var s1 := CreateStepIn(st, ai, bs[0], download, now);
      if !s1.1 then s1
      else
        var r := CreateBranchesIn(s1.0, ai, bs[1..], download, now);
        StepsCompose(st.db, s1.0.db, r.0.db, {}, {});
        assert forall b | b in bs[1..] :: b in bs;
        r
  }

  /** A rebuild, done or not, keeps every row's identity. */
  lemma RebuildKeepsIdentities(a: map<VersionId, Version>, c: map<VersionId, Version>, id: VersionId, b: Branch, now: Time, rebuilt: bool)
    requires id in a && c.Keys == a.Keys && KeepsRowsOutside(a, c, {id})
    requires rebuilt ==> c[id].(stamps := a[id].stamps) == RebuiltRow(a[id], b, now)
    requires !rebuilt ==> c == a
    ensures SameBranchRow(c[id], a[id]) && KeepsIdentities(a, c)
  {
  }

  /** `updateBranchVersion`: rebuild only when the tracked commit differs from the branch's head. */
  function UpdateStepIn(st: PollState, ai: nat, b: Branch, id: VersionId, download: string -> Archive, now: Time)
    : (r: (PollState, bool))
    requires WellFormed(st.db) && ai < |st.db.addons| && id in st.db.versions
    ensures WellFormed(r.0.db) && KeepsOtherTables(st.db, r.0.db) && AppendsNoDeletes(st.db, r.0.db)
    ensures KeepsSchedule(st.db.addons, r.0.db.addons)
    ensures r.0.db.versions.Keys == st.db.versions.Keys && r.0.db.nextVersionId == st.db.nextVersionId
    ensures KeepsRowsOutside(st.db.versions, r.0.db.versions, {id})
    ensures SameBranchRow(r.0.db.versions[id], st.db.versions[id])
    ensures KeepsIdentities(st.db.versions, r.0.db.versions)
    ensures st.db.versions[id].lastSeenCommit == Some(b.commit.sha) ==> r == (st, true)
    ensures r.1 ==> r.0.db.versions[id].lastSeenCommit == Some(b.commit.sha)
    ensures r.1 && st.db.versions[id].lastSeenCommit != Some(b.commit.sha) ==> r.0.db.versions[id].compiledAt == Some(now)
    ensures st.db.versions[id].branchName != Some("master") ==> r.0.db.addons == st.db.addons
  {
    if st.db.versions[id].lastSeenCommit != Some(b.commit.sha) then
      var r := RebuildIn(st, ai, id, b, download, now);
      RebuildKeepsIdentities(st.db.versions, r.0.db.versions, id, b, now, r.1);
      r
    else (st, true)
  }

  /** Every branch to update has a tracked Version that is still in the store and still tracks it. */
  predicate UpdatableIn(t: Tables, bs: seq<Branch>, ids: seq<VersionId>, rows: map<VersionId, Version>)
    requires AllIn(ids, rows)
  {
    forall b | b in bs ::
      FindTracking(ids, rows, b).Some? && FindTracking(ids, rows, b).value in t.versions
      && Tracks(t.versions[FindTracking(ids, rows, b).value], b)
  }

  /** The first branch of an updatable rest of a list has its tracked Version in the store. */
  lemma UpdatableHead(t: Tables, bs: seq<Branch>, i: nat, ids: seq<VersionId>, rows: map<VersionId, Version>)
    requires AllIn(ids, rows) && i < |bs| && UpdatableIn(t, bs[i..], ids, rows)
    ensures FindTracking(ids, rows, bs[i]).Some? && FindTracking(ids, rows, bs[i]).value in t.versions
  {
    assert bs[i] in bs[i..];
  }

  /** A step that touches one row and keeps its branch name leaves the rest of the list updatable. */
  lemma UpdatableAfterStep(t: Tables, t': Tables, bs: seq<Branch>, ids: seq<VersionId>, rows: map<VersionId, Version>, id: VersionId)
    requires AllIn(ids, rows) && bs != [] && UpdatableIn(t, bs, ids, rows)
    requires id in t.versions && t'.versions.Keys == t.versions.Keys
    requires KeepsRowsOutside(t.versions, t'.versions, {id})
    requires t'.versions[id].branchName == t.versions[id].branchName
    ensures UpdatableIn(t', bs[1..], ids, rows)
  {
    forall b | b in bs[1..]
      ensures FindTracking(ids, rows, b).value in t'.versions && Tracks(t'.versions[FindTracking(ids, rows, b).value], b)
    {
      assert b in bs;
    }
  }

  /**
   * The update loop: each matched branch in order, against the first tracked
   * Version of its name among the rows read at the start of the cycle.
   */
  function UpdateBranchesIn(st: PollState, ai: nat, bs: seq<Branch>, ids: seq<VersionId>, rows: map<VersionId, Version>,
                            download: string -> Archive, now: Time)
    : (r: (PollState, bool))
    requires WellFormed(st.db) && ai < |st.db.addons| && AllIn(ids, rows) && UpdatableIn(st.db, bs, ids, rows)
    ensures WellFormed(r.0.db) && KeepsOtherTables(st.db, r.0.db) && AppendsNoDeletes(st.db, r.0.db)
    ensures KeepsSchedule(st.db.addons, r.0.db.addons)
    ensures r.0.db.versions.Keys == st.db.versions.Keys && r.0.db.nextVersionId == st.db.nextVersionId
    ensures KeepsRowsOutside(st.db.versions, r.0.db.versions, IdSet(ids))
    ensures KeepsIdentities(st.db.versions, r.0.db.versions)
    ensures (forall b | b in bs :: b.name != "master") ==> r.0.db.addons == st.db.addons
    decreases |bs|
  {
    if bs == [] then (st, true)
    else
      var id := FindTracking(ids, rows, bs[0]).value;
      assert id in IdSet(ids);
      var s1 := UpdateStepIn(st, ai, bs[0], id, download, now);
      if !s1.1 then s1
      else
        UpdatableAfterStep(st.db, s1.0.db, bs, ids, rows, id);
        var r := UpdateBranchesIn(s1.0, ai, bs[1..], ids, rows, download, now);
        UpdatesCompose(st.db, s1.0.db, r.0.db, id, ids);
        assert forall b | b in bs[1..] :: b in bs;
        r
  }

  /** One turn of the update loop: a failed step ends it, a completed one leaves the rest of the list to do. */
  lemma UpdateLoopStep(st: PollState, ai: nat, bs: seq<Branch>, i: nat, ids: seq<VersionId>, rows: map<VersionId, Version>,
                       download: string -> Archive, now: Time, s1: (PollState, bool))
    requires WellFormed(st.db) && ai < |st.db.addons| && AllIn(ids, rows) && i < |bs| && UpdatableIn(st.db, bs[i..], ids, rows)
    requires FindTracking(ids, rows, bs[i]).Some? && FindTracking(ids, rows, bs[i]).value in st.db.versions
    requires s1 == UpdateStepIn(st, ai, bs[i], FindTracking(ids, rows, bs[i]).value, download, now)
    ensures !s1.1 ==> UpdateBranchesIn(st, ai, bs[i..], ids, rows, download, now) == s1
    ensures s1.1 ==> WellFormed(s1.0.db) && ai < |s1.0.db.addons| && UpdatableIn(s1.0.db, bs[i + 1..], ids, rows)
    ensures s1.1 ==> UpdateBranchesIn(st, ai, bs[i..], ids, rows, download, now) == UpdateBranchesIn(s1.0, ai, bs[i + 1..], ids, rows, download, now)
  {
    assert bs[i..][0] == bs[i] && bs[i..][1..] == bs[i + 1..];
    if s1.1 {
      UpdatableAfterStep(st.db, s1.0.db, bs[i..], ids, rows, FindTracking(ids, rows, bs[i]).value);
    }
  }

  /** One update step followed by the rest of the loop keeps what each keeps. */
  lemma UpdatesCompose(a: Tables, b: Tables, c: Tables, id: VersionId, ids: seq<VersionId>)
    requires id in IdSet(ids)
    requires KeepsSchedule(a.addons, b.addons) && KeepsSchedule(b.addons, c.addons)
    requires KeepsOtherTables(a, b) && KeepsOtherTables(b, c)
    requires AppendsNoDeletes(a, b) && AppendsNoDeletes(b, c)
    requires KeepsRowsOutside(a.versions, b.versions, {id}) && KeepsRowsOutside(b.versions, c.versions, IdSet(ids))
    requires KeepsIdentities(a.versions, b.versions) && KeepsIdentities(b.versions, c.versions)
    ensures KeepsSchedule(a.addons, c.addons) && KeepsOtherTables(a, c) && AppendsNoDeletes(a, c)
    ensures KeepsRowsOutside(a.versions, c.versions, IdSet(ids)) && KeepsIdentities(a.versions, c.versions)
  {
    StepsCompose(a, b, c, {id}, IdSet(ids));
    KeepsIdentitiesTrans(a.versions, b.versions, c.versions);
    assert {id} + IdSet(ids) == IdSet(ids);
  }

  // ---------------------------------------------------------------------
  // Choosing the addon, and the whole cycle
  // ---------------------------------------------------------------------

  /** `orderBy('compiled_at')` in PostgreSQL's ascending order: earlier times first, NULL last. */
  predicate NotLater(a: Option<Time>, b: Option<Time>) {
    match (a, b)
    case (None, None) => true
    case (None, Some(_)) => false
    case (Some(_), None) => true
    case (Some(x), Some(y)) => x <= y
  }

  function ArgMinFrom(addons: seq<Addon>, best: nat, i: nat): (r: nat)
    requires best < i <= |addons|
    requires forall j | 0 <= j < i :: NotLater(addons[best].compiledAt, addons[j].compiledAt)
    requires forall j | 0 <= j < best :: !NotLater(addons[j].compiledAt, addons[best].compiledAt)
    ensures r < |addons|
    ensures forall j | 0 <= j < |addons| :: NotLater(addons[r].compiledAt, addons[j].compiledAt)
    ensures forall j | 0 <= j < r :: !NotLater(addons[j].compiledAt, addons[r].compiledAt)
    decreases |addons| - i
  {
    if i == |addons| then best
    else if !NotLater(addons[best].compiledAt, addons[i].compiledAt) then
      EarlierTakesOver(addons, best, i);
      ArgMinFrom(addons, i, i + 1)
    else ArgMinFrom(addons, best, i + 1)
  }

  /** `NotLater` is a total preorder. */
  lemma NotLaterOrder(a: Option<Time>, b: Option<Time>, c: Option<Time>)
    ensures NotLater(a, a)
    ensures NotLater(a, b) || NotLater(b, a)
    ensures NotLater(a, b) && NotLater(b, c) ==> NotLater(a, c)
  {
  }

  /** An addon strictly earlier than the best so far becomes the new best. */
  lemma EarlierTakesOver(addons: seq<Addon>, best: nat, i: nat)
    requires best < i < |addons|
    requires forall j | 0 <= j < i :: NotLater(addons[best].compiledAt, addons[j].compiledAt)
    requires !NotLater(addons[best].compiledAt, addons[i].compiledAt)
    ensures forall j | 0 <= j < i + 1 :: NotLater(addons[i].compiledAt, addons[j].compiledAt)
    ensures forall j | 0 <= j < i :: !NotLater(addons[j].compiledAt, addons[i].compiledAt)
  {
    forall j | 0 <= j < i + 1 ensures NotLater(addons[i].compiledAt, addons[j].compiledAt) {
      NotLaterOrder(addons[i].compiledAt, addons[best].compiledAt, addons[j].compiledAt);
    }
    forall j | 0 <= j < i ensures !NotLater(addons[j].compiledAt, addons[i].compiledAt) {
      NotLaterOrder(addons[best].compiledAt, addons[j].compiledAt, addons[i].compiledAt);
    }
  }

  /**
   * `getLeastRecentlyCheckedAddon()`: the position of an addon no other
   * addon precedes in `compiled_at` order, the first such one; none when
   * there are no addons.
   */
  function LeastRecentlyChecked(addons: seq<Addon>): (r: Option<nat>)
    ensures r.None? <==> addons == []
    ensures r.Some? ==> r.value < |addons|
    ensures r.Some? ==> forall j | 0 <= j < |addons| :: NotLater(addons[r.value].compiledAt, addons[j].compiledAt)
    ensures r.Some? ==> forall j | 0 <= j < r.value :: !NotLater(addons[j].compiledAt, addons[r.value].compiledAt)
  {
    if addons == [] then None else Some(ArgMinFrom(addons, 0, 1))
  }

  /** The choice depends on nothing but the addons' `compiledAt` values. */
  lemma {:induction false} ArgMinKeptWithSchedule(a: seq<Addon>, b: seq<Addon>, best: nat, i: nat)
    requires KeepsSchedule(a, b) && best < i <= |a|
    requires forall j | 0 <= j < i :: NotLater(a[best].compiledAt, a[j].compiledAt)
    requires forall j | 0 <= j < best :: !NotLater(a[j].compiledAt, a[best].compiledAt)
    ensures ArgMinFrom(a, best, i) == ArgMinFrom(b, best, i)
    decreases |a| - i
  {
    if i < |a| {
      if !NotLater(a[best].compiledAt, a[i].compiledAt) {
        ArgMinKeptWithSchedule(a, b, i, i + 1);
      } else {
        ArgMinKeptWithSchedule(a, b, best, i + 1);
      }
    }
  }

  /** The addon's branch Versions, in key order, as `addon.getVersions({ is_branch: true })` reads them. */
  function TrackedIds(t: Tables, ai: nat): (r: seq<VersionId>)
    requires WellFormed(t) && ai < |t.addons|
    ensures forall id :: id in r <==> id in t.versions && IsBranchVersionOf(t.versions[id], t.addons[ai].name)
    ensures AllIn(r, t.versions) && DistinctIds(r)
  {
    BranchVersionIds(t.versions, t.nextVersionId, t.addons[ai].name)
  }

  /**
   * The Versions the cycle deletes: the addon's branch Versions whose branch
   * name is the name of no live version branch.
   */
  function StaleIds(t: Tables, ai: nat, allBranches: seq<Branch>): (r: seq<VersionId>)
    requires WellFormed(t) && ai < |t.addons|
    ensures forall id :: id in r <==>
      id in t.versions && IsBranchVersionOf(t.versions[id], t.addons[ai].name)
      && forall b | b in allBranches && IsVersionBranch(b) :: !Tracks(t.versions[id], b)
  {
    ToDelete(TrackedIds(t, ai), t.versions, VersionBranches(allBranches))
  }

  /** The live branches a cycle creates Versions for: those no tracked Version has the name of. */
  function NewBranches(t: Tables, ai: nat, allBranches: seq<Branch>): (r: seq<Branch>)
    requires WellFormed(t) && ai < |t.addons|
    ensures forall b :: b in r <==> (b in allBranches && IsVersionBranch(b)
      && forall id | id in t.versions && IsBranchVersionOf(t.versions[id], t.addons[ai].name) :: !Tracks(t.versions[id], b))
  {
    ToCreate(VersionBranches(allBranches), TrackedIds(t, ai), t.versions)
  }

  /** The live branches a cycle updates, each against `FindTracking` among the tracked Versions. */
  function MatchedBranches(t: Tables, ai: nat, allBranches: seq<Branch>): (r: seq<Branch>)
    requires WellFormed(t) && ai < |t.addons|
    ensures forall b | b in r :: b in allBranches && IsVersionBranch(b) && FindTracking(TrackedIds(t, ai), t.versions, b).Some?
  {
    ToUpdate(VersionBranches(allBranches), TrackedIds(t, ai), t.versions)
  }

  /**
   * The delete loop, then the create loop. Afterwards the stale Versions are
   * gone, every other Version is still there unchanged, the new ones have
   * fresh keys, and every branch to update still has its tracked Version.
   */
  function CreatePhaseIn(st: PollState, ai: nat, allBranches: seq<Branch>, download: string -> Archive, now: Time)
    : (r: (PollState, bool))
    requires WellFormed(st.db) && ai < |st.db.addons|
    ensures WellFormed(r.0.db) && KeepsOtherTables(st.db, r.0.db) && KeepsSchedule(st.db.addons, r.0.db.addons)
    ensures AppendsNoDeletes(DeleteBranchesIn(st.db, StaleIds(st.db, ai, allBranches)), r.0.db)
    ensures forall id | id in st.db.versions :: id in r.0.db.versions <==> id !in StaleIds(st.db, ai, allBranches)
    ensures forall id | id in st.db.versions && id in r.0.db.versions :: r.0.db.versions[id] == st.db.versions[id]
    ensures forall id | id in r.0.db.versions && id !in st.db.versions :: st.db.nextVersionId <= id < r.0.db.nextVersionId
    ensures st.db.nextVersionId <= r.0.db.nextVersionId
    ensures r.1 ==> r.0.db.nextVersionId == st.db.nextVersionId + |NewBranches(st.db, ai, allBranches)|
    ensures UpdatableIn(r.0.db, MatchedBranches(st.db, ai, allBranches), TrackedIds(st.db, ai), st.db.versions)
    ensures (forall b | b in allBranches && IsVersionBranch(b) :: b.name != "master") ==> r.0.db.addons == st.db.addons
  {
    var ids := TrackedIds(st.db, ai);
    var rows := st.db.versions;
    var st1 := st.(db := DeleteBranchesIn(st.db, StaleIds(st.db, ai, allBranches)));
    DeletedRows(st.db, StaleIds(st.db, ai, allBranches), st1.db);
    var s2 := CreateBranchesIn(st1, ai, NewBranches(st.db, ai, allBranches), download, now);
    assert UpdatableIn(s2.0.db, MatchedBranches(st.db, ai, allBranches), ids, rows) by {
      forall b | b in MatchedBranches(st.db, ai, allBranches)
        ensures FindTracking(ids, rows, b).value in s2.0.db.versions
        ensures Tracks(s2.0.db.versions[FindTracking(ids, rows, b).value], b)
      {
        var id := FindTracking(ids, rows, b).value;
        assert id !in StaleIds(st.db, ai, allBranches);
        assert s2.0.db.versions[id] == rows[id];
      }
    }
    s2
  }

  /** The delete, create and update loops of one cycle over the addon at `ai`. */
  function CycleIn(st: PollState, ai: nat, allBranches: seq<Branch>, download: string -> Archive, now: Time)
    : (r: (PollState, bool))
    requires WellFormed(st.db) && ai < |st.db.addons|
    ensures WellFormed(r.0.db) && KeepsOtherTables(st.db, r.0.db) && KeepsSchedule(st.db.addons, r.0.db.addons)
  {
    var s2 := CreatePhaseIn(st, ai, allBranches, download, now);
    if !s2.1 then s2
    else UpdateBranchesIn(s2.0, ai, MatchedBranches(st.db, ai, allBranches), TrackedIds(st.db, ai), st.db.versions, download, now)
  }

  // ---------------------------------------------------------------------
  // What one cycle does
  // ---------------------------------------------------------------------

  /**
   * A cycle, completed or not, deletes exactly the stale Versions: every
   * other Version is still there, one that is not a branch Version of the
   * addon is unchanged, and every Version it adds has a key never used before.
   */
  lemma CycleDeletesExactlyStale(st: PollState, ai: nat, allBranches: seq<Branch>, download: string -> Archive, now: Time)
    requires WellFormed(st.db) && ai < |st.db.addons|
    ensures var r := CycleIn(st, ai, allBranches, download, now).0.db;
      && (forall id | id in st.db.versions :: id in r.versions <==> id !in StaleIds(st.db, ai, allBranches))
      && (forall id | id in st.db.versions && !IsBranchVersionOf(st.db.versions[id], st.db.addons[ai].name) ::
            r.versions[id] == st.db.versions[id])
      && (forall id | id in r.versions && id !in st.db.versions :: st.db.nextVersionId <= id)
  {
    var s2 := CreatePhaseIn(st, ai, allBranches, download, now);
    var ids := TrackedIds(st.db, ai);
    forall id | id in st.db.versions && !IsBranchVersionOf(st.db.versions[id], st.db.addons[ai].name)
      ensures id !in IdSet(ids)
    {
    }
  }

  /** `journal` starts with `before`, then `deletions`, and holds no deletion after them. */
  predicate DeletionsFirst(before: seq<Write>, deletions: seq<Write>, journal: seq<Write>) {
    && |before| + |deletions| <= |journal|
    && journal[..|before| + |deletions|] == before + deletions
    && forall i | |before| + |deletions| <= i < |journal| :: !journal[i].DeletedVersion?
  }

  /**
   * All deletions come first, in the order the tracked Versions were read,
   * and nothing later in the cycle deletes.
   */
  lemma CycleDeletesFirst(st: PollState, ai: nat, allBranches: seq<Branch>, download: string -> Archive, now: Time)
    requires WellFormed(st.db) && ai < |st.db.addons|
    ensures DeletionsFirst(st.db.journal, DeletionWrites(StaleIds(st.db, ai, allBranches)), CycleIn(st, ai, allBranches, download, now).0.db.journal)
  {
    var stale := StaleIds(st.db, ai, allBranches);
    CycleAppendsAfterDeletes(st, ai, allBranches, download, now);
    JournalAfterDeletes(st.db.journal, DeletionWrites(stale), DeleteBranchesIn(st.db, stale), CycleIn(st, ai, allBranches, download, now).0.db);
  }

  /** After the deletions, the rest of a cycle only appends writes that are not deletions. */
  lemma CycleAppendsAfterDeletes(st: PollState, ai: nat, allBranches: seq<Branch>, download: string -> Archive, now: Time)
    requires WellFormed(st.db) && ai < |st.db.addons|
    ensures AppendsNoDeletes(DeleteBranchesIn(st.db, StaleIds(st.db, ai, allBranches)), CycleIn(st, ai, allBranches, download, now).0.db)
  {
    var s2 := CreatePhaseIn(st, ai, allBranches, download, now);
    var t1 := DeleteBranchesIn(st.db, StaleIds(st.db, ai, allBranches));
    if s2.1 {
      var u := UpdateBranchesIn(s2.0, ai, MatchedBranches(st.db, ai, allBranches), TrackedIds(st.db, ai), st.db.versions, download, now);
      AppendsNoDeletesTrans(t1, s2.0.db, u.0.db);
    }
  }

  /** A journal that extends `t1`'s without deletions starts with the writes `t1`'s journal is made of. */
  lemma JournalAfterDeletes(before: seq<Write>, deletions: seq<Write>, t1: Tables, r: Tables)
    requires t1.journal == before + deletions && AppendsNoDeletes(t1, r)
    ensures DeletionsFirst(before, deletions, r.journal)
  {
  }

  /** Without a live `master` branch a cycle leaves every addon as it was. */
  lemma CycleWithoutMasterKeepsAddons(st: PollState, ai: nat, allBranches: seq<Branch>, download: string -> Archive, now: Time)
    requires WellFormed(st.db) && ai < |st.db.addons|
    requires forall b | b in allBranches && IsVersionBranch(b) :: b.name != "master"
    ensures CycleIn(st, ai, allBranches, download, now).0.db.addons == st.db.addons
  {
  }

  /** The update loop writes no Version but the ones its branches are matched with. */
  lemma {:induction false} UpdateTouchesOnlyMatched(st: PollState, ai: nat, bs: seq<Branch>, ids: seq<VersionId>,
      rows: map<VersionId, Version>, download: string -> Archive, now: Time, id: VersionId)
    requires WellFormed(st.db) && ai < |st.db.addons| && AllIn(ids, rows) && UpdatableIn(st.db, bs, ids, rows)
    requires id in st.db.versions && forall b | b in bs :: FindTracking(ids, rows, b) != Some(id)
    ensures UpdateBranchesIn(st, ai, bs, ids, rows, download, now).0.db.versions[id] == st.db.versions[id]
    decreases |bs|
  {
    if bs != [] {
      var id0 := FindTracking(ids, rows, bs[0]).value;
      assert bs[0] in bs;
      var s1 := UpdateStepIn(st, ai, bs[0], id0, download, now);
      if s1.1 {
        UpdatableAfterStep(st.db, s1.0.db, bs, ids, rows, id0);
        assert forall b | b in bs[1..] :: b in bs;
        UpdateTouchesOnlyMatched(s1.0, ai, bs[1..], ids, rows, download, now, id);
      }
    }
  }

  /**
   * After a completed update loop over branches with distinct names, the
   * Version matched with each branch records that branch's head commit.
   */
  lemma {:induction false} UpdateRecordsCommits(st: PollState, ai: nat, bs: seq<Branch>, ids: seq<VersionId>,
      rows: map<VersionId, Version>, download: string -> Archive, now: Time)
    requires WellFormed(st.db) && ai < |st.db.addons| && AllIn(ids, rows) && UpdatableIn(st.db, bs, ids, rows)
    requires DistinctNames(bs) && UpdateBranchesIn(st, ai, bs, ids, rows, download, now).1
    ensures var r := UpdateBranchesIn(st, ai, bs, ids, rows, download, now).0.db;
      forall b | b in bs :: r.versions[FindTracking(ids, rows, b).value].lastSeenCommit == Some(b.commit.sha)
    decreases |bs|
  {
    if bs != [] {
      var id0 := FindTracking(ids, rows, bs[0]).value;
      assert bs[0] in bs;
      var s1 := UpdateStepIn(st, ai, bs[0], id0, download, now);
      var rest := bs[1..];
      assert s1.1;
      UpdatableAfterStep(st.db, s1.0.db, bs, ids, rows, id0);
      var r := UpdateBranchesIn(s1.0, ai, rest, ids, rows, download, now).0.db;
      assert r == UpdateBranchesIn(st, ai, bs, ids, rows, download, now).0.db;
      DistinctTail(bs, ids, rows);
      UpdateRecordsCommits(s1.0, ai, rest, ids, rows, download, now);
      UpdateTouchesOnlyMatched(s1.0, ai, rest, ids, rows, download, now, id0);
      assert r.versions[id0].lastSeenCommit == Some(bs[0].commit.sha);
      forall b | b in bs ensures r.versions[FindTracking(ids, rows, b).value].lastSeenCommit == Some(b.commit.sha) {
        if b != bs[0] {
          assert b in rest;
        }
      }
    }
  }

  /** With distinct names, the branches after the first keep distinct names and are never matched with the first one's Version. */
  lemma DistinctTail(bs: seq<Branch>, ids: seq<VersionId>, rows: map<VersionId, Version>)
    requires AllIn(ids, rows) && bs != [] && DistinctNames(bs) && FindTracking(ids, rows, bs[0]).Some?
    ensures DistinctNames(bs[1..])
    ensures forall b | b in bs[1..] :: FindTracking(ids, rows, b) != FindTracking(ids, rows, bs[0])
  {
    var rest := bs[1..];
    forall i, j | 0 <= i < j < |rest| ensures rest[i].name != rest[j].name {
      assert rest[i] == bs[i + 1] && rest[j] == bs[j + 1];
    }
    forall b | b in rest ensures FindTracking(ids, rows, b) != FindTracking(ids, rows, bs[0]) {
      var k :| 0 <= k < |rest| && rest[k] == b;
      assert bs[k + 1] == b;
    }
  }

  /** A Version of the addon that tracks the branch and records its head commit. */
  predicate Synced(v: Version, addonName: string, b: Branch) {
    IsBranchVersionOf(v, addonName) && Tracks(v, b) && v.lastSeenCommit == Some(b.commit.sha)
  }

  /** After a completed create loop, each branch has a new Version synced with it. */
  lemma {:induction false} CreatedRowsCoverBranches(st: PollState, ai: nat, bs: seq<Branch>, download: string -> Archive, now: Time)
    requires WellFormed(st.db) && ai < |st.db.addons| && CreateBranchesIn(st, ai, bs, download, now).1
    ensures var r := CreateBranchesIn(st, ai, bs, download, now).0.db;
      forall b | b in bs :: exists id | id in r.versions && id !in st.db.versions :: Synced(r.versions[id], st.db.addons[ai].name, b)
    decreases |bs|
  {
    if bs != [] {
      var name := st.db.addons[ai].name;
      var s1 := CreateStepIn(st, ai, bs[0], download, now);
      var r := CreateBranchesIn(s1.0, ai, bs[1..], download, now).0.db;
      CreatedRowsCoverBranches(s1.0, ai, bs[1..], download, now);
      assert s1.0.db.addons[ai].name == name;
      assert Synced(r.versions[st.db.nextVersionId], name, bs[0]);
      forall b | b in bs ensures exists id | id in r.versions && id !in st.db.versions :: Synced(r.versions[id], name, b) {
        if b != bs[0] {
          assert b in bs[1..];
        }
      }
    }
  }

  /**
   * After a create loop, completed or not, each new Version is a branch
   * Version of the addon tracking one of the branches, at its head commit.
   */
  lemma {:induction false} CreatedRowsAreSynced(st: PollState, ai: nat, bs: seq<Branch>, download: string -> Archive, now: Time)
    requires WellFormed(st.db) && ai < |st.db.addons|
    ensures var r := CreateBranchesIn(st, ai, bs, download, now).0.db;
      forall id | id in r.versions && id !in st.db.versions :: exists b | b in bs :: Synced(r.versions[id], st.db.addons[ai].name, b)
    decreases |bs|
  {
    if bs != [] {
      var name := st.db.addons[ai].name;
      var s1 := CreateStepIn(st, ai, bs[0], download, now);
      assert s1.0.db.addons[ai].name == name;
      assert bs[0] in bs;
      var whole := CreateBranchesIn(st, ai, bs, download, now).0.db;
      if !s1.1 {
        FailedCreateAddsOneRow(st, ai, bs, download, now);
      } else {
        assert whole == CreateBranchesIn(s1.0, ai, bs[1..], download, now).0.db;
        CreatedRowsAreSynced(s1.0, ai, bs[1..], download, now);
        var first := st.db.nextVersionId;
        assert Synced(s1.0.db.versions[first], name, bs[0]);
        assert KeepsRowsOutside(s1.0.db.versions, whole.versions, {});
        forall id | id in whole.versions && id !in st.db.versions ensures exists b | b in bs :: Synced(whole.versions[id], name, b) {
          if id in s1.0.db.versions {
            assert id == first && whole.versions[id] == s1.0.db.versions[first];
          } else {
            var b :| b in bs[1..] && Synced(whole.versions[id], name, b);
            assert b in bs;
          }
        }
      }
    }
  }

  /** A create loop whose first download fails adds only the first branch's Version, synced with it. */
  lemma FailedCreateAddsOneRow(st: PollState, ai: nat, bs: seq<Branch>, download: string -> Archive, now: Time)
    requires WellFormed(st.db) && ai < |st.db.addons| && bs != [] && !CreateStepIn(st, ai, bs[0], download, now).1
    ensures var r := CreateBranchesIn(st, ai, bs, download, now).0.db;
      forall id | id in r.versions && id !in st.db.versions :: id == st.db.nextVersionId && Synced(r.versions[id], st.db.addons[ai].name, bs[0])
  {
  }

  /**
   * A branch whose first build fails keeps a Version that already records
   * its head commit but was never built; while that commit stays the same,
   * later updates skip it, so it is not built again.
   */
  lemma FailedBuildIsNotRetried(st: PollState, ai: nat, b: Branch, download: string -> Archive, now: Time,
                                laterDownload: string -> Archive, later: Time)
    requires WellFormed(st.db) && ai < |st.db.addons| && !CreateStepIn(st, ai, b, download, now).1
    ensures var s := CreateStepIn(st, ai, b, download, now).0;
      && s.db.versions[st.db.nextVersionId].compiledAt.None?
      && s.uploads == st.uploads
      && UpdateStepIn(s, ai, b, st.db.nextVersionId, laterDownload, later) == (s, true)
  {
  }

  /**
   * After a completed cycle over live branches with distinct names, every
   * live version branch has a branch Version of the addon that tracks it and
   * records its head commit: created if it was new, rebuilt if its commit moved.
   */
  lemma CycleSyncsEveryBranch(st: PollState, ai: nat, allBranches: seq<Branch>, download: string -> Archive, now: Time)
    requires WellFormed(st.db) && ai < |st.db.addons|
    requires DistinctNames(VersionBranches(allBranches)) && CycleIn(st, ai, allBranches, download, now).1
    ensures var r := CycleIn(st, ai, allBranches, download, now).0.db;
      forall b | b in allBranches && IsVersionBranch(b) ::
        exists id | id in r.versions :: Synced(r.versions[id], st.db.addons[ai].name, b)
  {
    var name := st.db.addons[ai].name;
    var branches := VersionBranches(allBranches);
    var ids := TrackedIds(st.db, ai);
    var rows := st.db.versions;
    var st1 := st.(db := DeleteBranchesIn(st.db, StaleIds(st.db, ai, allBranches)));
    DeletedRows(st.db, StaleIds(st.db, ai, allBranches), st1.db);
    var s2 := CreatePhaseIn(st, ai, allBranches, download, now);
    assert s2 == CreateBranchesIn(st1, ai, NewBranches(st.db, ai, allBranches), download, now);
    var u := MatchedBranches(st.db, ai, allBranches);
    var r := UpdateBranchesIn(s2.0, ai, u, ids, rows, download, now).0.db;
    EachBranchHandledOnce(branches, ids, rows);
    CapNeverBinds(branches, ids, rows);
    MatchingKeepsNamesDistinct(branches, ids, rows);
    UpdateRecordsCommits(s2.0, ai, u, ids, rows, download, now);
    CreatedRowsCoverBranches(st1, ai, NewBranches(st.db, ai, allBranches), download, now);
    forall b | b in allBranches && IsVersionBranch(b) ensures exists id | id in r.versions :: Synced(r.versions[id], name, b) {
      assert b in branches;
      if b in NewBranches(st.db, ai, allBranches) {
        var id :| id in s2.0.db.versions && id !in st1.db.versions && Synced(s2.0.db.versions[id], name, b);
        assert id !in IdSet(ids);
        assert r.versions[id] == s2.0.db.versions[id];
      } else {
        assert b in u;
        var id := FindTracking(ids, rows, b).value;
        assert id !in StaleIds(st.db, ai, allBranches);
        assert s2.0.db.versions[id] == rows[id];
        assert Synced(r.versions[id], name, b);
      }
    }
  }

  /**
   * After any cycle, completed or not, every branch Version of the addon
   * tracks a live version branch: stale ones were deleted and new ones were
   * created for live branches.
   */
  lemma CycleLeavesNoStrayBranchVersion(st: PollState, ai: nat, allBranches: seq<Branch>, download: string -> Archive, now: Time)
    requires WellFormed(st.db) && ai < |st.db.addons|
    ensures var r := CycleIn(st, ai, allBranches, download, now).0.db;
      forall id | id in r.versions && IsBranchVersionOf(r.versions[id], st.db.addons[ai].name) ::
        exists b | b in allBranches && IsVersionBranch(b) :: Tracks(r.versions[id], b)
  {
    var name := st.db.addons[ai].name;
    var ids := TrackedIds(st.db, ai);
    var rows := st.db.versions;
    var st1 := st.(db := DeleteBranchesIn(st.db, StaleIds(st.db, ai, allBranches)));
    DeletedRows(st.db, StaleIds(st.db, ai, allBranches), st1.db);
    var s2 := CreatePhaseIn(st, ai, allBranches, download, now);
    assert s2 == CreateBranchesIn(st1, ai, NewBranches(st.db, ai, allBranches), download, now);
    var r := CycleIn(st, ai, allBranches, download, now).0.db;
    assert KeepsIdentities(s2.0.db.versions, r.versions);
    CreatedRowsAreSynced(st1, ai, NewBranches(st.db, ai, allBranches), download, now);
    forall id | id in r.versions && IsBranchVersionOf(r.versions[id], name)
      ensures exists b | b in allBranches && IsVersionBranch(b) :: Tracks(r.versions[id], b)
    {
      if id in st.db.versions {
        assert id !in StaleIds(st.db, ai, allBranches);
        assert SameBranchRow(r.versions[id], rows[id]);
      } else {
        assert id in s2.0.db.versions && id !in st1.db.versions;
        var b :| b in NewBranches(st.db, ai, allBranches) && Synced(s2.0.db.versions[id], name, b);
        assert SameBranchRow(r.versions[id], s2.0.db.versions[id]);
      }
    }
  }

  /**
   * `checkNextAddon()`: with no addon, retry in a second and touch nothing.
   * Otherwise run the cycle over the least recently checked addon, given its
   * GitHub branch list (`None` when the request or its JSON fails), and then
   * schedule the next cycle from the rate limit (`None` when that request
   * fails). Any failure ends the process.
   */
  function CheckNextAddonIn(st: PollState, allBranches: Option<seq<Branch>>, download: string -> Archive,
                            rate: Option<RateLimit>, now: Time, nowSeconds: int)
    : (r: (PollState, Schedule))
    requires WellFormed(st.db)
    ensures WellFormed(r.0.db) && KeepsSchedule(st.db.addons, r.0.db.addons)
    ensures st.db.addons == [] ==> r == (st, RetryAfterMs(1000))
    ensures r.1.RetryAfterMs? ==> r.0 == st && r.1.ms == 1000
    ensures st.db.addons != [] && allBranches.None? ==> r == (st, Crash)
    ensures st.db.addons != [] && allBranches.Some? ==>
              var c := CycleIn(st, LeastRecentlyChecked(st.db.addons).value, allBranches.value, download, now);
              && r.0 == c.0
              && r.1 == (if c.1 && rate.Some? then NextCheckAfter(SafeInterval(rate.value, nowSeconds)) else Crash)
  {
    match LeastRecentlyChecked(st.db.addons)
    case None => (st, RetryAfterMs(1000))
    case Some(ai) =>
      match allBranches
      case None => (st, Crash)
      case Some(all) =>
        var c := CycleIn(st, ai, all, download, now);
        if !c.1 then (c.0, Crash)
        else match rate
          case None => (c.0, Crash)
          case Some(limits) => (c.0, NextCheckAfter(SafeInterval(limits, nowSeconds)))
  }

  /**
   * The addon is never rotated: a cycle changes no addon's `compiledAt`, so
   * the next cycle picks the same addon again.
   */
  lemma SameAddonNextTime(st: PollState, allBranches: Option<seq<Branch>>, download: string -> Archive,
                          rate: Option<RateLimit>, now: Time, nowSeconds: int)
    requires WellFormed(st.db)
    ensures LeastRecentlyChecked(CheckNextAddonIn(st, allBranches, download, rate, now, nowSeconds).0.db.addons)
            == LeastRecentlyChecked(st.db.addons)
  {
    var r := CheckNextAddonIn(st, allBranches, download, rate, now, nowSeconds).0;
    ScheduleDeterminesChoice(st.db.addons, r.db.addons);
  }

  /** Addons with the same `compiledAt` values in the same order give the same choice. */
  lemma ScheduleDeterminesChoice(a: seq<Addon>, b: seq<Addon>)
    requires KeepsSchedule(a, b)
    ensures LeastRecentlyChecked(a) == LeastRecentlyChecked(b)
  {
    if a != [] {
      ArgMinKeptWithSchedule(a, b, 0, 1);
    }
  }
}
