/**
 * The branch poller as the service runs it (app/services/repository-poller.ts):
 * a `RepositoryPoller` over the store and the file store, whose methods
 * write rows and files step by step. Each method is proved to end in the
 * state the cycle functions of `PollerCycle` describe, so what is proved
 * about those functions holds of the service.
 */
module RepositoryPollerService {
  import opened Wrappers
  import opened Records
  import opened Db
  import opened BranchDiff
  import opened PollerDocs
  import opened PollerCycle
  import VersionModel

  /** The file store (`files.save(bucket, path, contents)`), as the list of files it was given. */
  class FileStore {
    var uploads: seq<Upload>

    constructor ()
      ensures uploads == []
    {
      uploads := [];
    }

    /** Stores one file; resolves to nothing. */
    method Save(bucket: string, path: string, docs: DocsBuild)
      modifies this
      ensures uploads == old(uploads) + [Upload(bucket, path, docs)]
    {
      uploads := uploads + [Upload(bucket, path, docs)];
    }
  }

  class RepositoryPoller {
    const store: Store
    const files: FileStore

    constructor (store: Store, files: FileStore)
      ensures this.store == store && this.files == files
    {
      this.store := store;
      this.files := files;
    }

    /** The rows and files the poller works on. */
    ghost function State(): PollState
      reads store, files
    {
      PollState(store.Snapshot(), files.uploads)
    }

    /** `updateDocsFromBranch(addon, branchVersion, branch)` for the addon at `ai` and the Version `id`. */
    method UpdateDocsFromBranch(ai: nat, id: VersionId, b: Branch, download: string -> Archive, now: Time)
      returns (ok: bool)
      requires store.Valid() && ai < |store.addons| && id in store.versions
      modifies store, files
      ensures store.Valid()
      ensures (State(), ok) == RebuildIn(old(State()), ai, id, b, download, now)
    {
      var addon := store.addons[ai];
      var row := store.versions[id];
      var archive := download(ArchiveUrl(addon.repoSlug, row.branchName));
      if archive.DownloadFailed? {
        return false;
      }
      var config := LoadDocsConfig(archive.docsConfig);
      if row.branchName == Some("master") && "granularity" in config {
        store.SaveAddon(ai, addon.(docsVersionGranularity := config["granularity"]), now);
      }
      var upload := DocsUpload(addon, row.branchName, config);
      files.Save(upload.bucket, upload.path, upload.docs);
      store.SaveVersion(id, store.versions[id].(docsUrl := None), now);
      store.SaveVersion(id, store.versions[id].(lastSeenCommit := Some(b.commit.sha), compiledAt := Some(now)), now);
      ok := true;
    }

    /** The delete loop of `checkNextAddon`: `branchVersion.delete()` for each Version in `del`, in order. */
    method DeleteBranchVersions(del: seq<VersionId>)
      requires store.Valid()
      modifies store
      ensures store.Valid() && store.Snapshot() == DeleteBranchesIn(old(store.Snapshot()), del)
    {
      for i := 0 to |del|
        invariant store.Valid()
        invariant DeleteBranchesIn(old(store.Snapshot()), del) == DeleteBranchesIn(store.Snapshot(), del[i..])
      {
        assert del[i..][1..] == del[i + 1..];
        store.DeleteVersion(del[i]);
      }
    }

    /** `createBranchVersion(addon, branch)`: a new tracked Version, then its build. */
    method CreateBranchVersion(ai: nat, b: Branch, download: string -> Archive, now: Time) returns (ok: bool)
      requires store.Valid() && ai < |store.addons|
      modifies store, files
      ensures store.Valid()
      ensures (State(), ok) == CreateStepIn(old(State()), ai, b, download, now)
    {
      var id := VersionModel.CreateBranchVersion(store, store.addons[ai], None, b);
      ok := UpdateDocsFromBranch(ai, id, b, download, now);
    }

    /** The create loop of `checkNextAddon`; a failed build ends it. */
    method CreateBranchVersions(ai: nat, bs: seq<Branch>, download: string -> Archive, now: Time) returns (ok: bool)
      requires store.Valid() && ai < |store.addons|
      modifies store, files
      ensures store.Valid()
      ensures (State(), ok) == CreateBranchesIn(old(State()), ai, bs, download, now)
    {
      for i := 0 to |bs|
        invariant store.Valid() && ai < |store.addons|
        invariant CreateBranchesIn(old(State()), ai, bs, download, now) == CreateBranchesIn(State(), ai, bs[i..], download, now)
      {
        assert bs[i..][1..] == bs[i + 1..];
        ok := CreateBranchVersion(ai, bs[i], download, now);
        if !ok {
          return;
        }
      }
      ok := true;
    }

    /** `updateBranchVersion(addon, branchVersion, branch)`: a build only when the branch moved on. */
    method UpdateBranchVersion(ai: nat, id: VersionId, b: Branch, download: string -> Archive, now: Time) returns (ok: bool)
      requires store.Valid() && ai < |store.addons| && id in store.versions
      modifies store, files
      ensures store.Valid()
      ensures (State(), ok) == UpdateStepIn(old(State()), ai, b, id, download, now)
    {
      if store.versions[id].lastSeenCommit != Some(b.commit.sha) {
        ok := UpdateDocsFromBranch(ai, id, b, download, now);
      } else {
        ok := true;
      }
    }

    /** The update loop of `checkNextAddon`, each branch against its tracked Version among the rows read first. */
    method UpdateBranchVersions(ai: nat, bs: seq<Branch>, ids: seq<VersionId>, rows: map<VersionId, Version>,
                                download: string -> Archive, now: Time)
      returns (ok: bool)
      requires store.Valid() && ai < |store.addons| && AllIn(ids, rows) && UpdatableIn(store.Snapshot(), bs, ids, rows)
      modifies store, files
      ensures store.Valid()
      ensures (State(), ok) == UpdateBranchesIn(old(State()), ai, bs, ids, rows, download, now)
    {
      for i := 0 to |bs|
        invariant store.Valid() && ai < |store.addons| && UpdatableIn(store.Snapshot(), bs[i..], ids, rows)
        invariant UpdateBranchesIn(old(State()), ai, bs, ids, rows, download, now)
                  == UpdateBranchesIn(State(), ai, bs[i..], ids, rows, download, now)
      {
        UpdatableHead(store.Snapshot(), bs, i, ids, rows);
        var id := FindTracking(ids, rows, bs[i]).value;
        ghost var before := State();
        ok := UpdateBranchVersion(ai, id, bs[i], download, now);
        UpdateLoopStep(before, ai, bs, i, ids, rows, download, now, (State(), ok));
        if !ok {
          return;
        }
      }
      ok := true;
    }

    /** The delete, create and update loops of `checkNextAddon` over the addon at `ai`, given GitHub's branch list. */
    method SyncBranches(ai: nat, allBranches: seq<Branch>, download: string -> Archive, now: Time) returns (ok: bool)
      requires store.Valid() && ai < |store.addons|
      modifies store, files
      ensures store.Valid()
      ensures (State(), ok) == CycleIn(old(State()), ai, allBranches, download, now)
    {
      var branches := VersionBranches(allBranches);
      var ids := BranchVersionIds(store.versions, store.nextVersionId, store.addons[ai].name);
      var rows := store.versions;
      DeleteBranchVersions(ToDelete(ids, rows, branches));
      ok := CreateBranchVersions(ai, ToCreate(branches, ids, rows), download, now);
      assert (State(), ok) == CreatePhaseIn(old(State()), ai, allBranches, download, now);
      if !ok {
        return;
      }
      ok := UpdateBranchVersions(ai, ToUpdate(branches, ids, rows), ids, rows, download, now);
    }

    /**
     * `checkNextAddon()` followed by `scheduleNextCheck()`. The branch list
     * GitHub reports and the rate-limit figures are inputs (`None` when the
     * request fails), as are the branch downloads and the clock.
     */
    method CheckNextAddon(allBranches: Option<seq<Branch>>, download: string -> Archive,
                          rate: Option<RateLimit>, now: Time, nowSeconds: int)
      returns (next: Schedule)
      requires store.Valid()
      modifies store, files
      ensures store.Valid()
      ensures (State(), next) == CheckNextAddonIn(old(State()), allBranches, download, rate, now, nowSeconds)
    {
      var chosen := LeastRecentlyChecked(store.addons);
      if chosen.None? {
        return RetryAfterMs(1000);
      }
      if allBranches.None? {
        return Crash;
      }
      var ok := SyncBranches(chosen.value, allBranches.value, download, now);
      if !ok {
        return Crash;
      }
      if rate.None? {
        return Crash;
      }
      next := NextCheckAfter(SafeInterval(rate.value, nowSeconds));
    }
  }
}
