# Addon synchronisation bookkeeping of api.denalijs.org, in Dafny

This project models the part of the api.denalijs.org server that keeps its
addon catalogue in step with the npm registry and with GitHub:

- **the branch poller** (`RepoPollerService`): one cycle picks the least
  recently checked addon. It reads the addon's GitHub branches and keeps the
  version branches. It deletes the tracked branch Versions whose branch is
  gone, creates and builds a Version for each new branch, and rebuilds the
  tracked ones whose head commit moved. It then schedules the next cycle
  from GitHub's rate-limit figures.
- **the registry follower** (`RegistryFollowerService`): it decides
  whether to resume the change feed or to start the first-run catch-up. It
  finds the versions of a package not yet recorded as compiled and requests
  their tarballs one by one. After each handled change it writes the change's
  sequence number as the cursor.
- **the models it writes through**:
  - `Addon`: the repository slug taken from a package document, and the
    docs-configuration refresh;
  - `Version`: the branch and published-version rows;
  - `VersionAlias.createOrUpdate`;
  - the `RegistryChange` cursor row;
  - the timestamps `save()` stamps on every record.

The store is a `Db.Store` class. It has one field per table, the next
auto-increment keys, and a journal of the writes in order. Each service is
a class whose methods loop and write step by step, as the TypeScript does.
Each method is proved to end in the state that a function over the tables
describes: `PollerCycle` for the poller and `RegistryFollowerModel` for the
follower. The properties of one cycle or one change are proved about those
functions.

Network answers, downloads, the clock and the docs extractor are inputs:

- the GitHub branch list and the rate-limit figures (`None` when the request
  fails);
- a function from archive or tarball URL to what the download gave;
- a function from package name to the registry document;
- the keyword search's names;
- a `now` per operation, used for every write it makes.

A rejected promise in these services is never caught, and the process
crashes on an unhandled rejection. The model therefore ends the operation
at the first failure, keeps the writes made before it, and reports it as
`false` or `Crash`.

Where the code and the intended design differ, the model follows the code,
except where a bullet below says otherwise:

- The cursor write compares nothing (`app/models/registry-change.ts:6`), so
  it can move backwards (`RegistryChangeModel.CursorCanGoBack`).
- The cursor is written only after `handleChange` succeeds. A failed fetch
  or download leaves it where it was.
- Nothing in the core creates cursor row 1. Without that row every write is
  lost and every start is a first run
  (`RegistryFollowerModel.MissingCursorAlwaysStartsOver`).
- `last_handled_sequence` is a text column
  (`config/migrations/1517936674-create-registry-changes.ts:6`). A stored 0
  therefore reads back as the text `"0"`, which is truthy, and the follower
  resumes from it. Only NULL and the empty text start the first run.
- `VersionAlias.createOrUpdate` always inserts a new alias row, even when
  one for the same alias and addon exists. Its `addon_id` is never set.
- The pacing interval has no lower bound and no guard against a zero or
  negative divisor.
- The poller's addon choice orders by `compiled_at`, with NULLs last as
  PostgreSQL sorts them in ascending order, and
  does not skip addons without a repository slug. No write in the core sets
  an addon's `compiled_at`, so every cycle picks the same addon
  (`PollerCycle.SameAddonNextTime`). Neither addons migration creates a
  `compiled_at` column (`config/migrations/1518389885-create-addons.ts:4-12`,
  `config/migrations/1518560393-add-docs-config-fields.ts:7-11`), so against
  that schema the query would fail. The model gives `Addon` a `compiledAt`
  field and lets the query succeed.
- The schema is the one `config/migrations/1518389885-create-addons.ts:4-12`
  creates, which already has `docs_granularity`, `docs_version_strategy`
  and `docs_semver_branches`. The later
  `config/migrations/1518560393-add-docs-config-fields.ts:8-10` renames a
  `docs_version_granularity` column that no migration creates and re-adds
  the two columns that already exist, so it cannot run against that
  schema.
- The poller does not refresh the addon's docs configuration. A `master`
  rebuild copies the branch's granularity to `docsVersionGranularity`
  (`app/models/addon.ts:26`), a name no column backs, so the `save()` at
  `app/services/repository-poller.ts:124-125` would fail against the schema.
  The configuration refresh writes `docsGranularity`, which
  `app/models/addon.ts:21-31` does not declare as an attribute; it is read as
  persisting to `docs_granularity`. The model keeps both fields on `Addon`
  and lets the poller's save succeed.
- The refresh's `save()` is checked against the two constrained columns:
  `docs_granularity` is an enum of `major`, `minor` and `patch`, and
  `docs_semver_branches` is boolean. A merged configuration that does not fit
  makes the refresh reject with the row unchanged
  (`AddonModel.RefreshCopiesConfig`).
- `downloadBranch` extracts the archive into a temporary directory, and a
  GitHub archive unpacks into a `<repo>-<branch>/` folder inside it.
  `loadDocsConfig` looks for `config/docs.json` directly under the temporary
  directory, so it finds no file and a `master` rebuild always copies
  `minor`. The model takes the file as an input that may be absent; absent
  gives `minor` (`PollerDocs.DefaultGranularity`).
- The poller calls `Version.createBranchVersion(addon, branch)` with two
  arguments against a three-parameter definition
  (`app/models/version.ts:27`). As written, the branch lands in `config`
  and `branch` is `undefined`, so `branch.name` (`app/models/version.ts:29`)
  throws. The model reads the call as the evident intent: no branch
  configuration and the given branch, so the display name is the branch's
  name.
- `addon.$appendRelated('versions', version)` (`app/models/version.ts:35`)
  is read as setting the new Version's `addon_id` to the addon's name and
  saving it. That is a reading of the ORM's behaviour, which is not part of
  this model.
- A branch Version whose first build fails already records the head commit.
  Later cycles therefore skip it (`PollerCycle.FailedBuildIsNotRetried`).
- `files.save` resolves to nothing, so a branch Version's `docsUrl` is
  written as NULL.
- The follower creates no Version or alias rows and records no compiled
  versions. Handling the same package again therefore finds the same
  versions new (`RegistryFollowerModel.HandlingRecordsNoCompilation`).
- `isAddon` accepts every package. `versionHasDocs` returns nothing, so
  `uploadVersion` never stores docs.
- lodash's `intersectionWith` caps its result at the length of the shorter
  list. With distinct branch names the cap never binds
  (`BranchDiff.CapNeverBinds`), but with repeated names it can
  (`BranchDiff.CapCanBind`).

## Model

| member | source | states |
|---|---|---|
| ApplicationModel.Touch | app/models/application.ts:17-21 | `save()` keeps a set `createdAt`, sets an unset one to now, and always sets `updatedAt` to now |
| ApplicationModel.CreatedAtFixedByFirstSave | app/models/application.ts:17-21 | over any series of saves of a never-saved record, `createdAt` is the first save's time and `updatedAt` the last's |
| ApplicationModel.CreatedAtKept | app/models/application.ts:18-19 | a record with `createdAt` set keeps it through any series of saves, and its `updatedAt` is the last save's time |
| ApplicationModel.SavedAddon | app/models/application.ts:17-20 | saving an addon changes nothing but its timestamps: `updatedAt` becomes now, and `createdAt` is kept if set and otherwise becomes now |
| ApplicationModel.SavedVersion | app/models/application.ts:17-20 | saving a Version changes nothing but its timestamps: `updatedAt` becomes now, and `createdAt` is kept if set and otherwise becomes now |
| ApplicationModel.SavedAlias | app/models/application.ts:17-20 | saving an alias changes nothing but its timestamps: `updatedAt` becomes now, and `createdAt` is kept if set and otherwise becomes now |
| Records.Keys | app/services/registry-follower.ts:93 | `Object.keys(pkg.versions)`: one key per entry, in entry order |
| Records.Lookup | app/services/registry-follower.ts:114 | `pkg.versions[key]` is defined exactly when `key` is one of the keys, and is that key's entry |
| Records.LookupFindsEntry | app/services/registry-follower.ts:114 | with distinct keys, `pkg.versions[key]` for an entry's key is that entry's metadata |
| Db.InsertVersionIn | config/migrations/1518390036-create-versions.ts:5 | an insert into `versions` keeps every key below the auto-increment counter |
| Db.LinkVersionIn | app/models/version.ts:35 | relating a Version to its addon sets its `addon_id` and keeps the keys below the counter |
| Db.SaveVersionIn | app/models/application.ts:17-21 | saving a Version keeps the keys below the counter |
| Db.DeleteVersionIn | app/services/repository-poller.ts:98-101 | deleting a Version keeps the keys below the counter |
| Db.CreateAliasIn | app/models/version-alias.ts:24 | `create()` of an alias keeps every key below the auto-increment counter |
| Db.SaveAliasIn | app/models/version-alias.ts:25-26 | saving an alias keeps the keys below the counter |
| Db.Store.constructor | config/migrations/1518390036-create-versions.ts:4-15 | a store holds the given tables |
| Db.Store.InsertAddon | config/migrations/1518389885-create-addons.ts:4-12 | appends the addon row and journals the insert |
| Db.Store.SaveAddon | app/models/application.ts:17-21 | replaces the addon row with the saved, re-stamped record |
| Db.Store.InsertVersion | config/migrations/1518390036-create-versions.ts:5 | adds the row under the next key and returns that key |
| Db.Store.LinkVersion | app/models/version.ts:35 | sets the row's `addon_id` and nothing else |
| Db.Store.SaveVersion | app/models/application.ts:17-21 | replaces the Version row with the saved, re-stamped record |
| Db.Store.DeleteVersion | app/services/repository-poller.ts:100 | removes the Version row |
| Db.Store.CreateAlias | app/models/version-alias.ts:24 | adds the saved alias row under the next key and returns that key |
| Db.Store.SaveAlias | app/models/version-alias.ts:26 | replaces the alias row with the saved, re-stamped record |
| Db.Store.PatchRegistryChange | app/models/registry-change.ts:6 | an UPDATE by key: sets the column when the row exists, changes nothing otherwise |
| JsonValues.Assign | app/services/repository-poller.ts:166 | `Object.assign`: the source's own keys overwrite, the target's other keys are kept, and no other key appears |
| Text.Decimal | app/models/registry-change.ts:6 | a number written to the text column is a canonical decimal numeral |
| Text.DecimalRoundTrip | app/models/registry-change.ts:5-13 | the numeral written for a sequence reads back as that sequence |
| Text.CanonicalRoundTrip | app/models/registry-change.ts:5-13 | a canonical numeral, read as a number and written again, is unchanged |
| Text.Split | app/models/addon.ts:41 | `split('/')`: at least one piece, and no piece contains the separator |
| Text.SplitJoin | app/models/addon.ts:41 | joining the pieces of a split gives back the string |
| Text.SplitHead | app/models/addon.ts:41 | `split('/')[0]` is the text before the first `/`, or the whole string |
| Semver.SplitAfterFirst | app/services/repository-poller.ts:89 | splitting at the first separator gives the text before it, then the pieces of the rest |
| Semver.NoSeparatorInNumeral | app/services/repository-poller.ts:89 | a rendered version number holds no `.`, `-` or `+` |
| Semver.PlainWithoutSuffixes | app/services/repository-poller.ts:89 | without `-` or `+`, a name is a plain version exactly when it is `MAJOR.MINOR.PATCH` |
| Semver.RenderedMainVersion | app/services/repository-poller.ts:89 | every `MAJOR.MINOR.PATCH` within the safe-integer range is a well-formed main version |
| Semver.RenderedVersionIsValid | app/services/repository-poller.ts:89 | `semver.valid` accepts every rendered version that fits the length limit, with or without a leading `v` |
| Semver.NoDotIsNotAVersion | app/services/repository-poller.ts:89 | a name without `.`, `-` and `+` is never a valid version |
| Semver.MasterIsNotAVersion | app/services/repository-poller.ts:89 | `master` is not a version, so the filter must name it |
| VersionModel.DisplayName | app/models/version.ts:30 | the configured `branchName` when a configuration gives a non-empty one, else the branch's name |
| VersionModel.BranchVersionRow | app/models/version.ts:28-34 | `version` and `branchName` are the branch's name, `isBranch` is true, `lastSeenCommit` is the head sha, and the other columns keep their defaults |
| VersionModel.PublishedVersionRow | app/models/version.ts:40-43 | `version` and `tarballUrl` come from the metadata; `isBranch` is false by the column default |
| VersionModel.CreateVersionIn | app/models/version.ts:28-35 | exactly one row is added under a fresh key and related to the addon; no other row or table changes |
| VersionModel.CreateBranchVersion | app/models/version.ts:27-37 | the store after `createBranchVersion` is the branch row inserted and related, and the new key is returned |
| VersionModel.CreateFromVersionMetadata | app/models/version.ts:39-46 | the store after `createFromVersionMetadata` is the published row inserted and related, and the new key is returned |
| VersionModel.CreatesKeepExistingRows | app/models/version.ts:28-35 | after any number of creates the old rows are unchanged, the new keys lie above them, and the counter moved by the count |
| VersionModel.CreatedRowAt | app/models/version.ts:28-35 | the k-th create puts the k-th row, related to the addon, under key `next + k` |
| VersionModel.CreateAllIn | app/models/version.ts:27-46 | a run of creates keeps keys below the counter |
| VersionAliasModel.FindVersionFrom | app/models/version-alias.ts:19 | the first key in range whose row is the addon's version of that name; none only when no such row exists in range |
| VersionAliasModel.FindVersion | app/models/version-alias.ts:19 | `Version.queryOne({ version, addon_id })` finds a row exactly when the addon has a version of that name |
| VersionAliasModel.CreateOrUpdateIn | app/models/version-alias.ts:18-27 | the store after `createOrUpdate` keeps keys below the counters |
| VersionAliasModel.UnknownVersionChangesNothing | app/models/version-alias.ts:19-23 | with no version of that name for the addon, the store is unchanged |
| VersionAliasModel.KnownVersionAddsOneAlias | app/models/version-alias.ts:24-26 | otherwise exactly one alias row is added: fresh key, the alias name, pointing at the addon's version of that name, `addon_id` NULL, the old rows unchanged |
| VersionAliasModel.RepeatedCallsAddRows | app/models/version-alias.ts:24 | two identical calls add two rows with the same alias and target: nothing is updated in place |
| VersionAliasModel.CreateOrUpdate | app/models/version-alias.ts:18-27 | the method leaves the store as `CreateOrUpdateIn` describes |
| RegistryChangeModel.LastSequenceIn | app/models/registry-change.ts:9-15 | null without row 1; row 1's stored text otherwise |
| RegistryChangeModel.UpdateLastSequenceIn | app/models/registry-change.ts:5-7 | the patch of row 1 keeps the store well formed |
| RegistryChangeModel.ReadAfterWrite | app/models/registry-change.ts:5-13 | after a write on an existing row 1, the read gives the number written |
| RegistryChangeModel.WriteWithoutRowIsLost | app/models/registry-change.ts:6 | without row 1 the write changes nothing and the read stays null |
| RegistryChangeModel.OnlyCursorChanges | app/models/registry-change.ts:6 | only row 1's column changes: no other row, no timestamp and no other table |
| RegistryChangeModel.CursorCanGoBack | app/models/registry-change.ts:6 | writing 10 and then 5 leaves 5: the write does not compare |
| RegistryChangeModel.GetLastSequence | app/models/registry-change.ts:9-15 | the method returns `LastSequenceIn` of the store |
| RegistryChangeModel.UpdateLastSequence | app/models/registry-change.ts:5-7 | the method leaves the store as `UpdateLastSequenceIn` describes |
| AddonModel.StripGit | app/models/addon.ts:45 | the lazy group drops a trailing `.git` when something precedes it, and otherwise keeps the text |
| AddonModel.MatchAt | app/models/addon.ts:45 | a match starting at a position gives an `owner/repo` slug |
| AddonModel.MatchFrom | app/models/addon.ts:45 | a match at some position from the given one on, always `owner/repo`; none exactly when no such position matches |
| AddonModel.MatchFromSkips | app/models/addon.ts:45 | positions that start no match are passed over: scanning from before them gives what scanning from after them gives |
| AddonModel.MatchFromIsLeftmost | app/models/addon.ts:45 | the result is the match at the leftmost position that starts one, as `String.prototype.match` returns the first match |
| AddonModel.GithubSlug | app/models/addon.ts:45-46 | `url.match(pattern)`'s group, always `owner/repo` when present |
| AddonModel.GithubUrlRoundTrip | app/models/addon.ts:45-46 | `https://github.com/owner/repo`, with or without `.git`, gives `owner/repo` back |
| AddonModel.HostUrlSlug | app/models/addon.ts:45-46 | the slug of a GitHub URL is taken at the host: the owner, then the repository without `.git` |
| AddonModel.NoEarlierMatch | app/models/addon.ts:45 | no position before the host can start a match in a GitHub URL |
| AddonModel.MatchAtHost | app/models/addon.ts:45 | at the host, the match is the owner and the repository without `.git` |
| AddonModel.ScpStyleUrlHasNoSlug | app/models/addon.ts:45-46 | `git@github.com:owner/repo` yields no slug |
| AddonModel.NoMatchInScpUrl | app/models/addon.ts:45 | no position of such a URL starts a match |
| AddonModel.SlashFreeTail | app/models/addon.ts:45 | away from the host, `com/` is never followed by an owner and a slash |
| AddonModel.GithubShorthand | app/models/addon.ts:39-40 | `github:X` yields `X` |
| AddonModel.PlainSlugKept | app/models/addon.ts:41-42 | a string whose text before the first `/` has no `:` is kept whole |
| AddonModel.OtherSchemesGiveNone | app/models/addon.ts:38-43 | a string with `:` before its first `/` yields none |
| AddonModel.GitlabShorthandGivesNone | app/models/addon.ts:38-43 | `gitlab:a/b` yields none |
| AddonModel.UrlStringGivesNone | app/models/addon.ts:38-43 | a URL string yields none, even one pointing at GitHub |
| AddonModel.OtherRepositoriesGiveNone | app/models/addon.ts:44-47 | an object repository of another type, or a missing repository, yields none |
| AddonModel.ObjectSlugShape | app/models/addon.ts:44-46 | an object repository's slug, when there is one, is `owner/repo` |
| AddonModel.AddonNames | app/models/addon.ts:19 | the addons' names, one per row, in order |
| AddonModel.AddonFromPackage | app/models/addon.ts:33-53 | the created addon has the package's name and description, the slug of the `latest` version's repository, the column defaults for the docs fields (`docs_semver_branches` false, the others NULL), no `compiled_at`, and first-save stamps |
| AddonModel.CreateFromPackageMetadataIn | app/models/addon.ts:33-53 | rejects without a `latest` tag, when the tagged version is not published, or when the name is taken, and succeeds exactly otherwise; on success it appends the row `AddonFromPackage` builds from the `latest` version (name, description, slug, first-save stamps), journals one insert of that name, and leaves the earlier addons and every other table as they were |
| AddonModel.CreateFromPackageMetadata | app/models/addon.ts:33-53 | the method returns the same rejection with the store unchanged, or the row `AddonFromPackage` builds from the `latest` version, and leaves the store as `CreateFromPackageMetadataIn` says |
| AddonModel.DocsConfigFrom | app/models/addon.ts:67-75 | exactly the defaults on failure; otherwise the fetched keys over the defaults, with every other default kept |
| AddonModel.DocsConfigHasDefaultKeys | app/models/addon.ts:72-78 | `granularity`, `versionStrategy` and `semverBranches` are always in the merged configuration |
| AddonModel.NonObjectConfigIsDefault | app/models/addon.ts:72 | a fetched document that is not an object leaves exactly the defaults |
| AddonModel.RefreshedAddon | app/models/addon.ts:76-79 | the three docs fields equal the configuration's, the rest of the addon is unchanged, and it is re-stamped |
| AddonModel.RefreshCopiesConfig | app/models/addon.ts:67-81 | the refresh succeeds exactly when the merged configuration fits the enum and boolean columns, and the defaults always do; then the addon holds the configuration's three docs fields (`minor`, `branches-over-tags`, true when the fetch failed), one update is journalled, and no other addon or table changes |
| AddonModel.UnknownGranularityRejected | config/migrations/1518389885-create-addons.ts:8 | a fetched granularity outside `major`, `minor` and `patch` makes the refresh reject |
| AddonModel.SemverBranchesAcceptedSpellings | config/migrations/1518389885-create-addons.ts:10 | the boolean column reads padded, capitalised and abbreviated spellings and the numbers 0 and 1 |
| AddonModel.SemverBranchesRejectedSpellings | config/migrations/1518389885-create-addons.ts:10 | other words, a lone `o` and other numbers are refused by the boolean column |
| AddonModel.FetchAndUpdateDocsConfig | app/models/addon.ts:67-81 | the method resolves to the merged configuration with the store as the refresh describes, or rejects exactly when the refresh does, with the store unchanged |
| BranchDiff.VersionBranches | app/services/repository-poller.ts:89 | the filter keeps exactly the branches that are valid versions or are `master` |
| BranchDiff.VersionNamesPass | app/services/repository-poller.ts:89 | every `MAJOR.MINOR.PATCH` name within the safe-integer and length limits passes the filter, with or without a leading `v` |
| BranchDiff.OtherNamesFiltered | app/services/repository-poller.ts:89 | `master` passes by name only; any other name without `.`, `-` or `+`, such as `develop`, is dropped |
| BranchDiff.BranchVersionIdsFrom | app/services/repository-poller.ts:94-96 | the keys in range of the addon's branch Versions, ascending |
| BranchDiff.BranchVersionIds | app/services/repository-poller.ts:94-96 | `getVersions({ is_branch: true })`: exactly the addon's branch Versions, in key order |
| BranchDiff.FindTracking | app/services/repository-poller.ts:73 | the first tracked Version, in list order, whose `branchName` is the branch's name; none exactly when no tracked Version has it |
| BranchDiff.ToDelete | app/services/repository-poller.ts:59-61 | exactly the tracked Versions whose name is the name of no live branch |
| BranchDiff.ToCreate | app/services/repository-poller.ts:66 | exactly the live branches no tracked Version has the name of |
| BranchDiff.Matching | app/services/repository-poller.ts:71 | exactly the live branches some tracked Version has the name of |
| BranchDiff.CappedMatching | app/services/repository-poller.ts:71 | lodash keeps the matched branches in order, no more of them than the shorter list |
| BranchDiff.ToUpdate | app/services/repository-poller.ts:71 | every branch to update is live and has a tracked Version |
| BranchDiff.MatchingFitsIds | app/services/repository-poller.ts:71 | with distinct names there are no more matched branches than tracked Versions |
| BranchDiff.CapNeverBinds | app/services/repository-poller.ts:71 | with distinct branch names and keys, the update list is every matched branch |
| BranchDiff.MatchingKeepsNamesDistinct | app/services/repository-poller.ts:71 | the matched branches keep distinct names |
| BranchDiff.EachBranchHandledOnce | app/services/repository-poller.ts:66-75 | with distinct names, each live branch is either created or updated, never both and never neither |
| BranchDiff.CapCanBind | app/services/repository-poller.ts:71 | two branches named alike and one tracked Version give a one-branch update list |
| PollerDocs.LoadDocsConfig | app/services/repository-poller.ts:158-171 | exactly the defaults for a missing or unreadable file; otherwise the file's keys over the defaults, with every other default kept |
| PollerDocs.DefaultGranularity | app/services/repository-poller.ts:159-163 | without a `granularity` key the branch's granularity is `minor` |
| PollerDocs.ArchiveUrl | app/services/repository-poller.ts:139 | `https://github.com/<repoSlug>/archive/<branchName>.tar.gz`, and nothing else |
| PollerDocs.DocsPath | app/services/repository-poller.ts:175 | `<addon>/branch-<branchName>/docs.json`, and nothing else |
| PollerDocs.ArchiveUrlDeterminesBranch | app/services/repository-poller.ts:139 | two branches of one repository are never fetched from the same URL |
| PollerDocs.DocsPathDeterminesBranch | app/services/repository-poller.ts:175 | two branches of one addon never share a storage key |
| PollerDocs.MissingBranchNamePrintsNull | app/services/repository-poller.ts:139 | a missing branch name is interpolated as `null` |
| PollerDocs.SafeInterval | app/services/repository-poller.ts:181-185 | the interval times the safe remaining requests is the time left; there is none only for a zero divisor |
| PollerDocs.PositiveWhenBothPositive | app/services/repository-poller.ts:181-185 | with time left and requests to spare, the interval is positive |
| PollerDocs.NegativeWhenOverBudget | app/services/repository-poller.ts:182-187 | over the reserve, the interval is negative: nothing clamps it |
| PollerDocs.TypicalInterval | app/services/repository-poller.ts:181-185 | 4000 of 5000 left with 60 s to go gives 0.02 s |
| PollerCycle.KeepsIdentitiesTrans | app/services/repository-poller.ts:72-75 | keeping each row's branch identity composes over steps |
| PollerCycle.AppendsNoDeletesTrans | app/services/repository-poller.ts:66-75 | two stretches without deletions make one |
| PollerCycle.StepsCompose | app/services/repository-poller.ts:62-75 | steps that keep the addons' schedule, the other tables and the rows they do not touch keep them together |
| PollerCycle.CopyGranularityIn | app/services/repository-poller.ts:122-126 | only a `master` rebuild sets the addon's `docsVersionGranularity` to the configuration's, changing nothing else but its stamps |
| PollerCycle.RecordBuildIn | app/services/repository-poller.ts:128-132 | the Version ends with `docsUrl` NULL, the branch's head commit and the build time, and nothing else changes |
| PollerCycle.DocsUpload | app/services/repository-poller.ts:173-176 | the docs for the addon and branch go to the `denali-docs` bucket under the branch's path |
| PollerCycle.RebuildIn | app/services/repository-poller.ts:118-133 | a failed rebuild changes nothing; any rebuild touches only its Version and no other table's rows, a successful one records the head commit, the build time and a NULL `docsUrl`, and the addons change only for `master` |
| PollerCycle.MasterRebuildCopiesGranularity | app/services/repository-poller.ts:122-126 | a `master` rebuild copies the branch's configured granularity to the addon and changes no other addon |
| PollerCycle.RebuildUploadsOnce | app/services/repository-poller.ts:118-133 | a rebuild stores exactly one file, the branch's docs, at its path in `denali-docs` |
| PollerCycle.DeletionWrites | app/services/repository-poller.ts:62-64 | one deletion per Version, in order |
| PollerCycle.DeleteBranchesIn | app/services/repository-poller.ts:62-64 | the Versions left are exactly those not listed, each unchanged; no other table changes; the deletions are journalled in order |
| PollerCycle.CreateStepIn | app/services/repository-poller.ts:103-107 | one new branch Version of the addon under a fresh key, tracking the branch at its head commit; built when the download succeeds; no other row changes |
| PollerCycle.CreateBranchesIn | app/services/repository-poller.ts:66-69 | at most one new key per branch, all above the old keys; no existing row changes; exactly one per branch when the loop finishes; the addons change only when `master` is among the branches |
| PollerCycle.UpdateStepIn | app/services/repository-poller.ts:109-116 | nothing changes when the commit is the same; otherwise the Version records the head commit and the build time and keeps its identity |
| PollerCycle.UpdatableAfterStep | app/services/repository-poller.ts:72-75 | updating one Version leaves the later branches' Versions in place |
| PollerCycle.UpdateBranchesIn | app/services/repository-poller.ts:71-75 | only the tracked Versions it was given can change, none is added or removed, and each keeps its identity; the addons change only when `master` is among the branches |
| PollerCycle.ArgMinFrom | app/services/repository-poller.ts:80-84 | the first addon, in insertion order, that no other precedes in `compiled_at` order |
| PollerCycle.NotLaterOrder | app/services/repository-poller.ts:82 | `compiled_at` order with NULLs last (PostgreSQL's ascending order) is a total preorder |
| PollerCycle.EarlierTakesOver | app/services/repository-poller.ts:82 | a strictly earlier addon becomes the least recently checked one |
| PollerCycle.LeastRecentlyChecked | app/services/repository-poller.ts:80-84 | none without addons; otherwise the first addon, in insertion order, that no other precedes in `compiled_at` order, NULLs last |
| PollerCycle.ArgMinKeptWithSchedule | app/services/repository-poller.ts:80-84 | the choice depends only on the `compiled_at` values |
| PollerCycle.TrackedIds | app/services/repository-poller.ts:94-96 | exactly the addon's branch Versions, each listed once |
| PollerCycle.StaleIds | app/services/repository-poller.ts:59-61 | exactly the addon's branch Versions whose name is the name of no live version branch |
| PollerCycle.NewBranches | app/services/repository-poller.ts:66 | exactly the live version branches no branch Version of the addon has the name of |
| PollerCycle.MatchedBranches | app/services/repository-poller.ts:71 | live version branches, each with a tracked Version |
| PollerCycle.CreatePhaseIn | app/services/repository-poller.ts:59-69 | stale Versions gone, the others unchanged, the new ones under fresh keys, and every branch to update still has its tracked Version |
| PollerCycle.CycleIn | app/services/repository-poller.ts:55-75 | a cycle keeps the addons' schedule and the other tables |
| PollerCycle.CycleDeletesExactlyStale | app/services/repository-poller.ts:59-64 | a cycle, finished or not, deletes exactly the stale Versions, leaves every row that is not one of the addon's branch Versions unchanged, and adds rows only above the old keys |
| PollerCycle.CycleDeletesFirst | app/services/repository-poller.ts:61-69 | all deletions come first, in order, and nothing later deletes |
| PollerCycle.CycleWithoutMasterKeepsAddons | app/services/repository-poller.ts:122-126 | without a live `master` branch a cycle leaves every addon as it was |
| PollerCycle.UpdateTouchesOnlyMatched | app/services/repository-poller.ts:71-75 | a Version no branch is matched with is not written by the update loop |
| PollerCycle.UpdateRecordsCommits | app/services/repository-poller.ts:109-132 | after a finished update loop, each matched Version records its branch's head commit |
| PollerCycle.CreatedRowsCoverBranches | app/services/repository-poller.ts:66-69 | after a finished create loop, each new branch has a new Version synced with it |
| PollerCycle.CreatedRowsAreSynced | app/services/repository-poller.ts:103-107 | every new Version is a branch Version of the addon, tracking one of the branches at its head commit |
| PollerCycle.FailedCreateAddsOneRow | app/services/repository-poller.ts:67-68 | a create loop that fails at once adds only the first branch's Version |
| PollerCycle.FailedBuildIsNotRetried | app/services/repository-poller.ts:103-116 | a Version whose first build failed records the head commit unbuilt, and the next update skips it |
| PollerCycle.CycleSyncsEveryBranch | app/services/repository-poller.ts:55-75 | after a finished cycle every live version branch has a branch Version of the addon tracking it at its head commit |
| PollerCycle.CycleLeavesNoStrayBranchVersion | app/services/repository-poller.ts:55-75 | after any cycle every branch Version of the addon tracks a live version branch |
| PollerCycle.CheckNextAddonIn | app/services/repository-poller.ts:44-78 | with no addons nothing changes and a retry comes in 1000 ms; without a branch list nothing changes and the process crashes; otherwise the state is the cycle over the least recently checked addon, followed by the rate-limit interval when the cycle and the rate request succeed and by a crash otherwise; the addons' schedule is kept |
| PollerCycle.SameAddonNextTime | app/services/repository-poller.ts:80-84 | the next cycle picks the same addon: no `compiled_at` changes |
| PollerCycle.ScheduleDeterminesChoice | app/services/repository-poller.ts:80-84 | addons with the same `compiled_at` values give the same choice |
| RepositoryPollerService.FileStore.constructor | app/services/files.ts:7-10 | the file store starts empty |
| RepositoryPollerService.FileStore.Save | app/services/files.ts:12-18 | the file is stored under its bucket and path, after the ones before it |
| RepositoryPollerService.RepositoryPoller.constructor | app/services/repository-poller.ts:29-38 | the poller works on the given store and file store |
| RepositoryPollerService.RepositoryPoller.UpdateDocsFromBranch | app/services/repository-poller.ts:118-133 | the method ends in `RebuildIn`'s state and result |
| RepositoryPollerService.RepositoryPoller.DeleteBranchVersions | app/services/repository-poller.ts:62-64 | the loop ends in `DeleteBranchesIn`'s state |
| RepositoryPollerService.RepositoryPoller.CreateBranchVersion | app/services/repository-poller.ts:103-107 | the method ends in `CreateStepIn`'s state and result |
| RepositoryPollerService.RepositoryPoller.CreateBranchVersions | app/services/repository-poller.ts:66-69 | the loop ends in `CreateBranchesIn`'s state and result |
| RepositoryPollerService.RepositoryPoller.UpdateBranchVersion | app/services/repository-poller.ts:109-116 | the method ends in `UpdateStepIn`'s state and result |
| RepositoryPollerService.RepositoryPoller.UpdateBranchVersions | app/services/repository-poller.ts:71-75 | the loop ends in `UpdateBranchesIn`'s state and result |
| RepositoryPollerService.RepositoryPoller.SyncBranches | app/services/repository-poller.ts:55-75 | the delete, create and update loops end in `CycleIn`'s state and result |
| RepositoryPollerService.RepositoryPoller.CheckNextAddon | app/services/repository-poller.ts:44-78 | one cycle ends in `CheckNextAddonIn`'s state and schedule |
| RegistryFollowerModel.ResumeFrom | app/services/registry-follower.ts:50-57 | a falsy stored value (NULL or empty) starts the first run and follows from now; any other value is resumed from unchanged |
| RegistryFollowerModel.StoredZeroResumes | app/services/registry-follower.ts:50-57 | a stored sequence 0 reads back as `"0"`, which resumes rather than starting over |
| RegistryFollowerModel.MissingCursorAlwaysStartsOver | app/services/registry-follower.ts:50-74 | without cursor row 1 the cursor write is lost and the next start is a first run again |
| RegistryFollowerModel.IsAddon | app/services/registry-follower.ts:77-80 | every package is accepted |
| RegistryFollowerModel.CompiledFor | app/services/registry-follower.ts:91-92 | exactly the versions recorded as compiled under the package's name |
| RegistryFollowerModel.Difference | app/services/registry-follower.ts:93 | lodash `difference`: exactly the keys not dropped, no longer than the keys |
| RegistryFollowerModel.DifferenceAppend | app/services/registry-follower.ts:93 | the difference keeps the keys' order |
| RegistryFollowerModel.FindNewVersionsIn | app/services/registry-follower.ts:90-95 | exactly the package's version keys not recorded as compiled for it |
| RegistryFollowerModel.TarballOf | app/services/registry-follower.ts:114-115 | a tarball URL exactly for the package's own version keys |
| RegistryFollowerModel.VersionHasDocs | app/services/registry-follower.ts:105-108 | the answer is always undefined, whatever the directory |
| RegistryFollowerModel.UploadVersionIn | app/services/registry-follower.ts:97-120 | the version's tarball is requested, and the step succeeds exactly when it downloads; a missing version fails before any request |
| RegistryFollowerModel.UploadAllIn | app/services/registry-follower.ts:82-88 | the loop only appends requests, at most one per version |
| RegistryFollowerModel.Tarballs | app/services/registry-follower.ts:114-115 | each version's tarball URL, in order |
| RegistryFollowerModel.UploadsEachVersionOnce | app/services/registry-follower.ts:82-88 | when every download succeeds, each new version's tarball is requested exactly once, in order |
| RegistryFollowerModel.StopsAtFailedDownload | app/services/registry-follower.ts:85-86 | a failed download ends the loop: the versions after it are never requested |
| RegistryFollowerModel.FirstRunIn | app/services/registry-follower.ts:59-66 | the run only appends requests |
| RegistryFollowerModel.FirstRunVisitsEachPackage | app/services/registry-follower.ts:59-66 | when everything succeeds, each searched package is updated once, in order, with each of its new versions requested once |
| RegistryFollowerModel.HandleChangeIn | app/services/registry-follower.ts:68-75 | a handled change writes its sequence as the cursor; a failed one leaves the store as it was |
| RegistryFollowerModel.EveryPackageIsProcessed | app/services/registry-follower.ts:68-80 | a fetched package is always processed: its new versions are requested in order, then the cursor is written |
| RegistryFollowerModel.CursorFollowsLastHandledChange | app/services/registry-follower.ts:74 | with cursor row 1 present, after a handled change the cursor holds that change's sequence as a numeral that reads back as it, whatever it held before |
| RegistryFollowerModel.HandlingRecordsNoCompilation | app/services/registry-follower.ts:68-95 | handling a change leaves the new versions of every package as they were |
| RegistryFollowerModel.RegistryFollower.constructor | app/services/registry-follower.ts:25-36 | the follower works on the given store and has made no request |
| RegistryFollowerModel.RegistryFollower.GetLastSequence | app/services/registry-follower.ts:50-57 | the method answers `ResumeFrom` of the stored cursor |
| RegistryFollowerModel.RegistryFollower.FindNewVersions | app/services/registry-follower.ts:90-95 | the method returns `FindNewVersionsIn` of the store |
| RegistryFollowerModel.RegistryFollower.UploadVersion | app/services/registry-follower.ts:97-108 | the method ends as `UploadVersionIn` says and never stores docs |
| RegistryFollowerModel.RegistryFollower.UpdateAddon | app/services/registry-follower.ts:82-88 | the loop ends as `UploadAllIn` over the new versions says |
| RegistryFollowerModel.RegistryFollower.FirstRun | app/services/registry-follower.ts:59-66 | a failed search requests nothing; otherwise the loop ends as `FirstRunIn` says |
| RegistryFollowerModel.RegistryFollower.HandleChange | app/services/registry-follower.ts:68-75 | the method ends in `HandleChangeIn`'s state and result |

## Left out

- Network and file I/O are inputs: the GitHub branch and rate-limit
  requests, the archive and tarball downloads and their extraction, the raw
  docs-configuration fetch, the registry document fetch and the keyword
  search. So are `require` of `config/docs.json` and `exists` of the docs
  file.
- The `follow` change-feed subscription and its callback are not modelled.
  One change is handled per `HandleChange` call.
- Concurrency is not modelled. `firstRun` is started without being awaited,
  and so are `handleChange` and the cursor write inside it. They can
  overlap with each other and with later changes. The model runs each to
  completion, one at a time.
- The `setTimeout` self-rescheduling is not modelled, and neither is the
  conversion of a negative or non-finite delay. A cycle returns its
  `Schedule`.
- Real-number pacing is exact. IEEE infinities and NaN on a zero divisor are
  a `None` interval, and `toFixed` logging is left out.
- The docs extractor is a foreign call. A build is known only by what it is
  given (`DocsBuild`), and the extraction is assumed never to reject.
- File storage is assumed to succeed. Production storage (`uploadToAWS`)
  always throws. The local path (`app/services/files.ts:24-27`) writes under
  `.data/files/<bucket>/<addon>/branch-<name>/`, and nothing creates those
  directories, so as written it rejects too. In the model a save never fails
  and is recorded as an upload.
- ORM instance aliasing is not modelled. Rows are values keyed in the
  store, and the Version a rebuild saves is re-read from the store.
- The clock is an input. Each modelled operation that stamps rows takes
  one `now` and passes it to every write it makes. A poller cycle uses it
  for every write, including `compiledAt`. The source reads the clock at
  each write, so its timestamps within one cycle can differ.
- A package's `versions` object is a list of entries in key order. A parsed
  JSON object has no repeated key; the model does not require that of the
  list, and `Records.Lookup` reads the first entry with a key. With distinct
  keys that is the key's only entry (`Records.LookupFindsEntry`).
- JSON numbers are integers. Non-object documents contribute no
  configuration keys (array and string indices are not kept).
- The database is PostgreSQL, which the test and production configurations
  use (`config/environment.ts:32-51`). The development configuration uses
  SQLite (`config/environment.ts:20-28`), which sorts NULLs first in
  ascending order; there the poller would pick an addon with a
  `compiled_at` before the ones without. That ordering is not modelled.
- SQL row order is modelled as key order for `getVersions` and for
  `queryOne` over Versions, and as insertion order for the addons query,
  whose `compiled_at` ties go to the addon inserted first. An `undefined`
  attribute is written as NULL.
- Db.DeleteVersionIn: always succeeds. The foreign key
  `version_aliases.version_id` references `versions.id`
  (`config/migrations/1519861277-create-version-aliases.ts:7`), so in
  PostgreSQL deleting a branch Version an alias points at is rejected and
  the cycle would crash. The model does not check references.
- The unique constraint on `(alias, addon_id)`
  (`config/migrations/1520383574-add-unique-version-alias-constraint.ts:5`)
  is not modelled. `createOrUpdate` never sets `addon_id`, and NULLs never
  compare equal, so the constraint never rejects one of its inserts.
- `app/models/addon.ts` does not import `fetch`. On a Node runtime without
  a global `fetch`, the call throws inside the `try` and the refresh keeps
  the defaults. The `fetched` input covers this case as `None`.
- The docs path in the follower's `saveDocs`
  (`app/services/registry-follower.ts:124`) is unreachable, because
  `versionHasDocs` answers nothing.
- Logging (`app/logger.ts`) is not modelled.
- `semver.valid` is the grammar of Semantic Versioning 2.0.0 (sections 2, 9
  and 10) plus a leading `v`. node-semver's loose mode, its whitespace
  trimming and `=` prefix are not modelled.
- PollerCycle.CopyGranularityIn: the check that `granularity` is in the
  configuration always holds, because the configuration starts from
  defaults that include it.
