/**
 * The registry follower's bookkeeping (app/services/registry-follower.ts):
 * where to resume the change feed, which published versions of a package
 * are new, the per-version download loop, the first-run catch-up and the
 * cursor write after each change.
 *
 * The follower's only effects are the cursor row and the tarball requests
 * it makes; the requests are kept as a list of URLs, in order. A rejected
 * request or a package that cannot be fetched ends the handling there.
 */
module RegistryFollowerModel {
  import opened Wrappers
  import opened Text
  import opened Records
  import opened Db
  import RegistryChangeModel

  /** The feed the follower subscribes to. */
  const RegistryUrl := "https://skimdb.npmjs.com/registry"

  /** The keyword the (disabled) addon check and the first-run search use. */
  const AddonKeyword := "denali-addon"

  /** One change from the feed: its sequence number and the package's name. */
  datatype Change = Change(sequence: nat, id: string)

  /** Where the feed is followed from: the current end, or the stored sequence. */
  datatype Since = Now | From(lastSequence: string)

  /** The store and the tarball URLs requested so far. */
  datatype FollowerState = FollowerState(db: Tables, tarballRequests: seq<string>)

  // ---------------------------------------------------------------------
  // Resuming
  // ---------------------------------------------------------------------

  /**
   * `getLastSequence()`: a falsy stored value (null or the empty text)
   * starts the first run and follows from now; any other text, `"0"`
   * included, is where the feed resumes.
   */
  function ResumeFrom(stored: Option<string>): (r: (Since, bool))
    ensures r.1 <==> stored.None? || stored == Some("")
    ensures r.1 ==> r.0 == Now
    ensures !r.1 ==> r.0 == From(stored.value)
  {
    if stored.None? || stored.value == "" then (Now, true) else (From(stored.value), false)
  }

  /**
   * The cursor column is text, so a stored sequence 0 reads back as `"0"`,
   * which is not falsy: the follower resumes from it instead of starting over.
   */
  lemma StoredZeroResumes(t: Tables)
    requires WellFormed(t) && RegistryChangeModel.CursorId in t.registryChanges
    ensures ResumeFrom(RegistryChangeModel.LastSequenceIn(RegistryChangeModel.UpdateLastSequenceIn(t, 0))) == (From("0"), false)
  {
    RegistryChangeModel.ReadAfterWrite(t, 0);
  }

  /** Without a cursor row the follower always starts over, even after handling changes. */
  lemma MissingCursorAlwaysStartsOver(t: Tables, sequence: nat)
    requires WellFormed(t) && RegistryChangeModel.CursorId !in t.registryChanges
    ensures ResumeFrom(RegistryChangeModel.LastSequenceIn(RegistryChangeModel.UpdateLastSequenceIn(t, sequence))) == (Now, true)
  {
    RegistryChangeModel.WriteWithoutRowIsLost(t, sequence);
  }

  // ---------------------------------------------------------------------
  // New versions
  // ---------------------------------------------------------------------

  /** `isAddon(pkg)`: the keyword check is disabled, so every package is an addon. */
  function IsAddon(pkg: PackageMetadata): (r: bool)
    ensures r
  {
    true
  }

  /** The versions recorded as compiled for the package: `CompiledVersion.query({ name })`, in table order. */
  function CompiledFor(rows: seq<CompiledVersion>, name: string): (r: seq<string>)
    ensures forall v :: v in r <==> CompiledVersion(name, v) in rows
  {
    if rows == [] then []
    else
      var rest := CompiledFor(rows[1..], name);
      assert forall v :: CompiledVersion(name, v) in rows <==> rows[0] == CompiledVersion(name, v) || CompiledVersion(name, v) in rows[1..];
      if rows[0].name == name then [rows[0].version] + rest else rest
  }

  /** lodash `difference(keys, drop)`: the keys not in `drop`, in order, repeats kept. */
  function Difference(keys: seq<string>, drop: seq<string>): (r: seq<string>)
    ensures |r| <= |keys|
    ensures forall x :: x in r <==> x in keys && x !in drop
  {
    if keys == [] then []
    else
      var rest := Difference(keys[1..], drop);
      assert forall x :: x in keys <==> x == keys[0] || x in keys[1..];
      if keys[0] in drop then rest else [keys[0]] + rest
  }

  /** Order is kept: a key added at the end of the list lands at the end of the difference, if not dropped. */
  lemma {:induction false} DifferenceAppend(keys: seq<string>, x: string, drop: seq<string>)
    ensures Difference(keys + [x], drop) == Difference(keys, drop) + (if x in drop then [] else [x])
  {
    if keys != [] {
      assert (keys + [x])[1..] == keys[1..] + [x];
      DifferenceAppend(keys[1..], x, drop);
    }
  }

  /**
   * `findNewVersions(pkg)`: the version keys of the package not recorded as
   * compiled for it, in key order. Disjoint from the compiled ones, and a
   * subset of the keys.
   */
  function FindNewVersionsIn(t: Tables, pkg: PackageMetadata): (r: seq<string>)
    ensures forall v :: v in r <==> v in Keys(pkg.versions) && CompiledVersion(pkg.name, v) !in t.compiledVersions
    ensures |r| <= |pkg.versions|
  {
    Difference(Keys(pkg.versions), CompiledFor(t.compiledVersions, pkg.name))
  }

  // ---------------------------------------------------------------------
  // Uploading versions
  // ---------------------------------------------------------------------

  /** `pkg.versions[v].dist.tarball`; none when `v` is not a key (the access then throws). */
  function TarballOf(pkg: PackageMetadata, v: string): (r: Option<string>)
    ensures r.Some? <==> v in Keys(pkg.versions)
  {
    match Lookup(pkg.versions, v)
    case None => None
    case Some(m) => Some(m.tarball)
  }

  /**
   * `versionHasDocs(pkgDir)` for the temporary directory a tarball was
   * extracted into: it checks for `dist/docs.json` but returns nothing, so
   * the answer is always undefined. The directory is not modelled, since the
   * answer does not depend on it.
   */
  function VersionHasDocs(): (r: Option<bool>)
    ensures r.None?
  {
    None
  }

  /** `uploadVersion(pkg, v)`: the tarball is requested; whether the download and extraction succeed is `download`'s answer. */
  function UploadVersionIn(requests: seq<string>, pkg: PackageMetadata, v: string, download: string -> bool)
    : (r: (seq<string>, bool))
    ensures TarballOf(pkg, v).None? ==> r == (requests, false)
    ensures TarballOf(pkg, v).Some? ==> r == (requests + [TarballOf(pkg, v).value], download(TarballOf(pkg, v).value))
  {
    match TarballOf(pkg, v)
    case None => (requests, false)
    case Some(url) => (requests + [url], download(url))
  }

  /** The loop of `updateAddon`: each version in order, stopping at the first that fails. */
  function UploadAllIn(requests: seq<string>, pkg: PackageMetadata, vs: seq<string>, download: string -> bool)
    : (r: (seq<string>, bool))
    ensures |requests| <= |r.0| <= |requests| + |vs| && r.0[..|requests|] == requests
    decreases |vs|
  {
    if vs == [] then (requests, true)
    else
      var u := UploadVersionIn(requests, pkg, vs[0], download);
      if !u.1 then u
      else
        var r := UploadAllIn(u.0, pkg, vs[1..], download);
        assert r.0[..|requests|] == r.0[..|u.0|][..|requests|];
        r
  }

  /** Every version has a tarball and every download succeeds. */
  predicate AllDownload(pkg: PackageMetadata, vs: seq<string>, download: string -> bool) {
    forall v | v in vs :: TarballOf(pkg, v).Some? && download(TarballOf(pkg, v).value)
  }

  /** The tarball URLs of `vs`, in order. */
  function Tarballs(pkg: PackageMetadata, vs: seq<string>): (r: seq<string>)
    requires forall v | v in vs :: TarballOf(pkg, v).Some?
    ensures |r| == |vs| && forall i | 0 <= i < |vs| :: r[i] == TarballOf(pkg, vs[i]).value
  {
    if vs == [] then [] else [TarballOf(pkg, vs[0]).value] + Tarballs(pkg, vs[1..])
  }

  /** One step of the loop: a version whose download succeeds is requested and the loop goes on. */
  lemma UploadAllStep(requests: seq<string>, pkg: PackageMetadata, vs: seq<string>, download: string -> bool)
    requires vs != [] && TarballOf(pkg, vs[0]).Some? && download(TarballOf(pkg, vs[0]).value)
    ensures UploadAllIn(requests, pkg, vs, download)
         == UploadAllIn(requests + [TarballOf(pkg, vs[0]).value], pkg, vs[1..], download)
  {
  }

  /** The versions after the first still all download. */
  lemma AllDownloadTail(pkg: PackageMetadata, vs: seq<string>, download: string -> bool)
    requires vs != [] && AllDownload(pkg, vs, download)
    ensures TarballOf(pkg, vs[0]).Some? && download(TarballOf(pkg, vs[0]).value)
    ensures AllDownload(pkg, vs[1..], download)
  {
    assert vs[0] in vs;
    forall v | v in vs[1..] ensures TarballOf(pkg, v).Some? && download(TarballOf(pkg, v).value) {
      assert v in vs;
    }
  }

  /** Requesting the first tarball, then the rest, requests them all. */
  lemma TarballsCons(requests: seq<string>, pkg: PackageMetadata, vs: seq<string>)
    requires vs != [] && forall v | v in vs :: TarballOf(pkg, v).Some?
    ensures (requests + [TarballOf(pkg, vs[0]).value]) + Tarballs(pkg, vs[1..]) == requests + Tarballs(pkg, vs)
  {
    assert Tarballs(pkg, vs) == [TarballOf(pkg, vs[0]).value] + Tarballs(pkg, vs[1..]);
  }

  /** When every download succeeds, each version's tarball is requested exactly once, in order. */
  lemma {:induction false} UploadsEachVersionOnce(requests: seq<string>, pkg: PackageMetadata, vs: seq<string>, download: string -> bool)
    requires AllDownload(pkg, vs, download)
    ensures UploadAllIn(requests, pkg, vs, download) == (requests + Tarballs(pkg, vs), true)
    decreases |vs|
  {
    if vs == [] {
      assert requests + Tarballs(pkg, vs) == requests;
    } else {
      AllDownloadTail(pkg, vs, download);
      var url := TarballOf(pkg, vs[0]).value;
      UploadAllStep(requests, pkg, vs, download);
      UploadsEachVersionOnce(requests + [url], pkg, vs[1..], download);
      TarballsCons(requests, pkg, vs);
    }
  }

  /** Joining is associative. */
  lemma JoinAssoc<T>(a: seq<T>, b: seq<T>, c: seq<T>)
    ensures (a + b) + c == a + (b + c)
  {
  }

  /** Dropping the head of `a + [x] + b` drops the head of `a`. */
  lemma TailOfJoin<T>(a: seq<T>, x: T, b: seq<T>)
    requires a != []
    ensures (a + [x] + b)[0] == a[0] && (a + [x] + b)[1..] == a[1..] + [x] + b
  {
  }

  /**
   * A failed download ends the loop: the versions before it are requested
   * once each, then the failing one, and none after it.
   */
  lemma {:induction false} StopsAtFailedDownload(requests: seq<string>, pkg: PackageMetadata, done: seq<string>, v: string,
                                                 rest: seq<string>, download: string -> bool)
    requires AllDownload(pkg, done, download)
    requires TarballOf(pkg, v).Some? && !download(TarballOf(pkg, v).value)
    ensures UploadAllIn(requests, pkg, done + [v] + rest, download)
         == (requests + Tarballs(pkg, done) + [TarballOf(pkg, v).value], false)
    decreases |done|
  {
    var vs := done + [v] + rest;
    if done == [] {
      assert vs[0] == v;
      assert requests + Tarballs(pkg, done) == requests;
    } else {
      AllDownloadTail(pkg, done, download);
      TailOfJoin(done, v, rest);
      var url := TarballOf(pkg, done[0]).value;
      UploadAllStep(requests, pkg, vs, download);
      StopsAtFailedDownload(requests + [url], pkg, done[1..], v, rest, download);
      TarballsCons(requests, pkg, done);
    }
  }

  // ---------------------------------------------------------------------
  // First run and changes
  // ---------------------------------------------------------------------

  /**
   * `firstRun()` over the names the keyword search returned: each package
   * fetched and its new versions uploaded, in order, stopping at the first
   * failure. Nothing it does changes the store.
   */
  function FirstRunIn(requests: seq<string>, t: Tables, names: seq<string>,
                      fetchPackage: string -> Option<PackageMetadata>, download: string -> bool)
    : (r: (seq<string>, bool))
    ensures |requests| <= |r.0| && r.0[..|requests|] == requests
    decreases |names|
  {
    if names == [] then (requests, true)
    else match fetchPackage(names[0])
      case None => (requests, false)
      case Some(pkg) =>
        var u := UploadAllIn(requests, pkg, FindNewVersionsIn(t, pkg), download);
        if !u.1 then u
        else
          var r := FirstRunIn(u.0, t, names[1..], fetchPackage, download);
          assert r.0[..|requests|] == r.0[..|u.0|][..|requests|];
          r
  }

  /** Every package can be fetched and every tarball of its new versions downloaded. */
  predicate FirstRunSucceeds(t: Tables, names: seq<string>, fetchPackage: string -> Option<PackageMetadata>, download: string -> bool) {
    forall n | n in names ::
      fetchPackage(n).Some? && AllDownload(fetchPackage(n).value, FindNewVersionsIn(t, fetchPackage(n).value), download)
  }

  /** The names after the first still succeed. */
  lemma FirstRunSucceedsTail(t: Tables, names: seq<string>, fetchPackage: string -> Option<PackageMetadata>, download: string -> bool)
    requires names != [] && FirstRunSucceeds(t, names, fetchPackage, download)
    ensures fetchPackage(names[0]).Some?
    ensures AllDownload(fetchPackage(names[0]).value, FindNewVersionsIn(t, fetchPackage(names[0]).value), download)
    ensures FirstRunSucceeds(t, names[1..], fetchPackage, download)
  {
    assert names[0] in names;
    forall n | n in names[1..]
      ensures fetchPackage(n).Some? && AllDownload(fetchPackage(n).value, FindNewVersionsIn(t, fetchPackage(n).value), download)
    {
      assert n in names;
    }
  }

  /** The tarballs a successful first run requests: each package's new versions, package by package. */
  function FirstRunTarballs(t: Tables, names: seq<string>, fetchPackage: string -> Option<PackageMetadata>, download: string -> bool)
    : (r: seq<string>)
    requires FirstRunSucceeds(t, names, fetchPackage, download)
  {
    if names == [] then []
    else
      FirstRunSucceedsTail(t, names, fetchPackage, download);
      var pkg := fetchPackage(names[0]).value;
      Tarballs(pkg, FindNewVersionsIn(t, pkg)) + FirstRunTarballs(t, names[1..], fetchPackage, download)
  }

  /** One step of the first run: a package whose versions all download is handled and the run goes on. */
  lemma FirstRunStep(requests: seq<string>, t: Tables, names: seq<string>,
                     fetchPackage: string -> Option<PackageMetadata>, download: string -> bool)
    requires names != [] && fetchPackage(names[0]).Some?
    requires AllDownload(fetchPackage(names[0]).value, FindNewVersionsIn(t, fetchPackage(names[0]).value), download)
    ensures var pkg := fetchPackage(names[0]).value;
      FirstRunIn(requests, t, names, fetchPackage, download)
        == FirstRunIn(requests + Tarballs(pkg, FindNewVersionsIn(t, pkg)), t, names[1..], fetchPackage, download)
  {
    var pkg := fetchPackage(names[0]).value;
    UploadsEachVersionOnce(requests, pkg, FindNewVersionsIn(t, pkg), download);
  }

  /** The first package's tarballs, then the rest's, are the run's. */
  lemma FirstRunTarballsCons(requests: seq<string>, t: Tables, names: seq<string>,
                             fetchPackage: string -> Option<PackageMetadata>, download: string -> bool)
    requires names != [] && FirstRunSucceeds(t, names, fetchPackage, download)
    ensures FirstRunSucceeds(t, names[1..], fetchPackage, download)
    ensures var pkg := fetchPackage(names[0]).value;
      (requests + Tarballs(pkg, FindNewVersionsIn(t, pkg))) + FirstRunTarballs(t, names[1..], fetchPackage, download)
        == requests + FirstRunTarballs(t, names, fetchPackage, download)
  {
    FirstRunSucceedsTail(t, names, fetchPackage, download);
    var first := Tarballs(fetchPackage(names[0]).value, FindNewVersionsIn(t, fetchPackage(names[0]).value));
    var later := FirstRunTarballs(t, names[1..], fetchPackage, download);
    assert FirstRunTarballs(t, names, fetchPackage, download) == first + later;
    JoinAssoc(requests, first, later);
  }

  /** A successful first run visits each package once, in search order, and each of its new versions once. */
  lemma {:induction false} FirstRunVisitsEachPackage(requests: seq<string>, t: Tables, names: seq<string>,
      fetchPackage: string -> Option<PackageMetadata>, download: string -> bool)
    requires FirstRunSucceeds(t, names, fetchPackage, download)
    ensures FirstRunIn(requests, t, names, fetchPackage, download) == (requests + FirstRunTarballs(t, names, fetchPackage, download), true)
    decreases |names|
  {
    if names == [] {
      assert requests + FirstRunTarballs(t, names, fetchPackage, download) == requests;
    } else {
      FirstRunSucceedsTail(t, names, fetchPackage, download);
      var pkg := fetchPackage(names[0]).value;
      var first := Tarballs(pkg, FindNewVersionsIn(t, pkg));
      var later := FirstRunTarballs(t, names[1..], fetchPackage, download);
      FirstRunStep(requests, t, names, fetchPackage, download);
      FirstRunVisitsEachPackage(requests + first, t, names[1..], fetchPackage, download);
      FirstRunTarballsCons(requests, t, names, fetchPackage, download);
    }
  }

  /**
   * `handleChange(change)`: fetch the package, upload its new versions (every
   * package passes `isAddon`), then write the change's sequence as the
   * cursor. A failure before the write leaves the cursor alone.
   */
  function HandleChangeIn(st: FollowerState, change: Change, fetchPackage: string -> Option<PackageMetadata>,
                          download: string -> bool)
    : (r: (FollowerState, bool))
    requires WellFormed(st.db)
    ensures WellFormed(r.0.db)
    ensures r.1 ==> r.0.db == RegistryChangeModel.UpdateLastSequenceIn(st.db, change.sequence)
    ensures !r.1 ==> r.0.db == st.db
  {
    match fetchPackage(change.id)
    case None => (st, false)
    case Some(pkg) =>
      var handled := if IsAddon(pkg) then UploadAllIn(st.tarballRequests, pkg, FindNewVersionsIn(st.db, pkg), download)
                     else (st.tarballRequests, true);
      if !handled.1 then (st.(tarballRequests := handled.0), false)
      else (FollowerState(RegistryChangeModel.UpdateLastSequenceIn(st.db, change.sequence), handled.0), true)
  }

  /**
   * Every fetched package is processed: when its downloads succeed, each new
   * version's tarball is requested once, in order, and the change's sequence
   * is written.
   */
  lemma EveryPackageIsProcessed(st: FollowerState, change: Change, fetchPackage: string -> Option<PackageMetadata>,
                                download: string -> bool)
    requires WellFormed(st.db) && fetchPackage(change.id).Some?
    requires AllDownload(fetchPackage(change.id).value, FindNewVersionsIn(st.db, fetchPackage(change.id).value), download)
    ensures var pkg := fetchPackage(change.id).value;
      HandleChangeIn(st, change, fetchPackage, download)
        == (FollowerState(RegistryChangeModel.UpdateLastSequenceIn(st.db, change.sequence),
                          st.tarballRequests + Tarballs(pkg, FindNewVersionsIn(st.db, pkg))), true)
  {
    var pkg := fetchPackage(change.id).value;
    UploadsEachVersionOnce(st.tarballRequests, pkg, FindNewVersionsIn(st.db, pkg), download);
  }

  /**
   * After a handled change the cursor holds that change's sequence, whatever
   * it held before, a later sequence included: nothing compares them.
   */
  lemma CursorFollowsLastHandledChange(st: FollowerState, change: Change, fetchPackage: string -> Option<PackageMetadata>,
                                       download: string -> bool)
    requires WellFormed(st.db) && RegistryChangeModel.CursorId in st.db.registryChanges
    requires HandleChangeIn(st, change, fetchPackage, download).1
    ensures RegistryChangeModel.LastSequenceIn(HandleChangeIn(st, change, fetchPackage, download).0.db) == Some(Decimal(change.sequence))
    ensures DecimalValue(Decimal(change.sequence)) == change.sequence
  {
    RegistryChangeModel.ReadAfterWrite(st.db, change.sequence);
  }

  /**
   * Handling a change records no compilation, so the same package's next
   * change finds the same versions new and downloads them all again.
   */
  lemma HandlingRecordsNoCompilation(st: FollowerState, change: Change, fetchPackage: string -> Option<PackageMetadata>,
                                     download: string -> bool, pkg: PackageMetadata)
    requires WellFormed(st.db)
    ensures FindNewVersionsIn(HandleChangeIn(st, change, fetchPackage, download).0.db, pkg) == FindNewVersionsIn(st.db, pkg)
  {
  }

  // ---------------------------------------------------------------------
  // The service
  // ---------------------------------------------------------------------

  class RegistryFollower {
    const store: Store
    /** The tarball URLs requested so far, in order. */
    var tarballRequests: seq<string>

    constructor (store: Store)
      ensures this.store == store && tarballRequests == []
    {
      this.store := store;
      tarballRequests := [];
    }

    ghost function State(): FollowerState
      reads this, store
    {
      FollowerState(store.Snapshot(), tarballRequests)
    }

    /** `getLastSequence()`: where to follow from, and whether the first run starts. */
    method GetLastSequence() returns (since: Since, startsFirstRun: bool)
      ensures (since, startsFirstRun) == ResumeFrom(RegistryChangeModel.LastSequenceIn(store.Snapshot()))
    {
      var stored := RegistryChangeModel.GetLastSequence(store);
      if stored.None? || stored.value == "" {
        since, startsFirstRun := Now, true;
      } else {
        since, startsFirstRun := From(stored.value), false;
      }
    }

    /** `findNewVersions(pkg)` against the store. */
    method FindNewVersions(pkg: PackageMetadata) returns (versions: seq<string>)
      ensures versions == FindNewVersionsIn(store.Snapshot(), pkg)
    {
      var compiled := CompiledFor(store.compiledVersions, pkg.name);
      versions := Difference(Keys(pkg.versions), compiled);
    }

    /**
     * `uploadVersion(pkg, v)`: request the tarball and extract it. The docs
     * are never saved, since `versionHasDocs` answers nothing (`docsSaved`).
     */
    method UploadVersion(pkg: PackageMetadata, v: string, download: string -> bool) returns (ok: bool, docsSaved: bool)
      modifies this
      ensures (tarballRequests, ok) == UploadVersionIn(old(tarballRequests), pkg, v, download)
      ensures !docsSaved
    {
      docsSaved := false;
      var tarball := TarballOf(pkg, v);
      if tarball.None? {
        return false, false;
      }
      tarballRequests := tarballRequests + [tarball.value];
      if !download(tarball.value) {
        return false, false;
      }
      var hasDocs := VersionHasDocs();
      docsSaved := hasDocs == Some(true);
      ok := true;
    }

    /** `updateAddon(pkg)`: each new version uploaded in order; a failure ends the loop. */
    method UpdateAddon(pkg: PackageMetadata, download: string -> bool) returns (ok: bool)
      modifies this
      ensures (tarballRequests, ok) == UploadAllIn(old(tarballRequests), pkg, FindNewVersionsIn(store.Snapshot(), pkg), download)
    {
      var versions := FindNewVersions(pkg);
      for i := 0 to |versions|
        invariant UploadAllIn(old(tarballRequests), pkg, versions, download) == UploadAllIn(tarballRequests, pkg, versions[i..], download)
      {
        assert versions[i..][1..] == versions[i + 1..];
        var docsSaved;
        ok, docsSaved := UploadVersion(pkg, versions[i], download);
        if !ok {
          return;
        }
      }
      ok := true;
    }

    /** `firstRun()`: the keyword search's names (`None` when the search fails), each package fetched and updated in order. */
    method FirstRun(names: Option<seq<string>>, fetchPackage: string -> Option<PackageMetadata>, download: string -> bool)
      returns (ok: bool)
      modifies this
      ensures names.None? ==> !ok && tarballRequests == old(tarballRequests)
      ensures names.Some? ==> (tarballRequests, ok) == FirstRunIn(old(tarballRequests), store.Snapshot(), names.value, fetchPackage, download)
    {
      if names.None? {
        return false;
      }
      var all := names.value;
      for i := 0 to |all|
        invariant FirstRunIn(old(tarballRequests), store.Snapshot(), all, fetchPackage, download)
                  == FirstRunIn(tarballRequests, store.Snapshot(), all[i..], fetchPackage, download)
      {
        assert all[i..][1..] == all[i + 1..];
        var pkg := fetchPackage(all[i]);
        if pkg.None? {
          return false;
        }
        ok := UpdateAddon(pkg.value, download);
        if !ok {
          return;
        }
      }
      ok := true;
    }

    /** `handleChange(change)`: process the package, then write the cursor. */
    method HandleChange(change: Change, fetchPackage: string -> Option<PackageMetadata>, download: string -> bool)
      returns (ok: bool)
      requires store.Valid()
      modifies this, store
      ensures store.Valid()
      ensures (State(), ok) == HandleChangeIn(old(State()), change, fetchPackage, download)
    {
      var pkg := fetchPackage(change.id);
      if pkg.None? {
        return false;
      }
      if IsAddon(pkg.value) {
        ok := UpdateAddon(pkg.value, download);
        if !ok {
          return;
        }
      }
      RegistryChangeModel.UpdateLastSequence(store, change.sequence);
      ok := true;
    }
  }
}
