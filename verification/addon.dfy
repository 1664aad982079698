/**
 * The addon model (app/models/addon.ts): the repository slug derived from a
 * package document when the addon is created, and the refresh of its docs
 * settings from the configuration file in its repository.
 */
module AddonModel {
  import opened Wrappers
  import opened Text
  import opened JsonValues
  import opened Records
  import opened Db
  import ApplicationModel

  // ---------------------------------------------------------------------
  // The GitHub URL pattern  /github.com\/([^\/]+\/[^\/]+?)(?:\.git)?$/
  // ---------------------------------------------------------------------

  /** The characters `.` does not match in a JavaScript pattern without the `s` flag. */
  predicate IsLineTerminator(c: char) {
    c == '\n' || c == '\r' || c == '\U{2028}' || c == '\U{2029}'
  }

  /** The repository part as the lazy `[^\/]+?` leaves it: a trailing `.git` is dropped when something precedes it. */
  function StripGit(tail: string): (r: string)
    requires |tail| > 0
    ensures |r| > 0 && (r == tail || r + ".git" == tail)
    ensures EndsWith(tail, ".git") && |tail| > 4 ==> r + ".git" == tail
  {
    if |tail| > 4 && EndsWith(tail, ".git") then tail[..|tail| - 4] else tail
  }

  /** `owner/repo`: two non-empty parts without a slash, joined by one. */
  predicate IsSlug(s: string) {
    '/' in s && 0 < FirstIndex(s, '/') < |s| - 1 && '/' !in s[FirstIndex(s, '/') + 1..]
  }

  /**
   * The match of the pattern starting at position `p`, if any: `github`,
   * one character other than a line terminator, `com/`, then the owner (the
   * whole run of non-slash characters, which must be followed by a slash),
   * then a non-empty rest without a slash up to the end of the URL.
   */
  function MatchAt(url: string, p: nat): (r: Option<string>)
    ensures r.Some? ==> IsSlug(r.value)
  {
    if p + 11 <= |url| && url[p..p + 6] == "github" && !IsLineTerminator(url[p + 6]) && url[p + 7..p + 11] == "com/" then
      var rest := url[p + 11..];
      if '/' in rest then
        var k := FirstIndex(rest, '/');
        var tail := rest[k + 1..];
        if k > 0 && |tail| > 0 && '/' !in tail then
          var slug := rest[..k] + "/" + StripGit(tail);
          assert FirstIndex(slug, '/') == k by {
            assert slug[k] == '/' && slug[..k] == rest[..k];
          }
          assert slug[k + 1..] == StripGit(tail);
          Some(slug)
        else None
      else None
    else None
  }

  /** The first match found scanning start positions from `p` onwards, as `String.prototype.match` does. */
  function MatchFrom(url: string, p: nat): (r: Option<string>)
    ensures r.Some? ==> IsSlug(r.value)
    ensures r.Some? ==> exists q | p <= q <= |url| :: MatchAt(url, q) == r
    ensures r.None? <==> NoMatchBetween(url, p, |url| + 1)
    decreases |url| - p
  {
    if p > |url| then None
    else if MatchAt(url, p).Some? then MatchAt(url, p)
    else
      NoMatchBetweenStep(url, p, |url| + 1);
      MatchFrom(url, p + 1)
  }

  /** No position from `p` up to, but not including, `q` starts a match. */
  predicate NoMatchBetween(url: string, p: nat, q: nat) {
    forall i | p <= i < q :: MatchAt(url, i).None?
  }

  /** No match in `p..q` is no match at `p` and none in `p + 1..q`. */
  lemma NoMatchBetweenStep(url: string, p: nat, q: nat)
    requires p < q
    ensures NoMatchBetween(url, p, q) <==> MatchAt(url, p).None? && NoMatchBetween(url, p + 1, q)
  {
  }

  /** Positions that cannot start a match are passed over. */
  lemma {:induction false} MatchFromSkips(url: string, p: nat, q: nat)
    requires p <= q && NoMatchBetween(url, p, q)
    ensures MatchFrom(url, p) == MatchFrom(url, q)
    decreases q - p
  {
    if p < q {
      assert MatchAt(url, p).None?;
      assert MatchFrom(url, p) == MatchFrom(url, p + 1);
      MatchFromSkips(url, p + 1, q);
    }
  }

  /** The result is the match at the leftmost position from `p` on that starts one. */
  lemma {:induction false} MatchFromIsLeftmost(url: string, p: nat, q: nat)
    requires p <= q <= |url| && MatchAt(url, q).Some? && NoMatchBetween(url, p, q)
    ensures MatchFrom(url, p) == MatchAt(url, q)
  {
    MatchFromSkips(url, p, q);
  }

  /** `url.match(pattern)`, reduced to its first group. */
  function GithubSlug(url: string): (r: Option<string>)
    ensures r.Some? ==> IsSlug(r.value)
  {
    MatchFrom(url, 0)
  }

  /**
   * The usual GitHub repository URLs give back the owner and repository they
   * name, with or without the `.git` suffix.
   */
  lemma {:induction false} GithubUrlRoundTrip(owner: string, repo: string)
    requires |owner| > 0 && |repo| > 0 && '/' !in owner && '/' !in repo
    ensures GithubSlug("https://github.com/" + owner + "/" + repo + ".git") == Some(owner + "/" + repo)
    ensures !EndsWith(repo, ".git") ==> GithubSlug("https://github.com/" + owner + "/" + repo) == Some(owner + "/" + repo)
  {
    GitSuffixStripped(owner, repo);
    if !EndsWith(repo, ".git") {
      HostUrlSlug("https://github.com/" + owner + "/" + repo, owner, repo);
      assert StripGit(repo) == repo;
    }
  }

  /** With `.git` appended, the URL gives the repository without it. */
  lemma GitSuffixStripped(owner: string, repo: string)
    requires |owner| > 0 && |repo| > 0 && '/' !in owner && '/' !in repo
    ensures GithubSlug("https://github.com/" + owner + "/" + repo + ".git") == Some(owner + "/" + repo)
  {
    var tail := repo + ".git";
    var url := "https://github.com/" + owner + "/" + repo + ".git";
    StripGitSuffix(repo);
    assert url == "https://github.com/" + owner + "/" + tail;
    HostUrlSlug(url, owner, tail);
  }

  lemma StripGitSuffix(repo: string)
    requires |repo| > 0 && '/' !in repo
    ensures '/' !in repo + ".git"
    ensures StripGit(repo + ".git") == repo
  {
    var tail := repo + ".git";
    assert forall i | 0 <= i < |tail| :: tail[i] == (if i < |repo| then repo[i] else ".git"[i - |repo|]);
    assert tail[|tail| - 4..] == ".git";
    assert tail[..|repo|] == repo;
  }

  /** The slug of `https://github.com/owner/tail` is taken at the host. */
  lemma HostUrlSlug(url: string, owner: string, tail: string)
    requires url == "https://github.com/" + owner + "/" + tail
    requires |owner| > 0 && |tail| > 0 && '/' !in owner && '/' !in tail
    ensures GithubSlug(url) == Some(owner + "/" + StripGit(tail))
  {
    assert url == "https://github.com/" + (owner + "/" + tail);
    NoEarlierMatch(url, owner + "/" + tail);
    MatchFromSkips(url, 0, 8);
    MatchAtHost(url, owner, tail);
  }

  /** None of the first eight positions of `https://github.com/…` can start a match. */
  lemma NoEarlierMatch(url: string, path: string)
    requires url == "https://github.com/" + path
    ensures forall q | 0 <= q < 8 :: MatchAt(url, q).None?
  {
    assert url[..19] == "https://github.com/";
    forall q | 0 <= q < 8 ensures MatchAt(url, q).None? {
      assert url[q..q + 6] != "github" by {
        assert url[q..q + 6][0] == url[q];
        assert url[q + 1] != 'i' || url[q] != 'g';
      }
    }
  }

  /** At the host, the match takes the owner up to the slash and the rest as the repository. */
  lemma MatchAtHost(url: string, owner: string, tail: string)
    requires url == "https://github.com/" + owner + "/" + tail
    requires |owner| > 0 && |tail| > 0 && '/' !in owner && '/' !in tail
    ensures MatchAt(url, 8) == Some(owner + "/" + StripGit(tail))
  {
    HostPrefix(url, owner + "/" + tail);
    OwnerThenTail(url[19..], owner, tail);
  }

  /** The fixed prefix of an `https://github.com/` URL, as the pattern reads it from position 8. */
  lemma HostPrefix(url: string, rest: string)
    requires url == "https://github.com/" + rest
    ensures 19 <= |url| && url[8..14] == "github" && url[14] == '.' && url[15..19] == "com/" && url[19..] == rest
  {
  }

  /** `owner/tail` splits at its first slash into the owner and the tail. */
  lemma OwnerThenTail(rest: string, owner: string, tail: string)
    requires rest == owner + "/" + tail && '/' !in owner
    ensures '/' in rest && FirstIndex(rest, '/') == |owner| && rest[..|owner|] == owner && rest[|owner| + 1..] == tail
  {
    assert rest[|owner|] == '/' && rest[..|owner|] == owner;
  }

  /** The SSH form `git@github.com:owner/repo.git` has `:` after the host, so it yields no slug. */
  lemma ScpStyleUrlHasNoSlug(owner: string, repo: string)
    requires |owner| > 0 && |repo| > 0 && '/' !in owner && '/' !in repo
    ensures GithubSlug("git@github.com:" + owner + "/" + repo) == None
  {
    var url := "git@github.com:" + owner + "/" + repo;
    forall q | 0 <= q <= |url| ensures MatchAt(url, q).None? {
      NoMatchInScpUrl(url, owner, repo, q);
    }
  }

  lemma NoMatchInScpUrl(url: string, owner: string, repo: string, q: nat)
    requires url == "git@github.com:" + owner + "/" + repo
    requires '/' !in owner && '/' !in repo
    ensures MatchAt(url, q).None?
  {
    if q == 4 {
      assert url[q + 7..q + 11][3] == ':';
    } else if q + 11 <= |url| && url[q + 7..q + 11] == "com/" {
      SlashFreeTail(url, q, owner, repo);
    }
  }

  /** Away from the host, `com/` can only be followed by the repository, so no slash is left for the owner. */
  lemma SlashFreeTail(url: string, q: nat, owner: string, repo: string)
    requires url == "git@github.com:" + owner + "/" + repo
    requires '/' !in owner && '/' !in repo
    requires q != 4 && q + 11 <= |url| && url[q + 7..q + 11] == "com/"
    ensures MatchAt(url, q).None?
  {
    var slash := 15 + |owner|;
    assert url[slash] == '/';
    assert forall i | 0 <= i < |url| && i != slash :: url[i] != '/' by {
      forall i | 0 <= i < |url| && i != slash ensures url[i] != '/' {
        if i < 15 {
          assert url[i] == "git@github.com:"[i];
        } else if i < slash {
          assert url[i] == owner[i - 15];
        } else {
          assert url[i] == repo[i - slash - 1];
        }
      }
    }
    assert url[q + 10] == url[q + 7..q + 11][3];
    assert q + 10 == slash;
    var rest := url[q + 11..];
    assert forall i | 0 <= i < |rest| :: rest[i] == url[q + 11 + i];
  }

  // ---------------------------------------------------------------------
  // The repository slug of a package
  // ---------------------------------------------------------------------

  /**
   * The slug `createFromPackageMetadata` derives from a `repository` field:
   * `github:X` gives `X`; another string whose text before the first `/` has
   * no `:` is taken whole; any other string gives none. An object whose
   * `type` is `git` or absent gives the GitHub URL pattern's group, or none
   * when the URL does not match. Another `type`, or no field, gives none.
   */
  function RepoSlugOf(repository: Option<Repository>): (r: Option<string>)
  {
    match repository
    case None => None
    case Some(RepoText(s)) =>
      if StartsWith(s, "github:") then Some(s[|"github:"|..])
      else if ':' !in Split(s, '/')[0] then Some(s)
      else None
    case Some(RepoObject(kind, url)) =>
      if kind == None || kind == Some("git") then GithubSlug(url) else None
  }

  /** `github:X` yields `X`. */
  lemma GithubShorthand(x: string)
    ensures RepoSlugOf(Some(RepoText("github:" + x))) == Some(x)
  {
    assert StartsWith("github:" + x, "github:");
  }

  /** A plain `owner/repo` string is kept whole, whatever follows the first slash. */
  lemma {:induction false} PlainSlugKept(owner: string, rest: string)
    requires ':' !in owner && '/' !in owner && !StartsWith(owner + "/" + rest, "github:")
    ensures RepoSlugOf(Some(RepoText(owner + "/" + rest))) == Some(owner + "/" + rest)
  {
    var s := owner + "/" + rest;
    assert s[|owner|] == '/' && s[..|owner|] == owner;
    assert FirstIndex(s, '/') == |owner|;
    SplitHead(s, '/');
  }

  /** A string with another scheme before its first slash gives no slug. */
  lemma {:induction false} OtherSchemesGiveNone(scheme: string, rest: string)
    requires ':' in scheme && '/' !in scheme && !StartsWith(scheme + "/" + rest, "github:")
    ensures RepoSlugOf(Some(RepoText(scheme + "/" + rest))) == None
  {
    var s := scheme + "/" + rest;
    assert s[|scheme|] == '/' && s[..|scheme|] == scheme;
    assert FirstIndex(s, '/') == |scheme|;
    SplitHead(s, '/');
  }

  /** `gitlab:a/b` names another host, so it gives no slug. */
  lemma GitlabShorthandGivesNone()
    ensures RepoSlugOf(Some(RepoText("gitlab:a/b"))) == None
  {
    assert "gitlab:a" + "/" + "b" == "gitlab:a/b";
    assert "gitlab:a/b"[..7][3] != "github:"[3];
    OtherSchemesGiveNone("gitlab:a", "b");
  }

  /** A URL string (scheme, then `//`) gives no slug, even when it points at GitHub. */
  lemma UrlStringGivesNone()
    ensures RepoSlugOf(Some(RepoText("https://github.com/a/b"))) == None
  {
    assert "https:" + "/" + "/github.com/a/b" == "https://github.com/a/b";
    assert "https://github.com/a/b"[..7][0] != "github:"[0];
    OtherSchemesGiveNone("https:", "/github.com/a/b");
  }

  /** An object repository of another type, or none at all, gives no slug. */
  lemma OtherRepositoriesGiveNone(kind: string, url: string)
    requires kind != "git"
    ensures RepoSlugOf(Some(RepoObject(Some(kind), url))) == None
    ensures RepoSlugOf(None) == None
  {
  }

  /** An object repository's slug, when there is one, is `owner/repo`. */
  lemma ObjectSlugShape(kind: Option<string>, url: string)
    ensures RepoSlugOf(Some(RepoObject(kind, url))).Some? ==> IsSlug(RepoSlugOf(Some(RepoObject(kind, url))).value)
  {
  }

  // ---------------------------------------------------------------------
  // Creating an addon from a package document
  // ---------------------------------------------------------------------

  /** Why a create rejects. */
  datatype CreateError =
    | NoLatestTag          // `pkg['dist-tags'].latest` is undefined
    | LatestNotPublished   // `pkg.versions[latest]` is undefined
    | DuplicateName        // the primary key `addons.name` is taken

  function AddonNames(addons: seq<Addon>): (names: seq<string>)
    ensures |names| == |addons|
    ensures forall i | 0 <= i < |addons| :: names[i] == addons[i].name
  {
    if addons == [] then [] else [addons[0].name] + AddonNames(addons[1..])
  }

  /**
   * The row `create()` saves: the package's name and description and the
   * slug of the `repository` of the version `dist-tags.latest` names. The
   * docs columns keep their defaults: `docs_semver_branches` is false, the
   * others are NULL.
   */
  function AddonFromPackage(pkg: PackageMetadata, latest: VersionMetadata, now: Time): (r: Addon)
    ensures r.name == pkg.name && r.description == pkg.description
    ensures r.repoSlug == RepoSlugOf(latest.repository)
    ensures r.docsGranularity == JNull && r.docsVersionGranularity == JNull && r.docsVersionStrategy == JNull
    ensures r.docsSemverBranches == JBool(false)
    ensures r.stamps == Stamps(Some(now), Some(now)) && r.compiledAt.None?
  {
    ApplicationModel.SavedAddon(
      Addon(pkg.name, pkg.description, RepoSlugOf(latest.repository), JNull, JNull, JNull, JBool(false), None, Unstamped),
      now)
  }

  /** `Addon.createFromPackageMetadata(pkg)` on the store: the tables after it, or why it rejected. */
  function CreateFromPackageMetadataIn(t: Tables, pkg: PackageMetadata, now: Time): (r: Result<Tables, CreateError>)
    ensures "latest" !in pkg.distTags ==> r == Failure(NoLatestTag)
    ensures r.Success? <==> "latest" in pkg.distTags && pkg.distTags["latest"] in Keys(pkg.versions)
                            && pkg.name !in AddonNames(t.addons)
    ensures "latest" in pkg.distTags && pkg.distTags["latest"] !in Keys(pkg.versions) ==> r == Failure(LatestNotPublished)
    ensures "latest" in pkg.distTags && pkg.distTags["latest"] in Keys(pkg.versions) && pkg.name in AddonNames(t.addons)
            ==> r == Failure(DuplicateName)
    ensures r.Success? ==> |r.value.addons| == |t.addons| + 1 && r.value.addons[..|t.addons|] == t.addons
                           && r.value.addons[|t.addons|] == AddonFromPackage(pkg, Lookup(pkg.versions, pkg.distTags["latest"]).value, now)
                           && r.value.journal == t.journal + [InsertedAddon(pkg.name)]
                           && r.value.(addons := t.addons, journal := t.journal) == t
  {
    if "latest" !in pkg.distTags then Failure(NoLatestTag)
    else match Lookup(pkg.versions, pkg.distTags["latest"])
      case None => Failure(LatestNotPublished)
      case Some(latest) =>
        if pkg.name in AddonNames(t.addons) then Failure(DuplicateName)
        else Success(InsertAddonIn(t, AddonFromPackage(pkg, latest, now)))
  }

  /** `Addon.createFromPackageMetadata(pkg)`. */
  method CreateFromPackageMetadata(store: Store, pkg: PackageMetadata, now: Time) returns (r: Result<Addon, CreateError>)
    requires store.Valid()
    modifies store
    ensures store.Valid()
    ensures r.Failure? <==> CreateFromPackageMetadataIn(old(store.Snapshot()), pkg, now).Failure?
    ensures r.Failure? ==> r.error == CreateFromPackageMetadataIn(old(store.Snapshot()), pkg, now).error
                           && store.Snapshot() == old(store.Snapshot())
    ensures r.Success? ==> store.Snapshot() == CreateFromPackageMetadataIn(old(store.Snapshot()), pkg, now).value
                           && |store.addons| == |old(store.addons)| + 1 && r.value == store.addons[|old(store.addons)|]
                           && r.value == AddonFromPackage(pkg, Lookup(pkg.versions, pkg.distTags["latest"]).value, now)
  {
    if "latest" !in pkg.distTags {
      return Failure(NoLatestTag);
    }
    var latest := Lookup(pkg.versions, pkg.distTags["latest"]);
    if latest.None? {
      return Failure(LatestNotPublished);
    }
    if pkg.name in AddonNames(store.addons) {
      return Failure(DuplicateName);
    }
    var row := AddonFromPackage(pkg, latest.value, now);
    store.InsertAddon(row);
    r := Success(row);
  }

  // ---------------------------------------------------------------------
  // The docs configuration refresh
  // ---------------------------------------------------------------------

  /** `DEFAULT_DOCS_CONFIG`. */
  const DefaultDocsConfig: Config := map[
    "pagesDir" := JString("docs"),
    "sourceDirs" := JArray([JString("app"), JString("lib")]),
    "granularity" := JString("minor"),
    "versionStrategy" := JString("branches-over-tags"),
    "semverBranches" := JBool(true),
    "branches" := JArray([JObject(map["branchName" := JString("master"), "displayName" := JString("master")])])
  ]

  /**
   * The configuration `fetchAndUpdateDocsConfig` settles on: the fetched
   * document assigned over a copy of the defaults, or exactly the defaults
   * when the fetch or the parse failed (`None`).
   */
  function DocsConfigFrom(fetched: Option<Json>): (r: Config)
    ensures fetched.None? ==> r == DefaultDocsConfig
    ensures fetched.Some? ==> r.Keys == DefaultDocsConfig.Keys + OwnKeys(fetched.value).Keys
    ensures fetched.Some? ==> forall k | k in OwnKeys(fetched.value) :: r[k] == OwnKeys(fetched.value)[k]
    ensures fetched.Some? ==> forall k | k in DefaultDocsConfig && k !in OwnKeys(fetched.value) :: r[k] == DefaultDocsConfig[k]
  {
    match fetched
    case None => DefaultDocsConfig
    case Some(raw) => Assign(DefaultDocsConfig, raw)
  }

  /** Every key of the defaults survives the merge, so the three copied fields are always there. */
  lemma DocsConfigHasDefaultKeys(fetched: Option<Json>)
    ensures "granularity" in DocsConfigFrom(fetched)
    ensures "versionStrategy" in DocsConfigFrom(fetched)
    ensures "semverBranches" in DocsConfigFrom(fetched)
  {
  }

  /** A fetched document that is not an object, such as `null` or a number, changes nothing. */
  lemma NonObjectConfigIsDefault(fetched: Json)
    requires !fetched.JObject?
    ensures DocsConfigFrom(Some(fetched)) == DefaultDocsConfig
  {
  }

  /** The addon after the refresh: the three docs fields taken from the configuration, then `save()`d. */
  function RefreshedAddon(addon: Addon, config: Config, now: Time): (r: Addon)
    requires "granularity" in config && "versionStrategy" in config && "semverBranches" in config
    ensures r.docsGranularity == config["granularity"]
    ensures r.docsVersionStrategy == config["versionStrategy"]
    ensures r.docsSemverBranches == config["semverBranches"]
    ensures r.(docsGranularity := addon.docsGranularity, docsVersionStrategy := addon.docsVersionStrategy,
               docsSemverBranches := addon.docsSemverBranches, stamps := addon.stamps) == addon
    ensures r.stamps == ApplicationModel.Touch(addon.stamps, now)
  {
    ApplicationModel.SavedAddon(
      addon.(docsGranularity := config["granularity"],
             docsVersionStrategy := config["versionStrategy"],
             docsSemverBranches := config["semverBranches"]),
      now)
  }

  // What PostgreSQL accepts in the two constrained docs columns
  // (config/migrations/1518389885-create-addons.ts:8,10).

  /** `docs_granularity` is a knex `enum`, a CHECK on the three names; NULL passes it. */
  predicate StorableGranularity(j: Json) {
    j == JNull || j == JString("major") || j == JString("minor") || j == JString("patch")
  }

  /** The white space PostgreSQL trims around a boolean literal. */
  predicate IsSpace(c: char) {
    c == ' ' || c == '\t' || c == '\n' || c == '\r' || c == '\U{B}' || c == '\U{C}'
  }

  /** The text without its leading and trailing white space. */
  function TrimSpace(s: string): (r: string)
    ensures |r| <= |s|
    ensures r == [] || (!IsSpace(r[0]) && !IsSpace(r[|r| - 1]))
    decreases |s|
  {
    if |s| > 0 && IsSpace(s[0]) then TrimSpace(s[1..])
    else if |s| > 0 && IsSpace(s[|s| - 1]) then TrimSpace(s[..|s| - 1])
    else s
  }

  /** The text with ASCII capitals lowered, as a case-insensitive comparison sees it. */
  function AsciiLower(s: string): (r: string)
    ensures |r| == |s|
  {
    seq(|s|, k requires 0 <= k < |s| => if 'A' <= s[k] <= 'Z' then (s[k] as int + 32) as char else s[k])
  }

  /**
   * The spellings PostgreSQL reads as a boolean, once trimmed and lowered: a
   * non-empty prefix of `true`, `false`, `yes` or `no`; `on`, `of` or `off`;
   * `1` or `0`.
   */
  predicate BooleanSpelling(w: string) {
    |w| > 0 && (StartsWith("true", w) || StartsWith("false", w) || StartsWith("yes", w) || StartsWith("no", w)
                || w == "on" || w == "of" || w == "off" || w == "1" || w == "0")
  }

  /**
   * `docs_semver_branches` is `boolean`. The driver sends a value as text (a
   * number by its decimal numeral, an array as an array literal, an object
   * as JSON), which PostgreSQL must read as a boolean; NULL is allowed.
   */
  predicate StorableBoolean(j: Json) {
    match j
    case JNull => true
    case JBool(_) => true
    case JNumber(n) => n == 0 || n == 1
    case JString(s) => BooleanSpelling(AsciiLower(TrimSpace(s)))
    case JArray(_) => false
    case JObject(_) => false
  }

  /** Whether `save()` can write the configuration's docs fields; `docs_version_strategy` is text and takes any value. */
  predicate StorableConfig(config: Config) {
    && "granularity" in config && StorableGranularity(config["granularity"])
    && "semverBranches" in config && StorableBoolean(config["semverBranches"])
  }

  /** Why the refresh rejects. */
  datatype RefreshError =
    | UnstorableConfig   // `save()` is refused by a column's type or check

  /**
   * `addon.fetchAndUpdateDocsConfig()` on the store, for the addon at
   * position `i`: the tables after it, or the rejection of its `save()`.
   */
  function FetchAndUpdateDocsConfigIn(t: Tables, i: nat, fetched: Option<Json>, now: Time): (r: Result<Tables, RefreshError>)
    requires i < |t.addons|
  {
    DocsConfigHasDefaultKeys(fetched);
    var config := DocsConfigFrom(fetched);
    if !StorableConfig(config) then Failure(UnstorableConfig)
    else
      Success(SaveAddonIn(t, i, t.addons[i].(docsGranularity := config["granularity"],
                                              docsVersionStrategy := config["versionStrategy"],
                                              docsSemverBranches := config["semverBranches"]), now))
  }

  /**
   * The refresh succeeds exactly when the merged configuration fits the
   * columns, which the defaults always do. Then the addon's three docs
   * fields equal the configuration's, its other fields are as they were, one
   * update is journalled, and nothing else changes.
   */
  lemma RefreshCopiesConfig(t: Tables, i: nat, fetched: Option<Json>, now: Time)
    requires i < |t.addons|
    ensures var r := FetchAndUpdateDocsConfigIn(t, i, fetched, now);
      && (r.Success? <==> StorableConfig(DocsConfigFrom(fetched)))
      && (r.Failure? ==> r.error == UnstorableConfig)
      && (r.Success? ==>
            && |r.value.addons| == |t.addons|
            && r.value.addons[i] == RefreshedAddon(t.addons[i], DocsConfigFrom(fetched), now)
            && (forall j | 0 <= j < |t.addons| && j != i :: r.value.addons[j] == t.addons[j])
            && r.value.journal == t.journal + [UpdatedAddon(t.addons[i].name)]
            && r.value.(addons := t.addons, journal := t.journal) == t)
      && (fetched.None? ==> r.Success?
                            && r.value.addons[i].docsGranularity == JString("minor")
                            && r.value.addons[i].docsVersionStrategy == JString("branches-over-tags")
                            && r.value.addons[i].docsSemverBranches == JBool(true))
  {
    DocsConfigHasDefaultKeys(fetched);
  }

  /** A granularity outside the enum makes the save, and so the refresh, reject. */
  lemma UnknownGranularityRejected(t: Tables, i: nat, now: Time)
    requires i < |t.addons|
    ensures FetchAndUpdateDocsConfigIn(t, i, Some(JObject(map["granularity" := JString("week")])), now)
            == Failure(UnstorableConfig)
  {
    var config := DocsConfigFrom(Some(JObject(map["granularity" := JString("week")])));
    assert config["granularity"] == JString("week");
  }

  /** The boolean column reads padded, capitalised and abbreviated spellings, and the numbers 0 and 1. */
  lemma SemverBranchesAcceptedSpellings()
    ensures StorableBoolean(JString(" Yes ")) && StorableBoolean(JString("f")) && StorableBoolean(JNumber(1))
  {
    assert TrimSpace(" Yes ") == "Yes" by {
      assert " Yes "[1..] == "Yes ";
      assert !IsSpace("Yes "[0]);
      assert "Yes "[..3] == "Yes";
    }
    assert AsciiLower("Yes") == "yes";
    assert "yes"[..3] == "yes";
    assert TrimSpace("f") == "f";
    assert AsciiLower("f") == "f";
    assert "false"[..1] == "f";
  }

  /** No other word, a lone `o` or another number is read as a boolean. */
  lemma SemverBranchesRejectedSpellings()
    ensures !StorableBoolean(JString("maybe")) && !StorableBoolean(JString("o")) && !StorableBoolean(JNumber(2))
  {
    assert TrimSpace("maybe") == "maybe";
    assert AsciiLower("maybe") == "maybe";
    assert "false"[..5] != "maybe" by { assert "false"[0] != "maybe"[0]; }
    assert TrimSpace("o") == "o";
    assert AsciiLower("o") == "o";
    assert "no"[..1] != "o";
  }

  /**
   * `addon.fetchAndUpdateDocsConfig()`: the fetched document (or its failure)
   * is an input. It resolves to the merged configuration, or rejects with the
   * store unchanged.
   */
  method FetchAndUpdateDocsConfig(store: Store, i: nat, fetched: Option<Json>, now: Time) returns (r: Result<Config, RefreshError>)
    requires store.Valid() && i < |store.addons|
    modifies store
    ensures store.Valid()
    ensures r.Failure? <==> FetchAndUpdateDocsConfigIn(old(store.Snapshot()), i, fetched, now).Failure?
    ensures r.Failure? ==> r.error == UnstorableConfig && store.Snapshot() == old(store.Snapshot())
    ensures r.Success? ==> r.value == DocsConfigFrom(fetched)
                           && store.Snapshot() == FetchAndUpdateDocsConfigIn(old(store.Snapshot()), i, fetched, now).value
  {
    var config: Config;
    match fetched {
      case None => config := DefaultDocsConfig;
      case Some(raw) => config := Assign(DefaultDocsConfig, raw);
    }
    DocsConfigHasDefaultKeys(fetched);
    if !StorableConfig(config) {
      return Failure(UnstorableConfig);
    }
    var addon := store.addons[i];
    store.SaveAddon(i, addon.(docsGranularity := config["granularity"],
                              docsVersionStrategy := config["versionStrategy"],
                              docsSemverBranches := config["semverBranches"]), now);
    r := Success(config);
  }
}
