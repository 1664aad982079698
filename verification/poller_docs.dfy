/**
 * The pure parts of a branch rebuild and of the poller's pacing
 * (app/services/repository-poller.ts): the docs configuration merged over
 * the poller's defaults, the archive URL and the storage path, and the
 * interval until the next cycle.
 */
module PollerDocs {
  import opened Wrappers
  import opened Text
  import opened JsonValues

  /** The defaults `loadDocsConfig` starts from. */
  const PollerDefaults: Config := map[
    "pagesDir" := JString("docs"),
    "sourceDirs" := JArray([JString("app"), JString("lib")]),
    "granularity" := JString("minor")
  ]

  /**
   * `loadDocsConfig(dir)`: `config/docs.json` of the extracted branch assigned
   * over the defaults, or the defaults when the file is missing or not JSON
   * (`None`). Keys of the file override, and every other default is kept.
   */
  function LoadDocsConfig(file: Option<Json>): (r: Config)
    ensures file.None? ==> r == PollerDefaults
    ensures PollerDefaults.Keys <= r.Keys
    ensures file.Some? ==> r.Keys == PollerDefaults.Keys + OwnKeys(file.value).Keys
    ensures file.Some? ==> forall k | k in OwnKeys(file.value) :: r[k] == OwnKeys(file.value)[k]
    ensures forall k | k in PollerDefaults && (file.None? || k !in OwnKeys(file.value)) :: r[k] == PollerDefaults[k]
  {
    match file
    case None => PollerDefaults
    case Some(raw) => Assign(PollerDefaults, raw)
  }

  /** Without a `granularity` key in the file, the branch's granularity is `minor`. */
  lemma DefaultGranularity(file: Option<Json>)
    requires file.None? || "granularity" !in OwnKeys(file.value)
    ensures LoadDocsConfig(file)["granularity"] == JString("minor")
  {
  }

  /** The archive `downloadBranch` fetches: `https://github.com/<repoSlug>/archive/<branchName>.tar.gz`. */
  function ArchiveUrl(repoSlug: Option<string>, branchName: Option<string>): (r: string)
    ensures StartsWith(r, "https://github.com/" + JsText(repoSlug) + "/archive/")
    ensures EndsWith(r, JsText(branchName) + ".tar.gz")
    ensures |r| == |"https://github.com/"| + |JsText(repoSlug)| + |"/archive/"| + |JsText(branchName)| + |".tar.gz"|
  {
    var prefix := "https://github.com/" + JsText(repoSlug) + "/archive/";
    var r := prefix + JsText(branchName) + ".tar.gz";
    assert r[..|prefix|] == prefix;
    assert r[|r| - |JsText(branchName) + ".tar.gz"|..] == JsText(branchName) + ".tar.gz";
    r
  }

  /** The bucket docs are stored in. */
  const DocsBucket := "denali-docs"

  /** The key `saveDocs` stores a branch's docs under: `<addon.name>/branch-<branchName>/docs.json`. */
  function DocsPath(addonName: string, branchName: Option<string>): (r: string)
    ensures StartsWith(r, addonName + "/branch-")
    ensures EndsWith(r, JsText(branchName) + "/docs.json")
    ensures |r| == |addonName| + |"/branch-"| + |JsText(branchName)| + |"/docs.json"|
  {
    var prefix := addonName + "/branch-";
    var r := prefix + JsText(branchName) + "/docs.json";
    assert r[..|prefix|] == prefix;
    assert r[|r| - |JsText(branchName) + "/docs.json"|..] == JsText(branchName) + "/docs.json";
    r
  }

  /** Two strings with the same fixed prefix and suffix and the same length agree in the middle. */
  lemma {:induction false} MiddleDetermined(r1: string, r2: string, prefix: string, m1: string, m2: string, suffix: string)
    requires r1 == prefix + m1 + suffix && r2 == prefix + m2 + suffix && r1 == r2
    ensures m1 == m2
  {
    assert m1 == r1[|prefix|..|r1| - |suffix|];
    assert m2 == r2[|prefix|..|r2| - |suffix|];
  }

  /** Different branches of one repository are fetched from different URLs. */
  lemma ArchiveUrlDeterminesBranch(repoSlug: Option<string>, b1: string, b2: string)
    requires ArchiveUrl(repoSlug, Some(b1)) == ArchiveUrl(repoSlug, Some(b2))
    ensures b1 == b2
  {
    MiddleDetermined(ArchiveUrl(repoSlug, Some(b1)), ArchiveUrl(repoSlug, Some(b2)),
      "https://github.com/" + JsText(repoSlug) + "/archive/", b1, b2, ".tar.gz");
  }

  /** Different branches of one addon are stored under different keys, so no branch overwrites another's docs. */
  lemma DocsPathDeterminesBranch(addonName: string, b1: string, b2: string)
    requires DocsPath(addonName, Some(b1)) == DocsPath(addonName, Some(b2))
    ensures b1 == b2
  {
    MiddleDetermined(DocsPath(addonName, Some(b1)), DocsPath(addonName, Some(b2)),
      addonName + "/branch-", b1, b2, "/docs.json");
  }

  /** The tracked Version of a branch whose name is missing is fetched and stored under the text `null`. */
  lemma MissingBranchNamePrintsNull(repoSlug: Option<string>, addonName: string)
    ensures ArchiveUrl(repoSlug, None) == "https://github.com/" + JsText(repoSlug) + "/archive/null.tar.gz"
    ensures DocsPath(addonName, None) == addonName + "/branch-null/docs.json"
  {
  }

  // ---------------------------------------------------------------------
  // Pacing
  // ---------------------------------------------------------------------

  /** The core rate-limit figures GitHub reports; `resetsAt` is in epoch seconds. */
  datatype RateLimit = RateLimit(limit: int, remaining: int, resetsAt: int)

  /** `remaining - limit * 0.2`: the requests left once a fifth of the limit is kept back. */
  function SafeRequestsRemaining(rate: RateLimit): real {
    rate.remaining as real - rate.limit as real * 0.2
  }

  /**
   * `timeLeft / safeRequestsRemaining`, in seconds, with `now` in epoch
   * seconds. There is no lower bound; a zero divisor has no finite quotient
   * (`None`).
   */
  function SafeInterval(rate: RateLimit, now: int): (r: Option<real>)
    ensures r.Some? <==> SafeRequestsRemaining(rate) != 0.0
    ensures r.Some? ==> r.value * SafeRequestsRemaining(rate) == (rate.resetsAt - now) as real
  {
    var divisor := SafeRequestsRemaining(rate);
    if divisor == 0.0 then None else Some((rate.resetsAt - now) as real / divisor)
  }

  /** With time left in the window and requests to spare, the next check is in the future. */
  lemma PositiveWhenBothPositive(rate: RateLimit, now: int)
    requires rate.resetsAt > now && SafeRequestsRemaining(rate) > 0.0
    ensures SafeInterval(rate, now).Some? && SafeInterval(rate, now).value > 0.0
  {
  }

  /**
   * Nothing clamps the interval: once fewer than a fifth of the requests are
   * left the interval is negative (limit 5000, 500 left, 60 s to go: -0.12 s).
   */
  lemma NegativeWhenOverBudget()
    ensures SafeInterval(RateLimit(5000, 500, 1060), 1000) == Some(-0.12)
  {
  }

  /** With 4000 of 5000 requests left and 60 s to go, the next check is 0.02 s away. */
  lemma TypicalInterval()
    ensures SafeInterval(RateLimit(5000, 4000, 1060), 1000) == Some(0.02)
  {
  }
}
