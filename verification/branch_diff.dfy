/**
 * The three-way diff the branch poller runs on each cycle
 * (app/services/repository-poller.ts): which of GitHub's branches count as
 * version branches, which tracked branch Versions have lost their branch,
 * which branches have no Version yet, and which are matched to one. The
 * tracked Versions are given as keys into the rows read at the start of the
 * cycle; a Version matches a branch when its `branchName` is the branch's
 * name.
 */
module BranchDiff {
  import opened Wrappers
  import opened Records
  import Semver
  import Text

  /** The filter of `getBranches`: a valid semantic version, or exactly `master`. */
  predicate IsVersionBranch(b: Branch) {
    Semver.Valid(b.name) || b.name == "master"
  }

  /** `allBranches.filter(isVersionBranch)`. */
  function VersionBranches(all: seq<Branch>): (r: seq<Branch>)
    ensures |r| <= |all|
    ensures forall b | b in r :: b in all && IsVersionBranch(b)
    ensures forall b | b in all && IsVersionBranch(b) :: b in r
  {
    if all == [] then []
    else if IsVersionBranch(all[0]) then [all[0]] + VersionBranches(all[1..])
    else VersionBranches(all[1..])
  }

  /** Every `MAJOR.MINOR.PATCH` name, with or without a leading `v`, passes the filter as a version. */
  lemma VersionNamesPass(major: nat, minor: nat, patch: nat, c: Commit)
    requires major <= Semver.MaxSafeInteger && minor <= Semver.MaxSafeInteger && patch <= Semver.MaxSafeInteger
    requires |Semver.Render(major, minor, patch)| < Semver.MaxLength
    ensures IsVersionBranch(Branch(Semver.Render(major, minor, patch), c))
    ensures IsVersionBranch(Branch("v" + Semver.Render(major, minor, patch), c))
  {
    Semver.RenderedVersionIsValid(major, minor, patch);
  }

  /** `master` passes by name only; any other name without `.`, `-` or `+` (such as `develop`) is dropped. */
  lemma OtherNamesFiltered(name: string, c: Commit)
    requires '.' !in name && '-' !in name && '+' !in name && name != "master"
    ensures IsVersionBranch(Branch("master", c)) && !Semver.Valid("master")
    ensures !IsVersionBranch(Branch(name, c))
  {
    Semver.MasterIsNotAVersion();
    Semver.NoDotIsNotAVersion(name);
  }

  /** A row `addon.getVersions({ is_branch: true })` returns. */
  predicate IsBranchVersionOf(v: Version, addonName: string) {
    v.addonId == Some(addonName) && v.isBranch
  }

  /** The keys in `lo..hi`, ascending, of the addon's branch Versions. */
  function BranchVersionIdsFrom(versions: map<VersionId, Version>, lo: nat, hi: nat, addonName: string): (r: seq<VersionId>)
    ensures forall id :: id in r <==> lo <= id < hi && id in versions && IsBranchVersionOf(versions[id], addonName)
    ensures forall i, j | 0 <= i < j < |r| :: r[i] < r[j]
    decreases hi - lo
  {
    if hi <= lo then []
    else
      var rest := BranchVersionIdsFrom(versions, lo + 1, hi, addonName);
      if lo in versions && IsBranchVersionOf(versions[lo], addonName) then
        assert forall j | 0 <= j < |rest| :: lo < rest[j] by {
          forall j | 0 <= j < |rest| ensures lo < rest[j] {
            assert rest[j] in rest;
          }
        }
        [lo] + rest
      else rest
  }

  /** `addon.getVersions({ is_branch: true })`, in key order. */
  function BranchVersionIds(versions: map<VersionId, Version>, nextId: VersionId, addonName: string): (r: seq<VersionId>)
    requires forall id | id in versions :: id < nextId
    ensures forall id :: id in r <==> id in versions && IsBranchVersionOf(versions[id], addonName)
    ensures forall i, j | 0 <= i < j < |r| :: r[i] < r[j]
  {
    BranchVersionIdsFrom(versions, 0, nextId, addonName)
  }

  /** The comparator: `version.branchName === branch.name`. */
  predicate Tracks(v: Version, b: Branch) {
    v.branchName == Some(b.name)
  }

  /** Every key of the list names a row. */
  predicate AllIn(ids: seq<VersionId>, rows: map<VersionId, Version>) {
    forall id | id in ids :: id in rows
  }

  /** `branchVersions.find((v) => comparator(branch, v))`: the first tracked Version of the branch. */
  function FindTracking(ids: seq<VersionId>, rows: map<VersionId, Version>, b: Branch): (r: Option<VersionId>)
    requires AllIn(ids, rows)
    ensures r.Some? ==> r.value in ids && Tracks(rows[r.value], b)
    ensures r.Some? ==> exists k | 0 <= k < |ids| :: ids[k] == r.value && forall j | 0 <= j < k :: !Tracks(rows[ids[j]], b)
    ensures r.None? <==> forall id | id in ids :: !Tracks(rows[id], b)
  {
    if ids == [] then None
    else if Tracks(rows[ids[0]], b) then Some(ids[0])
    else
      var r := FindTracking(ids[1..], rows, b);
      assert r.Some? ==> exists k | 0 <= k < |ids| :: ids[k] == r.value && forall j | 0 <= j < k :: !Tracks(rows[ids[j]], b)
      by {
        if r.Some? {
          var k :| 0 <= k < |ids[1..]| && ids[1..][k] == r.value && forall j | 0 <= j < k :: !Tracks(rows[ids[1..][j]], b);
          assert ids[k + 1] == r.value;
          assert forall j | 0 <= j < k + 1 :: !Tracks(rows[ids[j]], b) by {
            forall j | 0 <= j < k + 1 ensures !Tracks(rows[ids[j]], b) {
              if j > 0 { assert ids[j] == ids[1..][j - 1]; }
            }
          }
        }
      }
      r
  }

  /** `differenceWith(branchVersions, branches, flip(comparator))`: the tracked Versions no branch matches, in order. */
  function ToDelete(ids: seq<VersionId>, rows: map<VersionId, Version>, branches: seq<Branch>): (r: seq<VersionId>)
    requires AllIn(ids, rows)
    ensures |r| <= |ids|
    ensures forall id :: id in r <==> id in ids && forall b | b in branches :: !Tracks(rows[id], b)
  {
    if ids == [] then []
    else
      var rest := ToDelete(ids[1..], rows, branches);
      if forall b | b in branches :: !Tracks(rows[ids[0]], b) then [ids[0]] + rest else rest
  }

  /** `differenceWith(branches, branchVersions, comparator)`: the branches no tracked Version matches, in order. */
  function ToCreate(branches: seq<Branch>, ids: seq<VersionId>, rows: map<VersionId, Version>): (r: seq<Branch>)
    requires AllIn(ids, rows)
    ensures |r| <= |branches|
    ensures forall b :: b in r <==> b in branches && FindTracking(ids, rows, b).None?
  {
    if branches == [] then []
    else
      var rest := ToCreate(branches[1..], ids, rows);
      if FindTracking(ids, rows, branches[0]).None? then [branches[0]] + rest else rest
  }

  /** The branches some tracked Version matches, in order. */
  function Matching(branches: seq<Branch>, ids: seq<VersionId>, rows: map<VersionId, Version>): (r: seq<Branch>)
    requires AllIn(ids, rows)
    ensures |r| <= |branches|
    ensures forall b :: b in r <==> b in branches && FindTracking(ids, rows, b).Some?
  {
    if branches == [] then []
    else
      var rest := Matching(branches[1..], ids, rows);
      if FindTracking(ids, rows, branches[0]).Some? then [branches[0]] + rest else rest
  }

  function Min(a: nat, b: nat): nat {
    if a <= b then a else b
  }

  /**
   * `intersectionWith(branches, branchVersions, comparator)` as lodash runs
   * it: the matched branches in order, but no more of them than the shorter
   * of the two lists (`cap`). Its check against the result collected so far
   * compares branches with the comparator, which never holds between two
   * branches, so duplicates are kept.
   */
  function CappedMatching(branches: seq<Branch>, ids: seq<VersionId>, rows: map<VersionId, Version>, cap: nat)
    : (r: seq<Branch>)
    requires AllIn(ids, rows)
    ensures |r| == Min(cap, |Matching(branches, ids, rows)|)
    ensures r == Matching(branches, ids, rows)[..|r|]
  {
    if branches == [] || cap == 0 then []
    else if FindTracking(ids, rows, branches[0]).Some? then [branches[0]] + CappedMatching(branches[1..], ids, rows, cap - 1)
    else CappedMatching(branches[1..], ids, rows, cap)
  }

  /** The branches the update loop visits. */
  function ToUpdate(branches: seq<Branch>, ids: seq<VersionId>, rows: map<VersionId, Version>): (r: seq<Branch>)
    requires AllIn(ids, rows)
    ensures forall b | b in r :: b in branches && FindTracking(ids, rows, b).Some?
  {
    CappedMatching(branches, ids, rows, Min(|branches|, |ids|))
  }

  /** Branch names as GitHub reports them: no two branches share a name. */
  predicate DistinctNames(branches: seq<Branch>) {
    forall i, j | 0 <= i < j < |branches| :: branches[i].name != branches[j].name
  }

  /** Keys listed without repetition. */
  predicate DistinctIds(ids: seq<VersionId>) {
    forall i, j | 0 <= i < j < |ids| :: ids[i] != ids[j]
  }

  function IdSet(ids: seq<VersionId>): set<VersionId> {
    set id | id in ids
  }

  lemma {:induction false} DistinctSetSize(ids: seq<VersionId>)
    requires DistinctIds(ids)
    ensures |IdSet(ids)| == |ids|
  {
    if ids != [] {
      assert DistinctIds(ids[1..]) by {
        forall i, j | 0 <= i < j < |ids[1..]| ensures ids[1..][i] != ids[1..][j] {
          assert ids[1..][i] == ids[i + 1] && ids[1..][j] == ids[j + 1];
        }
      }
      DistinctSetSize(ids[1..]);
      assert IdSet(ids) == {ids[0]} + IdSet(ids[1..]);
      assert ids[0] !in IdSet(ids[1..]) by {
        forall j | 0 <= j < |ids[1..]| ensures ids[1..][j] != ids[0] {
          assert ids[1..][j] == ids[j + 1];
        }
      }
    }
  }

  lemma {:induction false} SubsetSize(a: set<VersionId>, b: set<VersionId>)
    requires a <= b
    ensures |a| <= |b|
    decreases |a|
  {
    if a != {} {
      var x :| x in a;
      SubsetSize(a - {x}, b - {x});
    }
  }

  /**
   * Matched branches with distinct names are matched by distinct Versions,
   * none of them among `used`; so there are no more of them than unused keys.
   */
  lemma {:induction false} MatchingFitsIds(branches: seq<Branch>, ids: seq<VersionId>, rows: map<VersionId, Version>, used: set<VersionId>)
    requires AllIn(ids, rows) && DistinctNames(branches)
    requires used <= IdSet(ids)
    requires forall b | b in branches && FindTracking(ids, rows, b).Some? :: FindTracking(ids, rows, b).value !in used
    ensures |Matching(branches, ids, rows)| + |used| <= |IdSet(ids)|
  {
    if branches == [] {
      SubsetSize(used, IdSet(ids));
    } else {
      var b := branches[0];
      assert DistinctNames(branches[1..]) by {
        forall i, j | 0 <= i < j < |branches[1..]| ensures branches[1..][i].name != branches[1..][j].name {
          assert branches[1..][i] == branches[i + 1] && branches[1..][j] == branches[j + 1];
        }
      }
      match FindTracking(ids, rows, b)
      case None =>
        MatchingFitsIds(branches[1..], ids, rows, used);
      case Some(id) =>
        forall c | c in branches[1..] && FindTracking(ids, rows, c).Some?
          ensures FindTracking(ids, rows, c).value !in used + {id}
        {
          var k :| 1 <= k < |branches| && branches[k] == c;
          assert branches[0].name != branches[k].name;
        }
        MatchingFitsIds(branches[1..], ids, rows, used + {id});
    }
  }

  /**
   * When branch names are distinct and the tracked keys are too, lodash's
   * length cap never bites: the update loop visits every matched branch.
   */
  lemma CapNeverBinds(branches: seq<Branch>, ids: seq<VersionId>, rows: map<VersionId, Version>)
    requires AllIn(ids, rows) && DistinctNames(branches) && DistinctIds(ids)
    ensures ToUpdate(branches, ids, rows) == Matching(branches, ids, rows)
  {
    MatchingFitsIds(branches, ids, rows, {});
    DistinctSetSize(ids);
  }

  /** The matched branches are a sub-list of the branches, so their names stay distinct. */
  lemma {:induction false} MatchingKeepsNamesDistinct(branches: seq<Branch>, ids: seq<VersionId>, rows: map<VersionId, Version>)
    requires AllIn(ids, rows) && DistinctNames(branches)
    ensures DistinctNames(Matching(branches, ids, rows))
  {
    if branches != [] {
      var rest := branches[1..];
      assert DistinctNames(rest) by {
        forall i, j | 0 <= i < j < |rest| ensures rest[i].name != rest[j].name {
          assert rest[i] == branches[i + 1] && rest[j] == branches[j + 1];
        }
      }
      MatchingKeepsNamesDistinct(rest, ids, rows);
      var m := Matching(rest, ids, rows);
      forall k | 0 <= k < |m| ensures m[k].name != branches[0].name {
        assert m[k] in rest;
        var i :| 0 <= i < |rest| && rest[i] == m[k];
        assert branches[i + 1] == m[k];
      }
    }
  }

  /**
   * With distinct names, each version branch is handled exactly once: it is
   * created when no tracked Version has its name and updated otherwise.
   */
  lemma EachBranchHandledOnce(branches: seq<Branch>, ids: seq<VersionId>, rows: map<VersionId, Version>)
    requires AllIn(ids, rows) && DistinctNames(branches) && DistinctIds(ids)
    ensures forall b | b in branches :: (b in ToCreate(branches, ids, rows)) != (b in ToUpdate(branches, ids, rows))
    ensures forall b | b in ToCreate(branches, ids, rows) + ToUpdate(branches, ids, rows) :: b in branches
  {
    CapNeverBinds(branches, ids, rows);
  }

  /**
   * Without distinct names the cap can bite: two matched branches named `v1`
   * and a single tracked Version give a one-branch update list.
   */
  lemma CapCanBind(v: Version, b1: Branch, b2: Branch)
    requires v.branchName == Some(b1.name) && b2.name == b1.name
    ensures Matching([b1, b2], [0], map[0 := v]) == [b1, b2]
    ensures ToUpdate([b1, b2], [0], map[0 := v]) == [b1]
  {
    assert [b1, b2][1..] == [b2];
  }
}
