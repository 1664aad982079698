/**
 * The base model every stored record extends: `save()` stamps the record's
 * timestamps before handing it to the ORM.
 */
module ApplicationModel {
  import opened Wrappers
  import opened Records

  /**
   * The timestamps `save()` leaves on a record (application.ts): `createdAt`
   * is kept when already set and is otherwise the current time; `updatedAt`
   * is always the current time.
   */
  function Touch(s: Stamps, now: Time): (r: Stamps)
    ensures r.updatedAt == Some(now)
    ensures s.createdAt.Some? ==> r.createdAt == s.createdAt
    ensures s.createdAt.None? ==> r.createdAt == Some(now)
  {
    Stamps(if s.createdAt.Some? then s.createdAt else Some(now), Some(now))
  }

  /** However often a record is saved, `createdAt` stays the time of its first save. */
  lemma {:induction false} CreatedAtFixedByFirstSave(s: Stamps, times: seq<Time>)
    requires s.createdAt.None? && |times| > 0
    ensures TouchAll(s, times).createdAt == Some(times[0])
    ensures TouchAll(s, times).updatedAt == Some(times[|times| - 1])
  {
    if |times| > 1 {
      CreatedAtKept(Touch(s, times[0]), times[1..]);
      assert times[1..][|times[1..]| - 1] == times[|times| - 1];
    }
  }

  lemma {:induction false} CreatedAtKept(s: Stamps, times: seq<Time>)
    requires s.createdAt.Some? && |times| > 0
    ensures TouchAll(s, times).createdAt == s.createdAt
    ensures TouchAll(s, times).updatedAt == Some(times[|times| - 1])
    decreases |times|
  {
    if |times| > 1 {
      CreatedAtKept(Touch(s, times[0]), times[1..]);
      assert times[1..][|times[1..]| - 1] == times[|times| - 1];
    }
  }

  /** The stamps after one `save()` at each of the given times, in order. */
  function TouchAll(s: Stamps, times: seq<Time>): Stamps
    decreases |times|
  {
    if times == [] then s else TouchAll(Touch(s, times[0]), times[1..])
  }

  /** What `save()` writes for an addon: the record itself, with `updatedAt` set to the
   * current time and `createdAt` set to it unless already set. */
  function SavedAddon(a: Addon, now: Time): (r: Addon)
    ensures r.(stamps := a.stamps) == a
    ensures r.stamps.updatedAt == Some(now)
    ensures r.stamps.createdAt == if a.stamps.createdAt.Some? then a.stamps.createdAt else Some(now)
  {
    a.(stamps := Touch(a.stamps, now))
  }

  /** What `save()` writes for a version: the record itself, with `updatedAt` set to the
   * current time and `createdAt` set to it unless already set. */
  function SavedVersion(v: Version, now: Time): (r: Version)
    ensures r.(stamps := v.stamps) == v
    ensures r.stamps.updatedAt == Some(now)
    ensures r.stamps.createdAt == if v.stamps.createdAt.Some? then v.stamps.createdAt else Some(now)
  {
    v.(stamps := Touch(v.stamps, now))
  }

  /** What `save()` writes for a version alias: the record itself, with `updatedAt` set to the
   * current time and `createdAt` set to it unless already set. */
  function SavedAlias(a: VersionAlias, now: Time): (r: VersionAlias)
    ensures r.(stamps := a.stamps) == a
    ensures r.stamps.updatedAt == Some(now)
    ensures r.stamps.createdAt == if a.stamps.createdAt.Some? then a.stamps.createdAt else Some(now)
  {
    a.(stamps := Touch(a.stamps, now))
  }
}
