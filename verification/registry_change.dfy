/**
 * The registry follower's cursor (app/models/registry-change.ts): the row of
 * `registry_changes` with key 1, whose text column `last_handled_sequence`
 * holds the last change sequence handled. The write patches that row without
 * comparing, and nothing in the core creates the row.
 */
module RegistryChangeModel {
  import opened Wrappers
  import opened Text
  import opened Records
  import opened Db

  /** The key of the one cursor row. */
  const CursorId: nat := 1

  /**
   * `RegistryChange.getLastSequence()`: the stored text when row 1 exists
   * (itself possibly NULL), and null when it does not.
   */
  function LastSequenceIn(t: Tables): (r: Option<string>)
    ensures CursorId !in t.registryChanges ==> r.None?
    ensures CursorId in t.registryChanges ==> r == t.registryChanges[CursorId].lastHandledSequence
  {
    if CursorId in t.registryChanges then t.registryChanges[CursorId].lastHandledSequence else None
  }

  /**
   * `RegistryChange.updateLastSequence(seq)`: row 1's column set to the
   * number as the text column stores it, with no comparison to what was there.
   */
  function UpdateLastSequenceIn(t: Tables, sequence: nat): (r: Tables)
    requires WellFormed(t)
    ensures WellFormed(r)
  {
    PatchRegistryChangeIn(t, CursorId, Decimal(sequence))
  }

  /**
   * Reading after a write on an existing cursor row gives the number written:
   * its text, which reads back as exactly that number.
   */
  lemma ReadAfterWrite(t: Tables, sequence: nat)
    requires WellFormed(t) && CursorId in t.registryChanges
    ensures var r := LastSequenceIn(UpdateLastSequenceIn(t, sequence));
      r == Some(Decimal(sequence)) && DecimalValue(r.value) == sequence
  {
    DecimalRoundTrip(sequence);
  }

  /** With no cursor row the write changes nothing, and the next read is still null. */
  lemma WriteWithoutRowIsLost(t: Tables, sequence: nat)
    requires WellFormed(t) && CursorId !in t.registryChanges
    ensures UpdateLastSequenceIn(t, sequence) == t
    ensures LastSequenceIn(UpdateLastSequenceIn(t, sequence)).None?
  {
  }

  /**
   * Only the cursor row is touched: every other registry row, every other
   * table, and the cursor row's timestamps stay as they were.
   */
  lemma OnlyCursorChanges(t: Tables, sequence: nat)
    requires WellFormed(t)
    ensures var r := UpdateLastSequenceIn(t, sequence);
      && r.registryChanges.Keys == t.registryChanges.Keys
      && (forall id | id in t.registryChanges && id != CursorId :: r.registryChanges[id] == t.registryChanges[id])
      && (CursorId in t.registryChanges ==> r.registryChanges[CursorId].stamps == t.registryChanges[CursorId].stamps)
      && r.(registryChanges := t.registryChanges, journal := t.journal) == t
  {
  }

  /**
   * Nothing keeps the cursor from going back: after writing 10 and then 5,
   * the read gives 5.
   */
  lemma {:induction false} CursorCanGoBack(t: Tables)
    requires WellFormed(t) && CursorId in t.registryChanges
    ensures LastSequenceIn(UpdateLastSequenceIn(UpdateLastSequenceIn(t, 10), 5)) == Some("5")
    ensures LastSequenceIn(UpdateLastSequenceIn(t, 10)) == Some("10")
  {
    assert Decimal(5) == "5";
    assert Decimal(1) == "1" && Decimal(0) == "0";
    assert Decimal(10) == "10";
  }

  /** `RegistryChange.getLastSequence()` against the store. */
  method GetLastSequence(store: Store) returns (r: Option<string>)
    ensures r == LastSequenceIn(store.Snapshot())
  {
    if CursorId in store.registryChanges {
      r := store.registryChanges[CursorId].lastHandledSequence;
    } else {
      r := None;
    }
  }

  /** `RegistryChange.updateLastSequence(seq)` against the store. */
  method UpdateLastSequence(store: Store, sequence: nat)
    requires store.Valid()
    modifies store
    ensures store.Valid()
    ensures store.Snapshot() == UpdateLastSequenceIn(old(store.Snapshot()), sequence)
  {
    store.PatchRegistryChange(CursorId, Decimal(sequence));
  }
}
