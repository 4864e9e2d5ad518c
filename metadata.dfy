/** The project metadata record and the decisions made around it
    (seqdat/project.py: `from_metadata`, `save_metadata`, `update_metadata`
    and `_update_attrs`). The YAML file is an abstract value: either absent
    or holding one record. */
module Metadata {
  import opened Common

  /** The attributes of a project, as its `__dict__` holds them and as
      meta.yml stores them. `None` in `samples` is an unset sample list. */
  datatype Record = Record(
    name: string,
    owner: Option<string>,
    runType: Option<string>,
    samples: Option<seq<string>>)

  // ---------------------------------------------------------------------
  // from_metadata

  /** The record from_metadata substitutes when meta.yml is missing. */
  function DefaultRecord(name: string): Record {
    Record(name, None, None, None)
  }

  /** from_metadata: the stored record, or the default one when there is no
      meta.yml; a missing project directory stops with an error. */
  function FromMetadata(name: string, stored: Option<Record>, projectExists: bool): (r: Result<Record, Error>)
    ensures r.Failure? <==> !projectExists
    ensures r.Failure? ==> r.error == NotAProject
    ensures r.Success? && stored.Some? ==> r.value == stored.value
    ensures r.Success? && stored.None? ==>
      r.value.name == name && r.value.owner.None? && r.value.runType.None? && r.value.samples.None?
  {
    var record := if stored.Some? then stored.value else DefaultRecord(name);
    if projectExists then Success(record) else Failure(NotAProject)
  }

  // ---------------------------------------------------------------------
  // save_metadata

  /** What save_metadata did. */
  datatype SaveOutcome =
    | Created    // there was no meta.yml; it is written
    | Unchanged  // the stored record equals the current one; nothing is written
    | Replaced   // the records differ and the user agreed; the file is overwritten
    | Kept       // the records differ and the user declined; nothing is written

  /** The three-way decision of save_metadata; `confirm` is the answer the
      user would give to the overwrite question (asked only when the records
      differ). */
  function SaveDecision(stored: Option<Record>, current: Record, confirm: bool): SaveOutcome {
    if stored.None? then Created
    else if stored.value == current then Unchanged
    else if confirm then Replaced
    else Kept
  }

  /** The content of meta.yml after save_metadata. */
  function SavedRecord(stored: Option<Record>, current: Record, confirm: bool): (saved: Option<Record>)
    ensures saved == stored || saved == Some(current)
    ensures saved.Some?
    ensures saved != stored <==> SaveDecision(stored, current, confirm) in {Created, Replaced}
  {
    match SaveDecision(stored, current, confirm)
    case Created => Some(current)
    case Replaced => Some(current)
    case Unchanged => stored
    case Kept => stored
  }

  /** A stored record is never lost without consent: it is kept unless the
      user agreed to replace it. */
  lemma SaveNeedsConsent(stored: Record, current: Record, confirm: bool)
    ensures SavedRecord(Some(stored), current, confirm) != Some(stored) ==> confirm && stored != current
  {
  }

  /** Saving twice: the second save finds the record it would write and
      writes nothing, whatever the second answer. */
  lemma SaveIdempotent(stored: Option<Record>, current: Record, confirm: bool, again: bool)
    requires SaveDecision(stored, current, confirm) != Kept
    ensures SaveDecision(SavedRecord(stored, current, confirm), current, again) == Unchanged
    ensures SavedRecord(SavedRecord(stored, current, confirm), current, again) == SavedRecord(stored, current, confirm)
  {
  }

  /** Save then load: once a save has written (or found) the current record,
      loading the project gives that record back, every field included. */
  lemma SaveThenLoad(stored: Option<Record>, current: Record, confirm: bool)
    requires SaveDecision(stored, current, confirm) != Kept
    ensures FromMetadata(current.name, SavedRecord(stored, current, confirm), true) == Success(current)
  {
  }

  // ---------------------------------------------------------------------
  // _update_attrs

  /** The attribute names a `setattr` of _update_attrs can address. */
  datatype Field = NameField | OwnerField | RunTypeField | SamplesField

  /** One entry of the dictionary handed to _update_attrs. */
  datatype Update =
    | SetName(name: string)
    | SetOwner(owner: Option<string>)
    | SetRunType(runType: Option<string>)
    | SetSamples(samples: Option<seq<string>>)

  function FieldOf(u: Update): Field {
    match u
    case SetName(_) => NameField
    case SetOwner(_) => OwnerField
    case SetRunType(_) => RunTypeField
    case SetSamples(_) => SamplesField
  }

  /** The entries of a dictionary have distinct keys. */
  predicate DistinctFields(us: seq<Update>) {
    forall i, j :: 0 <= i < j < |us| ==> FieldOf(us[i]) != FieldOf(us[j])
  }

  /** One `setattr`. */
  function Apply(r: Record, u: Update): Record {
    match u
    case SetName(n) => r.(name := n)
    case SetOwner(o) => r.(owner := o)
    case SetRunType(t) => r.(runType := t)
    case SetSamples(s) => r.(samples := s)
  }

  /** The `setattr` loop of _update_attrs, entry by entry in order. */
  function ApplyAll(r: Record, us: seq<Update>): Record
    decreases |us|
  {
    if us == [] then r else Apply(ApplyAll(r, us[..|us| - 1]), us[|us| - 1])
  }

  /** _update_attrs changes only the attributes it is given: a field no entry
      names keeps its value. */
  lemma {:induction false} ApplyAllKeepsUnnamed(r: Record, us: seq<Update>)
    ensures (forall i :: 0 <= i < |us| ==> FieldOf(us[i]) != NameField) ==> ApplyAll(r, us).name == r.name
    ensures (forall i :: 0 <= i < |us| ==> FieldOf(us[i]) != OwnerField) ==> ApplyAll(r, us).owner == r.owner
    ensures (forall i :: 0 <= i < |us| ==> FieldOf(us[i]) != RunTypeField) ==> ApplyAll(r, us).runType == r.runType
    ensures (forall i :: 0 <= i < |us| ==> FieldOf(us[i]) != SamplesField) ==> ApplyAll(r, us).samples == r.samples
    decreases |us|
  {
    if us != [] {
      var init := us[..|us| - 1];
      ApplyAllKeepsUnnamed(r, init);
      assert forall i :: 0 <= i < |init| ==> init[i] == us[i];
    }
  }

  /** A field an entry names takes that entry's value (the keys of a
      dictionary being distinct, no later entry overrides it). */
  lemma {:induction false} ApplyAllSetsNamed(r: Record, us: seq<Update>)
    requires DistinctFields(us)
    ensures forall i :: 0 <= i < |us| ==>
      match us[i]
      case SetName(n) => ApplyAll(r, us).name == n
      case SetOwner(o) => ApplyAll(r, us).owner == o
      case SetRunType(t) => ApplyAll(r, us).runType == t
      case SetSamples(s) => ApplyAll(r, us).samples == s
    decreases |us|
  {
    if us != [] {
      var init := us[..|us| - 1];
      assert forall i :: 0 <= i < |init| ==> init[i] == us[i];
      assert DistinctFields(init);
      ApplyAllSetsNamed(r, init);
    }
  }
}
