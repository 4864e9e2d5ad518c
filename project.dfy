/** A sequencing project (seqdat/project.py, class `Project`): its
    attributes, its directory in the database (meta.yml, README.md and the
    downloaded data), and the operations that update them. */
module ProjectModel {
  import opened Common
  import opened Text
  import opened Samples
  import opened Metadata
  import opened InfoSheet
  import opened Consolidation

  /** The directory `<database>/<name>` of one project: whether it exists,
      the record in meta.yml, the text of README.md and the tree under
      `data/` (each `None` when the file or directory is missing). */
  class ProjectDir {
    var present: bool
    var meta: Option<Record>
    var readme: Option<string>
    var data: Option<seq<Node>>

    ghost predicate Valid()
      reads this
    {
      !present ==> meta.None? && readme.None? && data.None?
    }

    constructor (present: bool, meta: Option<Record>, readme: Option<string>, data: Option<seq<Node>>)
      requires !present ==> meta.None? && readme.None? && data.None?
      ensures Valid()
      ensures this.present == present && this.meta == meta && this.readme == readme && this.data == data
    {
      this.present := present;
      this.meta := meta;
      this.readme := readme;
      this.data := data;
    }

    /** `mkdir(exist_ok=True)`: the directory exists afterwards, its contents untouched. */
    method MakeDir()
      requires Valid()
      modifies this
      ensures Valid() && present
      ensures meta == old(meta) && readme == old(readme) && data == old(data)
    {
      present := true;
    }

    /** Writing meta.yml. */
    method WriteMeta(r: Record)
      requires Valid() && present
      modifies this
      ensures Valid() && present
      ensures meta == Some(r) && readme == old(readme) && data == old(data)
    {
      meta := Some(r);
    }

    /** Writing README.md (opened for text writing, so it is replaced). */
    method WriteReadme(text: string)
      requires Valid() && present
      modifies this
      ensures Valid() && present
      ensures readme == Some(text) && meta == old(meta) && data == old(data)
    {
      readme := Some(text);
    }
  }

  /** A sample list that is set and not empty (Python's truth value). */
  predicate HasSamples(samples: Option<seq<string>>) {
    samples.Some? && samples.value != []
  }

  class Project {
    var name: string
    var owner: Option<string>
    var runType: Option<string>
    var samples: Option<seq<string>>

    /** The project's directory, bound when the project is made. */
    const dir: ProjectDir

    ghost predicate Valid()
      reads this, dir
    {
      dir.Valid()
    }

    /** The attributes, as `__dict__` holds them. */
    function Record(): Record
      reads this
    {
      Metadata.Record(name, owner, runType, samples)
    }

    constructor (name: string, owner: Option<string>, runType: Option<string>, samples: Option<seq<string>>, dir: ProjectDir)
      ensures this.dir == dir
      ensures Record() == Metadata.Record(name, owner, runType, samples)
    {
      this.name := name;
      this.owner := owner;
      this.runType := runType;
      this.samples := samples;
      this.dir := dir;
    }

    /** from_metadata: a project built from meta.yml, or from the default
        record when there is none; it is an error if the project directory
        does not exist. */
    static method Load(name: string, dir: ProjectDir) returns (r: Result<Project, Error>)
      requires dir.Valid()
      ensures r.Failure? <==> !dir.present
      ensures r.Failure? ==> r.error == NotAProject
      ensures r.Success? ==>
        (fresh(r.value) && r.value.dir == dir && r.value.Valid() &&
         FromMetadata(name, dir.meta, dir.present) == Success(r.value.Record()))
    {
      var loaded := FromMetadata(name, dir.meta, dir.present);
      if loaded.Failure? {
        return Failure(loaded.error);
      }
      var rec := loaded.value;
      var p := new Project(rec.name, rec.owner, rec.runType, rec.samples, dir);
      r := Success(p);
    }

    /** identify_samples: the sample list becomes the sorted distinct
        prefixes of the `.fastq.gz` files under `data/`; when there is no
        `data/` directory the list is left as it was. */
    method IdentifySamples()
      requires Valid()
      modifies this
      ensures Valid()
      ensures name == old(name) && owner == old(owner) && runType == old(runType)
      ensures dir.data.Some? ==> samples == Some(SampleList(Walk(dir.data.value)))
      ensures dir.data.None? ==> samples == old(samples)
    {
      if dir.data.Some? {
        samples := Some(SampleList(Walk(dir.data.value)));
      }
    }

    /** move_data: make sure there is a sample list (identifying samples when
        it is unset or empty, and stopping when it still is), refuse an
        output directory that already exists, then consolidate every
        sample's files into it, stopping at the first sample that fails.
        `found` is what the recursive glob of the data directory yields, in
        the order of the running Python version. */
    method MoveData(out: OutDir, found: seq<DataFile>, prefix: string, suffix: string, pairedEnd: bool)
      returns (r: Outcome<Error>)
      requires Valid() && out.Valid()
      requires GlobbedFrom(dir.data, found)
      modifies this, out
      ensures Valid() && out.Valid()
      ensures name == old(name) && owner == old(owner) && runType == old(runType)
      ensures HasSamples(old(samples)) ==> samples == old(samples)
      ensures !HasSamples(old(samples)) ==>
        samples == if dir.data.Some? then Some(SampleList(Walk(dir.data.value))) else old(samples)
      ensures !HasSamples(samples) ==>
        r == Fail(NoData) && out.present == old(out.present) && out.files == old(out.files)
      ensures HasSamples(samples) && old(out.present) ==>
        r == Fail(DestinationExists) && out.present && out.files == old(out.files)
      ensures HasSamples(samples) && !old(out.present) ==>
        out.present &&
        Written(out.files, r) == ConsolidateAll(map[], SampleOrder(found), SampleGroups(found), prefix, suffix, pairedEnd)
    {
      if !HasSamples(samples) {
        IdentifySamples();
        if !HasSamples(samples) {
          return Fail(NoData);
        }
      }
      if out.present {
        return Fail(DestinationExists);
      }
      out.Create();
      r := ConsolidateInto(out, found, prefix, suffix, pairedEnd);
    }

    /** save_metadata: write the attributes to meta.yml when there is none,
        leave it when it already holds them, and otherwise replace it only
        when the user agrees (`confirm`). */
    method SaveMetadata(confirm: bool) returns (outcome: SaveOutcome)
      requires Valid()
      modifies dir
      ensures Valid() && dir.present
      ensures outcome == SaveDecision(old(dir.meta), Record(), confirm)
      ensures dir.meta == SavedRecord(old(dir.meta), Record(), confirm)
      ensures dir.readme == old(dir.readme) && dir.data == old(dir.data)
    {
      var current := Record();
      if dir.meta.Some? {
        if dir.meta.value == current {
          return Unchanged;
        }
        if !confirm {
          return Kept;
        }
        outcome := Replaced;
      } else {
        dir.MakeDir();
        outcome := Created;
      }
      dir.WriteMeta(current);
    }

    /** _update_attrs: one `setattr` per entry, in order. */
    method UpdateAttrs(us: seq<Update>)
      modifies this
      ensures Record() == ApplyAll(old(Record()), us)
    {
      for i := 0 to |us|
        invariant Record() == ApplyAll(old(Record()), us[..i])
      {
        assert us[..i + 1][..i] == us[..i];
        match us[i]
        case SetName(n) => name := n;
        case SetOwner(o) => owner := o;
        case SetRunType(t) => runType := t;
        case SetSamples(s) => samples := s;
      }
      assert us[..|us|] == us;
    }

    /** update_metadata: the owner and run type take the user's answers
        (the name and the sample list are not offered for change), then the
        record is saved. */
    method UpdateMetadata(ownerAnswer: Option<string>, runTypeAnswer: Option<string>, confirm: bool)
      returns (outcome: SaveOutcome)
      requires Valid()
      modifies this, dir
      ensures Valid() && dir.present
      ensures Record() == old(Record()).(owner := ownerAnswer, runType := runTypeAnswer)
      ensures outcome == SaveDecision(old(dir.meta), Record(), confirm)
      ensures dir.meta == SavedRecord(old(dir.meta), Record(), confirm)
      ensures dir.readme == old(dir.readme) && dir.data == old(dir.data)
    {
      var answers := [SetOwner(ownerAnswer), SetRunType(runTypeAnswer)];
      ghost var before := Record();
      assert answers[..1] == [SetOwner(ownerAnswer)] && answers[..1][..0] == [];
      assert ApplyAll(before, answers[..1]) == before.(owner := ownerAnswer);
      UpdateAttrs(answers);
      outcome := SaveMetadata(confirm);
    }

    /** generate_info_sheet: the project directory is made if missing; an
        existing README.md is rewritten, when the user agrees, as the header
        composed from the attributes followed by its own tail. A README.md
        without the marker line stops with an error; when there is no
        README.md nothing is written. */
    method GenerateInfoSheet(confirm: bool) returns (r: Outcome<Error>)
      requires Valid()
      modifies dir
      ensures Valid() && dir.present
      ensures dir.meta == old(dir.meta) && dir.data == old(dir.data)
      ensures old(dir.readme).None? ==> r == Pass && dir.readme.None?
      ensures old(dir.readme).Some? && InfoTail(old(dir.readme).value).Failure? ==>
        r == Fail(MarkerMissing) && dir.readme == old(dir.readme)
      ensures old(dir.readme).Some? && InfoTail(old(dir.readme).value).Success? ==>
        r == Pass &&
        dir.readme == if confirm then Some(Header(Record()) + InfoTail(old(dir.readme).value).value) else old(dir.readme)
    {
      var header := Header(Record());
      dir.MakeDir();
      if dir.readme.Some? {
        var tail := GetExistingInfoSheet(dir.readme.value);
        if tail.Failure? {
          return Fail(tail.error);
        }
        if confirm {
          dir.WriteReadme(header + tail.value);
        }
      }
      r := Pass;
    }
  }
}
