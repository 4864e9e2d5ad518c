/** Per-sample consolidation (seqdat/project.py: the grouping loop of
    `Project.move_data`, and `cat_fastqgz`): the `.fastq.gz` files of the
    data directory are grouped by sample prefix, and each group is
    concatenated, byte for byte and in order, into one or two output files. */
module Consolidation {
  import opened Common
  import opened Text
  import opened Samples

  const R1Marker: string := "_R1_"
  const R2Marker: string := "_R2_"

  // ---------------------------------------------------------------------
  // The output directory

  /** The directory move_data writes into: whether it exists, and the
      bytes of each file in it. */
  class OutDir {
    var present: bool
    var files: map<string, seq<byte>>

    ghost predicate Valid()
      reads this
    {
      !present ==> files == map[]
    }

    constructor (present: bool, files: map<string, seq<byte>>)
      requires !present ==> files == map[]
      ensures Valid() && this.present == present && this.files == files
    {
      this.present := present;
      this.files := files;
    }

    /** `mkdir` of a directory that is not there yet. */
    method Create()
      requires Valid() && !present
      modifies this
      ensures Valid() && present && files == map[]
    {
      present := true;
    }

    /** Opening a file for binary writing: it is created, or cut to length zero. */
    method Open(name: string)
      requires present
      modifies this
      ensures Valid() && present && files == old(files)[name := []]
    {
      files := files[name := []];
    }

    /** Copying one input into an open output (`shutil.copyfileobj`). */
    method Append(name: string, bytes: seq<byte>)
      requires present && name in files
      modifies this
      ensures Valid() && present && files == old(files)[name := old(files)[name] + bytes]
    {
      files := files[name := files[name] + bytes];
    }
  }

  // ---------------------------------------------------------------------
  // Selecting files

  /** The files that the recursive `*.fastq.gz` glob of move_data finds
      in the data directory (none when the directory is missing): with
      their multiplicities, exactly the walked files whose names match. */
  function Glob(data: Option<seq<Node>>): (found: seq<DataFile>)
    ensures data.None? ==> found == []
    ensures data.Some? ==> multiset(found) == multiset(GlobMatches(Walk(data.value)))
    ensures forall f :: f in found <==> data.Some? && f in Walk(data.value) && MatchesGlob(f.name)
  {
    if data.None? then []
    else
      GlobTreePermutes(data.value);
      SameMembers(GlobTree(data.value), GlobMatches(Walk(data.value)));
      GlobTree(data.value)
  }

  /** `found` is an enumeration the glob may yield from `data`: nothing for
      a missing directory, otherwise the matching walked files in some order.
      The order is that of the running Python version; `Glob` is one of them. */
  predicate GlobbedFrom(data: Option<seq<Node>>, found: seq<DataFile>)
  {
    if data.None? then found == [] else multiset(found) == multiset(GlobMatches(Walk(data.value)))
  }

  /** Every enumeration the glob may yield holds exactly the matching walked files. */
  lemma GlobbedFiles(data: Option<seq<Node>>, found: seq<DataFile>)
    requires GlobbedFrom(data, found)
    ensures forall f :: f in found <==> data.Some? && f in Walk(data.value) && MatchesGlob(f.name)
  {
    if data.Some? {
      SameMembers(found, GlobMatches(Walk(data.value)));
    }
  }

  lemma SameMembers(a: seq<DataFile>, b: seq<DataFile>)
    requires multiset(a) == multiset(b)
    ensures forall f :: f in a <==> f in b
  {
    forall f ensures f in a <==> f in b {
      assert f in a <==> f in multiset(a);
      assert f in b <==> f in multiset(b);
    }
  }

  /** The order of pathlib's recursive glob in CPython 3.8 to 3.11: the
      directory's matching files in entry order, then each subdirectory's
      matches in turn, depth first. (CPython 3.12 lists directories in the
      order `Path.walk` yields their children, so a deeper directory's
      matches can come after a later sibling's; its enumeration is another
      one satisfying `GlobbedFrom`.) */
  function GlobTree(entries: seq<Node>): seq<DataFile>
    decreases entries, 1
  {
    OwnMatches(entries) + BelowMatches(entries)
  }

  /** The matching files directly in a directory, in entry order. */
  function OwnMatches(entries: seq<Node>): (r: seq<DataFile>)
    ensures forall f :: f in r <==> File(f.name, f.content) in entries && MatchesGlob(f.name)
    decreases entries, 0
  {
    if entries == [] then []
    else
      assert forall n :: n in entries <==> n == entries[0] || n in entries[1..];
      (match entries[0]
       case File(n, c) => if MatchesGlob(n) then [DataFile(n, c)] else []
       case Dir(_, _) => [])
      + OwnMatches(entries[1..])
  }

  /** The glob's hits in the subdirectories, one subdirectory after the other. */
  function BelowMatches(entries: seq<Node>): seq<DataFile>
    decreases entries, 0
  {
    if entries == [] then []
    else
      (match entries[0]
       case File(_, _) => []
       case Dir(_, sub) => GlobTree(sub))
      + BelowMatches(entries[1..])
  }

  /** A matching file placed after a subdirectory is still found before the
      subdirectory's match, while `walk` meets them the other way round. */
  lemma GlobBeforeSubdirectory(d: string, a: DataFile, b: DataFile)
    requires MatchesGlob(a.name) && MatchesGlob(b.name)
    ensures var entries := [Dir(d, [File(b.name, b.content)]), File(a.name, a.content)];
      GlobTree(entries) == [a, b] && Walk(entries) == [b, a]
  {
    var inner := [File(b.name, b.content)];
    var entries := [Dir(d, inner), File(a.name, a.content)];
    assert entries[1..][1..] == [] && inner[1..] == [];
    assert OwnMatches(inner) == [b];
    assert BelowMatches(inner) == [];
    assert GlobTree(inner) == [b];
    assert OwnMatches(entries) == [a];
    assert BelowMatches(entries) == [b];
    assert Walk(inner) == [b];
    assert Walk(entries[1..]) == [a];
  }

  /** The walked files whose names match, in walk order: the reference the
      glob is compared with. */
  function GlobMatches(files: seq<DataFile>): (r: seq<DataFile>)
    ensures forall f :: f in r <==> f in files && MatchesGlob(f.name)
    decreases |files|
  {
    if files == [] then []
    else
      assert forall f :: f in files <==> f == files[0] || f in files[1..];
      (if MatchesGlob(files[0].name) then [files[0]] else []) + GlobMatches(files[1..])
  }

  lemma {:induction false} GlobMatchesAppend(a: seq<DataFile>, b: seq<DataFile>)
    ensures GlobMatches(a + b) == GlobMatches(a) + GlobMatches(b)
    decreases |a|
  {
    if a == [] {
      assert a + b == b;
    } else {
      assert (a + b)[1..] == a[1..] + b;
      GlobMatchesAppend(a[1..], b);
    }
  }

  /** The glob finds the same files as filtering the walk, each as often,
      only in another order. */
  lemma {:induction false} GlobTreePermutes(entries: seq<Node>)
    ensures multiset(GlobTree(entries)) == multiset(GlobMatches(Walk(entries)))
    decreases entries
  {
    if entries != [] {
      var rest := entries[1..];
      GlobTreePermutes(rest);
      GlobTreeCons(entries);
      GlobTreeSingle(entries[0]);
      match entries[0]
      case File(n, c) =>
        GlobMatchesAppend([DataFile(n, c)], Walk(rest));
        assert [DataFile(n, c)][1..] == [];
      case Dir(_, sub) =>
        GlobTreePermutes(sub);
        GlobMatchesAppend(Walk(sub), Walk(rest));
    }
  }

  lemma GlobTreeCons(entries: seq<Node>)
    requires entries != []
    ensures multiset(GlobTree(entries)) == multiset(GlobTree([entries[0]])) + multiset(GlobTree(entries[1..]))
  {
    var e := [entries[0]];
    assert e[1..] == [];
    assert OwnMatches(entries) == OwnMatches(e) + OwnMatches(entries[1..]);
    assert BelowMatches(entries) == BelowMatches(e) + BelowMatches(entries[1..]);
  }

  lemma GlobTreeSingle(e: Node)
    ensures GlobTree([e]) ==
      match e
      case File(n, c) => (if MatchesGlob(n) then [DataFile(n, c)] else [])
      case Dir(_, sub) => GlobTree(sub)
  {
    assert [e][1..] == [];
    assert OwnMatches([e][1..]) == [] && BelowMatches([e][1..]) == [];
    match e
    case File(n, c) =>
      assert BelowMatches([e]) == [];
    case Dir(_, sub) =>
      assert OwnMatches([e]) == [];
      assert BelowMatches([e]) == GlobTree(sub);
  }

  /** The glob lists a directory's own matching files first, before any file
      of its subdirectories. */
  lemma GlobOwnFilesFirst(entries: seq<Node>)
    ensures var own := OwnMatches(entries);
      |own| <= |GlobTree(entries)| && GlobTree(entries)[..|own|] == own
  {
  }

  /** The files of a group whose name contains `marker`, in order (the two
      list comprehensions of cat_fastqgz). */
  function WithMarker(files: seq<DataFile>, marker: string): (r: seq<DataFile>)
    ensures forall f :: f in r <==> f in files && Contains(f.name, marker)
    decreases |files|
  {
    if files == [] then []
    else
      assert forall f :: f in files <==> f == files[0] || f in files[1..];
      (if Contains(files[0].name, marker) then [files[0]] else []) + WithMarker(files[1..], marker)
  }

  /** Selecting from two lists one after the other selects from each in
      turn; with the one-file case, this fixes the selection's order and its
      repeats. */
  lemma {:induction false} WithMarkerAppend(a: seq<DataFile>, b: seq<DataFile>, marker: string)
    ensures WithMarker(a + b, marker) == WithMarker(a, marker) + WithMarker(b, marker)
    decreases |a|
  {
    if a == [] {
      assert a + b == b;
    } else {
      assert (a + b)[1..] == a[1..] + b;
      WithMarkerAppend(a[1..], b, marker);
    }
  }

  lemma WithMarkerOne(f: DataFile, marker: string)
    ensures WithMarker([f], marker) == if Contains(f.name, marker) then [f] else []
  {
    assert [f][1..] == [];
  }

  /** The bytes of the files, one after the other. */
  function Concat(files: seq<DataFile>): seq<byte>
    decreases |files|
  {
    if files == [] then [] else Concat(files[..|files| - 1]) + files[|files| - 1].content
  }

  // ---------------------------------------------------------------------
  // Grouping by sample (move_data)

  /** The sample prefix of each found file, in order. */
  function IdsOf(found: seq<DataFile>): (ids: seq<string>)
    ensures |ids| == |found|
    ensures forall i :: 0 <= i < |found| ==> ids[i] == SampleId(found[i].name)
  {
    seq(|found|, i requires 0 <= i < |found| => SampleId(found[i].name))
  }

  /** The elements of `xs` in order of first appearance, each once: the
      order in which keys enter a Python dictionary. */
  function Dedup(xs: seq<string>): (r: seq<string>)
    ensures forall i, j :: 0 <= i < j < |r| ==> r[i] != r[j]
    ensures forall y :: y in r <==> y in xs
    decreases |xs|
  {
    if xs == [] then []
    else
      var init := xs[..|xs| - 1];
      assert xs == init + [xs[|xs| - 1]];
      var d := Dedup(init);
      if xs[|xs| - 1] in d then d else d + [xs[|xs| - 1]]
  }

  /** The files of one sample, in the order they were found. */
  function FilesOf(found: seq<DataFile>, k: string): seq<DataFile>
    decreases |found|
  {
    if found == [] then []
    else
      var last := found[|found| - 1];
      FilesOf(found[..|found| - 1], k) + (if SampleId(last.name) == k then [last] else [])
  }

  /** A sample's group holds exactly the found files with that prefix. */
  lemma {:induction false} FilesOfMembers(found: seq<DataFile>, k: string)
    ensures forall f :: f in FilesOf(found, k) <==> f in found && SampleId(f.name) == k
    decreases |found|
  {
    if found != [] {
      var init := found[..|found| - 1];
      var last := found[|found| - 1];
      assert found == init + [last];
      FilesOfMembers(init, k);
    }
  }

  /** The keys of the dictionary move_data builds, in insertion order. */
  function SampleOrder(found: seq<DataFile>): seq<string> {
    Dedup(IdsOf(found))
  }

  /** The dictionary move_data builds, file by file: each file is appended
      to the list of its prefix, a new prefix starting an empty list. */
  function SampleGroups(found: seq<DataFile>): map<string, seq<DataFile>>
    decreases |found|
  {
    if found == [] then map[]
    else
      var groups := SampleGroups(found[..|found| - 1]);
      var last := found[|found| - 1];
      var key := SampleId(last.name);
      groups[key := (if key in groups then groups[key] else []) + [last]]
  }

  // Kept apart from its callers so that their proofs stay cheap.
  lemma IdsOfSnoc(found: seq<DataFile>, f: DataFile)
    ensures IdsOf(found + [f]) == IdsOf(found) + [SampleId(f.name)]
  {
  }

  lemma DedupSnoc(xs: seq<string>, x: string)
    ensures Dedup(xs + [x]) == if x in Dedup(xs) then Dedup(xs) else Dedup(xs) + [x]
  {
    assert (xs + [x])[..|xs|] == xs;
  }

  /** The dictionary has one key per sample prefix met, in the order first
      met, and each key's list holds exactly the files with that prefix, in
      the order they were found. */
  lemma {:induction false} GroupsMatchFiles(found: seq<DataFile>)
    ensures forall k :: k in SampleGroups(found) <==> k in SampleOrder(found)
    ensures forall k :: k in SampleGroups(found) ==> SampleGroups(found)[k] == FilesOf(found, k)
    ensures forall k :: k !in SampleGroups(found) ==> FilesOf(found, k) == []
    decreases |found|
  {
    if found != [] {
      var init := found[..|found| - 1];
      var last := found[|found| - 1];
      var key := SampleId(last.name);
      assert found == init + [last];
      GroupsMatchFiles(init);
      IdsOfSnoc(init, last);
      forall k ensures FilesOf(found, k) == FilesOf(init, k) + (if key == k then [last] else []) {
      }
    }
  }

  /** The `setdefault(...).append(...)` loop of move_data. The dictionary is
      returned as its keys in insertion order and the map itself. */
  method GroupBySample(found: seq<DataFile>) returns (order: seq<string>, groups: map<string, seq<DataFile>>)
    ensures order == SampleOrder(found)
    ensures groups == SampleGroups(found)
    ensures forall k :: k in order ==> k in groups
  {
    order, groups := [], map[];
    for i := 0 to |found|
      invariant order == SampleOrder(found[..i])
      invariant groups == SampleGroups(found[..i])
    {
      assert found[..i + 1] == found[..i] + [found[i]];
      GroupStep(found[..i], found[i]);
      var key := SampleId(found[i].name);
      var members := if key in groups then groups[key] else [];
      if key !in groups {
        order := order + [key];
      }
      groups := groups[key := members + [found[i]]];
    }
    assert found[..|found|] == found;
    GroupsMatchFiles(found);
  }

  /** One more file: its prefix is a new key at the end of the order when it
      was not a key yet, and the file joins the end of that key's list. */
  lemma GroupStep(found: seq<DataFile>, f: DataFile)
    ensures var key := SampleId(f.name);
      SampleOrder(found + [f]) ==
        (if key in SampleGroups(found) then SampleOrder(found) else SampleOrder(found) + [key]) &&
      SampleGroups(found + [f]) == SampleGroups(found)[key := Group(SampleGroups(found), key) + [f]]
  {
    var key := SampleId(f.name);
    assert (found + [f])[..|found|] == found;
    KeyIffOrdered(found, key);
    IdsOfSnoc(found, f);
    DedupSnoc(IdsOf(found), key);
  }

  lemma KeyIffOrdered(found: seq<DataFile>, key: string)
    ensures key in SampleGroups(found) <==> key in SampleOrder(found)
  {
    GroupsMatchFiles(found);
  }

  /** Every found file is in the group of its own prefix and in no other. */
  lemma EachFileInItsOwnGroup(found: seq<DataFile>, f: DataFile, k: string)
    requires f in found
    ensures SampleId(f.name) in SampleGroups(found)
    ensures k in SampleGroups(found) ==> (f in SampleGroups(found)[k] <==> SampleId(f.name) == k)
  {
    GroupsMatchFiles(found);
    FilesOfMembers(found, k);
    var i :| 0 <= i < |found| && found[i] == f;
    assert IdsOf(found)[i] == SampleId(f.name);
  }

  /** The groups one after the other, in key order. */
  function Regroup(groups: map<string, seq<DataFile>>, keys: seq<string>): seq<DataFile>
    decreases |keys|
  {
    if keys == [] then [] else Regroup(groups, keys[..|keys| - 1]) + Group(groups, keys[|keys| - 1])
  }

  /** The found files whose prefix is one of `keys`, in order. */
  function FilesWithIdIn(found: seq<DataFile>, keys: seq<string>): seq<DataFile>
    decreases |found|
  {
    if found == [] then []
    else
      var last := found[|found| - 1];
      FilesWithIdIn(found[..|found| - 1], keys) + (if SampleId(last.name) in keys then [last] else [])
  }

  lemma {:induction false} FilesWithOneMoreId(found: seq<DataFile>, keys: seq<string>, k: string)
    requires k !in keys
    ensures multiset(FilesWithIdIn(found, keys + [k])) == multiset(FilesWithIdIn(found, keys)) + multiset(FilesOf(found, k))
    decreases |found|
  {
    if found != [] {
      var init := found[..|found| - 1];
      var last := found[|found| - 1];
      FilesWithOneMoreId(init, keys, k);
      var id := SampleId(last.name);
      assert id in keys + [k] <==> id in keys || id == k;
    }
  }

  lemma {:induction false} RegroupCollects(found: seq<DataFile>, keys: seq<string>, groups: map<string, seq<DataFile>>)
    requires forall i, j :: 0 <= i < j < |keys| ==> keys[i] != keys[j]
    requires forall k :: k in keys ==> Group(groups, k) == FilesOf(found, k)
    ensures multiset(Regroup(groups, keys)) == multiset(FilesWithIdIn(found, keys))
    decreases |keys|
  {
    if keys == [] {
      FilesWithNoId(found);
    } else {
      var init := keys[..|keys| - 1];
      var k := keys[|keys| - 1];
      assert keys == init + [k];
      RegroupCollects(found, init, groups);
      FilesWithOneMoreId(found, init, k);
    }
  }

  lemma {:induction false} FilesWithNoId(found: seq<DataFile>)
    ensures FilesWithIdIn(found, []) == []
    decreases |found|
  {
    if found != [] {
      FilesWithNoId(found[..|found| - 1]);
    }
  }

  lemma {:induction false} FilesWithEveryId(found: seq<DataFile>, keys: seq<string>)
    requires forall f :: f in found ==> SampleId(f.name) in keys
    ensures FilesWithIdIn(found, keys) == found
    decreases |found|
  {
    if found != [] {
      var init := found[..|found| - 1];
      assert found == init + [found[|found| - 1]];
      FilesWithEveryId(init, keys);
    }
  }

  /** The groups partition the found files: taken together they hold every
      found file exactly as often as it was found. */
  lemma GroupsPartitionFiles(found: seq<DataFile>)
    ensures multiset(Regroup(SampleGroups(found), SampleOrder(found))) == multiset(found)
  {
    GroupsMatchFiles(found);
    var order := SampleOrder(found);
    RegroupCollects(found, order, SampleGroups(found));
    forall f | f in found ensures SampleId(f.name) in order {
      EachFileInItsOwnGroup(found, f, SampleId(f.name));
    }
    FilesWithEveryId(found, order);
  }

  // ---------------------------------------------------------------------
  // cat_fastqgz

  /** The paired-end R1 output; it carries neither prefix nor suffix. */
  function R1Name(sample: string): string {
    sample + ".R1.raw.fastq.gz"
  }

  /** The paired-end R2 output, with the prefix and suffix. */
  function R2Name(prefix: string, sample: string, suffix: string): string {
    prefix + sample + ".R2" + suffix + ".fastq.gz"
  }

  /** The single output of unpaired mode. */
  function UnpairedName(sample: string): string {
    sample + ".raw.fastq.gz"
  }

  /** The list a dictionary holds for a key; no key stands for no files. */
  function Group(groups: map<string, seq<DataFile>>, k: string): seq<DataFile> {
    if k in groups then groups[k] else []
  }

  /** The files of the output directory and how the operation ended. */
  datatype Written = Written(files: map<string, seq<byte>>, outcome: Outcome<Error>)

  /** What one call of cat_fastqgz does to the output directory. */
  function CatStep(out: map<string, seq<byte>>, sample: string, files: seq<DataFile>,
                   prefix: string, suffix: string, pairedEnd: bool): Written
  {
    if pairedEnd then
      Written(out[R1Name(sample) := Concat(WithMarker(files, R1Marker))]
                 [R2Name(prefix, sample, suffix) := Concat(WithMarker(files, R2Marker))], Pass)
    else if WithMarker(files, R2Marker) != [] then Written(out, Fail(AmbiguousMode))
    else Written(out[UnpairedName(sample) := Concat(files)], Pass)
  }

  /** The loop of move_data over the groups: cat_fastqgz once per sample, in
      key order; the first failure ends the whole operation and leaves what
      earlier samples wrote. */
  function ConsolidateAll(out: map<string, seq<byte>>, order: seq<string>, groups: map<string, seq<DataFile>>,
                          prefix: string, suffix: string, pairedEnd: bool): Written
    decreases |order|
  {
    if order == [] then Written(out, Pass)
    else
      var before := ConsolidateAll(out, order[..|order| - 1], groups, prefix, suffix, pairedEnd);
      var k := order[|order| - 1];
      if before.outcome.Fail? then before else CatStep(before.files, k, Group(groups, k), prefix, suffix, pairedEnd)
  }

  /** One `with open(...)` block of cat_fastqgz: open the output, then copy
      the inputs into it one by one. */
  method StreamInto(out: OutDir, name: string, group: seq<DataFile>)
    requires out.present
    modifies out
    ensures out.Valid() && out.present
    ensures out.files == old(out.files)[name := Concat(group)]
  {
    out.Open(name);
    for i := 0 to |group|
      invariant out.Valid() && out.present
      invariant out.files == old(out.files)[name := Concat(group[..i])]
    {
      assert group[..i + 1][..i] == group[..i];
      out.Append(name, group[i].content);
    }
    assert group[..|group|] == group;
  }

  /** cat_fastqgz. Paired: the R1 output gets the files naming `_R1_`, the R2
      output those naming `_R2_`; both are written even when empty, and a
      file naming both markers goes to both. Unpaired: any `_R2_` file stops
      the operation before anything is opened; otherwise all files, in
      order, go to the single output. */
  method CatFastqGz(sample: string, files: seq<DataFile>, out: OutDir,
                    prefix: string, suffix: string, pairedEnd: bool) returns (r: Outcome<Error>)
    requires out.Valid() && out.present
    modifies out
    ensures out.Valid() && out.present
    ensures pairedEnd ==>
      (r == Pass &&
       out.files == old(out.files)[R1Name(sample) := Concat(WithMarker(files, R1Marker))]
                                  [R2Name(prefix, sample, suffix) := Concat(WithMarker(files, R2Marker))])
    ensures !pairedEnd && WithMarker(files, R2Marker) != [] ==>
      (r == Fail(AmbiguousMode) && out.files == old(out.files))
    ensures !pairedEnd && WithMarker(files, R2Marker) == [] ==>
      (r == Pass && out.files == old(out.files)[UnpairedName(sample) := Concat(files)])
    ensures Written(out.files, r) == CatStep(old(out.files), sample, files, prefix, suffix, pairedEnd)
  {
    var r1Files := WithMarker(files, R1Marker);
    var r2Files := WithMarker(files, R2Marker);
    if pairedEnd {
      StreamInto(out, R1Name(sample), r1Files);
      StreamInto(out, R2Name(prefix, sample, suffix), r2Files);
    } else {
      if r2Files != [] {
        return Fail(AmbiguousMode);
      }
      StreamInto(out, UnpairedName(sample), files);
    }
    r := Pass;
  }

  /** The second half of move_data, once the output directory is made:
      group the found files by sample, then run cat_fastqgz on each group in
      key order, stopping at the first failure. */
  method ConsolidateInto(out: OutDir, found: seq<DataFile>, prefix: string, suffix: string, pairedEnd: bool)
    returns (r: Outcome<Error>)
    requires out.Valid() && out.present && out.files == map[]
    modifies out
    ensures out.Valid() && out.present
    ensures Written(out.files, r) == ConsolidateAll(map[], SampleOrder(found), SampleGroups(found), prefix, suffix, pairedEnd)
  {
    var order, groups := GroupBySample(found);
    r := Pass;
    for i := 0 to |order|
      invariant out.Valid() && out.present
      invariant r == Pass
      invariant Written(out.files, r) == ConsolidateAll(map[], order[..i], groups, prefix, suffix, pairedEnd)
    {
      var sample := order[i];
      ghost var before := out.files;
      ConsolidateStep(order, groups, prefix, suffix, pairedEnd, i);
      r := CatFastqGz(sample, groups[sample], out, prefix, suffix, pairedEnd);
      assert Written(out.files, r) == CatStep(before, sample, Group(groups, sample), prefix, suffix, pairedEnd);
      if r.Fail? {
        FailureIsFinal(map[], order, groups, prefix, suffix, pairedEnd, i + 1);
        return;
      }
    }
    assert order[..|order|] == order;
  }

  lemma ConsolidateStep(order: seq<string>, groups: map<string, seq<DataFile>>,
                        prefix: string, suffix: string, pairedEnd: bool, i: nat)
    requires i < |order|
    requires ConsolidateAll(map[], order[..i], groups, prefix, suffix, pairedEnd).outcome == Pass
    ensures ConsolidateAll(map[], order[..i + 1], groups, prefix, suffix, pairedEnd)
         == CatStep(ConsolidateAll(map[], order[..i], groups, prefix, suffix, pairedEnd).files,
                    order[i], Group(groups, order[i]), prefix, suffix, pairedEnd)
  {
    assert order[..i + 1][..i] == order[..i];
  }

  // ---------------------------------------------------------------------
  // What consolidation as a whole produces

  /** Once a sample has failed, later samples change nothing. */
  lemma {:induction false} FailureIsFinal(out: map<string, seq<byte>>, order: seq<string>, groups: map<string, seq<DataFile>>,
                                          prefix: string, suffix: string, pairedEnd: bool, j: nat)
    requires j <= |order|
    requires ConsolidateAll(out, order[..j], groups, prefix, suffix, pairedEnd).outcome.Fail?
    ensures ConsolidateAll(out, order, groups, prefix, suffix, pairedEnd)
         == ConsolidateAll(out, order[..j], groups, prefix, suffix, pairedEnd)
    decreases |order|
  {
    if j < |order| {
      var init := order[..|order| - 1];
      assert init[..j] == order[..j];
      FailureIsFinal(out, init, groups, prefix, suffix, pairedEnd, j);
    } else {
      assert order[..j] == order;
    }
  }

  /** No group of the keys holds an `_R2_` file. */
  predicate FreeOfR2(order: seq<string>, groups: map<string, seq<DataFile>>) {
    forall i :: 0 <= i < |order| ==> WithMarker(Group(groups, order[i]), R2Marker) == []
  }

  lemma FreeOfR2Snoc(order: seq<string>, groups: map<string, seq<DataFile>>)
    requires order != []
    ensures FreeOfR2(order, groups) <==>
      FreeOfR2(order[..|order| - 1], groups) && WithMarker(Group(groups, order[|order| - 1]), R2Marker) == []
  {
    var init := order[..|order| - 1];
    assert forall i :: 0 <= i < |init| ==> init[i] == order[i];
  }

  /** Consolidation succeeds exactly when it is paired, or no group holds an
      `_R2_` file. */
  lemma {:induction false} ConsolidateSucceedsIff(out: map<string, seq<byte>>, order: seq<string>, groups: map<string, seq<DataFile>>,
                                                  prefix: string, suffix: string, pairedEnd: bool)
    ensures ConsolidateAll(out, order, groups, prefix, suffix, pairedEnd).outcome.Pass? <==>
      pairedEnd || FreeOfR2(order, groups)
    decreases |order|
  {
    if order != [] {
      ConsolidateSucceedsIff(out, order[..|order| - 1], groups, prefix, suffix, pairedEnd);
      FreeOfR2Snoc(order, groups);
    }
  }

  lemma {:induction false} NoneMarked(files: seq<DataFile>, marker: string)
    requires forall f :: f in files ==> !Contains(f.name, marker)
    ensures WithMarker(files, marker) == []
    decreases |files|
  {
    if files != [] {
      assert files[0] in files;
      NoneMarked(files[1..], marker);
    }
  }

  /** No found file names `_R2_`, so no group holds one. */
  lemma GroupsFreeOfR2(found: seq<DataFile>, i: nat)
    requires forall f :: f in found ==> !Contains(f.name, R2Marker)
    requires i < |SampleOrder(found)|
    ensures WithMarker(Group(SampleGroups(found), SampleOrder(found)[i]), R2Marker) == []
  {
    var k := SampleOrder(found)[i];
    GroupsMatchFiles(found);
    FilesOfMembers(found, k);
    NoneMarked(Group(SampleGroups(found), k), R2Marker);
  }

  /** A found file that names `_R2_` shows up among its group's `_R2_` files. */
  lemma R2FileInItsGroup(found: seq<DataFile>, f: DataFile)
    requires f in found && Contains(f.name, R2Marker)
    ensures exists i :: 0 <= i < |SampleOrder(found)| && WithMarker(Group(SampleGroups(found), SampleOrder(found)[i]), R2Marker) != []
  {
    var k := SampleId(f.name);
    EachFileInItsOwnGroup(found, f, k);
    GroupsMatchFiles(found);
    var order := SampleOrder(found);
    var i :| 0 <= i < |order| && order[i] == k;
    assert f in WithMarker(Group(SampleGroups(found), order[i]), R2Marker);
  }

  /** For the groups move_data builds: consolidation succeeds exactly when it
      is paired, or no found file names `_R2_`. */
  lemma ConsolidationSucceedsIff(found: seq<DataFile>, prefix: string, suffix: string, pairedEnd: bool)
    ensures ConsolidateAll(map[], SampleOrder(found), SampleGroups(found), prefix, suffix, pairedEnd).outcome.Pass? <==>
      pairedEnd || forall f :: f in found ==> !Contains(f.name, R2Marker)
  {
    ConsolidateSucceedsIff(map[], SampleOrder(found), SampleGroups(found), prefix, suffix, pairedEnd);
    if forall f :: f in found ==> !Contains(f.name, R2Marker) {
      forall i | 0 <= i < |SampleOrder(found)|
        ensures WithMarker(Group(SampleGroups(found), SampleOrder(found)[i]), R2Marker) == []
      {
        GroupsFreeOfR2(found, i);
      }
    } else {
      var f :| f in found && Contains(f.name, R2Marker);
      R2FileInItsGroup(found, f);
    }
  }

  /** Whether move_data succeeds does not depend on the order the glob
      yields the files in, so it is the same under every Python version. */
  lemma SuccessIgnoresGlobOrder(a: seq<DataFile>, b: seq<DataFile>, prefix: string, suffix: string, pairedEnd: bool)
    requires multiset(a) == multiset(b)
    ensures ConsolidateAll(map[], SampleOrder(a), SampleGroups(a), prefix, suffix, pairedEnd).outcome.Pass? <==>
      ConsolidateAll(map[], SampleOrder(b), SampleGroups(b), prefix, suffix, pairedEnd).outcome.Pass?
  {
    ConsolidationSucceedsIff(a, prefix, suffix, pairedEnd);
    ConsolidationSucceedsIff(b, prefix, suffix, pairedEnd);
    SameMembers(a, b);
  }

  lemma R1NameInjective(a: string, b: string)
    ensures R1Name(a) == R1Name(b) ==> a == b
  {
    if R1Name(a) == R1Name(b) {
      assert |a| == |b|;
      assert a == R1Name(a)[..|a|] && b == R1Name(b)[..|b|];
    }
  }

  lemma R2NameInjective(prefix: string, a: string, b: string, suffix: string)
    ensures R2Name(prefix, a, suffix) == R2Name(prefix, b, suffix) ==> a == b
  {
    var t := ".R2" + suffix + ".fastq.gz";
    assert R2Name(prefix, a, suffix) == prefix + a + t;
    assert R2Name(prefix, b, suffix) == prefix + b + t;
    if R2Name(prefix, a, suffix) == R2Name(prefix, b, suffix) {
      assert |a| == |b|;
      assert a == (prefix + a + t)[|prefix|..|prefix| + |a|];
      assert b == (prefix + b + t)[|prefix|..|prefix| + |b|];
    }
  }

  lemma UnpairedNameInjective(a: string, b: string)
    ensures UnpairedName(a) == UnpairedName(b) ==> a == b
  {
    if UnpairedName(a) == UnpairedName(b) {
      assert |a| == |b|;
      assert a == UnpairedName(a)[..|a|] && b == UnpairedName(b)[..|b|];
    }
  }

  /** Paired mode: each sample's R1 output is the in-order concatenation of
      its `_R1_` files and its R2 output that of its `_R2_` files, both
      present even when empty, provided no R1 output name coincides with an
      R2 output name (a later write would replace an earlier one). */
  lemma {:induction false} PairedOutputs(out: map<string, seq<byte>>, order: seq<string>, groups: map<string, seq<DataFile>>,
                                         prefix: string, suffix: string, i: nat)
    requires forall a, b :: 0 <= a < b < |order| ==> order[a] != order[b]
    requires forall a, b :: 0 <= a < |order| && 0 <= b < |order| ==>
      R1Name(order[a]) != R2Name(prefix, order[b], suffix)
    requires i < |order|
    ensures var w := ConsolidateAll(out, order, groups, prefix, suffix, true);
      var k := order[i];
      w.outcome == Pass &&
      R1Name(k) in w.files && w.files[R1Name(k)] == Concat(WithMarker(Group(groups, k), R1Marker)) &&
      R2Name(prefix, k, suffix) in w.files && w.files[R2Name(prefix, k, suffix)] == Concat(WithMarker(Group(groups, k), R2Marker))
    decreases |order|
  {
    var n := |order|;
    var init := order[..n - 1];
    var last := order[n - 1];
    PairedNeverFails(out, init, groups, prefix, suffix);
    var before := ConsolidateAll(out, init, groups, prefix, suffix, true);
    var r1 := Concat(WithMarker(Group(groups, last), R1Marker));
    var r2 := Concat(WithMarker(Group(groups, last), R2Marker));
    var w := ConsolidateAll(out, order, groups, prefix, suffix, true);
    assert w.files == before.files[R1Name(last) := r1][R2Name(prefix, last, suffix) := r2];
    if i < n - 1 {
      var k := order[i];
      assert init[i] == k;
      assert forall a, b :: 0 <= a < b < |init| ==> init[a] != init[b] by {
        assert forall a :: 0 <= a < |init| ==> init[a] == order[a];
      }
      assert forall a, b :: 0 <= a < |init| && 0 <= b < |init| ==>
        R1Name(init[a]) != R2Name(prefix, init[b], suffix) by {
        assert forall a :: 0 <= a < |init| ==> init[a] == order[a];
      }
      PairedOutputs(out, init, groups, prefix, suffix, i);
      assert k != last;
      R1NameInjective(k, last);
      R2NameInjective(prefix, k, last, suffix);
      TwoUpdatesKeep(before.files, R1Name(last), r1, R2Name(prefix, last, suffix), r2, R1Name(k));
      TwoUpdatesKeep(before.files, R1Name(last), r1, R2Name(prefix, last, suffix), r2, R2Name(prefix, k, suffix));
    } else {
      assert R1Name(last) != R2Name(prefix, last, suffix);
    }
  }

  /** Paired consolidation never fails. */
  lemma {:induction false} PairedNeverFails(out: map<string, seq<byte>>, order: seq<string>, groups: map<string, seq<DataFile>>,
                                            prefix: string, suffix: string)
    ensures ConsolidateAll(out, order, groups, prefix, suffix, true).outcome == Pass
    decreases |order|
  {
    if order != [] {
      PairedNeverFails(out, order[..|order| - 1], groups, prefix, suffix);
    }
  }

  /** With no suffix or the suffix `.raw`, no R1 output name is an R2
      output name, whatever the prefix and samples. */
  lemma R1R2Distinct(a: string, prefix: string, b: string, suffix: string)
    requires suffix == "" || suffix == ".raw"
    ensures R1Name(a) != R2Name(prefix, b, suffix)
  {
    var x := R1Name(a);
    var y := R2Name(prefix, b, suffix);
    var p := prefix + b;
    // Names of equal length differ at one position of their fixed tails.
    if |x| == |y| {
      if suffix == ".raw" {
        assert y == p + ".R2.raw.fastq.gz";
        assert x[|a| + 2] == '1' && y[|a| + 2] == '2';
      } else {
        assert y == p + ".R2.fastq.gz";
        assert x[|a| + 6] == 'w' && y[|a| + 6] == '2';
      }
    }
  }

  /** Paired move_data with no suffix or the suffix `.raw`: every sample
      of the enumeration gets both outputs, each the concatenation of its
      own `_R1_` or `_R2_` files in enumeration order. */
  lemma PairedMoveDataOutputs(found: seq<DataFile>, prefix: string, suffix: string, i: nat)
    requires suffix == "" || suffix == ".raw"
    requires i < |SampleOrder(found)|
    ensures var w := ConsolidateAll(map[], SampleOrder(found), SampleGroups(found), prefix, suffix, true);
      var k := SampleOrder(found)[i];
      w.outcome == Pass &&
      R1Name(k) in w.files && w.files[R1Name(k)] == Concat(WithMarker(FilesOf(found, k), R1Marker)) &&
      R2Name(prefix, k, suffix) in w.files &&
      w.files[R2Name(prefix, k, suffix)] == Concat(WithMarker(FilesOf(found, k), R2Marker))
  {
    var order := SampleOrder(found);
    forall a, b | 0 <= a < |order| && 0 <= b < |order|
      ensures R1Name(order[a]) != R2Name(prefix, order[b], suffix)
    {
      R1R2Distinct(order[a], prefix, order[b], suffix);
    }
    PairedOutputs(map[], order, SampleGroups(found), prefix, suffix, i);
    GroupsMatchFiles(found);
  }

  // Kept apart from its caller so that the caller's proof stays cheap.
  lemma TwoUpdatesKeep(m: map<string, seq<byte>>, k1: string, v1: seq<byte>, k2: string, v2: seq<byte>, key: string)
    requires key != k1 && key != k2 && key in m
    ensures key in m[k1 := v1][k2 := v2] && m[k1 := v1][k2 := v2][key] == m[key]
  {
  }

  /** Unpaired mode, when it succeeds: each sample's single output is the
      in-order concatenation of all its files. */
  lemma {:induction false} UnpairedOutputs(out: map<string, seq<byte>>, order: seq<string>, groups: map<string, seq<DataFile>>,
                                           prefix: string, suffix: string, i: nat)
    requires forall a, b :: 0 <= a < b < |order| ==> order[a] != order[b]
    requires ConsolidateAll(out, order, groups, prefix, suffix, false).outcome.Pass?
    requires i < |order|
    ensures var w := ConsolidateAll(out, order, groups, prefix, suffix, false);
      UnpairedName(order[i]) in w.files && w.files[UnpairedName(order[i])] == Concat(Group(groups, order[i]))
    decreases |order|
  {
    var n := |order|;
    var init := order[..n - 1];
    var last := order[n - 1];
    assert ConsolidateAll(out, init, groups, prefix, suffix, false).outcome.Pass?;
    if i < n - 1 {
      var k := order[i];
      assert forall a :: 0 <= a < |init| ==> init[a] == order[a];
      UnpairedOutputs(out, init, groups, prefix, suffix, i);
      assert k != last;
      UnpairedNameInjective(k, last);
    }
  }
}
