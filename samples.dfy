/** Sample identification (seqdat/project.py, `walk` and
    `Project.identify_samples`): a directory tree is flattened into its
    files, and the sample list is the sorted, duplicate-free list of the
    prefixes before the first `_` of the `.fastq.gz` file names. */
module Samples {
  import opened Common
  import opened Text

  /** An entry of a directory: a file (anything that is not a directory)
      or a directory whose entries are listed in `iterdir` order. */
  datatype Node =
    | File(name: string, content: seq<byte>)
    | Dir(name: string, entries: seq<Node>)

  /** A file yielded by `walk`: its name and its bytes. */
  datatype DataFile = DataFile(name: string, content: seq<byte>)

  // ---------------------------------------------------------------------
  // walk

  /** `walk`: every file below the given entries, depth first, in `iterdir`
      order; a directory is descended into and never yielded itself. */
  function Walk(entries: seq<Node>): seq<DataFile>
    decreases entries
  {
    if entries == [] then []
    else
      (match entries[0]
       case File(n, c) => [DataFile(n, c)]
       case Dir(_, sub) => Walk(sub))
      + Walk(entries[1..])
  }

  /** The reference notion of "a file somewhere below these entries". */
  ghost predicate Holds(entries: seq<Node>, f: DataFile)
    decreases entries
  {
    exists i :: 0 <= i < |entries| &&
      (entries[i] == File(f.name, f.content) ||
       (entries[i].Dir? && Holds(entries[i].entries, f)))
  }

  lemma {:induction false} HoldsSplit(entries: seq<Node>, f: DataFile)
    requires entries != []
    ensures Holds(entries, f) <==>
      (entries[0] == File(f.name, f.content) ||
       (entries[0].Dir? && Holds(entries[0].entries, f)) ||
       Holds(entries[1..], f))
  {
    if Holds(entries, f) {
      var i :| 0 <= i < |entries| &&
        (entries[i] == File(f.name, f.content) ||
         (entries[i].Dir? && Holds(entries[i].entries, f)));
      if i > 0 {
        assert entries[1..][i - 1] == entries[i];
      }
    }
    if Holds(entries[1..], f) {
      var i :| 0 <= i < |entries[1..]| &&
        (entries[1..][i] == File(f.name, f.content) ||
         (entries[1..][i].Dir? && Holds(entries[1..][i].entries, f)));
      assert entries[i + 1] == entries[1..][i];
    }
  }

  /** `walk` yields exactly the files held in the tree. */
  lemma {:induction false} WalkYieldsExactlyTheFiles(entries: seq<Node>, f: DataFile)
    ensures f in Walk(entries) <==> Holds(entries, f)
    decreases entries
  {
    if entries != [] {
      HoldsSplit(entries, f);
      WalkYieldsExactlyTheFiles(entries[1..], f);
      match entries[0]
      case File(n, c) =>
      case Dir(_, sub) =>
        WalkYieldsExactlyTheFiles(sub, f);
    }
  }

  // ---------------------------------------------------------------------
  // Python's ordering of strings

  /** Python's `a < b` on strings: lexicographic by code point. */
  predicate Less(a: string, b: string)
    decreases |a|
  {
    if a == [] then b != []
    else if b == [] then false
    else if a[0] != b[0] then a[0] < b[0]
    else Less(a[1..], b[1..])
  }

  lemma {:induction false} LessIrreflexive(a: string)
    ensures !Less(a, a)
    decreases |a|
  {
    if a != [] {
      LessIrreflexive(a[1..]);
    }
  }

  lemma {:induction false} LessTransitive(a: string, b: string, c: string)
    requires Less(a, b) && Less(b, c)
    ensures Less(a, c)
    decreases |a|
  {
    if a != [] && a[0] == b[0] && b[0] == c[0] {
      LessTransitive(a[1..], b[1..], c[1..]);
    }
  }

  lemma {:induction false} LessTotal(a: string, b: string)
    requires a != b
    ensures Less(a, b) || Less(b, a)
    decreases |a|
  {
    if a != [] && b != [] && a[0] == b[0] {
      assert a == [a[0]] + a[1..] && b == [b[0]] + b[1..];
      LessTotal(a[1..], b[1..]);
    }
  }

  // ---------------------------------------------------------------------
  // sorted(set(xs))

  /** Ascending without repeats. */
  predicate StrictlySorted(s: seq<string>) {
    forall i, j :: 0 <= i < j < |s| ==> Less(s[i], s[j])
  }

  /** Adding one element to a strictly sorted list. */
  function Insert(x: string, s: seq<string>): (r: seq<string>)
    requires StrictlySorted(s)
    ensures StrictlySorted(r)
    ensures forall y :: y in r <==> y == x || y in s
    decreases |s|
  {
    if s == [] then [x]
    else if x == s[0] then s
    else if Less(x, s[0]) then
      assert forall j :: 0 < j < |s| ==> Less(x, s[j]) by {
        forall j | 0 < j < |s| ensures Less(x, s[j]) {
          LessTransitive(x, s[0], s[j]);
        }
      }
      [x] + s
    else
      LessTotal(x, s[0]);
      var rest := Insert(x, s[1..]);
      assert forall y :: y in rest ==> Less(s[0], y) by {
        forall y | y in rest ensures Less(s[0], y) {
          if y != x {
            var j :| 0 <= j < |s[1..]| && s[1..][j] == y;
            assert s[j + 1] == y;
          }
        }
      }
      [s[0]] + rest
  }

  /** `sorted(set(xs))`: the distinct elements of `xs`, ascending. */
  function SortedDistinct(xs: seq<string>): (r: seq<string>)
    ensures StrictlySorted(r)
    ensures forall y :: y in r <==> y in xs
    decreases |xs|
  {
    if xs == [] then []
    else
      var init := xs[..|xs| - 1];
      assert xs == init + [xs[|xs| - 1]];
      Insert(xs[|xs| - 1], SortedDistinct(init))
  }

  /** A strictly sorted list is determined by its elements; this is why the
      order in which files are visited cannot change the sample list. */
  lemma {:induction false} SortedListsWithSameElements(a: seq<string>, b: seq<string>)
    requires StrictlySorted(a) && StrictlySorted(b)
    requires forall y :: y in a <==> y in b
    ensures a == b
    decreases |a|
  {
    if a == [] {
      assert forall i :: 0 <= i < |b| ==> b[i] in a;
    } else {
      assert a[0] in a && b != [];
      assert b[0] in b && a[0] in b && b[0] in a;
      if a[0] != b[0] {
        var i :| 0 <= i < |b| && b[i] == a[0];
        var j :| 0 <= j < |a| && a[j] == b[0];
        assert i > 0 && j > 0;
        LessTransitive(a[0], b[0], a[0]);
        LessIrreflexive(a[0]);
      }
      forall y ensures y in a[1..] <==> y in b[1..] {
        if y in a[1..] {
          var j :| 0 < j < |a| && a[j] == y;
          assert Less(a[0], y);
          LessIrreflexive(y);
          assert y in a;
          var k :| 0 <= k < |b| && b[k] == y;
          assert k > 0;
          assert b[1..][k - 1] == y;
        }
        if y in b[1..] {
          var j :| 0 < j < |b| && b[j] == y;
          assert Less(b[0], y);
          LessIrreflexive(y);
          assert y in b;
          var k :| 0 <= k < |a| && a[k] == y;
          assert k > 0;
          assert a[1..][k - 1] == y;
        }
      }
      SortedListsWithSameElements(a[1..], b[1..]);
      assert a == [a[0]] + a[1..] && b == [b[0]] + b[1..];
    }
  }

  // ---------------------------------------------------------------------
  // identify_samples

  /** The list identify_samples builds before sorting: for each walked file
      whose suffix list is exactly `.fastq`, `.gz`, in walk order, the part of
      its name before the first `_`. */
  function Ids(files: seq<DataFile>): (ids: seq<string>)
    ensures forall x :: x in ids <==>
      exists f :: f in files && IsFastqGz(f.name) && SampleId(f.name) == x
    decreases |files|
  {
    if files == [] then []
    else
      var rest := Ids(files[1..]);
      assert forall f :: f in files <==> f == files[0] || f in files[1..];
      (if IsFastqGz(files[0].name) then [SampleId(files[0].name)] else []) + rest
  }

  /** The sample list identify_samples computes from the walked files: it
      is ascending, has no repeats, and holds exactly the prefixes of the
      `.fastq.gz` names. */
  function SampleList(files: seq<DataFile>): (samples: seq<string>)
    ensures StrictlySorted(samples)
    ensures forall x :: x in samples <==>
      exists f :: f in files && IsFastqGz(f.name) && SampleId(f.name) == x
  {
    SortedDistinct(Ids(files))
  }

  /** Visiting order does not matter: two walks that meet the same files,
      in whatever order and however often, give the same sample list. */
  lemma SampleListIgnoresOrder(a: seq<DataFile>, b: seq<DataFile>)
    requires forall f :: f in a <==> f in b
    ensures SampleList(a) == SampleList(b)
  {
    SortedListsWithSameElements(SampleList(a), SampleList(b));
  }

  /** The same for two directory trees that hold the same files, whatever
      the order of their entries and however they are nested. */
  lemma TreesWithSameFilesHaveSameSamples(t: seq<Node>, u: seq<Node>)
    requires forall f :: Holds(t, f) <==> Holds(u, f)
    ensures SampleList(Walk(t)) == SampleList(Walk(u))
  {
    forall f ensures f in Walk(t) <==> f in Walk(u) {
      WalkYieldsExactlyTheFiles(t, f);
      WalkYieldsExactlyTheFiles(u, f);
    }
    SampleListIgnoresOrder(Walk(t), Walk(u));
  }
}
