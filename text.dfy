/** The string operations that seqdat/project.py relies on, written out with
    the semantics of the Python operations it calls: `str.split` with a
    one-character separator, `in` on strings, `pathlib.PurePath.suffixes`,
    a `*.fastq.gz` glob pattern, iteration over the lines of a text file and
    `str(n)` for a natural number. */
module Text {
  import opened Common

  // ---------------------------------------------------------------------
  // str.split(sep) and its inverse

  /** Python's `s.split(sep)` for a one-character separator: the maximal
      separator-free pieces of `s`, in order; there is always at least one. */
  function Split(s: string, sep: char): (parts: seq<string>)
    ensures |parts| >= 1
    ensures forall i :: 0 <= i < |parts| ==> sep !in parts[i]
    decreases |s|
  {
    if s == [] then [""]
    else
      var rest := Split(s[1..], sep);
      if s[0] == sep then [""] + rest
      else [[s[0]] + rest[0]] + rest[1..]
  }

  /** Python's `sep.join(parts)`. */
  function Join(parts: seq<string>, sep: char): string
    requires |parts| >= 1
    decreases |parts|
  {
    if |parts| == 1 then parts[0] else parts[0] + [sep] + Join(parts[1..], sep)
  }

  /** Joining the pieces of a split gives back the string. */
  lemma {:induction false} JoinSplit(s: string, sep: char)
    ensures Join(Split(s, sep), sep) == s
    decreases |s|
  {
    if s != [] {
      JoinSplit(s[1..], sep);
      var rest := Split(s[1..], sep);
      if s[0] == sep {
        assert ([""] + rest)[1..] == rest;
      } else if |rest| > 1 {
        var parts := [[s[0]] + rest[0]] + rest[1..];
        assert parts[1..] == rest[1..];
        assert Join(rest, sep) == rest[0] + [sep] + Join(rest[1..], sep);
      }
    }
  }

  lemma {:induction false} SplitWithoutSeparator(p: string, sep: char)
    requires sep !in p
    ensures Split(p, sep) == [p]
    decreases |p|
  {
    if p != [] {
      SplitWithoutSeparator(p[1..], sep);
      assert [p[0]] + p[1..] == p;
    }
  }

  lemma {:induction false} SplitAfterPiece(p: string, sep: char, t: string)
    requires sep !in p
    ensures Split(p + [sep] + t, sep) == [p] + Split(t, sep)
    decreases |p|
  {
    var s := p + [sep] + t;
    if p == [] {
      assert s[1..] == t;
    } else {
      assert s[1..] == p[1..] + [sep] + t;
      SplitAfterPiece(p[1..], sep, t);
      assert [p[0]] + p[1..] == p;
    }
  }

  /** Splitting a join of separator-free pieces gives back the pieces. */
  lemma {:induction false} SplitJoin(parts: seq<string>, sep: char)
    requires |parts| >= 1
    requires forall i :: 0 <= i < |parts| ==> sep !in parts[i]
    ensures Split(Join(parts, sep), sep) == parts
    decreases |parts|
  {
    if |parts| == 1 {
      SplitWithoutSeparator(parts[0], sep);
    } else {
      SplitJoin(parts[1..], sep);
      SplitAfterPiece(parts[0], sep, Join(parts[1..], sep));
      assert [parts[0]] + parts[1..] == parts;
    }
  }

  // ---------------------------------------------------------------------
  // The sample identifier of a file name: name.split("_")[0]

  lemma {:induction false} FirstPiece(s: string, sep: char)
    ensures var p := Split(s, sep)[0];
      |p| <= |s| && s[..|p|] == p && (|p| == |s| || s[|p|] == sep)
    decreases |s|
  {
    if s != [] {
      FirstPiece(s[1..], sep);
    }
  }

  /** `name.split("_")[0]`: the part of a file name before its first `_`
      (the whole name when it has none). */
  function SampleId(name: string): (id: string)
    ensures |id| <= |name| && name[..|id|] == id
    ensures '_' !in id
    ensures |id| == |name| || name[|id|] == '_'
  {
    FirstPiece(name, '_');
    Split(name, '_')[0]
  }

  // ---------------------------------------------------------------------
  // Substring test: Python's `m in s`

  predicate StartsWith(s: string, p: string) {
    |p| <= |s| && s[..|p|] == p
  }

  /** Python's `m in s` on strings. */
  predicate Contains(s: string, m: string)
    decreases |s|
  {
    StartsWith(s, m) || (s != [] && Contains(s[1..], m))
  }

  lemma {:induction false} ContainsInPrefix(a: string, b: string, m: string)
    requires Contains(a, m)
    ensures Contains(a + b, m)
    decreases |a|
  {
    if StartsWith(a, m) {
      assert (a + b)[..|m|] == a[..|m|];
    } else {
      assert (a + b)[1..] == a[1..] + b;
      ContainsInPrefix(a[1..], b, m);
    }
  }

  lemma {:induction false} ContainsInSuffix(a: string, b: string, m: string)
    requires Contains(b, m)
    ensures Contains(a + b, m)
    decreases |a|
  {
    if a == [] {
      assert a + b == b;
    } else {
      assert (a + b)[1..] == a[1..] + b;
      ContainsInSuffix(a[1..], b, m);
    }
  }

  // ---------------------------------------------------------------------
  // pathlib.PurePath.suffixes

  /** A string of dots only. */
  predicate AllDots(d: string)
    decreases |d|
  {
    d == [] || (d[0] == '.' && AllDots(d[1..]))
  }

  /** Python's `s.lstrip(".")`. */
  function StripLeadingDots(s: string): string
    decreases |s|
  {
    if s != [] && s[0] == '.' then StripLeadingDots(s[1..]) else s
  }

  /** `lstrip` removes a run of dots from the front, and all of them. */
  lemma {:induction false} StripLeadingDotsShape(s: string)
    ensures var r := StripLeadingDots(s);
      |r| <= |s| && r == s[|s| - |r|..] && (r == [] || r[0] != '.') && AllDots(s[..|s| - |r|])
    decreases |s|
  {
    if s != [] && s[0] == '.' {
      StripLeadingDotsShape(s[1..]);
      var r := StripLeadingDots(s);
      assert s[..|s| - |r|][1..] == s[1..][..|s[1..]| - |r|];
    }
  }

  lemma {:induction false} StripPastDots(d: string, s: string)
    requires AllDots(d)
    requires s == [] || s[0] != '.'
    ensures StripLeadingDots(d + s) == s
    decreases |d|
  {
    if d == [] {
      assert d + s == s;
    } else {
      assert (d + s)[1..] == d[1..] + s;
      StripPastDots(d[1..], s);
    }
  }

  /** Each piece with a dot in front, as `suffixes` builds its list. */
  function Dotted(pieces: seq<string>): (r: seq<string>)
    ensures |r| == |pieces|
    ensures forall i :: 0 <= i < |r| ==> r[i] == "." + pieces[i]
    decreases |pieces|
  {
    if pieces == [] then [] else ["." + pieces[0]] + Dotted(pieces[1..])
  }

  /** `PurePath(name).suffixes` as CPython's pathlib computes it: nothing
      when the name ends with a dot; otherwise the leading dots are dropped,
      the rest is split on dots, and every piece after the first becomes a
      suffix. */
  function Suffixes(name: string): seq<string> {
    if name != [] && name[|name| - 1] == '.' then []
    else
      var pieces := Split(StripLeadingDots(name), '.');
      Dotted(pieces[1..])
  }

  const FastqGz: string := ".fastq.gz"

  /** The file test of identify_samples: the suffix list is exactly
      `.fastq` followed by `.gz`. */
  predicate IsFastqGz(name: string) {
    Suffixes(name) == [".fastq", ".gz"]
  }

  /** The glob `*.fastq.gz` of move_data (a `*` matches any string). */
  predicate MatchesGlob(name: string) {
    |name| >= |FastqGz| && name[|name| - |FastqGz|..] == FastqGz
  }

  lemma DottedFastqGz(pieces: seq<string>)
    requires Dotted(pieces) == [".fastq", ".gz"]
    ensures pieces == ["fastq", "gz"]
  {
    assert |pieces| == 2;
    assert pieces[0] == ("." + pieces[0])[1..] == ".fastq"[1..];
    assert pieces[1] == ("." + pieces[1])[1..] == ".gz"[1..];
  }

  /** `<dots><stem>.fastq.gz` where the stem, once leading dots are
      stripped, is non-empty and has no dot. */
  predicate FastqGzShaped(name: string) {
    MatchesGlob(name) &&
    var stem := StripLeadingDots(name[..|name| - |FastqGz|]);
    stem != [] && '.' !in stem
  }

  lemma JoinFastqGz(stem: string)
    ensures Join([stem, "fastq", "gz"], '.') == stem + FastqGz
  {
    assert [stem, "fastq", "gz"][1..] == ["fastq", "gz"];
    assert ["fastq", "gz"][1..] == ["gz"];
  }

  lemma DottedFastqGzPieces()
    ensures Dotted(["fastq", "gz"]) == [".fastq", ".gz"]
  {
    assert "." + "fastq" == ".fastq";
    assert "." + "gz" == ".gz";
  }

  /** The pieces of `<stem>.fastq.gz`, for a stem without dots. */
  lemma StemPieces(stem: string)
    requires '.' !in stem
    ensures Split(stem + FastqGz, '.') == [stem, "fastq", "gz"]
  {
    JoinFastqGz(stem);
    SplitJoin([stem, "fastq", "gz"], '.');
  }

  /** A name made of leading dots and a stripped part. */
  lemma DotsThenRest(name: string)
    ensures var r := StripLeadingDots(name);
      |r| <= |name| && name == name[..|name| - |r|] + r && AllDots(name[..|name| - |r|]) && (r == [] || r[0] != '.')
  {
    StripLeadingDotsShape(name);
    var r := StripLeadingDots(name);
    assert name == name[..|name| - |r|] + name[|name| - |r|..];
  }

  // Kept apart from its caller so that the caller's proof stays cheap.
  lemma Reassociate(name: string, pre: string, tail: string, dots: string, stem: string)
    requires name == pre + tail && pre == dots + stem
    ensures name == dots + (stem + tail)
  {
  }

  /** Stripping the leading dots of a name whose prefix before position
      `m` starts, after its own leading dots, with something other than a
      dot. */
  lemma StripPrefixDots(name: string, m: nat)
    requires m <= |name|
    requires StripLeadingDots(name[..m]) != []
    ensures StripLeadingDots(name) == StripLeadingDots(name[..m]) + name[m..]
  {
    var pre := name[..m];
    var stem := StripLeadingDots(pre);
    DotsThenRest(pre);
    var dots := pre[..|pre| - |stem|];
    assert name == pre + name[m..];
    Reassociate(name, pre, name[m..], dots, stem);
    StripDecomposed(name, dots, stem + name[m..]);
  }

  lemma StripDecomposed(name: string, dots: string, rest: string)
    requires name == dots + rest && AllDots(dots)
    requires rest != [] && rest[0] != '.'
    ensures StripLeadingDots(name) == rest
  {
    StripPastDots(dots, rest);
  }

  lemma {:induction false} ShapedIsFastqGz(name: string)
    requires FastqGzShaped(name)
    ensures IsFastqGz(name)
  {
    var stem := StripLeadingDots(name[..|name| - |FastqGz|]);
    StripPrefixDots(name, |name| - |FastqGz|);
    StemPieces(stem);
    DottedFastqGzPieces();
    assert [stem, "fastq", "gz"][1..] == ["fastq", "gz"];
    assert name[|name| - 1] == FastqGz[|FastqGz| - 1];
  }

  /** A stripped name whose suffix list is `.fastq`, `.gz` is a dot-free,
      non-empty stem followed by `.fastq.gz`. */
  lemma StrippedFastqGz(stripped: string)
    requires stripped == [] || stripped[0] != '.'
    requires Dotted(Split(stripped, '.')[1..]) == [".fastq", ".gz"]
    ensures var stem := Split(stripped, '.')[0];
      stripped == stem + FastqGz && stem != [] && '.' !in stem
  {
    var pieces := Split(stripped, '.');
    DottedFastqGz(pieces[1..]);
    assert pieces == [pieces[0], "fastq", "gz"] by {
      assert pieces == [pieces[0]] + pieces[1..];
    }
    JoinSplit(stripped, '.');
    JoinFastqGz(pieces[0]);
  }

  lemma {:induction false} FastqGzIsShaped(name: string)
    requires IsFastqGz(name)
    ensures FastqGzShaped(name)
  {
    var stripped := StripLeadingDots(name);
    assert name == [] || name[|name| - 1] != '.';
    DotsThenRest(name);
    StrippedFastqGz(stripped);
    var stem := Split(stripped, '.')[0];
    var dots := name[..|name| - |stripped|];
    assert name == (dots + stem) + FastqGz;
    assert name[..|name| - |FastqGz|] == dots + stem;
    StripPastDots(dots, stem);
  }

  /** The suffix test holds exactly for names `<dots><stem>.fastq.gz` whose
      stem, once leading dots are stripped, is non-empty and has no dot.
      So "S1_L001.fastq.gz" passes but "S1.L001.fastq.gz" and ".fastq.gz"
      do not. */
  lemma FastqGzShape(name: string)
    ensures IsFastqGz(name) <==> FastqGzShaped(name)
  {
    if IsFastqGz(name) {
      FastqGzIsShaped(name);
    }
    if FastqGzShaped(name) {
      ShapedIsFastqGz(name);
    }
  }

  lemma GlobAdmitsEveryFastqGz(name: string)
    ensures IsFastqGz(name) ==> MatchesGlob(name)
  {
    FastqGzShape(name);
  }

  /** A stem that has a dot after its first character makes a glob match
      that the suffix test refuses. */
  lemma DottedStemNotFastqGz(stem: string)
    requires stem != [] && stem[0] != '.' && '.' in stem
    ensures MatchesGlob(stem + FastqGz) && !IsFastqGz(stem + FastqGz)
  {
    var name := stem + FastqGz;
    assert name[..|name| - |FastqGz|] == stem;
    assert name[|name| - |FastqGz|..] == FastqGz;
    FastqGzShape(name);
  }

  /** The glob is wider than the suffix test: a name with a dot in its stem
      is consolidated by move_data but never identified as a sample. */
  lemma GlobWiderThanSuffixTest()
    ensures var name := "S1.L001" + FastqGz; MatchesGlob(name) && !IsFastqGz(name)
  {
    var stem := "S1.L001";
    assert stem[2] == '.';
    DottedStemNotFastqGz(stem);
  }

  // ---------------------------------------------------------------------
  // Lines of a text file, as Python's file iterator yields them

  /** How far the first line of `s` reaches, its newline included. */
  function LineEnd(s: string): (n: nat)
    ensures n <= |s|
    ensures s != [] ==> 0 < n
    ensures forall i :: 0 <= i < n - 1 ==> s[i] != '\n'
    ensures n == |s| || s[n - 1] == '\n'
    decreases |s|
  {
    if s == [] then 0 else if s[0] == '\n' then 1 else 1 + LineEnd(s[1..])
  }

  /** The lines of a text, each with its terminating newline; only the last
      one may lack it. */
  function Lines(s: string): seq<string>
    decreases |s|
  {
    if s == [] then [] else [s[..LineEnd(s)]] + Lines(s[LineEnd(s)..])
  }

  /** The lines of a text are the text, cut up. */
  lemma {:induction false} LinesFlatten(s: string)
    ensures Flatten(Lines(s)) == s
    decreases |s|
  {
    if s != [] {
      var n := LineEnd(s);
      LinesFlatten(s[n..]);
      assert s == s[..n] + s[n..];
    }
  }

  predicate EndsWithNewline(s: string) {
    s != [] && s[|s| - 1] == '\n'
  }

  lemma {:induction false} LineEndAppend(a: string, b: string)
    requires '\n' in a
    ensures LineEnd(a + b) == LineEnd(a)
    decreases |a|
  {
    if a[0] != '\n' {
      assert (a + b)[1..] == a[1..] + b;
      assert '\n' in a[1..] by {
        var i :| 0 <= i < |a| && a[i] == '\n';
        assert a[1..][i - 1] == '\n';
      }
      LineEndAppend(a[1..], b);
    }
  }

  /** A text that ends with a newline contributes whole lines. */
  lemma LinesAppendStep(a: string, b: string)
    requires '\n' in a
    ensures Lines(a + b) == [a[..LineEnd(a)]] + Lines(a[LineEnd(a)..] + b)
  {
    LineEndAppend(a, b);
    var n := LineEnd(a);
    assert (a + b)[..n] == a[..n];
    assert (a + b)[n..] == a[n..] + b;
  }

  // Kept apart from its caller so that the caller's proof stays cheap.
  lemma NewlineIn(a: string)
    requires EndsWithNewline(a)
    ensures '\n' in a
  {
    assert a[|a| - 1] in a;
  }

  // Kept apart from its caller so that the caller's proof stays cheap.
  lemma NewlineAfter(a: string, n: nat)
    requires EndsWithNewline(a) && n < |a|
    ensures EndsWithNewline(a[n..])
  {
    assert a[n..][|a| - n - 1] == a[|a| - 1];
  }

  // Kept apart from its caller so that the caller's proof stays cheap.
  lemma NothingAfter(a: string, b: string, n: nat)
    requires n == |a|
    ensures a[n..] + b == b
  {
    assert a[n..] == [];
  }

  /** A text that ends with a newline is made of whole lines, so the lines
      of the text followed by more text are its own lines followed by those
      of the rest. */
  lemma {:induction false} LinesAppend(a: string, b: string)
    requires a == [] || EndsWithNewline(a)
    ensures Lines(a + b) == Lines(a) + Lines(b)
    decreases |a|
  {
    if a == [] {
      assert a + b == b;
    } else {
      var n := LineEnd(a);
      NewlineIn(a);
      LinesAppendStep(a, b);
      if n < |a| {
        NewlineAfter(a, n);
        LinesAppend(a[n..], b);
      } else {
        NothingAfter(a, b, n);
      }
    }
  }

  /** A line that contains a string puts that string in the text. */
  lemma {:induction false} LineContains(s: string, i: nat, m: string)
    requires i < |Lines(s)| && Contains(Lines(s)[i], m)
    ensures Contains(s, m)
    decreases |s|
  {
    var n := LineEnd(s);
    assert s == s[..n] + s[n..];
    if i == 0 {
      ContainsInPrefix(s[..n], s[n..], m);
    } else {
      LineContains(s[n..], i - 1, m);
      ContainsInSuffix(s[..n], s[n..], m);
    }
  }

  /** A text whose only newline is its last character is a single line. */
  lemma {:induction false} SingleLine(h: string, b: string)
    requires EndsWithNewline(h)
    requires forall i :: 0 <= i < |h| - 1 ==> h[i] != '\n'
    ensures Lines(h + b) == [h] + Lines(b)
  {
    LinesAppend(h, b);
    assert LineEnd(h) == |h|;
    assert h[..|h|] == h;
    assert h[|h|..] == [];
  }

  // ---------------------------------------------------------------------
  // str(n) for a natural number

  /** Python's `str(n)` for `n >= 0`: its decimal digits, most significant first, with no leading zero. */
  function NatToString(n: nat): (r: string)
    ensures |r| >= 1
    ensures forall i :: 0 <= i < |r| ==> '0' <= r[i] <= '9'
    ensures r[0] == '0' <==> n == 0
    ensures DecimalValue(r) == n
    decreases n
  {
    if n < 10 then [Digit(n)]
    else
      var r := NatToString(n / 10) + [Digit(n % 10)];
      assert r[..|r| - 1] == NatToString(n / 10);
      r
  }

  /** The character for the decimal digit `d`. */
  function Digit(d: nat): char
    requires d < 10
  {
    ('0' as int + d) as char
  }

  /** The number a string of decimal digits denotes; a character that is not a digit counts as 0. */
  function DecimalValue(r: string): nat
    decreases |r|
  {
    if r == [] then 0
    else
      var c := r[|r| - 1];
      DecimalValue(r[..|r| - 1]) * 10 + (if '0' <= c <= '9' then c as int - '0' as int else 0)
  }
}
