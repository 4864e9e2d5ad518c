/** The project info sheet, README.md (seqdat/project.py:
    `Project.generate_info_sheet` and `get_existing_info_sheet`): a header
    regenerated from the metadata, followed by a free-form tail that starts
    at the first line containing the marker `## Additional Info`. */
module InfoSheet {
  import opened Common
  import opened Text
  import opened Metadata

  const Marker: string := "## Additional Info"

  /** The line get_existing_info_sheet puts in front of the kept lines. */
  const Heading: string := "## Additional Info\n"

  /** An f-string field holding a string or `None`. */
  function Show(o: Option<string>): string {
    if o.Some? then o.value else "None"
  }

  /** The sample count of the header: the length of the sample list, or
      `None` when the list is unset or empty (an empty list is falsy). */
  function SampleCount(samples: Option<seq<string>>): (text: string)
    ensures text == "None" <==> samples.None? || samples.value == []
  {
    if samples.Some? && samples.value != [] then
      var digits := NatToString(|samples.value|);
      assert digits != "None" by {
        assert !('0' <= "None"[0] <= '9');
        if |digits| == |"None"| {
          assert '0' <= digits[0] <= '9';
        }
      }
      digits
    else "None"
  }

  /** The header block generate_info_sheet composes. */
  function Header(r: Record): string {
    "\n# " + r.name + "\n\n- Owner: " + Show(r.owner) + "\n- Run Type: " + Show(r.runType)
    + "\n- Number of Samples: " + SampleCount(r.samples) + "\n\n"
  }

  lemma HeaderEndsWithNewline(r: Record)
    ensures EndsWithNewline(Header(r))
  {
    var h := Header(r);
    var body := "\n# " + r.name + "\n\n- Owner: " + Show(r.owner) + "\n- Run Type: " + Show(r.runType)
      + "\n- Number of Samples: " + SampleCount(r.samples);
    assert h == body + "\n\n";
    assert h[|h| - 1] == "\n\n"[1];
  }

  // ---------------------------------------------------------------------
  // get_existing_info_sheet

  /** The index of the first line that contains the marker (a substring
      test, not line equality), or the number of lines when none does. */
  function FirstMarkerLine(lines: seq<string>): (k: nat)
    ensures k <= |lines|
    ensures k < |lines| ==> Contains(lines[k], Marker)
    ensures forall i :: 0 <= i < k ==> !Contains(lines[i], Marker)
    decreases |lines|
  {
    if lines == [] then 0
    else if Contains(lines[0], Marker) then 0
    else 1 + FirstMarkerLine(lines[1..])
  }

  /** The first marker line is the one position with a marker line there
      and none before it. */
  lemma FirstMarkerLineAt(lines: seq<string>, k: nat)
    requires k <= |lines|
    requires k < |lines| ==> Contains(lines[k], Marker)
    requires forall j :: 0 <= j < k ==> !Contains(lines[j], Marker)
    ensures FirstMarkerLine(lines) == k
  {
  }

  /** What get_existing_info_sheet returns for the text of README.md: the
      heading line followed by every line after the first line containing
      the marker; when no line does, reading runs off the end of the file. */
  function InfoTail(text: string): Result<string, Error> {
    var lines := Lines(text);
    var k := FirstMarkerLine(lines);
    if k == |lines| then Failure(MarkerMissing) else Success(Heading + Flatten(lines[k + 1..]))
  }

  /** get_existing_info_sheet: skip lines up to and including the first one
      that contains the marker, then accumulate the remaining lines. */
  method GetExistingInfoSheet(text: string) returns (r: Result<string, Error>)
    ensures r == InfoTail(text)
  {
    var lines := Lines(text);
    var i := 0;
    while i < |lines| && !Contains(lines[i], Marker)
      invariant 0 <= i <= |lines|
      invariant forall j :: 0 <= j < i ==> !Contains(lines[j], Marker)
    {
      i := i + 1;
    }
    FirstMarkerLineAt(lines, i);
    if i == |lines| {
      return Failure(MarkerMissing);
    }
    var rest := Accumulate(lines, i + 1);
    r := Success(Heading + rest);
  }

  /** The accumulation of the lines from position `from` on. */
  method Accumulate(lines: seq<string>, from: nat) returns (cont: string)
    requires from <= |lines|
    ensures cont == Flatten(lines[from..])
  {
    cont := [];
    var i := from;
    while i < |lines|
      invariant from <= i <= |lines|
      invariant cont == Flatten(lines[from..i])
    {
      assert lines[from..i + 1] == lines[from..i] + [lines[i]];
      FlattenAppend(lines[from..i], [lines[i]]);
      cont := cont + lines[i];
      i := i + 1;
    }
    assert lines[from..i] == lines[from..];
  }

  /** The tail is copied verbatim: after the heading it is exactly the text
      that follows the first marker line. */
  lemma TailIsVerbatimSuffix(text: string)
    requires InfoTail(text).Success?
    ensures var t := InfoTail(text).value;
      var lines := Lines(text);
      StartsWith(t, Heading) &&
      text == Flatten(lines[..FirstMarkerLine(lines) + 1]) + t[|Heading|..]
  {
    var lines := Lines(text);
    var k := FirstMarkerLine(lines);
    LinesFlatten(text);
    FlattenSplit(lines, k + 1);
    var t := InfoTail(text).value;
    HeadingThen(t, Flatten(lines[k + 1..]));
  }

  lemma FlattenSplit(lines: seq<string>, j: nat)
    requires j <= |lines|
    ensures Flatten(lines) == Flatten(lines[..j]) + Flatten(lines[j..])
  {
    assert lines == lines[..j] + lines[j..];
    FlattenAppend(lines[..j], lines[j..]);
  }

  // Kept apart from its caller so that the caller's proof stays cheap.
  lemma HeadingThen(t: string, rest: string)
    requires t == Heading + rest
    ensures StartsWith(t, Heading) && t[|Heading|..] == rest
  {
  }

  /** The tail is found exactly when some line contains the marker. */
  lemma TailFoundIffMarker(text: string)
    ensures InfoTail(text).Success? <==>
      exists i :: 0 <= i < |Lines(text)| && Contains(Lines(text)[i], Marker)
  {
    var lines := Lines(text);
    var k := FirstMarkerLine(lines);
    if k < |lines| {
      assert Contains(lines[k], Marker);
    }
  }

  lemma LinesOfMarkerFreeText(header: string)
    requires !Contains(header, Marker)
    ensures forall i :: 0 <= i < |Lines(header)| ==> !Contains(Lines(header)[i], Marker)
  {
    forall i | 0 <= i < |Lines(header)| ensures !Contains(Lines(header)[i], Marker) {
      if Contains(Lines(header)[i], Marker) {
        LineContains(header, i, Marker);
      }
    }
  }

  lemma FirstMarkerAfter(hs: seq<string>, ts: seq<string>)
    requires forall i :: 0 <= i < |hs| ==> !Contains(hs[i], Marker)
    requires ts != [] && Contains(ts[0], Marker)
    ensures FirstMarkerLine(hs + ts) == |hs|
  {
    var lines := hs + ts;
    var k := FirstMarkerLine(lines);
    assert lines[|hs|] == ts[0];
  }

  lemma HeadingLines(rest: string)
    ensures Lines(Heading + rest) == [Heading] + Lines(rest)
  {
    assert forall i :: 0 <= i < |Heading| - 1 ==> Heading[i] != '\n';
    SingleLine(Heading, rest);
  }

  lemma HeadingHoldsMarker()
    ensures Contains(Heading, Marker)
  {
    assert Heading[..|Marker|] == Marker;
  }

  /** Regenerating keeps the tail: writing a header followed by a tail that
      get_existing_info_sheet returned, and reading it back, gives the same
      tail, provided the header itself holds no marker. */
  lemma {:induction false} RegenerationPreservesTail(header: string, t: string)
    requires EndsWithNewline(header) && !Contains(header, Marker)
    requires StartsWith(t, Heading)
    ensures InfoTail(header + t) == Success(t)
  {
    var rest := t[|Heading|..];
    assert t == Heading + rest;
    LinesAppend(header, t);
    HeadingLines(rest);
    var hs := Lines(header);
    var ts := [Heading] + Lines(rest);
    assert Lines(header + t) == hs + ts;
    LinesOfMarkerFreeText(header);
    HeadingHoldsMarker();
    FirstMarkerAfter(hs, ts);
    assert (hs + ts)[|hs| + 1..] == Lines(rest);
    LinesFlatten(rest);
  }

  /** The same for the header generate_info_sheet composes. */
  lemma RegeneratedSheetKeepsTail(r: Record, text: string)
    requires InfoTail(text).Success?
    requires !Contains(Header(r), Marker)
    ensures InfoTail(Header(r) + InfoTail(text).value) == InfoTail(text)
  {
    HeaderEndsWithNewline(r);
    var t := InfoTail(text).value;
    assert t[..|Heading|] == Heading;
    RegenerationPreservesTail(Header(r), t);
  }
}
