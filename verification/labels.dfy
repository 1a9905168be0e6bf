/** The label registry: loading the label file (`loadLabelChoices`) and
    numbering the labels for the page (`homeHandler`). */
module Labels {
  import opened Wrappers
  import opened Text

  /** The loader's error when the file holds no label. Open and read errors
      of the file are not modelled. */
  datatype LoadError = NoLabelsFound

  /** A line that contributes no label. */
  predicate IsBlank(line: string) {
    TrimSpace(line) == []
  }

  /** Reference definition of the labels a file yields: the trimmed non-blank
      lines, in file order. */
  function TrimmedNonBlank(lines: seq<string>): seq<string>
  {
    if |lines| == 0 then []
    else
      var rest := TrimmedNonBlank(lines[..|lines| - 1]);
      var line := TrimSpace(lines[|lines| - 1]);
      if line != [] then rest + [line] else rest
  }

  /** Positions of the non-blank lines, in increasing order. */
  function NonBlankIndices(lines: seq<string>): (idx: seq<nat>)
    ensures forall k :: 0 <= k < |idx| ==> idx[k] < |lines|
    ensures forall k, m :: 0 <= k < m < |idx| ==> idx[k] < idx[m]
    ensures forall i :: 0 <= i < |lines| ==> (i in idx <==> !IsBlank(lines[i]))
  {
    if |lines| == 0 then []
    else
      var rest := NonBlankIndices(lines[..|lines| - 1]);
      assert forall i :: 0 <= i < |lines| - 1 ==> lines[..|lines| - 1][i] == lines[i];
      if !IsBlank(lines[|lines| - 1]) then rest + [|lines| - 1] else rest
  }

  /** The labels are exactly the trimmed non-blank lines, one per non-blank
      line and in the same order, so duplicates are kept. */
  lemma {:induction false} TrimmedNonBlankSelects(lines: seq<string>)
    ensures var labels := TrimmedNonBlank(lines); var idx := NonBlankIndices(lines);
      && |labels| == |idx|
      && forall k :: 0 <= k < |labels| ==> labels[k] == TrimSpace(lines[idx[k]])
  {
    if |lines| > 0 {
      var init := lines[..|lines| - 1];
      var labels0, idx0 := TrimmedNonBlank(init), NonBlankIndices(init);
      TrimmedNonBlankSelects(init);
      var labels, idx := TrimmedNonBlank(lines), NonBlankIndices(lines);
      assert labels == labels0 + [TrimSpace(lines[|lines| - 1])] || labels == labels0;
      forall k | 0 <= k < |labels0|
        ensures labels[k] == TrimSpace(lines[idx[k]])
      {
        assert labels[k] == labels0[k] && idx[k] == idx0[k];
        assert init[idx0[k]] == lines[idx0[k]];
      }
    }
  }

  /** Every label is non-empty and carries no surrounding whitespace. */
  lemma {:induction false} TrimmedNonBlankWellFormed(lines: seq<string>)
    ensures forall k :: 0 <= k < |TrimmedNonBlank(lines)| ==>
      TrimmedNonBlank(lines)[k] != [] && IsTrimmed(TrimmedNonBlank(lines)[k])
  {
    if |lines| > 0 {
      TrimmedNonBlankWellFormed(lines[..|lines| - 1]);
    }
  }

  /** No label is produced exactly when every line is blank. */
  lemma {:induction false} TrimmedNonBlankEmpty(lines: seq<string>)
    ensures TrimmedNonBlank(lines) == [] <==> forall i :: 0 <= i < |lines| ==> IsBlank(lines[i])
  {
    if |lines| > 0 {
      var init := lines[..|lines| - 1];
      TrimmedNonBlankEmpty(init);
      assert forall i :: 0 <= i < |init| ==> init[i] == lines[i];
    }
  }

  /** `loadLabelChoices` after the file has been read into lines: trims each
      line, keeps the non-empty ones in order, and fails when none is left. */
  method LoadLabelChoices(lines: seq<string>) returns (r: Result<seq<string>, LoadError>)
    ensures r.Failure? <==> forall i :: 0 <= i < |lines| ==> IsBlank(lines[i])
    ensures r.Failure? ==> r.error == NoLabelsFound
    ensures r.Success? ==> r.value == TrimmedNonBlank(lines) && |r.value| > 0
    ensures r.Success? ==> forall k :: 0 <= k < |r.value| ==> r.value[k] != [] && IsTrimmed(r.value[k])
  {
    var labels: seq<string> := [];
    for i := 0 to |lines|
      invariant labels == TrimmedNonBlank(lines[..i])
    {
      var line := TrimSpace(lines[i]);
      if line != [] {
        labels := labels + [line];
      }
      assert lines[..i + 1][..i] == lines[..i];
    }
    assert lines[..|lines|] == lines;
    TrimmedNonBlankEmpty(lines);
    TrimmedNonBlankWellFormed(lines);
    if |labels| == 0 {
      return Failure(NoLabelsFound);
    }
    return Success(labels);
  }

  /** `loadLabelChoices` on the file contents: the lines the scanner yields,
      trimmed and filtered. Loading fails exactly when the file holds nothing
      but whitespace, and no label spans a line break. */
  method LoadLabelFile(content: string) returns (r: Result<seq<string>, LoadError>)
    ensures r.Failure? <==> AllSpace(content)
    ensures r.Success? ==> r.value == TrimmedNonBlank(ScanLines(content))
    ensures r.Success? ==> forall k :: 0 <= k < |r.value| ==> '\n' !in r.value[k]
  {
    var lines := ScanLines(content);
    r := LoadLabelChoices(lines);
    ScanLinesAllSpace(content);
    if r.Success? {
      NoNewlineInLabels(lines);
    }
  }

  lemma {:induction false} NoNewlineInLabels(lines: seq<string>)
    requires forall i :: 0 <= i < |lines| ==> '\n' !in lines[i]
    ensures forall k :: 0 <= k < |TrimmedNonBlank(lines)| ==> '\n' !in TrimmedNonBlank(lines)[k]
  {
    if |lines| > 0 {
      var init := lines[..|lines| - 1];
      NoNewlineInLabels(init);
      var line := lines[|lines| - 1];
      TrimSpaceCutsOnlySpace(line);
      assert '\n' !in TrimSpace(line);
    }
  }

  /** A label button on the page: its 1-based index and its text. */
  datatype LabelChoice = LabelChoice(index: int, text: string)

  /** The choices `homeHandler` builds: label `i` (from 0) gets index `i + 1`,
      and every index in `[1, |labels|]` names its own label. */
  function LabelChoices(labels: seq<string>): (choices: seq<LabelChoice>)
    ensures |choices| == |labels|
    ensures forall i :: 0 <= i < |choices| ==> choices[i] == LabelChoice(i + 1, labels[i])
    ensures forall c :: c in choices ==> 1 <= c.index <= |labels| && labels[c.index - 1] == c.text
  {
    seq(|labels|, i requires 0 <= i < |labels| => LabelChoice(i + 1, labels[i]))
  }
}
