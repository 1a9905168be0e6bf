/** The string utilities the label loader relies on: Go's `unicode.IsSpace`,
    `strings.TrimSpace` and the default line splitting of `bufio.Scanner`. */
module Text {
  import opened Wrappers

  /** `unicode.IsSpace`: the ASCII spaces, NEL, NO-BREAK SPACE and the
      characters with the Unicode White_Space property. */
  predicate IsSpace(c: char) {
    || c == '\t' || c == '\n' || c == '\U{000B}' || c == '\U{000C}' || c == '\r' || c == ' '
    || c == '\U{0085}' || c == '\U{00A0}' || c == '\U{1680}'
    || ('\U{2000}' <= c <= '\U{200A}')
    || c == '\U{2028}' || c == '\U{2029}' || c == '\U{202F}' || c == '\U{205F}' || c == '\U{3000}'
  }

  predicate AllSpace(s: string) {
    forall i :: 0 <= i < |s| ==> IsSpace(s[i])
  }

  /** Neither begins nor ends with whitespace. */
  predicate IsTrimmed(s: string) {
    |s| > 0 ==> !IsSpace(s[0]) && !IsSpace(s[|s| - 1])
  }

  /** The first position from `i` on that does not hold whitespace. */
  function SkipSpaces(s: string, i: nat): (k: nat)
    requires i <= |s|
    ensures i <= k <= |s|
    ensures forall j :: i <= j < k ==> IsSpace(s[j])
    ensures k < |s| ==> !IsSpace(s[k])
    decreases |s| - i
  {
    if i < |s| && IsSpace(s[i]) then SkipSpaces(s, i + 1) else i
  }

  /** The end of `s[start..stop]` once its trailing whitespace is dropped. */
  function TrimEnd(s: string, start: nat, stop: nat): (k: nat)
    requires start <= stop <= |s|
    ensures start <= k <= stop
    ensures forall j :: k <= j < stop ==> IsSpace(s[j])
    ensures k > start ==> !IsSpace(s[k - 1])
  {
    if stop > start && IsSpace(s[stop - 1]) then TrimEnd(s, start, stop - 1) else stop
  }

  /** `strings.TrimSpace`: skip the whitespace at the start, then drop the
      whitespace at the end of what is left. */
  function TrimSpace(s: string): (r: string)
    ensures IsTrimmed(r)
    ensures |r| <= |s|
    ensures r == [] <==> AllSpace(s)
  {
    var start := SkipSpaces(s, 0);
    var stop := TrimEnd(s, start, |s|);
    assert start < |s| ==> stop > start;
    s[start..stop]
  }

  /** The trimmed line is the slice of the line that starts at its first
      non-space character (or at its end when there is none), and every
      character cut off on either side is whitespace. */
  lemma TrimSpaceCutsOnlySpace(s: string)
    ensures exists start ::
      && 0 <= start <= |s|
      && (forall j :: 0 <= j < start ==> IsSpace(s[j]))
      && (start < |s| ==> !IsSpace(s[start]))
      && start + |TrimSpace(s)| <= |s|
      && TrimSpace(s) == s[start..start + |TrimSpace(s)|]
      && forall i :: 0 <= i < |s| && !(start <= i < start + |TrimSpace(s)|) ==> IsSpace(s[i])
  {
    var start := SkipSpaces(s, 0);
    assert start < |s| ==> !IsSpace(s[start]);
  }

  lemma {:induction false} SkipSpacesAt(s: string, i: nat, k: nat)
    requires i <= k <= |s|
    requires forall j :: i <= j < k ==> IsSpace(s[j])
    requires k < |s| ==> !IsSpace(s[k])
    ensures SkipSpaces(s, i) == k
    decreases k - i
  {
    if i < k {
      SkipSpacesAt(s, i + 1, k);
    }
  }

  lemma {:induction false} TrimEndAt(s: string, start: nat, stop: nat, k: nat)
    requires start <= k <= stop <= |s|
    requires forall j :: k <= j < stop ==> IsSpace(s[j])
    requires k > start ==> !IsSpace(s[k - 1])
    ensures TrimEnd(s, start, stop) == k
    decreases stop - k
  {
    if k < stop {
      TrimEndAt(s, start, stop - 1, k);
    }
  }

  /** Whitespace padding around a trimmed text is exactly what TrimSpace
      removes. */
  lemma TrimSpaceOfPadded(left: string, t: string, right: string)
    requires AllSpace(left) && AllSpace(right) && IsTrimmed(t)
    ensures TrimSpace(left + t + right) == t
  {
    var s := left + t + right;
    if t == [] {
      assert AllSpace(s) by {
        forall j | 0 <= j < |s|
          ensures IsSpace(s[j])
        {
          if j < |left| {
            assert s[j] == left[j];
          } else {
            assert s[j] == right[j - |left|];
          }
        }
      }
    } else {
      forall j | 0 <= j < |left|
        ensures IsSpace(s[j])
      {
        assert s[j] == left[j];
      }
      assert s[|left|] == t[0];
      SkipSpacesAt(s, 0, |left|);
      forall j | |left| + |t| <= j < |s|
        ensures IsSpace(s[j])
      {
        assert s[j] == right[j - |left| - |t|];
      }
      assert s[|left| + |t| - 1] == t[|t| - 1];
      TrimEndAt(s, |left|, |s|, |left| + |t|);
      assert s[|left|..|left| + |t|] == t;
    }
  }

  /** Trimming twice is trimming once. */
  lemma TrimSpaceIdempotent(s: string)
    ensures TrimSpace(TrimSpace(s)) == TrimSpace(s)
  {
    var t := TrimSpace(s);
    TrimSpaceOfPadded([], t, []);
    assert [] + t + [] == t;
  }

  /** Position of the first `c` in `s`, if any. */
  function IndexOf(s: string, c: char): (r: Option<nat>)
    ensures r.Some? ==> r.value < |s| && s[r.value] == c && c !in s[..r.value]
    ensures r.None? ==> c !in s
  {
    if |s| == 0 then None
    else if s[0] == c then Some(0)
    else match IndexOf(s[1..], c)
      case None => None
      case Some(k) => assert s[..k + 1] == [s[0]] + s[1..][..k]; Some(k + 1)
  }

  /** Drops one trailing carriage return. */
  function DropCR(s: string): (r: string)
    ensures r == s || (s == r + ['\r'])
    ensures |s| > 0 && s[|s| - 1] == '\r' ==> r == s[..|s| - 1]
  {
    if |s| > 0 && s[|s| - 1] == '\r' then s[..|s| - 1] else s
  }

  /** The lines `bufio.Scanner` yields with its default splitter: text up to
      each `\n` with one trailing `\r` dropped, plus a final unterminated line
      when it is non-empty. */
  function ScanLines(data: string): (lines: seq<string>)
    ensures forall i :: 0 <= i < |lines| ==> '\n' !in lines[i]
    ensures |data| > 0 <==> |lines| > 0
    decreases |data|
  {
    if |data| == 0 then []
    else match IndexOf(data, '\n')
      case Some(k) => [DropCR(data[..k])] + ScanLines(data[k + 1..])
      case None => [DropCR(data)]
  }

  /** Every line is all whitespace. */
  predicate AllSpaceLines(lines: seq<string>) {
    forall i :: 0 <= i < |lines| ==> AllSpace(lines[i])
  }

  lemma AllSpaceLinesCons(line: string, rest: seq<string>)
    ensures AllSpaceLines([line] + rest) <==> AllSpace(line) && AllSpaceLines(rest)
  {
    var lines := [line] + rest;
    assert lines[0] == line;
    assert forall i :: 0 <= i < |rest| ==> rest[i] == lines[i + 1];
  }

  /** The lines are all whitespace exactly when the data is: the newlines and
      carriage returns that separate them are whitespace too. */
  lemma {:induction false} ScanLinesAllSpace(data: string)
    ensures AllSpace(data) <==> AllSpaceLines(ScanLines(data))
    decreases |data|
  {
    if |data| > 0 {
      match IndexOf(data, '\n')
      case Some(k) =>
        ScanLinesAllSpace(data[k + 1..]);
        SplitAtNewline(data, k);
        ScanLinesAt(data, k);
        AllSpaceLinesCons(DropCR(data[..k]), ScanLines(data[k + 1..]));
      case None =>
        DropCRAllSpace(data);
        AllSpaceLinesCons(DropCR(data), []);
        AppendNothing([DropCR(data)]);
    }
  }

  lemma ScanLinesAt(data: string, k: nat)
    requires |data| > 0 && IndexOf(data, '\n') == Some(k)
    ensures ScanLines(data) == [DropCR(data[..k])] + ScanLines(data[k + 1..])
  {
  }

  lemma SplitAtNewline(data: string, k: nat)
    requires k < |data| && data[k] == '\n'
    ensures AllSpace(data) <==> AllSpace(DropCR(data[..k])) && AllSpace(data[k + 1..])
  {
    assert data == data[..k] + [data[k]] + data[k + 1..];
    assert IsSpace(data[k]);
    DropCRAllSpace(data[..k]);
    AllSpaceConcat(data[..k] + [data[k]], data[k + 1..]);
    AllSpaceConcat(data[..k], [data[k]]);
  }

  lemma AllSpaceConcat(a: string, b: string)
    ensures AllSpace(a + b) <==> AllSpace(a) && AllSpace(b)
  {
    if AllSpace(a + b) {
      forall i | 0 <= i < |a|
        ensures IsSpace(a[i])
      {
        assert a[i] == (a + b)[i];
      }
      forall i | 0 <= i < |b|
        ensures IsSpace(b[i])
      {
        assert b[i] == (a + b)[|a| + i];
      }
    }
    if AllSpace(a) && AllSpace(b) {
      forall i | 0 <= i < |a + b|
        ensures IsSpace((a + b)[i])
      {
        if i < |a| {
          assert (a + b)[i] == a[i];
        } else {
          assert (a + b)[i] == b[i - |a|];
        }
      }
    }
  }

  lemma DropCRAllSpace(s: string)
    ensures AllSpace(DropCR(s)) <==> AllSpace(s)
  {
    if |s| > 0 && s[|s| - 1] == '\r' {
      assert s == DropCR(s) + ['\r'];
      AllSpaceConcat(DropCR(s), ['\r']);
    }
  }

  /** Every line followed by a newline: the file a text editor writes. */
  function JoinLines(lines: seq<string>): string
  {
    if |lines| == 0 then [] else lines[0] + "\n" + JoinLines(lines[1..])
  }

  /** A line that `ScanLines` gives back unchanged. */
  predicate IsPlainLine(line: string) {
    '\n' !in line && (|line| > 0 ==> line[|line| - 1] != '\r')
  }

  /** Scanning a newline-terminated file yields its lines. */
  lemma {:induction false} ScanJoinLines(lines: seq<string>)
    requires forall i :: 0 <= i < |lines| ==> IsPlainLine(lines[i])
    ensures ScanLines(JoinLines(lines)) == lines
  {
    if |lines| > 0 {
      PlainTail(lines);
      ScanJoinLines(lines[1..]);
      AppendNothing(JoinLines(lines[1..]));
      ScanPlainThen(lines, [], lines[1..]);
      AppendNothing(JoinLines(lines));
      ConsAppend(lines, []);
      AppendNothing(lines);
    }
  }

  lemma AppendNothing<T>(xs: seq<T>)
    ensures xs + [] == xs
  {
  }

  /** The first line ends at the first newline, with one trailing carriage
      return dropped, and scanning goes on after it. */
  lemma ScanLinesFirst(line: string, rest: string)
    requires '\n' !in line
    ensures ScanLines(line + "\n" + rest) == [DropCR(line)] + ScanLines(rest)
  {
    var data := line + "\n" + rest;
    assert data == line + ("\n" + rest);
    IndexOfAfterFree(line, "\n" + rest, '\n');
    assert data[..|line|] == line;
    assert data[|line| + 1..] == rest;
  }

  /** A final line without a newline is still returned, with one trailing
      carriage return dropped. */
  lemma ScanLinesFinal(last: string)
    requires '\n' !in last && |last| > 0
    ensures ScanLines(last) == [DropCR(last)]
  {
  }

  /** Scanning a file whose last line has no newline yields every line, the
      unterminated last one included. */
  lemma {:induction false} ScanJoinLinesFinal(lines: seq<string>, last: string)
    requires forall i :: 0 <= i < |lines| ==> IsPlainLine(lines[i])
    requires '\n' !in last && |last| > 0
    ensures ScanLines(JoinLines(lines) + last) == lines + [DropCR(last)]
  {
    if |lines| == 0 {
      ScanLinesFinal(last);
      assert JoinLines(lines) + last == last;
    } else {
      PlainTail(lines);
      ScanJoinLinesFinal(lines[1..], last);
      ScanPlainThen(lines, last, lines[1..] + [DropCR(last)]);
      ConsAppend(lines, [DropCR(last)]);
    }
  }

  lemma ConsAppend<T>(xs: seq<T>, ys: seq<T>)
    requires |xs| > 0
    ensures [xs[0]] + (xs[1..] + ys) == xs + ys
  {
  }

  lemma PlainTail(lines: seq<string>)
    requires |lines| > 0 && forall i :: 0 <= i < |lines| ==> IsPlainLine(lines[i])
    ensures IsPlainLine(lines[0]) && forall i :: 0 <= i < |lines[1..]| ==> IsPlainLine(lines[1..][i])
  {
    assert forall i :: 0 <= i < |lines[1..]| ==> lines[1..][i] == lines[i + 1];
  }

  /** One step of `ScanJoinLinesFinal`: a plain first line is returned as is,
      then the scan of what follows. */
  lemma ScanPlainThen(lines: seq<string>, last: string, restLines: seq<string>)
    requires |lines| > 0 && IsPlainLine(lines[0])
    requires ScanLines(JoinLines(lines[1..]) + last) == restLines
    ensures ScanLines(JoinLines(lines) + last) == [lines[0]] + restLines
  {
    var rest := JoinLines(lines[1..]) + last;
    JoinLinesThen(lines, last);
    ScanLinesFirst(lines[0], rest);
    assert DropCR(lines[0]) == lines[0];
  }

  lemma JoinLinesThen(lines: seq<string>, last: string)
    requires |lines| > 0
    ensures JoinLines(lines) + last == lines[0] + "\n" + (JoinLines(lines[1..]) + last)
  {
  }

  lemma {:induction false} IndexOfAfterFree(prefix: string, rest: string, c: char)
    requires c !in prefix && |rest| > 0 && rest[0] == c
    ensures IndexOf(prefix + rest, c) == Some(|prefix|)
  {
    if |prefix| > 0 {
      assert (prefix + rest)[1..] == prefix[1..] + rest;
      IndexOfAfterFree(prefix[1..], rest, c);
    } else {
      assert prefix + rest == rest;
    }
  }
}
