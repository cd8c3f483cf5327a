/** Page-text cleaning of `CFDCaseExtractor.clean_text` (src/pdf_chunk_ask_question.py):
    five rewriting stages applied in order, a line filter, and a page label.
    Each `re.sub` is modelled as a left-to-right scan over the ORIGINAL text of that
    stage, since look-behinds, look-aheads and anchors read the original. */
module TextCleaning {
  import opened Wrappers
  import opened PyStrings
  import opened SeqUtil

  // ---------------------------------------------------------------------------
  // Stage 1: `(?<=\w)-\n(?=\w)` is deleted (a word split across a line break).

  predicate BrokenWordAt(s: string, i: nat) {
    0 < i && i + 2 < |s| && IsWordChar(s[i - 1]) && s[i] == '-' && s[i + 1] == '\n' && IsWordChar(s[i + 2])
  }

  function MergeBrokenWordsFrom(s: string, i: nat): (r: string)
    requires i <= |s|
    ensures |r| <= |s| - i
    decreases |s| - i
  {
    if i == |s| then ""
    else if BrokenWordAt(s, i) then MergeBrokenWordsFrom(s, i + 2)
    else [s[i]] + MergeBrokenWordsFrom(s, i + 1)
  }

  function MergeBrokenWords(s: string): string {
    MergeBrokenWordsFrom(s, 0)
  }

  /** Scanning a prefix that ends in a word character is unaffected by what follows it. */
  lemma {:induction false} MergePrefix(u: string, w: string, i: nat)
    requires u != [] && IsWordChar(u[|u| - 1]) && i <= |u|
    ensures MergeBrokenWordsFrom(u + w, i) == MergeBrokenWordsFrom(u, i) + MergeBrokenWordsFrom(u + w, |u|)
    decreases |u| - i
  {
    var s := u + w;
    if i < |u| {
      assert BrokenWordAt(s, i) == BrokenWordAt(u, i) by {
        if i == 0 {
        } else if i + 2 < |u| {
          assert s[i - 1] == u[i - 1] && s[i] == u[i] && s[i + 1] == u[i + 1] && s[i + 2] == u[i + 2];
        } else if i + 2 == |u| {
          assert s[i + 1] == u[|u| - 1];
        } else {
          assert s[i] == u[|u| - 1];
        }
      }
      if BrokenWordAt(s, i) {
        MergePrefix(u, w, i + 2);
      } else {
        MergePrefix(u, w, i + 1);
        assert s[i] == u[i];
      }
    }
  }

  /** Scanning after a prefix that does not end in a word character ignores the prefix. */
  lemma {:induction false} MergeSuffix(p: string, v: string, j: nat)
    requires p == [] || !IsWordChar(p[|p| - 1])
    requires j <= |v|
    ensures MergeBrokenWordsFrom(p + v, |p| + j) == MergeBrokenWordsFrom(v, j)
    decreases |v| - j
  {
    var s := p + v;
    if j < |v| {
      BrokenWordShift(p, v, j);
      if BrokenWordAt(v, j) {
        MergeSuffix(p, v, j + 2);
      } else {
        MergeSuffix(p, v, j + 1);
        assert s[|p| + j] == v[j];
      }
    }
  }

  /** After a prefix that does not end in a word character, a broken word is found at
      the same place as in the text alone. */
  lemma {:induction false} BrokenWordShift(p: string, v: string, j: nat)
    requires p == [] || !IsWordChar(p[|p| - 1])
    requires j < |v|
    ensures BrokenWordAt(p + v, |p| + j) == BrokenWordAt(v, j)
  {
    var s := p + v;
    if j == 0 {
      assert |p| > 0 ==> s[|p| - 1] == p[|p| - 1];
      assert !BrokenWordAt(s, |p|);
    } else if j + 2 < |v| {
      assert s[|p| + j - 1] == v[j - 1] && s[|p| + j] == v[j];
      assert s[|p| + j + 1] == v[j + 1] && s[|p| + j + 2] == v[j + 2];
    }
  }

  /** `informa-\ntion` becomes `information`: a hyphen-newline between two word
      characters disappears and the two sides are cleaned independently. */
  lemma {:induction false} MergeAcrossBrokenWord(u: string, v: string)
    requires u != [] && IsWordChar(u[|u| - 1])
    requires v != [] && IsWordChar(v[0])
    ensures MergeBrokenWords(u + "-\n" + v) == MergeBrokenWords(u) + MergeBrokenWords(v)
  {
    var s := u + "-\n" + v;
    assert s == u + ("-\n" + v);
    MergePrefix(u, "-\n" + v, 0);
    assert BrokenWordAt(s, |u|) by {
      assert s[|u| - 1] == u[|u| - 1] && s[|u|] == '-' && s[|u| + 1] == '\n' && s[|u| + 2] == v[0];
    }
    assert s == (u + "-\n") + v;
    MergeSuffix(u + "-\n", v, 0);
  }

  /** A text without hyphens is left as it is by stage 1. */
  lemma {:induction false} MergeWithoutHyphen(s: string, i: nat)
    requires i <= |s| && forall j :: i <= j < |s| ==> s[j] != '-'
    ensures MergeBrokenWordsFrom(s, i) == s[i..]
    decreases |s| - i
  {
    if i < |s| {
      MergeWithoutHyphen(s, i + 1);
      assert s[i..] == [s[i]] + s[i + 1..];
    }
  }

  lemma {:induction false} InformationExample()
    ensures MergeBrokenWords("informa-\ntion") == "information"
  {
    assert "informa-\ntion" == "informa" + "-\n" + "tion";
    MergeAcrossBrokenWord("informa", "tion");
    MergeWithoutHyphen("informa", 0);
    MergeWithoutHyphen("tion", 0);
  }

  // ---------------------------------------------------------------------------
  // Stage 2: `\n(?=\d+\s*[A-Za-z]{1,3}\b)` becomes a space.

  /** The look-ahead `\d+\s*[A-Za-z]{1,3}\b` holds at position `j`. The digit and
      space runs are maximal (the classes are disjoint, so backtracking cannot help),
      and the letter run must end at a word boundary after one to three letters. */
  predicate UnitAhead(s: string, j: nat)
    requires j <= |s|
  {
    var d := RunEnd(s, j, IsDigit);
    var w := RunEnd(s, d, IsSpace);
    var l := RunEnd(s, w, IsAsciiLetter);
    d > j && 1 <= l - w <= 3 && (l == |s| || !IsWordChar(s[l]))
  }

  predicate UnitBreakAt(s: string, i: nat)
    requires i < |s|
  {
    s[i] == '\n' && UnitAhead(s, i + 1)
  }

  function JoinUnitBreaksFrom(s: string, i: nat): (r: string)
    requires i <= |s|
    ensures |r| == |s| - i
    ensures forall k :: 0 <= k < |r| ==> r[k] == if UnitBreakAt(s, i + k) then ' ' else s[i + k]
    decreases |s| - i
  {
    if i == |s| then ""
    else [if UnitBreakAt(s, i) then ' ' else s[i]] + JoinUnitBreaksFrom(s, i + 1)
  }

  function JoinUnitBreaks(s: string): string {
    JoinUnitBreaksFrom(s, 0)
  }

  /** Stage 2 only ever turns a newline into a space. */
  lemma {:induction false} JoinUnitBreaksOnlyNewlines(s: string)
    ensures |JoinUnitBreaks(s)| == |s|
    ensures forall k :: 0 <= k < |s| && JoinUnitBreaks(s)[k] != s[k] ==> s[k] == '\n' && JoinUnitBreaks(s)[k] == ' '
  {
  }

  // ---------------------------------------------------------------------------
  // Stage 3: `^\s*\d+\s*$` under MULTILINE is deleted. `\s` also matches newlines,
  // so a match may run into the following lines.

  /** The largest `q` in `[lo, hi)` with `s[q] == '\n'`. */
  function LastNewlineBefore(s: string, lo: nat, hi: nat): (r: Option<nat>)
    requires lo <= hi <= |s|
    ensures r.Some? ==> lo <= r.value < hi && s[r.value] == '\n'
    ensures r.Some? ==> forall q :: r.value < q < hi ==> s[q] != '\n'
    ensures r.None? ==> forall q :: lo <= q < hi ==> s[q] != '\n'
    decreases hi - lo
  {
    if hi == lo then None
    else if s[hi - 1] == '\n' then Some(hi - 1)
    else LastNewlineBefore(s, lo, hi - 1)
  }

  /** End of the match of `^\s*\d+\s*$` starting at `p`, if there is one. The leading
      space run and the digit run are forced to be maximal; the trailing `\s*` gives
      back characters until `$` holds (end of text, or just before a newline). */
  function PageNumberMatch(s: string, p: nat): (r: Option<nat>)
    requires p <= |s|
    ensures r.Some? ==> p < r.value <= |s|
    ensures r.Some? ==> forall j :: p <= j < r.value ==> IsSpace(s[j]) || IsDigit(s[j])
    ensures r.Some? ==> r.value == |s| || s[r.value] == '\n'
  {
    if !(p == 0 || s[p - 1] == '\n') then None
    else
      var a := RunEnd(s, p, IsSpace);
      var e := RunEnd(s, a, IsDigit);
      if e == a then None
      else
        var t := RunEnd(s, e, IsSpace);
        if t == |s| then Some(t) else LastNewlineBefore(s, e, t)
  }

  function StripPageNumbersFrom(s: string, p: nat): (r: string)
    requires p <= |s|
    decreases |s| - p
  {
    if p == |s| then ""
    else match PageNumberMatch(s, p)
      case Some(q) => StripPageNumbersFrom(s, q)
      case None => [s[p]] + StripPageNumbersFrom(s, p + 1)
  }

  function StripPageNumbers(s: string): string {
    StripPageNumbersFrom(s, 0)
  }

  /** Dropping a stretch of characters that `keep` rejects does not change what it keeps. */
  lemma {:induction false} FilterSkipsRun(s: string, p: nat, q: nat, keep: char -> bool)
    requires p <= q <= |s|
    requires forall j :: p <= j < q ==> !keep(s[j])
    ensures Filter(s[p..], keep) == Filter(s[q..], keep)
  {
    var gap := s[p..q];
    assert s[p..] == gap + s[q..];
    forall i | 0 <= i < |gap| ensures !keep(gap[i]) {
      assert gap[i] == s[p + i];
    }
    FilterConcat(gap, s[q..], keep);
    FilterNone(gap, keep);
  }

  /** Replacing a stretch that `keep` rejects by another such stretch keeps the rest. */
  lemma {:induction false} FilterReplacesRun(s: string, p: nat, q: nat, gap: string, rest: string, keep: char -> bool)
    requires p <= q <= |s|
    requires forall j :: p <= j < q ==> !keep(s[j])
    requires forall j :: 0 <= j < |gap| ==> !keep(gap[j])
    requires Filter(rest, keep) == Filter(s[q..], keep)
    ensures Filter(gap + rest, keep) == Filter(s[p..], keep)
  {
    FilterSkipsRun(s, p, q, keep);
    FilterConcat(gap, rest, keep);
    FilterNone(gap, keep);
  }

  lemma {:induction false} FilterCopiesChar(s: string, p: nat, rest: string, keep: char -> bool)
    requires p < |s| && Filter(rest, keep) == Filter(s[p + 1..], keep)
    ensures Filter([s[p]] + rest, keep) == Filter(s[p..], keep)
  {
    assert s[p..] == [s[p]] + s[p + 1..];
    FilterConcat([s[p]], s[p + 1..], keep);
    FilterConcat([s[p]], rest, keep);
  }

  predicate IsInk(c: char) { !IsSpace(c) && !IsDigit(c) }

  /** The characters that are neither spaces nor digits. */
  function Ink(s: string): string {
    Filter(s, IsInk)
  }

  /** Stage 3 deletes only spaces and digits: every other character survives, in order. */
  lemma {:induction false} StripPageNumbersKeepsInk(s: string, p: nat)
    requires p <= |s|
    ensures Ink(StripPageNumbersFrom(s, p)) == Ink(s[p..])
    decreases |s| - p
  {
    if p < |s| {
      var m := PageNumberMatch(s, p);
      if m.Some? {
        StripPageNumbersKeepsInk(s, m.value);
        FilterSkipsRun(s, p, m.value, IsInk);
      } else {
        StripPageNumbersKeepsInk(s, p + 1);
        FilterCopiesChar(s, p, StripPageNumbersFrom(s, p + 1), IsInk);
      }
    }
  }

  predicate IsBlank(c: char) { c == ' ' || c == '\t' }

  predicate IsBlankOrDigit(c: char) { IsBlank(c) || IsDigit(c) }

  /** A text that is one page number with blanks around it is emptied. */
  lemma {:induction false} PageNumberOnlyText(s: string, a: nat, e: nat)
    requires a < e <= |s|
    requires forall j :: 0 <= j < a ==> IsSpace(s[j])
    requires forall j :: a <= j < e ==> IsDigit(s[j])
    requires forall j :: e <= j < |s| ==> IsSpace(s[j])
    ensures StripPageNumbers(s) == ""
  {
    RunEndAt(s, 0, IsSpace, a);
    RunEndAt(s, a, IsDigit, e);
    RunEndAt(s, e, IsSpace, |s|);
    assert PageNumberMatch(s, 0) == Some(|s|);
    assert StripPageNumbersFrom(s, |s|) == "";
    assert StripPageNumbersFrom(s, 0) == StripPageNumbersFrom(s, |s|);
  }

  /** A line of blanks and one number, starting at a line start `p` and ending at `q`,
      is deleted up to its newline when the next line holds a visible character at `m`
      after blanks only (or when it is the last line). */
  lemma {:induction false} PageNumberLineBlanked(s: string, p: nat, a: nat, e: nat, q: nat, m: nat)
    requires p <= a < e <= q <= |s|
    requires p == 0 || s[p - 1] == '\n'
    requires forall j :: p <= j < a ==> IsBlank(s[j])
    requires forall j :: a <= j < e ==> IsDigit(s[j])
    requires forall j :: e <= j < q ==> IsBlank(s[j])
    requires q == |s| || (q < m < |s| && s[q] == '\n' && !IsSpace(s[m]) && forall j :: q < j < m ==> IsBlank(s[j]))
    ensures PageNumberMatch(s, p) == Some(q)
    ensures StripPageNumbersFrom(s, p) == StripPageNumbersFrom(s, q)
  {
    RunEndAt(s, p, IsSpace, a);
    RunEndAt(s, a, IsDigit, e);
    if q == |s| {
      RunEndAt(s, e, IsSpace, |s|);
    } else {
      RunEndAt(s, e, IsSpace, m);
      var r := LastNewlineBefore(s, e, m);
      assert r == Some(q);
    }
  }

  /** Stage 3 needs a digit to delete anything: a text without digits is unchanged. */
  lemma {:induction false} StripPageNumbersWithoutDigits(s: string, p: nat)
    requires p <= |s| && forall j :: p <= j < |s| ==> !IsDigit(s[j])
    ensures StripPageNumbersFrom(s, p) == s[p..]
    decreases |s| - p
  {
    if p < |s| {
      NoPageNumberWithoutDigits(s, p);
      StripPageNumbersWithoutDigits(s, p + 1);
      assert s[p..] == [s[p]] + s[p + 1..];
    }
  }

  /** No match starts where no digit follows. */
  lemma {:induction false} NoPageNumberWithoutDigits(s: string, p: nat)
    requires p < |s| && forall j :: p <= j < |s| ==> !IsDigit(s[j])
    ensures PageNumberMatch(s, p).None?
  {
    if p == 0 || s[p - 1] == '\n' {
      var a := RunEnd(s, p, IsSpace);
      assert a < |s| ==> !IsDigit(s[a]);
      assert RunEnd(s, a, IsDigit) == a;
    }
  }

  // ---------------------------------------------------------------------------
  // Stage 4: `\n{3,}` becomes two newlines, then `[ \t]{2,}` becomes one space.

  predicate IsNewline(c: char) { c == '\n' }

  /** Three newlines start at position `k`. */
  predicate TripleNewlineAt(s: string, k: nat) {
    k + 2 < |s| && s[k] == '\n' && s[k + 1] == '\n' && s[k + 2] == '\n'
  }

  predicate NoTripleNewline(s: string) {
    forall k :: 0 <= k < |s| ==> !TripleNewlineAt(s, k)
  }

  function CollapseNewlinesFrom(s: string, i: nat): (r: string)
    requires i <= |s|
    ensures NoTripleNewline(r)
    ensures (r != [] && r[0] == '\n') <==> (i < |s| && s[i] == '\n')
    ensures |r| >= 2 && r[0] == '\n' && r[1] == '\n' ==> RunEnd(s, i, IsNewline) - i >= 2
    decreases |s| - i
  {
    if i == |s| then ""
    else
      var e := RunEnd(s, i, IsNewline);
      if e - i >= 3 then
        var rest := CollapseNewlinesFrom(s, e);
        assert forall k :: 2 <= k < |rest| + 2 ==> ("\n\n" + rest)[k] == rest[k - 2];
        assert forall k :: 2 <= k < |rest| + 2 ==> TripleNewlineAt("\n\n" + rest, k) == TripleNewlineAt(rest, k - 2);
        "\n\n" + rest
      else
        var rest := CollapseNewlinesFrom(s, i + 1);
        assert s[i] == '\n' ==> RunEnd(s, i, IsNewline) == RunEnd(s, i + 1, IsNewline);
        assert forall k :: 1 <= k < |rest| + 1 ==> ([s[i]] + rest)[k] == rest[k - 1];
        assert forall k :: 1 <= k < |rest| + 1 ==> TripleNewlineAt([s[i]] + rest, k) == TripleNewlineAt(rest, k - 1);
        [s[i]] + rest
  }

  function CollapseNewlines(s: string): string {
    CollapseNewlinesFrom(s, 0)
  }

  /** Two blanks start at position `k`. */
  predicate DoubleBlankAt(s: string, k: nat) {
    k + 1 < |s| && IsBlank(s[k]) && IsBlank(s[k + 1])
  }

  predicate NoDoubleBlank(s: string) {
    forall k :: 0 <= k < |s| ==> !DoubleBlankAt(s, k)
  }

  function CollapseBlanksFrom(s: string, i: nat): (r: string)
    requires i <= |s|
    ensures NoDoubleBlank(r)
    ensures r == [] <==> i == |s|
    ensures r != [] ==> (IsBlank(r[0]) <==> IsBlank(s[i]))
    decreases |s| - i
  {
    if i == |s| then ""
    else
      var e := RunEnd(s, i, IsBlank);
      if e - i >= 2 then
        var rest := CollapseBlanksFrom(s, e);
        assert forall k :: 1 <= k < |rest| + 1 ==> (" " + rest)[k] == rest[k - 1];
        assert forall k :: 1 <= k < |rest| + 1 ==> DoubleBlankAt(" " + rest, k) == DoubleBlankAt(rest, k - 1);
        " " + rest
      else
        var rest := CollapseBlanksFrom(s, i + 1);
        assert forall k :: 1 <= k < |rest| + 1 ==> ([s[i]] + rest)[k] == rest[k - 1];
        assert forall k :: 1 <= k < |rest| + 1 ==> DoubleBlankAt([s[i]] + rest, k) == DoubleBlankAt(rest, k - 1);
        assert IsBlank(s[i]) ==> e == i + 1;
        [s[i]] + rest
  }

  function CollapseBlanks(s: string): string {
    CollapseBlanksFrom(s, 0)
  }

  predicate NotNewline(c: char) { c != '\n' }

  predicate NotBlank(c: char) { !IsBlank(c) }

  /** `\n{3,}` -> `\n\n` only touches newlines: every other character survives, in order. */
  lemma {:induction false} CollapseNewlinesKeepsText(s: string, i: nat)
    requires i <= |s|
    ensures Filter(CollapseNewlinesFrom(s, i), NotNewline) == Filter(s[i..], NotNewline)
    decreases |s| - i
  {
    if i < |s| {
      var e := RunEnd(s, i, IsNewline);
      if e - i >= 3 {
        CollapseNewlinesKeepsText(s, e);
        FilterReplacesRun(s, i, e, "\n\n", CollapseNewlinesFrom(s, e), NotNewline);
      } else {
        CollapseNewlinesKeepsText(s, i + 1);
        FilterCopiesChar(s, i, CollapseNewlinesFrom(s, i + 1), NotNewline);
      }
    }
  }

  /** A maximal run of newlines starting at `i` becomes two newlines when it has three or
      more, and is kept as it is otherwise; the scan then goes on after the run. */
  lemma {:induction false} CollapseNewlinesRun(s: string, i: nat)
    requires i < |s| && s[i] == '\n'
    ensures var e := RunEnd(s, i, IsNewline);
      CollapseNewlinesFrom(s, i) == (if e - i >= 3 then "\n\n" else s[i..e]) + CollapseNewlinesFrom(s, e)
  {
    var e := RunEnd(s, i, IsNewline);
    if e - i == 2 {
      assert RunEnd(s, i + 1, IsNewline) == e;
      assert s[i..e] == [s[i]] + [s[i + 1]];
    } else if e - i == 1 {
      assert s[i..e] == [s[i]];
    }
  }

  /** `[ \t]{2,}` -> ` ` only touches blanks: every other character survives, in order. */
  lemma {:induction false} CollapseBlanksKeepsText(s: string, i: nat)
    requires i <= |s|
    ensures Filter(CollapseBlanksFrom(s, i), NotBlank) == Filter(s[i..], NotBlank)
    decreases |s| - i
  {
    if i < |s| {
      var e := RunEnd(s, i, IsBlank);
      if e - i >= 2 {
        CollapseBlanksKeepsText(s, e);
        FilterReplacesRun(s, i, e, " ", CollapseBlanksFrom(s, e), NotBlank);
      } else {
        CollapseBlanksKeepsText(s, i + 1);
        FilterCopiesChar(s, i, CollapseBlanksFrom(s, i + 1), NotBlank);
      }
    }
  }

  /** A maximal run of blanks starting at `i` becomes one space when it has two or more,
      and is kept as it is otherwise; the scan then goes on after the run. */
  lemma {:induction false} CollapseBlanksRun(s: string, i: nat)
    requires i < |s| && IsBlank(s[i])
    ensures var e := RunEnd(s, i, IsBlank);
      CollapseBlanksFrom(s, i) == (if e - i >= 2 then " " else s[i..e]) + CollapseBlanksFrom(s, e)
  {
    var e := RunEnd(s, i, IsBlank);
    if e - i == 1 {
      assert s[i..e] == [s[i]];
    }
  }

  // ---------------------------------------------------------------------------
  // Stage 5 and the page label.

  /** `[line.strip() for line in lines if len(line.strip()) > 3]`. */
  function SignificantLines(lines: seq<string>): (r: seq<string>)
    ensures forall k :: 0 <= k < |r| ==> Strip(r[k]) == r[k] && |r[k]| > 3
  {
    if lines == [] then []
    else
      StripIdempotent(lines[0]);
      (if |Strip(lines[0])| > 3 then [Strip(lines[0])] else []) + SignificantLines(lines[1..])
  }

  predicate LongerThanThree(line: string) { |line| > 3 }

  /** The kept lines are, in order, the trimmed lines longer than three characters:
      filtering after trimming every line gives the same list. */
  lemma {:induction false} SignificantLinesFilter(lines: seq<string>)
    ensures SignificantLines(lines) == Filter(StripAll(lines), LongerThanThree)
  {
    if lines != [] {
      SignificantLinesFilter(lines[1..]);
      assert StripAll(lines)[1..] == StripAll(lines[1..]);
    }
  }

  /** Every line longer than three characters once trimmed is kept, trimmed; the kept
      lines appear in the order of the input. */
  lemma {:induction false} SignificantLinesComplete(lines: seq<string>)
    ensures forall k :: 0 <= k < |lines| && |Strip(lines[k])| > 3 ==> Strip(lines[k]) in SignificantLines(lines)
    ensures IsSubsequence(SignificantLines(lines), StripAll(lines))
  {
    SignificantLinesFilter(lines);
    FilterIsSubsequence(StripAll(lines), LongerThanThree);
    assert forall k :: 0 <= k < |lines| ==> StripAll(lines)[k] == Strip(lines[k]);
  }

  /** No line survives exactly when every line is at most three characters long once
      trimmed. */
  lemma {:induction false} SignificantLinesEmpty(lines: seq<string>)
    ensures SignificantLines(lines) == [] <==> forall k :: 0 <= k < |lines| ==> |Strip(lines[k])| <= 3
  {
    if lines != [] {
      SignificantLinesEmpty(lines[1..]);
      assert forall k :: 0 < k < |lines| ==> lines[k] == lines[1..][k - 1];
    }
  }

  /** The text of one page after stages 1 to 4. */
  function Staged(text: string): string {
    CollapseBlanks(CollapseNewlines(StripPageNumbers(JoinUnitBreaks(MergeBrokenWords(text)))))
  }

  function PageLabel(pageNumber: nat): string {
    "Page " + NatToString(pageNumber) + ":\n"
  }

  /** The last two steps of `clean_text`: keep the significant lines of the staged text
      and prefix them with the page label. */
  function AssemblePage(staged: string, pageNumber: nat): string {
    var lines := SignificantLines(Split(staged, "\n"));
    if lines == [] then "" else PageLabel(pageNumber) + Join(lines, "\n")
  }

  /** `clean_text(text, page_number)`. */
  function CleanText(text: string, pageNumber: nat): string {
    AssemblePage(Staged(text), pageNumber)
  }

  /** A page assembles to "" exactly when no line is longer than three characters after
      trimming. */
  lemma {:induction false} AssemblePageEmpty(staged: string, pageNumber: nat)
    ensures AssemblePage(staged, pageNumber) == "" <==>
      forall k :: 0 <= k < |Split(staged, "\n")| ==> |Strip(Split(staged, "\n")[k])| <= 3
  {
    var lines := SignificantLines(Split(staged, "\n"));
    SignificantLinesEmpty(Split(staged, "\n"));
    if lines != [] {
      assert |PageLabel(pageNumber)| > 0;
    }
  }

  /** `clean_text` gives "" exactly when no line of the staged text is longer than three
      characters after trimming. */
  lemma {:induction false} CleanTextEmpty(text: string, pageNumber: nat)
    ensures CleanText(text, pageNumber) == "" <==>
      forall k :: 0 <= k < |Split(Staged(text), "\n")| ==> |Strip(Split(Staged(text), "\n")[k])| <= 3
  {
    AssemblePageEmpty(Staged(text), pageNumber);
  }

  // ---------------------------------------------------------------------------
  // Properties of the cleaned page.

  lemma {:induction false} StripKeepsAbsentChar(x: string, c: char)
    requires c !in x
    ensures c !in Strip(x)
  {
    var a := StripIsSlice(x);
  }

  lemma {:induction false} SignificantLinesKeepAbsentChar(lines: seq<string>, c: char)
    requires forall k :: 0 <= k < |lines| ==> c !in lines[k]
    ensures forall k :: 0 <= k < |SignificantLines(lines)| ==> c !in SignificantLines(lines)[k]
  {
    if lines != [] {
      SignificantLinesKeepAbsentChar(lines[1..], c);
      StripKeepsAbsentChar(lines[0], c);
    }
  }

  /** The label line of a page. */
  function LabelLine(pageNumber: nat): (r: string)
    ensures '\n' !in r
  {
    var digits := NatToString(pageNumber);
    assert forall j :: 0 <= j < |digits| ==> digits[j] != '\n';
    "Page " + digits + ":"
  }

  lemma {:induction false} PageOfLinesSplit(lines: seq<string>, pageNumber: nat)
    requires lines != [] && forall k :: 0 <= k < |lines| ==> '\n' !in lines[k]
    ensures Split(PageLabel(pageNumber) + Join(lines, "\n"), "\n") == [LabelLine(pageNumber)] + lines
  {
    var parts := [LabelLine(pageNumber)] + lines;
    assert parts[1..] == lines;
    assert Join(parts, "\n") == LabelLine(pageNumber) + "\n" + Join(lines, "\n");
    assert PageLabel(pageNumber) == LabelLine(pageNumber) + "\n";
    forall k | 0 <= k < |parts| ensures !Contains(parts[k], "\n") {
      ContainsChar(parts[k], '\n');
    }
    SplitJoin(parts, '\n');
  }

  lemma {:induction false} AssemblePageLines(staged: string, pageNumber: nat)
    requires AssemblePage(staged, pageNumber) != ""
    ensures Split(AssemblePage(staged, pageNumber), "\n") == [LabelLine(pageNumber)] + SignificantLines(Split(staged, "\n"))
  {
    var pieces := Split(staged, "\n");
    SplitPiecesLackChar(staged, '\n');
    SignificantLinesKeepAbsentChar(pieces, '\n');
    PageOfLinesSplit(SignificantLines(pieces), pageNumber);
  }

  /** A non-empty cleaned page reads, line by line, as its label followed by the
      significant lines of the staged text, each trimmed and longer than three characters. */
  lemma {:induction false} CleanTextLines(text: string, pageNumber: nat)
    requires CleanText(text, pageNumber) != ""
    ensures Split(CleanText(text, pageNumber), "\n") == [LabelLine(pageNumber)] + SignificantLines(Split(Staged(text), "\n"))
  {
    AssemblePageLines(Staged(text), pageNumber);
  }

  lemma {:induction false} NoDoubleBlankSlice(s: string, a: nat, b: nat)
    requires a <= b <= |s| && NoDoubleBlank(s)
    ensures NoDoubleBlank(s[a..b])
  {
    var t := s[a..b];
    forall k | 0 <= k < |t| ensures !DoubleBlankAt(t, k) {
      if k + 1 < |t| {
        assert t[k] == s[a + k] && t[k + 1] == s[a + k + 1];
        assert !DoubleBlankAt(s, a + k);
      }
    }
  }

  lemma {:induction false} NoDoubleBlankAround(u: string, c: char, v: string)
    requires NoDoubleBlank(u) && NoDoubleBlank(v) && !IsBlank(c)
    ensures NoDoubleBlank(u + [c] + v)
  {
    var t := u + [c] + v;
    forall k | 0 <= k < |t| ensures !DoubleBlankAt(t, k) {
      if k + 1 < |u| {
        assert t[k] == u[k] && t[k + 1] == u[k + 1];
        assert !DoubleBlankAt(u, k);
      } else if k > |u| && k + 1 < |t| {
        assert t[k] == v[k - |u| - 1] && t[k + 1] == v[k - |u|];
        assert !DoubleBlankAt(v, k - |u| - 1);
      }
    }
  }

  lemma {:induction false} SplitFromNoDoubleBlank(s: string, sep: string, i: nat)
    requires |sep| > 0 && i <= |s| && NoDoubleBlank(s)
    ensures forall k :: 0 <= k < |SplitFrom(s, sep, i)| ==> NoDoubleBlank(SplitFrom(s, sep, i)[k])
    decreases |s| - i
  {
    match FindFrom(s, sep, i)
    case None =>
      NoDoubleBlankSlice(s, i, |s|);
      assert s[i..|s|] == s[i..];
    case Some(j) =>
      NoDoubleBlankSlice(s, i, j);
      SplitFromNoDoubleBlank(s, sep, j + |sep|);
  }

  lemma {:induction false} StripNoDoubleBlank(x: string)
    requires NoDoubleBlank(x)
    ensures NoDoubleBlank(Strip(x))
  {
    var a := StripIsSlice(x);
    NoDoubleBlankSlice(x, a, a + |Strip(x)|);
  }

  lemma {:induction false} SignificantLinesNoDoubleBlank(lines: seq<string>)
    requires forall k :: 0 <= k < |lines| ==> NoDoubleBlank(lines[k])
    ensures forall k :: 0 <= k < |SignificantLines(lines)| ==> NoDoubleBlank(SignificantLines(lines)[k])
  {
    if lines != [] {
      var rest := SignificantLines(lines[1..]);
      SignificantLinesNoDoubleBlank(lines[1..]);
      var line := Strip(lines[0]);
      StripNoDoubleBlank(lines[0]);
      if |line| > 3 {
        assert SignificantLines(lines) == [line] + rest;
      } else {
        assert SignificantLines(lines) == rest;
      }
    }
  }

  lemma {:induction false} JoinNewlineNoDoubleBlank(parts: seq<string>)
    requires forall k :: 0 <= k < |parts| ==> NoDoubleBlank(parts[k])
    ensures NoDoubleBlank(Join(parts, "\n"))
  {
    if |parts| > 1 {
      JoinNewlineNoDoubleBlank(parts[1..]);
      NoDoubleBlankAround(parts[0], '\n', Join(parts[1..], "\n"));
    }
  }

  lemma {:induction false} LabelLineNoDoubleBlank(pageNumber: nat)
    ensures NoDoubleBlank(LabelLine(pageNumber))
  {
    var labelLine := LabelLine(pageNumber);
    var digits := NatToString(pageNumber);
    assert labelLine == "Page " + digits + ":";
    forall k | 0 <= k < |labelLine| ensures !DoubleBlankAt(labelLine, k) {
      if 5 <= k < 5 + |digits| {
        assert labelLine[k] == digits[k - 5];
      }
      if 4 <= k < 4 + |digits| {
        assert labelLine[k + 1] == digits[k - 4];
      }
    }
  }

  lemma {:induction false} PageOfLinesNoDoubleBlank(lines: seq<string>, pageNumber: nat)
    requires forall k :: 0 <= k < |lines| ==> NoDoubleBlank(lines[k])
    ensures NoDoubleBlank(PageLabel(pageNumber) + Join(lines, "\n"))
  {
    var body := Join(lines, "\n");
    JoinNewlineNoDoubleBlank(lines);
    LabelLineNoDoubleBlank(pageNumber);
    NoDoubleBlankAround(LabelLine(pageNumber), '\n', body);
    assert PageLabel(pageNumber) + body == LabelLine(pageNumber) + ['\n'] + body;
  }

  lemma {:induction false} AssemblePageNoDoubleBlank(staged: string, pageNumber: nat)
    requires NoDoubleBlank(staged)
    ensures NoDoubleBlank(AssemblePage(staged, pageNumber))
  {
    var pieces := Split(staged, "\n");
    SplitFromNoDoubleBlank(staged, "\n", 0);
    SignificantLinesNoDoubleBlank(pieces);
    PageOfLinesNoDoubleBlank(SignificantLines(pieces), pageNumber);
  }

  /** No two blanks (spaces or tabs) stand next to each other anywhere in a cleaned page. */
  lemma {:induction false} CleanTextNoDoubleBlank(text: string, pageNumber: nat)
    ensures NoDoubleBlank(CleanText(text, pageNumber))
  {
    AssemblePageNoDoubleBlank(Staged(text), pageNumber);
  }
}
