/** The parsers that pull configuration text out of language-model answers
    (src/file_writer.py), and the file filter of `copy_folder`. Every regular
    expression is a single literal opener, a lazy `(.*?)` and a literal closer, so each
    becomes a scanner that tries the match positions left to right exactly as the
    regular-expression engine does: at a position where the opener occurs but no closer
    follows, the attempt fails and the scan moves on by one character. */
module FileWriter {
  import opened Wrappers
  import opened PyStrings
  import opened SeqUtil

  // ---------------------------------------------------------------------------
  // `findall` of `open(.*?)close` with DOTALL.

  /** The next match of `open(.*?)close` at or after `i`, as the engine finds it: the
      first position holding the opener with a closer somewhere after it, and the first
      such closer. A position whose opener has no closer after it fails and the engine
      moves on by one character. */
  function NextMatch(s: string, open: string, close: string, i: nat): (r: Option<(nat, nat)>)
    requires |open| > 0 && |close| > 0 && i <= |s|
    ensures r.Some? ==> i <= r.value.0 && r.value.0 + |open| <= r.value.1 && r.value.1 + |close| <= |s|
    decreases |s| - i
  {
    if i + |open| > |s| then None
    else if OccursAt(s, open, i) && FindFrom(s, close, i + |open|).Some? then
      Some((i, FindFrom(s, close, i + |open|).value))
    else NextMatch(s, open, close, i + 1)
  }

  /** An attempt at `p` succeeds: the opener is there and a closer follows it. */
  predicate MatchesAt(s: string, open: string, close: string, p: nat) {
    OccursAt(s, open, p) && FindFrom(s, close, p + |open|).Some?
  }

  /** The match the engine reports from `i`: the first successful attempt at or after `i`,
      with the first closer after its opener (the lazy group stops as early as it can). */
  predicate LeftmostMatch(s: string, open: string, close: string, i: nat, p: nat, q: nat) {
    i <= p && MatchesAt(s, open, close, p) && FindFrom(s, close, p + |open|) == Some(q) &&
    forall j :: i <= j < p ==> !MatchesAt(s, open, close, j)
  }

  /** The scanner finds exactly the leftmost match, on any text. */
  lemma {:induction false} NextMatchLeftmost(s: string, open: string, close: string, i: nat, p: nat, q: nat)
    requires |open| > 0 && |close| > 0 && i <= |s|
    ensures NextMatch(s, open, close, i) == Some((p, q)) <==> LeftmostMatch(s, open, close, i, p, q)
  {
    var r := NextMatchSound(s, open, close, i);
    if LeftmostMatch(s, open, close, i, p, q) {
      NextMatchNone(s, open, close, i);
      LeftmostMatchUnique(s, open, close, i, p, q, r.value.0, r.value.1);
    }
  }

  /** What the scanner returns is the leftmost match. */
  lemma {:induction false} NextMatchSound(s: string, open: string, close: string, i: nat) returns (r: Option<(nat, nat)>)
    requires |open| > 0 && |close| > 0 && i <= |s|
    ensures r == NextMatch(s, open, close, i)
    ensures r.Some? ==> LeftmostMatch(s, open, close, i, r.value.0, r.value.1)
    decreases |s| - i
  {
    r := NextMatch(s, open, close, i);
    if i + |open| <= |s| && !MatchesAt(s, open, close, i) {
      var r' := NextMatchSound(s, open, close, i + 1);
    }
  }

  /** There is at most one leftmost match. */
  lemma LeftmostMatchUnique(s: string, open: string, close: string, i: nat, p: nat, q: nat, p': nat, q': nat)
    requires LeftmostMatch(s, open, close, i, p, q) && LeftmostMatch(s, open, close, i, p', q')
    ensures p == p' && q == q'
  {
  }

  /** The groups from `i` start with the group of the leftmost match, and the scan
      resumes after its closer. */
  lemma {:induction false} BetweenFromLeftmost(s: string, open: string, close: string, i: nat, p: nat, q: nat)
    requires |open| > 0 && |close| > 0 && i <= |s| && LeftmostMatch(s, open, close, i, p, q)
    ensures p + |open| <= q && q + |close| <= |s|
    ensures BetweenFrom(s, open, close, i) == [s[p + |open|..q]] + BetweenFrom(s, open, close, q + |close|)
  {
    NextMatchLeftmost(s, open, close, i, p, q);
  }

  /** The groups of the non-overlapping matches of `open(.*?)close` at or after `i`,
      left to right: the text from each opener to the first closer after it. */
  function BetweenFrom(s: string, open: string, close: string, i: nat): (r: seq<string>)
    requires |open| > 0 && |close| > 0 && i <= |s|
    decreases |s| - i
  {
    match NextMatch(s, open, close, i)
    case None => []
    case Some((p, q)) => [s[p + |open|..q]] + BetweenFrom(s, open, close, q + |close|)
  }

  function Between(s: string, open: string, close: string): seq<string>
    requires |open| > 0 && |close| > 0
  {
    BetweenFrom(s, open, close, 0)
  }

  /** There is no match exactly when no opener at or after `i` is followed by a closer. */
  lemma {:induction false} NextMatchNone(s: string, open: string, close: string, i: nat)
    requires |open| > 0 && |close| > 0 && i <= |s|
    ensures NextMatch(s, open, close, i).None? <==>
      forall p :: i <= p && OccursAt(s, open, p) ==> FindFrom(s, close, p + |open|).None?
    decreases |s| - i
  {
    if i + |open| <= |s| && !MatchesAt(s, open, close, i) {
      NextMatchNone(s, open, close, i + 1);
    }
  }

  lemma {:induction false} BetweenFromEmpty(s: string, open: string, close: string, i: nat)
    requires |open| > 0 && |close| > 0 && i <= |s|
    ensures BetweenFrom(s, open, close, i) == [] <==>
      forall p :: i <= p && OccursAt(s, open, p) ==> FindFrom(s, close, p + |open|).None?
  {
    NextMatchNone(s, open, close, i);
  }

  /** `close` first occurs in `x + close` at the appended copy: `x` holds no closer, not
      even one that runs into the appended copy. */
  predicate ClosedBy(x: string, close: string) {
    forall j :: 0 <= j < |x| ==> !OccursAt(x + close, close, j)
  }

  /** A block `open + x + close` written at `o` is the match found from `o`. */
  lemma {:induction false} FirstBlockAt(s: string, o: nat, x: string, open: string, close: string)
    requires |open| > 0 && |close| > 0 && ClosedBy(x, close)
    requires o + |open| + |x| + |close| <= |s| && s[o..o + |open| + |x| + |close|] == open + x + close
    ensures NextMatch(s, open, close, o) == Some((o, o + |open| + |x|))
    ensures s[o + |open|..o + |open| + |x|] == x
  {
    var a := o + |open|;
    var q := a + |x|;
    assert s[a..q + |close|] == x + close by {
      assert open + x + close == open + (x + close);
      PrefixSplit(s, o, open, x + close);
    }
    assert OccursAt(s, open, o) && s[a..q] == x by {
      PrefixSplit(s, o, open, x + close);
      PrefixSplit(s, a, x, close);
    }
    assert FindFrom(s, close, a) == Some(q) by {
      PrefixSplit(s, a, x, close);
      forall j | a <= j < q ensures !OccursAt(s, close, j) {
        OccursAtSlice(s, a, q + |close|, close, j);
      }
      FindFromFirst(s, close, a, q);
    }
  }

  /** A block right at `o` is the next group, and the scan goes on after its closer. */
  lemma {:induction false} BetweenStep(s: string, o: nat, x: string, open: string, close: string)
    requires |open| > 0 && |close| > 0 && ClosedBy(x, close)
    requires o + |open| + |x| + |close| <= |s| && s[o..o + |open| + |x| + |close|] == open + x + close
    ensures BetweenFrom(s, open, close, o) == [x] + BetweenFrom(s, open, close, o + |open| + |x| + |close|)
  {
    FirstBlockAt(s, o, x, open, close);
  }

  /** The answer a language model writes when it follows the format: each item wrapped
      in the opener and the closer, one after the other. */
  function Render(xs: seq<string>, open: string, close: string): string {
    if xs == [] then "" else open + xs[0] + close + Render(xs[1..], open, close)
  }

  /** A rendering splits into its first item's block and the rendering of the rest. */
  lemma {:induction false} RenderedTail(s: string, o: nat, xs: seq<string>, open: string, close: string)
    requires xs != [] && o <= |s| && s[o..] == Render(xs, open, close)
    ensures o + |open| + |xs[0]| + |close| <= |s|
    ensures s[o..o + |open| + |xs[0]| + |close|] == open + xs[0] + close
    ensures s[o + |open| + |xs[0]| + |close|..] == Render(xs[1..], open, close)
  {
    SuffixSplit(s, o, open + xs[0] + close, Render(xs[1..], open, close));
  }

  /** A block holding `xs[0]` at `o`, followed by text whose groups are the rest of
      `xs`, has the groups `xs`. */
  lemma {:induction false} BetweenCons(s: string, o: nat, xs: seq<string>, open: string, close: string)
    requires |open| > 0 && |close| > 0 && xs != [] && ClosedBy(xs[0], close)
    requires o + |open| + |xs[0]| + |close| <= |s|
    requires s[o..o + |open| + |xs[0]| + |close|] == open + xs[0] + close
    requires BetweenFrom(s, open, close, o + |open| + |xs[0]| + |close|) == xs[1..]
    ensures BetweenFrom(s, open, close, o) == xs
  {
    BetweenStep(s, o, xs[0], open, close);
    assert xs == [xs[0]] + xs[1..];
  }

  /** Every item is closed by `close`, stated item after item. */
  predicate AllClosedBy(xs: seq<string>, close: string) {
    xs == [] || (ClosedBy(xs[0], close) && AllClosedBy(xs[1..], close))
  }

  lemma {:induction false} AllClosedByOf(xs: seq<string>, close: string)
    requires forall k :: 0 <= k < |xs| ==> ClosedBy(xs[k], close)
    ensures AllClosedBy(xs, close)
  {
    if xs != [] {
      assert forall k :: 0 <= k < |xs[1..]| ==> xs[1..][k] == xs[k + 1];
      AllClosedByOf(xs[1..], close);
    }
  }

  lemma {:induction false} BetweenRenderAt(s: string, o: nat, xs: seq<string>, open: string, close: string)
    requires |open| > 0 && |close| > 0 && AllClosedBy(xs, close)
    requires o <= |s| && s[o..] == Render(xs, open, close)
    ensures BetweenFrom(s, open, close, o) == xs
    decreases xs
  {
    if xs != [] {
      RenderedTail(s, o, xs, open, close);
      BetweenRenderAt(s, o + |open| + |xs[0]| + |close|, xs[1..], open, close);
      BetweenCons(s, o, xs, open, close);
    } else {
      BetweenFromEnd(s, open, close, o);
    }
  }

  lemma {:induction false} BetweenFromEnd(s: string, open: string, close: string, o: nat)
    requires |open| > 0 && |close| > 0 && o <= |s| && s[o..] == []
    ensures BetweenFrom(s, open, close, o) == []
  {
    assert NextMatch(s, open, close, o) == None;
  }

  /** Extraction inverts rendering: the scanner gives back every item, in order. */
  lemma {:induction false} BetweenRender(xs: seq<string>, open: string, close: string)
    requires |open| > 0 && |close| > 0
    requires forall k :: 0 <= k < |xs| ==> ClosedBy(xs[k], close)
    ensures Between(Render(xs, open, close), open, close) == xs
  {
    var s := Render(xs, open, close);
    assert s[0..] == s;
    AllClosedByOf(xs, close);
    BetweenRenderAt(s, 0, xs, open, close);
  }

  // ---------------------------------------------------------------------------
  // extract_content_in_brackets.

  function BracketOpener(indicator: string): string {
    indicator + " [["
  }

  /** `extract_content_in_brackets(text, indicator)`: the stripped groups of
      `<indicator> [[(.*?)]]`, with the indicator taken literally. */
  function ExtractContentInBrackets(text: string, indicator: string): seq<string> {
    StrippedGroups(text, BracketOpener(indicator), "]]")
  }

  /** The groups of `open(.*?)close`, each trimmed. */
  function StrippedGroups(s: string, open: string, close: string): seq<string>
    requires |open| > 0 && |close| > 0
  {
    StripAll(Between(s, open, close))
  }

  /** The first trimmed group is the text of the leftmost match, between its opener and
      the first closer after it; the other groups come from the scan resumed after that
      closer. With the opener `<indicator> [[` and the closer `]]` these are the items of
      `extract_content_in_brackets`. */
  lemma {:induction false} StrippedGroupsFirst(s: string, open: string, close: string, p: nat, q: nat)
    requires |open| > 0 && |close| > 0 && LeftmostMatch(s, open, close, 0, p, q)
    ensures var r := StrippedGroups(s, open, close);
      q + |close| <= |s| && r != [] && r[0] == Strip(s[p + |open|..q]) &&
      r[1..] == StripAll(BetweenFrom(s, open, close, q + |close|))
  {
    BetweenFromLeftmost(s, open, close, 0, p, q);
    StripAllCons(s[p + |open|..q], BetweenFrom(s, open, close, q + |close|));
  }

  /** Nothing is extracted exactly when no opener is followed by `]]`. */
  lemma {:induction false} ExtractContentInBracketsEmpty(text: string, indicator: string)
    ensures ExtractContentInBrackets(text, indicator) == [] <==>
      forall p: nat :: OccursAt(text, BracketOpener(indicator), p) ==> FindFrom(text, "]]", p + |BracketOpener(indicator)|).None?
  {
    BetweenFromEmpty(text, BracketOpener(indicator), "]]", 0);
  }

  /** An answer written as `<indicator> [[item]]` blocks gives back the trimmed items. */
  lemma {:induction false} ExtractContentInBracketsRender(items: seq<string>, indicator: string)
    requires forall k :: 0 <= k < |items| ==> ClosedBy(items[k], "]]")
    ensures ExtractContentInBrackets(Render(items, BracketOpener(indicator), "]]"), indicator) == StripAll(items)
  {
    BetweenRender(items, BracketOpener(indicator), "]]");
  }

  // ---------------------------------------------------------------------------
  // extract_foamfile_content.

  const NoFoamFileMessage: string := "No content containing 'FoamFile' found"
  const MultipleFoamFileMessage: string := "Error: Multiple contents containing 'FoamFile' found"

  function StartTag(indicator: string): string { "\\Start_" + indicator }
  function EndTag(indicator: string): string { "\\End_" + indicator }

  predicate HasFoamFile(block: string) {
    Contains(block, "FoamFile")
  }

  /** The candidate blocks: the text between each `\Start_<indicator>` and the nearest
      `\End_<indicator>` after it. */
  function FoamFileCandidates(text: string, indicator: string): seq<string> {
    Between(text, StartTag(indicator), EndTag(indicator))
  }

  /** `extract_foamfile_content(text, indicator)`: the one candidate that contains
      "FoamFile", or a fixed message when there is none or more than one. */
  function ExtractFoamFileContent(text: string, indicator: string): (r: string)
    ensures var found := Filter(FoamFileCandidates(text, indicator), HasFoamFile);
      (|found| == 0 ==> r == NoFoamFileMessage) &&
      (|found| > 1 ==> r == MultipleFoamFileMessage) &&
      (|found| == 1 ==> r == found[0] && HasFoamFile(r) && r in FoamFileCandidates(text, indicator))
  {
    var found := Filter(FoamFileCandidates(text, indicator), HasFoamFile);
    if |found| == 0 then NoFoamFileMessage
    else if |found| > 1 then MultipleFoamFileMessage
    else found[0]
  }

  /** A single tagged block holding a FoamFile header is returned as it is written. */
  lemma {:induction false} ExtractFoamFileContentSingle(block: string, indicator: string)
    requires ClosedBy(block, EndTag(indicator)) && HasFoamFile(block)
    ensures ExtractFoamFileContent(StartTag(indicator) + block + EndTag(indicator), indicator) == block
  {
    var tagged := StartTag(indicator) + block + EndTag(indicator);
    assert Render([block], StartTag(indicator), EndTag(indicator)) == tagged + "" == tagged;
    BetweenRender([block], StartTag(indicator), EndTag(indicator));
    assert FoamFileCandidates(tagged, indicator) == [block];
    assert Filter([block], HasFoamFile) == [block];
  }

  // ---------------------------------------------------------------------------
  // extract_pure_response.

  const ResponseMarker: string := "Here is my response:"

  /** Where the lazy group of `(.*?)(?=$|\Z)` ends when it starts at `a`: the first
      position at which `$` holds, that is in front of a final newline or at the end. */
  function ResponseEnd(s: string, a: nat): (e: nat)
    requires a <= |s|
    ensures a <= e <= |s|
  {
    if |s| > a && s[|s| - 1] == '\n' then |s| - 1 else |s|
  }

  /** `extract_pure_response(text)`: the stripped text after the first marker, or "". */
  function ExtractPureResponse(text: string): string {
    match FindFrom(text, ResponseMarker, 0)
    case None => ""
    case Some(p) =>
      var a := p + |ResponseMarker|;
      Strip(text[a..ResponseEnd(text, a)])
  }

  /** Dropping one final newline does not change what strip keeps. */
  lemma {:induction false} StripDropNewline(t: string)
    requires t != [] && t[|t| - 1] == '\n'
    ensures Strip(t[..|t| - 1]) == Strip(t)
  {
    var u := t[..|t| - 1];
    var a := RunEnd(t, 0, IsSpace);
    var b := RunEnd(u, 0, IsSpace);
    forall j | 0 <= j < |u| ensures u[j] == t[j] { }
    if b < |u| {
      RunEndAt(t, 0, IsSpace, b);
      assert TrimStart(t) == TrimStart(u) + "\n";
      assert TrimEnd(TrimStart(t)) == TrimEnd(TrimStart(u));
    } else {
      assert forall j :: 0 <= j < |t| ==> IsSpace(t[j]);
      RunEndAt(t, 0, IsSpace, |t|);
      assert TrimStart(t) == [];
      assert TrimStart(u) == [];
    }
  }

  /** Ending the text before a final newline does not change what strip keeps. */
  lemma {:induction false} StripToResponseEnd(text: string, a: nat)
    requires a <= |text|
    ensures Strip(text[a..ResponseEnd(text, a)]) == Strip(text[a..])
  {
    var t := text[a..];
    if |text| > a && text[|text| - 1] == '\n' {
      assert text[a..ResponseEnd(text, a)] == t[..|t| - 1];
      StripDropNewline(t);
    } else {
      assert text[a..ResponseEnd(text, a)] == t;
    }
  }

  /** The result is the whole text after the first marker, stripped; the `$` lookahead
      only matters for a final newline, which strip removes anyway. */
  lemma {:induction false} ExtractPureResponseRest(text: string)
    ensures ExtractPureResponse(text) ==
      match FindFrom(text, ResponseMarker, 0)
      case None => ""
      case Some(p) => Strip(text[p + |ResponseMarker|..])
  {
    match FindFrom(text, ResponseMarker, 0)
    case None =>
    case Some(p) =>
      StripToResponseEnd(text, p + |ResponseMarker|);
  }

  /** A response after the marker comes back without its surrounding whitespace. */
  lemma {:induction false} ExtractPureResponseOf(preamble: string, response: string)
    requires !Contains(preamble + ResponseMarker[..|ResponseMarker| - 1], ResponseMarker)
    ensures ExtractPureResponse(preamble + ResponseMarker + response) == Strip(response)
  {
    var s := preamble + ResponseMarker + response;
    var n := |preamble|;
    assert OccursAt(s, ResponseMarker, n) by { assert s[n..n + |ResponseMarker|] == ResponseMarker; }
    var prefix := preamble + ResponseMarker[..|ResponseMarker| - 1];
    assert s[0..|prefix|] == prefix;
    forall j | 0 <= j < n ensures !OccursAt(s, ResponseMarker, j) {
      OccursAtSlice(s, 0, |prefix|, ResponseMarker, j);
    }
    FindFromFirst(s, ResponseMarker, 0, n);
    ExtractPureResponseRest(s);
    assert s[n + |ResponseMarker|..] == response;
  }

  /** Without the marker nothing is extracted. */
  lemma {:induction false} ExtractPureResponseAbsent(text: string)
    requires !Contains(text, ResponseMarker)
    ensures ExtractPureResponse(text) == ""
  {
  }

  // ---------------------------------------------------------------------------
  // remove_functions_blocks.

  const FunctionsKeyword: string := "functions"

  /** Where a match of `functions\s*\{.*?\}` that starts at `p` ends, if one does. */
  function FunctionsBlockAt(s: string, p: nat): (r: Option<nat>)
    ensures r.Some? ==> p < r.value <= |s|
  {
    if !OccursAt(s, FunctionsKeyword, p) then None
    else
      var b := RunEnd(s, p + |FunctionsKeyword|, IsSpace);
      if b == |s| || s[b] != '{' then None
      else
        match FindFrom(s, "}", b + 1)
        case None => None
        case Some(q) => Some(q + 1)
  }

  /** `re.sub` from position `i`, as the engine scans: a match starting here is deleted
      and the scan resumes at its end; otherwise the character is copied. */
  function RemoveFunctionsBlocksFrom(s: string, i: nat): (r: string)
    requires i <= |s|
    ensures |r| <= |s| - i
    decreases |s| - i
  {
    if i == |s| then ""
    else match FunctionsBlockAt(s, i)
      case Some(e) => RemoveFunctionsBlocksFrom(s, e)
      case None => [s[i]] + RemoveFunctionsBlocksFrom(s, i + 1)
  }

  /** `remove_functions_blocks(text)`. */
  function RemoveFunctionsBlocks(text: string): string {
    RemoveFunctionsBlocksFrom(text, 0)
  }

  /** The text is returned unchanged exactly when no match starts at or after `i`. */
  lemma {:induction false} RemoveFunctionsBlocksFromUnchanged(s: string, i: nat)
    requires i <= |s|
    ensures RemoveFunctionsBlocksFrom(s, i) == s[i..] <==> forall p :: i <= p ==> FunctionsBlockAt(s, p).None?
    decreases |s| - i
  {
    if i < |s| {
      if FunctionsBlockAt(s, i).Some? {
        assert |RemoveFunctionsBlocksFrom(s, i)| < |s[i..]|;
      } else {
        RemoveFunctionsBlocksFromUnchanged(s, i + 1);
        RemoveFunctionsBlocksCopy(s, i);
        NoFunctionsBlockStep(s, i);
      }
    }
  }

  /** Where no match starts, the character is copied and the rest is unchanged exactly
      when the whole is. */
  lemma RemoveFunctionsBlocksCopy(s: string, i: nat)
    requires i < |s| && FunctionsBlockAt(s, i).None?
    ensures RemoveFunctionsBlocksFrom(s, i) == s[i..] <==> RemoveFunctionsBlocksFrom(s, i + 1) == s[i + 1..]
  {
    assert RemoveFunctionsBlocksFrom(s, i) == [s[i]] + RemoveFunctionsBlocksFrom(s, i + 1);
    assert s[i..] == [s[i]] + s[i + 1..];
  }

  lemma NoFunctionsBlockStep(s: string, i: nat)
    requires FunctionsBlockAt(s, i).None?
    ensures (forall p :: i <= p ==> FunctionsBlockAt(s, p).None?) <==>
      (forall p :: i + 1 <= p ==> FunctionsBlockAt(s, p).None?)
  {
  }

  /** The leftmost match at or after `i` starts at `p` and ends at `e`: the text before
      it is copied, the match is deleted, and the scan resumes at `e`. With
      `RemoveFunctionsBlocksFromUnchanged` for the text after the last match, this gives
      `re.sub` on every input, one match at a time. */
  lemma {:induction false} RemoveFunctionsBlocksLeftmost(s: string, i: nat, p: nat, e: nat)
    requires i <= p && FunctionsBlockAt(s, p) == Some(e)
    requires forall j :: i <= j < p ==> FunctionsBlockAt(s, j).None?
    ensures RemoveFunctionsBlocksFrom(s, i) == s[i..p] + RemoveFunctionsBlocksFrom(s, e)
    decreases p - i
  {
    if i == p {
      RemoveFunctionsBlocksDelete(s, p, e);
      assert s[i..p] == [];
    } else {
      assert FunctionsBlockAt(s, i).None?;
      RemoveFunctionsBlocksLeftmost(s, i + 1, p, e);
      RemoveFunctionsBlocksSkip(s, i);
      PrependCopied(s, i, p, RemoveFunctionsBlocksFrom(s, i), RemoveFunctionsBlocksFrom(s, i + 1),
                    RemoveFunctionsBlocksFrom(s, e));
    }
  }

  /** Copying `s[i]` in front of a copy of `s[i + 1..p]` copies `s[i..p]`. */
  lemma PrependCopied(s: string, i: nat, p: nat, whole: string, rest: string, tail: string)
    requires i < p <= |s| && whole == [s[i]] + rest && rest == s[i + 1..p] + tail
    ensures whole == s[i..p] + tail
  {
    assert s[i..p] == [s[i]] + s[i + 1..p];
  }

  /** A match starting at `i` is deleted and the scan resumes at its end. */
  lemma RemoveFunctionsBlocksDelete(s: string, i: nat, e: nat)
    requires FunctionsBlockAt(s, i) == Some(e)
    ensures i < |s| && RemoveFunctionsBlocksFrom(s, i) == RemoveFunctionsBlocksFrom(s, e)
  {
  }

  /** Where no match starts, the character is copied. */
  lemma RemoveFunctionsBlocksSkip(s: string, i: nat)
    requires i < |s| && FunctionsBlockAt(s, i).None?
    ensures RemoveFunctionsBlocksFrom(s, i) == [s[i]] + RemoveFunctionsBlocksFrom(s, i + 1)
  {
  }

  /** `remove_functions_blocks` leaves a text alone exactly when it holds no block. */
  lemma {:induction false} RemoveFunctionsBlocksUnchanged(text: string)
    ensures RemoveFunctionsBlocks(text) == text <==> forall p :: FunctionsBlockAt(text, p).None?
  {
    RemoveFunctionsBlocksFromUnchanged(text, 0);
    assert text[0..] == text;
  }

  /** The keyword at `o`, white space up to `b`, a brace at `b` and the first closing
      brace at `q`: the match runs from `o` to just past `q`. */
  lemma {:induction false} FunctionsBlockWrittenAt(s: string, o: nat, b: nat, q: nat)
    requires OccursAt(s, FunctionsKeyword, o) && o + |FunctionsKeyword| <= b < q < |s|
    requires forall j :: o + |FunctionsKeyword| <= j < b ==> IsSpace(s[j])
    requires s[b] == '{' && s[q] == '}'
    requires forall j :: b < j < q ==> s[j] != '}'
    ensures FunctionsBlockAt(s, o) == Some(q + 1)
  {
    RunEndAt(s, o + |FunctionsKeyword|, IsSpace, b);
    FindCharFirst(s, '}', b + 1, q);
  }

  /** No block starts in a stretch of text that never mentions the keyword. */
  lemma {:induction false} NoKeywordNoBlock(s: string, o: nat)
    requires o <= |s| && !Contains(s[o..], FunctionsKeyword)
    ensures forall p :: o <= p ==> FunctionsBlockAt(s, p).None?
  {
    forall p | o <= p ensures FunctionsBlockAt(s, p).None? {
      if p + |FunctionsKeyword| <= |s| {
        OccursAtSlice(s, o, |s|, FunctionsKeyword, p);
        assert s[o..|s|] == s[o..];
      }
    }
  }

  /** A block at the very start is deleted up to its first closing brace, and text after
      it that never mentions the keyword is kept as it is. */
  lemma {:induction false} RemoveLeadingFunctionsBlock(gap: string, body: string, rest: string)
    requires forall j :: 0 <= j < |gap| ==> IsSpace(gap[j])
    requires '}' !in body
    requires !Contains(rest, FunctionsKeyword)
    ensures RemoveFunctionsBlocks(FunctionsKeyword + gap + "{" + body + "}" + rest) == rest
  {
    var block := FunctionsKeyword + gap + "{" + body + "}";
    var s := block + rest;
    var k := |FunctionsKeyword|;
    var b := k + |gap|;
    var q := b + 1 + |body|;
    assert OccursAt(s, FunctionsKeyword, 0) by { assert s[..k] == FunctionsKeyword; }
    forall j | k <= j < b ensures IsSpace(s[j]) { assert s[j] == gap[j - k]; }
    forall j | b < j < q ensures s[j] != '}' { assert s[j] == body[j - b - 1]; }
    FunctionsBlockWrittenAt(s, 0, b, q);
    assert s[|block|..] == rest;
    NoKeywordNoBlock(s, |block|);
    RemoveFunctionsBlocksFromUnchanged(s, |block|);
  }

  // ---------------------------------------------------------------------------
  // The file filter of copy_folder.

  const MaxCopySize: nat := 25 * 1024

  /** A file is copied unless it is larger than 25 KiB or a Fluent mesh (`.msh`). */
  predicate ShouldCopy(size: nat, name: string) {
    size <= MaxCopySize && !EndsWith(name, ".msh")
  }

  datatype FileEntry = FileEntry(name: string, size: nat)

  predicate Copyable(file: FileEntry) {
    ShouldCopy(file.size, file.name)
  }

  function Names(files: seq<FileEntry>): (r: seq<string>)
    ensures |r| == |files| && forall j :: 0 <= j < |files| ==> r[j] == files[j].name
  {
    if files == [] then [] else [files[0].name] + Names(files[1..])
  }

  lemma {:induction false} NamesConcat(a: seq<FileEntry>, b: seq<FileEntry>)
    ensures Names(a + b) == Names(a) + Names(b)
  {
  }

  /** The inner loop of `copy_folder` over the files of one directory: the names of the
      files it copies, in listing order. */
  method CopiedFiles(files: seq<FileEntry>) returns (copied: seq<string>)
    ensures copied == Names(Filter(files, Copyable))
    ensures forall k :: 0 <= k < |copied| ==> !EndsWith(copied[k], ".msh")
    ensures forall j :: 0 <= j < |files| && files[j].size <= 25600 && !EndsWith(files[j].name, ".msh") ==>
      files[j].name in copied
  {
    copied := [];
    var i := 0;
    while i < |files|
      invariant 0 <= i <= |files|
      invariant copied == Names(Filter(files[..i], Copyable))
    {
      var file := files[i];
      assert files[..i + 1] == files[..i] + [file];
      FilterConcat(files[..i], [file], Copyable);
      NamesConcat(Filter(files[..i], Copyable), Filter([file], Copyable));
      if file.size > MaxCopySize {
        i := i + 1;
        continue;
      }
      if EndsWith(file.name, ".msh") {
        i := i + 1;
        continue;
      }
      copied := copied + [file.name];
      i := i + 1;
    }
    assert files[..|files|] == files;
    CopiedNamesOfFilter(files);
  }

  /** Only files that pass the filter are copied, and every one that passes is. */
  lemma {:induction false} CopiedNamesOfFilter(files: seq<FileEntry>)
    ensures forall k :: 0 <= k < |Names(Filter(files, Copyable))| ==> !EndsWith(Names(Filter(files, Copyable))[k], ".msh")
    ensures forall j :: 0 <= j < |files| && Copyable(files[j]) ==> files[j].name in Names(Filter(files, Copyable))
  {
    var kept := Filter(files, Copyable);
    forall j | 0 <= j < |files| && Copyable(files[j]) ensures files[j].name in Names(kept) {
      var m :| 0 <= m < |kept| && kept[m] == files[j];
      assert Names(kept)[m] == files[j].name;
    }
  }
}
