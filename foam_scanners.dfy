/** The regular expressions of src/preprocess_OF_tutorial.py, as scanners that try the
    match positions left to right as the engine does. In each pattern a greedy run is
    followed by a character its class excludes, so the engine's backtracking can only
    succeed with the maximal run; the one exception, in `type\s+([^;]+);`, is spelled
    out in `TypeAt`. */
module FoamScanners {
  import opened Wrappers
  import opened PyStrings

  // ---------------------------------------------------------------------------
  // `re.search(kw + r"\s+(\w+);", text)` for application, simulationType, LESModel
  // and RASModel.

  /** The group of `kw\s+(\w+);` when a match starts at `p`. */
  function KeywordWordAt(s: string, kw: string, p: nat): (r: Option<string>)
    ensures r.Some? ==> |r.value| > 0 && forall j :: 0 <= j < |r.value| ==> IsWordChar(r.value[j])
  {
    if !OccursAt(s, kw, p) then None
    else
      var b := RunEnd(s, p + |kw|, IsSpace);
      var c := RunEnd(s, b, IsWordChar);
      if b > p + |kw| && c > b && c < |s| && s[c] == ';' then Some(s[b..c]) else None
  }

  /** `re.search` from position `i`: the group of the leftmost match. */
  function KeywordSearchFrom(s: string, kw: string, i: nat): (r: Option<string>)
    requires |kw| > 0 && i <= |s|
    decreases |s| - i
  {
    if i + |kw| > |s| then None
    else match KeywordWordAt(s, kw, i)
      case Some(w) => Some(w)
      case None => KeywordSearchFrom(s, kw, i + 1)
  }

  function KeywordSearch(s: string, kw: string): Option<string>
    requires |kw| > 0
  {
    KeywordSearchFrom(s, kw, 0)
  }

  /** The search fails exactly when no position at or after `i` starts a match. */
  lemma {:induction false} KeywordSearchNone(s: string, kw: string, i: nat)
    requires |kw| > 0 && i <= |s|
    ensures KeywordSearchFrom(s, kw, i).None? <==> forall p :: i <= p ==> KeywordWordAt(s, kw, p).None?
    decreases |s| - i
  {
    if i + |kw| <= |s| && KeywordWordAt(s, kw, i).None? {
      KeywordSearchNone(s, kw, i + 1);
    }
  }

  /** A found word is the group of the leftmost match. */
  lemma {:induction false} KeywordSearchFound(s: string, kw: string, i: nat) returns (p: nat)
    requires |kw| > 0 && i <= |s| && KeywordSearchFrom(s, kw, i).Some?
    ensures i <= p && KeywordWordAt(s, kw, p) == KeywordSearchFrom(s, kw, i)
    ensures forall q :: i <= q < p ==> KeywordWordAt(s, kw, q).None?
    decreases |s| - i
  {
    if KeywordWordAt(s, kw, i).Some? {
      p := i;
    } else {
      p := KeywordSearchFound(s, kw, i + 1);
    }
  }

  /** The keyword at `p`, white space up to `b`, word characters up to `c`, then ';'. */
  lemma {:induction false} KeywordWordWrittenAt(s: string, kw: string, p: nat, b: nat, c: nat)
    requires OccursAt(s, kw, p) && p + |kw| < b < c < |s| && s[c] == ';'
    requires forall j :: p + |kw| <= j < b ==> IsSpace(s[j])
    requires forall j :: b <= j < c ==> IsWordChar(s[j])
    requires !IsSpace(s[b])
    ensures KeywordWordAt(s, kw, p) == Some(s[b..c])
  {
    RunEndAt(s, p + |kw|, IsSpace, b);
    RunEndAt(s, b, IsWordChar, c);
  }

  /** A setting written as `kw <gap> word;` at the start of the text is what the search
      returns, whatever follows it. */
  lemma {:induction false} KeywordSearchOfSetting(kw: string, gap: string, w: string, rest: string)
    requires |kw| > 0 && |gap| > 0 && |w| > 0
    requires forall j :: 0 <= j < |gap| ==> IsSpace(gap[j])
    requires forall j :: 0 <= j < |w| ==> IsWordChar(w[j])
    ensures KeywordSearch(kw + gap + w + ";" + rest, kw) == Some(w)
  {
    var s := kw + gap + w + ";" + rest;
    var b := |kw| + |gap|;
    var c := b + |w|;
    assert OccursAt(s, kw, 0) by { assert s[..|kw|] == kw; }
    forall j | |kw| <= j < b ensures IsSpace(s[j]) { assert s[j] == gap[j - |kw|]; }
    forall j | b <= j < c ensures IsWordChar(s[j]) { assert s[j] == w[j - b]; }
    assert s[c] == ';';
    assert !IsSpace(s[b]) by { assert s[b] == w[0]; }
    KeywordWordWrittenAt(s, kw, 0, b, c);
    assert s[b..c] == w;
  }

  // ---------------------------------------------------------------------------
  // `boundaryField\s*{((?:[^{}]*{[^{}]*}[^{}]*)*)}` with DOTALL, searched.

  const BoundaryFieldKeyword: string := "boundaryField"

  predicate NotBrace(c: char) { c != '{' && c != '}' }

  /** One repetition of `[^{}]*{[^{}]*}[^{}]*` from `x`: where it ends, if it matches. */
  function UnitEnd(s: string, x: nat): (r: Option<nat>)
    requires x <= |s|
    ensures r.Some? ==> x < r.value <= |s|
  {
    var y := RunEnd(s, x, NotBrace);
    if y == |s| || s[y] != '{' then None
    else
      var z := RunEnd(s, y + 1, NotBrace);
      if z == |s| || s[z] != '}' then None
      else Some(RunEnd(s, z + 1, NotBrace))
  }

  /** Where the greedy star of repetitions stops. Backing off a repetition never lets
      the closing `}` match: the text there is a `{` or a character that is no brace. */
  function UnitsEnd(s: string, x: nat): (w: nat)
    requires x <= |s|
    ensures x <= w <= |s|
    decreases |s| - x
  {
    match UnitEnd(s, x)
    case None => x
    case Some(w) => UnitsEnd(s, w)
  }

  /** The group of the pattern when a match starts at `p`. */
  function BoundaryFieldAt(s: string, p: nat): (r: Option<string>)
  {
    if !OccursAt(s, BoundaryFieldKeyword, p) then None
    else
      var b := RunEnd(s, p + |BoundaryFieldKeyword|, IsSpace);
      if b == |s| || s[b] != '{' then None
      else
        var w := UnitsEnd(s, b + 1);
        if w == |s| || s[w] != '}' then None else Some(s[b + 1..w])
  }

  function BoundaryFieldFrom(s: string, i: nat): (r: Option<string>)
    requires i <= |s|
    decreases |s| - i
  {
    if i + |BoundaryFieldKeyword| > |s| then None
    else match BoundaryFieldAt(s, i)
      case Some(g) => Some(g)
      case None => BoundaryFieldFrom(s, i + 1)
  }

  /** `boundary_field_pattern.search(content).group(1)`, or None without a match. */
  function BoundaryField(s: string): Option<string> {
    BoundaryFieldFrom(s, 0)
  }

  /** The search fails exactly when no position starts a match. */
  lemma {:induction false} BoundaryFieldNone(s: string, i: nat)
    requires i <= |s|
    ensures BoundaryFieldFrom(s, i).None? <==> forall p :: i <= p ==> BoundaryFieldAt(s, p).None?
    decreases |s| - i
  {
    if i + |BoundaryFieldKeyword| <= |s| && BoundaryFieldAt(s, i).None? {
      BoundaryFieldNone(s, i + 1);
    }
  }

  /** A brace at `x`, brace-free text to the closing brace at `z`, brace-free text up to
      `w`, and a brace or the end at `w`: one repetition from `x` to `w`. */
  lemma {:induction false} UnitWrittenAt(s: string, x: nat, z: nat, w: nat)
    requires x < z < w <= |s| && s[x] == '{' && s[z] == '}'
    requires forall j :: x < j < z ==> NotBrace(s[j])
    requires forall j :: z < j < w ==> NotBrace(s[j])
    requires w == |s| || !NotBrace(s[w])
    ensures UnitEnd(s, x) == Some(w)
  {
    RunEndAt(s, x, NotBrace, x);
    RunEndAt(s, x + 1, NotBrace, z);
    RunEndAt(s, z + 1, NotBrace, w);
  }

  predicate BraceFree(t: string) {
    forall j :: 0 <= j < |t| ==> NotBrace(t[j])
  }

  /** The per-patch part of a boundaryField written in the usual layout: each element is
      a patch body and the text after it (the next patch's name and the line breaks). */
  function RenderPatches(ps: seq<(string, string)>): string {
    if ps == [] then "" else "{" + ps[0].0 + "}" + ps[0].1 + RenderPatches(ps[1..])
  }

  predicate BraceFreePatches(ps: seq<(string, string)>) {
    forall k :: 0 <= k < |ps| ==> BraceFree(ps[k].0) && BraceFree(ps[k].1)
  }

  /** One patch at `o`: a repetition that ends where the next one begins. */
  lemma {:induction false} PatchStep(s: string, o: nat, body: string, after: string)
    requires BraceFree(body) && BraceFree(after)
    requires o + |body| + |after| + 2 < |s| && !NotBrace(s[o + |body| + |after| + 2])
    requires s[o..o + |body| + |after| + 2] == "{" + body + "}" + after
    ensures UnitEnd(s, o) == Some(o + |body| + |after| + 2)
  {
    var blk := "{" + body + "}" + after;
    var z := o + 1 + |body|;
    var w := z + 1 + |after|;
    forall j | 0 <= j < |blk| ensures s[o + j] == blk[j] {
      assert s[o..w][j] == blk[j];
    }
    assert s[o] == blk[0] == '{';
    assert s[z] == blk[1 + |body|] == '}';
    forall j | o < j < z ensures NotBrace(s[j]) { assert s[j] == blk[j - o] == body[j - o - 1]; }
    forall j | z < j < w ensures NotBrace(s[j]) { assert s[j] == blk[j - o] == after[j - z - 1]; }
    UnitWrittenAt(s, o, z, w);
  }

  /** The star over repetitions consumes every rendered patch and stops at the brace
      that follows them. */
  lemma {:induction false} UnitsEndOfPatches(s: string, o: nat, ps: seq<(string, string)>)
    requires BraceFreePatches(ps)
    requires o + |RenderPatches(ps)| < |s| && s[o + |RenderPatches(ps)|] == '}'
    requires s[o..o + |RenderPatches(ps)|] == RenderPatches(ps)
    ensures UnitsEnd(s, o) == o + |RenderPatches(ps)|
  {
    RenderedChain(s, o, ps);
    ChainUnitsEnd(s, o, ps);
  }

  /** The repetitions a rendering of `ps` at `o` is made of: one per patch, each of
      the rendered patch's length, then the closing brace. */
  predicate PatchChain(s: string, o: nat, ps: seq<(string, string)>)
    decreases ps
  {
    o <= |s| &&
    if ps == [] then o < |s| && s[o] == '}'
    else
      var l := |ps[0].0| + |ps[0].1| + 2;
      UnitEnd(s, o) == Some(o + l) && PatchChain(s, o + l, ps[1..])
  }

  /** Rendered patches followed by a brace form a chain of repetitions. */
  lemma {:induction false} RenderedChain(s: string, o: nat, ps: seq<(string, string)>)
    requires BraceFreePatches(ps)
    requires o + |RenderPatches(ps)| < |s| && s[o + |RenderPatches(ps)|] == '}'
    requires s[o..o + |RenderPatches(ps)|] == RenderPatches(ps)
    ensures PatchChain(s, o, ps)
    decreases ps
  {
    if ps != [] {
      var l := FirstPatch(s, o, ps);
      RenderedChain(s, o + l, ps[1..]);
    }
  }

  /** The star walks a chain to its closing brace. */
  lemma {:induction false} ChainUnitsEnd(s: string, o: nat, ps: seq<(string, string)>)
    requires PatchChain(s, o, ps)
    ensures UnitsEnd(s, o) == o + |RenderPatches(ps)|
    decreases ps
  {
    if ps == [] {
      UnitsEndAtBrace(s, o);
    } else {
      var l := |ps[0].0| + |ps[0].1| + 2;
      UnitsEndStep(s, o, o + l);
      ChainUnitsEnd(s, o + l, ps[1..]);
      RenderPatchesLength(ps);
      assert UnitsEnd(s, o) == UnitsEnd(s, o + l) == o + l + |RenderPatches(ps[1..])|;
    }
  }

  /** The first patch renders to its two texts, two braces, and nothing more. */
  lemma RenderPatchesLength(ps: seq<(string, string)>)
    requires ps != []
    ensures |RenderPatches(ps)| == |ps[0].0| + |ps[0].1| + 2 + |RenderPatches(ps[1..])|
  {
  }

  /** The star takes nothing in front of a closing brace. */
  lemma UnitsEndAtBrace(s: string, x: nat)
    requires x < |s| && s[x] == '}'
    ensures UnitsEnd(s, x) == x
  {
    RunEndAt(s, x, NotBrace, x);
  }

  /** A repetition that matches at `x` is taken by the star. */
  lemma UnitsEndStep(s: string, x: nat, w: nat)
    requires x <= |s| && UnitEnd(s, x) == Some(w)
    ensures UnitsEnd(s, x) == UnitsEnd(s, w)
  {
  }

  /** The first rendered patch is one repetition, of length `l`, and the rest of the
      patches are rendered right after it. */
  lemma {:induction false} FirstPatch(s: string, o: nat, ps: seq<(string, string)>) returns (l: nat)
    requires ps != [] && BraceFreePatches(ps)
    requires o + |RenderPatches(ps)| < |s| && s[o + |RenderPatches(ps)|] == '}'
    requires s[o..o + |RenderPatches(ps)|] == RenderPatches(ps)
    ensures l == |ps[0].0| + |ps[0].1| + 2 && UnitEnd(s, o) == Some(o + l)
    ensures BraceFreePatches(ps[1..]) && |RenderPatches(ps)| == l + |RenderPatches(ps[1..])|
    ensures s[o + l..o + l + |RenderPatches(ps[1..])|] == RenderPatches(ps[1..])
  {
    var body, after := ps[0].0, ps[0].1;
    l := |body| + |after| + 2;
    var r := RenderPatches(ps[1..]);
    assert RenderPatches(ps) == ("{" + body + "}" + after) + r;
    PrefixSplit(s, o, "{" + body + "}" + after, r);
    assert s[o + l] == if r == [] then '}' else r[0] by {
      if r != [] {
        assert s[o + l] == s[o + l..o + l + |r|][0];
      }
    }
    PatchStep(s, o, body, after);
    assert forall k :: 0 <= k < |ps[1..]| ==> ps[1..][k] == ps[k + 1];
  }

  /** Brace-free text in front of a repetition is taken into that repetition. */
  lemma {:induction false} LeadIntoUnit(s: string, x: nat, y: nat)
    requires x <= y < |s| && s[y] == '{'
    requires forall j :: x <= j < y ==> NotBrace(s[j])
    ensures UnitEnd(s, x) == UnitEnd(s, y)
  {
    RunEndAt(s, x, NotBrace, y);
    RunEndAt(s, y, NotBrace, y);
  }

  /** The text of a boundaryField written in the usual layout, starting at `x` and
      followed by the closing brace: the star stops right at that brace. */
  lemma {:induction false} InnerUnitsEnd(s: string, x: nat, lead: string, ps: seq<(string, string)>)
    requires BraceFree(lead) && BraceFreePatches(ps) && (ps != [] || lead == "")
    requires x + |lead| + |RenderPatches(ps)| < |s| && s[x + |lead| + |RenderPatches(ps)|] == '}'
    requires s[x..x + |lead| + |RenderPatches(ps)|] == lead + RenderPatches(ps)
    ensures UnitsEnd(s, x) == x + |lead| + |RenderPatches(ps)|
  {
    var r := RenderPatches(ps);
    var y := x + |lead|;
    PrefixSplit(s, x, lead, r);
    UnitsEndOfPatches(s, y, ps);
    if ps != [] {
      assert s[y] == r[0] == '{' by { assert s[y] == s[y..y + |r|][0]; }
      forall j | x <= j < y ensures NotBrace(s[j]) { assert s[j] == s[x..y][j - x] == lead[j - x]; }
      LeadIntoUnit(s, x, y);
    }
  }

  /** The keyword at `p`, white space up to the brace at `b`, and the star stopping at a
      closing brace at `w`: the match has the text between the braces as its group. */
  lemma {:induction false} BoundaryFieldWrittenAt(s: string, p: nat, b: nat, w: nat)
    requires OccursAt(s, BoundaryFieldKeyword, p) && p + |BoundaryFieldKeyword| <= b < w < |s|
    requires forall j :: p + |BoundaryFieldKeyword| <= j < b ==> IsSpace(s[j])
    requires s[b] == '{' && UnitsEnd(s, b + 1) == w && s[w] == '}'
    ensures BoundaryFieldAt(s, p) == Some(s[b + 1..w])
  {
    RunEndAt(s, p + |BoundaryFieldKeyword|, IsSpace, b);
  }

  /** A boundaryField at the start of a file, written in the usual layout, gives back
      the text between its braces. */
  lemma {:induction false} BoundaryFieldOfBlock(gap: string, lead: string, ps: seq<(string, string)>, rest: string)
    requires forall j :: 0 <= j < |gap| ==> IsSpace(gap[j])
    requires BraceFree(lead) && BraceFreePatches(ps) && (ps != [] || lead == "")
    ensures BoundaryField(BoundaryFieldKeyword + gap + "{" + (lead + RenderPatches(ps)) + "}" + rest) ==
      Some(lead + RenderPatches(ps))
  {
    var inner := lead + RenderPatches(ps);
    var s := BoundaryFieldKeyword + gap + "{" + inner + "}" + rest;
    var k := |BoundaryFieldKeyword|;
    var b := k + |gap|;
    var w := b + 1 + |inner|;
    assert OccursAt(s, BoundaryFieldKeyword, 0) by { assert s[..k] == BoundaryFieldKeyword; }
    forall j | k <= j < b ensures IsSpace(s[j]) { assert s[j] == gap[j - k]; }
    assert s[b] == '{';
    assert s[b + 1..w] == inner;
    assert s[w] == '}';
    InnerUnitsEnd(s, b + 1, lead, ps);
    BoundaryFieldWrittenAt(s, 0, b, w);
  }

  // ---------------------------------------------------------------------------
  // `re.findall(r'type\s+([^;]+);', block, re.DOTALL)`.

  predicate NotSemicolon(c: char) { c != ';' }

  /** The group and the end of a match of `type\s+([^;]+);` starting at `p`. When ';'
      follows the white space directly, the engine gives one white-space character back
      to the group, which needs at least two of them. */
  function TypeAt(s: string, p: nat): (r: Option<(string, nat)>)
    ensures r.Some? ==> p < r.value.1 <= |s|
  {
    if !OccursAt(s, "type", p) then None
    else
      var a := p + 4;
      var b := RunEnd(s, a, IsSpace);
      if b == a then None
      else
        var c := RunEnd(s, b, NotSemicolon);
        if c == |s| then None
        else if c > b then Some((s[b..c], c + 1))
        else if b - a >= 2 then Some((s[b - 1..b], b + 1))
        else None
  }

  function TypeValuesFrom(s: string, i: nat): (r: seq<string>)
    requires i <= |s|
    decreases |s| - i
  {
    if i + 4 > |s| then []
    else match TypeAt(s, i)
      case Some((g, e)) => [g] + TypeValuesFrom(s, e)
      case None => TypeValuesFrom(s, i + 1)
  }

  /** The groups of `findall`, left to right. */
  function TypeValues(s: string): seq<string> {
    TypeValuesFrom(s, 0)
  }

  /** `type <one space> value;` with a value that neither starts with white space nor
      holds a ';' */
  predicate PlainTypeValue(v: string) {
    |v| > 0 && !IsSpace(v[0]) && forall j :: 0 <= j < |v| ==> v[j] != ';'
  }

  function RenderTypes(vs: seq<string>): string {
    if vs == [] then "" else "type " + vs[0] + ";" + RenderTypes(vs[1..])
  }

  lemma {:induction false} TypeStep(s: string, o: nat, v: string)
    requires PlainTypeValue(v)
    requires o + |v| + 6 <= |s| && s[o..o + |v| + 6] == "type " + v + ";"
    ensures TypeAt(s, o) == Some((v, o + |v| + 6))
  {
    var blk := "type " + v + ";";
    var b := o + 5;
    var c := b + |v|;
    forall j | 0 <= j < |blk| ensures s[o + j] == blk[j] {
      assert s[o..c + 1][j] == blk[j];
    }
    assert OccursAt(s, "type", o) by { assert s[o..o + 4] == blk[..4]; }
    assert s[o + 4] == ' ';
    assert s[b] == blk[5] == v[0];
    RunEndAt(s, o + 4, IsSpace, b);
    forall j | b <= j < c ensures NotSemicolon(s[j]) { assert s[j] == blk[j - o] == v[j - b]; }
    assert s[c] == blk[5 + |v|] == ';';
    RunEndAt(s, b, NotSemicolon, c);
    assert s[b..c] == v by {
      forall j | 0 <= j < |v| ensures s[b..c][j] == v[j] { assert s[b + j] == blk[5 + j]; }
    }
  }

  lemma {:induction false} TypeValuesStep(s: string, o: nat, v: string, e: nat)
    requires o + 4 <= |s| && TypeAt(s, o) == Some((v, e))
    ensures TypeValuesFrom(s, o) == [v] + TypeValuesFrom(s, e)
  {
  }

  lemma {:induction false} TypeValuesRenderAt(s: string, o: nat, vs: seq<string>)
    requires forall k :: 0 <= k < |vs| ==> PlainTypeValue(vs[k])
    requires o <= |s| && s[o..] == RenderTypes(vs)
    ensures TypeValuesFrom(s, o) == vs
    decreases vs
  {
    if vs == [] {
      assert |s| == o;
    } else {
      var e := o + |vs[0]| + 6;
      SuffixSplit(s, o, "type " + vs[0] + ";", RenderTypes(vs[1..]));
      TypeStep(s, o, vs[0]);
      TypeValuesStep(s, o, vs[0], e);
      TypeValuesRenderAt(s, e, vs[1..]);
      assert vs == [vs[0]] + vs[1..];
    }
  }

  /** Entries written as `type value;` come back in order. */
  lemma {:induction false} TypeValuesRender(vs: seq<string>)
    requires forall k :: 0 <= k < |vs| ==> PlainTypeValue(vs[k])
    ensures TypeValues(RenderTypes(vs)) == vs
  {
    var s := RenderTypes(vs);
    assert s[0..] == s;
    TypeValuesRenderAt(s, 0, vs);
  }

  /** With `;` right after two spaces the group is the second space. */
  lemma {:induction false} TypeOfEmptyValue()
    ensures TypeValues("type  ;") == [" "]
  {
    var s := "type  ;";
    assert OccursAt(s, "type", 0) by { assert s[0..4] == "type"; }
    RunEndAt(s, 4, IsSpace, 6);
    RunEndAt(s, 6, NotSemicolon, 6);
    assert TypeAt(s, 0) == Some((s[5..6], 7));
    assert s[5..6] == " ";
  }
}
