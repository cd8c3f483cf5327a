/** `extract_boundary_names`: the boundary names of a Fluent mesh file, read from the
    zone records after the last `(0 "Zone Sections")` line. The file is given as its
    lines (`f.read().splitlines()`); the names go to `config.case_boundaries`. */
module CaseFileRequirements {
  import opened Wrappers
  import opened PyStrings
  import opened SeqUtil
  import opened ConfigState

  const ZoneSectionsMarker: string := "(0 \"Zone Sections\")"
  /** Only lines starting with this are matched against the record pattern. */
  const RecordPrefix: string := "(39"
  /** The literal `\)\(\)\)` that closes the record pattern. */
  const RecordCloser: string := ")())"

  predicate IsZoneMarker(line: string) {
    Strip(line) == ZoneSectionsMarker
  }

  /** The index the backward search settles on: the last marker line, if any. */
  function LastMarker(lines: seq<string>): Option<nat> {
    LastIndex(lines, IsZoneMarker)
  }

  /** Greedy end of the captured `(\S+)`: the last position `q` in `(p, m]` where the
      closer occurs. */
  function LastCloser(t: string, p: nat, m: int): (r: Option<nat>)
    ensures r.Some? ==> p < r.value as int <= m && OccursAt(t, RecordCloser, r.value)
    ensures forall q: nat :: p < q <= m && (r.None? || r.value < q) ==> !OccursAt(t, RecordCloser, q)
    decreases m - p
  {
    if m <= p then None
    else if OccursAt(t, RecordCloser, m as nat) then Some(m as nat)
    else LastCloser(t, p, m - 1)
  }

  /** An element of the record pattern before the capture group: `\(`, `\d+`, `\s+`
      or `\S+`. */
  datatype Elem = Open | Digits | Spaces | NonSpaces

  /** `\(\d+\s+\(\d+\s+\S+\s+`, the pattern up to group 1. Each run in it is followed
      by a character its class excludes, so backtracking can never shorten a run:
      every one matches maximally. */
  const HeadLength: nat := 8

  /** Element `n` of the head. */
  function HeadElem(n: nat): Elem
    requires n < HeadLength
  {
    match n
    case 0 => Open
    case 1 => Digits
    case 2 => Spaces
    case 3 => Open
    case 4 => Digits
    case 5 => Spaces
    case 6 => NonSpaces
    case _ => Spaces
  }

  /** Whether `c` belongs to the character class of element `x`. */
  predicate InClass(x: Elem, c: char) {
    match x
    case Open => c == '('
    case Digits => IsDigit(c)
    case Spaces => IsSpace(c)
    case NonSpaces => !IsSpace(c)
  }

  /** End of the maximal run of class `x` that starts at `i`. */
  function ClassEnd(t: string, i: nat, x: Elem): (e: nat)
    requires i <= |t|
    ensures i <= e <= |t|
    decreases |t| - i
  {
    if i < |t| && InClass(x, t[i]) then ClassEnd(t, i + 1, x) else i
  }

  /** Where element `x` ends when matched at `i`. */
  function ElemEnd(t: string, i: nat, x: Elem): (r: Option<nat>)
    requires i <= |t|
    ensures r.Some? ==> i < r.value <= |t|
  {
    if x == Open then
      if i < |t| && t[i] == '(' then Some(i + 1) else None
    else
      var e := ClassEnd(t, i, x);
      if e == i then None else Some(e)
  }

  /** Where the head elements from `n` on end when matched one after another from `i`. */
  function HeadEnd(t: string, i: nat, n: nat): (r: Option<nat>)
    requires i <= |t| && n <= HeadLength
    ensures r.Some? ==> i <= r.value <= |t|
    decreases HeadLength - n
  {
    if n == HeadLength then Some(i)
    else match ElemEnd(t, i, HeadElem(n))
      case None => None
      case Some(k) => HeadEnd(t, k, n + 1)
  }

  /** `re.compile(r'\(\d+\s+\(\d+\s+\S+\s+(\S+)\)\(\)\)').match(t)`, giving the
      bounds of group 1. The group is the only part that backtracks: it ends at the
      last closer inside the run of non-spaces where it starts. */
  function RecordMatch(t: string): (r: Option<(nat, nat)>)
    ensures r.Some? ==> r.value.0 < r.value.1 && OccursAt(t, RecordCloser, r.value.1)
  {
    GroupAfter(t, HeadEnd(t, 0, 0))
  }

  /** Group 1 and the closer after a head that ended at `h`, if it matched. */
  function GroupAfter(t: string, h: Option<nat>): (r: Option<(nat, nat)>)
    requires h.Some? ==> h.value <= |t|
    ensures r.Some? ==> h == Some(r.value.0)
    ensures r.Some? ==> r.value.0 < r.value.1 && OccursAt(t, RecordCloser, r.value.1)
    ensures r.Some? ==> r.value.1 + |RecordCloser| <= ClassEnd(t, r.value.0, NonSpaces)
  {
    match h
    case None => None
    case Some(f) =>
      match LastCloser(t, f, ClassEnd(t, f, NonSpaces) - |RecordCloser|)
      case None => None
      case Some(q) => Some((f, q))
  }

  /** The value a line yields before filtering: defined only for a stripped line that
      starts with `(39` and matches the record pattern. */
  function RecordValue(line: string): Option<string> {
    var t := Strip(line);
    if !StartsWith(t, RecordPrefix) then None
    else match RecordMatch(t)
      case None => None
      case Some(g) => Some(t[g.0..g.1])
  }

  /** `value` ends in `suffix` after one or more word characters. */
  predicate WordsThen(v: string, suffix: string) {
    |v| > |suffix| && EndsWith(v, suffix) && forall j :: 0 <= j < |v| - |suffix| ==> IsWordChar(v[j])
  }

  /** `re.search(r'^(FLUID|\w+?_FLUID|\w+?_SOLID)$', v)` for a value without spaces
      (so `$` can only match at the very end). */
  predicate Excluded(v: string) {
    v == "FLUID" || WordsThen(v, "_FLUID") || WordsThen(v, "_SOLID")
  }

  /** A word: characters `\w` matches. */
  predicate IsWord(w: string) {
    forall j :: 0 <= j < |w| ==> IsWordChar(w[j])
  }

  /** A non-empty word followed by `_FLUID` or `_SOLID` is excluded. */
  lemma {:induction false} ExcludedSuffixed(w: string, suffix: string)
    requires w != [] && IsWord(w) && (suffix == "_FLUID" || suffix == "_SOLID")
    ensures Excluded(w + suffix)
  {
    var v := w + suffix;
    assert v[|v| - |suffix|..] == suffix;
    assert forall j :: 0 <= j < |v| - |suffix| ==> v[j] == w[j];
  }

  /** Every excluded value other than `FLUID` is such a word and suffix. */
  lemma {:induction false} ExcludedSplit(v: string)
    requires Excluded(v) && v != "FLUID"
    ensures var w := v[..|v| - 6];
            w != [] && IsWord(w) && (v == w + "_FLUID" || v == w + "_SOLID")
  {
    var w := v[..|v| - 6];
    assert v == w + v[|v| - 6..];
  }

  /** What one line adds to the results. */
  function LineNames(line: string): seq<string> {
    match RecordValue(line)
    case None => []
    case Some(v) => if Excluded(v) then [] else [v]
  }

  /** The results of the forward scan over `lines`, in line order. */
  function NamesOf(lines: seq<string>): seq<string> {
    FlatMap(lines, LineNames)
  }

  /** The backward `for` loop: the index of the last marker line, or -1. */
  method FindStart(lines: seq<string>) returns (start: int)
    ensures start == match LastMarker(lines) case None => -1 case Some(k) => k as int
  {
    start := -1;
    var i := |lines|;
    while i > 0
      invariant 0 <= i <= |lines|
      invariant forall j :: i <= j < |lines| ==> !IsZoneMarker(lines[j])
    {
      i := i - 1;
      if IsZoneMarker(lines[i]) {
        start := i;
        return;
      }
    }
  }

  /** The forward loop over `lines[first..]`: each line adds its `LineNames`. */
  method CollectNames(lines: seq<string>, first: nat) returns (results: seq<string>)
    requires first <= |lines|
    ensures results == NamesOf(lines[first..])
  {
    results := FlatMapFrom(lines, first, LineNames);
  }

  /** The whole function: `[]` when no line is the marker, leaving the configuration
      alone; otherwise the names after the last marker are stored in
      `config.case_boundaries` and the function returns `None`. */
  method ExtractBoundaryNames(cfg: Config, lines: seq<string>) returns (r: Option<seq<string>>)
    modifies cfg
    ensures LastMarker(lines).None? ==> r == Some([]) && cfg.caseBoundaries == old(cfg.caseBoundaries)
    ensures LastMarker(lines).Some? ==>
              r == None && cfg.caseBoundaries == NamesOf(lines[LastMarker(lines).value + 1..])
    ensures cfg.steadySolvers == old(cfg.steadySolvers)
    ensures cfg.setControlDictTime == old(cfg.setControlDictTime)
    ensures cfg.flagCaseSuccessRun == old(cfg.flagCaseSuccessRun)
  {
    var start := FindStart(lines);
    if start == -1 {
      return Some([]);
    }
    var results := CollectNames(lines, start + 1);
    cfg.caseBoundaries := results;
    r := None;
  }

  // ---------------------------------------------------------------------------
  // Properties
  // ---------------------------------------------------------------------------

  /** Lines up to and including the last marker do not matter: whatever precedes a
      marker line that no later line repeats, the scan covers exactly what follows it. */
  lemma {:induction false} OnlyAfterLastMarker(before: seq<string>, marker: string, after: seq<string>)
    requires IsZoneMarker(marker)
    requires forall j :: 0 <= j < |after| ==> !IsZoneMarker(after[j])
    ensures LastMarker(before + [marker] + after) == Some(|before|)
    ensures (before + [marker] + after)[|before| + 1..] == after
  {
    ElementsAfter(before, marker, after, IsZoneMarker);
    LastIndexAt(before + [marker] + after, IsZoneMarker, |before|);
    assert (before + [marker] + after)[|before| + 1..] == after;
  }

  /** The results of two consecutive stretches of lines are concatenated, so kept
      values stay in line order. */
  lemma {:induction false} NamesOfConcat(a: seq<string>, b: seq<string>)
    ensures NamesOf(a + b) == NamesOf(a) + NamesOf(b)
  {
    FlatMapConcat(a, b, LineNames);
  }

  /** A name is in the results exactly when some line yields it and it is not excluded. */
  lemma {:induction false} NamesOfMember(lines: seq<string>, v: string)
    ensures v in NamesOf(lines) <==>
              exists j :: 0 <= j < |lines| && RecordValue(lines[j]) == Some(v) && !Excluded(v)
  {
    FlatMapMember(lines, LineNames, v);
  }
  /** A zone record line as the mesh writer lays it out: `(39 (<zone> <kind> <name>)())`. */
  function RecordLine(zone: string, kind: string, name: string): string {
    RecordPrefix + " (" + zone + " " + kind + " " + name + RecordCloser
  }

  /** Every character of `s` is in the class of `x`. */
  predicate AllIn(s: string, x: Elem) {
    forall j :: 0 <= j < |s| ==> InClass(x, s[j])
  }

  lemma {:induction false} PieceIn(t: string, i: nat, piece: string, x: Elem)
    requires i + |piece| <= |t| && t[i..i + |piece|] == piece && AllIn(piece, x)
    ensures forall j :: i <= j < i + |piece| ==> InClass(x, t[j])
  {
    forall j | i <= j < i + |piece| ensures InClass(x, t[j]) {
      assert t[j] == t[i..i + |piece|][j - i];
    }
  }

  /** A value the record pattern captures is a non-empty run of non-spaces from a
      stripped line starting with `(39`. */
  lemma {:induction false} RecordValueShape(line: string, v: string)
    requires RecordValue(line) == Some(v)
    ensures StartsWith(Strip(line), RecordPrefix)
    ensures v != [] && forall j :: 0 <= j < |v| ==> !IsSpace(v[j])
  {
    var t := Strip(line);
    GroupShape(t);
  }

  /** The group of a record match is a non-empty run of non-space characters. */
  lemma {:induction false} GroupShape(t: string)
    requires RecordMatch(t).Some?
    ensures var g := RecordMatch(t).value;
      g.0 < g.1 <= |t| && forall j :: 0 <= j < g.1 - g.0 ==> !IsSpace(t[g.0..g.1][j])
  {
    var g := RecordMatch(t).value;
    forall j | 0 <= j < g.1 - g.0 ensures !IsSpace(t[g.0..g.1][j]) {
      ClassEndRun(t, g.0, NonSpaces, g.0 + j);
      assert t[g.0..g.1][j] == t[g.0 + j];
    }
  }

  /** `t` holds a record line laid out from `zone`, `kind` and `name`. */
  predicate Layout(t: string, zone: string, kind: string, name: string) {
    var c := 5 + |zone|;
    var e := c + 1 + |kind|;
    var m := e + 1 + |name|;
    && |t| == m + 4 && t[..5] == "(39 ("
    && t[5..c] == zone && t[c] == ' ' && t[c + 1..e] == kind && t[e] == ' '
    && t[e + 1..m] == name && t[m..] == RecordCloser
  }

  lemma {:induction false} RecordLineLayout(zone: string, kind: string, name: string)
    ensures Layout(RecordLine(zone, kind, name), zone, kind, name)
  {
    var t := RecordLine(zone, kind, name);
    var c := 5 + |zone|;
    var e := c + 1 + |kind|;
    var m := e + 1 + |name|;
    var u := "(39 (" + zone;
    var w := u + " " + kind;
    var x := w + " " + name;
    assert t == x + RecordCloser;
    assert t[..m] == x && t[m..] == RecordCloser;
    assert x[..e] == w && x[e] == ' ' && x[e + 1..] == name;
    assert w[..c] == u && w[c] == ' ' && w[c + 1..] == kind;
    assert u[..5] == "(39 (" && u[5..] == zone;
  }

  /** A maximal run of class `x` over `[i, k)`. */
  predicate RunOf(t: string, i: nat, k: nat, x: Elem) {
    i <= k <= |t| && (forall j :: i <= j < k ==> InClass(x, t[j])) && (k == |t| || !InClass(x, t[k]))
  }

  /** The end of a run is where it stops. */
  lemma {:induction false} ClassEndAt(t: string, i: nat, k: nat, x: Elem)
    requires RunOf(t, i, k, x)
    ensures ClassEnd(t, i, x) == k
    decreases k - i
  {
    if i < k {
      ClassEndAt(t, i + 1, k, x);
    }
  }

  /** Every character before the end of a run belongs to its class. */
  lemma {:induction false} ClassEndRun(t: string, i: nat, x: Elem, j: nat)
    requires i <= |t| && i <= j < ClassEnd(t, i, x)
    ensures InClass(x, t[j])
    decreases |t| - i
  {
    if i < j {
      ClassEndRun(t, i + 1, x, j);
    }
  }

  /** A non-empty maximal run is where a run element ends. */
  lemma {:induction false} ElemEndOfRun(t: string, i: nat, k: nat, x: Elem)
    requires x != Open && i < k && RunOf(t, i, k, x)
    ensures ElemEnd(t, i, x) == Some(k)
  {
    ClassEndAt(t, i, k, x);
  }

  /** Matching the head from element `n`: once element `n` ends at `k`, the rest of
      the head is matched from `k`. */
  lemma {:induction false} HeadEndStep(t: string, i: nat, n: nat, k: nat)
    requires i <= |t| && n < HeadLength && ElemEnd(t, i, HeadElem(n)) == Some(k)
    ensures HeadEnd(t, i, n) == HeadEnd(t, k, n + 1)
  {
  }

  /** Reading a written record line gives back its name: the pattern captures exactly
      the name, whatever closers the name itself contains. */
  lemma {:induction false} RecordLineValue(zone: string, kind: string, name: string)
    requires zone != [] && AllIn(zone, Digits)
    requires kind != [] && AllIn(kind, NonSpaces)
    requires name != [] && AllIn(name, NonSpaces)
    ensures RecordValue(RecordLine(zone, kind, name)) == Some(name)
  {
    RecordLineLayout(zone, kind, name);
    RecordValueOfLayout(RecordLine(zone, kind, name), zone, kind, name);
  }

  lemma {:induction false} RecordValueOfLayout(t: string, zone: string, kind: string, name: string)
    requires Layout(t, zone, kind, name)
    requires zone != [] && AllIn(zone, Digits)
    requires kind != [] && AllIn(kind, NonSpaces)
    requires name != [] && AllIn(name, NonSpaces)
    ensures RecordValue(t) == Some(name)
  {
    var f := 7 + |zone| + |kind|;
    RecordHeadOfLayout(t, zone, kind, name);
    RecordTailOfLayout(t, zone, kind, name);
    LayoutEnds(t, zone, kind, name);
    RecordValueOfParts(t, f, name);
  }

  /** A line with no surrounding spaces that starts with `(39`, whose head ends at `f`,
      whose `\S+` from `f` runs to the end and which ends in the closer, yields the
      text between `f` and the closer. */
  lemma RecordValueOfParts(t: string, f: nat, name: string)
    requires t != [] && t[0] == '(' && t[|t| - 1] == ')' && StartsWith(t, RecordPrefix)
    requires |t| == f + |name| + |RecordCloser| && name != [] && t[f..f + |name|] == name
    requires HeadEnd(t, 0, 0) == Some(f) && ClassEnd(t, f, NonSpaces) == |t|
    requires OccursAt(t, RecordCloser, |t| - |RecordCloser|)
    ensures RecordValue(t) == Some(name)
  {
    RecordMatchOfParts(t, f);
    RecordValueOfUnpadded(t, f, f + |name|);
  }

  lemma {:induction false} LayoutEnds(t: string, zone: string, kind: string, name: string)
    requires Layout(t, zone, kind, name)
    ensures t != [] && t[0] == '(' && t[|t| - 1] == ')' && StartsWith(t, RecordPrefix)
    ensures t[7 + |zone| + |kind|..7 + |zone| + |kind| + |name|] == name
  {
    assert StartsWith(t, RecordPrefix) by { assert t[..3] == t[..5][..3]; }
    assert t[0] == '(' by { assert t[..5][0] == '('; }
    assert t[|t| - 1] == ')' by { assert t[|t| - 4..][3] == ')'; }
  }

  /** For a line with no surrounding spaces that starts with `(39`, the value is the
      matched group. */
  lemma {:induction false} RecordValueOfUnpadded(t: string, f: nat, q: nat)
    requires t != [] && t[0] == '(' && t[|t| - 1] == ')' && StartsWith(t, RecordPrefix)
    requires RecordMatch(t) == Some((f, q))
    ensures RecordValue(t) == Some(t[f..q])
  {
    StripUnpadded(t);
  }

  /** The pattern matches with the capture group from `f` to the closer when the head
      ends at `f`, `\S+` runs from there to the end and the line ends in the closer. */
  lemma RecordMatchOfParts(t: string, f: nat)
    requires f + |RecordCloser| < |t| && HeadEnd(t, 0, 0) == Some(f)
    requires ClassEnd(t, f, NonSpaces) == |t|
    requires OccursAt(t, RecordCloser, |t| - |RecordCloser|)
    ensures RecordMatch(t) == Some((f, |t| - |RecordCloser|))
  {
    GroupOfParts(t, f);
  }

  /** After a head ending at `f`, the group runs from `f` to the closer that ends the
      line when `\S+` runs to the end. */
  lemma {:induction false} GroupOfParts(t: string, f: nat)
    requires f + |RecordCloser| < |t|
    requires ClassEnd(t, f, NonSpaces) == |t|
    requires OccursAt(t, RecordCloser, |t| - |RecordCloser|)
    ensures GroupAfter(t, Some(f)) == Some((f, |t| - |RecordCloser|))
  {
  }

  /** From the start of the name, `\S+` runs to the end of a laid-out record line,
      whose last four characters are the closer. */
  lemma {:induction false} RecordTailOfLayout(t: string, zone: string, kind: string, name: string)
    requires Layout(t, zone, kind, name)
    requires name != [] && AllIn(name, NonSpaces)
    ensures |t| == 7 + |zone| + |kind| + |name| + |RecordCloser|
    ensures ClassEnd(t, 7 + |zone| + |kind|, NonSpaces) == |t|
    ensures OccursAt(t, RecordCloser, |t| - |RecordCloser|)
  {
    var f := 7 + |zone| + |kind|;
    var m := f + |name|;
    assert RunOf(t, f, |t|, NonSpaces) by {
      PieceIn(t, f, name, NonSpaces);
      PieceIn(t, m, RecordCloser, NonSpaces);
    }
    ClassEndAt(t, f, |t|, NonSpaces);
  }

  /** The head of the pattern ends right before the name of a laid-out record line. */
  lemma {:induction false} RecordHeadOfLayout(t: string, zone: string, kind: string, name: string)
    requires Layout(t, zone, kind, name)
    requires zone != [] && AllIn(zone, Digits)
    requires kind != [] && AllIn(kind, NonSpaces)
    requires name != [] && AllIn(name, NonSpaces)
    ensures HeadEnd(t, 0, 0) == Some(7 + |zone| + |kind|)
  {
    var c := 5 + |zone|;
    var e := c + 1 + |kind|;
    LayoutFront(t, zone, kind, name);
    LayoutBack(t, zone, kind, name);
    HeadFrontOfEnds(t, 3, 4);
    HeadBackOfEnds(t, 5, c, c + 1, e, e + 1);
  }

  /** Where the elements `(`, `\d+`, `\s+` and `(` of the head end on a laid-out line. */
  lemma LayoutFront(t: string, zone: string, kind: string, name: string)
    requires Layout(t, zone, kind, name) && zone != []
    ensures |t| > 5 && t[0] == '(' && t[4] == '('
    ensures ElemEnd(t, 1, Digits) == Some(3) && ElemEnd(t, 3, Spaces) == Some(4)
  {
    assert t[0] == '(' && t[1] == '3' && t[2] == '9' && t[3] == ' ' && t[4] == '(' by {
      assert t[..5] == "(39 (";
    }
    assert RunOf(t, 1, 3, Digits);
    ElemEndOfRun(t, 1, 3, Digits);
    assert RunOf(t, 3, 4, Spaces);
    ElemEndOfRun(t, 3, 4, Spaces);
  }

  /** Where the elements `\d+`, `\s+`, `\S+` and `\s+` of the head end on a laid-out
      line: around the zone, the kind and the spaces after them. */
  lemma LayoutBack(t: string, zone: string, kind: string, name: string)
    requires Layout(t, zone, kind, name)
    requires zone != [] && AllIn(zone, Digits)
    requires kind != [] && AllIn(kind, NonSpaces)
    requires name != [] && AllIn(name, NonSpaces)
    ensures var c := 5 + |zone|; var e := c + 1 + |kind|;
      && e + 1 <= |t|
      && ElemEnd(t, 5, Digits) == Some(c) && ElemEnd(t, c, Spaces) == Some(c + 1)
      && ElemEnd(t, c + 1, NonSpaces) == Some(e) && ElemEnd(t, e, Spaces) == Some(e + 1)
  {
    var c := 5 + |zone|;
    var e := c + 1 + |kind|;
    ElemEndOfPiece(t, 5, zone, Digits);
    assert ElemEnd(t, c, Spaces) == Some(c + 1) by {
      assert t[c + 1] == kind[0] by { assert t[c + 1..e][0] == kind[0]; }
      assert RunOf(t, c, c + 1, Spaces);
      ElemEndOfRun(t, c, c + 1, Spaces);
    }
    ElemEndOfPiece(t, c + 1, kind, NonSpaces);
    assert ElemEnd(t, e, Spaces) == Some(e + 1) by {
      assert t[e + 1] == name[0] by { assert t[e + 1..e + 1 + |name|][0] == name[0]; }
      assert InClass(NonSpaces, name[0]);
      assert RunOf(t, e, e + 1, Spaces);
      ElemEndOfRun(t, e, e + 1, Spaces);
    }
  }

  /** A piece of class `x` written at `i` and followed by a character outside the class
      is where element `x` ends. */
  lemma ElemEndOfPiece(t: string, i: nat, piece: string, x: Elem)
    requires x != Open && piece != [] && AllIn(piece, x)
    requires i + |piece| < |t| && t[i..i + |piece|] == piece && !InClass(x, t[i + |piece|])
    ensures ElemEnd(t, i, x) == Some(i + |piece|)
  {
    PieceIn(t, i, piece, x);
    ElemEndOfRun(t, i, i + |piece|, x);
  }

  /** The head elements `(`, `\d+`, `\s+` and `(` read off where each ends. */
  lemma HeadFrontOfEnds(t: string, a: nat, b: nat)
    requires t != [] && t[0] == '(' && 1 < a < b < |t| && t[b] == '('
    requires ElemEnd(t, 1, Digits) == Some(a) && ElemEnd(t, a, Spaces) == Some(b)
    ensures HeadEnd(t, 0, 0) == HeadEnd(t, b + 1, 4)
  {
    HeadEndStep(t, 0, 0, 1);
    HeadEndStep(t, 1, 1, a);
    HeadEndStep(t, a, 2, b);
    HeadEndStep(t, b, 3, b + 1);
  }

  /** The head elements `\d+`, `\s+`, `\S+` and `\s+` read off where each ends. */
  lemma HeadBackOfEnds(t: string, b: nat, c: nat, d: nat, e: nat, f: nat)
    requires b <= c <= d <= e <= |t|
    requires ElemEnd(t, b, Digits) == Some(c) && ElemEnd(t, c, Spaces) == Some(d)
    requires ElemEnd(t, d, NonSpaces) == Some(e) && ElemEnd(t, e, Spaces) == Some(f)
    ensures HeadEnd(t, b, 4) == Some(f)
  {
    HeadEndStep(t, b, 4, c);
    HeadEndStep(t, c, 5, d);
    HeadEndStep(t, d, 6, e);
    HeadEndStep(t, e, 7, f);
  }

}
