/** Preprocessing of the OpenFOAM tutorial collection (src/preprocess_OF_tutorial.py):
    header stripping of the files read from a case, the turbulence-model line scan,
    the merge of concatenated JSON objects, and the per-case derivation of the
    search keys (renaming of `0.orig/` files, required fields, solver, flow flags,
    turbulence type and model, boundary condition types). */
module PreprocessTutorial {
  import opened Wrappers
  import opened SeqUtil
  import opened PyStrings
  import opened PyDict
  import opened FoamScanners

  // ---------------------------------------------------------------------------
  // Header strip of a configuration file
  // ---------------------------------------------------------------------------

  const FoamFileMarker := "FoamFile"

  predicate HasFoamFileMarker(line: string) {
    Contains(line, FoamFileMarker)
  }

  /** The text kept of a file read as `lines`: everything from the first line that
      mentions `FoamFile` on, and nothing when no line does. */
  method StripHeader(lines: seq<string>) returns (content: string)
    ensures match FirstIndex(lines, HasFoamFileMarker)
            case None => content == ""
            case Some(k) => content == Join(lines[k..], "")
  {
    var contentStarted := false;
    var processed: seq<string> := [];
    ghost var start: nat := 0;
    for i := 0 to |lines|
      invariant !contentStarted ==> processed == [] && forall j :: 0 <= j < i ==> !HasFoamFileMarker(lines[j])
      invariant contentStarted ==> start < i && HasFoamFileMarker(lines[start])
      invariant contentStarted ==> (forall j :: 0 <= j < start ==> !HasFoamFileMarker(lines[j])) && processed == lines[start..i]
    {
      if !contentStarted && HasFoamFileMarker(lines[i]) {
        contentStarted := true;
        start := i;
      }
      if contentStarted {
        assert lines[start..i + 1] == lines[start..i] + [lines[i]];
        processed := processed + [lines[i]];
      }
    }
    if contentStarted {
      FirstIndexAt(lines, HasFoamFileMarker, start);
      assert lines[start..|lines|] == lines[start..];
    }
    content := Join(processed, "");
  }

  /** Keeping from the first `FoamFile` line leaves a text that starts with that
      line, so the kept text holds the marker. */
  lemma {:induction false} StrippedStartsWithMarkerLine(lines: seq<string>, k: nat)
    requires FirstIndex(lines, HasFoamFileMarker) == Some(k)
    ensures StartsWith(Join(lines[k..], ""), lines[k])
    ensures Contains(Join(lines[k..], ""), FoamFileMarker)
  {
    var rest := lines[k..];
    var t := Join(rest[1..], "");
    assert Join(rest, "") == lines[k] + t;
    var j := FindFrom(lines[k], FoamFileMarker, 0).value;
    OccursInPrefix(lines[k], t, FoamFileMarker, j);
  }

  /** An occurrence in `a` is an occurrence in `a + b`. */
  lemma {:induction false} OccursInPrefix(a: string, b: string, sub: string, j: nat)
    requires OccursAt(a, sub, j)
    ensures StartsWith(a + b, a)
    ensures Contains(a + b, sub)
  {
    var s := a + b;
    assert s[..|a|] == a;
    assert s[j..j + |sub|] == a[j..j + |sub|];
    assert OccursAt(s, sub, j);
  }

  // ---------------------------------------------------------------------------
  // extract_turbulence_model
  // ---------------------------------------------------------------------------

  const ModelWordNeedle := "model"

  predicate MentionsModel(line: string) {
    Contains(Lower(line), ModelWordNeedle)
  }

  /** A line whose lowered text holds `model` has a non-space character. */
  lemma {:induction false} ModelLineHasTokens(line: string)
    requires MentionsModel(line)
    ensures Tokens(line) != []
  {
    var j := FindFrom(Lower(line), ModelWordNeedle, 0).value;
    assert Lower(line)[j] == ModelWordNeedle[0] == 'm';
    assert LowerChar(line[j]) == 'm';
    assert !IsSpace(line[j]);
  }

  /** The model named on a line: its last whitespace-separated word, with `;`
      stripped from both ends. */
  function ModelWord(line: string): (r: string)
    requires MentionsModel(line)
    ensures forall j :: 0 <= j < |r| ==> !IsSpace(r[j])
    ensures r == [] || (r[0] != ';' && r[|r| - 1] != ';')
  {
    ModelLineHasTokens(line);
    var words := Tokens(line);
    var w := words[|words| - 1];
    StripCharIsSlice(w, ';');
    StripChar(w, ';')
  }

  /** `strip(c)` keeps a contiguous piece of its input. */
  lemma {:induction false} StripCharIsSlice(s: string, c: char)
    ensures forall j :: 0 <= j < |StripChar(s, c)| ==> StripChar(s, c)[j] in s
    decreases |s|
  {
    if s != [] {
      if s[0] == c {
        StripCharIsSlice(s[1..], c);
      } else if s[|s| - 1] == c {
        StripCharIsSlice(s[..|s| - 1], c);
      }
    }
  }

  /** The first line, split on `\n`, that mentions `model` in any letter case gives
      the model word; no such line gives `None`. */
  method ExtractTurbulenceModel(fileContent: string) returns (model: Option<string>)
    ensures match FirstIndex(Split(fileContent, "\n"), MentionsModel)
            case None => model == None
            case Some(k) => model == Some(ModelWord(Split(fileContent, "\n")[k]))
  {
    var content := Split(fileContent, "\n");
    model := None;
    var i := 0;
    while i < |content|
      invariant 0 <= i <= |content|
      invariant model == None && forall j :: 0 <= j < i ==> !MentionsModel(content[j])
    {
      if MentionsModel(content[i]) {
        model := Some(ModelWord(content[i]));
        break;
      }
      i := i + 1;
    }
  }

  // ---------------------------------------------------------------------------
  // merge_json_objects
  // ---------------------------------------------------------------------------

  const ObjectSeparator := "}\n{"

  /** The pieces of a split on `}\n{` with their braces given back: every piece but
      the first regains `{`, every piece but the last regains `}`. */
  function Repaired(pieces: seq<string>, first: bool): (r: seq<string>)
    ensures |r| == |pieces|
  {
    if pieces == [] then []
    else
      var withOpen := if first then pieces[0] else "{" + pieces[0];
      [if |pieces| > 1 then withOpen + "}" else withOpen] + Repaired(pieces[1..], false)
  }

  /** Joining the repaired pieces on newlines rebuilds the split text: the repair
      puts back exactly the separators the split took out. */
  lemma {:induction false} JoinRepaired(pieces: seq<string>, first: bool)
    requires pieces != []
    ensures Join(Repaired(pieces, first), "\n") == (if first then "" else "{") + Join(pieces, ObjectSeparator)
  {
    var r := Repaired(pieces, first);
    var lead := if first then "" else "{";
    if |pieces| > 1 {
      JoinRepaired(pieces[1..], false);
      assert r[1..] == Repaired(pieces[1..], false);
      assert r[0] == lead + pieces[0] + "}";
      calc {
        Join(r, "\n");
        r[0] + "\n" + Join(r[1..], "\n");
        lead + pieces[0] + "}" + "\n" + ("{" + Join(pieces[1..], ObjectSeparator));
        lead + (pieces[0] + ObjectSeparator + Join(pieces[1..], ObjectSeparator));
      }
    }
  }

  /** The object texts the merge parses, one per piece. */
  function ObjectTexts(content: string): (r: seq<string>)
    ensures |r| >= 1
  {
    Repaired(Split(content, ObjectSeparator), true)
  }

  /** The object texts, joined on newlines, are the file's content. */
  lemma {:induction false} ObjectTextsRebuild(content: string)
    ensures Join(ObjectTexts(content), "\n") == content
  {
    JoinRepaired(Split(content, ObjectSeparator), true);
    JoinSplit(content, ObjectSeparator);
  }

  /** The dictionary `update` over the parsed texts builds, in order; a text that
      does not parse is skipped. */
  function MergedOf<V>(texts: seq<string>, parse: string -> Option<map<string, V>>): map<string, V>
  {
    if texts == [] then map[]
    else
      var m := MergedOf(texts[..|texts| - 1], parse);
      match parse(texts[|texts| - 1])
      case None => m
      case Some(d) => m + d
  }

  /** The last text whose parse defines key `k`. */
  function LastDefining<V>(texts: seq<string>, parse: string -> Option<map<string, V>>, k: string): (r: Option<nat>)
    ensures r.Some? ==> r.value < |texts| && parse(texts[r.value]).Some? && k in parse(texts[r.value]).value
    ensures r.Some? ==> forall j :: r.value < j < |texts| ==> parse(texts[j]).None? || k !in parse(texts[j]).value
    ensures r.None? ==> forall j :: 0 <= j < |texts| ==> parse(texts[j]).None? || k !in parse(texts[j]).value
  {
    if texts == [] then None
    else
      var last := parse(texts[|texts| - 1]);
      if last.Some? && k in last.value then Some(|texts| - 1)
      else LastDefining(texts[..|texts| - 1], parse, k)
  }

  /** A key is in the merge exactly when some text defines it, and it holds the
      value of the last text that does: later objects win. */
  lemma {:induction false} MergedLaterWins<V>(texts: seq<string>, parse: string -> Option<map<string, V>>, k: string)
    ensures k in MergedOf(texts, parse) <==> LastDefining(texts, parse, k).Some?
    ensures LastDefining(texts, parse, k).Some? ==>
              MergedOf(texts, parse)[k] == parse(texts[LastDefining(texts, parse, k).value]).value[k]
  {
    if texts != [] {
      var init := texts[..|texts| - 1];
      MergedLaterWins(init, parse, k);
      var last := parse(texts[|texts| - 1]);
      if !(last.Some? && k in last.value) {
        var p := LastDefining(init, parse, k);
        if p.Some? {
          assert texts[p.value] == init[p.value];
        }
      }
    }
  }

  /** The first repaired piece and the repair of the rest. */
  lemma {:induction false} RepairedStep(pieces: seq<string>, first: bool)
    requires pieces != []
    ensures Repaired(pieces, first)[0] ==
              (if first then pieces[0] else "{" + pieces[0]) + (if |pieces| > 1 then "}" else "")
    ensures Repaired(pieces, first)[1..] == Repaired(pieces[1..], false)
  {
  }

  /** One more text extends the merge by its parse, if any. */
  lemma {:induction false} MergedStep<V>(texts: seq<string>, i: nat, parse: string -> Option<map<string, V>>)
    requires i < |texts|
    ensures MergedOf(texts[..i + 1], parse) ==
              match parse(texts[i])
              case None => MergedOf(texts[..i], parse)
              case Some(d) => MergedOf(texts[..i], parse) + d
  {
    assert texts[..i + 1][..i] == texts[..i];
  }

  /** The merge of the objects in `content`: the file is split on `}\n{`, each piece
      given back its braces, parsed, and its entries written over the result. */
  method MergeJsonObjects<V>(content: string, parse: string -> Option<map<string, V>>) returns (merged: map<string, V>)
    ensures merged == MergedOf(ObjectTexts(content), parse)
  {
    var jsonStrings := Split(content, ObjectSeparator);
    ghost var texts := ObjectTexts(content);
    merged := map[];
    var i := 0;
    ghost var rest := jsonStrings;
    while i < |jsonStrings|
      invariant 0 <= i <= |jsonStrings|
      invariant rest == jsonStrings[i..]
      invariant texts[i..] == Repaired(rest, i == 0)
      invariant merged == MergedOf(texts[..i], parse)
    {
      var jsonStr := jsonStrings[i];
      if i > 0 {
        jsonStr := "{" + jsonStr;
      }
      if i < |jsonStrings| - 1 {
        jsonStr := jsonStr + "}";
      }
      RepairedStep(rest, i == 0);
      assert texts[i..][0] == texts[i] && texts[i..][1..] == texts[i + 1..];
      MergedStep(texts, i, parse);
      match parse(jsonStr) {
        case Some(data) => merged := merged + data;
        case None =>
      }
      rest := rest[1..];
      i := i + 1;
    }
    assert texts[..i] == texts;
  }

  // ---------------------------------------------------------------------------
  // Renaming of `0.orig/` entries
  // ---------------------------------------------------------------------------

  const OrigPrefix := "0.orig/"
  const ZeroPrefix := "0/"
  const OrigSuffix := ".orig"

  predicate IsOrigKey(k: string) { StartsWith(k, OrigPrefix) }

  predicate IsZeroKey(k: string) { StartsWith(k, ZeroPrefix) }

  /** The new name of an entry under `0.orig/`: the first `0.orig/` becomes `0/`, and
      the last path part loses a trailing `.orig` when there is more than one part. */
  function RenamedKey(k: string): string {
    WithoutOrigPart(ReplaceFirst(k, OrigPrefix, ZeroPrefix))
  }

  /** The path with a trailing `.orig` taken off its last part, when it has more than
      one part. */
  function WithoutOrigPart(newKey: string): string {
    var parts := Split(newKey, "/");
    if |parts| > 1 && EndsWith(parts[|parts| - 1], OrigSuffix) then
      var last := parts[|parts| - 1];
      Join(parts[..|parts| - 1] + [last[..|last| - |OrigSuffix|]], "/")
    else
      newKey
  }

  /** An entry under `0.orig/` is renamed to the same path under `0/`, with a trailing
      `.orig` removed; whether the last part or the whole path ends in `.orig` is the
      same question, because the last part is what follows the last `/`. */
  lemma {:induction false} RenamedKeyShape(k: string)
    requires IsOrigKey(k)
    ensures var n := ZeroPrefix + k[|OrigPrefix|..];
            RenamedKey(k) == if EndsWith(n, OrigSuffix) then n[..|n| - |OrigSuffix|] else n
    ensures IsZeroKey(RenamedKey(k))
  {
    var n := ZeroPrefix + k[|OrigPrefix|..];
    ReplaceFirstOfPrefix(k, OrigPrefix, ZeroPrefix);
    WithoutOrigPartShape(n);
    assert n[..2] == ZeroPrefix;
    ZeroKeyOfShortened(n);
  }

  /** Under `0/`, dropping `.orig` from the last part drops it from the whole path. */
  lemma {:induction false} WithoutOrigPartShape(n: string)
    requires |n| >= 2 && n[0] == '0' && n[1] == '/'
    ensures WithoutOrigPart(n) == if EndsWith(n, OrigSuffix) then n[..|n| - |OrigSuffix|] else n
  {
    var parts := Split(n, "/");
    SplitAfterFirstPart(n);
    var init := parts[..|parts| - 1];
    var last := parts[|parts| - 1];
    LastPartSuffix(Join(init, "/"), last, OrigSuffix);
    if EndsWith(last, OrigSuffix) {
      JoinSnoc(init, last[..|last| - |OrigSuffix|], "/");
    }
  }

  /** A path that starts with `0/` splits on `/` into at least two parts, and it is
      the join of all but the last part, a `/`, and the last part, which holds no `/`. */
  lemma {:induction false} SplitAfterFirstPart(n: string)
    requires |n| >= 2 && n[0] == '0' && n[1] == '/'
    ensures |Split(n, "/")| > 1
    ensures var parts := Split(n, "/");
            n == Join(parts[..|parts| - 1], "/") + "/" + parts[|parts| - 1] && '/' !in parts[|parts| - 1]
  {
    FindCharFirst(n, '/', 0, 1);
    var parts := Split(n, "/");
    assert parts == [n[0..1]] + SplitFrom(n, "/", 2);
    var init := parts[..|parts| - 1];
    var last := parts[|parts| - 1];
    assert parts == init + [last];
    JoinSplit(n, "/");
    JoinSnoc(init, last, "/");
    SplitPiecesLackChar(n, '/');
  }

  /** Past a `/`, a last part without `/` ends in a suffix without `/` exactly when
      the whole text does, and cutting the suffix from either agrees. */
  lemma {:induction false} LastPartSuffix(front: string, last: string, suffix: string)
    requires '/' !in last && '/' !in suffix
    ensures EndsWith(last, suffix) <==> EndsWith(front + "/" + last, suffix)
    ensures EndsWith(last, suffix) ==>
              (front + "/" + last)[..|front| + 1 + |last| - |suffix|] == front + "/" + last[..|last| - |suffix|]
  {
    var n := front + "/" + last;
    if EndsWith(n, suffix) {
      assert n[|front|] == '/';
      assert forall pos :: |n| - |suffix| <= pos < |n| ==> n[pos] == suffix[pos - (|n| - |suffix|)];
      assert |front| < |n| - |suffix|;
    }
    if |last| >= |suffix| {
      assert n[|n| - |suffix|..] == last[|last| - |suffix|..];
    }
  }

  /** Cutting `.orig` from a `0/` path keeps its `0/` start. */
  lemma {:induction false} ZeroKeyOfShortened(n: string)
    requires IsZeroKey(n)
    ensures EndsWith(n, OrigSuffix) ==> IsZeroKey(n[..|n| - |OrigSuffix|])
  {
    if EndsWith(n, OrigSuffix) {
      var k := |n| - |OrigSuffix|;
      assert n[0] == '0' && n[1] == '/' by {
        assert n[..2][0] == '0' && n[..2][1] == '/';
      }
      assert n[k] == '.' by {
        assert n[k..][0] == '.';
      }
      assert n[..k][..2] == n[..2];
    }
  }

  /** The renames `add_case_path_keys` collects: each `0.orig/` key, in order, with
      its new name. */
  function RenamesOf(keys: seq<string>): Dict<string> {
    if keys == [] then []
    else (if IsOrigKey(keys[0]) then [(keys[0], RenamedKey(keys[0]))] else []) + RenamesOf(keys[1..])
  }

  /** The collected renames are the `0.orig/` keys, in order, each paired with its
      new name. */
  lemma {:induction false} RenamesOfShape(keys: seq<string>)
    ensures Keys(RenamesOf(keys)) == Filter(keys, IsOrigKey)
    ensures forall j :: 0 <= j < |RenamesOf(keys)| ==> RenamesOf(keys)[j].1 == RenamedKey(RenamesOf(keys)[j].0)
  {
    if keys != [] {
      RenamesOfShape(keys[1..]);
      var head: Dict<string> := if IsOrigKey(keys[0]) then [(keys[0], RenamedKey(keys[0]))] else [];
      KeysConcat(head, RenamesOf(keys[1..]));
    }
  }

  method CollectRenames(keys: seq<string>) returns (pairs: Dict<string>)
    ensures pairs == RenamesOf(keys)
  {
    pairs := [];
    for i := 0 to |keys|
      invariant pairs + RenamesOf(keys[i..]) == RenamesOf(keys)
    {
      var key := keys[i];
      assert keys[i..][0] == key && keys[i..][1..] == keys[i + 1..];
      if IsOrigKey(key) {
        var newKey := RenamedKey(key);
        pairs := pairs + [(key, newKey)];
      }
    }
  }

  /** `if old in d: d[new] = d.pop(old)`. */
  function Move<V>(d: Dict<V>, pair: (string, string)): Dict<V> {
    match Get(d, pair.0)
    case None => d
    case Some(v) => Set(Pop(d, pair.0), pair.1, v)
  }

  /** The renames applied one after the other. */
  function RenameAll<V>(d: Dict<V>, pairs: Dict<string>): Dict<V>
    decreases |pairs|
  {
    if pairs == [] then d else RenameAll(Move(d, pairs[0]), pairs[1..])
  }

  method ApplyRenames<V>(d: Dict<V>, pairs: Dict<string>) returns (files: Dict<V>)
    ensures files == RenameAll(d, pairs)
  {
    files := d;
    for i := 0 to |pairs|
      invariant RenameAll(files, pairs[i..]) == RenameAll(d, pairs)
    {
      assert pairs[i..][0] == pairs[i] && pairs[i..][1..] == pairs[i + 1..];
      var (oldKey, newKey) := pairs[i];
      match Get(files, oldKey) {
        case Some(v) =>
          files := Pop(files, oldKey);
          files := Set(files, newKey, v);
        case None =>
      }
    }
  }

  /** The source of the last rename that targets `k` and whose source is a key of `d`. */
  function LastMover<V>(d: Dict<V>, pairs: Dict<string>, k: string): (r: Option<string>)
    ensures r.Some? ==> r.value in Keys(d) && r.value in Keys(pairs)
  {
    if pairs == [] then None
    else match LastMover(d, pairs[1..], k)
      case Some(o) => Some(o)
      case None => if pairs[0].1 == k && pairs[0].0 in Keys(d) then Some(pairs[0].0) else None
  }

  /** A key no rename targets has no mover. */
  lemma {:induction false} LastMoverUntargeted<V>(d: Dict<V>, pairs: Dict<string>, k: string)
    requires forall j :: 0 <= j < |pairs| ==> pairs[j].1 != k
    ensures LastMover(d, pairs, k) == None
  {
    if pairs != [] {
      LastMoverUntargeted(d, pairs[1..], k);
    }
  }

  /** A rename changes only its own two keys. */
  lemma {:induction false} MoveGet<V>(d: Dict<V>, pair: (string, string), x: string)
    requires UniqueKeys(d)
    ensures UniqueKeys(Move(d, pair))
    ensures Get(Move(d, pair), x) ==
              if pair.0 !in Keys(d) then Get(d, x)
              else if x == pair.1 then Get(d, pair.0)
              else if x == pair.0 then None
              else Get(d, x)
  {
    if pair.0 in Keys(d) {
      var p := Pop(d, pair.0);
      PopUnique(d, pair.0);
      SetUnique(p, pair.1, Get(d, pair.0).value);
      SetGet(p, pair.1, Get(d, pair.0).value, x);
      PopGet(d, pair.0, x);
    }
  }

  /** Renames whose sources are distinct and never the target of a rename. */
  predicate RenameSafe(pairs: Dict<string>) {
    UniqueKeys(pairs) && forall j :: 0 <= j < |pairs| ==> pairs[j].1 !in Keys(pairs)
  }

  lemma {:induction false} RenameSafeTail(pairs: Dict<string>)
    requires pairs != [] && RenameSafe(pairs)
    ensures RenameSafe(pairs[1..])
    ensures pairs[0].0 != pairs[0].1 && pairs[0].0 !in Keys(pairs[1..])
    ensures forall j :: 0 <= j < |pairs| - 1 ==>
              pairs[1..][j].0 != pairs[0].0 && pairs[1..][j].0 != pairs[0].1 && pairs[1..][j].1 != pairs[0].0
  {
    var rest := pairs[1..];
    assert Keys(pairs) == [pairs[0].0] + Keys(rest);
    forall j | 0 <= j < |rest| ensures rest[j] == pairs[j + 1] && rest[j].0 in Keys(rest) {
      assert Keys(rest)[j] == rest[j].0;
    }
  }

  /** What is left under `k` once the renames are done, as `RenameAllGet` proves. */
  function RenamedValue<V>(d: Dict<V>, pairs: Dict<string>, k: string): Option<V> {
    if k in Keys(pairs) then None
    else match LastMover(d, pairs, k)
      case Some(o) => Get(d, o)
      case None => Get(d, k)
  }

  /** A rename whose keys are not sources of the later ones leaves their movers as
      they were. */
  lemma {:induction false} LastMoverAfterMove<V>(d: Dict<V>, p: (string, string), rest: Dict<string>, k: string)
    requires UniqueKeys(d)
    requires forall j :: 0 <= j < |rest| ==> rest[j].0 != p.0 && rest[j].0 != p.1
    ensures LastMover(Move(d, p), rest, k) == LastMover(d, rest, k)
  {
    if rest != [] {
      LastMoverAfterMove(d, p, rest[1..], k);
      MoveGet(d, p, rest[0].0);
    }
  }

  /** Performing the first rename and then the rest leaves what the whole list
      would. */
  lemma {:induction false} RenamedValueStep<V>(d: Dict<V>, pairs: Dict<string>, k: string)
    requires UniqueKeys(d) && pairs != [] && RenameSafe(pairs)
    ensures RenamedValue(Move(d, pairs[0]), pairs[1..], k) == RenamedValue(d, pairs, k)
  {
    var p := pairs[0];
    var rest := pairs[1..];
    RenameSafeTail(pairs);
    assert Keys(pairs) == [p.0] + Keys(rest);
    if k in Keys(rest) {
    } else if k == p.0 {
      LastMoverUntargeted(Move(d, p), rest, k);
      MoveGet(d, p, k);
    } else {
      LastMoverAfterMove(d, p, rest, k);
      MoveGet(d, p, k);
      match LastMover(d, rest, k) {
        case Some(o) =>
          assert o != p.0 && o != p.1;
          MoveGet(d, p, o);
        case None =>
      }
    }
  }

  /** What the renames leave under each key, when the sources are distinct keys that
      no rename targets: a source is gone; a key some present source is renamed to
      holds that source's content, the last such rename winning; every other key is
      untouched. */
  lemma {:induction false} RenameAllGet<V>(d: Dict<V>, pairs: Dict<string>, k: string)
    requires UniqueKeys(d) && RenameSafe(pairs)
    ensures Get(RenameAll(d, pairs), k) == RenamedValue(d, pairs, k)
    ensures UniqueKeys(RenameAll(d, pairs))
    decreases |pairs|
  {
    if pairs != [] {
      RenameSafeTail(pairs);
      MoveGet(d, pairs[0], k);
      RenameAllGet(Move(d, pairs[0]), pairs[1..], k);
      RenamedValueStep(d, pairs, k);
    }
  }

  /** The configuration files after step 1 of `add_case_path_keys`. */
  function Renamed(files: Dict<string>): Dict<string> {
    RenameAll(files, RenamesOf(Keys(files)))
  }

  lemma {:induction false} ZeroKeyNotOrig(x: string)
    requires IsZeroKey(x)
    ensures !IsOrigKey(x)
  {
    assert x[1] == '/';
  }

  /** The collected renames are safe: their sources are distinct `0.orig/` keys and
      their targets are `0/` keys. */
  lemma {:induction false} RenamesOfSafe(files: Dict<string>)
    requires UniqueKeys(files)
    ensures RenameSafe(RenamesOf(Keys(files)))
    ensures forall k :: k in Keys(RenamesOf(Keys(files))) <==> IsOrigKey(k) && k in Keys(files)
    ensures forall j :: 0 <= j < |RenamesOf(Keys(files))| ==> IsZeroKey(RenamesOf(Keys(files))[j].1)
  {
    var pairs := RenamesOf(Keys(files));
    RenamesOfShape(Keys(files));
    UniqueKeysDistinct(files);
    FilterDistinct(Keys(files), IsOrigKey);
    UniqueKeysDistinct(pairs);
    forall j | 0 <= j < |pairs| ensures IsZeroKey(pairs[j].1) && pairs[j].1 !in Keys(pairs) {
      assert pairs[j].0 == Keys(pairs)[j];
      RenamedKeyShape(pairs[j].0);
      ZeroKeyNotOrig(pairs[j].1);
    }
  }

  /** A mover found among renames that each give their source its new name is a key
      whose new name is `k`. */
  lemma {:induction false} LastMoverRenames(d: Dict<string>, pairs: Dict<string>, k: string)
    requires forall j :: 0 <= j < |pairs| ==> pairs[j].1 == RenamedKey(pairs[j].0)
    requires LastMover(d, pairs, k).Some?
    ensures LastMover(d, pairs, k).value in Keys(d) && RenamedKey(LastMover(d, pairs, k).value) == k
  {
    if LastMover(d, pairs[1..], k).Some? {
      LastMoverRenames(d, pairs[1..], k);
    }
  }

  /** What step 1 leaves: no `0.orig/` key; a `0/` key holds the content of the last
      `0.orig/` file renamed to it, or its own content when none is; every other key
      keeps its content. The file that wins is a `0.orig/` key of the case renamed to `k`. */
  lemma {:induction false} RenamedCaseFiles(files: Dict<string>, k: string)
    requires UniqueKeys(files)
    ensures UniqueKeys(Renamed(files))
    ensures IsOrigKey(k) ==> Get(Renamed(files), k) == None
    ensures !IsOrigKey(k) && !IsZeroKey(k) ==> Get(Renamed(files), k) == Get(files, k)
    ensures IsZeroKey(k) ==>
              Get(Renamed(files), k) == match LastMover(files, RenamesOf(Keys(files)), k)
                                        case Some(o) => Get(files, o)
                                        case None => Get(files, k)
    ensures LastMover(files, RenamesOf(Keys(files)), k).Some? ==>
              var o := LastMover(files, RenamesOf(Keys(files)), k).value;
              IsOrigKey(o) && o in Keys(files) && RenamedKey(o) == k
  {
    var pairs := RenamesOf(Keys(files));
    RenamesOfSafe(files);
    RenameAllGet(files, pairs, k);
    if LastMover(files, pairs, k).Some? {
      RenamesOfShape(Keys(files));
      LastMoverRenames(files, pairs, k);
    }
    if !IsZeroKey(k) {
      forall j | 0 <= j < |pairs| ensures pairs[j].1 != k { }
      LastMoverUntargeted(files, pairs, k);
    } else {
      ZeroKeyNotOrig(k);
    }
  }

  /** No key of a case starts with `0.orig/` after step 1. */
  lemma {:induction false} RenamedHasNoOrigKey(files: Dict<string>)
    requires UniqueKeys(files)
    ensures forall k :: k in Keys(Renamed(files)) ==> !IsOrigKey(k)
  {
    forall k | k in Keys(Renamed(files)) ensures !IsOrigKey(k) {
      RenamedCaseFiles(files, k);
    }
  }

  // ---------------------------------------------------------------------------
  // Solver and flow flags
  // ---------------------------------------------------------------------------

  const ControlDictPath := "system/controlDict"
  const ApplicationKeyword := "application"
  const CloudMarker := "Cloud"
  const CombustionPropertiesPath := "constant/combustionProperties"
  const ReactionsPath := "constant/reactions"

  const MultiphaseFlowSolvers: seq<string> := [
    "cavitatingFoam", "compressibleInterFoam", "compressibleMultiphaseInterFoam",
    "driftFluxFoam", "icoReactingMultiphaseInterFoam", "interCondensatingEvaporatingFoam",
    "interFoam", "interIsoFoam", "interPhaseChangeFoam", "multiphaseEulerFoam",
    "multiphaseInterFoam", "potentialFreeSurfaceFoam", "twoLiquidMixingFoam",
    "chtMultiRegionFoam", "reactingMultiphaseEulerFoam", "reactingTwoPhaseEulerFoam", "twoPhaseEulerFoam"
  ]

  const ParticleFlowSolvers: seq<string> := [
    "denseParticleFoam", "particleFoam", "reactingParcelFoam",
    "DPMFoam", "MPPICFoam", "icoUncoupledKinematicParcelDyMFoam",
    "kinematicParcelFoam", "sprayFoam", "MPPICDyMFoam",
    "coalChemistryFoam", "icoUncoupledKinematicParcelFoam",
    "reactingHeterogenousParcelFoam", "simpleReactingParcelFoam",
    "uncoupledKinematicParcelDyMFoam"
  ]

  const ReactingFlowSolvers: seq<string> := [
    "buoyantReactingFoam", "chemFoam", "coldEngineFoam",
    "reactingFoam", "fireFoam", "PDRFoam", "XiFoam",
    "XiEngineFoam", "rhoReactingFoam"
  ]

  /** `solver in solvers`, where a missing solver is in no list. */
  predicate InList(solver: Option<string>, solvers: seq<string>) {
    solver.Some? && solver.value in solvers
  }

  /** The word after `application` in `system/controlDict`, if there is one. */
  function SolverOf(files: Dict<string>): Option<string> {
    KeywordSearch(GetOr(files, ControlDictPath, ""), ApplicationKeyword)
  }

  /** `any(marker in k for k in files)`. */
  predicate SomeKeyContains(files: Dict<string>, marker: string) {
    files != [] && (Contains(files[0].0, marker) || SomeKeyContains(files[1..], marker))
  }

  /** `path in files`. */
  predicate HasFile(files: Dict<string>, path: string) {
    files != [] && (files[0].0 == path || HasFile(files[1..], path))
  }

  lemma {:induction false} HasFileKeys(files: Dict<string>, path: string)
    ensures HasFile(files, path) <==> path in Keys(files)
  {
    if files != [] {
      HasFileKeys(files[1..], path);
      assert Keys(files) == [files[0].0] + Keys(files[1..]);
    }
  }

  /** `[k for k in files if k.startswith("0/")]`. */
  function ZeroKeys(files: Dict<string>): seq<string> {
    if files == [] then []
    else (if IsZeroKey(files[0].0) then [files[0].0] else []) + ZeroKeys(files[1..])
  }

  lemma {:induction false} ZeroKeysFilter(files: Dict<string>)
    ensures ZeroKeys(files) == Filter(Keys(files), IsZeroKey)
  {
    if files != [] {
      ZeroKeysFilter(files[1..]);
      assert Keys(files)[1..] == Keys(files[1..]);
    }
  }

  // ---------------------------------------------------------------------------
  // Turbulence type and model
  // ---------------------------------------------------------------------------

  const SimulationTypeKeyword := "simulationType"
  const LesModelKeyword := "LESModel"
  const RasModelKeyword := "RASModel"

  predicate IsTurbulencePropertiesPath(path: string) {
    var parts := Split(path, "/");
    |parts| > 1 && parts[0] == "constant" && parts[|parts| - 1] == "turbulenceProperties"
  }

  predicate DeclaresSimulationType(entry: (string, string)) {
    IsTurbulencePropertiesPath(entry.0) && KeywordSearch(entry.1, SimulationTypeKeyword).Some?
  }

  /** The model word for a simulation type: `LESModel` for LES, `RASModel` for RAS,
      none for every other type. */
  function ModelFor(simulationType: string, content: string): Option<string> {
    if simulationType == "LES" then KeywordSearch(content, LesModelKeyword)
    else if simulationType == "RAS" then KeywordSearch(content, RasModelKeyword)
    else None
  }

  /** Type and model from the first turbulence-properties file that names a
      simulation type. */
  function TurbulenceOf(files: Dict<string>): (Option<string>, Option<string>) {
    if files == [] then (None, None)
    else if DeclaresSimulationType(files[0]) then
      var ttype := KeywordSearch(files[0].1, SimulationTypeKeyword);
      (ttype, ModelFor(ttype.value, files[0].1))
    else TurbulenceOf(files[1..])
  }

  /** The type and model come from the first file that declares a simulation type,
      and there are none when no file does. */
  lemma {:induction false} TurbulenceOfFirst(files: Dict<string>)
    ensures TurbulenceOf(files) == match FirstIndex(files, DeclaresSimulationType)
                                   case None => (None, None)
                                   case Some(j) =>
                                     var ttype := KeywordSearch(files[j].1, SimulationTypeKeyword);
                                     (ttype, ModelFor(ttype.value, files[j].1))
  {
    if files != [] && !DeclaresSimulationType(files[0]) {
      TurbulenceOfFirst(files[1..]);
      match FirstIndex(files[1..], DeclaresSimulationType) {
        case None =>
        case Some(j) => assert files[1..][j] == files[j + 1];
      }
    }
  }

  /** A model is only ever reported for an LES or a RAS simulation, and a type is
      reported whenever a model is; both are non-empty words. */
  lemma {:induction false} TurbulenceModelNeedsType(files: Dict<string>)
    ensures TurbulenceOf(files).1.Some? ==>
              TurbulenceOf(files).0 == Some("LES") || TurbulenceOf(files).0 == Some("RAS")
    ensures TurbulenceOf(files).0.Some? ==> |TurbulenceOf(files).0.value| > 0
  {
    if files != [] {
      if DeclaresSimulationType(files[0]) {
        KeywordSearchIsWord(files[0].1, SimulationTypeKeyword);
      } else {
        TurbulenceModelNeedsType(files[1..]);
      }
    }
  }

  /** What the keyword search finds is a word. */
  lemma {:induction false} KeywordSearchIsWord(s: string, kw: string)
    requires |kw| > 0
    ensures KeywordSearch(s, kw).Some? ==> |KeywordSearch(s, kw).value| > 0
  {
    if KeywordSearch(s, kw).Some? {
      var p := KeywordSearchFound(s, kw, 0);
    }
  }

  method FindTurbulence(files: Dict<string>) returns (turbulenceType: Option<string>, turbulenceModel: Option<string>)
    ensures (turbulenceType, turbulenceModel) == TurbulenceOf(files)
  {
    turbulenceType := None;
    turbulenceModel := None;
    for i := 0 to |files|
      invariant turbulenceType == None && turbulenceModel == None
      invariant TurbulenceOf(files[i..]) == TurbulenceOf(files)
    {
      assert files[i..][0] == files[i] && files[i..][1..] == files[i + 1..];
      var (filePath, content) := files[i];
      var parts := Split(filePath, "/");
      if |parts| > 1 && parts[0] == "constant" && parts[|parts| - 1] == "turbulenceProperties" {
        var typeMatch := KeywordSearch(content, SimulationTypeKeyword);
        if typeMatch.Some? {
          turbulenceType := typeMatch;
          if typeMatch.value == "LES" {
            turbulenceModel := KeywordSearch(content, LesModelKeyword);
          } else if typeMatch.value == "RAS" {
            turbulenceModel := KeywordSearch(content, RasModelKeyword);
          }
          return;
        }
      }
    }
  }

  // ---------------------------------------------------------------------------
  // Boundary condition types
  // ---------------------------------------------------------------------------

  predicate IsInitialFieldPath(path: string) {
    var parts := Split(path, "/");
    |parts| > 1 && (parts[0] == "0" || parts[0] == "0.org")
  }

  /** The stripped values, as a set. */
  function StrippedSet(vs: seq<string>): (r: set<string>)
    ensures forall k :: 0 <= k < |vs| ==> Strip(vs[k]) in r
    ensures forall t :: t in r ==> exists k :: 0 <= k < |vs| && Strip(vs[k]) == t
  {
    if vs == [] then {} else {Strip(vs[0])} + StrippedSet(vs[1..])
  }

  /** The trimmed `type` values inside the first `boundaryField` block of a file. */
  function FileBoundaryTypes(content: string): set<string> {
    match BoundaryField(content)
    case None => {}
    case Some(block) => StrippedSet(TypeValues(block))
  }

  /** The boundary types one file contributes. */
  function EntryBoundaryTypes(entry: (string, string)): set<string> {
    if IsInitialFieldPath(entry.0) then FileBoundaryTypes(entry.1) else {}
  }

  /** The boundary types of all initial-field files, collected in order. */
  function BoundaryTypesOf(files: Dict<string>): set<string> {
    if files == [] then {}
    else BoundaryTypesOf(files[..|files| - 1]) + EntryBoundaryTypes(files[|files| - 1])
  }

  /** A type is collected exactly when some file under `0/` or `0.org/` has it in its
      `boundaryField` block. */
  lemma {:induction false} BoundaryTypesMember(files: Dict<string>, t: string)
    ensures t in BoundaryTypesOf(files) <==> exists j :: 0 <= j < |files| && t in EntryBoundaryTypes(files[j])
  {
    if files != [] {
      var init := files[..|files| - 1];
      BoundaryTypesMember(init, t);
      SomeSetIndexOfInit(files, init, EntryBoundaryTypes, t);
    }
  }

  method CaseBoundaryTypes(files: Dict<string>) returns (types: set<string>)
    ensures types == BoundaryTypesOf(files)
  {
    types := {};
    for i := 0 to |files|
      invariant types == BoundaryTypesOf(files[..i])
    {
      assert files[..i + 1][..i] == files[..i];
      var (filePath, content) := files[i];
      var parts := Split(filePath, "/");
      if |parts| > 1 && (parts[0] == "0" || parts[0] == "0.org") {
        match BoundaryField(content) {
          case Some(boundaryContent) =>
            var typeMatches := TypeValues(boundaryContent);
            if typeMatches != [] {
              types := types + StrippedSet(typeMatches);
            }
          case None =>
        }
      }
    }
    assert files[..|files|] == files;
  }

  // ---------------------------------------------------------------------------
  // add_case_path_keys
  // ---------------------------------------------------------------------------

  /** A tutorial case as read from the merged case file. */
  datatype CaseInput = CaseInput(casePath: string, configurationFiles: Dict<string>)

  /** A case with the keys `add_case_path_keys` adds. */
  datatype CaseRecord = CaseRecord(
    casePath: string,
    configurationFiles: Dict<string>,
    requiredField: seq<string>,
    solver: Option<string>,
    singlePhase: bool,
    particleFlow: bool,
    reactingFlow: bool,
    turbulenceType: Option<string>,
    turbulenceModel: Option<string>,
    boundaryType: set<string>)

  /** The record derived from case `c`: the renamed files, the `0/` keys among them,
      the solver, the three flow flags, the turbulence type and model and the boundary
      types. */
  function DerivedCase(c: CaseInput): CaseRecord {
    var files := Renamed(c.configurationFiles);
    var solver := SolverOf(files);
    var turbulence := TurbulenceOf(files);
    CaseRecord(
      c.casePath,
      files,
      ZeroKeys(files),
      solver,
      !InList(solver, MultiphaseFlowSolvers),
      InList(solver, ParticleFlowSolvers) || SomeKeyContains(files, CloudMarker),
      InList(solver, ReactingFlowSolvers) || HasFile(files, CombustionPropertiesPath) || HasFile(files, ReactionsPath),
      turbulence.0,
      turbulence.1,
      BoundaryTypesOf(files))
  }

  method AnyKeyContains(files: Dict<string>, marker: string) returns (found: bool)
    ensures found <==> SomeKeyContains(files, marker)
  {
    found := false;
    for i := 0 to |files|
      invariant (found || SomeKeyContains(files[i..], marker)) == SomeKeyContains(files, marker)
    {
      assert files[i..][0] == files[i] && files[i..][1..] == files[i + 1..];
      if Contains(files[i].0, marker) {
        found := true;
      }
    }
  }

  /** The derivation for one case. */
  method DeriveCase(c: CaseInput) returns (r: CaseRecord)
    ensures r == DerivedCase(c)
  {
    var pairs := CollectRenames(Keys(c.configurationFiles));
    var configFiles := ApplyRenames(c.configurationFiles, pairs);
    var requiredFields := ZeroKeys(configFiles);
    var controlDict := GetOr(configFiles, ControlDictPath, "");
    var solver := KeywordSearch(controlDict, ApplicationKeyword);
    var singlePhase := true;
    if InList(solver, MultiphaseFlowSolvers) {
      singlePhase := false;
    }
    var particleFlow := false;
    if InList(solver, ParticleFlowSolvers) {
      particleFlow := true;
    }
    var cloud := AnyKeyContains(configFiles, CloudMarker);
    if cloud {
      particleFlow := true;
    }
    var reactingFlow := false;
    if InList(solver, ReactingFlowSolvers) {
      reactingFlow := true;
    }
    if HasFile(configFiles, CombustionPropertiesPath) {
      reactingFlow := true;
    }
    if HasFile(configFiles, ReactionsPath) {
      reactingFlow := true;
    }
    var turbulenceType, turbulenceModel := FindTurbulence(configFiles);
    var boundaryTypes := CaseBoundaryTypes(configFiles);
    assert configFiles == Renamed(c.configurationFiles) && solver == SolverOf(configFiles);
    assert singlePhase == !InList(solver, MultiphaseFlowSolvers);
    assert particleFlow == (InList(solver, ParticleFlowSolvers) || SomeKeyContains(configFiles, CloudMarker));
    assert reactingFlow == (InList(solver, ReactingFlowSolvers) || HasFile(configFiles, CombustionPropertiesPath)
                            || HasFile(configFiles, ReactionsPath));
    r := CaseRecord(c.casePath, configFiles, requiredFields, solver, singlePhase, particleFlow, reactingFlow,
                    turbulenceType, turbulenceModel, boundaryTypes);
  }

  /** The required fields are exactly the `0/` files left after renaming, and none of
      them comes from a `0.orig/` name. */
  lemma {:induction false} RequiredFieldsExact(c: CaseInput, k: string)
    requires UniqueKeys(c.configurationFiles)
    ensures k in DerivedCase(c).requiredField <==> IsZeroKey(k) && k in Keys(DerivedCase(c).configurationFiles)
    ensures k in Keys(DerivedCase(c).configurationFiles) ==> !IsOrigKey(k)
  {
    RenamedHasNoOrigKey(c.configurationFiles);
    ZeroKeysFilter(DerivedCase(c).configurationFiles);
  }

  /** Some key contains `marker` exactly when one of the dictionary's keys does. */
  lemma {:induction false} SomeKeyContainsKeys(files: Dict<string>, marker: string)
    ensures SomeKeyContains(files, marker) <==> exists j :: 0 <= j < |files| && Contains(Keys(files)[j], marker)
  {
    if files != [] {
      SomeKeyContainsKeys(files[1..], marker);
      assert Keys(files)[0] == files[0].0;
      assert forall j :: 1 <= j < |files| ==> Keys(files)[j] == Keys(files[1..])[j - 1];
    }
  }

  /** The flow flags of a derived case, in terms of its solver and its file names:
      multiphase solvers are the only ones not single-phase; a particle flow has a
      particle solver or a file whose name contains `Cloud`; a reacting flow has a
      reacting solver, a `constant/combustionProperties` or a `constant/reactions` file.
      A missing solver is in no list. */
  lemma {:induction false} DerivedFlags(c: CaseInput)
    ensures var r := DerivedCase(c);
      (!r.singlePhase <==> r.solver.Some? && r.solver.value in MultiphaseFlowSolvers) &&
      (r.particleFlow <==> (r.solver.Some? && r.solver.value in ParticleFlowSolvers) ||
                           exists j :: 0 <= j < |r.configurationFiles| && Contains(Keys(r.configurationFiles)[j], CloudMarker)) &&
      (r.reactingFlow <==> (r.solver.Some? && r.solver.value in ReactingFlowSolvers) ||
                           CombustionPropertiesPath in Keys(r.configurationFiles) ||
                           ReactionsPath in Keys(r.configurationFiles)) &&
      (r.solver.Some? ==> |r.solver.value| > 0)
  {
    var r := DerivedCase(c);
    SomeKeyContainsKeys(r.configurationFiles, CloudMarker);
    HasFileKeys(r.configurationFiles, CombustionPropertiesPath);
    HasFileKeys(r.configurationFiles, ReactionsPath);
    KeywordSearchIsWord(GetOr(r.configurationFiles, ControlDictPath, ""), ApplicationKeyword);
  }

  /** The solvers of the records, in order. */
  function SolversOf(records: Dict<CaseRecord>): set<Option<string>> {
    if records == [] then {} else SolversOf(records[..|records| - 1]) + {records[|records| - 1].1.solver}
  }

  function TurbulenceTypesOf(records: Dict<CaseRecord>): set<Option<string>> {
    if records == [] then {}
    else TurbulenceTypesOf(records[..|records| - 1]) + {records[|records| - 1].1.turbulenceType}
  }

  function TurbulenceModelsOf(records: Dict<CaseRecord>): set<Option<string>> {
    if records == [] then {}
    else TurbulenceModelsOf(records[..|records| - 1]) + {records[|records| - 1].1.turbulenceModel}
  }

  function RecordBoundaryTypesOf(records: Dict<CaseRecord>): set<string> {
    if records == [] then {}
    else RecordBoundaryTypesOf(records[..|records| - 1]) + records[|records| - 1].1.boundaryType
  }

  /** A solver is collected exactly when some record has it; the other three sets
      are built the same way. */
  lemma {:induction false} SolversOfMember(records: Dict<CaseRecord>, x: Option<string>)
    ensures x in SolversOf(records) <==> exists j :: 0 <= j < |records| && records[j].1.solver == x
  {
    if records != [] {
      var init := records[..|records| - 1];
      SolversOfMember(init, x);
      if x in SolversOf(init) {
        var j :| 0 <= j < |init| && init[j].1.solver == x;
        assert records[j] == init[j];
      }
      if exists j :: 0 <= j < |records| && records[j].1.solver == x {
        var j :| 0 <= j < |records| && records[j].1.solver == x;
        if j < |init| {
          assert records[j] == init[j];
        }
      }
    }
  }

  /** A boundary type is collected exactly when some record has it. */
  lemma {:induction false} RecordBoundaryTypesMember(records: Dict<CaseRecord>, x: string)
    ensures x in RecordBoundaryTypesOf(records) <==> exists j :: 0 <= j < |records| && x in records[j].1.boundaryType
  {
    if records != [] {
      var init := records[..|records| - 1];
      RecordBoundaryTypesMember(init, x);
      if x in RecordBoundaryTypesOf(init) {
        var j :| 0 <= j < |init| && x in init[j].1.boundaryType;
        assert records[j] == init[j];
      }
      if exists j :: 0 <= j < |records| && x in records[j].1.boundaryType {
        var j :| 0 <= j < |records| && x in records[j].1.boundaryType;
        if j < |init| {
          assert records[j] == init[j];
        }
      }
    }
  }

  /** Every case derived, in order: the per-case part of `add_case_path_keys`. */
  method DeriveAll(data: Dict<CaseInput>) returns (updated: Dict<CaseRecord>)
    ensures |updated| == |data|
    ensures forall j :: 0 <= j < |data| ==> updated[j].0 == data[j].0 && updated[j].1 == DerivedCase(data[j].1)
  {
    updated := [];
    for i := 0 to |data|
      invariant |updated| == i
      invariant forall j :: 0 <= j < i ==> updated[j].0 == data[j].0 && updated[j].1 == DerivedCase(data[j].1)
    {
      var record := DeriveCase(data[i].1);
      updated := updated + [(data[i].0, record)];
    }
  }

  /** The solvers, turbulence types and models and boundary types of the records. */
  method CollectKeywords(records: Dict<CaseRecord>)
    returns (solvers: set<Option<string>>, turbulenceTypes: set<Option<string>>,
             turbulenceModels: set<Option<string>>, boundaryTypes: set<string>)
    ensures solvers == SolversOf(records) && turbulenceTypes == TurbulenceTypesOf(records)
    ensures turbulenceModels == TurbulenceModelsOf(records) && boundaryTypes == RecordBoundaryTypesOf(records)
  {
    solvers, turbulenceTypes, turbulenceModels, boundaryTypes := {}, {}, {}, {};
    for i := 0 to |records|
      invariant solvers == SolversOf(records[..i]) && turbulenceTypes == TurbulenceTypesOf(records[..i])
      invariant turbulenceModels == TurbulenceModelsOf(records[..i]) && boundaryTypes == RecordBoundaryTypesOf(records[..i])
    {
      assert records[..i + 1][..i] == records[..i];
      var record := records[i].1;
      solvers := solvers + {record.solver};
      turbulenceTypes := turbulenceTypes + {record.turbulenceType};
      turbulenceModels := turbulenceModels + {record.turbulenceModel};
      boundaryTypes := boundaryTypes + record.boundaryType;
    }
    assert records[..|records|] == records;
  }

  /** The module-level keyword sets the derivation adds to. */
  class KeywordCollector {
    var solvers: set<Option<string>>
    var turbulenceTypes: set<Option<string>>
    var turbulenceModels: set<Option<string>>
    var boundaryTypes: set<string>

    constructor()
      ensures solvers == {} && turbulenceTypes == {} && turbulenceModels == {} && boundaryTypes == {}
    {
      solvers := {};
      turbulenceTypes := {};
      turbulenceModels := {};
      boundaryTypes := {};
    }

    /** Derives every case, in order, and adds its solver, turbulence type and model
        and boundary types to the sets, which therefore only grow. */
    method AddCasePathKeys(data: Dict<CaseInput>) returns (updated: Dict<CaseRecord>)
      modifies this
      ensures |updated| == |data|
      ensures forall j :: 0 <= j < |data| ==> updated[j].0 == data[j].0 && updated[j].1 == DerivedCase(data[j].1)
      ensures solvers == old(solvers) + SolversOf(updated)
      ensures turbulenceTypes == old(turbulenceTypes) + TurbulenceTypesOf(updated)
      ensures turbulenceModels == old(turbulenceModels) + TurbulenceModelsOf(updated)
      ensures boundaryTypes == old(boundaryTypes) + RecordBoundaryTypesOf(updated)
    {
      updated := DeriveAll(data);
      var s, t, m, b := CollectKeywords(updated);
      solvers := solvers + s;
      turbulenceTypes := turbulenceTypes + t;
      turbulenceModels := turbulenceModels + m;
      boundaryTypes := boundaryTypes + b;
    }
  }
}
