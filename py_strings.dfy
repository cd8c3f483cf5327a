/** The Python `str` operations the repository relies on, over `seq<char>`.
    Character classes: `IsSpace` is `str.isspace()` (also `re`'s `\s`); digits and
    word characters are the ASCII ones (`re`'s `\d` and `\w` restricted to ASCII). */
module PyStrings {
  import opened Wrappers

  predicate IsSpace(c: char) {
    || c == ' '
    || ('\t' <= c <= '\r')
    || ('\U{1C}' <= c <= '\U{1F}')
    || c == '\U{85}' || c == '\U{A0}' || c == '\U{1680}'
    || ('\U{2000}' <= c <= '\U{200A}')
    || c == '\U{2028}' || c == '\U{2029}' || c == '\U{202F}' || c == '\U{205F}' || c == '\U{3000}'
  }

  predicate IsNotSpace(c: char) { !IsSpace(c) }

  predicate IsDigit(c: char) { '0' <= c <= '9' }

  predicate IsAsciiLetter(c: char) { 'a' <= c <= 'z' || 'A' <= c <= 'Z' }

  /** `re`'s `\w`, ASCII part. */
  predicate IsWordChar(c: char) { IsAsciiLetter(c) || IsDigit(c) || c == '_' }

  /** End of the maximal run of characters satisfying `p` that starts at `i`. */
  function RunEnd(s: string, i: nat, p: char -> bool): (e: nat)
    requires i <= |s|
    ensures i <= e <= |s|
    ensures forall j :: i <= j < e ==> p(s[j])
    ensures e == |s| || !p(s[e])
    decreases |s| - i
  {
    if i == |s| || !p(s[i]) then i else RunEnd(s, i + 1, p)
  }

  predicate OccursAt(s: string, sub: string, i: nat) {
    i + |sub| <= |s| && s[i..i + |sub|] == sub
  }

  predicate StartsWith(s: string, prefix: string) {
    |prefix| <= |s| && s[..|prefix|] == prefix
  }

  predicate EndsWith(s: string, suffix: string) {
    |suffix| <= |s| && s[|s| - |suffix|..] == suffix
  }

  /** First occurrence of `sub` at or after position `i`. */
  function FindFrom(s: string, sub: string, i: nat): (r: Option<nat>)
    ensures r.Some? ==> i <= r.value && OccursAt(s, sub, r.value)
    ensures forall j :: i <= j && (r.None? || j < r.value) ==> !OccursAt(s, sub, j)
    decreases |s| - i
  {
    if i + |sub| > |s| then None
    else if OccursAt(s, sub, i) then Some(i)
    else FindFrom(s, sub, i + 1)
  }

  /** Whether `sub` occurs at `j` can be read off any slice that covers the occurrence. */
  lemma {:induction false} OccursAtSlice(s: string, a: nat, b: nat, sub: string, j: nat)
    requires a <= j && j + |sub| <= b <= |s|
    ensures OccursAt(s, sub, j) == OccursAt(s[a..b], sub, j - a)
  {
    var u, v := s[a..b][j - a..j - a + |sub|], s[j..j + |sub|];
    assert |u| == |v|;
    forall k | 0 <= k < |u| ensures u[k] == v[k] {
      assert u[k] == s[a..b][j - a + k];
    }
    assert u == v;
  }

  /** The first occurrence of a one-character string is the first position holding it. */
  lemma {:induction false} FindCharFirst(s: string, c: char, i: nat, q: nat)
    requires i <= q < |s| && s[q] == c
    requires forall j :: i <= j < q ==> s[j] != c
    ensures FindFrom(s, [c], i) == Some(q)
  {
    assert OccursAt(s, [c], q) by { assert s[q..q + 1] == [s[q]]; }
    forall j | i <= j < q ensures !OccursAt(s, [c], j) {
      assert s[j..j + 1] == [s[j]];
    }
    FindFromFirst(s, [c], i, q);
  }

  /** A slice that is a concatenation splits at the boundary. */
  lemma {:induction false} PrefixSplit(s: string, o: nat, a: string, b: string)
    requires o + |a| + |b| <= |s| && s[o..o + |a| + |b|] == a + b
    ensures s[o..o + |a|] == a && s[o + |a|..o + |a| + |b|] == b
  {
    assert s[o..o + |a| + |b|][..|a|] == a;
    assert s[o..o + |a| + |b|][|a|..] == b;
  }

  /** A suffix that is a concatenation splits the text at the boundary. */
  lemma {:induction false} SuffixSplit(s: string, o: nat, a: string, b: string)
    requires o <= |s| && s[o..] == a + b
    ensures o + |a| <= |s| && s[o..o + |a|] == a && s[o + |a|..] == b
  {
    assert s[o..][..|a|] == a;
    assert s[o..][|a|..] == b;
  }

  /** Python's `sub in s`. */
  predicate Contains(s: string, sub: string) {
    FindFrom(s, sub, 0).Some?
  }

  /** Python's `s.find(sub, start)`, -1 when absent. */
  function PyFind(s: string, sub: string, start: nat): (r: int)
    ensures -1 <= r <= |s|
    ensures r >= 0 ==> start <= r && OccursAt(s, sub, r)
    ensures r == -1 ==> forall j :: start <= j ==> !OccursAt(s, sub, j)
  {
    if start > |s| then -1
    else match FindFrom(s, sub, start)
      case Some(j) => j
      case None => -1
  }

  /** Python's slice index normalisation for a sequence of length `n`. */
  function PyClamp(i: int, n: nat): (r: nat)
    ensures r <= n
    ensures 0 <= i <= n ==> r == i
    ensures i < 0 && -i <= n ==> r == n + i
  {
    if i < 0 then (if i + n < 0 then 0 else i + n)
    else if i > n then n
    else i
  }

  /** Python's `s[a:b]`. */
  function PySlice(s: string, a: int, b: int): (r: string)
    ensures |r| <= |s|
    ensures 0 <= a <= b <= |s| ==> r == s[a..b]
  {
    var x, y := PyClamp(a, |s|), PyClamp(b, |s|);
    if x >= y then "" else s[x..y]
  }

  /** Python's `s.lstrip()`. */
  function TrimStart(s: string): (r: string)
    ensures |r| <= |s| && r == s[|s| - |r|..]
    ensures forall j :: 0 <= j < |s| - |r| ==> IsSpace(s[j])
    ensures r == [] || !IsSpace(r[0])
  {
    s[RunEnd(s, 0, IsSpace)..]
  }

  /** Python's `s.rstrip()`. */
  function TrimEnd(s: string): (r: string)
    ensures |r| <= |s| && r == s[..|r|]
    ensures forall j :: |r| <= j < |s| ==> IsSpace(s[j])
    ensures r == [] || !IsSpace(r[|r| - 1])
  {
    if s == [] || !IsSpace(s[|s| - 1]) then s else TrimEnd(s[..|s| - 1])
  }

  /** Python's `s.strip()`. */
  function Strip(s: string): (r: string)
    ensures |r| <= |s|
  {
    TrimEnd(TrimStart(s))
  }

  /** A stripped text neither starts nor ends with a space, and it is empty exactly
      when the text is all spaces. */
  lemma {:induction false} StripEnds(s: string)
    ensures Strip(s) == [] || (!IsSpace(Strip(s)[0]) && !IsSpace(Strip(s)[|Strip(s)| - 1]))
    ensures Strip(s) == [] <==> forall j :: 0 <= j < |s| ==> IsSpace(s[j])
  {
    var t := TrimStart(s);
    assert t == [] ==> forall j :: 0 <= j < |s| ==> IsSpace(s[j]);
  }

  /** Stripping yields a contiguous piece of the input. */
  lemma {:induction false} StripIsSlice(s: string) returns (a: nat)
    ensures a + |Strip(s)| <= |s| && Strip(s) == s[a..a + |Strip(s)|]
  {
    var t := TrimStart(s);
    a := |s| - |t|;
    assert TrimEnd(t) == t[..|TrimEnd(t)|];
  }

  /** A text that neither starts nor ends with a space is its own strip. */
  lemma {:induction false} StripUnpadded(s: string)
    requires s != [] && !IsSpace(s[0]) && !IsSpace(s[|s| - 1])
    ensures Strip(s) == s
  {
    assert RunEnd(s, 0, IsSpace) == 0;
    assert TrimStart(s) == s;
  }

  /** Stripping twice is stripping once. */
  lemma {:induction false} StripIdempotent(s: string)
    ensures Strip(Strip(s)) == Strip(s)
  {
    var r := Strip(s);
    if r != [] {
      assert RunEnd(r, 0, IsSpace) == 0;
      assert TrimStart(r) == r;
    }
  }

  /** `[x.strip() for x in xs]`. */
  function StripAll(xs: seq<string>): (r: seq<string>)
    ensures |r| == |xs| && forall k :: 0 <= k < |xs| ==> r[k] == Strip(xs[k])
  {
    if xs == [] then [] else [Strip(xs[0])] + StripAll(xs[1..])
  }

  lemma StripAllCons(x: string, xs: seq<string>)
    ensures StripAll([x] + xs) == [Strip(x)] + StripAll(xs)
  {
    assert ([x] + xs)[1..] == xs;
  }

  /** Python's `s.strip(c)` for a single character `c`. */
  function StripChar(s: string, c: char): (r: string)
    ensures |r| <= |s|
    ensures r == [] || (r[0] != c && r[|r| - 1] != c)
    decreases |s|
  {
    if s == [] then s
    else if s[0] == c then StripChar(s[1..], c)
    else if s[|s| - 1] == c then StripChar(s[..|s| - 1], c)
    else s
  }

  /** Python's `s.split(sep)` for a non-empty separator, from position `i` on. */
  function SplitFrom(s: string, sep: string, i: nat): (r: seq<string>)
    requires |sep| > 0 && i <= |s|
    ensures |r| >= 1
    decreases |s| - i
  {
    match FindFrom(s, sep, i)
    case None => [s[i..]]
    case Some(j) => [s[i..j]] + SplitFrom(s, sep, j + |sep|)
  }

  function Split(s: string, sep: string): (r: seq<string>)
    requires |sep| > 0
  {
    SplitFrom(s, sep, 0)
  }

  /** Python's `sep.join(parts)`. */
  function Join(parts: seq<string>, sep: string): (r: string)
    ensures parts == [] ==> r == ""
    ensures |parts| == 1 ==> r == parts[0]
  {
    if |parts| == 0 then ""
    else if |parts| == 1 then parts[0]
    else parts[0] + sep + Join(parts[1..], sep)
  }

  /** Joining one more part appends the separator and the part. */
  lemma {:induction false} JoinSnoc(parts: seq<string>, x: string, sep: string)
    requires parts != []
    ensures Join(parts + [x], sep) == Join(parts, sep) + sep + x
  {
    if |parts| > 1 {
      JoinSnoc(parts[1..], x, sep);
      assert (parts + [x])[1..] == parts[1..] + [x];
    }
  }

  /** Joining what `split` produced gives back the text: the two are inverse. */
  lemma {:induction false} JoinSplitFrom(s: string, sep: string, i: nat)
    requires |sep| > 0 && i <= |s|
    ensures Join(SplitFrom(s, sep, i), sep) == s[i..]
    decreases |s| - i
  {
    match FindFrom(s, sep, i)
    case None =>
    case Some(j) =>
      JoinSplitFrom(s, sep, j + |sep|);
      JoinCons(s[i..j], SplitFrom(s, sep, j + |sep|), sep);
      SliceAround(s, i, j, sep);
  }

  /** Joining a part in front of a non-empty list puts a separator between. */
  lemma {:induction false} JoinCons(x: string, rest: seq<string>, sep: string)
    requires rest != []
    ensures Join([x] + rest, sep) == x + sep + Join(rest, sep)
  {
    assert ([x] + rest)[1..] == rest;
  }

  /** The text from `i` is the text up to an occurrence, the occurrence and the rest. */
  lemma {:induction false} SliceAround(s: string, i: nat, j: nat, sep: string)
    requires i <= j && OccursAt(s, sep, j)
    ensures s[i..] == s[i..j] + sep + s[j + |sep|..]
  {
    assert s[i..] == s[i..j] + s[j..j + |sep|] + s[j + |sep|..];
  }

  lemma {:induction false} JoinSplit(s: string, sep: string)
    requires |sep| > 0
    ensures Join(Split(s, sep), sep) == s
  {
    JoinSplitFrom(s, sep, 0);
  }

  /** No piece that `split` produces contains the separator. */
  lemma {:induction false} SplitPiecesFrom(s: string, sep: string, i: nat)
    requires |sep| > 0 && i <= |s|
    ensures forall k :: 0 <= k < |SplitFrom(s, sep, i)| ==> !Contains(SplitFrom(s, sep, i)[k], sep)
    decreases |s| - i
  {
    var r := SplitFrom(s, sep, i);
    match FindFrom(s, sep, i)
    case None =>
      NoOccurrenceInSlice(s, sep, i, |s|);
      assert s[i..|s|] == s[i..];
    case Some(j) =>
      SplitPiecesFrom(s, sep, j + |sep|);
      NoOccurrenceInSlice(s, sep, i, j);
      assert r == [s[i..j]] + SplitFrom(s, sep, j + |sep|);
  }

  /** No piece of a split on one character holds that character. */
  lemma {:induction false} SplitPiecesLackChar(s: string, c: char)
    ensures forall k :: 0 <= k < |Split(s, [c])| ==> c !in Split(s, [c])[k]
  {
    SplitPiecesFrom(s, [c], 0);
    forall k | 0 <= k < |Split(s, [c])| ensures c !in Split(s, [c])[k] {
      ContainsChar(Split(s, [c])[k], c);
    }
  }

  /** A slice of `s` in which `s` has no occurrence starting does not contain `sub`. */
  lemma {:induction false} NoOccurrenceInSlice(s: string, sub: string, a: nat, b: nat)
    requires |sub| > 0 && a <= b <= |s|
    requires forall j :: a <= j < b ==> !OccursAt(s, sub, j)
    ensures !Contains(s[a..b], sub)
  {
    var t := s[a..b];
    var f := FindFrom(t, sub, 0);
    if f.Some? {
      var k := f.value;
      assert k + |sub| <= |t|;
      forall m | k <= m < k + |sub| ensures t[m] == s[a + m] { }
      assert t[k..k + |sub|] == s[a + k..a + k + |sub|];
      assert OccursAt(s, sub, a + k);
      assert false;
    }
  }

  /** Splitting a join of separator-free pieces gives the pieces back. */
  lemma {:induction false} SplitJoin(parts: seq<string>, c: char)
    requires |parts| >= 1
    requires forall k :: 0 <= k < |parts| ==> !Contains(parts[k], [c])
    ensures Split(Join(parts, [c]), [c]) == parts
  {
    if |parts| == 1 {
      NoCharFindNone(parts[0], c, 0);
    } else {
      var rest := Join(parts[1..], [c]);
      assert Join(parts, [c]) == parts[0] + [c] + rest;
      SplitJoin(parts[1..], c);
      SplitCons(parts[0], c, rest);
      assert parts == [parts[0]] + parts[1..];
    }
  }

  /** Splitting at the first separator, which ends a separator-free part. */
  lemma {:induction false} SplitCons(x: string, c: char, rest: string)
    requires !Contains(x, [c])
    ensures Split(x + [c] + rest, [c]) == [x] + Split(rest, [c])
  {
    var s := x + [c] + rest;
    var n := |x|;
    FirstCharAfter(x, c, rest);
    SplitFromShift(x + [c], rest, c);
    assert s[..n] == x;
  }

  /** The separator after a part free of it is the first one. */
  lemma {:induction false} FirstCharAfter(x: string, c: char, rest: string)
    requires !Contains(x, [c])
    ensures FindFrom(x + [c] + rest, [c], 0) == Some(|x|)
  {
    var s := x + [c] + rest;
    var n := |x|;
    NoCharFindNone(x, c, 0);
    assert OccursAt(s, [c], n) by { assert s[n..n + 1] == [c]; }
    forall j | 0 <= j < n ensures !OccursAt(s, [c], j) {
      assert s[j] == x[j];
      assert !OccursAt(x, [c], j);
      assert x[j..j + 1] == [x[j]];
      assert s[j..j + 1] == [s[j]];
    }
    FindFromFirst(s, [c], 0, n);
  }

  lemma {:induction false} NoCharFindNone(p: string, c: char, i: nat)
    requires !Contains(p, [c])
    ensures forall j :: !OccursAt(p, [c], j)
  {
    assert FindFrom(p, [c], 0).None?;
  }

  lemma {:induction false} FindFromFirst(s: string, sub: string, i: nat, n: nat)
    requires i <= n && OccursAt(s, sub, n)
    requires forall j :: i <= j < n ==> !OccursAt(s, sub, j)
    ensures FindFrom(s, sub, i) == Some(n)
    decreases n - i
  {
    if i < n {
      FindFromFirst(s, sub, i + 1, n);
    }
  }

  /** Splitting the part after a prefix is unaffected by the prefix. */
  lemma {:induction false} SplitFromShift(p: string, t: string, c: char)
    ensures SplitFrom(p + t, [c], |p|) == Split(t, [c])
  {
    assert (p + t)[|p|..] == t;
    SplitFromSuffix(p + t, |p|, c, 0);
  }

  /** Splitting from `k + i` reads only the suffix `s[k..]`. */
  lemma {:induction false} SplitFromSuffix(s: string, k: nat, c: char, i: nat)
    requires k + i <= |s|
    ensures SplitFrom(s, [c], k + i) == SplitFrom(s[k..], [c], i)
    decreases |s| - k - i
  {
    FindFromSuffix(s, k, [c], i);
    match FindFrom(s[k..], [c], i)
    case None =>
      SplitFromSuffixLast(s, k, c, i);
    case Some(j) =>
      var n := j + 1;
      SplitFromSuffix(s, k, c, n);
      SplitFromSuffixStep(s, k, c, i, j, n);
  }

  lemma SplitFromSuffixLast(s: string, k: nat, c: char, i: nat)
    requires k + i <= |s|
    requires FindFrom(s[k..], [c], i).None? && FindFrom(s, [c], k + i).None?
    ensures SplitFrom(s, [c], k + i) == SplitFrom(s[k..], [c], i)
  {
    assert s[k..][i..] == s[k + i..];
  }

  lemma SplitFromSuffixStep(s: string, k: nat, c: char, i: nat, j: nat, n: nat)
    requires k + i <= |s| && n == j + 1
    requires FindFrom(s[k..], [c], i) == Some(j)
    requires FindFrom(s, [c], k + i) == Some(k + j)
    requires SplitFrom(s, [c], k + n) == SplitFrom(s[k..], [c], n)
    ensures SplitFrom(s, [c], k + i) == SplitFrom(s[k..], [c], i)
  {
    SplitFromFound(s[k..], c, i, j);
    SplitFromFound(s, c, k + i, k + j);
    assert k + j + 1 == k + n;
    assert s[k..][i..j] == s[k + i..k + j];
  }

  /** One step of `SplitFrom` once the next separator is known. */
  lemma SplitFromFound(s: string, c: char, i: nat, j: nat)
    requires i <= |s| && FindFrom(s, [c], i) == Some(j)
    ensures j + 1 <= |s|
    ensures SplitFrom(s, [c], i) == [s[i..j]] + SplitFrom(s, [c], j + 1)
  {
  }

  lemma {:induction false} FindFromSuffix(s: string, k: nat, sub: string, i: nat)
    requires k + i <= |s|
    ensures FindFrom(s, sub, k + i) == match FindFrom(s[k..], sub, i)
                                         case None => None
                                         case Some(j) => Some(k + j)
    decreases |s| - k - i
  {
    if k + i + |sub| <= |s| {
      assert s[k..][i..i + |sub|] == s[k + i..k + i + |sub|];
      if !OccursAt(s, sub, k + i) {
        FindFromSuffix(s, k, sub, i + 1);
      }
    }
  }

  /** Python's `s.split()`: maximal runs of non-space characters, from position `i`. */
  function TokensFrom(s: string, i: nat): (r: seq<string>)
    requires i <= |s|
    ensures forall k :: 0 <= k < |r| ==> r[k] != [] && forall j :: 0 <= j < |r[k]| ==> !IsSpace(r[k][j])
    ensures r == [] <==> forall j :: i <= j < |s| ==> IsSpace(s[j])
    decreases |s| - i
  {
    var a := RunEnd(s, i, IsSpace);
    if a == |s| then []
    else
      var b := RunEnd(s, a, IsNotSpace);
      [s[a..b]] + TokensFrom(s, b)
  }

  function Tokens(s: string): seq<string> {
    TokensFrom(s, 0)
  }

  function LowerChar(c: char): char {
    if 'A' <= c <= 'Z' then (c as int + 32) as char else c
  }

  /** Python's `s.lower()`, ASCII letters only. */
  function Lower(s: string): (r: string)
    ensures |r| == |s|
    ensures forall j :: 0 <= j < |s| ==> r[j] == LowerChar(s[j])
  {
    if s == [] then [] else [LowerChar(s[0])] + Lower(s[1..])
  }

  function DigitChar(d: nat): char
    requires d < 10
  {
    ('0' as int + d) as char
  }

  /** Python's `str(n)` for a non-negative integer. */
  function NatToString(n: nat): (r: string)
    ensures r != []
    ensures forall j :: 0 <= j < |r| ==> IsDigit(r[j])
  {
    if n < 10 then [DigitChar(n)] else NatToString(n / 10) + [DigitChar(n % 10)]
  }

  /** Python's `s.replace(target, replacement, 1)`. */
  function ReplaceFirst(s: string, target: string, replacement: string): (r: string)
  {
    match FindFrom(s, target, 0)
    case None => s
    case Some(j) => s[..j] + replacement + s[j + |target|..]
  }

  lemma {:induction false} ReplaceFirstOfPrefix(s: string, target: string, replacement: string)
    requires StartsWith(s, target)
    ensures ReplaceFirst(s, target, replacement) == replacement + s[|target|..]
  {
    assert OccursAt(s, target, 0);
    FindFromFirst(s, target, 0, 0);
  }

  /** The end of a run is determined by where the run stops. */
  lemma {:induction false} RunEndAt(s: string, i: nat, p: char -> bool, k: nat)
    requires i <= k <= |s|
    requires forall j :: i <= j < k ==> p(s[j])
    requires k == |s| || !p(s[k])
    ensures RunEnd(s, i, p) == k
  {
  }

  /** For a one-character needle, `Contains` is plain membership. */
  lemma {:induction false} ContainsChar(s: string, c: char)
    ensures Contains(s, [c]) <==> c in s
  {
    if c in s {
      var j :| 0 <= j < |s| && s[j] == c;
      assert s[j..j + 1] == [c];
      assert OccursAt(s, [c], j);
    }
    if Contains(s, [c]) {
      var j := FindFrom(s, [c], 0).value;
      assert s[j..j + 1][0] == s[j];
    }
  }
}

