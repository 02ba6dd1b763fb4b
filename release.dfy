/** The version-bump logic of release.py: checking a `MAJOR.MINOR.PATCH`
    string, reading the current version out of setup.py, rewriting the version
    in each listed file, and the prompt loop and bookkeeping of `main`. The
    working tree is a map from path to file text; JSON parsing and printing are
    parameters (`decode`, `dumps`) because only their results matter here. */
module Release {
  import opened PyValues

  type Files = map<string, string>

  // ---- str.strip() ----

  /** `str.isspace()` for one character: the characters Python strips by default. */
  predicate IsSpace(c: char)
  {
    || ('\U{09}' <= c <= '\U{0D}')
    || ('\U{1C}' <= c <= '\U{20}')
    || c == '\U{85}' || c == '\U{A0}' || c == '\U{1680}'
    || ('\U{2000}' <= c <= '\U{200A}')
    || c == '\U{2028}' || c == '\U{2029}' || c == '\U{202F}' || c == '\U{205F}' || c == '\U{3000}'
  }

  /** Index of the first non-space character at or after `k`. */
  function SkipSpaces(s: string, k: nat): (n: nat)
    requires k <= |s|
    ensures k <= n <= |s|
    ensures forall i :: k <= i < n ==> IsSpace(s[i])
    ensures n < |s| ==> !IsSpace(s[n])
    decreases |s| - k
  {
    if k < |s| && IsSpace(s[k]) then SkipSpaces(s, k + 1) else k
  }

  /** Index just past the last non-space character of `s[lo..m]`. */
  function TrimSpaces(s: string, lo: nat, m: nat): (e: nat)
    requires lo <= m <= |s|
    ensures lo <= e <= m
    ensures forall i :: e <= i < m ==> IsSpace(s[i])
    ensures e > lo ==> !IsSpace(s[e - 1])
    decreases m
  {
    if m > lo && IsSpace(s[m - 1]) then TrimSpaces(s, lo, m - 1) else m
  }

  /** `s.strip()`: the middle of `s` left after removing whitespace at both ends. */
  function Strip(s: string): (r: string)
    ensures r == [] || (!IsSpace(r[0]) && !IsSpace(r[|r| - 1]))
  {
    var lo := SkipSpaces(s, 0);
    s[lo..TrimSpaces(s, lo, |s|)]
  }

  /** Only whitespace is removed, and only at the two ends. */
  lemma StripRemovesSpaces(s: string)
    ensures exists lo, hi ::
      && 0 <= lo <= hi <= |s| && Strip(s) == s[lo..hi]
      && (forall i :: 0 <= i < lo ==> IsSpace(s[i]))
      && (forall i :: hi <= i < |s| ==> IsSpace(s[i]))
  {
    var lo := SkipSpaces(s, 0);
    var hi := TrimSpaces(s, lo, |s|);
    assert Strip(s) == s[lo..hi];
  }

  // ---- validate_version ----

  predicate IsDigit(c: char)
  {
    '0' <= c <= '9'
  }

  /** `MAJOR.MINOR.PATCH`: three non-empty digit runs joined by single dots. */
  predicate IsRelease(v: string)
  {
    exists a, b ::
      && 0 < a && a + 1 < b && b + 1 < |v| && v[a] == '.' && v[b] == '.'
      && forall i :: 0 <= i < |v| && i != a && i != b ==> IsDigit(v[i])
  }

  /** Index just past the run of digits that starts at `k` (the greedy `\d+`). */
  function DigitRunEnd(s: string, k: nat): (e: nat)
    requires k <= |s|
    ensures k <= e <= |s|
    ensures forall i :: k <= i < e ==> IsDigit(s[i])
    ensures e < |s| ==> !IsDigit(s[e])
    decreases |s| - k
  {
    if k < |s| && IsDigit(s[k]) then DigitRunEnd(s, k + 1) else k
  }

  /** `validate_version`: `re.match(r'^\d+\.\d+\.\d+$', v)`. The `$` also
      matches just before a final newline. */
  predicate ValidateVersion(v: string)
  {
    var a := DigitRunEnd(v, 0);
    0 < a < |v| && v[a] == '.' &&
    var b := DigitRunEnd(v, a + 1);
    a + 1 < b < |v| && v[b] == '.' &&
    var c := DigitRunEnd(v, b + 1);
    b + 1 < c && (c == |v| || (c == |v| - 1 && v[c] == '\n'))
  }

  /** A digit run that is followed by a non-digit, or by the end, ends there. */
  lemma {:induction false} DigitRunEndAt(s: string, k: nat, e: nat)
    requires k <= e <= |s|
    requires forall i :: k <= i < e ==> IsDigit(s[i])
    requires e == |s| || !IsDigit(s[e])
    ensures DigitRunEnd(s, k) == e
    decreases e - k
  {
    if k < e {
      DigitRunEndAt(s, k + 1, e);
    }
  }

  /** `validate_version` holds for a release string, optionally followed by one newline, and nothing else. */
  lemma ValidateVersionMeaning(v: string)
    ensures ValidateVersion(v) <==>
      IsRelease(v) || (|v| > 0 && v[|v| - 1] == '\n' && IsRelease(v[..|v| - 1]))
  {
    if ValidateVersion(v) {
      ValidatedIsRelease(v);
    }
    if IsRelease(v) {
      ReleaseValidates(v, |v|);
    }
    if |v| > 0 && v[|v| - 1] == '\n' && IsRelease(v[..|v| - 1]) {
      ReleaseValidates(v, |v| - 1);
    }
  }

  /** What passes is a release string, perhaps followed by one newline. */
  lemma ValidatedIsRelease(v: string)
    requires ValidateVersion(v)
    ensures IsRelease(v) || (|v| > 0 && v[|v| - 1] == '\n' && IsRelease(v[..|v| - 1]))
  {
    var a := DigitRunEnd(v, 0);
    var b := DigitRunEnd(v, a + 1);
    var c := DigitRunEnd(v, b + 1);
    var w := v[..c];
    assert forall i :: 0 <= i < |w| && i != a && i != b ==> IsDigit(w[i]);
    assert IsRelease(w);
    if c == |v| {
      assert w == v;
    } else {
      assert w == v[..|v| - 1];
    }
  }

  /** `v[..n]` is a release string and `v` adds at most a newline to it. */
  lemma ReleaseValidates(v: string, n: nat)
    requires n <= |v| && IsRelease(v[..n])
    requires n == |v| || (n + 1 == |v| && v[n] == '\n')
    ensures ValidateVersion(v)
  {
    var w := v[..n];
    var a, b :| && 0 < a && a + 1 < b && b + 1 < |w| && w[a] == '.' && w[b] == '.'
      && forall i :: 0 <= i < |w| && i != a && i != b ==> IsDigit(w[i]);
    assert forall i :: 0 <= i < n ==> v[i] == w[i];
    RunsValidate(v, a, b, n);
  }

  /** Digit runs `[0, a)`, `(a, b)` and `(b, n)` with dots at `a` and `b`, and
      at most a newline after `n`. */
  lemma RunsValidate(v: string, a: nat, b: nat, n: nat)
    requires 0 < a && a + 1 < b && b + 1 < n <= |v| && v[a] == '.' && v[b] == '.'
    requires forall i :: 0 <= i < n && i != a && i != b ==> IsDigit(v[i])
    requires n == |v| || (n + 1 == |v| && v[n] == '\n')
    ensures ValidateVersion(v)
  {
    DigitRunEndAt(v, 0, a);
    DigitRunEndAt(v, a + 1, b);
    DigitRunEndAt(v, b + 1, n);
  }

  /** On stripped input the trailing-newline allowance cannot apply, so a
      stripped version passes exactly when it is a release string. */
  lemma StrippedVersionValid(s: string)
    ensures ValidateVersion(Strip(s)) <==> IsRelease(Strip(s))
  {
    ValidateVersionMeaning(Strip(s));
  }

  /** A release string holds only digits and dots. */
  lemma ReleaseCharacters(v: string)
    requires IsRelease(v)
    ensures forall i :: 0 <= i < |v| ==> IsDigit(v[i]) || v[i] == '.'
  {
    var a, b :| && 0 < a && a + 1 < b && b + 1 < |v| && v[a] == '.' && v[b] == '.'
      && forall i :: 0 <= i < |v| && i != a && i != b ==> IsDigit(v[i]);
  }

  // ---- get_current_version ----

  const VersionPrefix: string := "version=\""

  /** Index of the first `"` at or after `k` (|s| when there is none). */
  function QuoteAt(s: string, k: nat): (e: nat)
    requires k <= |s|
    ensures k <= e <= |s|
    ensures forall i :: k <= i < e ==> s[i] != '"'
    ensures e < |s| ==> s[e] == '"'
    decreases |s| - k
  {
    if k < |s| && s[k] != '"' then QuoteAt(s, k + 1) else k
  }

  /** A quote-free stretch followed by a quote, or by the end, ends there. */
  lemma {:induction false} QuoteAtIs(s: string, k: nat, e: nat)
    requires k <= e <= |s|
    requires forall i :: k <= i < e ==> s[i] != '"'
    requires e == |s| || s[e] == '"'
    ensures QuoteAt(s, k) == e
    decreases e - k
  {
    if k < e {
      QuoteAtIs(s, k + 1, e);
    }
  }

  /** The text `version="([^"]+)"` captures when matched at index `i`. The
      greedy `[^"]+` must stop at a quote, so it takes the whole quote-free run. */
  function CaptureAt(s: string, i: nat): (c: Option<string>)
    ensures c.Some? ==> c.value != [] && '"' !in c.value
  {
    if OccursAt(s, VersionPrefix, i) then
      var start := i + |VersionPrefix|;
      var e := QuoteAt(s, start);
      if start < e < |s| then Some(s[start..e]) else None
    else None
  }

  /** `version="([^"]+)"` matches at `i` capturing `v` exactly when `v` is a
      non-empty quote-free text and `version="<v>"` occurs at `i`. */
  lemma CaptureAtMeaning(s: string, i: nat, v: string)
    ensures CaptureAt(s, i) == Some(v) <==>
      v != [] && '"' !in v && OccursAt(s, VersionPrefix + v + "\"", i)
  {
    if CaptureAt(s, i) == Some(v) {
      CaptureOccurs(s, i);
    }
    if v != [] && '"' !in v && OccursAt(s, VersionPrefix + v + "\"", i) {
      OccursCaptures(s, i, v);
    }
  }

  /** A capture is followed by its closing quote. */
  lemma CaptureOccurs(s: string, i: nat)
    requires CaptureAt(s, i).Some?
    ensures OccursAt(s, VersionPrefix + CaptureAt(s, i).value + "\"", i)
  {
    var start := i + |VersionPrefix|;
    var e := QuoteAt(s, start);
    assert s[i..start] == VersionPrefix;
    assert s[i..e + 1] == s[i..start] + s[start..e] + [s[e]];
  }

  /** A piece of an occurrence is the matching piece of the text. */
  lemma OccursSlice(s: string, w: string, i: nat, a: nat, b: nat)
    requires OccursAt(s, w, i) && a <= b <= |w|
    ensures s[i + a..i + b] == w[a..b]
  {
    assert s[i..i + |w|] == w;
    forall k | 0 <= k < b - a ensures s[i + a..i + b][k] == w[a..b][k] {
      assert w[a + k] == s[i..i + |w|][a + k] == s[i + a + k];
    }
  }

  /** `version="<v>"` at `i`, with `v` non-empty and quote-free, is a capture of `v`. */
  lemma OccursCaptures(s: string, i: nat, v: string)
    requires v != [] && '"' !in v && OccursAt(s, VersionPrefix + v + "\"", i)
    ensures CaptureAt(s, i) == Some(v)
  {
    var w := VersionPrefix + v + "\"";
    var p := |VersionPrefix|;
    var start := i + p;
    OccursSlice(s, w, i, 0, p);
    assert w[0..p] == VersionPrefix;
    OccursSlice(s, w, i, p, p + |v|);
    assert w[p..p + |v|] == v;
    OccursSlice(s, w, i, p + |v|, |w|);
    assert w[p + |v|..|w|] == "\"";
    assert s[start + |v|] == '"';
    forall k | start <= k < start + |v| ensures s[k] != '"' {
      assert s[k] == s[start..start + |v|][k - start];
    }
    QuoteAtIs(s, start, start + |v|);
  }

  /** The leftmost index at or after `i` where the pattern matches (`re.search`). */
  function FirstCapture(s: string, i: nat): (j: Option<nat>)
    requires i <= |s|
    ensures j.Some? ==> i <= j.value <= |s| && CaptureAt(s, j.value).Some?
    ensures j.Some? ==> forall k :: i <= k < j.value ==> CaptureAt(s, k).None?
    ensures j.None? ==> forall k :: i <= k <= |s| ==> CaptureAt(s, k).None?
    decreases |s| - i
  {
    if CaptureAt(s, i).Some? then Some(i)
    else if i == |s| then None
    else FirstCapture(s, i + 1)
  }

  /** `get_current_version`: the first `version="..."` value in setup.py. */
  function CurrentVersion(fs: Files): (v: Option<string>)
    ensures v.Some? ==> "setup.py" in fs && v.value != [] && '"' !in v.value
  {
    if "setup.py" !in fs then None
    else match FirstCapture(fs["setup.py"], 0)
      case None => None
      case Some(j) => CaptureAt(fs["setup.py"], j)
  }

  /** The current version is a non-empty quote-free text that setup.py holds as
      `version="<it>"`, at the first place where that shape occurs; there is
      none exactly when setup.py is missing or has no such text. */
  lemma CurrentVersionFound(fs: Files)
    ensures CurrentVersion(fs).None? <==>
      "setup.py" !in fs || forall k :: 0 <= k <= |fs["setup.py"]| ==> CaptureAt(fs["setup.py"], k).None?
    ensures CurrentVersion(fs).Some? ==>
      exists j :: 0 <= j <= |fs["setup.py"]| && CaptureAt(fs["setup.py"], j) == CurrentVersion(fs) &&
        forall k :: 0 <= k < j ==> CaptureAt(fs["setup.py"], k).None?
    ensures CurrentVersion(fs).Some? ==>
      var v := CurrentVersion(fs).value;
      && v != [] && '"' !in v
      && Contains(fs["setup.py"], VersionPrefix + v + "\"")
  {
    if CurrentVersion(fs).Some? {
      var s := fs["setup.py"];
      var j := FirstCapture(s, 0).value;
      var v := CurrentVersion(fs).value;
      var start := j + |VersionPrefix|;
      var e := QuoteAt(s, start);
      assert s[j..e + 1] == VersionPrefix + v + "\"" by {
        assert s[j..start] == VersionPrefix;
        assert s[start..e] == v;
        assert s[j..e + 1] == s[j..start] + s[start..e] + [s[e]];
      }
      assert OccursAt(s, VersionPrefix + v + "\"", j);
      assert '"' !in v by {
        forall i | 0 <= i < |v| ensures v[i] != '"' { assert v[i] == s[start + i]; }
      }
    }
  }

  // ---- re.sub with a literal pattern ----

  /** `re.sub(re.escape(pat), rep, s)` for a replacement without backslashes:
      every leftmost, non-overlapping occurrence of `pat` becomes `rep`. */
  function ReplaceAll(s: string, pat: string, rep: string): string
    requires |pat| > 0
    decreases |s|
  {
    if |s| < |pat| then s
    else if s[..|pat|] == pat then rep + ReplaceAll(s[|pat|..], pat, rep)
    else [s[0]] + ReplaceAll(s[1..], pat, rep)
  }

  /** Replacing with a text as long as the pattern keeps the length. */
  lemma {:induction false} ReplaceAllLength(s: string, pat: string, rep: string)
    requires |pat| > 0 && |pat| == |rep|
    ensures |ReplaceAll(s, pat, rep)| == |s|
    decreases |s|
  {
    if |s| >= |pat| {
      if s[..|pat|] == pat {
        ReplaceAllLength(s[|pat|..], pat, rep);
      } else {
        ReplaceAllLength(s[1..], pat, rep);
      }
    }
  }

  lemma ContainsTail(s: string, pat: string)
    requires |s| > 0 && Contains(s[1..], pat)
    ensures Contains(s, pat)
  {
    var i :| 0 <= i <= |s[1..]| - |pat| && OccursAt(s[1..], pat, i);
    assert s[i + 1..i + 1 + |pat|] == s[1..][i..i + |pat|];
    assert OccursAt(s, pat, i + 1);
  }

  /** Text without the pattern is left exactly as it is. */
  lemma {:induction false} ReplaceAllAbsent(s: string, pat: string, rep: string)
    requires |pat| > 0 && !Contains(s, pat)
    ensures ReplaceAll(s, pat, rep) == s
    decreases |s|
  {
    if |s| >= |pat| {
      assert !OccursAt(s, pat, 0);
      if Contains(s[1..], pat) {
        ContainsTail(s, pat);
      }
      ReplaceAllAbsent(s[1..], pat, rep);
    }
  }

  /** Replacing a text by itself changes nothing: only the occurrences are touched. */
  lemma {:induction false} ReplaceAllSelf(s: string, pat: string)
    requires |pat| > 0
    ensures ReplaceAll(s, pat, pat) == s
    decreases |s|
  {
    if |s| >= |pat| {
      if s[..|pat|] == pat {
        ReplaceAllSelf(s[|pat|..], pat);
        assert s == s[..|pat|] + s[|pat|..];
      } else {
        ReplaceAllSelf(s[1..], pat);
        assert s == [s[0]] + s[1..];
      }
    }
  }

  /** An occurrence in `s[1..]` is one in `s`, one place further on. */
  lemma OccursShift(s: string, pat: string, k: nat)
    requires |s| > 0
    ensures OccursAt(s[1..], pat, k) <==> OccursAt(s, pat, k + 1)
  {
    if k + 1 + |pat| <= |s| {
      assert s[1..][k..k + |pat|] == s[k + 1..k + 1 + |pat|];
    }
  }

  /** The scan goes left to right: text before the first occurrence is kept,
      that occurrence becomes `rep`, and the scan resumes after it. */
  lemma {:induction false} ReplaceAllLeftmost(s: string, pat: string, rep: string, i: nat)
    requires |pat| > 0 && OccursAt(s, pat, i)
    requires forall k :: 0 <= k < i ==> !OccursAt(s, pat, k)
    ensures ReplaceAll(s, pat, rep) == s[..i] + rep + ReplaceAll(s[i + |pat|..], pat, rep)
    decreases i
  {
    if i == 0 {
      assert s[..|pat|] == pat;
    } else {
      var t := s[1..];
      LeftmostShift(s, pat, i);
      ReplaceAllLeftmost(t, pat, rep, i - 1);
      DropShift(s, i + |pat|);
      ReplaceAllSkip(s, pat, rep, i, ReplaceAll(s[i + |pat|..], pat, rep));
    }
  }

  /** Dropping `j - 1` characters of `s[1..]` drops `j` of `s`. */
  lemma DropShift(s: string, j: nat)
    requires 0 < j <= |s|
    ensures s[1..][j - 1..] == s[j..]
  {
  }

  /** The first occurrence at `i > 0` is the first one of `s[1..]`, at `i - 1`. */
  lemma LeftmostShift(s: string, pat: string, i: nat)
    requires 0 < i && OccursAt(s, pat, i)
    requires forall k :: 0 <= k < i ==> !OccursAt(s, pat, k)
    ensures OccursAt(s[1..], pat, i - 1)
    ensures forall k :: 0 <= k < i - 1 ==> !OccursAt(s[1..], pat, k)
  {
    OccursShift(s, pat, i - 1);
    forall k | 0 <= k < i - 1 ensures !OccursAt(s[1..], pat, k) {
      OccursShift(s, pat, k);
    }
  }

  /** Without an occurrence at the front, the first character is kept and what
      the scan of the rest makes of it carries over. */
  lemma ReplaceAllSkip(s: string, pat: string, rep: string, i: nat, after: string)
    requires 0 < i && 0 < |pat| && i + |pat| <= |s| && !OccursAt(s, pat, 0)
    requires ReplaceAll(s[1..], pat, rep) == s[1..][..i - 1] + rep + after
    ensures ReplaceAll(s, pat, rep) == s[..i] + rep + after
  {
    ReplaceAllStep(s, pat, rep);
    PrependSlice(s, i, rep + after);
  }

  /** Putting the first character back in front of a slice of the rest. */
  lemma PrependSlice(s: string, i: nat, tail: string)
    requires 0 < i <= |s|
    ensures [s[0]] + (s[1..][..i - 1] + tail) == s[..i] + tail
  {
    assert [s[0]] + s[1..][..i - 1] == s[..i];
  }

  /** Without an occurrence at the front, the scan keeps the first character. */
  lemma ReplaceAllStep(s: string, pat: string, rep: string)
    requires 0 < |pat| <= |s| && !OccursAt(s, pat, 0)
    ensures ReplaceAll(s, pat, rep) == [s[0]] + ReplaceAll(s[1..], pat, rep)
  {
    assert s[..|pat|] != pat by { assert s[0..0 + |pat|] == s[..|pat|]; }
  }

  /** A text with a single occurrence: it is replaced and every other
      character is kept. */
  lemma ReplaceAllOnce(s: string, pat: string, rep: string, i: nat)
    requires |pat| > 0 && OccursAt(s, pat, i)
    requires forall k :: 0 <= k <= |s| && k != i ==> !OccursAt(s, pat, k)
    ensures ReplaceAll(s, pat, rep) == s[..i] + rep + s[i + |pat|..]
  {
    ReplaceAllLeftmost(s, pat, rep, i);
    var rest := s[i + |pat|..];
    assert !Contains(rest, pat) by {
      forall k | 0 <= k <= |rest| - |pat| ensures !OccursAt(rest, pat, k) {
        assert !OccursAt(s, pat, i + |pat| + k);
        assert s[i + |pat| + k..i + |pat| + k + |pat|] == rest[k..k + |pat|];
      }
    }
    ReplaceAllAbsent(rest, pat, rep);
  }

  // ---- update_version_in_file ----

  /** `Path(path).suffix == '.json'`: the last path component ends with `.json`
      and has something before that dot. */
  predicate IsJsonPath(path: string)
  {
    var name := LastComponent(path);
    |name| > 5 && name[|name| - 5..] == ".json"
  }

  /** A JSON path ends with `.json` after a non-empty, slash-free file stem. */
  lemma JsonPathSuffix(path: string)
    requires IsJsonPath(path)
    ensures |path| > 5 && path[|path| - 5..] == ".json" && path[|path| - 6] != '/'
  {
    var name := LastComponent(path);
    assert path[|path| - 5..] == name[|name| - 5..];
    assert path[|path| - 6] == name[|name| - 6];
  }

  /** The text after the last `/`: a slash-free end of the path that is the
      whole path or follows a `/`. */
  function LastComponent(path: string): (name: string)
    ensures |name| <= |path| && '/' !in name
    ensures name == path[|path| - |name|..]
    ensures |name| < |path| ==> path[|path| - |name| - 1] == '/'
    decreases |path|
  {
    if path == [] then []
    else if path[|path| - 1] == '/' then []
    else
      var prefix := path[..|path| - 1];
      var rest := LastComponent(prefix);
      assert path[|path| - |rest| - 1..] == prefix[|prefix| - |rest|..] + [path[|path| - 1]];
      rest + [path[|path| - 1]]
  }

  /** The two (pattern, replacement) pairs tried on a non-JSON file. */
  function VersionPatterns(oldVersion: string, newVersion: string): (ps: seq<(string, string)>)
    ensures |ps| == 2 && |ps[0].0| > 0 && |ps[1].0| > 0
  {
    [("version=\"" + oldVersion + "\"", "version=\"" + newVersion + "\""),
     ("version='" + oldVersion + "'", "version='" + newVersion + "'")]
  }

  predicate NonEmptyPatterns(ps: seq<(string, string)>)
  {
    forall i :: 0 <= i < |ps| ==> |ps[i].0| > 0
  }

  /** The pattern loop: each pattern that still occurs is replaced everywhere;
      the flag records whether any did. */
  function Rewrite(content: string, ps: seq<(string, string)>): (r: (string, bool))
    requires NonEmptyPatterns(ps)
    ensures !r.1 ==> r.0 == content
    decreases |ps|
  {
    if ps == [] then (content, false)
    else
      var found := Contains(content, ps[0].0);
      var next := if found then ReplaceAll(content, ps[0].0, ps[0].1) else content;
      var rest := Rewrite(next, ps[1..]);
      (rest.0, found || rest.1)
  }

  /** Some pattern is replaced exactly when some pattern occurs in the
      original text; otherwise the text is unchanged. */
  lemma {:induction false} RewriteUpdatedIff(content: string, ps: seq<(string, string)>)
    requires NonEmptyPatterns(ps)
    ensures Rewrite(content, ps).1 <==> exists i :: 0 <= i < |ps| && Contains(content, ps[i].0)
    ensures !Rewrite(content, ps).1 ==> Rewrite(content, ps).0 == content
  {
    if ps != [] {
      RewriteUpdatedIff(content, ps[1..]);
      if !Contains(content, ps[0].0) {
        assert forall i :: 1 <= i < |ps| ==> ps[i] == ps[1..][i - 1];
      }
    }
  }

  /** The `.json` branch: the text written, if any, and what is returned. The
      `in` test and the item assignment follow Python for every JSON value. */
  function JsonUpdate(content: string, newVersion: string, decode: string -> Option<Value>, dumps: Value -> string)
    : (r: (CallResult, Option<string>))
    ensures r.1.Some? <==> r.0 == Returned(Bool(true))
  {
    match decode(content)
    case None => (Returned(Bool(false)), None)
    case Some(data) =>
      match data
      case Obj(fields) =>
        if "version" in Keys(fields) then
          (Returned(Bool(true)), Some(dumps(Obj(DictSet(fields, "version", Str(newVersion)))) + "\n"))
        else (Returned(Null), None)
      case Arr(items) =>
        if PyIn(Str("version"), items) then (Raised("TypeError: list indices must be integers or slices, not str"), None)
        else (Returned(Null), None)
      case Str(s) =>
        if Contains(s, "version") then (Raised("TypeError: 'str' object does not support item assignment"), None)
        else (Returned(Null), None)
      case Int(_) => (Raised("TypeError: argument of type 'int' is not iterable"), None)
      case Real(_) => (Raised("TypeError: argument of type 'float' is not iterable"), None)
      case Bool(_) => (Raised("TypeError: argument of type 'bool' is not iterable"), None)
      case Null => (Raised("TypeError: argument of type 'NoneType' is not iterable"), None)
  }

  /** `update_version_in_file(path, old, new)` on the tree `fs`: its result and
      the tree afterwards. Only the named file can change, and no file appears
      or disappears. */
  function FileUpdate(fs: Files, path: string, oldVersion: string, newVersion: string,
                      decode: string -> Option<Value>, dumps: Value -> string): (r: (CallResult, Files))
    ensures r.1.Keys == fs.Keys
    ensures forall p :: p in fs && p != path ==> r.1[p] == fs[p]
  {
    if path !in fs then (Returned(Bool(false)), fs)
    else if IsJsonPath(path) then
      var (result, written) := JsonUpdate(fs[path], newVersion, decode, dumps);
      (result, if written.Some? then fs[path := written.value] else fs)
    else
      var (text, updated) := Rewrite(fs[path], VersionPatterns(oldVersion, newVersion));
      if updated then (Returned(Bool(true)), fs[path := text]) else (Returned(Bool(false)), fs)
  }

  /** A JSON file holding an object with a top-level `version`: the result is
      `True` and, read back, the file holds the same keys with only `version`
      changed. `dumps` is assumed to print what `decode` reads back. */
  lemma JsonFileUpdated(fs: Files, path: string, oldVersion: string, newVersion: string,
                        decode: string -> Option<Value>, dumps: Value -> string,
                        fields: seq<(string, Value)>, k: string)
    requires path in fs && IsJsonPath(path)
    requires decode(fs[path]) == Some(Obj(fields)) && "version" in Keys(fields)
    requires forall x :: decode(dumps(x) + "\n") == Some(x)
    ensures var (result, after) := FileUpdate(fs, path, oldVersion, newVersion, decode, dumps);
      && result == Returned(Bool(true)) && path in after
      && decode(after[path]).Some? && decode(after[path]).value.Obj?
      && Keys(decode(after[path]).value.fields) == Keys(fields)
      && Lookup(decode(after[path]).value.fields, k) == if k == "version" then Some(Str(newVersion)) else Lookup(fields, k)
  {
    var updated := DictSet(fields, "version", Str(newVersion));
    assert JsonUpdate(fs[path], newVersion, decode, dumps) == (Returned(Bool(true)), Some(dumps(Obj(updated)) + "\n"));
    assert decode(dumps(Obj(updated)) + "\n") == Some(Obj(updated));
    DictSetKeys(fields, "version", Str(newVersion));
    DictSetLookup(fields, "version", Str(newVersion), k);
  }

  /** A JSON file that does not parse gives `False`; one whose object has no
      top-level `version` gives `None`; neither is rewritten. */
  lemma JsonFileUntouched(fs: Files, path: string, oldVersion: string, newVersion: string,
                          decode: string -> Option<Value>, dumps: Value -> string)
    requires path in fs && IsJsonPath(path)
    requires decode(fs[path]).None? || (decode(fs[path]).value.Obj? && "version" !in Keys(decode(fs[path]).value.fields))
    ensures FileUpdate(fs, path, oldVersion, newVersion, decode, dumps) ==
      (Returned(if decode(fs[path]).None? then Bool(false) else Null), fs)
  {
  }

  /** For a non-JSON file the result is `True` exactly when `version="old"` or
      `version='old'` occurs in it, and the file then holds the text with every
      `version="old"` replaced by `version="new"` and, after that, every
      `version='old'` by `version='new'`; when neither occurs, the file is not
      rewritten. */
  lemma TextFileUpdated(fs: Files, path: string, oldVersion: string, newVersion: string,
                        decode: string -> Option<Value>, dumps: Value -> string)
    requires path in fs && !IsJsonPath(path)
    ensures var (result, after) := FileUpdate(fs, path, oldVersion, newVersion, decode, dumps);
      && (result == Returned(Bool(true)) <==>
            Contains(fs[path], "version=\"" + oldVersion + "\"") || Contains(fs[path], "version='" + oldVersion + "'"))
      && (result == Returned(Bool(true)) ==>
            after == fs[path := ReplaceAll(ReplaceAll(fs[path], "version=\"" + oldVersion + "\"", "version=\"" + newVersion + "\""),
                                           "version='" + oldVersion + "'", "version='" + newVersion + "'")])
      && (result != Returned(Bool(true)) ==> result == Returned(Bool(false)) && after == fs)
  {
    var ps := VersionPatterns(oldVersion, newVersion);
    RewriteUpdatedIff(fs[path], ps);
    if Contains(fs[path], ps[0].0) || Contains(fs[path], ps[1].0) {
      assert exists i :: 0 <= i < |ps| && Contains(fs[path], ps[i].0);
    }
    RewriteTwo(fs[path], ps);
  }

  /** Two patterns: each is replaced everywhere, the first before the second. */
  lemma RewriteTwo(content: string, ps: seq<(string, string)>)
    requires |ps| == 2 && NonEmptyPatterns(ps)
    ensures Rewrite(content, ps).0 == ReplaceAll(ReplaceAll(content, ps[0].0, ps[0].1), ps[1].0, ps[1].1)
  {
    var first := if Contains(content, ps[0].0) then ReplaceAll(content, ps[0].0, ps[0].1) else content;
    if !Contains(content, ps[0].0) {
      ReplaceAllAbsent(content, ps[0].0, ps[0].1);
    }
    var second := if Contains(first, ps[1].0) then ReplaceAll(first, ps[1].0, ps[1].1) else first;
    if !Contains(first, ps[1].0) {
      ReplaceAllAbsent(first, ps[1].0, ps[1].1);
    }
    assert ps[1..][1..] == [];
    assert ps[1..][0] == ps[1];
    assert Rewrite(first, ps[1..]).0 == Rewrite(second, []).0 == second;
    assert Rewrite(content, ps).0 == Rewrite(first, ps[1..]).0;
  }

  /** `update_version_in_file`: the suffix test, then either the JSON branch or
      the loop over the two patterns. */
  method UpdateVersionInFile(fs: Files, path: string, oldVersion: string, newVersion: string,
                             decode: string -> Option<Value>, dumps: Value -> string)
    returns (result: CallResult, after: Files)
    ensures (result, after) == FileUpdate(fs, path, oldVersion, newVersion, decode, dumps)
  {
    if path !in fs {
      return Returned(Bool(false)), fs;
    }
    var content := fs[path];
    if IsJsonPath(path) {
      var outcome := JsonUpdate(content, newVersion, decode, dumps);
      result := outcome.0;
      after := if outcome.1.Some? then fs[path := outcome.1.value] else fs;
      return;
    }
    var patterns := VersionPatterns(oldVersion, newVersion);
    var updated := false;
    var i := 0;
    while i < |patterns|
      invariant 0 <= i <= |patterns|
      invariant var rest := Rewrite(content, patterns[i..]);
        (rest.0, updated || rest.1) == Rewrite(fs[path], patterns)
    {
      var (pattern, replacement) := patterns[i];
      assert patterns[i..][1..] == patterns[i + 1..];
      if Contains(content, pattern) {
        content := ReplaceAll(content, pattern, replacement);
        updated := true;
      }
      i := i + 1;
    }
    if updated {
      return Returned(Bool(true)), fs[path := content];
    }
    return Returned(Bool(false)), fs;
  }

  // ---- main ----

  const FilesToUpdate: seq<string> := ["setup.py", "pyproject.toml", "mcp_server/server_config.json"]

  /** A typed answer `main` takes as the new version (after `strip()`). */
  predicate Acceptable(candidate: string, current: string)
  {
    candidate != [] && ValidateVersion(candidate) && candidate != current
  }

  /** The first answer that is accepted, or None when the answers run out
      (`input()` then raises `EOFError`). */
  function FirstAcceptable(current: string, answers: seq<string>): (r: Option<string>)
    ensures r.Some? ==> Acceptable(r.value, current)
  {
    if answers == [] then None
    else if Acceptable(Strip(answers[0]), current) then Some(Strip(answers[0]))
    else FirstAcceptable(current, answers[1..])
  }

  /** The accepted version is a stripped answer that is a release string other
      than the current one. */
  lemma AcceptedVersion(current: string, answers: seq<string>)
    requires FirstAcceptable(current, answers).Some?
    ensures IsRelease(FirstAcceptable(current, answers).value) && FirstAcceptable(current, answers).value != current
  {
    FirstAcceptableSpec(current, answers);
    var k :| 0 <= k < |answers| && FirstAcceptable(current, answers).value == Strip(answers[k]) &&
      (forall j :: 0 <= j < k ==> !Acceptable(Strip(answers[j]), current));
    StrippedVersionValid(answers[k]);
  }

  /** The accepted version is the first stripped answer that is acceptable:
      every earlier answer was refused; there is none exactly when every answer
      is refused. */
  lemma {:induction false} FirstAcceptableSpec(current: string, answers: seq<string>)
    ensures FirstAcceptable(current, answers).Some? ==>
      exists k :: 0 <= k < |answers| && FirstAcceptable(current, answers).value == Strip(answers[k]) &&
        Acceptable(Strip(answers[k]), current) &&
        (forall j :: 0 <= j < k ==> !Acceptable(Strip(answers[j]), current))
    ensures FirstAcceptable(current, answers).None? <==>
      forall k :: 0 <= k < |answers| ==> !Acceptable(Strip(answers[k]), current)
  {
    if answers != [] {
      FirstAcceptableSpec(current, answers[1..]);
      if !Acceptable(Strip(answers[0]), current) {
        if FirstAcceptable(current, answers).Some? {
          var k :| 0 <= k < |answers[1..]| && FirstAcceptable(current, answers).value == Strip(answers[1..][k]) &&
            Acceptable(Strip(answers[1..][k]), current) &&
            (forall j :: 0 <= j < k ==> !Acceptable(Strip(answers[1..][j]), current));
          assert answers[k + 1] == answers[1..][k];
          forall j | 0 <= j < k + 1 ensures !Acceptable(Strip(answers[j]), current) {
            if j > 0 { assert answers[j] == answers[1..][j - 1]; }
          }
        } else {
          forall k | 0 <= k < |answers| ensures !Acceptable(Strip(answers[k]), current) {
            if k > 0 { assert answers[k] == answers[1..][k - 1]; }
          }
        }
      } else {
        assert 0 <= 0 < |answers| && FirstAcceptable(current, answers).value == Strip(answers[0]);
      }
    }
  }

  /** The prompt loop of `main`: read, strip, reject empty, malformed or
      unchanged versions, repeat. */
  method ReadNewVersion(current: string, answers: seq<string>) returns (newVersion: Option<string>)
    ensures newVersion == FirstAcceptable(current, answers)
  {
    var i := 0;
    while i < |answers|
      invariant 0 <= i <= |answers|
      invariant FirstAcceptable(current, answers[i..]) == FirstAcceptable(current, answers)
    {
      assert answers[i..][1..] == answers[i + 1..];
      var candidate := Strip(answers[i]);
      i := i + 1;
      if candidate == [] {
        continue;
      }
      if !ValidateVersion(candidate) {
        continue;
      }
      if candidate == current {
        continue;
      }
      return Some(candidate);
    }
    return None;
  }

  /** What each `update_version_in_file` call of `main`'s loop ends with, file by
      file; after an exception there are no further calls. */
  function UpdateResults(fs: Files, paths: seq<string>, oldVersion: string, newVersion: string,
                         decode: string -> Option<Value>, dumps: Value -> string): (rs: seq<CallResult>)
    ensures |rs| <= |paths|
    ensures |rs| == |paths| || (|rs| > 0 && rs[|rs| - 1].Raised?)
    ensures forall i :: 0 <= i < |rs| - 1 ==> rs[i].Returned?
    ensures |rs| > 0 ==> rs[0] == FileUpdate(fs, paths[0], oldVersion, newVersion, decode, dumps).0
    decreases |paths|
  {
    if paths == [] then []
    else
      var (result, after) := FileUpdate(fs, paths[0], oldVersion, newVersion, decode, dumps);
      if result.Raised? then [result]
      else [result] + UpdateResults(after, paths[1..], oldVersion, newVersion, decode, dumps)
  }

  /** How many of the results are `True`. */
  function TrueCount(rs: seq<CallResult>): nat
  {
    if rs == [] then 0
    else (if rs[0] == Returned(Bool(true)) then 1 else 0) + TrueCount(rs[1..])
  }

  /** No result is `True` exactly when the count is zero. */
  lemma {:induction false} TrueCountZero(rs: seq<CallResult>)
    ensures TrueCount(rs) == 0 <==> forall i :: 0 <= i < |rs| ==> rs[i] != Returned(Bool(true))
  {
    if rs != [] {
      TrueCountZero(rs[1..]);
      assert forall i :: 1 <= i < |rs| ==> rs[i] == rs[1..][i - 1];
    }
  }

  /** Some call raised. */
  predicate AnyRaised(rs: seq<CallResult>)
  {
    exists i :: 0 <= i < |rs| && rs[i].Raised?
  }

  /** The results of the loop: the first file's, then, unless it raised, those
      of the rest on the tree it leaves. */
  lemma UpdateResultsStep(fs: Files, paths: seq<string>, oldVersion: string, newVersion: string,
                          decode: string -> Option<Value>, dumps: Value -> string)
    requires paths != []
    ensures var (result, after) := FileUpdate(fs, paths[0], oldVersion, newVersion, decode, dumps);
      UpdateResults(fs, paths, oldVersion, newVersion, decode, dumps) ==
        if result.Raised? then [result]
        else [result] + UpdateResults(after, paths[1..], oldVersion, newVersion, decode, dumps)
  {
  }

  /** A single result that raised: the loop stops on it. */
  lemma RaisedOnly(result: CallResult)
    requires result.Raised?
    ensures AnyRaised([result]) && [result][0] == result
  {
    assert [result][0].Raised?;
  }

  /** A first result that returned adds nothing raised, and one to the count
      when it is `True`. */
  lemma ReturnedFirst(result: CallResult, rest: seq<CallResult>)
    requires result.Returned?
    ensures AnyRaised([result] + rest) <==> AnyRaised(rest)
    ensures TrueCount([result] + rest) == (if result == Returned(Bool(true)) then 1 else 0) + TrueCount(rest)
    ensures rest != [] ==> ([result] + rest)[|rest|] == rest[|rest| - 1]
  {
    assert ([result] + rest)[1..] == rest;
    if AnyRaised(rest) {
      var i :| 0 <= i < |rest| && rest[i].Raised?;
      assert ([result] + rest)[i + 1].Raised?;
    }
    if AnyRaised([result] + rest) {
      var i :| 0 <= i < |rest| + 1 && ([result] + rest)[i].Raised?;
      assert rest[i - 1].Raised?;
    }
  }

  /** The update loop over the listed files from `fs`, counting `True` results
      from `count`; an exception ends it with the tree written so far. The count
      is that of the calls that returned `True`; the loop fails exactly when a
      call raised, with that call's message. */
  function UpdateFrom(fs: Files, paths: seq<string>, oldVersion: string, newVersion: string,
                      decode: string -> Option<Value>, dumps: Value -> string, count: nat)
    : (r: (Result<nat, string>, Files))
    ensures var rs := UpdateResults(fs, paths, oldVersion, newVersion, decode, dumps);
      && (r.0.Err? <==> AnyRaised(rs))
      && (r.0.Err? ==> r.0.error == rs[|rs| - 1].message)
      && (r.0.Ok? ==> r.0.value == count + TrueCount(rs))
    decreases |paths|
  {
    if paths == [] then (Ok(count), fs)
    else
      var (result, after) := FileUpdate(fs, paths[0], oldVersion, newVersion, decode, dumps);
      UpdateResultsStep(fs, paths, oldVersion, newVersion, decode, dumps);
      match result
      case Raised(message) =>
        RaisedOnly(result);
        (Err(message), after)
      case Returned(v) =>
        ReturnedFirst(result, UpdateResults(after, paths[1..], oldVersion, newVersion, decode, dumps));
        UpdateFrom(after, paths[1..], oldVersion, newVersion, decode, dumps, if v == Bool(true) then count + 1 else count)
  }

  /** Files not in the list are never touched and no file is created. */
  lemma {:induction false} UpdateFromFrame(fs: Files, paths: seq<string>, oldVersion: string, newVersion: string,
                                           decode: string -> Option<Value>, dumps: Value -> string, count: nat)
    ensures UpdateFrom(fs, paths, oldVersion, newVersion, decode, dumps, count).1.Keys == fs.Keys
    ensures forall p :: p in fs && p !in paths ==>
      UpdateFrom(fs, paths, oldVersion, newVersion, decode, dumps, count).1[p] == fs[p]
    decreases |paths|
  {
    if paths != [] {
      var (result, after) := FileUpdate(fs, paths[0], oldVersion, newVersion, decode, dumps);
      if result.Returned? {
        var v := result.value;
        UpdateFromFrame(after, paths[1..], oldVersion, newVersion, decode, dumps, if v == Bool(true) then count + 1 else count);
        forall p | p in fs && p !in paths
          ensures UpdateFrom(fs, paths, oldVersion, newVersion, decode, dumps, count).1[p] == fs[p]
        {
          assert p !in paths[1..];
        }
      }
    }
  }

  /** `main`'s `for file_path in files_to_update` loop with `success_count`. */
  method UpdateFiles(fs: Files, paths: seq<string>, oldVersion: string, newVersion: string,
                     decode: string -> Option<Value>, dumps: Value -> string)
    returns (successCount: Result<nat, string>, after: Files)
    ensures (successCount, after) == UpdateFrom(fs, paths, oldVersion, newVersion, decode, dumps, 0)
  {
    var count := 0;
    after := fs;
    var i := 0;
    while i < |paths|
      invariant 0 <= i <= |paths|
      invariant UpdateFrom(after, paths[i..], oldVersion, newVersion, decode, dumps, count) ==
        UpdateFrom(fs, paths, oldVersion, newVersion, decode, dumps, 0)
    {
      assert paths[i..][1..] == paths[i + 1..];
      var result;
      result, after := UpdateVersionInFile(after, paths[i], oldVersion, newVersion, decode, dumps);
      if result.Raised? {
        return Err(result.message), after;
      }
      if result.value == Bool(true) {
        count := count + 1;
      }
      i := i + 1;
    }
    return Ok(count), after;
  }

  /** How `main` ends, up to the point where git takes over: without a current
      version, when the answers run out, with an exception from a file update,
      with nothing updated, or with the files bumped and the tag to create. */
  datatype Outcome =
    | NoCurrentVersion
    | InputExhausted
    | Crashed(message: string)
    | NothingUpdated
    | Bumped(newVersion: string, tag: string, successCount: nat)

  /** `main`'s exit status for the outcomes it decides itself; `None` when it
      goes on to the git step. */
  function ExitCode(o: Outcome): Option<int>
  {
    match o
    case Bumped(_, _, _) => None
    case _ => Some(1)
  }

  /** `main` up to the git step, on the tree `fs` and the lines typed at the
      prompt: how it ends and the tree afterwards. */
  function Main(fs: Files, answers: seq<string>, decode: string -> Option<Value>, dumps: Value -> string)
    : (Outcome, Files)
  {
    match CurrentVersion(fs)
    case None => (NoCurrentVersion, fs)
    case Some(current) =>
      match FirstAcceptable(current, answers)
      case None => (InputExhausted, fs)
      case Some(newVersion) =>
        var (count, files) := UpdateFrom(fs, FilesToUpdate, current, newVersion, decode, dumps, 0);
        match count
        case Err(message) => (Crashed(message), files)
        case Ok(n) => (if n == 0 then NothingUpdated else Bumped(newVersion, "v" + newVersion, n), files)
  }

  /** `main` returns 1 exactly when setup.py holds no version, every answer is
      refused, a file update raises, or no listed file's update returns `True`.
      Otherwise it goes on to the git step with tag `v<new>` and the number of
      files whose update returned `True`. */
  lemma MainExitStatus(fs: Files, answers: seq<string>, decode: string -> Option<Value>, dumps: Value -> string)
    ensures var o := Main(fs, answers, decode, dumps).0;
      && (ExitCode(o) == Some(1) <==>
          || CurrentVersion(fs).None?
          || FirstAcceptable(CurrentVersion(fs).value, answers).None?
          || var rs := UpdateResults(fs, FilesToUpdate, CurrentVersion(fs).value,
                                     FirstAcceptable(CurrentVersion(fs).value, answers).value, decode, dumps);
             AnyRaised(rs) || forall i :: 0 <= i < |rs| ==> rs[i] != Returned(Bool(true)))
      && (ExitCode(o) != Some(1) ==>
          var newVersion := FirstAcceptable(CurrentVersion(fs).value, answers).value;
          && ExitCode(o).None? && o.Bumped?
          && o.newVersion == newVersion && o.tag == "v" + newVersion
          && o.successCount == TrueCount(UpdateResults(fs, FilesToUpdate, CurrentVersion(fs).value, newVersion, decode, dumps)))
  {
    if CurrentVersion(fs).Some? && FirstAcceptable(CurrentVersion(fs).value, answers).Some? {
      var current := CurrentVersion(fs).value;
      var newVersion := FirstAcceptable(current, answers).value;
      TrueCountZero(UpdateResults(fs, FilesToUpdate, current, newVersion, decode, dumps));
    }
  }

  /** `main` changes only the listed files, and creates or removes none; without
      a current version or an accepted answer it changes nothing. */
  lemma MainTree(fs: Files, answers: seq<string>, decode: string -> Option<Value>, dumps: Value -> string)
    ensures Main(fs, answers, decode, dumps).1.Keys == fs.Keys
    ensures forall p :: p in fs && p !in FilesToUpdate ==> Main(fs, answers, decode, dumps).1[p] == fs[p]
    ensures CurrentVersion(fs).None? || FirstAcceptable(CurrentVersion(fs).value, answers).None? ==>
      Main(fs, answers, decode, dumps).1 == fs
  {
    if CurrentVersion(fs).Some? && FirstAcceptable(CurrentVersion(fs).value, answers).Some? {
      var current := CurrentVersion(fs).value;
      UpdateFromFrame(fs, FilesToUpdate, current, FirstAcceptable(current, answers).value, decode, dumps, 0);
    }
  }

  /** `main` up to the git step: it computes `Main`. */
  method RunRelease(fs: Files, answers: seq<string>, decode: string -> Option<Value>, dumps: Value -> string)
    returns (o: Outcome, after: Files)
    ensures (o, after) == Main(fs, answers, decode, dumps)
  {
    var current := CurrentVersion(fs);
    if current.None? {
      return NoCurrentVersion, fs;
    }
    var newVersion := ReadNewVersion(current.value, answers);
    if newVersion.None? {
      return InputExhausted, fs;
    }
    var successCount;
    successCount, after := UpdateFiles(fs, FilesToUpdate, current.value, newVersion.value, decode, dumps);
    if successCount.Err? {
      return Crashed(successCount.error), after;
    }
    if successCount.value == 0 {
      return NothingUpdated, after;
    }
    var tagName := "v" + newVersion.value;
    return Bumped(newVersion.value, tagName, successCount.value), after;
  }
}
