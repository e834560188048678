/** Text as the sources handle it: ASCII case, prefixes and parts, slash-separated paths. */
module Text {
  function LowerChar(c: char): char {
    if 'A' <= c <= 'Z' then 'a' + (c - 'A') else c
  }

  /** ASCII `str.lower`. */
  function Lower(s: string): (r: string) {
    seq(|s|, i requires 0 <= i < |s| => LowerChar(s[i]))
  }

  predicate StartsWith(s: string, prefix: string) {
    prefix <= s
  }

  predicate EndsWith(s: string, suffix: string) {
    |suffix| <= |s| && s[|s| - |suffix|..] == suffix
  }

  lemma {:induction false} EndsWithMeans(s: string, suffix: string)
    ensures EndsWith(s, suffix) <==> exists head :: s == head + suffix
  {
    if EndsWith(s, suffix) {
      assert s == s[..|s| - |suffix|] + suffix;
    }
  }

  /** Python's `part in s`. */
  predicate Contains(s: string, part: string) {
    StartsWith(s, part) || (s != "" && Contains(s[1..], part))
  }

  /** ASCII `str.upper`. */
  function Upper(s: string): string {
    seq(|s|, i requires 0 <= i < |s| => if 'a' <= s[i] <= 'z' then 'A' + (s[i] - 'a') else s[i])
  }

  /** Letters that differ in case only are 32 apart in ASCII. */
  predicate SameLetter(a: char, b: char) {
    a == b || ('A' <= a <= 'Z' && b as int == a as int + 32) || ('A' <= b <= 'Z' && a as int == b as int + 32)
  }

  predicate SameButCase(a: string, b: string) {
    |a| == |b| && forall i :: 0 <= i < |a| ==> SameLetter(a[i], b[i])
  }

  /** Lower case forgets the case of letters and nothing else, and so does upper case. */
  lemma {:induction false} CaseMeans(a: string, b: string)
    ensures Lower(a) == Lower(b) <==> SameButCase(a, b)
    ensures Upper(a) == Upper(b) <==> SameButCase(a, b)
    ensures forall i :: 0 <= i < |a| ==> !('A' <= Lower(a)[i] <= 'Z') && !('a' <= Upper(a)[i] <= 'z')
  {
    if |a| == |b| {
      forall i | 0 <= i < |a|
        ensures Lower(a)[i] == Lower(b)[i] <==> SameLetter(a[i], b[i])
        ensures Upper(a)[i] == Upper(b)[i] <==> SameLetter(a[i], b[i])
      {
      }
    } else {
      assert |Lower(a)| != |Lower(b)| && |Upper(a)| != |Upper(b)|;
    }
  }

  // ---------- blanks ----------

  predicate IsBlank(c: char) {
    c in " \t\r\n"
  }

  function StripLeft(s: string): (r: string)
    ensures |r| <= |s| && s[|s| - |r|..] == r
  {
    if s != "" && IsBlank(s[0]) then StripLeft(s[1..]) else s
  }

  function StripRight(s: string): (r: string)
    ensures r <= s
  {
    if s != "" && IsBlank(s[|s| - 1]) then StripRight(s[..|s| - 1]) else s
  }

  /** Python's `strip`, JavaScript's `trim`, on ASCII blanks. */
  function Trim(s: string): (r: string)
    ensures |r| <= |s| && forall c :: c in r ==> c in s
  {
    StripRight(StripLeft(s))
  }

  lemma {:induction false} TrimTwice(s: string)
    ensures Trim(Trim(s)) == Trim(s)
  {
    LeftIsBare(s);
    var t := StripLeft(s);
    RightIsBare(t);
    var r := StripRight(t);
    assert r != "" ==> r[0] == t[0];
    assert StripLeft(r) == r;
    assert StripRight(r) == r;
  }

  lemma {:induction false} LeftIsBare(s: string)
    ensures var t := StripLeft(s); t == "" || !IsBlank(t[0])
  {
    if s != "" && IsBlank(s[0]) {
      LeftIsBare(s[1..]);
    }
  }

  lemma {:induction false} RightIsBare(s: string)
    ensures var t := StripRight(s); t == "" || !IsBlank(t[|t| - 1])
  {
    if s != "" && IsBlank(s[|s| - 1]) {
      RightIsBare(s[..|s| - 1]);
    }
  }

  // ---------- slash-separated paths ----------

  function Slashes(s: string): string {
    seq(|s|, i requires 0 <= i < |s| => if s[i] == '\\' then '/' else s[i])
  }

  function WithoutLeadingSlashes(s: string): string {
    if s != "" && (s[0] == '/' || s[0] == '\\') then WithoutLeadingSlashes(s[1..]) else s
  }

  /** Without leading slashes or backslashes, the others forward. */
  function NormPath(path: string): string {
    Slashes(WithoutLeadingSlashes(path))
  }

  /** The normal form of a path starts after the slashes of either kind at its beginning, and has forward slashes
      for backward ones and every other character as it was. */
  lemma {:induction false} NormPathMeans(path: string) returns (n: nat)
    ensures n <= |path| && |NormPath(path)| == |path| - n
    ensures forall i :: 0 <= i < n ==> path[i] == '/' || path[i] == '\\'
    ensures n < |path| ==> path[n] != '/' && path[n] != '\\'
    ensures forall i :: n <= i < |path| ==> NormPath(path)[i - n] == if path[i] == '\\' then '/' else path[i]
  {
    if path != "" && (path[0] == '/' || path[0] == '\\') {
      var m := NormPathMeans(path[1..]);
      n := m + 1;
      assert NormPath(path) == NormPath(path[1..]);
      forall i | n <= i < |path|
        ensures NormPath(path)[i - n] == if path[i] == '\\' then '/' else path[i]
      {
        assert path[1..][i - 1] == path[i];
      }
    } else {
      n := 0;
    }
  }

  /** `str.split("/")`: never empty. */
  function Split(s: string): (parts: seq<string>)
    ensures |parts| >= 1
  {
    if s == "" then [""]
    else
      var rest := Split(s[1..]);
      if s[0] == '/' then [""] + rest else [[s[0]] + rest[0]] + rest[1..]
  }

  /** `"/".join`. */
  function Join(parts: seq<string>): string
    requires |parts| >= 1
  {
    if |parts| == 1 then parts[0] else parts[0] + "/" + Join(parts[1..])
  }

  predicate SlashFree(parts: seq<string>) {
    forall i :: 0 <= i < |parts| ==> '/' !in parts[i]
  }

  /** Splitting undoes joining except inside the last part ... */
  lemma {:induction false} SplitOfJoin(parts: seq<string>)
    requires |parts| >= 1 && SlashFree(parts[..|parts| - 1])
    ensures Split(Join(parts)) == parts[..|parts| - 1] + Split(parts[|parts| - 1])
  {
    if |parts| > 1 {
      var rest := parts[1..];
      assert '/' !in parts[..|parts| - 1][0];
      assert parts[1..|parts| - 1] == rest[..|rest| - 1];
      SplitOfJoin(rest);
      SplitHead(parts[0], Join(rest));
      assert [parts[0]] + parts[1..|parts| - 1] == parts[..|parts| - 1];
    } else {
      assert parts[..0] == [];
    }
  }

  lemma {:induction false} SplitHead(part: string, rest: string)
    requires '/' !in part
    ensures Split(part + "/" + rest) == [part] + Split(rest)
  {
    var s := part + "/" + rest;
    if part == "" {
      assert s[1..] == rest;
    } else {
      SplitHead(part[1..], rest);
      assert s[1..] == part[1..] + "/" + rest;
      assert [part[0]] + part[1..] == part;
    }
  }

  /** ... and joining undoes splitting. */
  lemma {:induction false} JoinOfSplit(s: string)
    ensures Join(Split(s)) == s && SlashFree(Split(s))
  {
    if s != "" {
      JoinOfSplit(s[1..]);
      var rest := Split(s[1..]);
      if s[0] != '/' && |rest| > 1 {
        assert Split(s)[1..] == rest[1..];
        assert Join(rest) == rest[0] + "/" + Join(rest[1..]);
      } else if s[0] == '/' {
        assert Split(s)[1..] == rest;
      }
    }
  }

  lemma {:induction false} SplitOfSegment(s: string)
    requires '/' !in s
    ensures Split(s) == [s]
  {
    if s != "" {
      SplitOfSegment(s[1..]);
      assert [s[0]] + s[1..] == s;
    }
  }

  lemma {:induction false} PartsAreInside(s: string, c: char, i: nat)
    requires i < |Split(s)| && c in Split(s)[i]
    ensures c in s
  {
    if s != "" {
      var rest := Split(s[1..]);
      if s[0] == '/' {
        assert i > 0;
        PartsAreInside(s[1..], c, i - 1);
      } else if i > 0 || c != s[0] {
        PartsAreInside(s[1..], c, i);
      }
    }
  }

  /** Names as a file system has them. */
  predicate Names(path: seq<string>) {
    SlashFree(path) && forall i :: 0 <= i < |path| ==> path[i] != "" && '\\' !in path[i]
  }

  lemma {:induction false} JoinOfConcat(a: seq<string>, b: seq<string>)
    requires a != [] && b != []
    ensures Join(a + b) == Join(a) + "/" + Join(b)
  {
    assert (a + b)[1..] == a[1..] + b;
    if |a| > 1 {
      JoinOfConcat(a[1..], b);
    } else {
      assert a[1..] + b == b;
    }
  }

  lemma {:induction false} JoinKeepsNames(path: seq<string>)
    requires path != [] && Names(path)
    ensures Join(path) != "" && Join(path)[0] != '/' && '\\' !in Join(path)
  {
    assert path[0] != "" && path[0][0] in path[0];
    if |path| > 1 {
      JoinKeepsNames(path[1..]);
    }
  }

  lemma {:induction false} SplitOfNames(path: seq<string>)
    requires path != [] && SlashFree(path)
    ensures Split(Join(path)) == path
  {
    SplitOfJoin(path);
    SplitOfSegment(path[|path| - 1]);
  }

  /** One path lies strictly below the other. */
  lemma {:induction false} StrictlyBelow(path: seq<string>, top: seq<string>)
    requires path != [] && top != [] && SlashFree(path) && SlashFree(top)
    ensures StartsWith(Join(path), Join(top) + "/") <==> top < path
  {
    if top < path {
      JoinOfConcat(top, path[|top|..]);
      assert top + path[|top|..] == path;
    }
    if StartsWith(Join(path), Join(top) + "/") {
      var rest := Join(path)[|Join(top)| + 1..];
      JoinOfConcat(top, [rest]);
      assert Join(path) == Join(top + [rest]) by {
        assert Join(path) == Join(top) + "/" + rest;
        assert Join([rest]) == rest;
      }
      assert (top + [rest])[..|top|] == top;
      SplitOfJoin(top + [rest]);
      SplitOfNames(path);
      assert path == top + Split(rest);
    }
  }
}
