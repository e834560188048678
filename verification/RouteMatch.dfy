/** Matching a request against the routes of the OpenAPI schema
    (td/modules/mcp/controllers/openapi_router.py). */
module RouteMatch {
  import opened Options
  import opened Text

  datatype Route = Route(verb: string, pattern: string, operationId: string)

  datatype Match = Match(route: Route, params: map<string, string>)

  // ---------- one pattern against one path ----------

  predicate IsPlaceholder(part: string) {
    '{' in part && '}' in part
  }

  /** `part[1:-1]`. */
  function NameOf(part: string): string
    requires IsPlaceholder(part)
  {
    part[1..|part| - 1]
  }

  /** The walk over the parts: the parameters it has collected at the end, or no match. */
  function Walk(pattern: seq<string>, path: seq<string>, params: map<string, string>): Option<map<string, string>> {
    if pattern == [] then Some(params)
    else if path == [] then None
    else if IsPlaceholder(pattern[0]) then
      if |pattern| == 1 && |path| > 1 then Some(params[NameOf(pattern[0]) := Join(path)])
      else Walk(pattern[1..], path[1..], params[NameOf(pattern[0]) := path[0]])
    else if pattern[0] != path[0] then None
    else Walk(pattern[1..], path[1..], params)
  }

  predicate Exact(route: Route, verb: string, path: string) {
    route.verb == Upper(verb) && route.pattern == path
  }

  function ByPattern(route: Route, verb: string, path: string): Option<map<string, string>> {
    if route.verb == Upper(verb) && '{' in route.pattern then Walk(Split(route.pattern), Split(path), map[]) else None
  }

  /** The route that must answer: the first exact one, else the first whose pattern matches. */
  ghost predicate Chosen(k: nat, m: Match, verb: string, path: string, routes: seq<Route>) {
    && k < |routes|
    && m.route == routes[k]
    && if Exact(routes[k], verb, path) then
         m.params == map[] && forall j :: 0 <= j < k ==> !Exact(routes[j], verb, path)
       else
         && ByPattern(routes[k], verb, path) == Some(m.params)
         && (forall j :: 0 <= j < k ==> ByPattern(routes[j], verb, path).None?)
         && forall j :: 0 <= j < |routes| ==> !Exact(routes[j], verb, path)
  }

  method MatchRoute(verb: string, path: string, routes: seq<Route>) returns (result: Option<Match>)
    ensures result.Some? ==> exists k: nat :: Chosen(k, result.value, verb, path, routes)
    ensures result.None? <==>
      (forall k :: 0 <= k < |routes| ==> !Exact(routes[k], verb, path) && ByPattern(routes[k], verb, path).None?)
  {
    for k := 0 to |routes|
      invariant forall j :: 0 <= j < k ==> !Exact(routes[j], verb, path)
    {
      if routes[k].verb == Upper(verb) && routes[k].pattern == path {
        assert Chosen(k, Match(routes[k], map[]), verb, path, routes);
        return Some(Match(routes[k], map[]));
      }
    }
    for k := 0 to |routes|
      invariant forall j :: 0 <= j < k ==> ByPattern(routes[j], verb, path).None?
    {
      if routes[k].verb != Upper(verb) {
        continue;
      }
      if '{' !in routes[k].pattern {
        continue;
      }
      var found := MatchParts(Split(routes[k].pattern), Split(path));
      if found.Some? {
        assert Chosen(k, Match(routes[k], found.value), verb, path, routes);
        return Some(Match(routes[k], found.value));
      }
    }
    result := None;
  }

  /** The inner loop. */
  method MatchParts(pattern: seq<string>, path: seq<string>) returns (found: Option<map<string, string>>)
    requires |path| >= 1
    ensures found == Walk(pattern, path, map[])
  {
    hide Join, NameOf;
    if |pattern| > |path| && forall j :: |path| <= j < |pattern| ==> '{' !in pattern[j] {
      LongerPatternNeverMatches(pattern, path, map[]);
      return None;
    }
    var params: map<string, string> := map[];
    var matched := true;
    var i := 0;
    while i < |pattern| && i < |path|
      invariant 0 <= i <= |pattern| && i <= |path|
      invariant matched && Walk(pattern[i..], path[i..], params) == Walk(pattern, path, map[])
    {
      assert pattern[i..][1..] == pattern[i + 1..] && path[i..][1..] == path[i + 1..];
      if pattern[i] == "" && path[i] == "" {
        i := i + 1;
        continue;
      }
      if IsPlaceholder(pattern[i]) {
        if i == |pattern| - 1 && i < |path| - 1 {
          assert [path[i]] + path[i + 1..] == path[i..];
          params := params[NameOf(pattern[i]) := Join([path[i]] + path[i + 1..])];
          matched := true;
          assert Walk(pattern, path, map[]) == Some(params);
          break;
        } else {
          params := params[NameOf(pattern[i]) := path[i]];
        }
      } else if pattern[i] != path[i] {
        matched := false;
        break;
      }
      i := i + 1;
    }
    found := if matched && |pattern| <= |path| then Some(params) else None;
  }

  lemma {:induction false} LongerPatternNeverMatches(
      pattern: seq<string>, path: seq<string>, params: map<string, string>)
    requires |pattern| > |path|
    ensures Walk(pattern, path, params) == None
  {
    if path != [] {
      if IsPlaceholder(pattern[0]) {
        LongerPatternNeverMatches(pattern[1..], path[1..], params[NameOf(pattern[0]) := path[0]]);
      } else if pattern[0] == path[0] {
        LongerPatternNeverMatches(pattern[1..], path[1..], params);
      }
    }
  }

  // ---------- what a match means ----------

  /** The part of the path that position `i` of the pattern stands for: a placeholder at the end takes all
      the rest. */
  function Share(pattern: seq<string>, path: seq<string>, i: nat): string
    requires i < |pattern| <= |path|
  {
    if i == |pattern| - 1 && IsPlaceholder(pattern[i]) then Join(path[i..]) else path[i]
  }

  /** The path is long enough and agrees with every literal part. */
  predicate Fits(pattern: seq<string>, path: seq<string>) {
    && |pattern| <= |path|
    && forall i :: 0 <= i < |pattern| && !IsPlaceholder(pattern[i]) ==> pattern[i] == path[i]
  }

  predicate Holds(pattern: seq<string>, name: string, i: nat) {
    i < |pattern| && IsPlaceholder(pattern[i]) && NameOf(pattern[i]) == name
  }

  /** Where the value of `name` comes from: the last placeholder of that name. */
  predicate LastHolds(pattern: seq<string>, name: string, i: nat) {
    Holds(pattern, name, i) && forall j :: i < j < |pattern| ==> !Holds(pattern, name, j)
  }

  ghost predicate Collected(
      pattern: seq<string>, path: seq<string>, before: map<string, string>, params: map<string, string>)
    requires |pattern| <= |path|
  {
    && (forall name :: name in params <==> name in before || exists i: nat :: Holds(pattern, name, i))
    && (forall name, i: nat ::
         LastHolds(pattern, name, i) ==> name in params && params[name] == Share(pattern, path, i))
    && (forall name :: name in before && (forall i: nat :: !Holds(pattern, name, i)) ==>
         name in params && params[name] == before[name])
  }

  lemma {:induction false} CollectedFromTail(
      pattern: seq<string>, path: seq<string>, before: map<string, string>, params: map<string, string>)
    requires 1 <= |pattern| <= |path| && (|pattern| == 1 && IsPlaceholder(pattern[0]) ==> |path| == 1)
    requires Collected(pattern[1..], path[1..],
        if IsPlaceholder(pattern[0]) then before[NameOf(pattern[0]) := path[0]] else before, params)
    ensures Collected(pattern, path, before, params)
  {
    hide NameOf, IsPlaceholder, Join;
    var p, q := pattern[1..], path[1..];
    if IsPlaceholder(pattern[0]) {
      assert Holds(pattern, NameOf(pattern[0]), 0);
    }
    assert forall name, i: nat :: Holds(p, name, i) ==> Holds(pattern, name, i + 1);
    forall name
      ensures name in params <==> name in before || exists i: nat :: Holds(pattern, name, i)
    {
      if i: nat :| Holds(pattern, name, i) {
        assert i > 0 ==> Holds(p, name, i - 1);
      }
    }
    forall name, i: nat | LastHolds(pattern, name, i)
      ensures name in params && params[name] == Share(pattern, path, i)
    {
      if i > 0 {
        assert LastHolds(p, name, i - 1);
        assert p[i - 1] == pattern[i] && q[i - 1..] == path[i..];
      } else {
        assert forall j: nat :: !Holds(p, name, j);
        assert path[0..] == path;
        JoinOne(path);
      }
    }
  }

  lemma {:induction false} JoinOne(path: seq<string>)
    requires |path| >= 1
    ensures |path| == 1 ==> Join(path) == path[0]
  {
  }

  /** The walk succeeds exactly on the paths that fit, and collects the share of each placeholder. */
  lemma {:induction false} WalkMeans(pattern: seq<string>, path: seq<string>, before: map<string, string>)
    ensures Walk(pattern, path, before).Some? <==> Fits(pattern, path)
    ensures Fits(pattern, path) ==> Collected(pattern, path, before, Walk(pattern, path, before).value)
  {
    hide Join, NameOf;
    if pattern != [] && path != [] {
      var p, q := pattern[1..], path[1..];
      if IsPlaceholder(pattern[0]) {
        var name := NameOf(pattern[0]);
        if |pattern| == 1 && |path| > 1 {
          var after := before[name := Join(path)];
          assert path[0..] == path;
          assert Holds(pattern, name, 0);
        } else {
          var after := before[name := path[0]];
          WalkMeans(p, q, after);
          if Fits(pattern, path) {
            CollectedFromTail(pattern, path, before, Walk(p, q, after).value);
          }
        }
      } else if pattern[0] == path[0] {
        WalkMeans(p, q, before);
        if Fits(pattern, path) {
          CollectedFromTail(pattern, path, before, Walk(p, q, before).value);
        }
      }
    }
  }

  /** A route without a brace answers its own path alone; any other one answers also the paths that fit its parts,
      where a part with both braces stands for whatever is there. */
  lemma {:induction false} RouteAnswers(route: Route, verb: string, path: string)
    ensures Exact(route, verb, path) || ByPattern(route, verb, path).Some? <==>
      && route.verb == Upper(verb)
      && (route.pattern == path
          || ('{' in route.pattern && Fits(Split(route.pattern), Split(path))))
    ensures ByPattern(route, verb, path).Some? ==> '{' in route.pattern
  {
    hide Walk, Split;
    WalkMeans(Split(route.pattern), Split(path), map[]);
  }

  /** The name of a placeholder is what stands between the braces, and a part without them is none. */
  lemma {:induction false} PlaceholderMeans(name: string, literal: string)
    requires '{' !in literal || '}' !in literal
    ensures IsPlaceholder("{" + name + "}") && NameOf("{" + name + "}") == name && !IsPlaceholder(literal)
  {
    var part := "{" + name + "}";
    assert part[0] == '{' && part[|part| - 1] == '}';
  }

  /** A pattern that ends in a literal also matches every longer path, with the same parameters. */
  lemma {:induction false} LongerPathsMatchToo(
      pattern: seq<string>, path: seq<string>, more: seq<string>, params: map<string, string>)
    requires 1 <= |pattern| <= |path| && !IsPlaceholder(pattern[|pattern| - 1])
    ensures Walk(pattern, path + more, params) == Walk(pattern, path, params)
  {
    if |pattern| > 1 {
      assert (path + more)[1..] == path[1..] + more;
      if IsPlaceholder(pattern[0]) {
        LongerPathsMatchToo(pattern[1..], path[1..], more, params[NameOf(pattern[0]) := path[0]]);
      } else if pattern[0] == path[0] {
        LongerPathsMatchToo(pattern[1..], path[1..], more, params);
      }
    }
  }

  // ---------- substituting the parameters back ----------

  function Fill(pattern: seq<string>, params: map<string, string>): (filled: seq<string>)
    ensures |filled| == |pattern|
  {
    seq(|pattern|, i requires 0 <= i < |pattern| =>
      if IsPlaceholder(pattern[i]) && NameOf(pattern[i]) in params then params[NameOf(pattern[i])] else pattern[i])
  }

  function Shares(pattern: seq<string>, path: seq<string>): seq<string>
    requires |pattern| <= |path|
  {
    seq(|pattern|, i requires 0 <= i < |pattern| => Share(pattern, path, i))
  }

  predicate SameName(pattern: seq<string>, i: nat, j: nat) {
    && i < j < |pattern| && IsPlaceholder(pattern[i]) && IsPlaceholder(pattern[j])
    && NameOf(pattern[i]) == NameOf(pattern[j])
  }

  /** Placeholders of the same name stand for the same text. */
  ghost predicate Consistent(pattern: seq<string>, path: seq<string>)
    requires |pattern| <= |path|
  {
    forall i: nat, j: nat :: SameName(pattern, i, j) ==> Share(pattern, path, i) == Share(pattern, path, j)
  }

  ghost predicate DistinctNames(pattern: seq<string>) {
    forall i: nat, j: nat :: !SameName(pattern, i, j)
  }

  lemma {:induction false} LastHolder(pattern: seq<string>, name: string, i: nat) returns (k: nat)
    requires Holds(pattern, name, i)
    ensures i <= k && LastHolds(pattern, name, k)
    decreases |pattern| - i
  {
    if j: nat :| i < j && Holds(pattern, name, j) {
      k := LastHolder(pattern, name, j);
    } else {
      k := i;
    }
  }

  /** Putting the parameters back gives the matched parts exactly when placeholders of one name had one text. */
  lemma {:induction false} FillGivesShares(pattern: seq<string>, path: seq<string>)
    requires Fits(pattern, path)
    ensures Walk(pattern, path, map[]).Some?
    ensures Fill(pattern, Walk(pattern, path, map[]).value) == Shares(pattern, path) <==> Consistent(pattern, path)
  {
    hide Join, NameOf, IsPlaceholder, Walk, Share, Collected, Fill;
    WalkMeans(pattern, path, map[]);
    var params := Walk(pattern, path, map[]).value;
    var fill, shares := Fill(pattern, params), Shares(pattern, path);
    if Consistent(pattern, path) {
      forall i | 0 <= i < |pattern|
        ensures fill[i] == shares[i]
      {
        var k := FilledPart(pattern, path, params, i);
      }
    }
    if fill == shares {
      forall i: nat, j: nat | SameName(pattern, i, j)
        ensures Share(pattern, path, i) == Share(pattern, path, j)
      {
        assert shares[i] == Share(pattern, path, i) && shares[j] == Share(pattern, path, j);
        var k := FilledPart(pattern, path, params, i);
        var l := FilledPart(pattern, path, params, j);
      }
    }
  }

  /** Part `i` is filled with what part `k`, the last of its name, stands for. */
  predicate FilledFrom(pattern: seq<string>, path: seq<string>, fill: seq<string>, i: nat, k: nat)
    requires |fill| == |pattern| <= |path|
  {
    && i <= k < |pattern| && fill[i] == Share(pattern, path, k)
    && (i == k || SameName(pattern, i, k))
    && (IsPlaceholder(pattern[i]) ==> LastHolds(pattern, NameOf(pattern[i]), k))
  }

  lemma {:induction false} FilledPart(pattern: seq<string>, path: seq<string>, params: map<string, string>, i: nat)
    returns (k: nat)
    requires Fits(pattern, path) && Collected(pattern, path, map[], params) && i < |pattern|
    ensures FilledFrom(pattern, path, Fill(pattern, params), i, k)
  {
    hide Join, NameOf, IsPlaceholder;
    k := i;
    if IsPlaceholder(pattern[i]) {
      assert Holds(pattern, NameOf(pattern[i]), i);
      k := LastHolder(pattern, NameOf(pattern[i]), i);
    }
  }

  /** The matched parts are the whole path if the pattern ends in a placeholder, else its first segments. */
  lemma {:induction false} SharesJoined(pattern: seq<string>, path: seq<string>)
    requires Fits(pattern, path) && pattern != []
    ensures var n := |pattern|;
      Join(Shares(pattern, path)) == if IsPlaceholder(pattern[n - 1]) then Join(path) else Join(path[..n])
  {
    hide IsPlaceholder;
    var n := |pattern|;
    if n == 1 {
      assert path[0..] == path;
    } else {
      assert Fits(pattern[1..], path[1..]);
      SharesJoined(pattern[1..], path[1..]);
      assert Shares(pattern, path)[1..] == Shares(pattern[1..], path[1..]) by {
        assert forall i :: 1 <= i < n ==> path[1..][i - 1..] == path[i..];
      }
      assert path[1..][..n - 1] == path[..n][1..];
      assert pattern[1..][n - 2] == pattern[n - 1];
    }
  }

  lemma {:induction false} FirstSegments(path: seq<string>, n: nat)
    requires 1 <= n < |path|
    ensures Join(path[..n]) + "/" <= Join(path)
  {
    if n > 1 {
      FirstSegments(path[1..], n - 1);
      assert path[..n][1..] == path[1..][..n - 1];
      assert Join(path) == path[0] + "/" + Join(path[1..]);
      assert Join(path[..n]) == path[0] + "/" + Join(path[..n][1..]);
    } else {
      assert path[..1][0] == path[0];
    }
  }

  /** With distinct names, substituting the parameters into the pattern gives back whole segments at the head
      of the path, and the whole path if the pattern ends in a placeholder. */
  lemma {:induction false} SubstitutionGivesTheHead(pattern: string, path: string)
    requires Walk(Split(pattern), Split(path), map[]).Some? && DistinctNames(Split(pattern))
    ensures var filled := Join(Fill(Split(pattern), Walk(Split(pattern), Split(path), map[]).value));
      && (filled == path || filled + "/" <= path)
      && (IsPlaceholder(Split(pattern)[|Split(pattern)| - 1]) ==> filled == path)
  {
    hide Walk, Join, Split, IsPlaceholder, NameOf;
    var p, q := Split(pattern), Split(path);
    WalkMeans(p, q, map[]);
    FillGivesShares(p, q);
    SharesJoined(p, q);
    JoinOfSplit(path);
    if |p| < |q| {
      FirstSegments(q, |p|);
    } else {
      assert q[..|p|] == q;
    }
  }

  /** With a repeated name the earlier value is lost. */
  lemma {:induction false} RepeatedNameLosesAValue()
    ensures Walk(["", "{a}", "{a}"], ["", "x", "y"], map[]) == Some(map["a" := "y"])
    ensures Fill(["", "{a}", "{a}"], map["a" := "y"]) == ["", "y", "y"]
  {
    assert "{a}"[0] == '{' && "{a}"[2] == '}';
    assert "{a}"[1..2] == "a";
    var p, q := ["", "{a}", "{a}"], ["", "x", "y"];
    assert p[1..] == ["{a}", "{a}"] && q[1..] == ["x", "y"];
    assert ["{a}", "{a}"][1..] == ["{a}"] && ["x", "y"][1..] == ["y"];
    assert ["{a}"][1..] == [] && ["y"][1..] == [];
    assert map["a" := "x"]["a" := "y"] == map["a" := "y"];
  }

  // ---------- matching an instantiated path ----------

  /** Values for exactly the names of the pattern, free of slashes except for a placeholder at the end. */
  ghost predicate Suits(pattern: seq<string>, vals: map<string, string>) {
    && (forall name :: name in vals <==> exists i: nat :: Holds(pattern, name, i))
    && forall i :: 0 <= i < |pattern| - 1 && IsPlaceholder(pattern[i]) && NameOf(pattern[i]) in vals
         ==> '/' !in vals[NameOf(pattern[i])]
  }

  /** The parts of the instantiated path. */
  lemma {:induction false} PartsOfFill(pattern: seq<string>, vals: map<string, string>)
    requires pattern != [] && SlashFree(pattern) && Suits(pattern, vals)
    ensures var n, fill := |pattern|, Fill(pattern, vals);
      && Split(Join(fill)) == fill[..n - 1] + Split(fill[n - 1])
      && Fits(pattern, Split(Join(fill)))
      && forall i: nat :: i < n && IsPlaceholder(pattern[i]) && NameOf(pattern[i]) in vals
           ==> Share(pattern, Split(Join(fill)), i) == vals[NameOf(pattern[i])]
  {
    hide Join, Split, IsPlaceholder, NameOf;
    var n, fill := |pattern|, Fill(pattern, vals);
    SplitOfJoin(fill);
    JoinOfSplit(fill[n - 1]);
    var path := Split(Join(fill));
    assert path[n - 1..] == Split(fill[n - 1]);
    if !IsPlaceholder(pattern[n - 1]) {
      SplitOfSegment(fill[n - 1]);
    }
  }

  lemma {:induction false} WalkRecovers(pattern: seq<string>, vals: map<string, string>)
    requires pattern != [] && SlashFree(pattern) && DistinctNames(pattern) && Suits(pattern, vals)
    ensures Walk(pattern, Split(Join(Fill(pattern, vals))), map[]) == Some(vals)
  {
    hide Join, Split, IsPlaceholder, NameOf, Walk;
    var path := Split(Join(Fill(pattern, vals)));
    PartsOfFill(pattern, vals);
    WalkMeans(pattern, path, map[]);
    var params := Walk(pattern, path, map[]).value;
    forall name | name in params
      ensures name in vals && params[name] == vals[name]
    {
      var i: nat :| Holds(pattern, name, i);
      assert forall j: nat :: i < j && Holds(pattern, name, j) ==> SameName(pattern, i, j);
      assert LastHolds(pattern, name, i);
    }
    assert params == vals;
  }

  /** A path instantiated from a lone route with distinct placeholders is matched by that route with the very
      values put in, unless the path is the pattern itself, which matches exactly and yields no parameters. */
  lemma {:induction false} MatchingRecoversTheValues(route: Route, verb: string, vals: map<string, string>)
    requires route.verb == Upper(verb)
    requires DistinctNames(Split(route.pattern)) && Suits(Split(route.pattern), vals) && vals != map[]
    ensures var path := Join(Fill(Split(route.pattern), vals));
      forall m, k: nat :: Chosen(k, m, verb, path, [route])
        <==> k == 0 && m == Match(route, if path == route.pattern then map[] else vals)
  {
    hide Join, Split, IsPlaceholder, NameOf, Walk;
    var pattern := Split(route.pattern);
    JoinOfSplit(route.pattern);
    WalkRecovers(pattern, vals);
    var name :| name in vals;
    var i: nat :| Holds(pattern, name, i);
    BracesInside(route.pattern, i);
    assert [route][0] == route;
  }

  lemma {:induction false} BracesInside(s: string, i: nat)
    requires i < |Split(s)| && IsPlaceholder(Split(s)[i])
    ensures '{' in s
  {
    PartsAreInside(s, '{', i);
  }
}
