/** The part of a wire graph around one node (src/toe/wires.ts, src/toe/parseExpand.ts). */
module EgoGraph {
  import opened Text

  datatype Edge =
    | Op(to: string, fromName: string, index: int)
    | Comp(to: string, source: string, index: int, connector: string, family: string)

  // ---------- names of nodes ----------

  /** The last separator below `i` that is followed by something else. */
  function CutAt(path: string, i: int, slashesOnly: bool): (cut: int)
    requires i < |path|
    ensures -1 <= cut <= if i < 0 then -1 else i
    decreases if i < 0 then 0 else i + 1
  {
    if i < 1 then -1
    else if path[i] != '/' then CutAt(path, i - 1, false)
    else if !slashesOnly then i
    else CutAt(path, i - 1, true)
  }

  /** POSIX `dirname`. */
  function Dirname(path: string): string {
    if path == "" then "."
    else
      var end := CutAt(path, |path| - 1, true);
      if end < 0 then (if path[0] == '/' then "/" else ".")
      else if path[0] == '/' && end == 1 then "//"
      else path[..end]
  }

  function ResolveSiblingPath(owner: string, fromName: string): string {
    if '/' in fromName && ("project" <= fromName || "local" <= fromName || "/" <= fromName) then
      if fromName[0] == '/' then fromName[1..] else fromName
    else
      var parent := Dirname(owner);
      if parent == "." || parent == "" then fromName else Slashes(parent + "/" + fromName)
  }

  predicate SameWord(s: string, word: string) {
    Lower(s) == word
  }

  function BeforeDigits(s: string): (n: nat)
    ensures n <= |s|
  {
    if s != "" && '0' <= s[|s| - 1] <= '9' then BeforeDigits(s[..|s| - 1]) else |s|
  }

  /** Drops a final `/word` that is followed by digits; `word` in lower case, any case in the path. */
  function WithoutPort(path: string, word: string): string {
    var n := BeforeDigits(path);
    if n < |path| && |word| + 1 <= n && path[n - |word| - 1] == '/' && SameWord(path[n - |word|..n], word)
    then path[..n - |word| - 1] else path
  }

  predicate Digits(s: string) {
    s != "" && forall i :: 0 <= i < |s| ==> '0' <= s[i] <= '9'
  }

  lemma {:induction false} BeforeDigitsSkips(s: string, digits: string)
    requires s != "" && !('0' <= s[|s| - 1] <= '9') && (digits == "" || Digits(digits))
    ensures BeforeDigits(s + digits) == |s|
  {
    if digits == "" {
      assert s + digits == s;
    } else {
      var t := s + digits;
      assert t[..|t| - 1] == s + digits[..|digits| - 1];
      BeforeDigitsSkips(s, digits[..|digits| - 1]);
    }
  }

  predicate EndsInPort(path: string, node: string, w: string, digits: string, word: string) {
    path == node + "/" + w + digits && SameWord(w, word) && Digits(digits)
  }

  /** A path changes exactly when it ends in `/word` and digits, and then it loses just that. */
  lemma {:induction false} OnlyThePortIsDropped(path: string, word: string)
    requires word != "" && forall i :: 0 <= i < |word| ==> !('0' <= word[i] <= '9') && word[i] != '/'
    ensures forall node, w, digits :: EndsInPort(path, node, w, digits, word) ==> WithoutPort(path, word) == node
    ensures WithoutPort(path, word) != path
      ==> exists node, w, digits :: EndsInPort(path, node, w, digits, word) && WithoutPort(path, word) == node
  {
    forall node, w, digits | EndsInPort(path, node, w, digits, word)
      ensures WithoutPort(path, word) == node
    {
      PortAtEnd(node, w, digits, word);
    }
    var n := BeforeDigits(path);
    if WithoutPort(path, word) != path {
      AllDigitsAfter(path);
      var node, w, digits := path[..n - |word| - 1], path[n - |word|..n], path[n..];
      assert path == node + "/" + w + digits;
      assert EndsInPort(path, node, w, digits, word);
    }
  }

  lemma {:induction false} PortAtEnd(node: string, w: string, digits: string, word: string)
    requires word != "" && forall i :: 0 <= i < |word| ==> !('0' <= word[i] <= '9') && word[i] != '/'
    requires SameWord(w, word) && Digits(digits)
    ensures WithoutPort(node + "/" + w + digits, word) == node
  {
    var s := node + "/" + w;
    assert s[|s| - 1] == w[|w| - 1] && LowerChar(w[|w| - 1]) == Lower(w)[|w| - 1];
    BeforeDigitsSkips(s, digits);
    var path, n := s + digits, |s|;
    assert path[n - |word|..n] == w && path[..n - |word| - 1] == node;
  }

  lemma {:induction false} AllDigitsAfter(s: string)
    ensures forall i :: BeforeDigits(s) <= i < |s| ==> '0' <= s[i] <= '9'
  {
    if s != "" && '0' <= s[|s| - 1] <= '9' {
      AllDigitsAfter(s[..|s| - 1]);
    }
  }

  function From(e: Edge): string {
    if e.Op? then ResolveSiblingPath(e.to, e.fromName) else e.source
  }

  function FromNode(e: Edge): string {
    WithoutPort(WithoutPort(From(e), "out"), "in")
  }

  // ---------- the same in terms of names ----------

  lemma {:induction false} CutAtSlash(path: string, i: int, cut: nat)
    requires 1 <= cut <= i < |path| && path[cut] == '/' && forall j :: cut < j <= i ==> path[j] != '/'
    ensures CutAt(path, i, false) == cut
    decreases i
  {
    if i > cut {
      CutAtSlash(path, i - 1, cut);
    }
  }

  lemma {:induction false} CutNowhere(path: string, i: int, slashesOnly: bool)
    requires i < |path| && forall j :: 0 <= j <= i ==> path[j] != '/'
    ensures CutAt(path, i, slashesOnly) == -1
    decreases if i < 0 then 0 else i + 1
  {
    if i >= 1 {
      CutNowhere(path, i - 1, false);
    }
  }

  /** The directory ends before the last slash. */
  lemma {:induction false} DirnameCut(head: string, name: string)
    requires head != "" && head != "/" && name != "" && '/' !in name
    ensures Dirname(head + "/" + name) == head
  {
    var path, cut := head + "/" + name, |head|;
    forall j | cut < j < |path|
      ensures path[j] != '/'
    {
      assert path[j] == name[j - cut - 1] && name[j - cut - 1] in name;
    }
    hide CutAt;
    LastIsNoSlash(path);
    if cut < |path| - 1 {
      CutAtSlash(path, |path| - 2, cut);
    }
    assert path[..cut] == head;
    assert cut == 1 && path[0] == '/' ==> head == "/";
  }

  lemma {:induction false} LastIsNoSlash(path: string)
    requires |path| >= 2 && path[|path| - 1] != '/'
    ensures CutAt(path, |path| - 1, true) == CutAt(path, |path| - 2, false)
  {
  }

  lemma {:induction false} DirnameOfNames(dir: seq<string>, name: string)
    requires Names(dir + [name])
    ensures Dirname(Join(dir + [name])) == if dir == [] then "." else Join(dir)
  {
    hide Dirname, Join;
    NamesOfBoth(dir, name);
    if dir == [] {
      assert dir + [name] == [name];
      JoinOfOne(name);
      BareDirname(name);
    } else {
      JoinOfConcat(dir, [name]);
      JoinOfOne(name);
      JoinKeepsNames(dir);
      DirnameCut(Join(dir), name);
    }
  }

  lemma {:induction false} NamesOfBoth(dir: seq<string>, name: string)
    requires Names(dir + [name])
    ensures Names(dir) && name != "" && '/' !in name
  {
    assert (dir + [name])[|dir|] == name;
    assert forall i :: 0 <= i < |dir| ==> dir[i] == (dir + [name])[i];
  }

  lemma {:induction false} BareDirname(name: string)
    requires name != "" && '/' !in name
    ensures Dirname(name) == "."
  {
    CutNowhere(name, |name| - 1, true);
    assert name[0] in name;
  }

  /** A path from the root keeps its slash, and slashes at the end do not count. */
  lemma {:induction false} DirnameElsewhere(dir: seq<string>, name: string)
    requires Names(dir + [name])
    ensures Dirname("") == "." && Dirname("/" + name) == "/"
    ensures dir != [] ==> Dirname("/" + Join(dir + [name])) == "/" + Join(dir)
    ensures Dirname(name + "/") == "."
  {
    hide Dirname, Join;
    NamesOfBoth(dir, name);
    NoDirname();
    RootDirname(name);
    if dir != [] {
      JoinOfConcat(dir, [name]);
      JoinOfOne(name);
      JoinKeepsNames(dir);
      DirnameCut("/" + Join(dir), name);
      assert "/" + Join(dir + [name]) == "/" + Join(dir) + "/" + name;
    }
  }

  lemma {:induction false} NoDirname()
    ensures Dirname("") == "."
  {
  }

  lemma {:induction false} RootDirname(name: string)
    requires name != "" && '/' !in name
    ensures Dirname("/" + name) == "/" && Dirname(name + "/") == "."
  {
    var path := "/" + name;
    assert name[|name| - 1] in name && name[0] in name;
    forall j | 0 < j < |path|
      ensures path[j] != '/'
    {
      assert path[j] == name[j - 1] && name[j - 1] in name;
    }
    CutAfterRoot(path, |path| - 1, true);
    var ended := name + "/";
    forall j | 0 <= j < |name|
      ensures ended[j] != '/'
    {
      assert ended[j] == name[j] && name[j] in name;
    }
    CutNowhere(ended, |name| - 1, true);
  }

  lemma {:induction false} CutAfterRoot(path: string, i: int, slashesOnly: bool)
    requires i < |path| && forall j :: 0 < j <= i ==> path[j] != '/'
    ensures CutAt(path, i, slashesOnly) == -1
    decreases if i < 0 then 0 else i + 1
  {
    if i >= 1 {
      CutAfterRoot(path, i - 1, false);
    }
  }

  /** Where the input `from` of the operator `name` in the directory `dir` comes from: a path with slashes that starts
      at the top - with a slash, `project` or `local` - is taken as it is, without that slash; any other is in the
      same directory. So a plain name is a sibling. */
  lemma {:induction false} SourceOfAnInput(dir: seq<string>, name: string, from: string, index: int)
    requires Names(dir + [name]) && '\\' !in from
    ensures var e := Op(Join(dir + [name]), from, index);
      var fromTop := '/' in from && (from[0] == '/' || "project" <= from || "local" <= from);
      var atTop := dir == [] || dir == ["."];
      && (fromTop ==> From(e) == if from[0] == '/' then from[1..] else from)
      && (!fromTop ==> From(e) == if atTop then from else Join(dir + Split(from)))
      && ('/' !in from && dir != ["."] ==> From(e) == Join(dir + [from]))
  {
    hide Dirname, Split, Join;
    DirnameOfNames(dir, name);
    assert '/' in from && "/" <= from ==> from[0] == '/';
    assert '/' in from && from[0] == '/' ==> "/" <= from;
    if '/' !in from {
      SplitOfSegment(from);
    }
    if dir != [] {
      assert forall i :: 0 <= i < |dir| ==> dir[i] == (dir + [name])[i];
      JoinKeepsNames(dir);
      JoinOfSplit(from);
      JoinOfConcat(dir, Split(from));
      NoBackslashes(Join(dir), from);
      OnlyDot(dir);
    } else {
      assert dir + [from] == [from];
      JoinOfOne(from);
    }
  }

  lemma {:induction false} JoinOfOne(name: string)
    ensures Join([name]) == name
  {
  }

  lemma {:induction false} OnlyDot(dir: seq<string>)
    requires dir != [] && SlashFree(dir)
    ensures Join(dir) == "." <==> dir == ["."]
  {
    SplitOfNames(dir);
    SplitOfSegment(".");
    JoinOfOne(".");
  }

  lemma {:induction false} NoBackslashes(a: string, b: string)
    requires '\\' !in a && '\\' !in b
    ensures Slashes(a + "/" + b) == a + "/" + b
  {
    var s := a + "/" + b;
    forall i | 0 <= i < |s|
      ensures s[i] != '\\'
    {
      assert s[i] == if i < |a| then a[i] else if i == |a| then '/' else b[i - |a| - 1];
    }
  }

  /** `rest` is `path` without its final `/word` and digits, or `path` itself if it does not end so. */
  ghost predicate IsWithout(path: string, word: string, rest: string) {
    if exists node, w, digits :: EndsInPort(path, node, w, digits, word)
    then exists w, digits :: EndsInPort(path, rest, w, digits, word)
    else rest == path
  }

  lemma {:induction false} WithoutPortMeans(path: string, word: string, rest: string)
    requires word != "" && forall i :: 0 <= i < |word| ==> !('0' <= word[i] <= '9') && word[i] != '/'
    requires IsWithout(path, word, rest)
    ensures WithoutPort(path, word) == rest
  {
    hide WithoutPort;
    OnlyThePortIsDropped(path, word);
  }

  /** The node an edge comes from is its source without an output port, and then without an input port. */
  lemma {:induction false} PortsAreDropped(e: Edge, bare: string, node: string)
    requires IsWithout(From(e), "out", bare) && IsWithout(bare, "in", node)
    ensures FromNode(e) == node
  {
    hide IsWithout, WithoutPort, From;
    WithoutPortMeans(From(e), "out", bare);
    WithoutPortMeans(bare, "in", node);
  }

  // ---------- hops ----------

  predicate Joins(e: Edge, a: string, b: string) {
    (FromNode(e) == a && e.to == b) || (FromNode(e) == b && e.to == a)
  }

  /** An edge joins the two nodes, whichever way it points. */
  ghost predicate Linked(edges: seq<Edge>, a: string, b: string) {
    exists e :: e in edges && Joins(e, a, b)
  }

  ghost predicate IsWalk(edges: seq<Edge>, walk: seq<string>, a: string, b: string) {
    && walk != [] && walk[0] == a && walk[|walk| - 1] == b
    && forall i :: 0 < i < |walk| ==> Linked(edges, walk[i - 1], walk[i])
  }

  /** At most `radius` hops apart. */
  ghost predicate Within(edges: seq<Edge>, a: string, b: string, radius: nat) {
    exists walk :: IsWalk(edges, walk, a, b) && |walk| <= radius + 1
  }

  ghost predicate InEgo(edges: seq<Edge>, seed: string, radius: nat, e: Edge) {
    || Within(edges, seed, e.to, radius)
    || Within(edges, seed, FromNode(e), radius)
    || Within(edges, seed, From(e), radius)
  }

  /** The edges of `some` that touch the neighbourhood, in their order. */
  ghost function Ego(edges: seq<Edge>, some: seq<Edge>, seed: string, radius: nat): seq<Edge> {
    if some == [] then []
    else
      var e := some[|some| - 1];
      Ego(edges, some[..|some| - 1], seed, radius) + (if InEgo(edges, seed, radius, e) then [e] else [])
  }

  lemma {:induction false} ZeroHops(edges: seq<Edge>, a: string, b: string)
    ensures Within(edges, a, b, 0) <==> a == b
  {
    if a == b {
      assert IsWalk(edges, [a], a, b);
    }
  }

  /** So the wire from a sibling joins the two paths and is in the neighbourhood of both. */
  lemma {:induction false} WireOfASibling(edges: seq<Edge>, dir: seq<string>, name: string, from: string, index: int,
      radius: nat)
    requires Names(dir + [name]) && Names([from]) && dir != ["."]
    requires IsWithout(Join(dir + [from]), "out", Join(dir + [from]))
      && IsWithout(Join(dir + [from]), "in", Join(dir + [from]))
    ensures var e := Op(Join(dir + [name]), from, index);
      && (forall a, b :: Joins(e, a, b) <==>
            || (a == Join(dir + [from]) && b == Join(dir + [name]))
            || (b == Join(dir + [from]) && a == Join(dir + [name])))
      && InEgo(edges, Join(dir + [from]), radius, e) && InEgo(edges, Join(dir + [name]), radius, e)
  {
    hide From, FromNode, IsWithout, Join, Within;
    var e := Op(Join(dir + [name]), from, index);
    assert [from][0] == from;
    SourceOfAnInput(dir, name, from, index);
    PortsAreDropped(e, Join(dir + [from]), Join(dir + [from]));
    ZeroHops(edges, Join(dir + [from]), Join(dir + [from]));
    ZeroHops(edges, Join(dir + [name]), Join(dir + [name]));
    WithinGrows(edges, Join(dir + [from]), Join(dir + [from]), 0, radius);
    WithinGrows(edges, Join(dir + [name]), Join(dir + [name]), 0, radius);
  }

  /** One more hop. */
  lemma {:induction false} OneMoreHop(edges: seq<Edge>, a: string, c: string, radius: nat)
    ensures Within(edges, a, c, radius + 1)
      <==> Within(edges, a, c, radius) || exists b :: Within(edges, a, b, radius) && Linked(edges, b, c)
  {
    hide Linked;
    if Within(edges, a, c, radius + 1) && !Within(edges, a, c, radius) {
      var walk :| IsWalk(edges, walk, a, c) && |walk| <= radius + 2;
      LastHop(edges, walk, a, c);
    }
    if Within(edges, a, c, radius) {
      WithinGrows(edges, a, c, radius, radius + 1);
    }
    if b :| Within(edges, a, b, radius) && Linked(edges, b, c) {
      var walk :| IsWalk(edges, walk, a, b) && |walk| <= radius + 1;
      assert IsWalk(edges, walk + [c], a, c);
    }
  }

  lemma {:induction false} LastHop(edges: seq<Edge>, walk: seq<string>, a: string, c: string)
    requires IsWalk(edges, walk, a, c) && |walk| > 1
    ensures exists b :: Within(edges, a, b, |walk| - 2) && Linked(edges, b, c)
  {
    hide Linked;
    var n := |walk| - 1;
    assert IsWalk(edges, walk[..n], a, walk[n - 1]);
    assert Linked(edges, walk[n - 1], walk[n]);
  }

  lemma {:induction false} WithinGrows(edges: seq<Edge>, a: string, b: string, r1: nat, r2: nat)
    requires r1 <= r2 && Within(edges, a, b, r1)
    ensures Within(edges, a, b, r2)
  {
    var walk :| IsWalk(edges, walk, a, b) && |walk| <= r1 + 1;
    assert |walk| <= r2 + 1;
  }

  predicate Subsequence<T(==)>(a: seq<T>, b: seq<T>) {
    if a == [] then true
    else if b == [] then false
    else if a[|a| - 1] == b[|b| - 1] && Subsequence(a[..|a| - 1], b[..|b| - 1]) then true
    else Subsequence(a, b[..|b| - 1])
  }

  /** A larger radius keeps every edge of a smaller one, in the same order. */
  lemma {:induction false} EgoGrows(edges: seq<Edge>, some: seq<Edge>, seed: string, r1: nat, r2: nat)
    requires r1 <= r2
    ensures Subsequence(Ego(edges, some, seed, r1), Ego(edges, some, seed, r2))
  {
    hide InEgo;
    if some != [] {
      var n := |some| - 1;
      EgoGrows(edges, some[..n], seed, r1, r2);
      InEgoGrows(edges, seed, r1, r2, some[n]);
      var a, b := Ego(edges, some[..n], seed, r1), Ego(edges, some[..n], seed, r2);
      SubsequenceGrows(a, b, some[n]);
      assert a + [] == a && b + [] == b;
    }
  }

  lemma {:induction false} SubsequenceGrows<T>(a: seq<T>, b: seq<T>, x: T)
    requires Subsequence(a, b)
    ensures Subsequence(a, b + [x]) && Subsequence(a + [x], b + [x])
  {
    assert (b + [x])[..|b|] == b && (a + [x])[..|a|] == a;
  }

  lemma {:induction false} InEgoGrows(edges: seq<Edge>, seed: string, r1: nat, r2: nat, e: Edge)
    requires r1 <= r2
    ensures InEgo(edges, seed, r1, e) ==> InEgo(edges, seed, r2, e)
  {
    if Within(edges, seed, e.to, r1) {
      WithinGrows(edges, seed, e.to, r1, r2);
    } else if Within(edges, seed, FromNode(e), r1) {
      WithinGrows(edges, seed, FromNode(e), r1, r2);
    } else if Within(edges, seed, From(e), r1) {
      WithinGrows(edges, seed, From(e), r1, r2);
    }
  }

  // ---------- the search ----------

  ghost predicate Adjacency(adj: map<string, seq<string>>, edges: seq<Edge>) {
    forall a, b :: (a in adj && b in adj[a]) <==> Linked(edges, a, b)
  }

  /** The nodes at most `radius` hops from `seed`. */
  ghost predicate IsBall(keep: set<string>, edges: seq<Edge>, seed: string, radius: nat) {
    forall n :: n in keep <==> Within(edges, seed, n, radius)
  }

  method Link(adj: map<string, seq<string>>, a: string, b: string) returns (linked: map<string, seq<string>>)
    ensures forall x, y ::
      (x in linked && y in linked[x]) <==> ((x in adj && y in adj[x]) || (x == a && y == b) || (x == b && y == a))
  {
    linked := adj;
    if a !in linked {
      linked := linked[a := []];
    }
    if b !in linked {
      linked := linked[b := []];
    }
    linked := linked[a := Added(linked[a], b)];
    linked := linked[b := Added(linked[b], a)];
  }

  /** A set in insertion order. */
  function Added(s: seq<string>, x: string): (r: seq<string>)
    ensures forall y :: y in r <==> y in s || y == x
  {
    if x in s then s else s + [x]
  }

  method Neighbours(edges: seq<Edge>) returns (adj: map<string, seq<string>>)
    ensures Adjacency(adj, edges)
  {
    hide FromNode, Linked;
    NoLinks();
    adj := map[];
    for i := 0 to |edges|
      invariant Adjacency(adj, edges[..i])
    {
      ghost var before := adj;
      assert edges[..i + 1] == edges[..i] + [edges[i]];
      LinkedByOneMore(edges[..i], edges[i]);
      adj := Link(adj, FromNode(edges[i]), edges[i].to);
      assert forall a, b :: (a in adj && b in adj[a]) <==> Linked(edges[..i], a, b) || Joins(edges[i], a, b);
    }
    assert edges[..|edges|] == edges;
  }

  lemma {:induction false} NoLinks()
    ensures forall a, b :: !Linked([], a, b)
  {
  }

  lemma {:induction false} LinkedByOneMore(edges: seq<Edge>, e: Edge)
    ensures forall a, b :: Linked(edges + [e], a, b) <==> Linked(edges, a, b) || Joins(e, a, b)
  {
    hide Joins;
    forall a, b
      ensures Linked(edges + [e], a, b) <==> Linked(edges, a, b) || Joins(e, a, b)
    {
      assert e in edges + [e];
      assert forall x :: x in edges ==> x in edges + [e];
    }
  }

  ghost predicate Reached(adj: map<string, seq<string>>, from: seq<string>, m: string) {
    exists n :: n in from && n in adj && m in adj[n]
  }

  lemma {:induction false} ReachedFromOneMore(adj: map<string, seq<string>>, from: seq<string>, n: string)
    ensures forall m :: Reached(adj, from + [n], m) <==> Reached(adj, from, m) || (n in adj && m in adj[n])
  {
    forall m
      ensures Reached(adj, from + [n], m) <==> Reached(adj, from, m) || (n in adj && m in adj[n])
    {
      assert n in from + [n];
      assert forall k :: k in from ==> k in from + [n];
    }
  }

  /** One round of the breadth-first search: the unvisited neighbours of the frontier. */
  method Expand(adj: map<string, seq<string>>, keep: set<string>, frontier: seq<string>)
    returns (kept: set<string>, next: seq<string>)
    ensures forall m :: m in kept <==> m in keep || m in next
    ensures forall m :: m in kept <==> m in keep || Reached(adj, frontier, m)
  {
    hide Reached;
    kept, next := keep, [];
    NothingReached(adj);
    for i := 0 to |frontier|
      invariant forall m :: m in kept <==> m in keep || m in next
      invariant forall m :: m in kept <==> m in keep || Reached(adj, frontier[..i], m)
    {
      var n := frontier[i];
      ReachedFromOneMore(adj, frontier[..i], n);
      assert frontier[..i + 1] == frontier[..i] + [n];
      if n in adj {
        kept, next := Visit(adj[n], kept, next);
      }
    }
    assert frontier[..|frontier|] == frontier;
  }

  lemma {:induction false} NothingReached(adj: map<string, seq<string>>)
    ensures forall m :: !Reached(adj, [], m)
  {
  }

  method Visit(neighbours: seq<string>, kept0: set<string>, next0: seq<string>)
    returns (kept: set<string>, next: seq<string>)
    ensures forall m :: m in kept <==> m in kept0 || m in neighbours
    ensures forall m :: m in next <==> m in next0 || (m in neighbours && m !in kept0)
  {
    kept, next := kept0, next0;
    for i := 0 to |neighbours|
      invariant forall m :: m in kept <==> m in kept0 || m in neighbours[..i]
      invariant forall m :: m in next <==> m in next0 || (m in neighbours[..i] && m !in kept0)
    {
      var m := neighbours[i];
      assert neighbours[..i + 1] == neighbours[..i] + [m];
      if m !in kept {
        kept := kept + {m};
        next := next + [m];
      }
    }
    assert neighbours[..|neighbours|] == neighbours;
  }

  method EgoSubgraph(edges: seq<Edge>, seed: string, radius: int) returns (ego: seq<Edge>)
    ensures ego == Ego(edges, edges, NormPath(seed), if radius < 0 then 0 else radius)
  {
    hide InEgo, FromNode, From, Within, Reached;
    var seedNorm := NormPath(seed);
    ghost var hops: nat := if radius < 0 then 0 else radius;
    var adj := Neighbours(edges);
    var keep, frontier := {seedNorm}, [seedNorm];
    ZeroHopsBall(edges, seedNorm);
    var r := 0;
    while r < radius
      invariant 0 <= r <= hops && (radius <= 0 ==> r == 0)
      invariant IsBall(keep, edges, seedNorm, r) && forall n :: n in frontier ==> n in keep
      invariant forall n, m :: n in keep && n !in frontier && Linked(edges, n, m) ==> m in keep
      decreases radius - r
    {
      var kept, next := Expand(adj, keep, frontier);
      BallGrows(edges, adj, seedNorm, r, keep, frontier, kept);
      keep, frontier := kept, next;
      r := r + 1;
    }
    ego := [];
    for i := 0 to |edges|
      invariant ego == Ego(edges, edges[..i], seedNorm, hops)
    {
      assert edges[..i + 1][..i] == edges[..i];
      var e := edges[i];
      var touches := e.to in keep || FromNode(e) in keep || From(e) in keep;
      InEgoMeans(edges, seedNorm, hops, e);
      if touches {
        ego := ego + [e];
      }
    }
    assert edges[..|edges|] == edges;
  }

  lemma {:induction false} ZeroHopsBall(edges: seq<Edge>, seed: string)
    ensures IsBall({seed}, edges, seed, 0)
  {
    forall n
      ensures n in {seed} <==> Within(edges, seed, n, 0)
    {
      ZeroHops(edges, seed, n);
    }
  }

  lemma {:induction false} InEgoMeans(edges: seq<Edge>, seed: string, radius: nat, e: Edge)
    ensures InEgo(edges, seed, radius, e) <==>
      (Within(edges, seed, e.to, radius)
      || Within(edges, seed, FromNode(e), radius) || Within(edges, seed, From(e), radius))
  {
  }

  /** Expanding only the frontier still reaches the whole next ball. */
  lemma {:induction false} BallGrows(edges: seq<Edge>, adj: map<string, seq<string>>, seed: string, r: nat,
      keep: set<string>, frontier: seq<string>, kept: set<string>)
    requires Adjacency(adj, edges) && IsBall(keep, edges, seed, r) && forall n :: n in frontier ==> n in keep
    requires forall n, m :: n in keep && n !in frontier && Linked(edges, n, m) ==> m in keep
    requires forall m :: m in kept <==> m in keep || Reached(adj, frontier, m)
    ensures IsBall(kept, edges, seed, r + 1)
    ensures forall n, m :: n in keep && Linked(edges, n, m) ==> m in kept
  {
    hide Linked, Within;
    forall n, m | n in keep && Linked(edges, n, m)
      ensures m in kept
    {
      if n in frontier {
        assert n in adj && m in adj[n];
      }
    }
    forall m
      ensures m in kept <==> Within(edges, seed, m, r + 1)
    {
      OneMoreHop(edges, seed, m, r);
      if m in kept && m !in keep {
        var n :| n in frontier && n in adj && m in adj[n];
        assert Within(edges, seed, n, r) && Linked(edges, n, m);
      }
    }
  }
}
