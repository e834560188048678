/** The walks over an expanded project (src/toe/digest.ts, src/toe/wires.ts, src/toe/walkDepth.ts). */
module TreeWalk {
  import opened Options
  import opened Text
  import EgoGraph

  /** A directory lists its entries in the order the walk sees them. */
  datatype Node = File(body: string) | Dir(entries: seq<Entry>)

  datatype Entry = Entry(name: string, node: Node)

  /** An entry met on the way, with the directory it is in. Top-level entries have depth 1. */
  datatype Found = Found(rel: string, entry: Entry, siblings: seq<Entry>, depth: nat, hidden: bool)

  // ---------- filter and depth ----------

  predicate PassesFilter(rel: string, filter: string) {
    filter == "" || rel == filter || StartsWith(rel, filter + "/") || StartsWith(filter, rel + "/")
  }

  function NormFilter(pathFilter: Option<string>): string {
    if pathFilter.Some? && pathFilter.value != "" then NormPath(pathFilter.value) else ""
  }

  /** `parts.filter(Boolean)`. */
  function NonEmpty(parts: seq<string>): seq<string> {
    if parts == [] then [] else (if parts[0] != "" then [parts[0]] else []) + NonEmpty(parts[1..])
  }

  function ResolveWalkMaxDepth(pathFilter: Option<string>, maxDepth: int, relativeDepth: Option<int>): int {
    var filter := NormFilter(pathFilter);
    if filter == "" then maxDepth
    else
      var levels := if relativeDepth.Some? then relativeDepth.value else maxDepth;
      |NonEmpty(Split(filter))| + if levels < 0 then 0 else levels
  }

  /** Depth 0 is the root itself. */
  function Under(parent: string, depth: nat, name: string): string {
    if depth == 0 then name else parent + "/" + name
  }

  predicate IsNode(name: string) {
    EndsWith(Lower(name), ".n")
  }

  predicate IsNetwork(name: string) {
    EndsWith(Lower(name), ".network")
  }

  /** The path that the filter looks at: a file's extension does not count. */
  function Key(f: Found): string {
    if f.entry.node.Dir? then f.rel
    else if IsNode(f.entry.name) && |f.rel| >= 2 then f.rel[..|f.rel| - 2]
    else if IsNetwork(f.entry.name) && |f.rel| >= 8 then f.rel[..|f.rel| - 8]
    else f.rel
  }

  // ---------- brute force ----------

  /** Every entry of the tree, whatever its depth. */
  function All(entries: seq<Entry>, i: nat, parent: string, depth: nat, hidden: bool): seq<Found>
    requires i <= |entries|
    decreases entries, |entries| - i
  {
    if i == |entries| then []
    else
      var f := Meet(entries, i, parent, depth, hidden);
      [f] + Below(f) + All(entries, i + 1, parent, depth, hidden)
  }

  function Meet(entries: seq<Entry>, i: nat, parent: string, depth: nat, hidden: bool): (f: Found)
    requires i < |entries|
    ensures f.entry == entries[i]
  {
    var e := entries[i];
    Found(Under(parent, depth, e.name), e, entries, depth + 1, hidden || StartsWith(e.name, "."))
  }

  function Below(f: Found): seq<Found>
    decreases f.entry
  {
    if f.entry.node.Dir? then All(f.entry.node.entries, 0, f.rel, f.depth, f.hidden) else []
  }

  /** What a walk is meant to see. */
  predicate Wanted(f: Found, filter: string, maxDepth: int) {
    !f.hidden && f.depth <= maxDepth && PassesFilter(Key(f), filter)
  }

  function Filter(found: seq<Found>, filter: string, maxDepth: int): seq<Found> {
    if found == [] then []
    else (if Wanted(found[0], filter, maxDepth) then [found[0]] else []) + Filter(found[1..], filter, maxDepth)
  }

  // ---------- the pruned walk ----------

  function Pruned(entries: seq<Entry>, i: nat, parent: string, depth: nat, filter: string, maxDepth: int): seq<Found>
    requires i <= |entries|
    decreases entries, |entries| - i, 1
  {
    if i == |entries| then []
    else
      PrunedHere(entries, i, parent, depth, filter, maxDepth)
      + Pruned(entries, i + 1, parent, depth, filter, maxDepth)
  }

  /** One turn of the loop: hidden names and names too deep are skipped, a directory that fails the filter is
      not entered, nor is one at the last level. */
  function PrunedHere(
      entries: seq<Entry>, i: nat, parent: string, depth: nat, filter: string, maxDepth: int): seq<Found>
    requires i < |entries|
    decreases entries, |entries| - i, 0
  {
    var f := Meet(entries, i, parent, depth, false);
    if f.hidden || depth + 1 > maxDepth || !PassesFilter(Key(f), filter) then []
    else if f.entry.node.Dir? && depth + 1 < maxDepth then
      [f] + Pruned(f.entry.node.entries, 0, f.rel, depth + 1, filter, maxDepth)
    else [f]
  }

  // ---------- pruning loses nothing ----------

  /** Below a path that fails the filter, every path fails it. */
  lemma {:induction false} FilterClosed(parent: string, rest: string, filter: string)
    requires PassesFilter(parent + "/" + rest, filter)
    ensures PassesFilter(parent, filter)
  {
    var rel := parent + "/" + rest;
    if filter != "" {
      if StartsWith(rel, filter + "/") || rel == filter {
        if |filter| < |parent| {
          assert (filter + "/") == rel[..|filter| + 1] == parent[..|filter| + 1];
        } else if |filter| == |parent| {
          assert filter == rel[..|filter|] == parent;
        } else {
          assert filter == rel[..|filter|];
          assert parent + "/" == filter[..|parent| + 1];
        }
      } else {
        assert parent + "/" == (rel + "/")[..|parent| + 1] == filter[..|parent| + 1];
      }
    }
  }

  lemma {:induction false} KeyClosed(entries: seq<Entry>, i: nat, parent: string, depth: nat, hidden: bool,
      filter: string)
    requires i < |entries| && depth > 0 && PassesFilter(Key(Meet(entries, i, parent, depth, hidden)), filter)
    ensures PassesFilter(parent, filter)
  {
    hide PassesFilter;
    var f := Meet(entries, i, parent, depth, hidden);
    var name := entries[i].name;
    var key := Key(f);
    assert |Lower(name)| == |name|;
    var cut := |f.rel| - |key|;
    assert key == parent + "/" + name[..|name| - cut];
    FilterClosed(parent, name[..|name| - cut], filter);
  }

  lemma {:induction false} FilterOfConcat(a: seq<Found>, b: seq<Found>, filter: string, maxDepth: int)
    ensures Filter(a + b, filter, maxDepth) == Filter(a, filter, maxDepth) + Filter(b, filter, maxDepth)
  {
    hide Wanted, Filter;
    if a == [] {
      assert a + b == b;
      FilterOfNone(filter, maxDepth);
    } else {
      FilterOfConcat(a[1..], b, filter, maxDepth);
      assert (a + b)[1..] == a[1..] + b;
      FilterOfFirst(a, filter, maxDepth);
      FilterOfFirst(a + b, filter, maxDepth);
    }
  }

  lemma {:induction false} FilterOfFirst(found: seq<Found>, filter: string, maxDepth: int)
    requires found != []
    ensures Filter(found, filter, maxDepth)
      == (if Wanted(found[0], filter, maxDepth) then [found[0]] else []) + Filter(found[1..], filter, maxDepth)
  {
    hide Wanted;
  }

  lemma {:induction false} FilterOfNone(filter: string, maxDepth: int)
    ensures Filter([], filter, maxDepth) == []
  {
  }

  /** Nothing is wanted below a hidden directory, one at the last level, or one that fails the filter. */
  lemma {:induction false} NothingBelow(entries: seq<Entry>, i: nat, parent: string, depth: nat, hidden: bool,
      filter: string, maxDepth: int)
    requires i <= |entries| && depth > 0
    requires hidden || depth >= maxDepth || !PassesFilter(parent, filter)
    ensures Filter(All(entries, i, parent, depth, hidden), filter, maxDepth) == []
    decreases entries, |entries| - i
  {
    hide PassesFilter, Key;
    if i < |entries| {
      var f := Meet(entries, i, parent, depth, hidden);
      if !hidden && depth < maxDepth && PassesFilter(Key(f), filter) {
        KeyClosed(entries, i, parent, depth, hidden, filter);
      }
      assert !Wanted(f, filter, maxDepth);
      NothingBelow(entries, i + 1, parent, depth, hidden, filter, maxDepth);
      if f.entry.node.Dir? {
        DirKey(f);
        NothingBelow(f.entry.node.entries, 0, f.rel, f.depth, f.hidden, filter, maxDepth);
      }
      var rest := All(entries, i + 1, parent, depth, hidden);
      FilterOfConcat([f] + Below(f), rest, filter, maxDepth);
      FilterOfConcat([f], Below(f), filter, maxDepth);
      FilterOfOne(f, filter, maxDepth);
    }
  }

  lemma {:induction false} DirKey(f: Found)
    ensures f.entry.node.Dir? ==> Key(f) == f.rel
  {
  }

  lemma {:induction false} FilterOfOne(f: Found, filter: string, maxDepth: int)
    ensures Filter([f], filter, maxDepth) == if Wanted(f, filter, maxDepth) then [f] else []
  {
    assert [f][1..] == [];
  }

  /** The pruned walk sees, in order, exactly what a walk over the whole tree would keep. */
  lemma {:induction false} PruningLosesNothing(entries: seq<Entry>, i: nat, parent: string, depth: nat,
      filter: string, maxDepth: int)
    requires i <= |entries|
    ensures Pruned(entries, i, parent, depth, filter, maxDepth)
      == Filter(All(entries, i, parent, depth, false), filter, maxDepth)
    decreases entries, |entries| - i
  {
    hide PassesFilter, Key;
    if i < |entries| {
      var f := Meet(entries, i, parent, depth, false);
      PruningLosesNothing(entries, i + 1, parent, depth, filter, maxDepth);
      if f.entry.node.Dir? {
        DirKey(f);
        if Wanted(f, filter, maxDepth) && f.depth < maxDepth {
          PruningLosesNothing(f.entry.node.entries, 0, f.rel, f.depth, filter, maxDepth);
        } else {
          NothingBelow(f.entry.node.entries, 0, f.rel, f.depth, f.hidden, filter, maxDepth);
        }
      }
      var rest := All(entries, i + 1, parent, depth, false);
      FilterOfConcat([f] + Below(f), rest, filter, maxDepth);
      FilterOfConcat([f], Below(f), filter, maxDepth);
      FilterOfOne(f, filter, maxDepth);
    }
  }

  // ---------- what a walk lists ----------

  datatype Kind = DirKind | NodeKind

  /** `hint`: the text of the `.n` file that the operator type is read from. */
  datatype DigestNode = DigestNode(kind: Kind, rel: string, hint: Option<string>)

  function Lookup(entries: seq<Entry>, name: string): Option<Node> {
    if entries == [] then None
    else if entries[0].name == name then Some(entries[0].node)
    else Lookup(entries[1..], name)
  }

  function HintIn(siblings: seq<Entry>, name: string): Option<string> {
    match Lookup(siblings, name)
    case Some(File(body)) => Some(body)
    case _ => None
  }

  predicate HasDir(siblings: seq<Entry>, name: string) {
    Lookup(siblings, name).Some? && Lookup(siblings, name).value.Dir?
  }

  /** A directory, or a `.n` file without a directory of the same name beside it. */
  function ListingOf(f: Found): seq<DigestNode> {
    var name := f.entry.name;
    if f.entry.node.Dir? then [DigestNode(DirKind, f.rel, HintIn(f.siblings, name + ".n"))]
    else if IsNode(name) && |name| >= 2 && !HasDir(f.siblings, name[..|name| - 2]) then
      [DigestNode(NodeKind, Key(f), Some(f.entry.node.body))]
    else []
  }

  function Listing(found: seq<Found>): seq<DigestNode> {
    if found == [] then [] else ListingOf(found[0]) + Listing(found[1..])
  }

  lemma {:induction false} ListingOfConcat(a: seq<Found>, b: seq<Found>)
    ensures Listing(a + b) == Listing(a) + Listing(b)
  {
    hide ListingOf, Listing;
    if a == [] {
      assert a + b == b;
      NothingListed();
    } else {
      ListingOfConcat(a[1..], b);
      assert (a + b)[1..] == a[1..] + b;
      ListingOfFirst(a);
      ListingOfFirst(a + b);
    }
  }

  lemma {:induction false} ListingOfFirst(found: seq<Found>)
    requires found != []
    ensures Listing(found) == ListingOf(found[0]) + Listing(found[1..])
  {
    hide ListingOf;
  }

  lemma {:induction false} ListingOfOne(f: Found)
    ensures Listing([f]) == ListingOf(f)
  {
    assert [f][1..] == [];
  }

  method WalkOutline(entries: seq<Entry>, parent: string, depth: nat, filter: string, maxDepth: int,
      before: seq<DigestNode>) returns (out: seq<DigestNode>)
    ensures out == before + Listing(Pruned(entries, 0, parent, depth, filter, maxDepth))
    decreases entries
  {
    hide PassesFilter, Listing, IsNode, HasDir, HintIn, Under, Key;
    out := before;
    NothingListed();
    for i := 0 to |entries|
      invariant out + Listing(Pruned(entries, i, parent, depth, filter, maxDepth))
        == before + Listing(Pruned(entries, 0, parent, depth, filter, maxDepth))
    {
      ghost var here := PrunedHere(entries, i, parent, depth, filter, maxDepth);
      ListingOfConcat(here, Pruned(entries, i + 1, parent, depth, filter, maxDepth));
      var name := entries[i].name;
      if StartsWith(name, ".") || depth + 1 > maxDepth {
        continue;
      }
      var rel := Under(parent, depth, name);
      NameInside(parent, depth, name);
      ghost var f := Meet(entries, i, parent, depth, false);
      ListingOfOne(f);
      if entries[i].node.Dir? {
        DirKey(f);
        if !PassesFilter(rel, filter) {
          continue;
        }
        out := out + [DigestNode(DirKind, rel, HintIn(entries, name + ".n"))];
        if depth + 1 < maxDepth {
          ListingOfConcat([f], Pruned(entries[i].node.entries, 0, rel, depth + 1, filter, maxDepth));
          out := WalkOutline(entries[i].node.entries, rel, depth + 1, filter, maxDepth, out);
        }
        continue;
      }
      if !IsNode(name) {
        continue;
      }
      NodeKey(f);
      var nodeRel := rel[..|rel| - 2];
      if !PassesFilter(nodeRel, filter) || HasDir(entries, name[..|name| - 2]) {
        continue;
      }
      out := out + [DigestNode(NodeKind, nodeRel, Some(entries[i].node.body))];
    }
  }

  lemma {:induction false} NameInside(parent: string, depth: nat, name: string)
    ensures |Under(parent, depth, name)| >= |name|
  {
  }

  lemma {:induction false} NothingListed()
    ensures Listing([]) == []
  {
  }

  lemma {:induction false} NodeKey(f: Found)
    requires IsNode(f.entry.name) && f.entry.node.File? && |f.rel| >= |f.entry.name|
    ensures |f.entry.name| >= 2 && |f.rel| >= 2 && Key(f) == f.rel[..|f.rel| - 2]
  {
    assert |Lower(f.entry.name)| == |f.entry.name|;
  }

  /** In the order of the walk; the final sort is left out. */
  method CollectOutlineEntries(
      root: seq<Entry>, pathFilter: Option<string>, maxDepth: int, relativeDepth: Option<int>)
    returns (out: seq<DigestNode>)
    ensures out == Listing(Filter(All(root, 0, "", 0, false),
        NormFilter(pathFilter), ResolveWalkMaxDepth(pathFilter, maxDepth, relativeDepth)))
  {
    hide Pruned, Filter, All, Listing;
    var filterNorm := NormFilter(pathFilter);
    var walkMaxDepth :=
      ResolveWalkMaxDepth(if filterNorm == "" then None else Some(filterNorm), maxDepth, relativeDepth);
    NormTwice(pathFilter);
    PruningLosesNothing(root, 0, "", 0, filterNorm, walkMaxDepth);
    out := WalkOutline(root, "", 0, filterNorm, walkMaxDepth, []);
  }

  lemma {:induction false} NormTwice(pathFilter: Option<string>)
    ensures var filter := NormFilter(pathFilter); NormFilter(if filter == "" then None else Some(filter)) == filter
  {
    if pathFilter.Some? {
      NormPathTwice(pathFilter.value);
    }
  }

  lemma {:induction false} NormPathTwice(s: string)
    ensures NormPath(NormPath(s)) == NormPath(s)
  {
    NoLeadingSlash(s);
    var t := NormPath(s);
    assert Slashes(t) == t;
  }

  lemma {:induction false} NoLeadingSlash(s: string)
    ensures var t := WithoutLeadingSlashes(s); t == "" || (t[0] != '/' && t[0] != '\\')
  {
    if s != "" && (s[0] == '/' || s[0] == '\\') {
      NoLeadingSlash(s[1..]);
    }
  }

  // ---------- the edges that a walk collects ----------

  datatype Input = Input(name: string, index: int, connector: string, family: string)

  /** What is read in a `.n` and in a `.network` file: parsers left open. */
  type Parser = string -> seq<Input>

  function OpEdges(to: string, inputs: seq<Input>): seq<EgoGraph.Edge> {
    seq(|inputs|, i requires 0 <= i < |inputs| => EgoGraph.Op(to, inputs[i].name, inputs[i].index))
  }

  function CompEdges(to: string, inputs: seq<Input>): seq<EgoGraph.Edge> {
    seq(|inputs|, i requires 0 <= i < |inputs| =>
      EgoGraph.Comp(to, inputs[i].name, inputs[i].index, inputs[i].connector, inputs[i].family))
  }

  function EdgesOf(f: Found, nInputs: Parser, compInputs: Parser): seq<EgoGraph.Edge> {
    if f.entry.node.Dir? || f.entry.node.body == "" then []
    else if IsNode(f.entry.name) then OpEdges(Key(f), nInputs(f.entry.node.body))
    else if IsNetwork(f.entry.name) then CompEdges(Key(f), compInputs(f.entry.node.body))
    else []
  }

  function Edges(found: seq<Found>, nInputs: Parser, compInputs: Parser): seq<EgoGraph.Edge> {
    if found == [] then [] else EdgesOf(found[0], nInputs, compInputs) + Edges(found[1..], nInputs, compInputs)
  }

  lemma {:induction false} EdgesOfConcat(a: seq<Found>, b: seq<Found>, nInputs: Parser, compInputs: Parser)
    ensures Edges(a + b, nInputs, compInputs) == Edges(a, nInputs, compInputs) + Edges(b, nInputs, compInputs)
  {
    hide EdgesOf, Edges;
    if a == [] {
      assert a + b == b;
      EdgesOfNone(nInputs, compInputs);
    } else {
      EdgesOfConcat(a[1..], b, nInputs, compInputs);
      assert (a + b)[1..] == a[1..] + b;
      EdgesOfFirst(a, nInputs, compInputs);
      EdgesOfFirst(a + b, nInputs, compInputs);
    }
  }

  lemma {:induction false} EdgesOfFirst(found: seq<Found>, nInputs: Parser, compInputs: Parser)
    requires found != []
    ensures Edges(found, nInputs, compInputs)
      == EdgesOf(found[0], nInputs, compInputs) + Edges(found[1..], nInputs, compInputs)
  {
    hide EdgesOf;
  }

  lemma {:induction false} EdgesOfNone(nInputs: Parser, compInputs: Parser)
    ensures Edges([], nInputs, compInputs) == []
  {
  }

  lemma {:induction false} EdgesOfOne(f: Found, nInputs: Parser, compInputs: Parser)
    ensures Edges([f], nInputs, compInputs) == EdgesOf(f, nInputs, compInputs) && Edges([], nInputs, compInputs) == []
  {
    assert [f][1..] == [];
  }

  method WalkEdges(entries: seq<Entry>, parent: string, depth: nat, filter: string, maxDepth: int,
      nInputs: Parser, compInputs: Parser, before: seq<EgoGraph.Edge>) returns (edges: seq<EgoGraph.Edge>)
    ensures edges == before + Edges(Pruned(entries, 0, parent, depth, filter, maxDepth), nInputs, compInputs)
    decreases entries
  {
    hide PassesFilter, Edges, IsNode, IsNetwork, Under, Key;
    edges := before;
    for i := 0 to |entries|
      invariant edges + Edges(Pruned(entries, i, parent, depth, filter, maxDepth), nInputs, compInputs)
        == before + Edges(Pruned(entries, 0, parent, depth, filter, maxDepth), nInputs, compInputs)
    {
      ghost var here := PrunedHere(entries, i, parent, depth, filter, maxDepth);
      EdgesOfConcat(here, Pruned(entries, i + 1, parent, depth, filter, maxDepth), nInputs, compInputs);
      ghost var f := Meet(entries, i, parent, depth, false);
      EdgesOfOne(f, nInputs, compInputs);
      var name := entries[i].name;
      if StartsWith(name, ".") || depth + 1 > maxDepth {
        continue;
      }
      var rel := Under(parent, depth, name);
      NameInside(parent, depth, name);
      if entries[i].node.Dir? {
        DirKey(f);
        if !PassesFilter(rel, filter) {
          continue;
        }
        if depth + 1 < maxDepth {
          EdgesOfConcat([f], Pruned(entries[i].node.entries, 0, rel, depth + 1, filter, maxDepth), nInputs, compInputs);
          edges := WalkEdges(entries[i].node.entries, rel, depth + 1, filter, maxDepth, nInputs, compInputs, edges);
        }
        continue;
      }
      var body := entries[i].node.body;
      if IsNode(name) {
        NodeKey(f);
        var nodeRel := rel[..|rel| - 2];
        if !PassesFilter(nodeRel, filter) || body == "" {
          continue;
        }
        edges := edges + OpEdges(nodeRel, nInputs(body));
        continue;
      }
      if IsNetwork(name) {
        NetworkKey(f);
        var compRel := rel[..|rel| - 8];
        if !PassesFilter(compRel, filter) || body == "" {
          continue;
        }
        edges := edges + CompEdges(compRel, compInputs(body));
      }
    }
    EdgesOfOne(Found("", Entry("", File("")), [], 0, false), nInputs, compInputs);
  }

  lemma {:induction false} NetworkKey(f: Found)
    requires IsNetwork(f.entry.name) && !IsNode(f.entry.name) && f.entry.node.File? && |f.rel| >= |f.entry.name|
    ensures |f.entry.name| >= 8 && |f.rel| >= 8 && Key(f) == f.rel[..|f.rel| - 8]
  {
    assert |Lower(f.entry.name)| == |f.entry.name|;
  }

  method CollectWireEdges(root: seq<Entry>, pathFilter: Option<string>, maxDepth: int, relativeDepth: Option<int>,
      nInputs: Parser, compInputs: Parser) returns (edges: seq<EgoGraph.Edge>)
    ensures edges == Edges(Filter(All(root, 0, "", 0, false),
        NormFilter(pathFilter), ResolveWalkMaxDepth(pathFilter, maxDepth, relativeDepth)), nInputs, compInputs)
  {
    hide Pruned, Filter, All, Edges;
    var filterNorm := NormFilter(pathFilter);
    var walkMaxDepth :=
      ResolveWalkMaxDepth(if filterNorm == "" then None else Some(filterNorm), maxDepth, relativeDepth);
    NormTwice(pathFilter);
    PruningLosesNothing(root, 0, "", 0, filterNorm, walkMaxDepth);
    edges := WalkEdges(root, "", 0, filterNorm, walkMaxDepth, nInputs, compInputs, []);
  }

  // ---------- what is wanted, in terms of names ----------

  /** The filter lets through the paths that are comparable with its parts: above them, they, or below them. */
  lemma {:induction false} FilterComparesNames(path: seq<string>, filter: string)
    requires path != [] && Names(path) && filter != ""
    ensures PassesFilter(Join(path), filter) <==> path <= Split(filter) || Split(filter) <= path
  {
    hide Join, Split;
    var parts := Split(filter);
    JoinOfSplit(filter);
    StrictlyBelow(path, parts);
    StrictlyBelow(parts, path);
    SplitOfNames(path);
    assert parts <= path <==> parts < path || parts == path;
    assert path <= parts <==> path < parts || parts == path;
  }

  lemma {:induction false} NonEmptyOfConcat(a: seq<string>, b: seq<string>)
    ensures |NonEmpty(a + b)| == |NonEmpty(a)| + |NonEmpty(b)|
  {
    if a == [] {
      assert a + b == b;
    } else {
      NonEmptyOfConcat(a[1..], b);
      assert (a + b)[1..] == a[1..] + b && (a + b)[0] == a[0];
    }
  }

  lemma {:induction false} NonEmptyKeepsAll(parts: seq<string>)
    ensures |NonEmpty(parts)| <= |parts|
    ensures "" !in parts <==> |NonEmpty(parts)| == |parts|
    ensures "" !in parts ==> NonEmpty(parts) == parts
  {
    if parts != [] {
      NonEmptyKeepsAll(parts[1..]);
      assert parts == [parts[0]] + parts[1..];
    }
  }

  /** What lies below the path that a filter names is let through exactly if the filter has no empty part: no
      slash at its end and none twice in a row. The path itself is, exactly if the empty parts come last. */
  lemma {:induction false} EmptyPartsHideWhatIsBelow(filter: string, more: seq<string>)
    requires filter != "" && more != [] && Names(NonEmpty(Split(filter)) + more)
    ensures var parts := Split(filter);
      var top := NonEmpty(parts);
      && (PassesFilter(Join(top + more), filter) <==> "" !in parts)
      && (top != [] ==> (PassesFilter(Join(top), filter) <==> top <= parts))
  {
    hide PassesFilter, Join, Split;
    var parts := Split(filter);
    var top := NonEmpty(parts);
    var path := top + more;
    FilterComparesNames(path, filter);
    NonEmptyKeepsAll(parts);
    if path <= parts {
      NonEmptyOfConcat(path, parts[|path|..]);
      assert parts == path + parts[|path|..];
      NonEmptyKeepsAll(path);
    }
    assert parts <= path ==> "" !in parts;
    if top != [] {
      assert forall i :: 0 <= i < |top| ==> top[i] == path[i];
      FilterComparesNames(top, filter);
    }
  }

  /** So a slash at the end, which survives the normalisation, hides everything below. */
  lemma {:induction false} TrailingSlashHidesWhatIsBelow(top: seq<string>, more: seq<string>)
    requires top != [] && more != [] && Names(top + more)
    ensures var filter := Join(top) + "/";
      && NormFilter(Some(filter)) == filter
      && PassesFilter(Join(top), filter) && !PassesFilter(Join(top + more), filter)
  {
    hide PassesFilter, Join, Split;
    var filter := Join(top) + "/";
    assert forall i :: 0 <= i < |top| ==> top[i] == (top + more)[i];
    JoinKeepsNames(top);
    NormKeeps(filter);
    SplitOfTrailingSlash(top);
    FilterComparesNames(top, filter);
    FilterComparesNames(top + more, filter);
    assert (top + [""])[|top|] == "" && (top + more)[|top|] == more[0] && more[0] != "";
  }

  lemma {:induction false} SplitOfTrailingSlash(top: seq<string>)
    requires top != [] && SlashFree(top)
    ensures Split(Join(top) + "/") == top + [""]
  {
    JoinOfConcat(top, [""]);
    assert Join(top) + "/" + "" == Join(top) + "/";
    SplitOfNames(top + [""]);
  }

  lemma {:induction false} NormKeeps(s: string)
    requires s != "" && s[0] != '/' && '\\' !in s
    ensures NormFilter(Some(s)) == s
  {
    assert s[0] in s;
    assert WithoutLeadingSlashes(s) == s;
    forall i | 0 <= i < |s|
      ensures s[i] != '\\'
    {
      assert s[i] in s;
    }
    assert Slashes(s) == s;
  }

  /** The names down to an entry; it is hidden at least if its own name is. */
  predicate PathOf(f: Found, path: seq<string>) {
    && path != [] && Names(path) && path[|path| - 1] == f.entry.name
    && f.rel == Join(path) && f.depth == |path|
    && (StartsWith(f.entry.name, ".") ==> f.hidden)
  }

  /** What the filter compares: a directory's name, a file's without its extension. */
  function Stem(e: Entry): string {
    if e.node.Dir? then e.name
    else if IsNode(e.name) && |e.name| >= 2 then e.name[..|e.name| - 2]
    else if IsNetwork(e.name) && |e.name| >= 8 then e.name[..|e.name| - 8]
    else e.name
  }

  function KeyPath(f: Found, path: seq<string>): seq<string>
    requires PathOf(f, path)
  {
    path[..|path| - 1] + [Stem(f.entry)]
  }

  lemma {:induction false} JoinEnds(path: seq<string>, stem: string)
    requires path != [] && stem <= path[|path| - 1]
    ensures var cut := |path[|path| - 1]| - |stem|;
      cut <= |Join(path)| && Join(path)[..|Join(path)| - cut] == Join(path[..|path| - 1] + [stem])
  {
    var n := |path| - 1;
    if n == 0 {
      assert path[..0] + [stem] == [stem];
    } else {
      JoinOfConcat(path[..n], [path[n]]);
      JoinOfConcat(path[..n], [stem]);
      assert path[..n] + [path[n]] == path;
    }
  }

  lemma {:induction false} KeyIsThePath(f: Found, path: seq<string>)
    requires PathOf(f, path)
    ensures Key(f) == Join(KeyPath(f, path))
  {
    assert |Lower(f.entry.name)| == |f.entry.name|;
    JoinEnds(path, Stem(f.entry));
    assert path[..|path| - 1] + [path[|path| - 1]] == path;
  }

  lemma {:induction false} KeyPathIsNames(f: Found, path: seq<string>)
    requires PathOf(f, path) && !f.hidden
    ensures KeyPath(f, path) != [] && Names(KeyPath(f, path))
  {
    var name, stem := f.entry.name, Stem(f.entry);
    assert |Lower(name)| == |name|;
    BareExtension(f.entry);
    assert forall c :: c in stem ==> c in name;
  }

  lemma {:induction false} BareExtension(e: Entry)
    ensures Stem(e) == "" && e.name != "" ==> StartsWith(e.name, ".")
  {
    assert |Lower(e.name)| == |e.name|;
    assert e.name != "" ==> Lower(e.name)[0] == LowerChar(e.name[0]);
  }

  /** An entry is wanted exactly when no name on its path is hidden, its path - a file's without extension - is
      comparable with the parts of the normalised filter, and it is at most the given number of levels below
      them, where empty parts do not count; without a filter the levels count from the root. */
  lemma {:induction false} WantedMeans(f: Found, path: seq<string>, pathFilter: Option<string>, maxDepth: int,
      relativeDepth: Option<int>)
    requires PathOf(f, path)
    ensures var filter := NormFilter(pathFilter);
      var parts := Split(filter);
      var levels := if relativeDepth.Some? then relativeDepth.value else maxDepth;
      var key := KeyPath(f, path);
      Wanted(f, filter, ResolveWalkMaxDepth(pathFilter, maxDepth, relativeDepth))
      <==> (!f.hidden && if filter == "" then |path| <= maxDepth else
              (key <= parts || parts <= key) && |path| <= |NonEmpty(parts)| + if levels < 0 then 0 else levels)
  {
    hide PassesFilter, Key, Names, NormFilter, Split;
    var filter := NormFilter(pathFilter);
    if filter == "" {
      EverythingPasses(f);
    } else if !f.hidden {
      KeyIsThePath(f, path);
      KeyPathIsNames(f, path);
      FilterComparesNames(KeyPath(f, path), filter);
    }
  }

  lemma {:induction false} EverythingPasses(f: Found)
    ensures PassesFilter(Key(f), "")
  {
  }

  /** Every entry of a tree whose names are names is met under the path of the names above it. */
  ghost predicate NamedTree(entries: seq<Entry>)
    decreases entries
  {
    forall i :: 0 <= i < |entries| ==>
      Names([entries[i].name]) && (entries[i].node.Dir? ==> NamedTree(entries[i].node.entries))
  }

  ghost predicate HasPath(f: Found) {
    exists path :: PathOf(f, path)
  }

  lemma {:induction false} MeetHasPath(entries: seq<Entry>, i: nat, parent: string, depth: nat, hidden: bool,
      above: seq<string>)
    requires i < |entries| && Names([entries[i].name])
    requires |above| == depth && Names(above) && (depth > 0 ==> parent == Join(above))
    ensures var path := above + [entries[i].name];
      Names(path) && PathOf(Meet(entries, i, parent, depth, hidden), path)
  {
    var name := entries[i].name;
    assert [name][0] == name;
    if depth > 0 {
      JoinOfConcat(above, [name]);
    } else {
      assert above + [name] == [name];
    }
  }

  lemma {:induction false} EntryHasAPath(entries: seq<Entry>, i: nat, parent: string, depth: nat, hidden: bool,
      above: seq<string>, g: Found)
    requires i <= |entries| && NamedTree(entries) && g in All(entries, i, parent, depth, hidden)
    requires |above| == depth && Names(above) && (depth > 0 ==> parent == Join(above))
    ensures HasPath(g)
    decreases entries, |entries| - i
  {
    hide Names, Join, PathOf, NamedTree;
    if i < |entries| {
      var f := Meet(entries, i, parent, depth, hidden);
      NamedEntry(entries, i);
      MeetHasPath(entries, i, parent, depth, hidden, above);
      AllMeets(entries, i, parent, depth, hidden);
      if g in All(entries, i + 1, parent, depth, hidden) {
        EntryHasAPath(entries, i + 1, parent, depth, hidden, above, g);
      } else if g in Below(f) {
        PathIsJoined(f, above + [entries[i].name]);
        EntryHasAPath(f.entry.node.entries, 0, f.rel, f.depth, f.hidden, above + [entries[i].name], g);
      }
    }
  }

  lemma {:induction false} NamedEntry(entries: seq<Entry>, i: nat)
    requires i < |entries| && NamedTree(entries)
    ensures Names([entries[i].name]) && (entries[i].node.Dir? ==> NamedTree(entries[i].node.entries))
  {
  }

  lemma {:induction false} PathIsJoined(f: Found, path: seq<string>)
    requires PathOf(f, path)
    ensures path != [] && f.rel == Join(path) && f.depth == |path|
  {
  }

  lemma {:induction false} EveryEntryHasAPath(entries: seq<Entry>, i: nat, parent: string, depth: nat, hidden: bool,
      above: seq<string>)
    requires i <= |entries| && NamedTree(entries)
    requires |above| == depth && Names(above) && (depth > 0 ==> parent == Join(above))
    ensures forall f :: f in All(entries, i, parent, depth, hidden) ==> HasPath(f)
  {
    hide Names, Join, HasPath, NamedTree, All;
    forall f | f in All(entries, i, parent, depth, hidden)
      ensures HasPath(f)
    {
      EntryHasAPath(entries, i, parent, depth, hidden, above, f);
    }
  }

  lemma {:induction false} AllMeets(entries: seq<Entry>, i: nat, parent: string, depth: nat, hidden: bool)
    requires i < |entries|
    ensures var f := Meet(entries, i, parent, depth, hidden);
      forall g :: g in All(entries, i, parent, depth, hidden)
        <==> (g == f || g in Below(f) || g in All(entries, i + 1, parent, depth, hidden))
  {
  }
}
