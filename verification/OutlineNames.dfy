/** What the outline and the wire walk of an expanded project report, entry by entry. */
module OutlineNames {
  import opened Options
  import opened Text
  import opened TreeWalk
  import EgoGraph

  // ---------- the tree, path by path ----------

  /** Down the names of `path`, from the entries `i` and on, one comes to the entry `e` of the directory `dir`. */
  ghost predicate IsAt(entries: seq<Entry>, i: nat, path: seq<string>, e: Entry, dir: seq<Entry>)
    decreases |path|
  {
    path != [] && exists j :: i <= j < |entries| && IsVia(entries, j, path, e, dir)
  }

  ghost predicate IsVia(entries: seq<Entry>, j: nat, path: seq<string>, e: Entry, dir: seq<Entry>)
    requires path != [] && j < |entries|
    decreases |path|, 0
  {
    && entries[j].name == path[0]
    && if |path| == 1 then e == entries[j] && dir == entries
       else entries[j].node.Dir? && IsAt(entries[j].node.entries, 0, path[1..], e, dir)
  }

  predicate Hidden(path: seq<string>) {
    exists i :: 0 <= i < |path| && StartsWith(path[i], ".")
  }

  /** An entry as the walk meets it. */
  function Met(path: seq<string>, e: Entry, dir: seq<Entry>): Found
    requires path != []
  {
    Found(Join(path), e, dir, |path|, Hidden(path))
  }

  lemma {:induction false} HiddenBelow(above: seq<string>, name: string)
    ensures Hidden(above + [name]) <==> Hidden(above) || StartsWith(name, ".")
  {
    var path := above + [name];
    assert path[|above|] == name;
    if i :| 0 <= i < |above| && StartsWith(above[i], ".") {
      assert path[i] == above[i];
    }
    if i :| 0 <= i < |path| && StartsWith(path[i], ".") && i < |above| {
      assert above[i] == path[i];
    }
  }

  /** What `above` says about the directory that is walked. */
  predicate Walks(parent: string, depth: nat, hidden: bool, above: seq<string>) {
    |above| == depth && (depth > 0 ==> parent == Join(above)) && hidden == Hidden(above)
  }

  lemma {:induction false} MeetIsMet(entries: seq<Entry>, i: nat, parent: string, depth: nat, hidden: bool,
      above: seq<string>)
    requires i < |entries| && Walks(parent, depth, hidden, above)
    ensures Meet(entries, i, parent, depth, hidden) == Met(above + [entries[i].name], entries[i], entries)
  {
    var name := entries[i].name;
    HiddenBelow(above, name);
    if depth > 0 {
      JoinOfConcat(above, [name]);
    } else {
      assert above + [name] == [name];
    }
  }

  ghost predicate Comes(entries: seq<Entry>, i: nat, above: seq<string>, f: Found) {
    exists path, e, dir :: IsAt(entries, i, path, e, dir) && f == Met(above + path, e, dir)
  }

  ghost predicate ComesVia(entries: seq<Entry>, i: nat, above: seq<string>, f: Found)
    requires i < |entries|
  {
    exists path, e, dir :: path != [] && IsVia(entries, i, path, e, dir) && f == Met(above + path, e, dir)
  }

  lemma {:induction false} ViaOne(entries: seq<Entry>, i: nat, path: seq<string>, e: Entry, dir: seq<Entry>)
    returns (j: nat)
    requires IsAt(entries, i, path, e, dir)
    ensures path != [] && i <= j < |entries| && IsVia(entries, j, path, e, dir)
  {
    j :| i <= j < |entries| && IsVia(entries, j, path, e, dir);
  }

  lemma {:induction false} ComesNext(entries: seq<Entry>, i: nat, above: seq<string>, f: Found)
    requires i < |entries|
    ensures Comes(entries, i, above, f) <==> ComesVia(entries, i, above, f) || Comes(entries, i + 1, above, f)
  {
    hide IsVia, Met;
    if Comes(entries, i, above, f) {
      var path, e, dir :| IsAt(entries, i, path, e, dir) && f == Met(above + path, e, dir);
      var j := ViaOne(entries, i, path, e, dir);
      if j > i {
        assert IsAt(entries, i + 1, path, e, dir);
      }
    }
    if ComesVia(entries, i, above, f) {
      var path, e, dir :| path != [] && IsVia(entries, i, path, e, dir) && f == Met(above + path, e, dir);
      assert IsAt(entries, i, path, e, dir);
    }
    if Comes(entries, i + 1, above, f) {
      var path, e, dir :| IsAt(entries, i + 1, path, e, dir) && f == Met(above + path, e, dir);
      var j := ViaOne(entries, i + 1, path, e, dir);
      assert IsAt(entries, i, path, e, dir);
    }
  }

  lemma {:induction false} ViaIsMeetOrBelow(entries: seq<Entry>, i: nat, above: seq<string>, f: Found)
    requires i < |entries|
    ensures var name := entries[i].name;
      ComesVia(entries, i, above, f) <==>
        || f == Met(above + [name], entries[i], entries)
        || (entries[i].node.Dir? && Comes(entries[i].node.entries, 0, above + [name], f))
  {
    hide Met;
    var name := entries[i].name;
    if ComesVia(entries, i, above, f) {
      var path, e, dir :| path != [] && IsVia(entries, i, path, e, dir) && f == Met(above + path, e, dir);
      if |path| == 1 {
        assert path == [name];
      } else {
        assert above + path == above + [name] + path[1..];
        assert IsAt(entries[i].node.entries, 0, path[1..], e, dir);
      }
    }
    if f == Met(above + [name], entries[i], entries) {
      assert IsVia(entries, i, [name], entries[i], entries);
    }
    if entries[i].node.Dir? && Comes(entries[i].node.entries, 0, above + [name], f) {
      var path, e, dir :| IsAt(entries[i].node.entries, 0, path, e, dir) && f == Met(above + [name] + path, e, dir);
      var longer := [name] + path;
      assert longer[1..] == path && above + longer == above + [name] + path;
      assert IsVia(entries, i, longer, e, dir);
    }
  }

  /** The brute-force walk meets exactly the entries of the tree, each under its path. */
  lemma {:induction false} AllMeans(entries: seq<Entry>, i: nat, parent: string, depth: nat, hidden: bool,
      above: seq<string>, f: Found)
    requires i <= |entries| && Walks(parent, depth, hidden, above)
    ensures f in All(entries, i, parent, depth, hidden) <==> Comes(entries, i, above, f)
    decreases entries, |entries| - i
  {
    hide Met, IsVia, Hidden, Join;
    if i < |entries| {
      var m := Meet(entries, i, parent, depth, hidden);
      MeetIsMet(entries, i, parent, depth, hidden, above);
      AllMeets(entries, i, parent, depth, hidden);
      AllMeans(entries, i + 1, parent, depth, hidden, above, f);
      ComesNext(entries, i, above, f);
      ViaIsMeetOrBelow(entries, i, above, f);
      if m.entry.node.Dir? {
        MetWalks(above, m.entry, entries);
        AllMeans(m.entry.node.entries, 0, m.rel, m.depth, m.hidden, above + [m.entry.name], f);
      }
    }
  }

  lemma {:induction false} MetWalks(above: seq<string>, e: Entry, dir: seq<Entry>)
    ensures var m := Met(above + [e.name], e, dir); Walks(m.rel, m.depth, m.hidden, above + [e.name])
  {
  }

  /** A directory lists every name once. */
  ghost predicate DistinctNames(entries: seq<Entry>) {
    forall i, j :: 0 <= i < j < |entries| ==> entries[i].name != entries[j].name
  }

  ghost predicate DistinctTree(entries: seq<Entry>)
    decreases entries
  {
    && DistinctNames(entries)
    && forall i :: 0 <= i < |entries| && entries[i].node.Dir? ==> DistinctTree(entries[i].node.entries)
  }

  /** The path that the filter compares: a file's extension does not count. */
  function KeyOf(path: seq<string>, e: Entry): seq<string>
    requires path != []
  {
    path[..|path| - 1] + [Stem(e)]
  }

  /** An entry that a walk is to report: no name on its path is hidden, its path is comparable with the parts of the
      filter, and it is not too deep. */
  ghost predicate Shown(path: seq<string>, e: Entry, pathFilter: Option<string>, maxDepth: int,
      relativeDepth: Option<int>)
    requires path != []
  {
    var filter := NormFilter(pathFilter);
    var parts, key := Split(filter), KeyOf(path, e);
    var levels := if relativeDepth.Some? then relativeDepth.value else maxDepth;
    && !Hidden(path)
    && if filter == "" then |path| <= maxDepth
       else (key <= parts || parts <= key) && |path| <= |NonEmpty(parts)| + if levels < 0 then 0 else levels
  }

  ghost predicate Reported(root: seq<Entry>, pathFilter: Option<string>, maxDepth: int, relativeDepth: Option<int>,
      path: seq<string>, e: Entry, dir: seq<Entry>) {
    IsAt(root, 0, path, e, dir) && Shown(path, e, pathFilter, maxDepth, relativeDepth)
  }

  lemma {:induction false} AtNamed(entries: seq<Entry>, i: nat, path: seq<string>, e: Entry, dir: seq<Entry>)
    requires IsAt(entries, i, path, e, dir) && NamedTree(entries)
    ensures path != [] && path[|path| - 1] == e.name && Names(path) && e in dir && NamedTree(dir)
    ensures DistinctTree(entries) ==> DistinctTree(dir)
    decreases |path|
  {
    var j := ViaOne(entries, i, path, e, dir);
    assert Names([entries[j].name]) && [entries[j].name][0] == path[0];
    if |path| > 1 {
      AtNamed(entries[j].node.entries, 0, path[1..], e, dir);
      assert path[1..][|path| - 2] == path[|path| - 1];
      assert forall n :: 1 <= n < |path| ==> path[n] == path[1..][n - 1];
    }
  }

  /** What a walk is to see is met exactly where the tree has an entry to be shown. */
  lemma {:induction false} WantedInTheTree(root: seq<Entry>, pathFilter: Option<string>, maxDepth: int,
      relativeDepth: Option<int>, f: Found)
    requires NamedTree(root)
    ensures f in Filter(All(root, 0, "", 0, false), NormFilter(pathFilter),
                        ResolveWalkMaxDepth(pathFilter, maxDepth, relativeDepth))
      <==> exists path, e, dir ::
             Reported(root, pathFilter, maxDepth, relativeDepth, path, e, dir) && f == Met(path, e, dir)
  {
    hide Met, All, Filter, Shown, Wanted, NormFilter, ResolveWalkMaxDepth;
    var filter, depth := NormFilter(pathFilter), ResolveWalkMaxDepth(pathFilter, maxDepth, relativeDepth);
    FilterMeans(All(root, 0, "", 0, false), filter, depth, f);
    RootWalks();
    AllMeans(root, 0, "", 0, false, [], f);
    if f in All(root, 0, "", 0, false) {
      var path, e, dir :| IsAt(root, 0, path, e, dir) && f == Met([] + path, e, dir);
      assert [] + path == path;
      WantedIsShown(root, path, e, dir, pathFilter, maxDepth, relativeDepth);
    }
    if path, e, dir :|
      Reported(root, pathFilter, maxDepth, relativeDepth, path, e, dir) && f == Met(path, e, dir) {
      assert [] + path == path;
      WantedIsShown(root, path, e, dir, pathFilter, maxDepth, relativeDepth);
    }
  }

  lemma {:induction false} RootWalks()
    ensures Walks("", 0, false, [])
  {
  }

  lemma {:induction false} FilterMeans(found: seq<Found>, filter: string, maxDepth: int, f: Found)
    ensures f in Filter(found, filter, maxDepth) <==> f in found && Wanted(f, filter, maxDepth)
  {
    hide Wanted;
    if found != [] {
      FilterMeans(found[1..], filter, maxDepth, f);
      assert found == [found[0]] + found[1..];
    }
  }

  lemma {:induction false} WantedIsShown(root: seq<Entry>, path: seq<string>, e: Entry, dir: seq<Entry>,
      pathFilter: Option<string>, maxDepth: int, relativeDepth: Option<int>)
    requires NamedTree(root) && IsAt(root, 0, path, e, dir)
    ensures path != []
    ensures Wanted(Met(path, e, dir), NormFilter(pathFilter), ResolveWalkMaxDepth(pathFilter, maxDepth, relativeDepth))
      <==> Shown(path, e, pathFilter, maxDepth, relativeDepth)
  {
    hide Wanted, NormFilter, ResolveWalkMaxDepth, IsAt, NamedTree, Names, Stem, Join;
    AtNamed(root, 0, path, e, dir);
    assert StartsWith(e.name, ".") ==> Hidden(path);
    WantedMeans(Met(path, e, dir), path, pathFilter, maxDepth, relativeDepth);
  }

  // ---------- the outline ----------

  predicate NodeFile(e: Entry) {
    e.node.File? && |e.name| >= 2 && Lower(e.name[|e.name| - 2..]) == ".n"
  }

  /** Some directory beside the file has its name without the extension. */
  ghost predicate HasTwin(e: Entry, dir: seq<Entry>)
    requires NodeFile(e)
  {
    exists twin :: twin in dir && twin.node.Dir? && twin.name == e.name[..|e.name| - 2]
  }

  /** What is to be said of an entry: of a directory its path and the text of its `.n` file beside it, if there is one;
      of a `.n` file without a directory of its name beside it the path without the extension and the file's text. */
  ghost predicate Tells(path: seq<string>, e: Entry, dir: seq<Entry>, d: DigestNode)
    requires path != []
  {
    if e.node.Dir? then
      && d.kind == DirKind && d.rel == Join(path)
      && (forall body :: d.hint == Some(body) <==> Entry(e.name + ".n", File(body)) in dir)
    else
      && NodeFile(e) && !HasTwin(e, dir)
      && d.kind == NodeKind && d.rel == Join(path[..|path| - 1] + [e.name[..|e.name| - 2]])
      && d.hint == Some(e.node.body)
  }

  lemma {:induction false} LookupFinds(entries: seq<Entry>, name: string, node: Node)
    requires DistinctNames(entries)
    ensures Lookup(entries, name) == Some(node) <==> Entry(name, node) in entries
  {
    if entries != [] {
      LookupFinds(entries[1..], name, node);
      assert entries == [entries[0]] + entries[1..];
      if Entry(name, node) in entries[1..] {
        var j :| 0 <= j < |entries| - 1 && entries[1..][j] == Entry(name, node);
        assert entries[0].name != entries[j + 1].name;
      }
    }
  }

  lemma {:induction false} EndsInN(name: string)
    ensures IsNode(name) <==> |name| >= 2 && Lower(name[|name| - 2..]) == ".n"
  {
    assert |Lower(name)| == |name|;
    if |name| >= 2 {
      assert Lower(name)[|name| - 2..] == Lower(name[|name| - 2..]);
    }
  }

  lemma {:induction false} ListingTells(path: seq<string>, e: Entry, dir: seq<Entry>, d: DigestNode)
    requires path != [] && path[|path| - 1] == e.name && DistinctNames(dir)
    ensures ListingOf(Met(path, e, dir)) == [d] <==> Tells(path, e, dir, d)
    ensures |ListingOf(Met(path, e, dir))| <= 1
  {
    hide IsNode, Lookup, Join, Hidden;
    var f := Met(path, e, dir);
    EndsInN(e.name);
    if e.node.Dir? {
      forall body
        ensures HintIn(dir, e.name + ".n") == Some(body) <==> Entry(e.name + ".n", File(body)) in dir
      {
        LookupFinds(dir, e.name + ".n", File(body));
      }
      SameHint(HintIn(dir, e.name + ".n"), d.hint);
    } else if IsNode(e.name) {
      TwinMeans(e, dir);
      JoinEnds(path, e.name[..|e.name| - 2]);
      LongEnough(path);
      NodeKey(f);
    }
  }

  lemma {:induction false} LongEnough(path: seq<string>)
    requires path != []
    ensures |Join(path)| >= |path[|path| - 1]|
  {
    if |path| > 1 {
      LongEnough(path[1..]);
    }
  }

  lemma {:induction false} SameHint(a: Option<string>, b: Option<string>)
    ensures a == b <==> forall body :: a == Some(body) <==> b == Some(body)
  {
    if forall body :: a == Some(body) <==> b == Some(body) {
      assert a.Some? ==> b == Some(a.value);
      assert b.Some? ==> a == Some(b.value);
    }
  }

  lemma {:induction false} TwinMeans(e: Entry, dir: seq<Entry>)
    requires NodeFile(e) && DistinctNames(dir)
    ensures HasDir(dir, e.name[..|e.name| - 2]) <==> HasTwin(e, dir)
  {
    var stem := e.name[..|e.name| - 2];
    if HasDir(dir, stem) {
      var node := Lookup(dir, stem).value;
      LookupFinds(dir, stem, node);
      assert Entry(stem, node).name == stem;
    }
    if HasTwin(e, dir) {
      var twin :| twin in dir && twin.node.Dir? && twin.name == stem;
      LookupFinds(dir, stem, twin.node);
      assert twin == Entry(stem, twin.node);
    }
  }

  lemma {:induction false} ListingMeans(found: seq<Found>, d: DigestNode)
    ensures d in Listing(found) <==> exists f :: f in found && d in ListingOf(f)
  {
    hide ListingOf;
    if found != [] {
      ListingMeans(found[1..], d);
      assert found == [found[0]] + found[1..];
    }
  }

  /** The outline says exactly what is to be said of the entries that are to be shown. */
  lemma {:induction false} OutlineMeans(root: seq<Entry>, pathFilter: Option<string>, maxDepth: int,
      relativeDepth: Option<int>, d: DigestNode)
    requires NamedTree(root) && DistinctTree(root)
    ensures d in Listing(Filter(All(root, 0, "", 0, false), NormFilter(pathFilter),
                                ResolveWalkMaxDepth(pathFilter, maxDepth, relativeDepth)))
      <==> exists path, e, dir ::
             Reported(root, pathFilter, maxDepth, relativeDepth, path, e, dir) && Tells(path, e, dir, d)
  {
    hide Listing, Filter, All, NormFilter, ResolveWalkMaxDepth, Shown, Tells, ListingOf, Met;
    var found := Filter(All(root, 0, "", 0, false), NormFilter(pathFilter),
                        ResolveWalkMaxDepth(pathFilter, maxDepth, relativeDepth));
    ListingMeans(found, d);
    if f :| f in found && d in ListingOf(f) {
      WantedInTheTree(root, pathFilter, maxDepth, relativeDepth, f);
      var path, e, dir :| Reported(root, pathFilter, maxDepth, relativeDepth, path, e, dir) && f == Met(path, e, dir);
      AtNamed(root, 0, path, e, dir);
      ListingTells(path, e, dir, d);
      assert ListingOf(f) == [d];
    }
    if path, e, dir :|
      Reported(root, pathFilter, maxDepth, relativeDepth, path, e, dir) && Tells(path, e, dir, d) {
      AtNamed(root, 0, path, e, dir);
      WantedInTheTree(root, pathFilter, maxDepth, relativeDepth, Met(path, e, dir));
      ListingTells(path, e, dir, d);
    }
  }

  // ---------- nothing is said twice ----------

  /** No two `.n` files of a directory have one stem: their names would differ in the case of the extension. */
  ghost predicate OneNodeAStem(entries: seq<Entry>)
    decreases entries
  {
    && (forall i, j :: 0 <= i < j < |entries| && NodeFile(entries[i]) && NodeFile(entries[j]) ==>
         entries[i].name[..|entries[i].name| - 2] != entries[j].name[..|entries[j].name| - 2])
    && forall i :: 0 <= i < |entries| && entries[i].node.Dir? ==> OneNodeAStem(entries[i].node.entries)
  }

  /** Two reports of one path; two nodes of one path are let pass unless `strict`. */
  predicate Clash(a: DigestNode, b: DigestNode, strict: bool) {
    a.rel == b.rel && (strict || a.kind.DirKind? || b.kind.DirKind?)
  }

  ghost predicate NoClash(out: seq<DigestNode>, strict: bool) {
    forall i, j :: 0 <= i < j < |out| ==> !Clash(out[i], out[j], strict)
  }

  lemma {:induction false} NoClashConcat(a: seq<DigestNode>, b: seq<DigestNode>, strict: bool)
    requires NoClash(a, strict) && NoClash(b, strict)
    requires forall x, y :: x in a && y in b ==> !Clash(x, y, strict)
    ensures NoClash(a + b, strict)
  {
    hide Clash;
    forall i, j | 0 <= i < j < |a + b|
      ensures !Clash((a + b)[i], (a + b)[j], strict)
    {
      if i < |a| <= j {
        assert (a + b)[i] in a && (a + b)[j] in b;
      }
    }
  }

  /** `d` reports the path `more` below `above`, which starts at entry `j`. */
  ghost predicate Slot(entries: seq<Entry>, j: nat, above: seq<string>, d: DigestNode, more: seq<string>)
    requires j < |entries|
  {
    var e := entries[j];
    && more != [] && Names(above + more) && d.rel == Join(above + more)
    && if |more| > 1 || e.node.Dir? then e.node.Dir? && more[0] == e.name && (|more| == 1 ==> d.kind.DirKind?)
       else NodeFile(e) && !HasTwin(e, entries) && d.kind.NodeKind? && more[0] == e.name[..|e.name| - 2]
  }

  lemma {:induction false} StemIsName(e: Entry)
    requires NodeFile(e) && Names([e.name]) && !StartsWith(e.name, ".")
    ensures Names([e.name[..|e.name| - 2]])
  {
    var stem := e.name[..|e.name| - 2];
    assert [e.name][0] == e.name;
    assert forall c :: c in stem ==> c in e.name;
    assert Lower(e.name[|e.name| - 2..])[0] == LowerChar(e.name[|e.name| - 2]);
  }

  lemma {:induction false} SlotOf(entries: seq<Entry>, j: nat, above: seq<string>, path: seq<string>, e: Entry,
      dir: seq<Entry>, d: DigestNode) returns (more: seq<string>)
    requires NamedTree(entries) && Names(above) && j < |entries| && path != [] && IsVia(entries, j, path, e, dir)
    requires above + path != [] && Tells(above + path, e, dir, d) && !Hidden(above + path)
    ensures Slot(entries, j, above, d, more)
  {
    hide Join, HasTwin;
    assert IsAt(entries, j, path, e, dir);
    AtNamed(entries, j, path, e, dir);
    var whole, n := above + path, |path| - 1;
    assert whole[|whole| - 1] == path[n];
    more := if e.node.Dir? then path else path[..n] + [e.name[..|e.name| - 2]];
    if !e.node.Dir? {
      assert Names([e.name]) by {
        assert path[n] == e.name;
      }
      StemIsName(e);
      assert [e.name[..|e.name| - 2]][0] == e.name[..|e.name| - 2];
      assert whole[..|whole| - 1] == above + path[..n];
      assert above + more == whole[..|whole| - 1] + [e.name[..|e.name| - 2]];
    }
  }

  lemma {:induction false} SlotsApart(entries: seq<Entry>, i: nat, j: nat, above: seq<string>, a: DigestNode,
      b: DigestNode, x: seq<string>, y: seq<string>, strict: bool)
    requires i < j < |entries| && DistinctNames(entries) && (strict ==> OneNodeAStem(entries))
    requires Slot(entries, i, above, a, x) && Slot(entries, j, above, b, y)
    ensures !Clash(a, b, strict)
  {
    hide Join, Lower;
    if a.rel == b.rel {
      SplitOfNames(above + x);
      SplitOfNames(above + y);
      assert x == (above + x)[|above|..] && y == (above + y)[|above|..];
      assert x == y;
      assert entries[i] in entries && entries[j] in entries;
    }
  }

  lemma {:induction false} SlotBelow(entries: seq<Entry>, i: nat, above: seq<string>, a: DigestNode, b: DigestNode,
      j: nat, more: seq<string>, strict: bool)
    requires i < |entries| && entries[i].node.Dir? && a.rel == Join(above + [entries[i].name])
    requires Names(above + [entries[i].name])
    requires var inner := entries[i].node.entries; j < |inner| && Slot(inner, j, above + [entries[i].name], b, more)
    ensures !Clash(a, b, strict)
  {
    hide Join, Lower;
    SplitOfNames(above + [entries[i].name]);
    SplitOfNames(above + [entries[i].name] + more);
  }

  /** What is listed of some entries, filtered. */
  function Lines(found: seq<Found>, filter: string, maxDepth: int): seq<DigestNode> {
    Listing(Filter(found, filter, maxDepth))
  }

  lemma {:induction false} LinesOfConcat(a: seq<Found>, b: seq<Found>, filter: string, maxDepth: int)
    ensures Lines(a + b, filter, maxDepth) == Lines(a, filter, maxDepth) + Lines(b, filter, maxDepth)
  {
    hide Listing, Filter;
    FilterOfConcat(a, b, filter, maxDepth);
    ListingOfConcat(Filter(a, filter, maxDepth), Filter(b, filter, maxDepth));
  }

  lemma {:induction false} LineComes(found: seq<Found>, filter: string, maxDepth: int, d: DigestNode)
    returns (f: Found)
    requires d in Lines(found, filter, maxDepth)
    ensures f in found && !f.hidden && d in ListingOf(f)
  {
    hide Listing, ListingOf, Filter, PassesFilter;
    ListingMeans(Filter(found, filter, maxDepth), d);
    f :| f in Filter(found, filter, maxDepth) && d in ListingOf(f);
    FilterMeans(found, filter, maxDepth, f);
  }

  /** A line listed of entry `j`, or of something below it, is in slot `j`. */
  lemma {:induction false} LineSlot(entries: seq<Entry>, j: nat, above: seq<string>, f: Found, d: DigestNode)
    returns (more: seq<string>)
    requires NamedTree(entries) && DistinctTree(entries) && Names(above) && j < |entries|
    requires ComesVia(entries, j, above, f) && !f.hidden && d in ListingOf(f)
    ensures Slot(entries, j, above, d, more)
  {
    hide ListingOf, Tells, Join, IsVia, Names;
    var path, e, dir :| path != [] && IsVia(entries, j, path, e, dir) && f == Met(above + path, e, dir);
    assert IsAt(entries, j, path, e, dir);
    AtNamed(entries, j, path, e, dir);
    assert (above + path)[|above + path| - 1] == path[|path| - 1];
    ListingTells(above + path, e, dir, d);
    assert ListingOf(f) == [d];
    more := SlotOf(entries, j, above, path, e, dir, d);
  }

  lemma {:induction false} LaterSlot(entries: seq<Entry>, i: nat, above: seq<string>, f: Found, d: DigestNode)
    returns (j: nat, more: seq<string>)
    requires NamedTree(entries) && DistinctTree(entries) && Names(above)
    requires Comes(entries, i, above, f) && !f.hidden && d in ListingOf(f)
    ensures i <= j < |entries| && Slot(entries, j, above, d, more)
  {
    hide ListingOf, IsVia, Met, DistinctTree, NamedTree, Names, Slot;
    var path, e, dir :| IsAt(entries, i, path, e, dir) && f == Met(above + path, e, dir);
    j := ViaOne(entries, i, path, e, dir);
    more := LineSlot(entries, j, above, f, d);
  }

  /** In a tree without duplicate names nothing is listed twice, except nodes whose files' names differ in the case of
      the extension. */
  lemma {:induction false} NothingTwice(entries: seq<Entry>, i: nat, parent: string, depth: nat, hidden: bool,
      above: seq<string>, filter: string, maxDepth: int, strict: bool)
    requires i <= |entries| && Walks(parent, depth, hidden, above) && Names(above)
    requires NamedTree(entries) && DistinctTree(entries) && (strict ==> OneNodeAStem(entries))
    ensures NoClash(Lines(All(entries, i, parent, depth, hidden), filter, maxDepth), strict)
    decreases entries, |entries| - i
  {
    hide Lines, Walks, Clash, Comes, ComesVia, Met, DistinctTree, NamedTree, OneNodeAStem, Names, Slot;
    if i < |entries| {
      var f, rest := Meet(entries, i, parent, depth, hidden), All(entries, i + 1, parent, depth, hidden);
      NothingTwice(entries, i + 1, parent, depth, hidden, above, filter, maxDepth, strict);
      LinesOfConcat([f] + Below(f), rest, filter, maxDepth);
      HereOnce(entries, i, parent, depth, hidden, above, filter, maxDepth, strict);
      var here := Lines([f] + Below(f), filter, maxDepth);
      forall a, b | a in here && b in Lines(rest, filter, maxDepth)
        ensures !Clash(a, b, strict)
      {
        LaterApart(entries, i, parent, depth, hidden, above, filter, maxDepth, a, b, strict);
      }
      NoClashConcat(here, Lines(rest, filter, maxDepth), strict);
    } else {
      NoLines(filter, maxDepth);
    }
  }

  lemma {:induction false} NoLines(filter: string, maxDepth: int)
    ensures Lines([], filter, maxDepth) == []
  {
  }

  lemma {:induction false} LaterApart(entries: seq<Entry>, i: nat, parent: string, depth: nat, hidden: bool,
      above: seq<string>, filter: string, maxDepth: int, a: DigestNode, b: DigestNode, strict: bool)
    requires i < |entries| && Walks(parent, depth, hidden, above) && Names(above)
    requires NamedTree(entries) && DistinctTree(entries) && (strict ==> OneNodeAStem(entries))
    requires var f := Meet(entries, i, parent, depth, hidden); a in Lines([f] + Below(f), filter, maxDepth)
    requires b in Lines(All(entries, i + 1, parent, depth, hidden), filter, maxDepth)
    ensures !Clash(a, b, strict)
  {
    hide Lines, Clash, Comes, ComesVia, Met, NamedTree, OneNodeAStem, Names, Slot, ListingOf, All;
    var f := Meet(entries, i, parent, depth, hidden);
    var g := LineComes([f] + Below(f), filter, maxDepth, a);
    var h := LineComes(All(entries, i + 1, parent, depth, hidden), filter, maxDepth, b);
    HereComes(entries, i, parent, depth, hidden, above, g);
    AllMeans(entries, i + 1, parent, depth, hidden, above, h);
    var x := LineSlot(entries, i, above, g, a);
    var j, y := LaterSlot(entries, i + 1, above, h, b);
    SlotsApart(entries, i, j, above, a, b, x, y, strict);
  }

  lemma {:induction false} HereComes(entries: seq<Entry>, i: nat, parent: string, depth: nat, hidden: bool,
      above: seq<string>, f: Found)
    requires i < |entries| && Walks(parent, depth, hidden, above)
    requires var m := Meet(entries, i, parent, depth, hidden); f in [m] + Below(m)
    ensures ComesVia(entries, i, above, f)
  {
    hide Comes, ComesVia, Met, All;
    var m := Meet(entries, i, parent, depth, hidden);
    MeetIsMet(entries, i, parent, depth, hidden, above);
    ViaIsMeetOrBelow(entries, i, above, f);
    if m.entry.node.Dir? {
      MetWalks(above, m.entry, entries);
      AllMeans(m.entry.node.entries, 0, m.rel, m.depth, m.hidden, above + [m.entry.name], f);
    }
  }

  lemma {:induction false} HereOnce(entries: seq<Entry>, i: nat, parent: string, depth: nat, hidden: bool,
      above: seq<string>, filter: string, maxDepth: int, strict: bool)
    requires i < |entries| && Walks(parent, depth, hidden, above) && Names(above)
    requires NamedTree(entries) && DistinctTree(entries) && (strict ==> OneNodeAStem(entries))
    ensures var f := Meet(entries, i, parent, depth, hidden);
      NoClash(Lines([f] + Below(f), filter, maxDepth), strict)
    decreases entries, |entries| - i, 0
  {
    hide Lines, Clash, Met, Slot, Walks;
    var f := Meet(entries, i, parent, depth, hidden);
    var name := entries[i].name;
    LinesOfConcat([f], Below(f), filter, maxDepth);
    MeetIsMet(entries, i, parent, depth, hidden, above);
    MetWalks(above, entries[i], entries);
    LineOfOne(above + [name], entries[i], entries, filter, maxDepth);
    var one, below := Lines([f], filter, maxDepth), Lines(Below(f), filter, maxDepth);
    assert Names(above + [name]) by {
      assert [name][0] == name;
    }
    if entries[i].node.Dir? {
      var inner := entries[i].node.entries;
      NothingTwice(inner, 0, f.rel, f.depth, f.hidden, above + [name], filter, maxDepth, strict);
      forall a, b | a in one && b in below
        ensures !Clash(a, b, strict)
      {
        var h := LineComes(Below(f), filter, maxDepth, b);
        AllMeans(inner, 0, f.rel, f.depth, f.hidden, above + [name], h);
        var j, more := LaterSlot(inner, 0, above + [name], h, b);
        SlotBelow(entries, i, above, a, b, j, more, strict);
      }
    } else {
      NoLines(filter, maxDepth);
    }
    NoClashConcat(one, below, strict);
  }

  lemma {:induction false} LineOfOne(path: seq<string>, e: Entry, dir: seq<Entry>, filter: string, maxDepth: int)
    requires path != [] && path[|path| - 1] == e.name && DistinctNames(dir)
    ensures var one := Lines([Met(path, e, dir)], filter, maxDepth);
      |one| <= 1 && (e.node.Dir? ==> forall d :: d in one ==> d.rel == Join(path))
  {
    hide Listing, ListingOf, Filter, PassesFilter, Join;
    var f := Met(path, e, dir);
    FilterOfOne(f, filter, maxDepth);
    ListingOfOne(f);
    NothingListed();
    ListingTells(path, e, dir, DigestNode(DirKind, "", None));
    if d :| d in ListingOf(f) {
      assert ListingOf(f) == [d];
      ListingTells(path, e, dir, d);
    }
  }

  /** So in the outline two lines of one path are nodes, and there are none if no directory has two `.n` files of one
      stem: what is to be shown is listed exactly once. */
  lemma {:induction false} EachOperatorOnce(root: seq<Entry>, pathFilter: Option<string>, maxDepth: int,
      relativeDepth: Option<int>, i: nat, j: nat)
    requires NamedTree(root) && DistinctTree(root)
    requires var out := Listing(Filter(All(root, 0, "", 0, false), NormFilter(pathFilter),
                                       ResolveWalkMaxDepth(pathFilter, maxDepth, relativeDepth)));
      i < j < |out| && out[i].rel == out[j].rel
    ensures var out := Listing(Filter(All(root, 0, "", 0, false), NormFilter(pathFilter),
                                      ResolveWalkMaxDepth(pathFilter, maxDepth, relativeDepth)));
      out[i].kind == NodeKind && out[j].kind == NodeKind && !OneNodeAStem(root)
  {
    hide Listing, Filter, All, NormFilter, ResolveWalkMaxDepth, OneNodeAStem, DistinctTree, NamedTree;
    var filter, depth := NormFilter(pathFilter), ResolveWalkMaxDepth(pathFilter, maxDepth, relativeDepth);
    RootWalks();
    var out := Lines(All(root, 0, "", 0, false), filter, depth);
    NothingTwice(root, 0, "", 0, false, [], filter, depth, false);
    TwoNodes(out, i, j, false);
    if OneNodeAStem(root) {
      NothingTwice(root, 0, "", 0, false, [], filter, depth, true);
      TwoNodes(out, i, j, true);
    }
  }

  lemma {:induction false} TwoNodes(out: seq<DigestNode>, i: nat, j: nat, strict: bool)
    requires NoClash(out, strict) && i < j < |out| && out[i].rel == out[j].rel
    ensures !strict && out[i].kind == NodeKind && out[j].kind == NodeKind
  {
    assert !Clash(out[i], out[j], strict);
  }

  // ---------- the wires ----------

  predicate NetworkFile(e: Entry) {
    e.node.File? && |e.name| >= 8 && Lower(e.name[|e.name| - 8..]) == ".network"
  }

  /** The inputs that a file has for the operator of its name, or a `.network` file for the component of its name. */
  ghost predicate Wires(path: seq<string>, e: Entry, nInputs: Parser, compInputs: Parser, edge: EgoGraph.Edge)
    requires path != []
  {
    && e.node.File? && e.node.body != ""
    && if NodeFile(e) then
         var to := Join(path[..|path| - 1] + [e.name[..|e.name| - 2]]);
         exists x :: x in nInputs(e.node.body) && edge == EgoGraph.Op(to, x.name, x.index)
       else
         && NetworkFile(e)
         && var to := Join(path[..|path| - 1] + [e.name[..|e.name| - 8]]);
            exists x :: x in compInputs(e.node.body)
              && edge == EgoGraph.Comp(to, x.name, x.index, x.connector, x.family)
  }

  lemma {:induction false} EndsInNetwork(name: string)
    ensures IsNetwork(name) <==> |name| >= 8 && Lower(name[|name| - 8..]) == ".network"
  {
    assert |Lower(name)| == |name|;
    if |name| >= 8 {
      assert Lower(name)[|name| - 8..] == Lower(name[|name| - 8..]);
    }
  }

  lemma {:induction false} EdgesWire(path: seq<string>, e: Entry, dir: seq<Entry>, nInputs: Parser,
      compInputs: Parser, edge: EgoGraph.Edge)
    requires path != [] && path[|path| - 1] == e.name
    ensures edge in EdgesOf(Met(path, e, dir), nInputs, compInputs) <==> Wires(path, e, nInputs, compInputs, edge)
  {
    hide IsNode, IsNetwork, Join, Hidden, Lower;
    var f := Met(path, e, dir);
    EndsInN(e.name);
    EndsInNetwork(e.name);
    LongEnough(path);
    if e.node.File? && IsNode(e.name) {
      JoinEnds(path, e.name[..|e.name| - 2]);
      NodeKey(f);
      OpEdgesMean(Key(f), nInputs(e.node.body), edge);
    } else if e.node.File? && IsNetwork(e.name) {
      JoinEnds(path, e.name[..|e.name| - 8]);
      NetworkKey(f);
      CompEdgesMean(Key(f), compInputs(e.node.body), edge);
    }
  }

  lemma {:induction false} OpEdgesMean(to: string, inputs: seq<Input>, edge: EgoGraph.Edge)
    ensures edge in OpEdges(to, inputs) <==> exists x :: x in inputs && edge == EgoGraph.Op(to, x.name, x.index)
  {
    var edges := OpEdges(to, inputs);
    if x :| x in inputs && edge == EgoGraph.Op(to, x.name, x.index) {
      var i :| 0 <= i < |inputs| && inputs[i] == x;
      assert edges[i] == edge;
    }
    if edge in edges {
      var i :| 0 <= i < |edges| && edges[i] == edge;
      assert inputs[i] in inputs;
    }
  }

  lemma {:induction false} CompEdgesMean(to: string, inputs: seq<Input>, edge: EgoGraph.Edge)
    ensures edge in CompEdges(to, inputs)
      <==> exists x :: x in inputs && edge == EgoGraph.Comp(to, x.name, x.index, x.connector, x.family)
  {
    var edges := CompEdges(to, inputs);
    if x :| x in inputs && edge == EgoGraph.Comp(to, x.name, x.index, x.connector, x.family) {
      var i :| 0 <= i < |inputs| && inputs[i] == x;
      assert edges[i] == edge;
    }
    if edge in edges {
      var i :| 0 <= i < |edges| && edges[i] == edge;
      assert inputs[i] in inputs;
    }
  }

  lemma {:induction false} EdgesMean(found: seq<Found>, nInputs: Parser, compInputs: Parser, edge: EgoGraph.Edge)
    ensures edge in Edges(found, nInputs, compInputs)
      <==> exists f :: f in found && edge in EdgesOf(f, nInputs, compInputs)
  {
    hide EdgesOf;
    if found != [] {
      EdgesMean(found[1..], nInputs, compInputs, edge);
      assert found == [found[0]] + found[1..];
    }
  }

  /** The wires collected are exactly those of the files that are to be shown. */
  lemma {:induction false} WiresMean(root: seq<Entry>, pathFilter: Option<string>, maxDepth: int,
      relativeDepth: Option<int>, nInputs: Parser, compInputs: Parser, edge: EgoGraph.Edge)
    requires NamedTree(root)
    ensures edge in Edges(Filter(All(root, 0, "", 0, false), NormFilter(pathFilter),
                                 ResolveWalkMaxDepth(pathFilter, maxDepth, relativeDepth)), nInputs, compInputs)
      <==> exists path, e, dir ::
             Reported(root, pathFilter, maxDepth, relativeDepth, path, e, dir)
             && Wires(path, e, nInputs, compInputs, edge)
  {
    hide Edges, Filter, All, NormFilter, ResolveWalkMaxDepth, Shown, Wires, EdgesOf, Met;
    var found := Filter(All(root, 0, "", 0, false), NormFilter(pathFilter),
                        ResolveWalkMaxDepth(pathFilter, maxDepth, relativeDepth));
    EdgesMean(found, nInputs, compInputs, edge);
    if f :| f in found && edge in EdgesOf(f, nInputs, compInputs) {
      WantedInTheTree(root, pathFilter, maxDepth, relativeDepth, f);
      var path, e, dir :| Reported(root, pathFilter, maxDepth, relativeDepth, path, e, dir) && f == Met(path, e, dir);
      AtNamed(root, 0, path, e, dir);
      EdgesWire(path, e, dir, nInputs, compInputs, edge);
    }
    if path, e, dir :|
      Reported(root, pathFilter, maxDepth, relativeDepth, path, e, dir)
      && Wires(path, e, nInputs, compInputs, edge) {
      AtNamed(root, 0, path, e, dir);
      WantedInTheTree(root, pathFilter, maxDepth, relativeDepth, Met(path, e, dir));
      EdgesWire(path, e, dir, nInputs, compInputs, edge);
    }
  }
}
