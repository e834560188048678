/** Whether a graft keeps the table of contents in step with the tree: the sweep of the tree goes by directory
    entries (src/toe/graftManifest.ts:758-783), that of the table of contents by the text of its lines
    (src/toe/graftManifest.ts:161-182, 785). */
module GraftAgreement {
  import opened Options
  import opened Text
  import opened Graft
  import Toc

  // ---------- owned lines, in terms of names ----------

  function LowerAll(p: Path): Path {
    seq(|p|, i requires 0 <= i < |p| => Lower(p[i]))
  }

  lemma {:induction false} LowerOfConcat(a: string, b: string)
    ensures Lower(a + b) == Lower(a) + Lower(b)
  {
  }

  lemma {:induction false} LowerOfJoin(p: Path)
    requires p != []
    ensures Lower(Join(p)) == Join(LowerAll(p))
  {
    if |p| > 1 {
      LowerOfJoin(p[1..]);
      assert LowerAll(p)[1..] == LowerAll(p[1..]);
      LowerOfConcat(p[0] + "/", Join(p[1..]));
      LowerOfConcat(p[0], "/");
      assert Lower("/") == "/";
    }
  }

  lemma {:induction false} LowerHasSlash(s: string)
    ensures '/' in Lower(s) <==> '/' in s
  {
    assert |Lower(s)| == |s| && forall i :: 0 <= i < |s| ==> (Lower(s)[i] == '/' <==> s[i] == '/');
    if '/' in s {
      var i :| 0 <= i < |s| && s[i] == '/';
      assert Lower(s)[i] == '/';
    }
  }

  lemma {:induction false} KeyOfPath(p: Path)
    requires p != [] && Names(p)
    ensures Toc.Key(Rel(p)) == Join(LowerAll(p)) && SlashFree(LowerAll(p))
  {
    NoBackslash(p);
    assert Slashes(Join(p)) == Join(p) by {
      assert forall i :: 0 <= i < |Join(p)| ==> Join(p)[i] in Join(p);
    }
    LowerOfJoin(p);
    forall i | 0 <= i < |p|
      ensures '/' !in LowerAll(p)[i]
    {
      LowerHasSlash(p[i]);
    }
  }

  lemma {:induction false} NoBackslash(p: Path)
    requires p != [] && Names(p)
    ensures '\\' !in Join(p)
  {
    if |p| > 1 {
      NoBackslash(p[1..]);
    }
  }

  /** A joined path starts with two given parts, the second one cut short. */
  lemma {:induction false} StartsInSecond(q: Path, a: string, x: string)
    requires q != [] && SlashFree(q) && '/' !in a && '/' !in x
    ensures StartsWith(Join(q), a + "/" + x) <==> |q| >= 2 && q[0] == a && StartsWith(q[1], x)
  {
    if |q| >= 2 {
      StartsInFirst(q[1..], x);
    }
    if StartsWith(Join(q), a + "/" + x) {
      var rest := Join(q)[|a| + 1..];
      assert Join(q) == a + "/" + rest;
      SplitOfNames(q);
      SplitHead(a, rest);
      assert q == [a] + Split(rest);
      JoinOfSplit(rest);
      assert q[1..] == Split(rest);
    }
  }

  lemma {:induction false} StartsInFirst(q: Path, x: string)
    requires q != [] && SlashFree(q) && '/' !in x
    ensures StartsWith(Join(q), x) <==> StartsWith(q[0], x)
  {
    if |q| > 1 && |x| > |q[0]| {
      assert Join(q)[|q[0]|] == '/' && x[|q[0]|] in x;
    }
  }

  /** `stem` or one of its files, by names. */
  lemma {:induction false} OfStemMeans(q: Path, a: string, b: string)
    requires q != [] && SlashFree(q) && '/' !in a && '/' !in b
    ensures OfStem(Join(q), a + "/" + b)
      <==> |q| >= 2 && q[0] == a && ((|q| == 2 && q[1] == b) || StartsWith(q[1], b + "."))
    ensures StartsWith(Join(q), a + "/" + b + "/") <==> |q| > 2 && q[0] == a && q[1] == b
  {
    assert Join([a, b]) == a + "/" + b by {
      assert [a, b][1..] == [b];
    }
    SplitOfNames(q);
    SplitOfNames([a, b]);
    StrictlyBelow(q, [a, b]);
    StartsInSecond(q, a, b + ".");
    assert a + "/" + (b + ".") == a + "/" + b + ".";
    assert [a, b] < q <==> |q| > 2 && q[0] == a && q[1] == b;
    assert q == [a, b] <==> |q| == 2 && q[0] == a && q[1] == b;
  }

  /** The operator of an entry is `x`: the entry is `x` or starts with `x` and a dot. */
  lemma {:induction false} OpNameMeans(name: string, x: string)
    requires '.' !in x
    ensures Lower(OpName(name)) == x <==> Lower(name) == x || StartsWith(Lower(name), x + ".")
  {
    LowerUpTo(name);
    UpToMeans(Lower(name), x);
  }

  lemma {:induction false} LowerUpTo(s: string)
    ensures Lower(UpTo(s, '.')) == UpTo(Lower(s), '.')
  {
    if s != "" {
      LowerUpTo(s[1..]);
      assert Lower(s)[1..] == Lower(s[1..]);
      LowerOfConcat([s[0]], UpTo(s[1..], '.'));
      assert Lower([s[0]]) == [Lower(s)[0]];
    }
  }

  lemma {:induction false} UpToMeans(t: string, x: string)
    requires '.' !in x
    ensures UpTo(t, '.') == x <==> t == x || StartsWith(t, x + ".")
  {
    if t != "" && t[0] != '.' && x != "" && t[0] == x[0] {
      UpToMeans(t[1..], x[1..]);
      assert x == [x[0]] + x[1..] && t == [t[0]] + t[1..];
      assert (x + ".")[1..] == x[1..] + ".";
    } else if x == "" {
      assert x + "." == ".";
    }
  }

  const PROJECT1_NAME := "project1"
  const LOCAL_NAME := "local"
  const BOOT_NAME := "tdmcp_boot"

  predicate OpIs(entry: string, name: string) {
    Lower(OpName(entry)) == name
  }

  /** What `isGraftOwnedRel` means for a path of names, in any case: below `project1` an entry of one of the three
      operators, below `local` one of the boot operator - but nothing inside a directory named exactly after
      the old start operator or after the boot operator. */
  predicate OwnedNames(p: Path) {
    && |p| >= 2
    && ( || (Lower(p[0]) == PROJECT1_NAME && (OpIs(p[1], BRIDGE_NAME) || OpIs(p[1], LEGACY_BRIDGE_NAME)))
         || (Lower(p[0]) == PROJECT1_NAME && OpIs(p[1], ONSTART_NAME) && (|p| == 2 || Lower(p[1]) != ONSTART_NAME))
         || (Lower(p[0]) == LOCAL_NAME && OpIs(p[1], BOOT_NAME) && (|p| == 2 || Lower(p[1]) != BOOT_NAME)))
  }

  lemma {:induction false} StemsSpelled()
    ensures BRIDGE_STEM == PROJECT1_NAME + "/" + BRIDGE_NAME
    ensures LEGACY_BRIDGE_STEM == PROJECT1_NAME + "/" + LEGACY_BRIDGE_NAME
    ensures LEGACY_ONSTART_STEM == PROJECT1_NAME + "/" + ONSTART_NAME && BOOT_STEM == LOCAL_NAME + "/" + BOOT_NAME
    ensures StartsWith(ONSTART_STEM, BRIDGE_STEM + "/")
  {
  }

  /** Names without slashes and dots. */
  predicate Simple(s: string) {
    '/' !in s && '.' !in s
  }

  lemma {:induction false} NamesAreSimple()
    ensures Simple(PROJECT1_NAME) && Simple(LOCAL_NAME)
    ensures Simple(BRIDGE_NAME) && Simple(LEGACY_BRIDGE_NAME) && Simple(ONSTART_NAME) && Simple(BOOT_NAME)
  {
  }

  /** One stem, in terms of the path's names. */
  lemma {:induction false} StemByNames(p: Path, a: string, b: string)
    requires p != [] && Names(p) && Simple(a) && Simple(b)
    ensures var r := Toc.Key(Rel(p));
      && (OfStem(r, a + "/" + b) <==>
           |p| >= 2 && Lower(p[0]) == a && OpIs(p[1], b) && (|p| == 2 || Lower(p[1]) != b))
      && (StartsWith(r, a + "/" + b + "/") <==> |p| > 2 && Lower(p[0]) == a && Lower(p[1]) == b)
  {
    hide Names, OfStem, StartsWith;
    KeyOfPath(p);
    OfStemMeans(LowerAll(p), a, b);
    if |p| >= 2 {
      OpNameMeans(p[1], b);
      NotItsOwnFile(Lower(p[1]), b);
    }
  }

  lemma {:induction false} NotItsOwnFile(s: string, b: string)
    ensures StartsWith(s, b + ".") ==> s != b
  {
  }

  /** What the table of contents owns, path by path. */
  lemma {:induction false} OwnedMeans(p: Path)
    requires p != [] && Names(p)
    ensures Owned(Rel(p)) <==> OwnedNames(p)
  {
    hide Names, OfStem, StartsWith, OpIs, Toc.Key, Rel, Simple;
    var r := Toc.Key(Rel(p));
    StemsSpelled();
    NamesAreSimple();
    StemByNames(p, PROJECT1_NAME, BRIDGE_NAME);
    StemByNames(p, PROJECT1_NAME, LEGACY_BRIDGE_NAME);
    StemByNames(p, PROJECT1_NAME, ONSTART_NAME);
    StemByNames(p, LOCAL_NAME, BOOT_NAME);
    InsideTheBridge(r);
    PlainOp(p);
  }

  /** The nested start operator adds nothing to the bridge. */
  lemma {:induction false} InsideTheBridge(r: string)
    ensures OfStem(r, ONSTART_STEM) ==> StartsWith(r, BRIDGE_STEM + "/")
  {
    StemsSpelled();
    var inside := BRIDGE_STEM + "/";
    if OfStem(r, ONSTART_STEM) {
      assert r[..|inside|] == ONSTART_STEM[..|inside|] == inside;
    }
  }

  lemma {:induction false} PlainOp(p: Path)
    ensures |p| >= 2 && Lower(p[1]) == BRIDGE_NAME ==> OpIs(p[1], BRIDGE_NAME)
    ensures |p| >= 2 && Lower(p[1]) == LEGACY_BRIDGE_NAME ==> OpIs(p[1], LEGACY_BRIDGE_NAME)
  {
    NamesAreSimple();
    if |p| >= 2 {
      OpNameMeans(p[1], BRIDGE_NAME);
      OpNameMeans(p[1], LEGACY_BRIDGE_NAME);
    }
  }

  /** The start operator, beside the bridge or inside it, by names. */
  predicate OnstartNames(p: Path) {
    || (|p| >= 2 && Lower(p[0]) == "project1" && OpIs(p[1], "tdmcp_port_onstart")
        && (|p| == 2 || Lower(p[1]) != "tdmcp_port_onstart"))
    || (|p| >= 3 && Lower(p[0]) == "project1" && Lower(p[1]) == "tdmcp_bridge" && OpIs(p[2], "tdmcp_port_onstart")
        && (|p| == 3 || Lower(p[2]) != "tdmcp_port_onstart"))
  }

  /** Which lines of a manifest belong to the start operator. */
  lemma {:induction false} OnstartMeans(p: Path)
    requires p != [] && Names(p)
    ensures OnstartRel(Rel(p)) <==> OnstartNames(p)
  {
    hide Names, OfStem, StartsWith, OpIs, Toc.Key, Rel, Simple;
    StemsSpelled();
    NamesAreSimple();
    StemByNames(p, PROJECT1_NAME, ONSTART_NAME);
    InnerStemByNames(p, PROJECT1_NAME, BRIDGE_NAME, ONSTART_NAME);
    InnerStemSpelled();
  }

  lemma {:induction false} InnerStemSpelled()
    ensures ONSTART_STEM == PROJECT1_NAME + "/" + BRIDGE_NAME + "/" + ONSTART_NAME
  {
  }

  /** A stem of three names. */
  lemma {:induction false} InnerStemByNames(p: Path, a: string, b: string, c: string)
    requires p != [] && Names(p) && Simple(a) && Simple(b) && Simple(c)
    ensures OfStem(Toc.Key(Rel(p)), a + "/" + b + "/" + c) <==>
      && |p| >= 3 && Lower(p[0]) == a && Lower(p[1]) == b && OpIs(p[2], c)
      && (|p| == 3 || Lower(p[2]) != c)
  {
    hide Names, StartsWith;
    KeyOfPath(p);
    StemByNames(p, a, b);
    var q := LowerAll(p);
    var r := Join(q);
    if StartsWith(r, a + "/" + b + "/") {
      assert q[..2] == [a, b] && q == [a, b] + q[2..];
      JoinOfConcat([a, b], q[2..]);
      assert [a, b][1..] == [b];
      assert r == a + "/" + b + "/" + Join(q[2..]);
      LastStem(a + "/" + b + "/", Join(q[2..]), c);
      StartsInFirst(q[2..], c + ".");
      OnlyName(q[2..], c);
      OpNameMeans(p[2], c);
      NotItsOwnFile(Lower(p[2]), c);
    } else {
      BelowHead(r, a + "/" + b + "/", c);
    }
  }

  lemma {:induction false} LastStem(head: string, rest: string, c: string)
    ensures OfStem(head + rest, head + c) <==> rest == c || StartsWith(rest, c + ".")
  {
    assert head + c + "." == head + (c + ".");
    assert (head + rest)[|head|..] == rest;
    assert (head + c)[|head|..] == c;
    if StartsWith(head + rest, head + (c + ".")) {
      assert (head + rest)[|head|..|head| + |c| + 1] == c + ".";
    }
  }

  lemma {:induction false} BelowHead(r: string, head: string, c: string)
    ensures OfStem(r, head + c) ==> StartsWith(r, head)
  {
    if OfStem(r, head + c) {
      assert r[..|head|] == (head + c)[..|head|];
    }
  }

  lemma {:induction false} OnlyName(q: Path, c: string)
    requires q != [] && SlashFree(q) && '/' !in c
    ensures Join(q) == c <==> q == [c]
  {
    SplitOfNames(q);
    SplitOfSegment(c);
  }

  // ---------- where sweep and list disagree ----------

  /** Taken from the tree, kept in the table of contents: what lies inside a directory of the old start operator or
      inside `local/tdmcp_boot`, and whatever else the manifest names. */
  predicate StillListed(p: Path, manifest: seq<Path>) {
    || (|p| > 2 && p[0] == PROJECT1_NAME && Lower(p[1]) == ONSTART_NAME)
    || (|p| > 2 && p[0] == LOCAL_NAME && p[1] == BOOT_NAME)
    || (Below(p, manifest) && !OwnedNames(p))
  }

  /** Taken from the table of contents, kept in the tree: owned paths outside the manifest below another spelling
      of `project1` or `local`, and files of the boot operator other than the four. */
  predicate LeftBehind(p: Path, manifest: seq<Path>) {
    && OwnedNames(p) && !Below(p, manifest)
    && p[0] != PROJECT1_NAME && (p[0] == LOCAL_NAME ==> !BootName(p[1]))
  }

  lemma {:induction false} BootNamesAreOps(entry: string)
    requires BootName(entry)
    ensures OpIs(entry, BOOT_NAME) && Lower(entry) == entry
    ensures Lower(PROJECT1_NAME) == PROJECT1_NAME && Lower(LOCAL_NAME) == LOCAL_NAME
  {
    BootNamesSpelled(entry);
    assert Lower(entry) == entry;
    assert Lower(PROJECT1_NAME) == PROJECT1_NAME && Lower(LOCAL_NAME) == LOCAL_NAME;
    NamesAreSimple();
    OpNameMeans(entry, BOOT_NAME);
  }

  lemma {:induction false} BootNamesSpelled(entry: string)
    requires BootName(entry)
    ensures PlainChars(entry) && (entry == BOOT_NAME || StartsWith(entry, BOOT_NAME + "."))
  {
  }

  /** Sweep and list agree about a path exactly if it is in neither set; these are the two ways to disagree. */
  lemma {:induction false} AgreeExactly(p: Path, manifest: seq<Path>)
    requires p != [] && Names(p)
    ensures StillListed(p, manifest) <==> Swept(p, manifest) && !Owned(Rel(p))
    ensures LeftBehind(p, manifest) <==> Owned(Rel(p)) && !Swept(p, manifest)
  {
    hide Names, Rel, Owned, Below, Lower, OpName;
    OwnedMeans(p);
    StemsSpelled();
    LowerOfRoots();
    if |p| >= 2 {
      if BootName(p[1]) {
        BootNamesAreOps(p[1]);
      }
      ReservedMeans(p[1]);
      OnstartIsOp(p[1]);
    }
  }

  lemma {:induction false} LowerOfRoots()
    ensures Lower(PROJECT1_NAME) == PROJECT1_NAME && Lower(LOCAL_NAME) == LOCAL_NAME && PROJECT1_NAME != LOCAL_NAME
    ensures PROJECT1_NAME == "project1" && LOCAL_NAME == "local" && BOOT_NAME == "tdmcp_boot"
  {
    assert PROJECT1_NAME[0] != LOCAL_NAME[0];
  }

  lemma {:induction false} ReservedMeans(entry: string)
    ensures Reserved(entry) <==>
      OpIs(entry, BRIDGE_NAME) || OpIs(entry, LEGACY_BRIDGE_NAME) || OpIs(entry, ONSTART_NAME)
    ensures OpIs(entry, ONSTART_NAME) ==> !OpIs(entry, BRIDGE_NAME) && !OpIs(entry, LEGACY_BRIDGE_NAME)
  {
    assert ONSTART_NAME[6] == 'p' && BRIDGE_NAME[6] == 'b' && LEGACY_BRIDGE_NAME[6] == 'b';
  }

  lemma {:induction false} OnstartIsOp(entry: string)
    ensures Lower(entry) == ONSTART_NAME ==> OpIs(entry, ONSTART_NAME)
  {
    NamesAreSimple();
    OpNameMeans(entry, ONSTART_NAME);
  }

  /** Paths on which they disagree: two that the sweep takes and the list keeps, two the other way round. */
  lemma {:induction false} FourDisagreements(manifest: seq<Path>)
    ensures Swept(["local", "tdmcp_boot", "a.n"], manifest) && !Owned(Rel(["local", "tdmcp_boot", "a.n"]))
    ensures var q := ["project1", "tdmcp_port_onstart", "a.n"]; Swept(q, manifest) && !Owned(Rel(q))
    ensures var q := ["local", "tdmcp_boot.cparm"]; Owned(Rel(q)) && !Swept(q, [])
    ensures var q := ["local", "TDMCP_BOOT.n"]; Owned(Rel(q)) && !Swept(q, [])
  {
    hide Owned, Rel, Swept, OpIs, Below;
    assert Lower("tdmcp_port_onstart") == "tdmcp_port_onstart" && Lower("local") == "local";
    FourNames();
    AgreeExactly(["local", "tdmcp_boot", "a.n"], manifest);
    AgreeExactly(["project1", "tdmcp_port_onstart", "a.n"], manifest);
    AgreeExactly(["local", "tdmcp_boot.cparm"], []);
    AgreeExactly(["local", "TDMCP_BOOT.n"], []);
  }

  predicate IsName(s: string) {
    s != "" && '/' !in s && '\\' !in s
  }

  lemma {:induction false} FourNames()
    ensures Names(["local", "tdmcp_boot", "a.n"]) && Names(["project1", "tdmcp_port_onstart", "a.n"])
    ensures Names(["local", "tdmcp_boot.cparm"]) && Names(["local", "TDMCP_BOOT.n"])
    ensures OpIs("tdmcp_boot.cparm", BOOT_NAME) && !BootName("tdmcp_boot.cparm")
    ensures OpIs("TDMCP_BOOT.n", BOOT_NAME) && !BootName("TDMCP_BOOT.n")
    ensures !Below(["local", "tdmcp_boot.cparm"], []) && !Below(["local", "TDMCP_BOOT.n"], [])
  {
    hide IsName, OpIs, BootName;
    ShortNames();
    LongNames();
    BootVariants();
    BootFileOps();
    NotBootNames();
    ThreeNames("local", "tdmcp_boot", "a.n");
    ThreeNames("project1", "tdmcp_port_onstart", "a.n");
    TwoNames("local", "tdmcp_boot.cparm");
    TwoNames("local", "TDMCP_BOOT.n");
  }

  lemma {:induction false} ThreeNames(a: string, b: string, c: string)
    requires IsName(a) && IsName(b) && IsName(c)
    ensures Names([a, b, c])
  {
  }

  lemma {:induction false} TwoNames(a: string, b: string)
    requires IsName(a) && IsName(b)
    ensures Names([a, b])
  {
  }

  lemma {:induction false} ShortNames()
    ensures IsName("local") && IsName("project1") && IsName("a.n") && IsName("tdmcp_boot")
  {
  }

  lemma {:induction false} LongNames()
    ensures IsName("tdmcp_port_onstart")
  {
  }

  lemma {:induction false} BootVariants()
    ensures IsName("tdmcp_boot.cparm") && IsName("TDMCP_BOOT.n")
  {
  }

  lemma {:induction false} BootFileOps()
    ensures OpIs("tdmcp_boot.cparm", BOOT_NAME) && OpIs("TDMCP_BOOT.n", BOOT_NAME)
  {
    hide OpName;
    assert Simple(BOOT_NAME) by { NamesAreSimple(); }
    assert Lower("tdmcp_boot.cparm") == "tdmcp_boot.cparm" == BOOT_NAME + ".cparm";
    OpNameMeans("tdmcp_boot.cparm", BOOT_NAME);
    assert Lower("TDMCP_BOOT.n") == "tdmcp_boot.n" == BOOT_NAME + ".n";
    OpNameMeans("TDMCP_BOOT.n", BOOT_NAME);
  }

  lemma {:induction false} NotBootNames()
    ensures !BootName("tdmcp_boot.cparm") && !BootName("TDMCP_BOOT.n")
  {
    assert "TDMCP_BOOT.n"[0] == 'T' && "tdmcp_boot.n"[0] == 't';
    assert "tdmcp_boot.cparm"[11] == 'c' && "tdmcp_boot.n"[11] == 'n' && "tdmcp_boot.parm"[11] == 'p'
      && "tdmcp_boot.text"[11] == 't';
  }

  // ---------- what a graft does to a table of contents that was in step ----------

  predicate IsFile(t: Tree, p: Path) {
    p in t && t[p].File?
  }

  ghost predicate FileOf(t: Tree, s: string) {
    exists p :: IsFile(t, p) && Rel(p) == s
  }

  /** The entries are exactly the files. */
  ghost predicate InStep(lines: seq<string>, t: Tree) {
    forall s :: s in Toc.Entries(lines) <==> FileOf(t, s)
  }

  ghost predicate NamedTree(t: Tree) {
    forall p :: p in t ==> Names(p)
  }

  /** The first entry with this key. */
  function FirstOf(entries: seq<string>, key: string): Option<string> {
    if entries == [] then None
    else if Toc.Key(entries[0]) == key then Some(entries[0])
    else FirstOf(entries[1..], key)
  }

  /** An earlier entry differs from `s` in case or slashes only. */
  predicate Shadowed(entries: seq<string>, s: string) {
    FirstOf(entries, Toc.Key(s)) != Some(s)
  }

  lemma {:induction false} KeptByBoth(entries: seq<string>, s: string, seen: set<string>)
    ensures s in Toc.Unique(Toc.Passing(entries, Owned), seen)
      <==> !Owned(s) && Toc.Key(s) !in seen && !Shadowed(entries, s)
  {
    hide Owned, Toc.Key;
    if entries != [] {
      var first, rest := entries[0], entries[1..];
      if Toc.Key(first) == Toc.Key(s) {
        OwnedByKey(first, s);
      }
      if Owned(first) {
        KeptByBoth(rest, s, seen);
      } else {
        var passing := Toc.Passing(entries, Owned);
        assert passing == [first] + Toc.Passing(rest, Owned) && passing[1..] == Toc.Passing(rest, Owned);
        KeptByBoth(rest, s, if Toc.Key(first) in seen then seen else seen + {Toc.Key(first)});
      }
    }
  }

  /** What is listed after the graft. */
  lemma {:induction false} ListedAfter(lines: seq<string>, s: string)
    ensures s in Toc.Entries(GraftedToc(lines))
      <==> s in BOOT_PATHS || (!Owned(s) && !Shadowed(Toc.Entries(lines), s))
  {
    hide Owned, GraftedToc, Toc.Entries, Toc.Firsts, Shadowed, Toc.Unique;
    var entries := Toc.Entries(lines);
    TocAfterGraft(lines);
    Toc.UniqueIsFirsts(Toc.Passing(entries, Owned));
    KeptByBoth(entries, s, {});
  }

  predicate BootPath(p: Path) {
    p == BOOT_N_PATH || p == BOOT_PARM_PATH || p == BOOT_TEXT_PATH
  }

  /** Which files there are after the graft. */
  lemma {:induction false} FilesAfter(t: Tree, manifest: seq<Path>, boot: string, p: Path)
    ensures IsFile(Grafted(t, manifest, boot), p)
      <==> BootPath(p) || (IsFile(t, p) && !Swept(p, manifest) && p != LOCAL)
  {
    hide Swept;
    BootFilesAreSwept(manifest);
    assert LOCAL != BOOT_N_PATH && LOCAL != BOOT_PARM_PATH && LOCAL != BOOT_TEXT_PATH;
  }

  lemma {:induction false} BootPathsSpelled()
    ensures Rel(BOOT_N_PATH) == BOOT_N && Rel(BOOT_PARM_PATH) == BOOT_PARM && Rel(BOOT_TEXT_PATH) == BOOT_TEXT
  {
    JoinTwo("local", "tdmcp_boot.n");
    JoinTwo("local", "tdmcp_boot.parm");
    JoinTwo("local", "tdmcp_boot.text");
  }

  lemma {:induction false} JoinTwo(a: string, b: string)
    ensures Rel([a, b]) == a + "/" + b
  {
    assert Join([a, b]) == a + "/" + Join([a, b][1..]) && [a, b][1..] == [b];
    assert Join([b]) == b;
  }

  lemma {:induction false} BootPathsAreNames()
    ensures Names(BOOT_N_PATH) && Names(BOOT_PARM_PATH) && Names(BOOT_TEXT_PATH)
  {
  }

  /** Different paths of names read differently. */
  lemma {:induction false} RelIsInjective(p: Path, q: Path)
    requires p != [] && q != [] && Names(p) && Names(q) && Rel(p) == Rel(q)
    ensures p == q
  {
    SplitOfNames(p);
    SplitOfNames(q);
  }

  lemma {:induction false} EntriesAreNotBlank(lines: seq<string>, s: string)
    requires s in Toc.Entries(lines)
    ensures s != ""
  {
    hide Trim;
    if Trim(lines[0]) == "" || s != Trim(lines[0]) {
      EntriesAreNotBlank(lines[1..], s);
    }
  }

  /** The graft drops this file: the sweep takes it, or `local` becomes a directory. */
  predicate Goes(p: Path, manifest: seq<Path>) {
    Swept(p, manifest) || p == LOCAL
  }

  /** A file of the tree before the graft is treated alike: it stays and stays listed, or goes and goes. */
  predicate TreatedAlike(lines: seq<string>, p: Path, manifest: seq<Path>) {
    Goes(p, manifest) <==> Owned(Rel(p)) || Shadowed(Toc.Entries(lines), Rel(p))
  }

  /** After the graft one path of names is a file exactly if it is listed. */
  ghost predicate InStepAt(lines: seq<string>, t: Tree, p: Path) {
    IsFile(t, p) <==> Rel(p) in Toc.Entries(lines)
  }

  lemma {:induction false} PathInStep(lines: seq<string>, t: Tree, manifest: seq<Path>, boot: string, p: Path)
    requires p != [] && Names(p) && IsFile(t, p)
    ensures InStepAt(GraftedToc(lines), Grafted(t, manifest, boot), p) <==> TreatedAlike(lines, p, manifest)
  {
    hide Owned, Swept, Shadowed, Grafted, GraftedToc, Names, Rel;
    ListedAfter(lines, Rel(p));
    FilesAfter(t, manifest, boot, p);
    BootPathsSpelled();
    BootPathsAreNames();
    BootFilesAreSwept(manifest);
    BootEntriesAreOwned();
    if Rel(p) in BOOT_PATHS {
      BootRelIsBootPath(p);
    }
  }

  lemma {:induction false} BootRelIsBootPath(p: Path)
    requires p != [] && Names(p) && Rel(p) in BOOT_PATHS
    ensures BootPath(p)
  {
    hide Names, Rel;
    BootPathsSpelled();
    BootPathsAreNames();
    var q := if Rel(p) == BOOT_N then BOOT_N_PATH else if Rel(p) == BOOT_PARM then BOOT_PARM_PATH else BOOT_TEXT_PATH;
    RelIsInjective(p, q);
  }

  lemma {:induction false} FilesHaveNames(lines: seq<string>, t: Tree, p: Path)
    requires InStep(lines, t) && NamedTree(t) && IsFile(t, p)
    ensures p != [] && Names(p) && Rel(p) in Toc.Entries(lines)
  {
    assert FileOf(t, Rel(p));
    EntriesAreNotBlank(lines, Rel(p));
  }

  /** A table of contents that lists exactly the files still does so after the graft exactly if every file was
      treated alike. */
  lemma {:induction false} StaysInStepExactly(lines: seq<string>, t: Tree, manifest: seq<Path>, boot: string)
    requires NamedTree(t) && InStep(lines, t)
    ensures InStep(GraftedToc(lines), Grafted(t, manifest, boot))
      <==> forall p :: IsFile(t, p) ==> TreatedAlike(lines, p, manifest)
  {
    hide NamedTree, InStep, Grafted, GraftedToc, TreatedAlike, IsFile, Rel, Names;
    var after, g := GraftedToc(lines), Grafted(t, manifest, boot);
    if InStep(after, g) {
      forall p | IsFile(t, p)
        ensures TreatedAlike(lines, p, manifest)
      {
        FilesHaveNames(lines, t, p);
        InStepEverywhere(lines, t, manifest, boot, p);
        PathInStep(lines, t, manifest, boot, p);
      }
    }
    if forall p :: IsFile(t, p) ==> TreatedAlike(lines, p, manifest) {
      forall s
        ensures s in Toc.Entries(after) <==> FileOf(g, s)
      {
        if s in Toc.Entries(after) {
          ListedIsFile(lines, t, manifest, boot, s);
        }
        if FileOf(g, s) {
          FileIsListed(lines, t, manifest, boot, s);
        }
      }
      MakesInStep(after, g);
    }
  }

  lemma {:induction false} MakesInStep(lines: seq<string>, t: Tree)
    requires forall s :: s in Toc.Entries(lines) <==> FileOf(t, s)
    ensures InStep(lines, t)
  {
  }

  lemma {:induction false} InStepEverywhere(lines: seq<string>, t: Tree, manifest: seq<Path>, boot: string, p: Path)
    requires NamedTree(t) && InStep(lines, t) && InStep(GraftedToc(lines), Grafted(t, manifest, boot))
    requires p != [] && Names(p)
    ensures InStepAt(GraftedToc(lines), Grafted(t, manifest, boot), p)
  {
    hide GraftedToc, Grafted, Rel, Names, Toc.Entries;
    var g := Grafted(t, manifest, boot);
    if IsFile(g, p) {
      assert FileOf(g, Rel(p));
    }
    if FileOf(g, Rel(p)) {
      var q :| IsFile(g, q) && Rel(q) == Rel(p);
      GraftedHasNames(lines, t, manifest, boot, q);
      RelIsInjective(p, q);
    }
  }

  lemma {:induction false} GraftedHasNames(lines: seq<string>, t: Tree, manifest: seq<Path>, boot: string, q: Path)
    requires NamedTree(t) && InStep(lines, t) && IsFile(Grafted(t, manifest, boot), q)
    ensures q != [] && Names(q)
  {
    hide NamedTree, InStep, Grafted, Names, IsFile;
    FilesAfter(t, manifest, boot, q);
    BootPathsAreNames();
    if IsFile(t, q) {
      FilesHaveNames(lines, t, q);
    }
  }

  lemma {:induction false} ListedIsFile(lines: seq<string>, t: Tree, manifest: seq<Path>, boot: string, s: string)
    requires NamedTree(t) && InStep(lines, t) && s in Toc.Entries(GraftedToc(lines))
    requires forall p :: IsFile(t, p) ==> TreatedAlike(lines, p, manifest)
    ensures FileOf(Grafted(t, manifest, boot), s)
  {
    hide NamedTree, Grafted, GraftedToc, Owned, Swept, IsFile, Rel, Toc.Entries;
    ListedAfter(lines, s);
    BootPathsSpelled();
    if s in BOOT_PATHS {
      var q := if s == BOOT_N then BOOT_N_PATH else if s == BOOT_PARM then BOOT_PARM_PATH else BOOT_TEXT_PATH;
      FilesAfter(t, manifest, boot, q);
      assert IsFile(Grafted(t, manifest, boot), q) && Rel(q) == s;
    } else {
      FirstIsInside(Toc.Entries(lines), Toc.Key(s));
      assert FileOf(t, s);
      var p :| IsFile(t, p) && Rel(p) == s;
      FilesAfter(t, manifest, boot, p);
    }
  }

  lemma {:induction false} FirstIsInside(entries: seq<string>, key: string)
    ensures FirstOf(entries, key).Some? ==> FirstOf(entries, key).value in entries
  {
    if entries != [] && Toc.Key(entries[0]) != key {
      FirstIsInside(entries[1..], key);
    }
  }

  lemma {:induction false} FileIsListed(lines: seq<string>, t: Tree, manifest: seq<Path>, boot: string, s: string)
    requires NamedTree(t) && InStep(lines, t) && FileOf(Grafted(t, manifest, boot), s)
    requires forall p :: IsFile(t, p) ==> TreatedAlike(lines, p, manifest)
    ensures s in Toc.Entries(GraftedToc(lines))
  {
    hide NamedTree, InStep, Grafted, GraftedToc, Owned, Swept, IsFile, Rel, Toc.Entries, Shadowed;
    ListedAfter(lines, s);
    BootPathsSpelled();
    var q :| IsFile(Grafted(t, manifest, boot), q) && Rel(q) == s;
    FilesAfter(t, manifest, boot, q);
  }

  // ---------- tables of contents without duplicates ----------

  lemma {:induction false} UniqueIsShorter(entries: seq<string>, seen: set<string>)
    ensures |Toc.Unique(entries, seen)| <= |entries|
    ensures |Toc.Unique(entries, seen)| == |entries|
      ==> forall s :: s in entries ==> Toc.Key(s) !in seen && !Shadowed(entries, s)
  {
    hide Toc.Key;
    if entries != [] {
      var first, rest := entries[0], entries[1..];
      UniqueIsShorter(rest, if Toc.Key(first) in seen then seen else seen + {Toc.Key(first)});
      assert forall s :: s in entries ==> s == first || s in rest;
    }
  }

  lemma {:induction false} NothingShadowed(lines: seq<string>, s: string)
    requires Toc.Duplicates(lines, map[]) == [] && s in Toc.Entries(lines)
    ensures !Shadowed(Toc.Entries(lines), s)
  {
    hide Toc.Entries, Toc.Duplicates, Toc.Unique, Shadowed;
    var empty: map<string, string> := map[];
    assert empty.Keys == {};
    Toc.DuplicatesMissing(lines, map[]);
    UniqueIsShorter(Toc.Entries(lines), {});
  }

  /** If no duplicate was reported and `local` was no file, the table of contents stays in step exactly if no file
      of the tree is one that the sweep takes and the list keeps, or the other way round. */
  lemma {:induction false} StaysInStepWithoutDuplicates(lines: seq<string>, t: Tree, manifest: seq<Path>, boot: string)
    requires NamedTree(t) && InStep(lines, t) && Toc.Duplicates(lines, map[]) == [] && !IsFile(t, LOCAL)
    ensures InStep(GraftedToc(lines), Grafted(t, manifest, boot))
      <==> forall p :: IsFile(t, p) ==> !StillListed(p, manifest) && !LeftBehind(p, manifest)
  {
    hide NamedTree, InStep, Grafted, GraftedToc, IsFile, Rel, Names, Owned, Swept, Shadowed, StillListed, LeftBehind;
    StaysInStepExactly(lines, t, manifest, boot);
    forall p | IsFile(t, p)
      ensures TreatedAlike(lines, p, manifest) <==> !StillListed(p, manifest) && !LeftBehind(p, manifest)
    {
      FilesHaveNames(lines, t, p);
      NothingShadowed(lines, Rel(p));
      AgreeExactly(p, manifest);
    }
  }
}
