/** Grafting the bridge's boot files into an expanded foreign project (src/toe/graftManifest.ts,
    src/toe/injectMcp.ts): sweep what an earlier graft left, stage the boot files, mend the table of contents. */
module Graft {
  import opened Options
  import opened Text
  import Toc

  // ---------- the expanded project ----------

  type Path = seq<string>

  datatype Item = File(body: string) | Dir

  type Tree = map<Path, Item>

  const BRIDGE_NAME := "tdmcp_bridge"
  const LEGACY_BRIDGE_NAME := "mcp_webserver_base"
  const ONSTART_NAME := "tdmcp_port_onstart"
  const BRIDGE_STEM := "project1/tdmcp_bridge"
  const LEGACY_BRIDGE_STEM := "project1/mcp_webserver_base"
  const ONSTART_STEM := "project1/tdmcp_bridge/tdmcp_port_onstart"
  const LEGACY_ONSTART_STEM := "project1/tdmcp_port_onstart"
  const BOOT_STEM := "local/tdmcp_boot"
  const BOOT_N := "local/tdmcp_boot.n"
  const BOOT_PARM := "local/tdmcp_boot.parm"
  const BOOT_TEXT := "local/tdmcp_boot.text"

  const PROJECT1: Path := ["project1"]
  const LOCAL: Path := ["local"]
  const NESTED_ONSTART: Path := ["project1", "tdmcp_bridge", "tdmcp_port_onstart.n"]
  const BOOT_N_PATH: Path := ["local", "tdmcp_boot.n"]
  const BOOT_PARM_PATH: Path := ["local", "tdmcp_boot.parm"]
  const BOOT_TEXT_PATH: Path := ["local", "tdmcp_boot.text"]
  const BOOT_PATHS: seq<string> := [BOOT_N, BOOT_PARM, BOOT_TEXT]

  /** Every path but the root has its parent directory. */
  ghost predicate WellFormed(t: Tree) {
    forall p :: p in t && p != [] ==> p[..|p| - 1] in t && t[p[..|p| - 1]].Dir?
  }

  lemma {:induction false} PrefixesArePresent(t: Tree, p: Path, n: nat)
    requires WellFormed(t) && p in t && n <= |p|
    ensures p[..n] in t
    decreases |p| - n
  {
    if n < |p| {
      PrefixesArePresent(t, p, n + 1);
      assert p[..n + 1][..n] == p[..n];
    } else {
      assert p[..n] == p;
    }
  }

  // ---------- names ----------

  function UpTo(s: string, c: char): string {
    if s == "" || s[0] == c then "" else [s[0]] + UpTo(s[1..], c)
  }

  /** The operator an entry belongs to: `foo` for `foo.n`, `foo.parm` and the directory `foo`. */
  function OpName(entry: string): string {
    UpTo(entry, '.')
  }

  predicate Reserved(entry: string) {
    var name := Lower(OpName(entry));
    name == BRIDGE_NAME || name == LEGACY_BRIDGE_NAME || name == ONSTART_NAME
  }

  predicate BootName(entry: string) {
    entry == "tdmcp_boot" || entry == "tdmcp_boot.n" || entry == "tdmcp_boot.parm" || entry == "tdmcp_boot.text"
  }

  /** `stem` itself or one of its files. */
  predicate OfStem(key: string, stem: string) {
    key == stem || StartsWith(key, stem + ".")
  }

  /** `isGraftOwnedRel`. */
  predicate Owned(rel: string) {
    var r := Toc.Key(rel);
    || OfStem(r, BRIDGE_STEM) || StartsWith(r, BRIDGE_STEM + "/")
    || OfStem(r, LEGACY_BRIDGE_STEM) || StartsWith(r, LEGACY_BRIDGE_STEM + "/")
    || OfStem(r, ONSTART_STEM)
    || OfStem(r, LEGACY_ONSTART_STEM)
    || OfStem(r, BOOT_STEM)
  }

  predicate OnstartRel(rel: string) {
    OfStem(Toc.Key(rel), ONSTART_STEM) || OfStem(Toc.Key(rel), LEGACY_ONSTART_STEM)
  }

  function Rel(p: Path): string {
    if p == [] then "" else Join(p)
  }

  // ---------- the classifier ----------

  datatype State = Absent | Partial | Full

  ghost predicate HasStem(t: Tree, stem: string) {
    exists name :: PROJECT1 + [name] in t && Lower(OpName(name)) == stem
  }

  predicate HasBoot(t: Tree) {
    BOOT_N_PATH in t || BOOT_TEXT_PATH in t
  }

  ghost predicate AllPresent(t: Tree, manifest: seq<Path>) {
    forall i :: 0 <= i < |manifest| ==> manifest[i] in t
  }

  ghost predicate NonePresent(t: Tree, manifest: seq<Path>) {
    forall i :: 0 <= i < |manifest| ==> manifest[i] !in t
  }

  ghost predicate OnstartPresent(t: Tree, manifest: seq<Path>) {
    forall i :: 0 <= i < |manifest| && OnstartRel(Rel(manifest[i])) ==> manifest[i] in t
  }

  /** `detectBridgeConflict`; `modulesTox`: the project folder holds `modules/tdmcp_bridge.tox`. */
  ghost function Classify(t: Tree, manifest: seq<Path>, modulesTox: bool): State {
    var hasBridge := HasStem(t, BRIDGE_NAME);
    var hasSibling := HasStem(t, ONSTART_NAME);
    var hasNested := NESTED_ONSTART in t;
    var hasOnstart := hasSibling || hasNested || HasBoot(t);
    if !hasBridge && !hasOnstart && NonePresent(t, manifest) then Absent
    else if hasBridge && hasNested && AllPresent(t, manifest) then Full
    else if hasBridge && hasSibling && AllPresent(t, manifest) then Full
    else if HasBoot(t) && (modulesTox || hasBridge) then Full
    else if hasSibling && OnstartPresent(t, manifest) && (modulesTox || hasBridge) then Full
    else Partial
  }

  // ---------- sweeping and staging, on values ----------

  predicate Below(p: Path, roots: seq<Path>) {
    exists i :: 0 <= i < |roots| && roots[i] <= p
  }

  /** `rmSync(..., { recursive: true })` of each root. */
  function RemoveAll(t: Tree, roots: seq<Path>): Tree {
    map p | p in t && !Below(p, roots) :: t[p]
  }

  /** What a sweep takes: reserved names in `project1`, the boot files, everything in the manifest. */
  predicate Swept(p: Path, manifest: seq<Path>) {
    || (|p| >= 2 && p[0] == "project1" && Reserved(p[1]))
    || (|p| >= 2 && p[0] == "local" && BootName(p[1]))
    || Below(p, manifest)
  }

  /** Everything else stays as it was. */
  function Wiped(t: Tree, manifest: seq<Path>): Tree {
    map p | p in t && !Swept(p, manifest) :: t[p]
  }

  const BOOT_N_BODY :=
    "DAT:execute\ntile 0 0 130 90\nflags =  current on parlanguage 0\ncolor 0.67 0.67 0.67 \nend\n"
  const BOOT_PARM_BODY := "?\nstart 0 on\nlanguage 0 python\n?\n"

  function Staged(t: Tree, boot: string): Tree {
    t[LOCAL := Dir][BOOT_N_PATH := File(BOOT_N_BODY)]
     [BOOT_PARM_PATH := File(BOOT_PARM_BODY)][BOOT_TEXT_PATH := File(boot)]
  }

  function WipedToc(lines: seq<string>): seq<string> {
    Toc.Dedupe(Toc.Remove(lines, Owned))
  }

  function GraftedToc(lines: seq<string>): seq<string> {
    Toc.Merge(WipedToc(lines), BOOT_PATHS)
  }

  function Grafted(t: Tree, manifest: seq<Path>, boot: string): Tree {
    Staged(Wiped(t, manifest), boot)
  }

  // ---------- what the classifier says after a sweep and after staging ----------

  /** After a sweep the bridge is absent, whatever the tree and the manifest were. */
  lemma {:induction false} WipeMakesAbsent(t: Tree, manifest: seq<Path>, modulesTox: bool)
    ensures Classify(Wiped(t, manifest), manifest, modulesTox) == Absent
  {
    hide OpName, Lower;
    var w := Wiped(t, manifest);
    forall name | PROJECT1 + [name] in w
      ensures Lower(OpName(name)) != BRIDGE_NAME && Lower(OpName(name)) != ONSTART_NAME
    {
      var p := PROJECT1 + [name];
      assert p[0] == "project1" && p[1] == name && !Swept(p, manifest);
    }
    NestedIsSwept(manifest);
    forall i | 0 <= i < |manifest|
      ensures manifest[i] !in w
    {
      assert Below(manifest[i], manifest);
    }
    assert Swept(BOOT_N_PATH, manifest) && Swept(BOOT_TEXT_PATH, manifest);
  }

  lemma {:induction false} NestedIsSwept(manifest: seq<Path>)
    ensures Swept(NESTED_ONSTART, manifest)
  {
    hide Reserved, Below;
    BridgeIsReserved();
    assert NESTED_ONSTART[0] == "project1" && NESTED_ONSTART[1] == BRIDGE_NAME;
  }

  lemma {:induction false} BridgeIsReserved()
    ensures Reserved(BRIDGE_NAME)
  {
    hide Lower, OpName;
    PlainName(BRIDGE_NAME);
  }

  /** A name in lower case and without a dot is its own operator name. */
  lemma {:induction false} PlainName(name: string)
    requires forall i :: 0 <= i < |name| ==> name[i] != '.' && !('A' <= name[i] <= 'Z')
    ensures Lower(OpName(name)) == name
  {
    NoDot(name);
    assert Lower(name) == name;
  }

  lemma {:induction false} NoDot(name: string)
    requires forall i :: 0 <= i < |name| ==> name[i] != '.'
    ensures OpName(name) == name
  {
    if name != "" {
      NoDot(name[1..]);
    }
  }

  /** Once the boot files are staged the bridge counts as complete exactly if the modules' tox is there or a
      bridge is embedded, and never as absent. */
  lemma {:induction false} StagedIsFull(t: Tree, manifest: seq<Path>, boot: string, modulesTox: bool)
    ensures Classify(Staged(t, boot), manifest, modulesTox)
      == if modulesTox || HasStem(t, BRIDGE_NAME) then Full else Partial
  {
    hide OpName, Lower, Reserved;
    var s := Staged(t, boot);
    assert BOOT_N_PATH in s;
    forall name
      ensures PROJECT1 + [name] in s <==> PROJECT1 + [name] in t
    {
      var p := PROJECT1 + [name];
      assert p[0] == "project1" && LOCAL[0] == "local" && BOOT_N_PATH[0] == "local"
        && BOOT_PARM_PATH[0] == "local" && BOOT_TEXT_PATH[0] == "local";
    }
    assert HasStem(s, BRIDGE_NAME) <==> HasStem(t, BRIDGE_NAME);
  }

  /** A graft is recognised as complete exactly if the modules' tox was staged. */
  lemma {:induction false} GraftIsFull(t: Tree, manifest: seq<Path>, boot: string, modulesTox: bool)
    ensures Classify(Grafted(t, manifest, boot), manifest, modulesTox) == if modulesTox then Full else Partial
  {
    WipeMakesAbsent(t, manifest, modulesTox);
    StagedIsFull(Wiped(t, manifest), manifest, boot, modulesTox);
  }

  /** A graft outside the swept names and `local` itself leaves every path as it was. */
  lemma {:induction false} GraftKeepsTheRest(t: Tree, manifest: seq<Path>, boot: string, p: Path)
    requires !Swept(p, manifest) && p != LOCAL
    ensures p in Grafted(t, manifest, boot) <==> p in t
    ensures p in t ==> Grafted(t, manifest, boot)[p] == t[p]
  {
    BootFilesAreSwept(manifest);
  }

  lemma {:induction false} BootFilesAreSwept(manifest: seq<Path>)
    ensures Swept(BOOT_N_PATH, manifest) && Swept(BOOT_PARM_PATH, manifest) && Swept(BOOT_TEXT_PATH, manifest)
  {
  }

  /** Grafting again changes nothing. */
  lemma {:induction false} GraftTwice(t: Tree, manifest: seq<Path>, boot: string)
    ensures Grafted(Grafted(t, manifest, boot), manifest, boot) == Grafted(t, manifest, boot)
  {
    hide Swept;
    BootFilesAreSwept(manifest);
  }

  // ---------- the table of contents ----------

  lemma {:induction false} BootEntriesAreOwned()
    ensures Toc.Key(BOOT_N) == BOOT_N && Toc.Key(BOOT_PARM) == BOOT_PARM && Toc.Key(BOOT_TEXT) == BOOT_TEXT
    ensures Owned(BOOT_N) && Owned(BOOT_PARM) && Owned(BOOT_TEXT)
    ensures BOOT_N != BOOT_PARM && BOOT_PARM != BOOT_TEXT && BOOT_N != BOOT_TEXT
  {
    hide Owned, Toc.Key, PlainChars, StartsWith;
    BootNIsPlain();
    BootParmIsPlain();
    BootTextIsPlain();
    KeyOfPlain(BOOT_N);
    KeyOfPlain(BOOT_PARM);
    KeyOfPlain(BOOT_TEXT);
    OwnedOfBoot(BOOT_N);
    OwnedOfBoot(BOOT_PARM);
    OwnedOfBoot(BOOT_TEXT);
    assert BOOT_N[|BOOT_STEM| + 1] == 'n' && BOOT_PARM[|BOOT_STEM| + 1] == 'p' && BOOT_TEXT[|BOOT_STEM| + 1] == 't';
  }

  lemma {:induction false} BootNIsPlain()
    ensures PlainChars(BOOT_N) && StartsWith(BOOT_N, BOOT_STEM + ".")
  {
  }

  lemma {:induction false} BootParmIsPlain()
    ensures PlainChars(BOOT_PARM) && StartsWith(BOOT_PARM, BOOT_STEM + ".")
  {
  }

  lemma {:induction false} BootTextIsPlain()
    ensures PlainChars(BOOT_TEXT) && StartsWith(BOOT_TEXT, BOOT_STEM + ".")
  {
  }

  lemma {:induction false} OwnedOfBoot(s: string)
    requires Toc.Key(s) == s && StartsWith(s, BOOT_STEM + ".")
    ensures Owned(s)
  {
    hide Toc.Key;
    assert OfStem(s, BOOT_STEM);
  }

  predicate PlainChars(s: string) {
    forall i :: 0 <= i < |s| ==> s[i] != '\\' && !('A' <= s[i] <= 'Z')
  }

  lemma {:induction false} KeyOfPlain(s: string)
    requires PlainChars(s)
    ensures Toc.Key(s) == s
  {
    assert Slashes(s) == s;
    assert Lower(s) == s;
  }

  lemma {:induction false} BootEntriesAreBare()
    ensures Toc.Bare(BOOT_PATHS)
  {
    hide IsBlank, Trim;
    NotBlank('l');
    NotBlank('n');
    NotBlank('m');
    NotBlank('t');
    assert BOOT_N[|BOOT_N| - 1] == 'n' && BOOT_PARM[|BOOT_PARM| - 1] == 'm' && BOOT_TEXT[|BOOT_TEXT| - 1] == 't';
    BareEnds(BOOT_N);
    BareEnds(BOOT_PARM);
    BareEnds(BOOT_TEXT);
    BareTriple(BOOT_N, BOOT_PARM, BOOT_TEXT);
  }

  lemma {:induction false} NotBlank(c: char)
    requires 'a' <= c <= 'z'
    ensures !IsBlank(c)
  {
  }

  lemma {:induction false} BareTriple(a: string, b: string, c: string)
    requires a != "" && b != "" && c != "" && Trim(a) == a && Trim(b) == b && Trim(c) == c
    ensures Toc.Bare([a, b, c])
  {
    hide Trim;
  }

  lemma {:induction false} DropOwned(entry: string, rest: seq<string>)
    requires Owned(entry)
    ensures Toc.Passing([entry] + rest, Owned) == Toc.Passing(rest, Owned)
  {
    hide Owned;
    assert ([entry] + rest)[1..] == rest;
  }

  /** Three owned entries with different keys. */
  lemma {:induction false} OwnedTriple(a: string, b: string, c: string, seen: set<string>)
    requires Owned(a) && Owned(b) && Owned(c)
    requires Toc.Key(a) != Toc.Key(b) && Toc.Key(b) != Toc.Key(c) && Toc.Key(a) != Toc.Key(c)
    ensures Toc.Passing([a, b, c], Owned) == []
    ensures Toc.Key(a) !in seen && Toc.Key(b) !in seen && Toc.Key(c) !in seen
      ==> Toc.Unique([a, b, c], seen) == [a, b, c]
  {
    hide Owned, Toc.Key;
    assert [a, b, c][1..] == [b, c] && [b, c][1..] == [c] && [c][1..] == [];
    DropOwned(a, [b, c]);
    DropOwned(b, [c]);
    DropOwned(c, []);
    assert [a, b, c] == [a] + [b, c] && [b, c] == [b] + [c] && [c] == [c] + [];
    var afterA := seen + {Toc.Key(a)};
    var afterB := afterA + {Toc.Key(b)};
    assert Toc.Key(c) !in afterB ==> Toc.Unique([c], afterB) == [c];
    assert Toc.Key(b) !in afterA && Toc.Key(c) !in afterB ==> Toc.Unique([b, c], afterA) == [b, c];
  }

  lemma {:induction false} BareEnds(s: string)
    requires s != "" && !IsBlank(s[0]) && !IsBlank(s[|s| - 1])
    ensures Trim(s) == s
  {
  }

  /** What is owned is decided by the key alone. */
  lemma {:induction false} OwnedByKey(a: string, b: string)
    requires Toc.Key(a) == Toc.Key(b)
    ensures Owned(a) <==> Owned(b)
  {
    hide OfStem;
  }

  lemma {:induction false} NoneOwned(entries: seq<string>)
    ensures forall e :: e in Toc.Passing(entries, Owned) ==> !Owned(e)
  {
    hide Owned;
    if entries != [] {
      NoneOwned(entries[1..]);
    }
  }

  lemma {:induction false} FirstsAreInside(entries: seq<string>)
    ensures forall e :: e in Toc.Firsts(entries) ==> e in entries
  {
    hide Toc.Repeats;
    if entries != [] {
      var n := |entries| - 1;
      FirstsAreInside(entries[..n]);
      assert entries[n] in entries;
      assert forall e :: e in entries[..n] ==> e in entries;
    }
  }

  lemma {:induction false} WipedEntries(lines: seq<string>)
    ensures Toc.Entries(WipedToc(lines)) == Toc.Firsts(Toc.Passing(Toc.Entries(lines), Owned))
    ensures forall e :: e in Toc.Entries(WipedToc(lines)) ==> !Owned(e)
  {
    hide Owned, Toc.Dedupe, Toc.Remove, Toc.Firsts;
    Toc.DedupeKeepsFirsts(Toc.Remove(lines, Owned));
    Toc.RemoveEntries(lines, Owned);
    NoneOwned(Toc.Entries(lines));
    FirstsAreInside(Toc.Passing(Toc.Entries(lines), Owned));
  }

  lemma {:induction false} BootEntriesAreFresh(entries: seq<string>)
    requires forall e :: e in entries ==> !Owned(e)
    ensures Toc.Unique(BOOT_PATHS, Toc.Keys(entries)) == BOOT_PATHS
  {
    hide Owned, Toc.Key;
    BootEntriesAreOwned();
    var keys := Toc.Keys(entries);
    forall b | b in BOOT_PATHS
      ensures Toc.Key(b) !in keys
    {
      if Toc.Key(b) in keys {
        var e :| e in entries && Toc.Key(e) == Toc.Key(b);
        OwnedByKey(e, b);
      }
    }
    assert BOOT_N in BOOT_PATHS && BOOT_PARM in BOOT_PATHS && BOOT_TEXT in BOOT_PATHS;
    OwnedTriple(BOOT_N, BOOT_PARM, BOOT_TEXT, keys);
  }

  /** After sweep, staging and merge the entries are the first occurrences of the entries that no graft owns,
      in their order, and then exactly the three boot files. */
  lemma {:induction false} TocAfterGraft(lines: seq<string>)
    ensures Toc.Entries(GraftedToc(lines)) == Toc.Firsts(Toc.Passing(Toc.Entries(lines), Owned)) + BOOT_PATHS
  {
    hide Owned, Toc.Firsts, Toc.Merge, Toc.Entries, WipedToc, Toc.Unique;
    WipedEntries(lines);
    BootEntriesAreFresh(Toc.Entries(WipedToc(lines)));
    BootEntriesAreBare();
    Toc.MergeAddsFresh(WipedToc(lines), BOOT_PATHS);
    FirstsTwice(Toc.Passing(Toc.Entries(lines), Owned));
  }

  lemma {:induction false} FirstsTwice(entries: seq<string>)
    ensures Toc.Firsts(Toc.Firsts(entries)) == Toc.Firsts(entries)
  {
    Toc.UniqueIsFirsts(entries);
    Toc.UniqueIsFirsts(Toc.Firsts(entries));
    Toc.UniqueTwice(entries, {});
  }

  // ---------- the conflict gate ----------

  datatype OnConflict = Abort | Skip | Replace

  datatype Outcome = Refused(code: string) | Skipped | Injected | Replaced

  /** The three checks in their order, then the action; `collisions`: there are colliding bridge names. */
  function Gate(state: State, collisions: bool, onConflict: OnConflict): Outcome {
    if state == Full && onConflict == Abort then Refused("MCP_BRIDGE_EXISTS")
    else if state == Partial && onConflict != Replace then Refused("MCP_BRIDGE_PARTIAL")
    else if collisions && onConflict == Abort && state != Absent then Refused("NODE_NAME_DUPLICATE")
    else if state == Full && onConflict == Skip then Skipped
    else if state == Absent && !collisions then Injected
    else Replaced
  }

  /** What the gate does, state by state: a bridge that is there is overwritten only on `Replace`, left alone when it is
      complete and `Skip` was asked, and otherwise refused with the code of its state. Without a bridge the
      injection always goes ahead. */
  lemma {:induction false} GateMeans(state: State, collisions: bool, onConflict: OnConflict)
    ensures var outcome := Gate(state, collisions, onConflict);
      && (outcome.Injected? || outcome.Replaced? <==> state == Absent || onConflict == Replace)
      && (outcome.Injected? <==> state == Absent && !collisions)
      && (outcome.Skipped? <==> state == Full && onConflict == Skip)
      && (outcome.Refused? <==> (state == Full && onConflict == Abort) || (state == Partial && onConflict != Replace))
      && (outcome.Refused? ==> outcome.code == if state == Full then "MCP_BRIDGE_EXISTS" else "MCP_BRIDGE_PARTIAL")
  {
  }

  /** A bridge is absent exactly if nothing of it is there, and complete exactly if there is what is to be loaded - the
      tox or an embedded bridge - and what loads it: the boot files, all of a sibling's start files, or a start
      node beside or inside an embedded bridge with the whole manifest. */
  lemma {:induction false} ClassifyMeans(t: Tree, manifest: seq<Path>, modulesTox: bool)
    ensures var state := Classify(t, manifest, modulesTox);
      var boot := BOOT_N_PATH in t || BOOT_TEXT_PATH in t;
      var nested := NESTED_ONSTART in t;
      var bridge, sibling := HasStem(t, "tdmcp_bridge"), HasStem(t, "tdmcp_port_onstart");
      && (state == Absent <==> !bridge && !sibling && !nested && !boot && forall p :: p in manifest ==> p !in t)
      && (state == Full <==>
            && (modulesTox || bridge)
            && (|| boot
                || (sibling && forall p :: p in manifest && OnstartRel(Rel(p)) ==> p in t)
                || (bridge && (nested || sibling) && forall p :: p in manifest ==> p in t)))
  {
    hide HasStem, OnstartRel, Rel;
  }

  /** The third check never decides: colliding names alone refuse nothing. */
  lemma {:induction false} CollisionsNeverRefuse(state: State, onConflict: OnConflict)
    ensures Gate(state, true, onConflict).Refused? <==> Gate(state, false, onConflict).Refused?
    ensures forall collisions :: Gate(state, collisions, onConflict) != Refused("NODE_NAME_DUPLICATE")
  {
    var a, b, c := "MCP_BRIDGE_EXISTS", "MCP_BRIDGE_PARTIAL", "NODE_NAME_DUPLICATE";
    assert a[0] != c[0] && b[0] != c[0];
  }

  /** Injecting once more into a grafted project whose modules hold the tox: refused, skipped or replaced as
      asked, and a replacement ends in the same tree and the same entries. */
  lemma {:induction false} InjectAgain(t: Tree, lines: seq<string>, manifest: seq<Path>, boot: string,
      collisions: bool)
    ensures var once, toc := Grafted(t, manifest, boot), GraftedToc(lines);
      && Gate(Classify(once, manifest, true), collisions, Abort) == Refused("MCP_BRIDGE_EXISTS")
      && Gate(Classify(once, manifest, true), collisions, Skip) == Skipped
      && Gate(Classify(once, manifest, true), collisions, Replace) == Replaced
      && Grafted(once, manifest, boot) == once
      && Toc.Entries(GraftedToc(toc)) == Toc.Entries(toc)
  {
    hide Classify, Grafted, GraftedToc;
    GraftIsFull(t, manifest, boot, true);
    GraftTwice(t, manifest, boot);
    EntriesTwice(lines);
  }

  lemma {:induction false} EntriesTwice(lines: seq<string>)
    ensures Toc.Entries(GraftedToc(GraftedToc(lines))) == Toc.Entries(GraftedToc(lines))
  {
    hide Owned, Toc.Firsts, GraftedToc, Toc.Entries;
    var own := Toc.Firsts(Toc.Passing(Toc.Entries(lines), Owned));
    TocAfterGraft(lines);
    TocAfterGraft(GraftedToc(lines));
    NoneOwned(Toc.Entries(lines));
    FirstsAreInside(Toc.Passing(Toc.Entries(lines), Owned));
    PassingOfOwn(own);
    FirstsTwice(Toc.Passing(Toc.Entries(lines), Owned));
  }

  lemma {:induction false} PassingOfOwn(entries: seq<string>)
    requires forall e :: e in entries ==> !Owned(e)
    ensures Toc.Passing(entries + BOOT_PATHS, Owned) == entries
  {
    hide Owned, Toc.Key;
    if entries == [] {
      BootEntriesAreOwned();
      assert entries + BOOT_PATHS == BOOT_PATHS;
      OwnedTriple(BOOT_N, BOOT_PARM, BOOT_TEXT, {});
    } else {
      assert entries[0] in entries;
      assert (entries + BOOT_PATHS)[1..] == entries[1..] + BOOT_PATHS;
      PassingOfOwn(entries[1..]);
    }
  }

  // ---------- the working copy itself ----------

  class WorkingCopy {
    var tree: Tree
    var toc: seq<string>

    constructor (t: Tree, lines: seq<string>)
      ensures tree == t && toc == lines
    {
      tree, toc := t, lines;
    }

    /** `rmSync`, recursive. */
    method RemoveTree(path: Path)
      modifies this`tree
      ensures tree == RemoveAll(old(tree), [path])
    {
      tree := RemoveAll(tree, [path]);
    }

    method HasEntriesOfStem(stem: string) returns (found: bool)
      ensures found == HasStem(tree, stem)
    {
      hide OpName, Lower;
      var hits := set p | p in tree && |p| == 2 && p[0] == "project1" && Lower(OpName(p[1])) == stem :: p[1];
      found := hits != {};
      if found {
        var name :| name in hits;
        var p :| p in tree && |p| == 2 && p[0] == "project1" && Lower(OpName(p[1])) == stem && p[1] == name;
        assert p == PROJECT1 + [name];
      } else {
        assert forall name ::
          PROJECT1 + [name] in tree && Lower(OpName(name)) == stem ==> (PROJECT1 + [name])[1] in hits;
      }
    }

    method DetectBridgeConflict(manifest: seq<Path>, modulesTox: bool) returns (state: State)
      ensures state == Classify(tree, manifest, modulesTox)
    {
      hide HasStem, OnstartRel, Rel;
      var hasBridge := HasEntriesOfStem(BRIDGE_NAME);
      var hasSibling := HasEntriesOfStem(ONSTART_NAME);
      var hasNested := NESTED_ONSTART in tree;
      var hasBoot := BOOT_N_PATH in tree || BOOT_TEXT_PATH in tree;
      var hasOnstart := hasSibling || hasNested || hasBoot;
      var present, missing, onstartMissing: seq<Path> := [], [], [];
      for i := 0 to |manifest|
        invariant present == [] <==> NonePresent(tree, manifest[..i])
        invariant missing == [] <==> AllPresent(tree, manifest[..i])
        invariant onstartMissing == [] <==> OnstartPresent(tree, manifest[..i])
      {
        if manifest[i] in tree {
          present := present + [manifest[i]];
        } else {
          missing := missing + [manifest[i]];
          if OnstartRel(Rel(manifest[i])) {
            onstartMissing := onstartMissing + [manifest[i]];
          }
        }
        assert manifest[..i + 1] == manifest[..i] + [manifest[i]];
        OneMorePath(tree, manifest[..i], manifest[i]);
      }
      assert manifest[..|manifest|] == manifest;
      if !hasBridge && !hasOnstart && |present| == 0 {
        return Absent;
      }
      if hasBridge && hasNested && |missing| == 0 {
        return Full;
      }
      if hasBridge && hasSibling && |missing| == 0 {
        return Full;
      }
      if hasBoot && (modulesTox || hasBridge) {
        return Full;
      }
      if hasSibling && |onstartMissing| == 0 && (modulesTox || hasBridge) {
        return Full;
      }
      state := Partial;
    }

    /** Entries of `project1` with a reserved name. */
    method RemoveReserved() returns (ghost roots: seq<Path>)
      modifies this`tree
      ensures tree == RemoveAll(old(tree), roots) && ReservedRoots(roots)
      ensures ReservedCovered(old(tree), {}, roots)
    {
      hide RemoveAll, Reserved;
      ghost var before := tree;
      roots := [];
      RemoveNothing(before);
      var names := set p | p in tree && |p| == 2 && p[0] == "project1" :: p[1];
      while names != {}
        invariant tree == RemoveAll(before, roots)
        invariant ReservedRoots(roots) && ReservedCovered(before, names, roots)
        decreases |names|
      {
        var name :| name in names;
        if Reserved(name) {
          RemoveTree(["project1", name]);
          RemoveMore(before, roots, ["project1", name]);
          roots := roots + [["project1", name]];
        }
        CoverMore(before, names, roots, name);
        names := names - {name};
      }
    }

    method RemoveEach(paths: seq<Path>, ghost before: Tree, ghost roots: seq<Path>)
      requires WellFormed(before) && tree == RemoveAll(before, roots)
      modifies this`tree
      ensures tree == RemoveAll(before, roots + paths)
    {
      hide RemoveAll, WellFormed;
      assert roots + paths[..0] == roots;
      for i := 0 to |paths|
        invariant tree == RemoveAll(before, roots + paths[..i])
      {
        assert (roots + paths[..i]) + [paths[i]] == roots + paths[..i + 1];
        RemoveMore(before, roots + paths[..i], paths[i]);
        if paths[i] in tree {
          RemoveTree(paths[i]);
        } else {
          RemoveMissing(before, roots + paths[..i], paths[i]);
        }
      }
      assert paths[..|paths|] == paths;
    }

    method WipeGraftOwned(manifest: seq<Path>)
      requires WellFormed(tree)
      modifies this
      ensures tree == Wiped(old(tree), manifest) && toc == WipedToc(old(toc))
    {
      hide Wiped, RemoveAll, Toc.Dedupe, Toc.Remove, Owned, ReservedRoots, ReservedCovered, WellFormed;
      ghost var before := tree;
      ghost var reserved := RemoveReserved();
      var boots := [["local", "tdmcp_boot"], BOOT_N_PATH, BOOT_PARM_PATH, BOOT_TEXT_PATH];
      RemoveEach(boots, before, reserved);
      RemoveEach(manifest, before, reserved + boots);
      SweepIsComplete(before, reserved, boots, manifest);
      var lines := Toc.RemoveTocLines(toc, Owned);
      var removed;
      toc, removed := Toc.DedupeToc(lines);
    }

    /** Returns the entries for the table of contents. */
    method StageBootInExpand(boot: string) returns (paths: seq<string>)
      modifies this`tree
      ensures tree == Staged(old(tree), boot) && paths == BOOT_PATHS
    {
      tree := tree[LOCAL := Dir];
      tree := tree[BOOT_N_PATH := File(BOOT_N_BODY)];
      tree := tree[BOOT_PARM_PATH := File(BOOT_PARM_BODY)];
      tree := tree[BOOT_TEXT_PATH := File(boot)];
      paths := [BOOT_N, BOOT_PARM, BOOT_TEXT];
    }

    method Graft(manifest: seq<Path>, boot: string)
      requires WellFormed(tree)
      modifies this
      ensures tree == Grafted(old(tree), manifest, boot) && toc == GraftedToc(old(toc))
    {
      hide Wiped, Staged, WipedToc, Toc.Merge, WellFormed;
      WipeGraftOwned(manifest);
      var bootPaths := StageBootInExpand(boot);
      var added;
      toc, added := Toc.MergeTocEntries(toc, bootPaths);
    }

    /** A refusal wipes the working copy; a skip deletes the expanded tree and its table of contents, so that
        only the copied file is left. */
    method Inject(manifest: seq<Path>, boot: string, modulesTox: bool, collisions: bool, onConflict: OnConflict)
      returns (outcome: Outcome)
      requires WellFormed(tree)
      modifies this
      ensures outcome == Gate(Classify(old(tree), manifest, modulesTox), collisions, onConflict)
      ensures outcome.Injected? || outcome.Replaced?
        <==> Classify(old(tree), manifest, modulesTox) == Absent || onConflict == Replace
      ensures outcome.Skipped? <==> Classify(old(tree), manifest, modulesTox) == Full && onConflict == Skip
      ensures outcome.Refused? || outcome.Skipped? ==> tree == map[] && toc == []
      ensures outcome.Injected? || outcome.Replaced?
        ==> tree == Grafted(old(tree), manifest, boot) && toc == GraftedToc(old(toc))
    {
      hide Classify, Grafted, GraftedToc, WellFormed;
      var state := DetectBridgeConflict(manifest, modulesTox);
      var refusal: Option<string> := None;
      if state == Full && onConflict == Abort {
        refusal := Some("MCP_BRIDGE_EXISTS");
      } else if state == Partial && onConflict != Replace {
        refusal := Some("MCP_BRIDGE_PARTIAL");
      } else if collisions && onConflict == Abort && state != Absent {
        refusal := Some("NODE_NAME_DUPLICATE");
      }
      if refusal.Some? {
        tree, toc := map[], [];
        return Refused(refusal.value);
      }
      if state == Full && onConflict == Skip {
        tree, toc := map[], [];
        return Skipped;
      }
      outcome := if state == Absent && !collisions then Injected else Replaced;
      Graft(manifest, boot);
    }
  }

  lemma {:induction false} OneMorePath(t: Tree, paths: seq<Path>, path: Path)
    ensures NonePresent(t, paths + [path]) <==> NonePresent(t, paths) && path !in t
    ensures AllPresent(t, paths + [path]) <==> AllPresent(t, paths) && path in t
    ensures OnstartPresent(t, paths + [path]) <==> OnstartPresent(t, paths) && (OnstartRel(Rel(path)) ==> path in t)
  {
    hide OnstartRel, Rel;
    var more := paths + [path];
    assert more[|paths|] == path && forall i :: 0 <= i < |paths| ==> more[i] == paths[i];
  }

  ghost predicate ReservedRoots(roots: seq<Path>) {
    forall r :: r in roots ==> |r| == 2 && r[0] == "project1" && Reserved(r[1])
  }

  /** Every reserved entry whose name is not waiting any more is among the roots. */
  ghost predicate ReservedCovered(t: Tree, waiting: set<string>, roots: seq<Path>) {
    forall p :: p in t && |p| == 2 && p[0] == "project1" && Reserved(p[1]) ==> p[1] in waiting || p in roots
  }

  lemma {:induction false} CoverMore(t: Tree, waiting: set<string>, roots: seq<Path>, name: string)
    requires ReservedCovered(t, waiting, roots) && (Reserved(name) ==> ["project1", name] in roots)
    ensures ReservedCovered(t, waiting - {name}, roots)
  {
    hide Reserved;
    forall p | p in t && |p| == 2 && p[0] == "project1" && Reserved(p[1])
      ensures p[1] in waiting - {name} || p in roots
    {
      assert p == ["project1", p[1]];
    }
  }

  lemma {:induction false} RemoveNothing(t: Tree)
    ensures RemoveAll(t, []) == t
  {
  }

  lemma {:induction false} RemoveMore(t: Tree, roots: seq<Path>, root: Path)
    ensures RemoveAll(RemoveAll(t, roots), [root]) == RemoveAll(t, roots + [root])
  {
    forall p: Path
      ensures Below(p, roots + [root]) <==> Below(p, roots) || Below(p, [root])
    {
      BelowMore(p, roots, [root]);
    }
  }

  lemma {:induction false} BelowMore(p: Path, a: seq<Path>, b: seq<Path>)
    ensures Below(p, a + b) <==> Below(p, a) || Below(p, b)
  {
    var ab := a + b;
    if i :| 0 <= i < |a| && a[i] <= p {
      assert ab[i] <= p;
    }
    if i :| 0 <= i < |b| && b[i] <= p {
      assert ab[|a| + i] <= p;
    }
  }

  /** Nothing lies below a path that is not there. */
  lemma {:induction false} RemoveMissing(t: Tree, roots: seq<Path>, path: Path)
    requires WellFormed(t) && path !in RemoveAll(t, roots)
    ensures RemoveAll(t, roots + [path]) == RemoveAll(t, roots)
  {
    forall p | p in t && Below(p, [path])
      ensures Below(p, roots)
    {
      assert path <= p && p[..|path|] == path;
      PrefixesArePresent(t, p, |path|);
      var i :| 0 <= i < |roots| && roots[i] <= path;
      assert roots[i] <= p;
    }
    forall p: Path
      ensures Below(p, roots + [path]) <==> Below(p, roots) || Below(p, [path])
    {
      BelowMore(p, roots, [path]);
    }
  }

  lemma {:induction false} SweepIsComplete(t: Tree, reserved: seq<Path>, boots: seq<Path>, manifest: seq<Path>)
    requires WellFormed(t) && ReservedRoots(reserved)
    requires ReservedCovered(t, {}, reserved)
    requires boots == [["local", "tdmcp_boot"], BOOT_N_PATH, BOOT_PARM_PATH, BOOT_TEXT_PATH]
    ensures RemoveAll(t, reserved + boots + manifest) == Wiped(t, manifest)
  {
    hide Reserved, BootName;
    forall p | p in t
      ensures Below(p, reserved + boots + manifest) <==> Swept(p, manifest)
    {
      BelowMore(p, reserved + boots, manifest);
      BelowMore(p, reserved, boots);
      BelowReserved(t, reserved, p);
      BelowBoots(boots, p);
    }
  }

  lemma {:induction false} BelowReserved(t: Tree, reserved: seq<Path>, p: Path)
    requires WellFormed(t) && ReservedRoots(reserved) && p in t
    requires ReservedCovered(t, {}, reserved)
    ensures Below(p, reserved) <==> |p| >= 2 && p[0] == "project1" && Reserved(p[1])
  {
    hide Reserved;
    if |p| >= 2 && p[0] == "project1" && Reserved(p[1]) {
      PrefixesArePresent(t, p, 2);
      assert p[..2] in reserved;
    }
    if i :| 0 <= i < |reserved| && reserved[i] <= p {
      assert reserved[i] in reserved;
      assert p[..2] == reserved[i];
    }
  }

  lemma {:induction false} BelowBoots(boots: seq<Path>, p: Path)
    requires boots == [["local", "tdmcp_boot"], BOOT_N_PATH, BOOT_PARM_PATH, BOOT_TEXT_PATH]
    ensures Below(p, boots) <==> |p| >= 2 && p[0] == "local" && BootName(p[1])
  {
    forall i | 0 <= i < 4
      ensures boots[i] <= p <==> |p| >= 2 && p[0] == "local" && p[1] == boots[i][1]
    {
    }
    if |p| >= 2 && p[0] == "local" && BootName(p[1]) {
      assert boots[0] <= p || boots[1] <= p || boots[2] <= p || boots[3] <= p;
    }
  }
}
