/** The table of contents beside an expanded project (src/toe/graftManifest.ts): a list of lines. Blank lines
    may stand anywhere; two lines name the same entry if they differ in case or slashes only. */
module Toc {
  import opened Text

  /** `normKey`. */
  function Key(line: string): string {
    Lower(Slashes(line))
  }

  /** The entries: the lines that are not blank, trimmed. */
  function Entries(lines: seq<string>): seq<string> {
    if lines == [] then []
    else if Trim(lines[0]) == "" then Entries(lines[1..])
    else [Trim(lines[0])] + Entries(lines[1..])
  }

  // ---------- duplicates ----------

  /** `findDuplicateTocLines`, given what it has seen: each later spelling, with the first if that differs. */
  function Duplicates(lines: seq<string>, seen: map<string, string>): seq<string> {
    if lines == [] then []
    else
      var t := Trim(lines[0]);
      if t == "" then Duplicates(lines[1..], seen)
      else if Key(t) !in seen then Duplicates(lines[1..], seen[Key(t) := t])
      else [if seen[Key(t)] != t then seen[Key(t)] + " / " + t else t] + Duplicates(lines[1..], seen)
  }

  method FindDuplicateTocLines(lines: seq<string>) returns (dups: seq<string>)
    ensures dups == Duplicates(lines, map[])
  {
    hide Trim, Key;
    var seen: map<string, string> := map[];
    dups := [];
    for i := 0 to |lines|
      invariant dups + Duplicates(lines[i..], seen) == Duplicates(lines, map[])
    {
      assert lines[i..][1..] == lines[i + 1..];
      var t := Trim(lines[i]);
      if t == "" {
        continue;
      }
      var key := Key(t);
      if key in seen && seen[key] != t {
        dups := dups + [seen[key] + " / " + t];
      } else if key in seen {
        dups := dups + [t];
      } else {
        seen := seen[key := t];
      }
    }
  }

  /** First spelling wins, blank lines stay. */
  function Kept(lines: seq<string>, seen: set<string>): seq<string> {
    if lines == [] then []
    else
      var t := Trim(lines[0]);
      if t == "" then [lines[0]] + Kept(lines[1..], seen)
      else if Key(t) in seen then Kept(lines[1..], seen)
      else [t] + Kept(lines[1..], seen + {Key(t)})
  }

  /** One blank line at the end goes, and the text ends in a line break. */
  function Ended(lines: seq<string>): seq<string> {
    var n := |lines|;
    var body := if n > 1 && Trim(lines[n - 1]) == "" then lines[..n - 1] else lines;
    if |body| > 1 && body[|body| - 1] == "" then body else body + [""]
  }

  function Dedupe(lines: seq<string>): seq<string> {
    Ended(Kept(lines, {}))
  }

  method DedupeToc(lines: seq<string>) returns (out: seq<string>, removed: nat)
    ensures out == Dedupe(lines)
    ensures removed == |Duplicates(lines, map[])|
  {
    hide Trim, Key, Kept, Duplicates;
    var seen: set<string> := {};
    ghost var spelled: map<string, string> := map[];
    var kept: seq<string> := [];
    removed := 0;
    for i := 0 to |lines|
      invariant kept + Kept(lines[i..], seen) == Kept(lines, {})
      invariant seen == spelled.Keys
      invariant removed + |Duplicates(lines[i..], spelled)| == |Duplicates(lines, map[])|
    {
      KeptNext(kept, lines, i, seen);
      DuplicatesNext(lines, i, spelled);
      var line := lines[i];
      var t := Trim(line);
      if t == "" {
        kept := kept + [line];
        continue;
      }
      var key := Key(t);
      if key in seen {
        removed := removed + 1;
        continue;
      }
      seen := seen + {key};
      spelled := spelled[key := t];
      kept := kept + [t];
    }
    NothingKept(kept, lines, seen, spelled);
    out := Ended(kept);
  }

  /** One turn of the loop moves a line from what is to come to what is kept, or drops it. */
  lemma {:induction false} KeptNext(kept: seq<string>, lines: seq<string>, i: nat, seen: set<string>)
    requires i < |lines|
    ensures var t, rest := Trim(lines[i]), lines[i + 1..];
      kept + Kept(lines[i..], seen) == if t == "" then kept + [lines[i]] + Kept(rest, seen)
        else if Key(t) in seen then kept + Kept(rest, seen)
        else kept + [t] + Kept(rest, seen + {Key(t)})
  {
    hide Trim, Key;
    assert lines[i..][1..] == lines[i + 1..];
  }

  lemma {:induction false} DuplicatesNext(lines: seq<string>, i: nat, seen: map<string, string>)
    requires i < |lines|
    ensures var t, rest := Trim(lines[i]), lines[i + 1..];
      |Duplicates(lines[i..], seen)| == if t == "" then |Duplicates(rest, seen)|
        else if Key(t) !in seen then |Duplicates(rest, seen[Key(t) := t])|
        else 1 + |Duplicates(rest, seen)|
  {
    hide Trim, Key;
    assert lines[i..][1..] == lines[i + 1..];
  }

  lemma {:induction false} NothingKept(kept: seq<string>, lines: seq<string>, seen: set<string>,
      spelled: map<string, string>)
    ensures kept + Kept(lines[|lines|..], seen) == kept && |Duplicates(lines[|lines|..], spelled)| == 0
  {
    assert lines[|lines|..] == [];
  }

  // ---------- entries kept once ----------

  /** The entries whose key is new. */
  function Unique(entries: seq<string>, seen: set<string>): seq<string> {
    if entries == [] then []
    else if Key(entries[0]) in seen then Unique(entries[1..], seen)
    else [entries[0]] + Unique(entries[1..], seen + {Key(entries[0])})
  }

  /** The first occurrences, by position. */
  function Firsts(entries: seq<string>): seq<string> {
    if entries == [] then []
    else
      var n := |entries| - 1;
      Firsts(entries[..n]) + if Repeats(entries, n) then [] else [entries[n]]
  }

  predicate Repeats(entries: seq<string>, n: nat)
    requires n < |entries|
  {
    exists i :: 0 <= i < n && Key(entries[i]) == Key(entries[n])
  }

  function Keys(entries: seq<string>): set<string> {
    set e | e in entries :: Key(e)
  }

  lemma {:induction false} UniqueOfMore(entries: seq<string>, last: string, seen: set<string>)
    ensures Unique(entries + [last], seen)
      == Unique(entries, seen) + if Key(last) in seen + Keys(entries) then [] else [last]
  {
    hide Key;
    if entries == [] {
      assert entries + [last] == [last] && [last][1..] == [];
    } else {
      var rest := entries[1..];
      assert (entries + [last])[1..] == rest + [last];
      KeysOfCons(entries);
      if Key(entries[0]) in seen {
        UniqueOfMore(rest, last, seen);
      } else {
        UniqueOfMore(rest, last, seen + {Key(entries[0])});
      }
    }
  }

  lemma {:induction false} KeysOfCons(entries: seq<string>)
    requires entries != []
    ensures Keys(entries) == {Key(entries[0])} + Keys(entries[1..])
  {
    hide Key;
    forall k | k in Keys(entries)
      ensures k == Key(entries[0]) || k in Keys(entries[1..])
    {
      var e :| e in entries && Key(e) == k;
      assert e == entries[0] || e in entries[1..];
    }
    assert entries[0] in entries;
    assert forall e :: e in entries[1..] ==> e in entries;
  }

  lemma {:induction false} UniqueIsFirsts(entries: seq<string>)
    ensures Unique(entries, {}) == Firsts(entries)
  {
    hide Key;
    if entries != [] {
      var n := |entries| - 1;
      UniqueIsFirsts(entries[..n]);
      UniqueOfMore(entries[..n], entries[n], {});
      assert entries[..n] + [entries[n]] == entries;
      if Key(entries[n]) in Keys(entries[..n]) {
        var e :| e in entries[..n] && Key(e) == Key(entries[n]);
        var i :| 0 <= i < n && entries[i] == e;
        assert Repeats(entries, n);
      }
    }
  }

  lemma {:induction false} EntriesOfConcat(a: seq<string>, b: seq<string>)
    ensures Entries(a + b) == Entries(a) + Entries(b)
  {
    hide Trim, Entries;
    if a == [] {
      assert a + b == b;
      NoEntries();
    } else {
      assert (a + b)[1..] == a[1..] + b;
      EntriesOfConcat(a[1..], b);
      EntriesStep(a);
      EntriesStep(a + b);
    }
  }

  lemma {:induction false} NoEntries()
    ensures Entries([]) == []
  {
  }

  lemma {:induction false} EntriesStep(lines: seq<string>)
    requires lines != []
    ensures Entries(lines)
      == if Trim(lines[0]) == "" then Entries(lines[1..]) else [Trim(lines[0])] + Entries(lines[1..])
  {
  }

  lemma {:induction false} EntriesOfOne(line: string)
    ensures Entries([line]) == if Trim(line) == "" then [] else [Trim(line)]
  {
    assert [line][1..] == [];
  }

  lemma {:induction false} EndedKeepsEntries(lines: seq<string>)
    ensures Entries(Ended(lines)) == Entries(lines)
  {
    hide Trim;
    BlankLine();
    var n := |lines|;
    var body := if n > 1 && Trim(lines[n - 1]) == "" then lines[..n - 1] else lines;
    if body != lines {
      EntriesOfConcat(body, [lines[n - 1]]);
      assert body + [lines[n - 1]] == lines;
      EntriesOfOne(lines[n - 1]);
    }
    EntriesOfConcat(body, [""]);
    EntriesOfOne("");
  }

  lemma {:induction false} BlankLine()
    ensures Trim("") == ""
  {
  }

  lemma {:induction false} KeptEntries(lines: seq<string>, seen: set<string>)
    ensures Entries(Kept(lines, seen)) == Unique(Entries(lines), seen)
  {
    hide Trim, Key;
    if lines != [] {
      var t := Trim(lines[0]);
      var rest := lines[1..];
      if t == "" {
        KeptEntries(rest, seen);
        EntriesOfConcat([lines[0]], Kept(rest, seen));
        EntriesOfOne(lines[0]);
      } else if Key(t) in seen {
        KeptEntries(rest, seen);
        assert Entries(lines)[1..] == Entries(rest);
      } else {
        KeptEntries(rest, seen + {Key(t)});
        EntriesOfConcat([t], Kept(rest, seen + {Key(t)}));
        TrimTwice(lines[0]);
        EntriesOfOne(t);
        assert Entries(lines)[1..] == Entries(rest);
      }
    }
  }

  // ---------- what is reported ----------

  /** Two lines name one entry: the same characters but for case and the direction of slashes. */
  predicate SameEntry(a: string, b: string) {
    |a| == |b| && forall i :: 0 <= i < |a| ==> SameLetter(Forward(a[i]), Forward(b[i]))
  }

  function Forward(c: char): char {
    if c == '\\' then '/' else c
  }

  lemma {:induction false} KeyMeans(a: string, b: string)
    ensures Key(a) == Key(b) <==> SameEntry(a, b)
  {
    hide Lower;
    CaseMeans(Slashes(a), Slashes(b));
    assert forall i :: 0 <= i < |a| ==> Slashes(a)[i] == Forward(a[i]);
    assert forall i :: 0 <= i < |b| ==> Slashes(b)[i] == Forward(b[i]);
  }

  /** How often the entry comes first: its least position. */
  function FirstAt(entries: seq<string>, n: nat): (i: nat)
    requires n < |entries|
    ensures i <= n && Key(entries[i]) == Key(entries[n])
    ensures forall j :: 0 <= j < i ==> Key(entries[j]) != Key(entries[n])
  {
    LeastPlace(entries, n, 0)
  }

  function LeastPlace(entries: seq<string>, n: nat, from: nat): (i: nat)
    requires from <= n < |entries| && forall j :: 0 <= j < from ==> Key(entries[j]) != Key(entries[n])
    ensures i <= n && Key(entries[i]) == Key(entries[n])
    ensures forall j :: 0 <= j < i ==> Key(entries[j]) != Key(entries[n])
    decreases n - from
  {
    if Key(entries[from]) == Key(entries[n]) then from else LeastPlace(entries, n, from + 1)
  }

  /** One report for each entry that has been there before: its spelling, after the first one if that differs. */
  function Reports(entries: seq<string>): seq<string> {
    if entries == [] then []
    else
      var n := |entries| - 1;
      var first := entries[FirstAt(entries, n)];
      Reports(entries[..n])
      + if !Repeats(entries, n) then [] else if first == entries[n] then [first] else [first + " / " + entries[n]]
  }

  /** The first spelling of every key seen. */
  function Spelled(entries: seq<string>, seen: map<string, string>): map<string, string> {
    if entries == [] then seen
    else Spelled(entries[1..], if Key(entries[0]) in seen then seen else seen[Key(entries[0]) := entries[0]])
  }

  function Reported(entries: seq<string>, seen: map<string, string>): seq<string> {
    if entries == [] then []
    else
      var e, rest := entries[0], entries[1..];
      if Key(e) !in seen then Reported(rest, seen[Key(e) := e])
      else [if seen[Key(e)] != e then seen[Key(e)] + " / " + e else e] + Reported(rest, seen)
  }

  lemma {:induction false} DuplicatesOfEntries(lines: seq<string>, seen: map<string, string>)
    ensures Duplicates(lines, seen) == Reported(Entries(lines), seen)
  {
    hide Trim, Key;
    if lines != [] {
      var t := Trim(lines[0]);
      if t == "" {
        DuplicatesOfEntries(lines[1..], seen);
      } else {
        assert Entries(lines)[1..] == Entries(lines[1..]);
        DuplicatesOfEntries(lines[1..], if Key(t) in seen then seen else seen[Key(t) := t]);
      }
    }
  }

  lemma {:induction false} ReportedMore(entries: seq<string>, last: string, seen: map<string, string>)
    ensures var known := Spelled(entries, seen);
      Reported(entries + [last], seen) == Reported(entries, seen)
        + if Key(last) !in known then [] else if known[Key(last)] != last then [known[Key(last)] + " / " + last]
          else [last]
  {
    hide Key;
    if entries == [] {
      assert entries + [last] == [last] && [last][1..] == [];
    } else {
      assert (entries + [last])[1..] == entries[1..] + [last];
      var e := entries[0];
      ReportedMore(entries[1..], last, if Key(e) in seen then seen else seen[Key(e) := e]);
    }
  }

  predicate IsFirstOf(entries: seq<string>, i: int, k: string) {
    0 <= i < |entries| && Key(entries[i]) == k && forall j :: 0 <= j < i ==> Key(entries[j]) != k
  }

  lemma {:induction false} SpelledMeans(entries: seq<string>, seen: map<string, string>, k: string)
    ensures k in Spelled(entries, seen) <==> k in seen || exists i :: 0 <= i < |entries| && Key(entries[i]) == k
    ensures k in seen ==> Spelled(entries, seen)[k] == seen[k]
    ensures k !in seen ==> forall i :: IsFirstOf(entries, i, k) ==> Spelled(entries, seen)[k] == entries[i]
  {
    hide Key;
    if entries != [] {
      var e, rest := entries[0], entries[1..];
      var next := if Key(e) in seen then seen else seen[Key(e) := e];
      SpelledMeans(rest, next, k);
      assert forall i :: 0 < i < |entries| ==> rest[i - 1] == entries[i];
      assert forall i :: i > 0 && IsFirstOf(entries, i, k) ==> IsFirstOf(rest, i - 1, k);
    }
  }

  /** What is reported of a table of contents, entry by entry. */
  lemma {:induction false} DuplicatesAre(lines: seq<string>)
    ensures Duplicates(lines, map[]) == Reports(Entries(lines))
  {
    DuplicatesOfEntries(lines, map[]);
    ReportedAre(Entries(lines));
  }

  lemma {:induction false} ReportedAre(entries: seq<string>)
    ensures Reported(entries, map[]) == Reports(entries)
  {
    hide Key;
    if entries != [] {
      var n := |entries| - 1;
      ReportedAre(entries[..n]);
      ReportedMore(entries[..n], entries[n], map[]);
      assert entries[..n] + [entries[n]] == entries;
      SpelledMeans(entries[..n], map[], Key(entries[n]));
      var i := FirstAt(entries, n);
      if i < n {
        assert IsFirstOf(entries[..n], i, Key(entries[n]));
      }
    }
  }

  /** Deduplication leaves the first occurrence of each entry, in order. */
  lemma {:induction false} DedupeKeepsFirsts(lines: seq<string>)
    ensures Entries(Dedupe(lines)) == Firsts(Entries(lines))
  {
    hide Kept, Ended, Unique, Firsts;
    EndedKeepsEntries(Kept(lines, {}));
    KeptEntries(lines, {});
    UniqueIsFirsts(Entries(lines));
  }

  lemma {:induction false} DuplicatesMissing(lines: seq<string>, seen: map<string, string>)
    ensures |Entries(lines)| == |Unique(Entries(lines), seen.Keys)| + |Duplicates(lines, seen)|
  {
    hide Trim, Key;
    if lines != [] {
      var t := Trim(lines[0]);
      if t != "" {
        assert Entries(lines)[1..] == Entries(lines[1..]);
        assert seen[Key(t) := t].Keys == seen.Keys + {Key(t)};
        DuplicatesMissing(lines[1..], if Key(t) in seen then seen else seen[Key(t) := t]);
      } else {
        DuplicatesMissing(lines[1..], seen);
      }
    }
  }

  lemma {:induction false} UniqueTwice(entries: seq<string>, seen: set<string>)
    ensures Unique(Unique(entries, seen), seen) == Unique(entries, seen)
  {
    hide Key;
    if entries != [] {
      if Key(entries[0]) in seen {
        UniqueTwice(entries[1..], seen);
      } else {
        UniqueTwice(entries[1..], seen + {Key(entries[0])});
        assert Unique(entries, seen)[1..] == Unique(entries[1..], seen + {Key(entries[0])});
      }
    }
  }

  /** As many lines go as are reported as duplicates, and none is reported afterwards. */
  lemma {:induction false} DedupeRemovesWhatIsReported(lines: seq<string>)
    ensures |Entries(lines)| - |Entries(Dedupe(lines))| == |Duplicates(lines, map[])|
    ensures Duplicates(Dedupe(lines), map[]) == []
  {
    hide Kept, Ended, Unique, Duplicates, Entries;
    var empty: map<string, string> := map[];
    assert empty.Keys == {};
    EndedKeepsEntries(Kept(lines, {}));
    KeptEntries(lines, {});
    DuplicatesMissing(lines, map[]);
    DuplicatesMissing(Dedupe(lines), map[]);
    UniqueTwice(Entries(lines), {});
  }

  // ---------- removing and adding entries ----------

  /** Ends in a line break. */
  predicate Closed(lines: seq<string>) {
    |lines| > 1 && lines[|lines| - 1] == ""
  }

  function Without(lines: seq<string>, drop: string -> bool): seq<string> {
    if lines == [] then []
    else if Trim(lines[0]) == "" || !drop(Trim(lines[0])) then [lines[0]] + Without(lines[1..], drop)
    else Without(lines[1..], drop)
  }

  function Remove(lines: seq<string>, drop: string -> bool): seq<string> {
    var kept := if Without(lines, drop) == [] then [""] else Without(lines, drop);
    if Closed(lines) && !Closed(kept) then kept + [""] else kept
  }

  method RemoveTocLines(lines: seq<string>, drop: string -> bool) returns (out: seq<string>)
    ensures out == Remove(lines, drop)
  {
    hide Trim, Closed;
    var kept: seq<string> := [];
    for i := 0 to |lines|
      invariant kept + Without(lines[i..], drop) == Without(lines, drop)
    {
      assert lines[i..][1..] == lines[i + 1..];
      var t := Trim(lines[i]);
      if t == "" || !drop(t) {
        kept := kept + [lines[i]];
      }
    }
    assert lines[|lines|..] == [] && kept + [] == kept;
    out := if kept == [] then [""] else kept;
    if Closed(lines) && !Closed(out) {
      out := out + [""];
    }
  }

  function Passing(entries: seq<string>, drop: string -> bool): seq<string> {
    if entries == [] then []
    else if drop(entries[0]) then Passing(entries[1..], drop)
    else [entries[0]] + Passing(entries[1..], drop)
  }

  lemma {:induction false} WithoutEntries(lines: seq<string>, drop: string -> bool)
    ensures Entries(Without(lines, drop)) == Passing(Entries(lines), drop)
  {
    hide Trim;
    if lines != [] {
      WithoutEntries(lines[1..], drop);
      var t := Trim(lines[0]);
      if t != "" {
        assert Entries(lines)[1..] == Entries(lines[1..]);
      }
      EntriesOfOne(lines[0]);
      EntriesOfConcat([lines[0]], Without(lines[1..], drop));
    }
  }

  /** Exactly the dropped entries go. */
  lemma {:induction false} RemoveEntries(lines: seq<string>, drop: string -> bool)
    ensures Entries(Remove(lines, drop)) == Passing(Entries(lines), drop)
  {
    hide Trim, Without;
    WithoutEntries(lines, drop);
    BlankLine();
    EntriesOfOne("");
    var kept := if Without(lines, drop) == [] then [""] else Without(lines, drop);
    EntriesOfConcat(kept, [""]);
  }

  /** The entries that are missing are written after the others. */
  function Appended(lines: seq<string>, added: seq<string>): seq<string> {
    (if lines != [] && lines[|lines| - 1] == "" then lines[..|lines| - 1] else lines) + added + [""]
  }

  function Merge(lines: seq<string>, entries: seq<string>): seq<string> {
    Dedupe(Appended(lines, Unique(entries, Keys(Entries(lines)))))
  }

  method MergeTocEntries(lines: seq<string>, entries: seq<string>) returns (out: seq<string>, added: seq<string>)
    ensures out == Merge(lines, entries) && added == Unique(entries, Keys(Entries(lines)))
  {
    hide Trim, Key, Dedupe;
    var existing := Keys(Entries(lines));
    added := [];
    for i := 0 to |entries|
      invariant added + Unique(entries[i..], existing) == Unique(entries, Keys(Entries(lines)))
    {
      assert entries[i..][1..] == entries[i + 1..];
      var key := Key(entries[i]);
      if key in existing {
        continue;
      }
      added := added + [entries[i]];
      existing := existing + {key};
    }
    assert added + [] == added;
    var removed;
    out, removed := DedupeToc(Appended(lines, added));
  }

  lemma {:induction false} AppendedEntries(lines: seq<string>, added: seq<string>)
    ensures Entries(Appended(lines, added)) == Entries(lines) + Entries(added)
  {
    hide Trim;
    BlankLine();
    EntriesOfOne("");
    var n := |lines|;
    var body := if n > 0 && lines[n - 1] == "" then lines[..n - 1] else lines;
    if body != lines {
      assert body + [""] == lines;
      EntriesOfConcat(body, [""]);
    }
    EntriesOfConcat(body + added, [""]);
    EntriesOfConcat(body, added);
  }

  /** Entries that read the same trimmed or not. */
  predicate Bare(entries: seq<string>) {
    forall i :: 0 <= i < |entries| ==> entries[i] != "" && Trim(entries[i]) == entries[i]
  }

  lemma {:induction false} BareEntries(entries: seq<string>)
    requires Bare(entries)
    ensures Entries(entries) == entries
  {
    hide Trim;
    if entries != [] {
      BareEntries(entries[1..]);
    }
  }

  /** Merging fresh, distinct entries into a list without duplicates puts exactly them at its end. */
  lemma {:induction false} MergeAddsFresh(lines: seq<string>, entries: seq<string>)
    requires Bare(entries) && Unique(entries, Keys(Entries(lines))) == entries
    ensures Entries(Merge(lines, entries)) == Firsts(Entries(lines)) + entries
  {
    hide Dedupe, Trim, Appended;
    AppendedEntries(lines, entries);
    BareEntries(entries);
    DedupeKeepsFirsts(Appended(lines, entries));
    UniqueIsFirsts(Entries(lines) + entries);
    UniqueIsFirsts(Entries(lines));
    UniqueOfConcat(Entries(lines), entries, {});
    assert {} + Keys(Entries(lines)) == Keys(Entries(lines));
  }

  lemma {:induction false} UniqueOfConcat(a: seq<string>, b: seq<string>, seen: set<string>)
    ensures Unique(a + b, seen) == Unique(a, seen) + Unique(b, seen + Keys(a))
  {
    hide Key;
    if a == [] {
      assert a + b == b && seen + Keys(a) == seen;
    } else {
      assert (a + b)[1..] == a[1..] + b;
      KeysOfCons(a);
      var k := Key(a[0]);
      if k in seen {
        assert seen + Keys(a) == seen + Keys(a[1..]);
        UniqueOfConcat(a[1..], b, seen);
      } else {
        assert seen + Keys(a) == (seen + {k}) + Keys(a[1..]);
        UniqueOfConcat(a[1..], b, seen + {k});
      }
    }
  }

  // ---------- lines, not entries ----------

  /** The text has a line break at its end. */
  predicate EndsInBreak(lines: seq<string>) {
    |lines| >= 2 && lines[|lines| - 1] == ""
  }

  /** After deduplication and after a merge the text always ends in a line break, after a removal it does if it did. */
  lemma {:induction false} TextsEndInABreak(lines: seq<string>, entries: seq<string>, drop: string -> bool)
    requires lines != []
    ensures EndsInBreak(Dedupe(lines)) && EndsInBreak(Merge(lines, entries))
    ensures EndsInBreak(lines) ==> EndsInBreak(Remove(lines, drop))
  {
    hide Kept, Without, Unique, Entries;
    EndedInBreak(lines);
    EndedInBreak(Appended(lines, Unique(entries, Keys(Entries(lines)))));
  }

  lemma {:induction false} EndedInBreak(lines: seq<string>)
    requires lines != []
    ensures EndsInBreak(Dedupe(lines))
  {
    hide Trim, Key;
    SomethingKept(lines);
    hide Kept;
  }

  lemma {:induction false} SomethingKept(lines: seq<string>)
    requires lines != []
    ensures Kept(lines, {}) != []
  {
    hide Trim, Key;
  }

  /** A removal decides line by line: a line goes exactly if it is not blank and is to be dropped. */
  lemma {:induction false} RemovalOfConcat(a: seq<string>, line: string, b: seq<string>, drop: string -> bool)
    ensures Without(a + [line] + b, drop)
      == Without(a, drop) + (if Trim(line) != "" && drop(Trim(line)) then [] else [line]) + Without(b, drop)
  {
    hide Trim;
    if a == [] {
      assert a + [line] + b == [line] + b && ([line] + b)[1..] == b;
    } else {
      assert (a + [line] + b)[1..] == a[1..] + [line] + b && (a + [line] + b)[0] == a[0];
      RemovalOfConcat(a[1..], line, b, drop);
    }
  }

  function Blanks(lines: seq<string>): seq<string> {
    if lines == [] then [] else (if Trim(lines[0]) == "" then [lines[0]] else []) + Blanks(lines[1..])
  }

  lemma {:induction false} BlanksOfFirst(line: string, rest: seq<string>)
    ensures Blanks([line] + rest) == (if Trim(line) == "" then [line] else []) + Blanks(rest)
  {
    assert ([line] + rest)[1..] == rest;
  }

  /** A deduplication keeps all blank lines in their order, before it mends the end. */
  lemma {:induction false} BlanksStay(lines: seq<string>, seen: set<string>)
    ensures Blanks(Kept(lines, seen)) == Blanks(lines)
  {
    hide Trim, Key, Blanks;
    if lines == [] {
      NoBlanks();
    } else {
      var t, rest := Trim(lines[0]), lines[1..];
      BlanksOfFirst(lines[0], rest);
      assert lines == [lines[0]] + rest;
      if t == "" {
        BlanksStay(rest, seen);
        BlanksOfFirst(lines[0], Kept(rest, seen));
      } else if Key(t) in seen {
        BlanksStay(rest, seen);
      } else {
        BlanksStay(rest, seen + {Key(t)});
        TrimTwice(lines[0]);
        BlanksOfFirst(t, Kept(rest, seen + {Key(t)}));
      }
    }
  }

  lemma {:induction false} NoBlanks()
    ensures Blanks([]) == []
  {
  }
}
