/** The paths a run changed, read back from git's NUL-separated status and name-status output. */
module GitPaths {
  import opened Options
  import opened Sorting

  const NUL := '\0'

  datatype Result = Failed | Paths(paths: seq<string>)

  /** One entry of git's output. A rename or copy carries a second path. */
  datatype Entry = Entry(status: string, path: string, other: Option<string>)

  // ---------------------------------------------------------------- fields

  /** `bytes.Split` on NUL: one more field than there are separators. */
  function Split(data: string): (fields: seq<string>)
    ensures |fields| >= 1
  {
    if data == [] then [[]]
    else
      var rest := Split(data[1..]);
      if data[0] == NUL then [[]] + rest else [[data[0]] + rest[0]] + rest[1..]
  }

  lemma {:induction false} SplitField(field: string, rest: string)
    requires NUL !in field
    ensures Split(field + [NUL] + rest) == [field] + Split(rest)
  {
    var data := field + [NUL] + rest;
    if field == [] {
      assert data[1..] == rest;
    } else {
      SplitField(field[1..], rest);
      assert data[1..] == field[1..] + [NUL] + rest;
      assert [field[0]] + field[1..] == field;
    }
  }

  predicate Moves(status: string) {
    'R' in status || 'C' in status
  }

  predicate IsPath(path: string) {
    path != [] && NUL !in path
  }

  // ---------------------------------------------------------------- git status --porcelain -z

  /** Two status letters, and a second path exactly on renames and copies. */
  predicate StatusEntry(e: Entry) {
    && |e.status| == 2 && NUL !in e.status && IsPath(e.path)
    && (e.other.Some? <==> Moves(e.status))
    && (e.other.Some? ==> IsPath(e.other.value))
  }

  function PrintStatus(entries: seq<Entry>): string {
    if entries == [] then []
    else
      var e := entries[0];
      e.status + [' '] + e.path + [NUL]
      + (if e.other.Some? then e.other.value + [NUL] else []) + PrintStatus(entries[1..])
  }

  /** What the parser takes from the fields, from the front. */
  function StatusPaths(fields: seq<string>): seq<string> {
    if fields == [] then []
    else if |fields[0]| < 4 then StatusPaths(fields[1..])
    else if Moves(fields[0][..2]) && |fields| > 1 && |fields[1]| > 0 then
      [fields[0][3..], fields[1]] + StatusPaths(fields[2..])
    else [fields[0][3..]] + StatusPaths(fields[1..])
  }

  /** `parseStatusZ`. */
  method ParseStatusZ(data: string) returns (out: seq<string>)
    ensures out == StatusPaths(Split(data))
  {
    var fields := Split(data);
    out := [];
    var i := 0;
    while i < |fields|
      invariant 0 <= i <= |fields|
      invariant out + StatusPaths(fields[i..]) == StatusPaths(fields)
    {
      var f := fields[i];
      if |f| < 4 {
        i := i + 1;
        continue;
      }
      var status := f[..2];
      out := out + [f[3..]];
      if 'R' in status || 'C' in status {
        if i + 1 < |fields| && |fields[i + 1]| > 0 {
          i := i + 1;
          out := out + [fields[i]];
        }
      }
      i := i + 1;
    }
  }

  /** Every path an entry names, in the order git prints them. */
  function EntryPaths(entries: seq<Entry>): seq<string> {
    if entries == [] then []
    else
      [entries[0].path] + (if entries[0].other.Some? then [entries[0].other.value] else [])
      + EntryPaths(entries[1..])
  }

  ghost predicate AllStatus(entries: seq<Entry>) {
    forall i :: 0 <= i < |entries| ==> StatusEntry(entries[i])
  }

  /** The fields of one printed status entry, ahead of any others. */
  lemma StatusFields(e: Entry, rest: string, printed: string)
    requires StatusEntry(e)
    requires printed == e.status + [' '] + e.path + [NUL] + (if e.other.Some? then e.other.value + [NUL] else []) + rest
    ensures Split(printed) ==
            [e.status + [' '] + e.path] + (if e.other.Some? then [e.other.value] else []) + Split(rest)
  {
    hide Split;
    var head := e.status + [' '] + e.path;
    if e.other.Some? {
      var tail := e.other.value + [NUL] + rest;
      assert printed == head + [NUL] + tail;
      SplitField(head, tail);
      SplitField(e.other.value, rest);
    } else {
      assert printed == head + [NUL] + rest;
      SplitField(head, rest);
    }
  }

  /** One entry's fields are read as that entry's paths. */
  lemma StatusFieldsRead(e: Entry, fields: seq<string>)
    requires StatusEntry(e)
    ensures StatusPaths([e.status + [' '] + e.path] + (if e.other.Some? then [e.other.value] else []) + fields) ==
            [e.path] + (if e.other.Some? then [e.other.value] else []) + StatusPaths(fields)
  {
    var head := e.status + [' '] + e.path;
    assert head[..2] == e.status && head[3..] == e.path;
    if e.other.Some? {
      assert ([head] + [e.other.value] + fields)[2..] == fields;
    } else {
      assert [head] + [] + fields == [head] + fields;
      assert ([head] + fields)[1..] == fields;
    }
  }

  lemma {:induction false} StatusRoundTrip(entries: seq<Entry>)
    requires AllStatus(entries)
    ensures StatusPaths(Split(PrintStatus(entries))) == EntryPaths(entries)
  {
    if entries == [] {
      assert Split([]) == [[]];
    } else {
      hide Split, StatusPaths;
      StatusRoundTrip(entries[1..]);
      StatusFields(entries[0], PrintStatus(entries[1..]), PrintStatus(entries));
      StatusFieldsRead(entries[0], Split(PrintStatus(entries[1..])));
    }
  }

  // ---------------------------------------------------------------- git diff --name-status -z

  /** A status such as M or R100, and a second path exactly when it starts with R or C. */
  predicate NameEntry(e: Entry) {
    && e.status != [] && NUL !in e.status && IsPath(e.path)
    && (e.other.Some? <==> e.status[0] == 'R' || e.status[0] == 'C')
    && (e.other.Some? ==> IsPath(e.other.value))
  }

  function PrintNames(entries: seq<Entry>): string {
    if entries == [] then []
    else
      var e := entries[0];
      e.status + [NUL] + e.path + [NUL]
      + (if e.other.Some? then e.other.value + [NUL] else []) + PrintNames(entries[1..])
  }

  function NamePaths(fields: seq<string>): seq<string> {
    if fields == [] then []
    else if |fields[0]| == 0 then NamePaths(fields[1..])
    else if |fields| == 1 then []
    else if fields[0][0] != 'R' && fields[0][0] != 'C' then [fields[1]] + NamePaths(fields[2..])
    else if |fields| == 2 then [fields[1]]
    else [fields[1]] + (if |fields[2]| > 0 then [fields[2]] else []) + NamePaths(fields[3..])
  }

  /** What is left to read from field i on; the index may have run past the end. */
  function From(fields: seq<string>, i: nat): (rest: seq<string>)
    ensures i >= |fields| ==> rest == []
  {
    if i <= |fields| then fields[i..] else []
  }

  lemma NamesOfNothing()
    ensures NamePaths([]) == []
  {
  }

  lemma NameStep(fields: seq<string>, i: nat)
    requires i < |fields|
    ensures NamePaths(From(fields, i)) ==
            if |fields[i]| == 0 then NamePaths(From(fields, i + 1))
            else if i + 1 >= |fields| then []
            else if fields[i][0] != 'R' && fields[i][0] != 'C' then [fields[i + 1]] + NamePaths(From(fields, i + 2))
            else [fields[i + 1]] + (if i + 2 < |fields| && |fields[i + 2]| > 0 then [fields[i + 2]] else [])
                 + NamePaths(From(fields, i + 3))
  {
    var rest := fields[i..];
    assert rest[1..] == fields[i + 1..];
    if i + 2 <= |fields| {
      assert rest[2..] == fields[i + 2..];
    }
    if i + 3 <= |fields| {
      assert rest[3..] == fields[i + 3..];
    }
  }

  /** `parseNameStatusZ`. */
  method ParseNameStatusZ(data: string) returns (out: seq<string>)
    ensures out == NamePaths(Split(data))
  {
    hide Split, NamePaths;
    var fields := Split(data);
    out := [];
    var i := 0;
    assert From(fields, 0) == fields;
    assert NamePaths([]) == [] by {
      NamesOfNothing();
    }
    while i < |fields|
      invariant 0 <= i
      invariant out + NamePaths(From(fields, i)) == NamePaths(fields)
    {
      NameStep(fields, i);
      var status := fields[i];
      if |status| == 0 {
        i := i + 1;
        continue;
      }
      i := i + 1;
      if i >= |fields| {
        assert out + [] == out == NamePaths(fields);
        break;
      }
      out := out + [fields[i]];
      if status[0] == 'R' || status[0] == 'C' {
        i := i + 1;
        if i < |fields| && |fields[i]| > 0 {
          out := out + [fields[i]];
        }
      }
      i := i + 1;
    }
    assert NamePaths(From(fields, i)) == [] || out == NamePaths(fields);
    assert out + [] == out;
  }

  ghost predicate AllNames(entries: seq<Entry>) {
    forall i :: 0 <= i < |entries| ==> NameEntry(entries[i])
  }

  lemma NameFields(e: Entry, rest: string, printed: string)
    requires NameEntry(e)
    requires printed == e.status + [NUL] + e.path + [NUL] + (if e.other.Some? then e.other.value + [NUL] else []) + rest
    ensures Split(printed) == [e.status, e.path] + (if e.other.Some? then [e.other.value] else []) + Split(rest)
  {
    hide Split;
    var tail := if e.other.Some? then e.other.value + [NUL] + rest else rest;
    assert printed == e.status + [NUL] + (e.path + [NUL] + tail);
    SplitField(e.status, e.path + [NUL] + tail);
    SplitField(e.path, tail);
    if e.other.Some? {
      SplitField(e.other.value, rest);
    }
  }

  lemma NameFieldsRead(e: Entry, fields: seq<string>)
    requires NameEntry(e) && fields != []
    ensures NamePaths([e.status, e.path] + (if e.other.Some? then [e.other.value] else []) + fields) ==
            [e.path] + (if e.other.Some? then [e.other.value] else []) + NamePaths(fields)
  {
    if e.other.Some? {
      assert ([e.status, e.path] + [e.other.value] + fields)[3..] == fields;
    } else {
      assert [e.status, e.path] + [] + fields == [e.status, e.path] + fields;
      assert ([e.status, e.path] + fields)[2..] == fields;
    }
  }

  lemma {:induction false} NamesRoundTrip(entries: seq<Entry>)
    requires AllNames(entries)
    ensures NamePaths(Split(PrintNames(entries))) == EntryPaths(entries)
  {
    if entries == [] {
      assert Split([]) == [[]];
    } else {
      hide Split, NamePaths;
      NamesRoundTrip(entries[1..]);
      NameFields(entries[0], PrintNames(entries[1..]), PrintNames(entries));
      NameFieldsRead(entries[0], Split(PrintNames(entries[1..])));
    }
  }

  // ---------------------------------------------------------------- the union of both

  ghost predicate StrictlyIncreasing(xs: seq<string>) {
    forall i, j :: 0 <= i < j < |xs| ==> StrLe(xs[i], xs[j]) && xs[i] != xs[j]
  }

  /** Adjacent duplicates removed. */
  function Dedupe(xs: seq<string>): seq<string> {
    if |xs| <= 1 then xs
    else
      var n := |xs| - 1;
      Dedupe(xs[..n]) + (if xs[n] == xs[n - 1] then [] else [xs[n]])
  }

  /** `dedupeSorted`. */
  method DedupeSorted(xs: seq<string>) returns (out: seq<string>)
    ensures out == Dedupe(xs)
  {
    out := [];
    var prev := "";
    for i := 0 to |xs|
      invariant out == Dedupe(xs[..i])
      invariant i > 0 ==> prev == xs[i - 1]
    {
      assert xs[..i + 1][..i] == xs[..i];
      var p := xs[i];
      if i > 0 && p == prev {
        continue;
      }
      out := out + [p];
      prev := p;
    }
    assert xs[..|xs|] == xs;
  }

  lemma {:induction false} DedupeOfSorted(xs: seq<string>)
    requires SortedBy(xs, StrLe)
    ensures StrictlyIncreasing(Dedupe(xs))
    ensures forall x :: x in Dedupe(xs) <==> x in xs
  {
    hide StrLe;
    if |xs| > 1 {
      var n := |xs| - 1;
      var init, last := xs[..n], xs[n];
      DedupeOfSorted(init);
      assert xs == init + [last];
      var d := Dedupe(init);
      if last != xs[n - 1] {
        forall i | 0 <= i < |d| ensures StrLe(d[i], last) && d[i] != last {
          assert d[i] in init;
          var k :| 0 <= k < n && init[k] == d[i];
          assert xs[k] == d[i];
          StrLeTotal(xs[n - 1], last);
        }
      } else {
        assert init[n - 1] == last;
      }
    }
  }

  /** A strictly increasing list is determined by its elements. */
  lemma {:induction false} IncreasingIsUnique(xs: seq<string>, ys: seq<string>)
    requires StrictlyIncreasing(xs) && StrictlyIncreasing(ys)
    requires forall x :: x in xs <==> x in ys
    ensures xs == ys
  {
    if xs == [] {
      assert forall i :: 0 <= i < |ys| ==> ys[i] in ys;
    } else {
      assert xs[0] in ys;
      assert ys[0] in xs;
      StrLeTotal(xs[0], ys[0]);
      assert xs[0] == ys[0];
      forall x ensures x in xs[1..] <==> x in ys[1..] {
        assert x in xs <==> x == xs[0] || x in xs[1..];
        assert x in ys <==> x == ys[0] || x in ys[1..];
      }
      IncreasingIsUnique(xs[1..], ys[1..]);
    }
  }

  /** `ChangedFiles`; the two outputs are what git returned, or nothing when it failed. */
  method ChangedFiles(worktree: string, baseline: string, status: Option<string>, diff: Option<string>) returns (r: Result)
    ensures r.Failed? <==> worktree == "" || baseline == "" || status.None? || diff.None?
    ensures r.Paths? ==>
              && StrictlyIncreasing(r.paths)
              && forall p :: p in r.paths <==>
                   p in StatusPaths(Split(status.value)) || p in NamePaths(Split(diff.value))
  {
    if worktree == "" || baseline == "" || status.None? || diff.None? {
      return Failed;
    }
    var fromStatus := ParseStatusZ(status.value);
    var fromDiff := ParseNameStatusZ(diff.value);
    var paths := fromStatus + fromDiff;
    var sorted := Sort(paths, StrLe);
    StrLeIsOrder();
    SortKeeps(paths, StrLe);
    SortSorted(paths, StrLe);
    var out := DedupeSorted(sorted);
    DedupeOfSorted(sorted);
    forall p ensures p in out <==> p in fromStatus || p in fromDiff {
      assert p in sorted <==> p in multiset(sorted);
      assert p in paths <==> p in multiset(paths);
    }
    return Paths(out);
  }

  /** For what git prints: exactly the recorded paths, both of a rename's included, of the uncommitted
      and of the committed changes, each once and in order. */
  lemma ChangedFilesAreTheRecordedPaths(status: seq<Entry>, diff: seq<Entry>, out: seq<string>)
    requires AllStatus(status) && AllNames(diff)
    requires StrictlyIncreasing(out)
    requires forall p :: p in out <==>
               p in StatusPaths(Split(PrintStatus(status))) || p in NamePaths(Split(PrintNames(diff)))
    ensures forall p :: p in out <==>
              exists e :: e in status + diff && (p == e.path || e.other == Some(p))
  {
    hide StatusPaths, NamePaths, Split, PrintStatus, PrintNames, AllStatus, AllNames;
    StatusRoundTrip(status);
    NamesRoundTrip(diff);
    forall p ensures p in out <==> exists e :: e in status + diff && (p == e.path || e.other == Some(p)) {
      EntryPathsAre(status, p);
      EntryPathsAre(diff, p);
    }
  }

  lemma {:induction false} EntryPathsAre(entries: seq<Entry>, p: string)
    ensures p in EntryPaths(entries) <==> exists e :: e in entries && (p == e.path || e.other == Some(p))
  {
    if entries != [] {
      EntryPathsAre(entries[1..], p);
      assert entries == [entries[0]] + entries[1..];
    }
  }
}
