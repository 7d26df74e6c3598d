/** The two independently written `**` glob matchers, on segment lists. What one segment pattern
    matches (`path.Match`) is an oracle shared by both; it may also report a bad pattern. */
module GlobMatch {
  type Segment = string
  datatype Verdict = Matched | Unmatched | BadPattern
  type Oracle = (Segment, Segment) -> Verdict

  const ANY: Segment := "**"

  // ---------------------------------------------------------------- what a glob denotes

  /** The piece of the path one pattern segment takes: `**` any run, every other exactly one
      matching segment. */
  predicate Takes(oracle: Oracle, glob: Segment, piece: seq<Segment>) {
    glob == ANY || (|piece| == 1 && oracle(glob, piece[0]).Matched?)
  }

  function Concatenated(pieces: seq<seq<Segment>>): seq<Segment> {
    if pieces == [] then [] else pieces[0] + Concatenated(pieces[1..])
  }

  predicate Splits(oracle: Oracle, glob: seq<Segment>, path: seq<Segment>, pieces: seq<seq<Segment>>) {
    && |pieces| == |glob|
    && Concatenated(pieces) == path
    && forall i :: 0 <= i < |glob| ==> Takes(oracle, glob[i], pieces[i])
  }

  /** The path splits into consecutive pieces, one for each pattern segment. */
  ghost predicate Denotes(oracle: Oracle, glob: seq<Segment>, path: seq<Segment>) {
    exists pieces :: Splits(oracle, glob, path, pieces)
  }

  lemma DenotesNil(oracle: Oracle, path: seq<Segment>)
    ensures Denotes(oracle, [], path) <==> path == []
  {
    if path == [] {
      assert Splits(oracle, [], path, []);
    }
  }

  lemma ConsSplits(oracle: Oracle, glob: seq<Segment>, piece: seq<Segment>, rest: seq<Segment>)
    requires glob != [] && Takes(oracle, glob[0], piece) && Denotes(oracle, glob[1..], rest)
    ensures Denotes(oracle, glob, piece + rest)
  {
    var pieces :| Splits(oracle, glob[1..], rest, pieces);
    var all := [piece] + pieces;
    assert all[1..] == pieces;
    assert Splits(oracle, glob, piece + rest, all);
  }

  lemma UnconsSplits(oracle: Oracle, glob: seq<Segment>, path: seq<Segment>) returns (n: nat)
    requires glob != [] && Denotes(oracle, glob, path)
    ensures n <= |path| && Takes(oracle, glob[0], path[..n]) && Denotes(oracle, glob[1..], path[n..])
  {
    var pieces :| Splits(oracle, glob, path, pieces);
    n := |pieces[0]|;
    assert path == pieces[0] + Concatenated(pieces[1..]);
    assert path[..n] == pieces[0] && path[n..] == Concatenated(pieces[1..]);
    assert Splits(oracle, glob[1..], path[n..], pieces[1..]);
  }

  lemma DenotesOne(oracle: Oracle, glob: seq<Segment>, path: seq<Segment>)
    requires glob != [] && glob[0] != "**"
    ensures Denotes(oracle, glob, path) <==>
            path != [] && oracle(glob[0], path[0]).Matched? && Denotes(oracle, glob[1..], path[1..])
  {
    if Denotes(oracle, glob, path) {
      var n := UnconsSplits(oracle, glob, path);
      assert n == 1;
    }
    if path != [] && oracle(glob[0], path[0]).Matched? && Denotes(oracle, glob[1..], path[1..]) {
      assert path == path[..1] + path[1..];
      ConsSplits(oracle, glob, path[..1], path[1..]);
    }
  }

  lemma DenotesAny(oracle: Oracle, glob: seq<Segment>, path: seq<Segment>)
    requires glob != [] && glob[0] == "**"
    ensures Denotes(oracle, glob, path) <==> exists n :: 0 <= n <= |path| && Denotes(oracle, glob[1..], path[n..])
  {
    if Denotes(oracle, glob, path) {
      var n := UnconsSplits(oracle, glob, path);
    }
    if n :| 0 <= n <= |path| && Denotes(oracle, glob[1..], path[n..]) {
      assert path == path[..n] + path[n..];
      ConsSplits(oracle, glob, path[..n], path[n..]);
    }
  }

  lemma AnyAloneTakesAll(oracle: Oracle, path: seq<Segment>)
    ensures Denotes(oracle, [ANY], path)
  {
    DenotesAny(oracle, [ANY], path);
    DenotesNil(oracle, path[|path|..]);
    assert [ANY][1..] == [] && path[|path|..] == [];
    assert Denotes(oracle, [ANY][1..], path[|path|..]);
  }

  /** A second `**` in a row adds nothing. */
  lemma AnyTwiceIsAny(oracle: Oracle, glob: seq<Segment>, path: seq<Segment>)
    requires |glob| >= 2 && glob[0] == ANY && glob[1] == ANY
    ensures Denotes(oracle, glob, path) <==> Denotes(oracle, glob[1..], path)
  {
    DenotesAny(oracle, glob, path);
    if Denotes(oracle, glob, path) {
      var n :| 0 <= n <= |path| && Denotes(oracle, glob[1..], path[n..]);
      DenotesAny(oracle, glob[1..], path[n..]);
      var m :| 0 <= m <= |path[n..]| && Denotes(oracle, glob[1..][1..], path[n..][m..]);
      assert path[n..][m..] == path[n + m..];
      DenotesAny(oracle, glob[1..], path);
    }
    if Denotes(oracle, glob[1..], path) {
      assert path[0..] == path;
    }
  }

  // ---------------------------------------------------------------- the evaluation matcher

  /** `matchSegments` of the diff validators. */
  method MatchForEvaluation(oracle: Oracle, glob0: seq<Segment>, path0: seq<Segment>) returns (matched: bool)
    ensures matched <==> Denotes(oracle, glob0, path0)
    decreases |glob0|
  {
    var glob, path := glob0, path0;
    hide Denotes;
    while |glob| > 0
      invariant |glob| <= |glob0|
      invariant Denotes(oracle, glob, path) <==> Denotes(oracle, glob0, path0)
      decreases |glob|
    {
      if glob[0] == ANY {
        if |glob| == 1 {
          AnyAloneTakesAll(oracle, path);
          assert glob == [ANY];
          return true;
        }
        DenotesAny(oracle, glob, path);
        for i := 0 to |path| + 1
          invariant forall n :: 0 <= n < i ==> !Denotes(oracle, glob[1..], path[n..])
        {
          var rest := MatchForEvaluation(oracle, glob[1..], path[i..]);
          if rest {
            return true;
          }
        }
        return false;
      }
      DenotesOne(oracle, glob, path);
      if |path| == 0 {
        return false;
      }
      if oracle(glob[0], path[0]) != Matched {
        return false;
      }
      glob, path := glob[1..], path[1..];
    }
    assert glob == [];
    DenotesNil(oracle, path);
    matched := |path| == 0;
  }

  // ---------------------------------------------------------------- the runner's matcher

  /** `matchSegments` of allow_changes, which skips runs of `**` first. */
  method MatchForRunner(oracle: Oracle, pat0: seq<Segment>, seg0: seq<Segment>) returns (matched: bool)
    ensures matched <==> Denotes(oracle, pat0, seg0)
    decreases |pat0|
  {
    var pat, seg := pat0, seg0;
    hide Denotes;
    while |pat| > 0
      invariant |pat| <= |pat0|
      invariant Denotes(oracle, pat, seg) <==> Denotes(oracle, pat0, seg0)
      decreases |pat|
    {
      if pat[0] == ANY {
        ghost var from := pat;
        var skipped := false;
        while |pat| > 0 && pat[0] == ANY
          invariant |pat| <= |from|
          invariant !skipped ==> pat == from
          invariant skipped ==> |pat| < |from| && (Denotes(oracle, [ANY] + pat, seg) <==> Denotes(oracle, from, seg))
          decreases |pat|
        {
          assert pat == [ANY] + pat[1..];
          if skipped {
            assert ([ANY] + pat)[1..] == pat;
            AnyTwiceIsAny(oracle, [ANY] + pat, seg);
          }
          pat := pat[1..];
          skipped := true;
        }
        if |pat| == 0 {
          AnyAloneTakesAll(oracle, seg);
          assert [ANY] + pat == [ANY];
          return true;
        }
        assert ([ANY] + pat)[1..] == pat;
        DenotesAny(oracle, [ANY] + pat, seg);
        for i := 0 to |seg| + 1
          invariant forall n :: 0 <= n < i ==> !Denotes(oracle, pat, seg[n..])
        {
          var rest := MatchForRunner(oracle, pat, seg[i..]);
          if rest {
            return true;
          }
        }
        return false;
      }
      DenotesOne(oracle, pat, seg);
      if |seg| == 0 {
        return false;
      }
      if oracle(pat[0], seg[0]) != Matched {
        return false;
      }
      pat, seg := pat[1..], seg[1..];
    }
    assert pat == [];
    DenotesNil(oracle, seg);
    matched := |seg| == 0;
  }

  /** Both matchers give the same answer for every pattern and every path. */
  method MatchersAgree(oracle: Oracle, glob: seq<Segment>, path: seq<Segment>) returns (a: bool, b: bool)
    ensures a == b
    ensures a <==> Denotes(oracle, glob, path)
  {
    a := MatchForEvaluation(oracle, glob, path);
    b := MatchForRunner(oracle, glob, path);
  }

  // ---------------------------------------------------------------- allow_changes

  ghost predicate Allowed(oracle: Oracle, allow: seq<seq<Segment>>, path: seq<Segment>) {
    exists i :: 0 <= i < |allow| && Denotes(oracle, allow[i], path)
  }

  /** The changed paths no glob allows, in their order and as often as they come. */
  ghost function Unallowed(oracle: Oracle, allow: seq<seq<Segment>>, changed: seq<seq<Segment>>): seq<seq<Segment>> {
    if changed == [] then []
    else
      var n := |changed| - 1;
      Unallowed(oracle, allow, changed[..n]) + (if Allowed(oracle, allow, changed[n]) then [] else [changed[n]])
  }

  /** `unexpectedFiles`. */
  method UnexpectedFiles(oracle: Oracle, allow: seq<seq<Segment>>, changed: seq<seq<Segment>>)
      returns (unexpected: seq<seq<Segment>>)
    ensures unexpected == Unallowed(oracle, allow, changed)
    ensures forall p :: p in unexpected <==> p in changed && !Allowed(oracle, allow, p)
  {
    unexpected := [];
    hide Denotes;
    for k := 0 to |changed|
      invariant unexpected == Unallowed(oracle, allow, changed[..k])
      invariant forall p :: p in unexpected <==> p in changed[..k] && !Allowed(oracle, allow, p)
    {
      var found := false;
      for i := 0 to |allow|
        invariant found <==> exists j :: 0 <= j < i && Denotes(oracle, allow[j], changed[k])
      {
        var m := MatchForRunner(oracle, allow[i], changed[k]);
        found := found || m;
      }
      assert changed[..k + 1] == changed[..k] + [changed[k]] && changed[..k + 1][..k] == changed[..k];
      if !found {
        unexpected := unexpected + [changed[k]];
      }
    }
    assert changed[..|changed|] == changed;
  }
}
