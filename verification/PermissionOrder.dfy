/** `sortPermissionArrays`: every array of a permission value is sorted by the canonical text of
    its already sorted elements. The result is a canonical representative: two values share it
    exactly when they are equal up to the order of array elements at any depth. */
module PermissionOrder {
  import opened Sorting
  import opened CanonicalJson
  import opened Redaction

  // ---------------------------------------------------------------- permutations

  predicate IsPermutation(p: seq<nat>, n: nat) {
    && |p| == n
    && (forall i :: 0 <= i < n ==> p[i] < n)
    && (forall i, j :: 0 <= i < j < n ==> p[i] != p[j])
  }

  /** `t` without its element at `j`. */
  function Without<T>(t: seq<T>, j: nat): seq<T>
    requires j < |t|
  {
    t[..j] + t[j + 1..]
  }

  lemma WithoutRemoves<T>(t: seq<T>, j: nat)
    requires j < |t|
    ensures multiset(Without(t, j)) == multiset(t) - multiset{t[j]}
  {
    assert t == t[..j] + [t[j]] + t[j + 1..];
  }

  /** The positions in `t` of positions in `Without(t, j)`, followed by `j` itself. */
  function Lift(q: seq<nat>, j: nat): (p: seq<nat>)
    ensures |p| == |q| + 1 && p[|q|] == j
    ensures forall i :: 0 <= i < |q| ==> p[i] == if q[i] < j then q[i] else q[i] + 1
  {
    seq(|q|, i requires 0 <= i < |q| => if q[i] < j then q[i] else q[i] + 1) + [j]
  }

  lemma LiftPermutes(q: seq<nat>, j: nat)
    requires IsPermutation(q, |q|) && j <= |q|
    ensures IsPermutation(Lift(q, j), |q| + 1)
  {
  }

  ghost predicate Matches<T(!new)>(s: seq<T>, t: seq<T>, p: seq<nat>) {
    |s| == |t| && IsPermutation(p, |s|) && forall i :: 0 <= i < |s| ==> s[i] == t[p[i]]
  }

  lemma LiftMatches<T(!new)>(s: seq<T>, t: seq<T>, j: nat, q: seq<nat>)
    requires s != [] && |s| == |t| && j < |t| && t[j] == s[|s| - 1]
    requires Matches(s[..|s| - 1], Without(t, j), q)
    ensures Matches(s, t, Lift(q, j))
  {
    LiftPermutes(q, j);
    forall i | 0 <= i < |s| ensures s[i] == t[Lift(q, j)[i]] {
      if i < |s| - 1 {
        assert s[..|s| - 1][i] == Without(t, j)[q[i]];
      }
    }
  }

  lemma {:induction false} MatchingFromMultiset<T(!new)>(s: seq<T>, t: seq<T>) returns (p: seq<nat>)
    requires multiset(s) == multiset(t)
    ensures Matches(s, t, p)
    decreases |s|
  {
    hide IsPermutation;
    assert |multiset(s)| == |s| && |multiset(t)| == |t|;
    if s == [] {
      p := [];
      EmptyPermutation();
    } else {
      var last := |s| - 1;
      assert s == s[..last] + [s[last]];
      assert s[last] in multiset(t);
      var j: nat :| j < |t| && t[j] == s[last];
      WithoutRemoves(t, j);
      var q := MatchingFromMultiset(s[..last], Without(t, j));
      LiftMatches(s, t, j, q);
      p := Lift(q, j);
    }
  }

  lemma EmptyPermutation()
    ensures IsPermutation([], 0)
  {
  }

  /** The inverse of Lift: a matching of the whole sequences gives one of the shorter ones. */
  lemma DropMatches<T(!new)>(s: seq<T>, t: seq<T>, p: seq<nat>) returns (q: seq<nat>)
    requires s != [] && Matches(s, t, p)
    ensures Matches(s[..|s| - 1], Without(t, p[|s| - 1]), q)
  {
    var last := |s| - 1;
    var j := p[last];
    q := seq(last, i requires 0 <= i < last => if p[i] < j then p[i] else p[i] - 1);
    forall i | 0 <= i < last ensures q[i] < last && s[..last][i] == Without(t, j)[q[i]] {
      assert p[i] != j && s[i] == t[p[i]];
    }
  }

  lemma {:induction false} MultisetFromMatching<T(!new)>(s: seq<T>, t: seq<T>, p: seq<nat>)
    requires Matches(s, t, p)
    ensures multiset(s) == multiset(t)
    decreases |s|
  {
    if s != [] {
      var last := |s| - 1;
      var q := DropMatches(s, t, p);
      MultisetFromMatching(s[..last], Without(t, p[last]), q);
      WithoutRemoves(t, p[last]);
      assert s == s[..last] + [s[last]];
    }
  }

  // ---------------------------------------------------------------- the relation and the function

  /** Equal up to permuting the elements of arrays, at any depth. */
  ghost predicate SameUpToOrder(v: Json, w: Json)
    decreases v
  {
    match v
    case Arr(items) =>
      w.Arr? && |items| == |w.items| &&
      exists p: seq<nat> :: IsPermutation(p, |items|) &&
        forall i :: 0 <= i < |items| ==> SameUpToOrder(items[i], w.items[p[i]])
    case Obj(members) =>
      w.Obj? && members.Keys == w.members.Keys &&
      forall k :: k in members ==> SameUpToOrder(members[k], w.members[k])
    case _ => v == w
  }

  /** The order of the sort: elements are compared through their canonical text. */
  ghost function TextLe(): (Json, Json) -> bool {
    (a: Json, b: Json) => StrLe(JSON(a), JSON(b))
  }

  ghost function SortArrays(v: Json): Json {
    match v
    case Arr(items) => Arr(Sort(SortEach(items), TextLe()))
    case Obj(members) => Obj(map k | k in members :: SortArrays(members[k]))
    case _ => v
  }

  ghost function SortEach(items: seq<Json>): (r: seq<Json>)
    ensures |r| == |items| && forall i :: 0 <= i < |items| ==> r[i] == SortArrays(items[i])
  {
    if items == [] then [] else [SortArrays(items[0])] + SortEach(items[1..])
  }

  /** Comparing by canonical text is a total order on values because the text is injective. */
  lemma TextLeIsOrder()
    ensures TotalPreorder(TextLe()) && Antisymmetric(TextLe())
  {
    StrLeIsOrder();
    var le := TextLe();
    forall a, b ensures le(a, b) || le(b, a) {
      assert StrLe(JSON(a), JSON(b)) || StrLe(JSON(b), JSON(a));
    }
    forall a, b, c | le(a, b) && le(b, c) ensures le(a, c) {
      assert StrLe(JSON(a), JSON(b)) && StrLe(JSON(b), JSON(c));
    }
    forall a, b | le(a, b) && le(b, a) ensures a == b {
      assert JSON(a) == JSON(b);
      JsonIsInjective(a, b);
    }
  }

  /** Sorting by text forgets exactly the order. */
  lemma SortForgetsOrder(xs: seq<Json>, ys: seq<Json>)
    ensures Sort(xs, TextLe()) == Sort(ys, TextLe()) <==> multiset(xs) == multiset(ys)
  {
    TextLeIsOrder();
    SortKeeps(xs, TextLe());
    SortKeeps(ys, TextLe());
    SortSorted(xs, TextLe());
    SortSorted(ys, TextLe());
    if multiset(xs) == multiset(ys) {
      SortedIsUnique(Sort(xs, TextLe()), Sort(ys, TextLe()), TextLe());
    }
  }

  /** The sorted value is a canonical form: it is shared by exactly the values that are equal up to
      the order of array elements at any depth. */
  lemma {:induction false} SortedFormIsCanonical(v: Json, w: Json)
    ensures SortArrays(v) == SortArrays(w) <==> SameUpToOrder(v, w)
    decreases v
  {
    hide TextLe, Sort;
    match v
    case Arr(items) =>
      if w.Arr? {
        ArraysShareFormIffMatched(items, w.items);
      }
    case Obj(members) =>
      if w.Obj? {
        forall k | k in members && k in w.members
          ensures SortArrays(members[k]) == SortArrays(w.members[k]) <==> SameUpToOrder(members[k], w.members[k])
        {
          SortedFormIsCanonical(members[k], w.members[k]);
        }
        ObjectsShareForm(members, w.members);
      }
    case _ =>
  }

  lemma ObjectsShareForm(m: map<string, Json>, n: map<string, Json>)
    ensures SortArrays(Obj(m)) == SortArrays(Obj(n)) <==>
            m.Keys == n.Keys && forall k :: k in m ==> SortArrays(m[k]) == SortArrays(n[k])
  {
    var a, b := SortArrays(Obj(m)).members, SortArrays(Obj(n)).members;
    assert a.Keys == m.Keys && b.Keys == n.Keys;
    if a == b {
      forall k | k in m ensures SortArrays(m[k]) == SortArrays(n[k]) {
        assert a[k] == b[k];
      }
    }
  }

  lemma {:induction false} ArraysShareFormIffMatched(items: seq<Json>, others: seq<Json>)
    ensures Sort(SortEach(items), TextLe()) == Sort(SortEach(others), TextLe()) <==>
            SameUpToOrder(Arr(items), Arr(others))
    decreases items
  {
    var xs, ys := SortEach(items), SortEach(others);
    SortForgetsOrder(xs, ys);
    hide TextLe, Sort;
    if multiset(xs) == multiset(ys) {
      var p := MatchingFromMultiset(xs, ys);
      forall i | 0 <= i < |items| ensures SameUpToOrder(items[i], others[p[i]]) {
        assert xs[i] == ys[p[i]];
        SortedFormIsCanonical(items[i], others[p[i]]);
      }
    }
    if SameUpToOrder(Arr(items), Arr(others)) {
      var p: seq<nat> :| IsPermutation(p, |items|) &&
        forall i :: 0 <= i < |items| ==> SameUpToOrder(items[i], others[p[i]]);
      forall i | 0 <= i < |items| ensures xs[i] == ys[p[i]] {
        SortedFormIsCanonical(items[i], others[p[i]]);
      }
      MultisetFromMatching(xs, ys, p);
    }
  }

  /** What is hashed: the text of the sorted value agrees exactly for values equal up to order. */
  lemma HashedTextIgnoresOrderOnly(v: Json, w: Json)
    ensures JSON(SortArrays(v)) == JSON(SortArrays(w)) <==> SameUpToOrder(v, w)
  {
    SortedFormIsCanonical(v, w);
    if JSON(SortArrays(v)) == JSON(SortArrays(w)) {
      JsonIsInjective(SortArrays(v), SortArrays(w));
    }
  }

  lemma {:induction false} FixedElements(items: seq<Json>)
    requires forall x :: x in items ==> SortArrays(x) == x
    ensures SortEach(items) == items
  {
    hide SortArrays;
    var each := SortEach(items);
    assert forall i :: 0 <= i < |items| ==> items[i] in items;
    assert forall i :: 0 <= i < |items| ==> each[i] == items[i];
  }

  lemma SortedListIsFixed(items: seq<Json>)
    requires forall x :: x in items ==> SortArrays(x) == x
    ensures SortArrays(Arr(Sort(items, TextLe()))) == Arr(Sort(items, TextLe()))
  {
    var sorted := Sort(items, TextLe());
    SortKeeps(items, TextLe());
    SortForgetsOrder(sorted, items);
    hide Sort, TextLe;
    forall x | x in sorted ensures SortArrays(x) == x {
      assert x in multiset(sorted);
    }
    FixedElements(sorted);
  }

  /** Sorting a sorted value changes nothing. */
  lemma {:induction false} SortingIsIdempotent(v: Json)
    ensures SortArrays(SortArrays(v)) == SortArrays(v)
    decreases v
  {
    hide Sort, TextLe;
    match v
    case Arr(items) =>
      forall i | 0 <= i < |items| ensures SortArrays(SortArrays(items[i])) == SortArrays(items[i]) {
        SortingIsIdempotent(items[i]);
      }
      SortedListIsFixed(SortEach(items));
    case Obj(members) =>
      forall k | k in members ensures SortArrays(SortArrays(members[k])) == SortArrays(members[k]) {
        SortingIsIdempotent(members[k]);
      }
      assert SortArrays(SortArrays(v)).members == SortArrays(v).members;
    case _ =>
  }

  // ---------------------------------------------------------------- the whole pipeline

  ghost function CanonicalizePermission(v: Json, sensitive: string -> bool, rewrite: string -> string): Json {
    SortArrays(Normalize(Redact(v, sensitive), rewrite))
  }

  lemma {:induction false} RedactKeepsSameness(v: Json, w: Json, sensitive: string -> bool)
    requires SameUpToOrder(v, w)
    ensures SameUpToOrder(Redact(v, sensitive), Redact(w, sensitive))
    decreases v
  {
    match v
    case Arr(items) =>
      var p: seq<nat> :| IsPermutation(p, |items|) &&
        forall i :: 0 <= i < |items| ==> SameUpToOrder(items[i], w.items[p[i]]);
      forall i | 0 <= i < |items|
        ensures SameUpToOrder(Redact(items[i], sensitive), Redact(w.items[p[i]], sensitive))
      {
        RedactKeepsSameness(items[i], w.items[p[i]], sensitive);
      }
      var a, b := Redact(v, sensitive), Redact(w, sensitive);
      assert forall i :: 0 <= i < |a.items| ==> SameUpToOrder(a.items[i], b.items[p[i]]);
    case Obj(members) =>
      forall k | k in members
        ensures SameUpToOrder(Redact(members[k], sensitive), Redact(w.members[k], sensitive))
      {
        RedactKeepsSameness(members[k], w.members[k], sensitive);
      }
    case _ =>
  }

  lemma {:induction false} NormalizeKeepsSameness(v: Json, w: Json, rewrite: string -> string)
    requires SameUpToOrder(v, w)
    ensures SameUpToOrder(Normalize(v, rewrite), Normalize(w, rewrite))
    decreases v
  {
    match v
    case Arr(items) =>
      var p: seq<nat> :| IsPermutation(p, |items|) &&
        forall i :: 0 <= i < |items| ==> SameUpToOrder(items[i], w.items[p[i]]);
      forall i | 0 <= i < |items|
        ensures SameUpToOrder(Normalize(items[i], rewrite), Normalize(w.items[p[i]], rewrite))
      {
        NormalizeKeepsSameness(items[i], w.items[p[i]], rewrite);
      }
      var a, b := Normalize(v, rewrite), Normalize(w, rewrite);
      assert forall i :: 0 <= i < |a.items| ==> SameUpToOrder(a.items[i], b.items[p[i]]);
    case Obj(members) =>
      forall k | k in members
        ensures SameUpToOrder(Normalize(members[k], rewrite), Normalize(w.members[k], rewrite))
      {
        NormalizeKeepsSameness(members[k], w.members[k], rewrite);
      }
    case _ =>
  }

  /** The hashed permission subtree does not depend on the order in which any array was reported,
      through redaction, path normalisation and sorting. */
  lemma FingerprintIgnoresOrder(v: Json, w: Json, sensitive: string -> bool, rewrite: string -> string)
    requires SameUpToOrder(v, w)
    ensures CanonicalizePermission(v, sensitive, rewrite) == CanonicalizePermission(w, sensitive, rewrite)
  {
    RedactKeepsSameness(v, w, sensitive);
    NormalizeKeepsSameness(Redact(v, sensitive), Redact(w, sensitive), rewrite);
    SortedFormIsCanonical(Normalize(Redact(v, sensitive), rewrite), Normalize(Redact(w, sensitive), rewrite));
  }

  /** And it depends on everything else that redaction and path normalisation leave: two subtrees hash the
      same text exactly when what is left of them is equal up to the order of arrays. */
  lemma FingerprintsAgreeIff(v: Json, w: Json, sensitive: string -> bool, rewrite: string -> string)
    ensures JSON(CanonicalizePermission(v, sensitive, rewrite)) == JSON(CanonicalizePermission(w, sensitive, rewrite)) <==>
            SameUpToOrder(Normalize(Redact(v, sensitive), rewrite), Normalize(Redact(w, sensitive), rewrite))
  {
    HashedTextIgnoresOrderOnly(Normalize(Redact(v, sensitive), rewrite), Normalize(Redact(w, sensitive), rewrite));
  }
}
