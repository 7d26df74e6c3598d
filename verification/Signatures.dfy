/** Counting distinct ways of working: `distinctSignatures` over the process metrics of a task's
    runs, where a run that recorded less is not a second behaviour. */
module Signatures {

  /** The process metrics, in the order in which a signature is rendered. */
  const PROCESS_METRICS: seq<string> := ["tool_calls_total", "subagent_calls", "retries", "compactions"]

  predicate IsMetric(name: string) {
    name in PROCESS_METRICS
  }

  /** What one run recorded; only process metrics are ever read. */
  type Signature = s: map<string, int> | forall k :: k in s ==> IsMetric(k) witness map[]

  // ---------------------------------------------------------------- signatureKey

  function Digits(n: nat): string {
    if n < 10 then [('0' as int + n) as char] else Digits(n / 10) + [('0' as int + n % 10) as char]
  }

  /** `%d`. */
  function Decimal(n: int): string {
    if n < 0 then "-" + Digits(-n) else Digits(n)
  }

  function Part(s: Signature, name: string): string
    requires name in s
  {
    name + "=" + Decimal(s[name])
  }

  /** The parts of the metrics the run recorded, in the fixed order. */
  function Parts(s: Signature, names: seq<string>): seq<string> {
    if names == [] then []
    else if names[0] in s then [Part(s, names[0])] + Parts(s, names[1..])
    else Parts(s, names[1..])
  }

  /** `strings.Join(parts, ",")`. */
  function JoinComma(parts: seq<string>): string {
    if parts == [] then "" else if |parts| == 1 then parts[0] else parts[0] + "," + JoinComma(parts[1..])
  }

  function Key(s: Signature): string {
    JoinComma(Parts(s, PROCESS_METRICS))
  }

  predicate DigitChar(c: char) { '0' <= c <= '9' }

  lemma {:induction false} DigitsShape(n: nat)
    ensures Digits(n) != [] && forall i :: 0 <= i < |Digits(n)| ==> DigitChar(Digits(n)[i])
  {
    if n >= 10 {
      DigitsShape(n / 10);
    }
  }

  lemma {:induction false} DigitsInjective(m: nat, n: nat)
    requires Digits(m) == Digits(n)
    ensures m == n
  {
    if m >= 10 {
      DigitsShape(m / 10);
    }
    if n >= 10 {
      DigitsShape(n / 10);
    }
    var a, b := Digits(m), Digits(n);
    assert a[|a| - 1] == b[|b| - 1];
    if m >= 10 && n >= 10 {
      assert a[..|a| - 1] == Digits(m / 10) && b[..|b| - 1] == Digits(n / 10);
      DigitsInjective(m / 10, n / 10);
    }
  }

  lemma DecimalShape(n: int)
    ensures Decimal(n) != [] && forall i :: 0 <= i < |Decimal(n)| ==> Decimal(n)[i] == '-' || DigitChar(Decimal(n)[i])
    ensures n < 0 <==> Decimal(n)[0] == '-'
  {
    DigitsShape(if n < 0 then -n else n);
  }

  lemma DecimalInjective(m: int, n: int)
    requires Decimal(m) == Decimal(n)
    ensures m == n
  {
    DecimalShape(m);
    DecimalShape(n);
    if m < 0 {
      assert Decimal(m)[1..] == Digits(-m) && Decimal(n)[1..] == Digits(-n);
      DigitsInjective(-m, -n);
    } else {
      DigitsInjective(m, n);
    }
  }

  predicate CommaFree(text: string) {
    forall i :: 0 <= i < |text| ==> text[i] != ','
  }

  predicate EqualsFree(text: string) {
    forall i :: 0 <= i < |text| ==> text[i] != '='
  }

  /** The first occurrence of a separator splits a text in one way. */
  lemma {:induction false} SplitOnce(a: string, b: string, c: char, r: string, u: string)
    requires forall i :: 0 <= i < |a| ==> a[i] != c
    requires forall i :: 0 <= i < |b| ==> b[i] != c
    requires a + [c] + r == b + [c] + u
    ensures a == b && r == u
  {
    var text := a + [c] + r;
    assert text[0] == if a == [] then c else a[0];
    assert text[0] == if b == [] then c else b[0];
    if a == [] && b == [] {
      assert r == text[1..] == u;
    } else if a != [] && b != [] {
      assert text[0] == a[0] == b[0];
      assert text[1..] == a[1..] + [c] + r == b[1..] + [c] + u;
      SplitOnce(a[1..], b[1..], c, r, u);
      assert a == [a[0]] + a[1..] && b == [b[0]] + b[1..];
    }
  }

  /** Joining non-empty comma-free parts can be undone. */
  lemma {:induction false} JoinInjective(a: seq<string>, b: seq<string>)
    requires forall p :: p in a ==> CommaFree(p) && p != []
    requires forall p :: p in b ==> CommaFree(p) && p != []
    requires JoinComma(a) == JoinComma(b)
    ensures a == b
    decreases |a|
  {
    JoinShape(a);
    JoinShape(b);
    hide JoinComma;
    if |a| > 1 && |b| > 1 {
      assert a[0] in a && b[0] in b;
      SplitOnce(a[0], b[0], ',', JoinComma(a[1..]), JoinComma(b[1..]));
      JoinInjective(a[1..], b[1..]);
      assert a == [a[0]] + a[1..] && b == [b[0]] + b[1..];
    } else if |a| == 1 && |b| == 1 {
      assert a == [a[0]] && b == [b[0]];
    }
  }

  lemma JoinShape(a: seq<string>)
    requires forall p :: p in a ==> CommaFree(p) && p != []
    ensures |a| > 1 ==> JoinComma(a) == a[0] + "," + JoinComma(a[1..])
    ensures |a| == 1 ==> JoinComma(a) == a[0]
    ensures a == [] <==> JoinComma(a) == []
    ensures CommaFree(JoinComma(a)) <==> |a| <= 1
  {
    if a != [] {
      assert a[0] in a;
    }
    if |a| > 1 {
      assert JoinComma(a)[|a[0]|] == ',';
    }
  }

  lemma PartShape(s: Signature, name: string)
    requires name in s && CommaFree(name)
    ensures Part(s, name) != [] && CommaFree(Part(s, name))
  {
    DecimalShape(s[name]);
    hide Decimal;
  }

  lemma {:induction false} PartsShape(s: Signature, names: seq<string>)
    requires forall n :: n in names ==> CommaFree(n)
    ensures forall p :: p in Parts(s, names) ==> p != [] && CommaFree(p)
  {
    hide Part, CommaFree;
    if names != [] {
      PartsShape(s, names[1..]);
      if names[0] in s {
        PartShape(s, names[0]);
      }
    }
  }

  lemma PartInjective(s: Signature, t: Signature, a: string, b: string)
    requires a in s && b in t && EqualsFree(a) && EqualsFree(b)
    requires Part(s, a) == Part(t, b)
    ensures a == b && s[a] == t[b]
  {
    hide Decimal;
    SplitOnce(a, b, '=', Decimal(s[a]), Decimal(t[b]));
    DecimalInjective(s[a], t[b]);
  }

  predicate DistinctNames(names: seq<string>) {
    forall i, j :: 0 <= i < j < |names| ==> names[i] != names[j]
  }

  lemma {:induction false} PartsFrom(s: Signature, names: seq<string>, p: string) returns (name: string)
    requires p in Parts(s, names)
    ensures name in names && name in s && p == Part(s, name)
  {
    hide Part;
    if names[0] in s && p == Part(s, names[0]) {
      name := names[0];
    } else {
      name := PartsFrom(s, names[1..], p);
    }
  }

  lemma MissingPartDiffers(s: Signature, t: Signature, names: seq<string>)
    requires names != [] && DistinctNames(names) && forall n :: n in names ==> EqualsFree(n)
    requires names[0] in s && names[0] !in t
    ensures Parts(s, names) != Parts(t, names)
  {
    hide Part;
    if Parts(s, names) == Parts(t, names) {
      var p := Part(s, names[0]);
      assert p == Parts(s, names)[0] && p in Parts(t, names[1..]);
      var n := PartsFrom(t, names[1..], p);
      PartInjective(s, t, names[0], n);
      assert false;
    }
  }

  ghost predicate AgreeOn(s: Signature, t: Signature, names: seq<string>) {
    forall n :: n in names ==> (n in s <==> n in t) && (n in s ==> s[n] == t[n])
  }

  lemma {:induction false} PartsInjective(s: Signature, t: Signature, names: seq<string>)
    requires forall n :: n in names ==> EqualsFree(n)
    requires DistinctNames(names) && Parts(s, names) == Parts(t, names)
    ensures AgreeOn(s, t, names)
  {
    if names != [] {
      var first := names[0];
      if first in s && first !in t {
        MissingPartDiffers(s, t, names);
      } else if first !in s && first in t {
        MissingPartDiffers(t, s, names);
      }
      hide EqualsFree, Part;
      if first in s {
        assert Parts(s, names)[0] == Part(s, first) && Parts(t, names)[0] == Part(t, first);
        PartInjective(s, t, first, first);
        assert Parts(s, names)[1..] == Parts(s, names[1..]);
        assert Parts(t, names)[1..] == Parts(t, names[1..]);
      }
      PartsInjective(s, t, names[1..]);
      assert names == [first] + names[1..];
    }
  }

  lemma MetricNamesAreClean()
    ensures DistinctNames(PROCESS_METRICS)
    ensures forall n :: n in PROCESS_METRICS ==> CommaFree(n) && EqualsFree(n)
  {
  }

  /** The rendered key identifies the signature, so `uniq` merges equal signatures only. */
  lemma KeyIsInjective(s: Signature, t: Signature)
    requires Key(s) == Key(t)
    ensures s == t
  {
    MetricNamesAreClean();
    hide Parts, JoinComma, CommaFree, EqualsFree, DistinctNames;
    PartsShape(s, PROCESS_METRICS);
    PartsShape(t, PROCESS_METRICS);
    JoinInjective(Parts(s, PROCESS_METRICS), Parts(t, PROCESS_METRICS));
    PartsInjective(s, t, PROCESS_METRICS);
    forall k ensures (k in s <==> k in t) && (k in s ==> s[k] == t[k]) {
      if k in s || k in t {
        assert IsMetric(k);
      }
    }
  }

  // ---------------------------------------------------------------- maximal elements

  /** `isRestriction`: everything s records, t records with the same value. */
  predicate Restriction(s: Signature, t: Signature) {
    forall k :: k in s ==> k in t && t[k] == s[k]
  }

  predicate StrictRestriction(s: Signature, t: Signature) {
    Restriction(s, t) && !Restriction(t, s)
  }

  /** The signatures that no other one in the set extends. */
  ghost function Maximal(all: set<Signature>): set<Signature> {
    set s | s in all && forall t :: t in all ==> !StrictRestriction(s, t)
  }

  function Elements(sigs: seq<Signature>): set<Signature> {
    set s | s in sigs
  }

  /** Restriction both ways is equality, so "strict" means "different". */
  lemma RestrictionAntisymmetric(s: Signature, t: Signature)
    requires Restriction(s, t) && Restriction(t, s)
    ensures s == t
  {
    assert s.Keys == t.Keys;
  }

  method IsRestriction(s: Signature, t: Signature) returns (yes: bool)
    ensures yes <==> Restriction(s, t)
  {
    var names := s.Keys;
    while names != {}
      invariant names <= s.Keys
      invariant forall k :: k in s && k !in names ==> k in t && t[k] == s[k]
      decreases names
    {
      var name :| name in names;
      if name !in t || t[name] != s[name] {
        return false;
      }
      names := names - {name};
    }
    yes := true;
  }

  ghost predicate InOrder(keys: set<string>, order: seq<string>) {
    && (forall key :: key in order <==> key in keys)
    && (forall i, j :: 0 <= i < j < |order| ==> order[i] != order[j])
  }

  ghost predicate ByKey(uniq: map<string, Signature>, sigs: seq<Signature>) {
    && (forall key :: key in uniq ==> Key(uniq[key]) == key && uniq[key] in sigs)
    && (forall s :: s in sigs ==> Key(s) in uniq && uniq[Key(s)] == s)
  }

  /** The keys met so far, each with the signature it renders. */
  ghost predicate Indexed(uniq: map<string, Signature>, order: seq<string>, sigs: seq<Signature>) {
    InOrder(uniq.Keys, order) && ByKey(uniq, sigs)
  }

  lemma OrderOne(keys: set<string>, order: seq<string>, key: string)
    requires InOrder(keys, order)
    ensures InOrder(keys + {key}, if key in keys then order else order + [key])
  {
    if key in keys {
      assert keys + {key} == keys;
    }
  }

  lemma ByKeyOne(uniq: map<string, Signature>, sigs: seq<Signature>, s: Signature)
    requires ByKey(uniq, sigs)
    ensures ByKey(uniq[Key(s) := s], sigs + [s])
  {
    if Key(s) in uniq {
      KeyIsInjective(uniq[Key(s)], s);
    }
    hide Key, IsMetric;
    var longer := uniq[Key(s) := s];
    forall t | t in sigs + [s] ensures Key(t) in longer && longer[Key(t)] == t {
      assert t in sigs || t == s;
    }
    forall k | k in longer ensures Key(longer[k]) == k && longer[k] in sigs + [s] {
      assert k == Key(s) || (k in uniq && longer[k] == uniq[k]);
    }
  }

  lemma IndexOne(uniq: map<string, Signature>, order: seq<string>, sigs: seq<Signature>, s: Signature)
    requires Indexed(uniq, order, sigs)
    ensures Indexed(uniq[Key(s) := s], if Key(s) in uniq then order else order + [Key(s)], sigs + [s])
  {
    hide Key, InOrder, ByKey, IsMetric;
    OrderOne(uniq.Keys, order, Key(s));
    ByKeyOne(uniq, sigs, s);
    assert uniq[Key(s) := s].Keys == uniq.Keys + {Key(s)};
  }

  lemma IndexNone()
    ensures Indexed(map[], [], [])
  {
  }

  /** The first loop: the signatures by key, and the keys in first-appearance order. */
  method Index(sigs: seq<Signature>) returns (uniq: map<string, Signature>, order: seq<string>)
    ensures Indexed(uniq, order, sigs)
  {
    hide *;
    uniq, order := map[], [];
    IndexNone();
    for i := 0 to |sigs|
      invariant Indexed(uniq, order, sigs[..i])
    {
      var key := Key(sigs[i]);
      IndexOne(uniq, order, sigs[..i], sigs[i]);
      assert sigs[..i + 1] == sigs[..i] + [sigs[i]];
      if key !in uniq {
        order := order + [key];
      }
      uniq := uniq[key := sigs[i]];
    }
    assert sigs[..|sigs|] == sigs;
  }

  /** The inner loop: some other recorded signature strictly extends this one. */
  method IsRedundant(uniq: map<string, Signature>, order: seq<string>, key: string) returns (redundant: bool)
    requires key in uniq && forall k :: k in order ==> k in uniq
    ensures redundant <==> exists other :: other in order && other != key && StrictRestriction(uniq[key], uniq[other])
  {
    hide Restriction, IsMetric;
    var s := uniq[key];
    for j := 0 to |order|
      invariant forall i :: 0 <= i < j && order[i] != key ==> !StrictRestriction(s, uniq[order[i]])
    {
      if order[j] == key {
        continue;
      }
      var below := IsRestriction(s, uniq[order[j]]);
      var above := IsRestriction(uniq[order[j]], s);
      if below && !above {
        return true;
      }
    }
    redundant := false;
  }

  /** The maximal signatures among those whose keys come first in the order. */
  ghost function CountedBy(keys: seq<string>, sigs: seq<Signature>): set<Signature> {
    set s | s in Maximal(Elements(sigs)) && Key(s) in keys
  }

  lemma CountOne(uniq: map<string, Signature>, order: seq<string>, sigs: seq<Signature>, i: nat)
    requires Indexed(uniq, order, sigs) && i < |order|
    ensures var s := uniq[order[i]];
            CountedBy(order[..i + 1], sigs) ==
            CountedBy(order[..i], sigs) + (if s in Maximal(Elements(sigs)) then {s} else {})
    ensures uniq[order[i]] !in CountedBy(order[..i], sigs)
  {
    hide Maximal, Key, Elements, Indexed;
    EntryOf(uniq, order, sigs, i);
    var s := uniq[order[i]];
    assert order[..i + 1] == order[..i] + [order[i]];
    forall t ensures t in CountedBy(order[..i + 1], sigs) <==>
                     t in CountedBy(order[..i], sigs) || (t == s && s in Maximal(Elements(sigs)))
    {
      MaximalAreInputs(sigs, t);
      if t in sigs {
        KeyOfInput(uniq, order, sigs, t);
      }
    }
  }

  lemma EntryOf(uniq: map<string, Signature>, order: seq<string>, sigs: seq<Signature>, i: nat)
    requires Indexed(uniq, order, sigs) && i < |order|
    ensures order[i] in uniq && Key(uniq[order[i]]) == order[i] && uniq[order[i]] in sigs && order[i] !in order[..i]
  {
    hide Key;
    assert order[i] in order;
  }

  lemma KeyOfInput(uniq: map<string, Signature>, order: seq<string>, sigs: seq<Signature>, t: Signature)
    requires Indexed(uniq, order, sigs) && t in sigs
    ensures Key(t) in uniq && uniq[Key(t)] == t
  {
    hide Key;
  }

  lemma MaximalAreInputs(sigs: seq<Signature>, t: Signature)
    ensures t in Maximal(Elements(sigs)) ==> t in sigs
  {
  }

  lemma AllCounted(uniq: map<string, Signature>, order: seq<string>, sigs: seq<Signature>)
    requires Indexed(uniq, order, sigs)
    ensures CountedBy(order[..0], sigs) == {} && CountedBy(order[..|order|], sigs) == Maximal(Elements(sigs))
  {
    hide Maximal, Key;
    assert order[..|order|] == order;
    forall t ensures t in CountedBy(order, sigs) <==> t in Maximal(Elements(sigs)) {
      MaximalAreInputs(sigs, t);
    }
  }

  /** `distinctSignatures` counts the maximal elements of the set of its inputs. */
  method DistinctSignatures(sigs: seq<Signature>) returns (kept: nat)
    ensures kept == |Maximal(Elements(sigs))|
  {
    var uniq, order := Index(sigs);
    kept := 0;
    AllCounted(uniq, order, sigs);
    for i := 0 to |order|
      invariant kept == |CountedBy(order[..i], sigs)|
    {
      CountOne(uniq, order, sigs, i);
      RedundantMeansNotMaximal(uniq, order, sigs, order[i]);
      var redundant := IsRedundant(uniq, order, order[i]);
      hide Maximal, CountedBy, Restriction, Key;
      if !redundant {
        kept := kept + 1;
      }
    }
  }

  lemma RedundantMeansNotMaximal(uniq: map<string, Signature>, order: seq<string>, sigs: seq<Signature>, key: string)
    requires Indexed(uniq, order, sigs) && key in uniq
    ensures (exists other :: other in order && other != key && StrictRestriction(uniq[key], uniq[other])) <==>
            uniq[key] !in Maximal(Elements(sigs))
  {
    var s := uniq[key];
    hide Key, Restriction, IsMetric;
    if s !in Maximal(Elements(sigs)) {
      var t :| t in sigs && StrictRestriction(s, t);
      assert Key(t) in order && uniq[Key(t)] == t;
      assert Key(t) != key;
    }
  }

  // ---------------------------------------------------------------- what the count means

  ghost function Above(all: set<Signature>, s: Signature): set<Signature> {
    set t | t in all && StrictRestriction(s, t)
  }

  lemma AboveShrinks(all: set<Signature>, s: Signature, t: Signature)
    requires t in all && StrictRestriction(s, t)
    ensures Above(all, t) < Above(all, s)
  {
    hide IsMetric;
    assert t in Above(all, s) && t !in Above(all, t);
    forall u | u in Above(all, t) ensures u in Above(all, s) {
      RestrictionTransitive(s, t, u);
    }
  }

  lemma RestrictionTransitive(s: Signature, t: Signature, u: Signature)
    requires StrictRestriction(s, t) && Restriction(t, u)
    ensures StrictRestriction(s, u)
  {
    hide IsMetric;
    var k :| k in t && !(k in s && s[k] == t[k]);
    assert k in u && u[k] == t[k];
  }

  lemma {:induction false} BelowSomeMaximal(all: set<Signature>, s: Signature) returns (top: Signature)
    requires s in all
    ensures top in Maximal(all) && Restriction(s, top)
    decreases Above(all, s)
  {
    if t :| t in all && StrictRestriction(s, t) {
      AboveShrinks(all, s, t);
      top := BelowSomeMaximal(all, t);
    } else {
      top := s;
    }
  }

  /** Every run's behaviour is covered by a counted one, counted ones never restrict each other, and
      only an empty input counts zero. */
  lemma CountedCoverAll(sigs: seq<Signature>)
    ensures forall s :: s in sigs ==> exists top :: top in Maximal(Elements(sigs)) && Restriction(s, top)
    ensures forall a, b :: a in Maximal(Elements(sigs)) && b in Maximal(Elements(sigs)) && Restriction(a, b) ==> a == b
    ensures |Maximal(Elements(sigs))| == 0 <==> sigs == []
  {
    var all := Elements(sigs);
    forall s | s in sigs ensures exists top :: top in Maximal(all) && Restriction(s, top) {
      var top := BelowSomeMaximal(all, s);
    }
    forall a, b | a in Maximal(all) && b in Maximal(all) && Restriction(a, b) ensures a == b {
      assert !StrictRestriction(a, b);
      RestrictionAntisymmetric(a, b);
    }
    if sigs != [] {
      assert sigs[0] in sigs;
      var top := BelowSomeMaximal(all, sigs[0]);
      assert |Maximal(all)| > 0;
    } else {
      assert Maximal(all) == {};
    }
  }

  /** Adding runs that recorded less than, or the same as, a run already there never changes the
      count; in particular neither does repeating or reordering runs. */
  lemma RestrictionsAddNothing(sigs: seq<Signature>, more: seq<Signature>)
    requires forall m :: m in more ==> exists s :: s in sigs && Restriction(m, s)
    ensures Maximal(Elements(sigs + more)) == Maximal(Elements(sigs))
  {
    hide Restriction, IsMetric;
    var all, wider := Elements(sigs), Elements(sigs + more);
    forall x | x in Maximal(wider) ensures x in Maximal(all) {
      if x !in all {
        var s :| s in sigs && Restriction(x, s);
        assert s in wider && !StrictRestriction(x, s);
        RestrictionAntisymmetric(x, s);
      }
    }
    forall x | x in Maximal(all) ensures x in Maximal(wider) {
      forall t | t in wider ensures !StrictRestriction(x, t) {
        if t !in all && StrictRestriction(x, t) {
          var s :| s in sigs && Restriction(t, s);
          RestrictionTransitive(x, t, s);
          assert false;
        }
      }
    }
  }
}
