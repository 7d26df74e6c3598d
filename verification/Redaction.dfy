/** Redaction and path normalisation of a decoded value, and what they do at every place inside it. */
module Redaction {
  import opened Options
  import opened CanonicalJson

  const REDACTED := "<redacted>"

  /** `canon.Redact`: the value of every sensitive key is replaced, at any depth. */
  function Redact(v: Json, sensitive: string -> bool): Json {
    match v
    case Arr(items) => Arr(seq(|items|, i requires 0 <= i < |items| => Redact(items[i], sensitive)))
    case Obj(members) =>
      Obj(map k | k in members :: if sensitive(k) then Str(REDACTED) else Redact(members[k], sensitive))
    case _ => v
  }

  /** `canon.NormalizePaths`: every string is rewritten, keys are not. */
  function Normalize(v: Json, rewrite: string -> string): Json {
    match v
    case Arr(items) => Arr(seq(|items|, i requires 0 <= i < |items| => Normalize(items[i], rewrite)))
    case Obj(members) => Obj(map k | k in members :: Normalize(members[k], rewrite))
    case Str(s) => Str(rewrite(s))
    case _ => v
  }

  // ---------------------------------------------------------------- places inside a value

  /** One step into a value: to the member of a name, or to the item at an index. */
  datatype Place = Name(name: string) | Index(index: nat)

  /** What is found at a place. */
  function At(v: Json, path: seq<Place>): Option<Json> {
    if path == [] then Some(v)
    else
      match path[0]
      case Name(k) => if v.Obj? && k in v.members then At(v.members[k], path[1..]) else None
      case Index(i) => if v.Arr? && i < |v.items| then At(v.items[i], path[1..]) else None
  }

  predicate IsSecret(place: Place, sensitive: string -> bool) {
    place.Name? && sensitive(place.name)
  }

  /** A sensitive name stands on the way to the place, or at it. */
  ghost predicate Crosses(path: seq<Place>, sensitive: string -> bool) {
    exists i :: 0 <= i < |path| && IsSecret(path[i], sensitive)
  }

  function Mapped(v: Option<Json>, change: Json -> Json): Option<Json> {
    match v
    case None => None
    case Some(w) => Some(change(w))
  }

  lemma CrossesLater(path: seq<Place>, sensitive: string -> bool)
    requires path != []
    ensures Crosses(path, sensitive) <==> IsSecret(path[0], sensitive) || Crosses(path[1..], sensitive)
  {
    if i :| 0 <= i < |path[1..]| && IsSecret(path[1..][i], sensitive) {
      assert IsSecret(path[i + 1], sensitive);
    }
    if i :| 0 < i < |path| && IsSecret(path[i], sensitive) {
      assert IsSecret(path[1..][i - 1], sensitive);
    }
  }

  /** Away from sensitive names redaction keeps every place, and what is there is the redaction of what was. */
  lemma {:induction false} RedactKeepsPlaces(v: Json, path: seq<Place>, sensitive: string -> bool)
    requires !Crosses(path, sensitive)
    ensures At(Redact(v, sensitive), path) == Mapped(At(v, path), w => Redact(w, sensitive))
    decreases |path|
  {
    if path != [] {
      CrossesLater(path, sensitive);
      match path[0]
      case Name(k) =>
        if v.Obj? && k in v.members {
          assert !IsSecret(path[0], sensitive);
          RedactKeepsPlaces(v.members[k], path[1..], sensitive);
        }
      case Index(i) =>
        if v.Arr? && i < |v.items| {
          RedactKeepsPlaces(v.items[i], path[1..], sensitive);
        }
    }
  }

  /** Of a member with a sensitive name nothing is left but the mark: not its value, and no place inside it. */
  lemma {:induction false} RedactHidesSecrets(v: Json, path: seq<Place>, name: string, inside: seq<Place>, sensitive: string -> bool)
    requires !Crosses(path, sensitive) && sensitive(name)
    ensures At(Redact(v, sensitive), path + ([Name(name)] + inside)) ==
            if At(v, path + [Name(name)]).Some? && inside == [] then Some(Str("<redacted>")) else None
    decreases |path|
  {
    var full, short := path + ([Name(name)] + inside), path + [Name(name)];
    if path == [] {
      assert full == [Name(name)] + inside && full[1..] == inside;
      assert short == [Name(name)] && short[1..] == [];
    } else {
      CrossesLater(path, sensitive);
      assert full[0] == path[0] && full[1..] == path[1..] + ([Name(name)] + inside);
      assert short[0] == path[0] && short[1..] == path[1..] + [Name(name)];
      match path[0]
      case Name(k) =>
        if v.Obj? && k in v.members {
          assert !IsSecret(path[0], sensitive);
          RedactHidesSecrets(v.members[k], path[1..], name, inside, sensitive);
        }
      case Index(i) =>
        if v.Arr? && i < |v.items| {
          RedactHidesSecrets(v.items[i], path[1..], name, inside, sensitive);
        }
    }
  }

  /** The same value but for what stands under sensitive names. */
  ghost predicate SameOutside(v: Json, w: Json, sensitive: string -> bool) {
    match v
    case Arr(items) =>
      w.Arr? && |items| == |w.items| && forall i :: 0 <= i < |items| ==> SameOutside(items[i], w.items[i], sensitive)
    case Obj(members) =>
      && w.Obj? && members.Keys == w.members.Keys
      && forall k :: k in members && !sensitive(k) ==> SameOutside(members[k], w.members[k], sensitive)
    case _ => v == w
  }

  /** Redaction loses exactly what stands under sensitive names. */
  lemma {:induction false} RedactionsAgreeIff(v: Json, w: Json, sensitive: string -> bool)
    ensures Redact(v, sensitive) == Redact(w, sensitive) <==> SameOutside(v, w, sensitive)
    decreases v
  {
    var a, b := Redact(v, sensitive), Redact(w, sensitive);
    match v
    case Arr(items) =>
      if w.Arr? && |items| == |w.items| {
        forall i | 0 <= i < |items|
          ensures a.items[i] == b.items[i] <==> SameOutside(items[i], w.items[i], sensitive)
        {
          RedactionsAgreeIff(items[i], w.items[i], sensitive);
        }
        assert a == b <==> forall i :: 0 <= i < |items| ==> a.items[i] == b.items[i];
      }
    case Obj(members) =>
      if w.Obj? && members.Keys == w.members.Keys {
        forall k | k in members
          ensures a.members[k] == b.members[k] <==> sensitive(k) || SameOutside(members[k], w.members[k], sensitive)
        {
          if !sensitive(k) {
            RedactionsAgreeIff(members[k], w.members[k], sensitive);
          }
        }
        assert a.members.Keys == members.Keys == b.members.Keys;
        assert a == b <==> forall k :: k in members ==> a.members[k] == b.members[k];
      } else if w.Obj? {
        assert a.members.Keys == members.Keys && b.members.Keys == w.members.Keys;
      }
    case _ =>
  }

  /** Normalisation keeps every place and every name, and what is there is the normalisation of what was: a
      string is rewritten, any other leaf stays. */
  lemma {:induction false} NormalizeKeepsPlaces(v: Json, path: seq<Place>, rewrite: string -> string)
    ensures At(Normalize(v, rewrite), path) == Mapped(At(v, path), w => Normalize(w, rewrite))
    decreases |path|
  {
    if path != [] {
      match path[0]
      case Name(k) =>
        if v.Obj? && k in v.members {
          NormalizeKeepsPlaces(v.members[k], path[1..], rewrite);
        }
      case Index(i) =>
        if v.Arr? && i < |v.items| {
          NormalizeKeepsPlaces(v.items[i], path[1..], rewrite);
        }
    }
  }

  /** What is left of one value: a rewritten string, an equal leaf, or a container of the same shape. */
  predicate LeftOf(before: Json, after: Json, rewrite: string -> string) {
    match before
    case Str(s) => after == Str(rewrite(s))
    case Arr(items) => after.Arr? && |after.items| == |items|
    case Obj(members) => after.Obj? && after.members.Keys == members.Keys
    case _ => after == before
  }

  lemma TopIsKept(v: Json, sensitive: string -> bool, rewrite: string -> string)
    ensures LeftOf(v, Normalize(Redact(v, sensitive), rewrite), rewrite)
  {
  }

  /** What the two do together at any place that no sensitive name guards. */
  lemma PlacesAreKept(v: Json, path: seq<Place>, sensitive: string -> bool, rewrite: string -> string)
    requires !Crosses(path, sensitive) && At(v, path).Some?
    ensures var after := At(Normalize(Redact(v, sensitive), rewrite), path);
            after.Some? && LeftOf(At(v, path).value, after.value, rewrite)
  {
    hide At, Redact, Normalize, LeftOf, Crosses;
    RedactKeepsPlaces(v, path, sensitive);
    NormalizeKeepsPlaces(Redact(v, sensitive), path, rewrite);
    TopIsKept(At(v, path).value, sensitive, rewrite);
  }
}
