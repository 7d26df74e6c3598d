/** Canonical JSON: the text `canon.JSON` prints for a decoded value, and a reader that follows the grammar of
    RFC 8259 and knows nothing of the printer. Reading what was printed gives the value back, so the text
    determines the value. The escapes are those of Go's encoder with HTML escaping off. */
module CanonicalJson {
  import opened Options
  import opened Sorting

  predicate NumberChar(c: char) {
    '0' <= c <= '9' || c == '+' || c == '-' || c == '.' || c == 'e' || c == 'E'
  }

  predicate IsNumber(s: string) {
    s != [] && forall i :: 0 <= i < |s| ==> NumberChar(s[i])
  }

  /** A decoded number, taken as the text the encoder gives it. */
  type Number = s: string | IsNumber(s) witness "0"

  datatype Json =
    | Null
    | Bool(value: bool)
    | Num(number: Number)
    | Str(text: string)
    | Arr(items: seq<Json>)
    | Obj(members: map<string, Json>)

  // ---------------------------------------------------------------- toCanonical

  /** The copy `toCanonical` makes: key order is not part of a map, so nothing changes. */
  function ToCanonical(v: Json): Json {
    match v
    case Arr(items) => Arr(seq(|items|, i requires 0 <= i < |items| => ToCanonical(items[i])))
    case Obj(members) => Obj(map k | k in members :: ToCanonical(members[k]))
    case _ => v
  }

  lemma {:induction false} ToCanonicalIsIdentity(v: Json)
    ensures ToCanonical(v) == v
  {
    match v
    case Arr(items) =>
      forall i | 0 <= i < |items| ensures ToCanonical(items[i]) == items[i] {
        ToCanonicalIsIdentity(items[i]);
      }
    case Obj(members) =>
      forall k | k in members ensures ToCanonical(members[k]) == members[k] {
        ToCanonicalIsIdentity(members[k]);
      }
    case _ =>
  }

  // ---------------------------------------------------------------- printing

  function HexDigit(d: nat): char
    requires d < 16
  {
    if d < 10 then ('0' as int + d) as char else ('a' as int + d - 10) as char
  }

  function Escape(c: char): string {
    if c == '"' then "\\\""
    else if c == '\\' then "\\\\"
    else if c == '\U{0008}' then "\\b"
    else if c == '\U{000C}' then "\\f"
    else if c == '\n' then "\\n"
    else if c == '\r' then "\\r"
    else if c == '\t' then "\\t"
    else if c < ' ' then
      var n := c as int;
      "\\u00" + [HexDigit(n / 16), HexDigit(n % 16)]
    else if c == '\U{2028}' then "\\u2028"
    else if c == '\U{2029}' then "\\u2029"
    else [c]
  }

  /** A string after its opening quote. */
  function QuoteTail(s: string): string {
    if s == [] then "\"" else Escape(s[0]) + QuoteTail(s[1..])
  }

  function Quote(s: string): string {
    "\"" + QuoteTail(s)
  }

  ghost function Least(keys: set<string>): (k: string)
    requires keys != {}
    ensures k in keys && forall x :: x in keys ==> StrLe(k, x)
  {
    LeastExists(keys);
    var k :| IsLeast(keys, k);
    k
  }

  ghost predicate IsLeast(keys: set<string>, k: string) {
    k in keys && forall x :: x in keys ==> StrLe(k, x)
  }

  lemma OneOrder(a: string, b: string, c: string)
    ensures StrLe(a, a) && (StrLe(a, b) || StrLe(b, a)) && (StrLe(a, b) && StrLe(b, c) ==> StrLe(a, c))
  {
    StrLeIsOrder();
  }

  /** The least of some keys and the least of the others give the least of all. */
  lemma LeastOfMore(keys: set<string>, a: string, b: string)
    requires a in keys && IsLeast(keys - {a}, b)
    ensures IsLeast(keys, if StrLe(a, b) then a else b)
  {
    hide StrLe;
    forall x | x in keys ensures StrLe(if StrLe(a, b) then a else b, x) {
      OneOrder(a, b, x);
      assert x == a || x in keys - {a};
    }
  }

  lemma {:induction false} LeastExists(keys: set<string>)
    requires keys != {}
    ensures exists k :: IsLeast(keys, k)
  {
    hide StrLe, IsLeast;
    var a :| a in keys;
    if keys == {a} {
      assert IsLeast(keys, a) by {
        OnlyKeyIsLeast(a);
      }
    } else {
      LeastExists(keys - {a});
      var b :| IsLeast(keys - {a}, b);
      LeastOfMore(keys, a, b);
    }
  }

  lemma OnlyKeyIsLeast(a: string)
    ensures IsLeast({a}, a)
  {
    OneOrder(a, a, a);
  }

  ghost function SortedKeys(keys: set<string>): (r: seq<string>)
    ensures forall k :: k in r <==> k in keys
  {
    if keys == {} then [] else [Least(keys)] + SortedKeys(keys - {Least(keys)})
  }

  lemma LeastKeyFirst(keys: set<string>)
    requires SortedKeys(keys) != []
    ensures keys != {} && SortedKeys(keys) == [Least(keys)] + SortedKeys(keys - {Least(keys)})
  {
    hide Least, StrLe;
  }

  lemma BehindHead(keys: seq<string>, head: string, tail: seq<string>, i: nat)
    requires keys == [head] + tail && i < |keys|
    ensures i == 0 ==> keys[i] == head
    ensures i > 0 ==> keys[i] == tail[i - 1] && keys[i] in tail
  {
  }

  lemma LeastIsBelow(keys: set<string>, k: string)
    requires keys != {} && k in SortedKeys(keys - {Least(keys)})
    ensures StrLe(Least(keys), k) && Least(keys) != k
  {
    hide StrLe, Least, SortedKeys;
    assert k in keys - {Least(keys)};
  }

  /** Object keys are printed in strictly ascending order. */
  lemma {:induction false} SortedKeysAscend(keys: set<string>, i: nat, j: nat)
    requires i < j < |SortedKeys(keys)|
    ensures StrLe(SortedKeys(keys)[i], SortedKeys(keys)[j]) && SortedKeys(keys)[i] != SortedKeys(keys)[j]
  {
    hide *;
    LeastKeyFirst(keys);
    var first, rest := Least(keys), SortedKeys(keys - {Least(keys)});
    BehindHead(SortedKeys(keys), first, rest, i);
    BehindHead(SortedKeys(keys), first, rest, j);
    if i > 0 {
      SortedKeysAscend(keys - {first}, i - 1, j - 1);
    } else {
      LeastIsBelow(keys, SortedKeys(keys)[j]);
    }
  }

  ghost function Print(v: Json): string
    decreases v, 0
  {
    match v
    case Null => "null"
    case Bool(b) => if b then "true" else "false"
    case Num(n) => n
    case Str(s) => Quote(s)
    case Arr(items) => "[" + (if items == [] then "]" else Print(items[0]) + ItemsTail(items[1..]))
    case Obj(members) =>
      var keys := SortedKeys(members.Keys);
      "{" + (if keys == [] then "}" else Member(v, keys[0]) + MembersTail(v, keys[1..]))
  }

  ghost function ItemsTail(items: seq<Json>): string
    decreases items, 0
  {
    if items == [] then "]" else "," + Print(items[0]) + ItemsTail(items[1..])
  }

  ghost function Member(v: Json, key: string): string
    requires v.Obj? && key in v.members
    decreases v, 0, 0
  {
    Quote(key) + ":" + Print(v.members[key])
  }

  ghost function MembersTail(v: Json, keys: seq<string>): string
    requires v.Obj? && forall k :: k in keys ==> k in v.members
    decreases v, 0, |keys|
  {
    if keys == [] then "}" else "," + Member(v, keys[0]) + MembersTail(v, keys[1..])
  }

  /** `canon.JSON`: the encoder's text of the copied value. */
  ghost function JSON(v: Json): string {
    Print(ToCanonical(v))
  }

  // ---------------------------------------------------------------- reading

  /** Section 7 of RFC 8259: the two-character escapes, by the letter after the backslash. */
  const SHORT_ESCAPES: map<char, char> :=
    map['"' := '\U{0022}', '\\' := '\U{005C}', '/' := '\U{002F}', 'b' := '\U{0008}', 'f' := '\U{000C}',
        'n' := '\U{000A}', 'r' := '\U{000D}', 't' := '\U{0009}']

  function HexValue(c: char): Option<int> {
    if '0' <= c <= '9' then Some(c as int - '0' as int)
    else if 'a' <= c <= 'f' then Some(10 + c as int - 'a' as int)
    else if 'A' <= c <= 'F' then Some(10 + c as int - 'A' as int)
    else None
  }

  /** The code of four hexadecimal digits, the first one the most significant. */
  function HexCode(digits: string): Option<int>
    requires |digits| == 4
  {
    var a, b, c, d := HexValue(digits[0]), HexValue(digits[1]), HexValue(digits[2]), HexValue(digits[3]);
    if a.Some? && b.Some? && c.Some? && d.Some?
    then Some(((a.value * 16 + b.value) * 16 + c.value) * 16 + d.value)
    else None
  }

  /** One character of a string and the rest: an escape, or any character that needs none. Codes of surrogates,
      which stand for no character alone, are not read. */
  function ReadChar(text: string): (r: Option<(char, string)>)
    ensures r.Some? ==> |r.value.1| < |text|
  {
    if text == [] || text[0] == '"' || text[0] < ' ' then None
    else if text[0] != '\\' then Some((text[0], text[1..]))
    else if |text| >= 2 && text[1] in SHORT_ESCAPES then Some((SHORT_ESCAPES[text[1]], text[2..]))
    else if |text| >= 6 && text[1] == 'u' then
      var code := HexCode(text[2..6]);
      if code.Some? && (0 <= code.value < 0xD800 || 0xE000 <= code.value < 0x1_0000) then Some((code.value as char, text[6..]))
      else None
    else None
  }

  /** A string after its opening quote, and the rest after its closing one. */
  function ReadString(text: string): (r: Option<(string, string)>)
    ensures r.Some? ==> |r.value.1| < |text|
    decreases |text|
  {
    if text != [] && text[0] == '"' then Some(([], text[1..]))
    else
      var c := ReadChar(text);
      if c.None? then None
      else
        var s := ReadString(c.value.1);
        if s.None? then None else Some(([c.value.0] + s.value.0, s.value.1))
  }

  /** The longest start of a text that could belong to a number. */
  function NumberLength(text: string): (n: nat)
    ensures n <= |text| && forall i :: 0 <= i < n ==> NumberChar(text[i])
  {
    if text == [] || !NumberChar(text[0]) then 0 else 1 + NumberLength(text[1..])
  }

  function ReadLiteral(text: string, literal: string, v: Json): (r: Option<(Json, string)>)
    requires literal != []
    ensures r.Some? ==> |r.value.1| < |text|
  {
    if literal <= text then Some((v, text[|literal|..])) else None
  }

  /** Section 3 of RFC 8259, without white space: a value at the start of a text, and the rest. */
  function ReadValue(text: string): (r: Option<(Json, string)>)
    ensures r.Some? ==> |r.value.1| < |text|
    decreases |text|, 0
  {
    if text == [] then None
    else if text[0] == 'n' then ReadLiteral(text, "null", Null)
    else if text[0] == 't' then ReadLiteral(text, "true", Bool(true))
    else if text[0] == 'f' then ReadLiteral(text, "false", Bool(false))
    else if text[0] == '"' then
      var s := ReadString(text[1..]);
      if s.None? then None else Some((Str(s.value.0), s.value.1))
    else if text[0] == '[' then
      if |text| > 1 && text[1] == ']' then Some((Arr([]), text[2..]))
      else
        var items := ReadItems(text[1..]);
        if items.None? then None else Some((Arr(items.value.0), items.value.1))
    else if text[0] == '{' then
      if |text| > 1 && text[1] == '}' then Some((Obj(map[]), text[2..]))
      else
        var members := ReadMembers(text[1..], None);
        if members.None? then None else Some((Obj(members.value.0), members.value.1))
    else
      var n := NumberLength(text);
      if n == 0 then None else Some((Num(text[..n]), text[n..]))
  }

  /** Section 5: the items of an array that is not empty, up to its bracket. */
  function ReadItems(text: string): (r: Option<(seq<Json>, string)>)
    ensures r.Some? ==> |r.value.1| < |text|
    decreases |text|, 1
  {
    var first := ReadValue(text);
    if first.None? || first.value.1 == [] then None
    else
      var (v, rest) := first.value;
      if rest[0] == ']' then Some(([v], rest[1..]))
      else if rest[0] != ',' then None
      else
        var more := ReadItems(rest[1..]);
        if more.None? then None else Some(([v] + more.value.0, more.value.1))
  }

  /** Section 4: the members of an object that is not empty, up to its brace. The names have to ascend
      strictly: that is what makes the text canonical. */
  function ReadMembers(text: string, last: Option<string>): (r: Option<(map<string, Json>, string)>)
    ensures r.Some? ==> |r.value.1| < |text|
    decreases |text|, 1
  {
    if text == [] || text[0] != '"' then None
    else
      var name := ReadString(text[1..]);
      if name.None? || name.value.1 == [] || name.value.1[0] != ':' || !Ascends(last, name.value.0) then None
      else
        var first := ReadValue(name.value.1[1..]);
        if first.None? || first.value.1 == [] then None
        else
          var (v, rest) := first.value;
          if rest[0] == '}' then Some((map[name.value.0 := v], rest[1..]))
          else if rest[0] != ',' then None
          else
            var more := ReadMembers(rest[1..], Some(name.value.0));
            if more.None? then None else Some((more.value.0[name.value.0 := v], more.value.1))
  }

  predicate Ascends(last: Option<string>, name: string) {
    last.None? || (StrLe(last.value, name) && last.value != name)
  }

  /** A whole text. */
  function Parse(text: string): Option<Json> {
    var v := ReadValue(text);
    if v.Some? && v.value.1 == [] then Some(v.value.0) else None
  }

  // ---------------------------------------------------------------- reading what was printed

  lemma HexDigitIsRead(d: nat)
    requires d < 16
    ensures HexValue(HexDigit(d)) == Some(d)
  {
  }

  /** Every character is read back from its escape. */
  lemma EscapeIsRead(c: char, r: string)
    ensures ReadChar(Escape(c) + r) == Some((c, r))
  {
    var text := Escape(c) + r;
    assert text[|Escape(c)|..] == r;
    if c == '\U{2028}' || c == '\U{2029}' {
      assert text[2..6] == Escape(c)[2..6];
      assert HexCode(text[2..6]) == Some(c as int);
    } else if |Escape(c)| == 6 {
      var n := c as int;
      assert text[2..6] == "00" + [HexDigit(n / 16), HexDigit(n % 16)];
      HexDigitIsRead(n / 16);
      HexDigitIsRead(n % 16);
      assert HexCode(text[2..6]) == Some(n);
    }
  }

  lemma EscapeIsNoQuote(c: char)
    ensures Escape(c) != [] && Escape(c)[0] != '"'
  {
  }

  /** Every string is read back from its quoted text, whatever follows. */
  lemma {:induction false} StringIsRead(s: string, r: string)
    ensures ReadString(QuoteTail(s) + r) == Some((s, r))
  {
    hide Escape, ReadChar;
    if s == [] {
      assert ("\"" + r)[1..] == r;
    } else {
      var tail := QuoteTail(s[1..]) + r;
      assert QuoteTail(s) + r == Escape(s[0]) + tail;
      EscapeIsNoQuote(s[0]);
      EscapeIsRead(s[0], tail);
      StringIsRead(s[1..], r);
      assert s == [s[0]] + s[1..];
    }
  }

  /** What may follow a value inside a canonical text. */
  predicate Follows(r: string) {
    r == [] || r[0] == ',' || r[0] == ']' || r[0] == '}'
  }

  predicate Digits(s: string) {
    s != [] && forall i :: 0 <= i < |s| ==> '0' <= s[i] <= '9'
  }

  /** Section 6 of RFC 8259: a sign, the digits, a fraction and an exponent. */
  lemma GrammarNumbersAreNumbers(minus: string, digits: string, fraction: string, exponent: string, power: string)
    requires minus == "" || minus == "-"
    requires Digits(digits)
    requires fraction == "" || (fraction[0] == '.' && Digits(fraction[1..]))
    requires exponent == "" <==> power == ""
    requires exponent in ["", "e", "E", "e+", "E+", "e-", "E-"] && (power == "" || Digits(power))
    ensures IsNumber(minus + digits + fraction + exponent + power)
  {
    var n := minus + digits + fraction + exponent + power;
    assert forall i :: 0 < i < |fraction| ==> fraction[i] == fraction[1..][i - 1];
    forall i | 0 <= i < |n| ensures NumberChar(n[i]) {
      var a, b, c := |minus|, |minus + digits|, |minus + digits + fraction|;
      var d := |minus + digits + fraction + exponent|;
      assert n[i] == if i < a then minus[i] else if i < b then digits[i - a] else if i < c then fraction[i - b]
                     else if i < d then exponent[i - c] else power[i - d];
    }
  }

  lemma {:induction false} NumberIsRead(n: string, r: string)
    requires forall i :: 0 <= i < |n| ==> NumberChar(n[i])
    requires Follows(r)
    ensures NumberLength(n + r) == |n|
  {
    if n == [] {
      assert n + r == r;
    } else {
      assert (n + r)[1..] == n[1..] + r;
      NumberIsRead(n[1..], r);
    }
  }

  /** The first character tells the kind of value. */
  predicate LeadOf(v: Json, c: char) {
    match v
    case Null => c == 'n'
    case Bool(b) => c == (if b then 't' else 'f')
    case Num(_) => NumberChar(c)
    case Str(_) => c == '"'
    case Arr(_) => c == '['
    case Obj(_) => c == '{'
  }

  lemma PrintLead(v: Json)
    ensures Print(v) != [] && LeadOf(v, Print(v)[0])
  {
  }

  ghost function ListText(items: seq<Json>): string {
    if items == [] then "]" else Print(items[0]) + ItemsTail(items[1..])
  }

  ghost function MapText(v: Json, keys: seq<string>): string
    requires v.Obj? && forall k :: k in keys ==> k in v.members
  {
    if keys == [] then "}" else Member(v, keys[0]) + MembersTail(v, keys[1..])
  }

  lemma PrintShape(v: Json, r: string)
    ensures v.Null? ==> Print(v) + r == "null" + r
    ensures v.Bool? ==> Print(v) + r == (if v.value then "true" else "false") + r
    ensures v.Num? ==> Print(v) + r == v.number + r
    ensures v.Str? ==> Print(v) + r == "\"" + (QuoteTail(v.text) + r)
    ensures v.Arr? ==> Print(v) + r == "[" + (ListText(v.items) + r)
    ensures v.Obj? ==> Print(v) + r == "{" + (MapText(v, SortedKeys(v.members.Keys)) + r)
    ensures |Print(v) + r| > 0 && LeadOf(v, (Print(v) + r)[0])
  {
    PrintLead(v);
    hide QuoteTail, ItemsTail, MembersTail, Member, SortedKeys;
  }

  lemma LiteralIsRead(literal: string, v: Json, r: string)
    requires literal != []
    ensures ReadLiteral(literal + r, literal, v) == Some((v, r))
  {
    assert (literal + r)[|literal|..] == r;
  }

  lemma Behind(head: string, r: string)
    ensures (head + r)[|head|..] == r
  {
  }

  /** Every value is read back from its text, whatever may follow it. */
  lemma {:induction false} ValueIsRead(v: Json, r: string)
    requires Follows(r)
    ensures ReadValue(Print(v) + r) == Some((v, r))
    decreases v, 2
  {
    PrintShape(v, r);
    hide Print, ListText, MapText, QuoteTail, ReadString, ReadItems, ReadMembers, ReadLiteral;
    match v
    case Null => LiteralIsRead("null", v, r);
    case Bool(b) => LiteralIsRead(if b then "true" else "false", v, r);
    case Num(n) =>
      NumberIsRead(n, r);
      Behind(n, r);
      assert (n + r)[..|n|] == n;
    case Str(s) =>
      Behind("\"", QuoteTail(s) + r);
      StringIsRead(s, r);
    case Arr(items) => ArrayIsRead(items, r);
    case Obj(members) => ObjectIsRead(v, r);
  }

  lemma {:induction false} ArrayIsRead(items: seq<Json>, r: string)
    ensures ReadValue("[" + (ListText(items) + r)) == Some((Arr(items), r))
    decreases items, 1
  {
    var text := ListText(items) + r;
    Behind("[", text);
    ListTextShape(items, r);
    hide ListText, ReadItems, ReadString, ReadMembers, ReadLiteral;
    assert ("[" + text)[1] == text[0];
    if items == [] {
      assert ("[" + text)[2..] == text[1..] == r by {
        Behind("]", r);
      }
    } else {
      ItemsAreRead(items, r);
    }
  }

  lemma {:induction false} ItemsAreRead(items: seq<Json>, r: string)
    requires items != []
    ensures ReadItems(ListText(items) + r) == Some((items, r))
    decreases items, 0
  {
    ListTextShape(items, r);
    var rest := ItemsTail(items[1..]) + r;
    ValueIsRead(items[0], rest);
    TailShape(items[1..], r);
    hide ListText, Print, ItemsTail, ReadValue;
    if |items| == 1 {
      Behind("]", r);
      assert items == [items[0]];
    } else {
      Behind(",", ListText(items[1..]) + r);
      ItemsAreRead(items[1..], r);
      assert items == [items[0]] + items[1..];
    }
  }

  lemma ListTextShape(items: seq<Json>, r: string)
    ensures items == [] ==> ListText(items) + r == "]" + r
    ensures items != [] ==> ListText(items) + r == Print(items[0]) + (ItemsTail(items[1..]) + r)
    ensures |ListText(items) + r| > 0 && ((ListText(items) + r)[0] == ']' <==> items == [])
    ensures items != [] ==> Follows(ItemsTail(items[1..]) + r)
  {
    hide Print, ItemsTail;
    if items != [] {
      PrintLead(items[0]);
      TailFollows(items[1..], r);
      Joined(Print(items[0]), ItemsTail(items[1..]), r);
    }
  }

  lemma TailFollows(items: seq<Json>, r: string)
    ensures Follows(ItemsTail(items) + r)
  {
    hide Print;
  }

  lemma Joined(head: string, tail: string, r: string)
    requires |head| > 0
    ensures (head + tail) + r == head + (tail + r) && ((head + tail) + r)[0] == head[0]
  {
  }

  /** The rest of an array's text: its bracket, or a comma and the text of the remaining items. */
  lemma TailShape(items: seq<Json>, r: string)
    ensures items == [] ==> ItemsTail(items) + r == "]" + r
    ensures items != [] ==> ItemsTail(items) + r == "," + (ListText(items) + r)
    ensures Follows(ItemsTail(items) + r)
  {
    hide Print;
    if items != [] {
      Regrouped(",", Print(items[0]), ItemsTail(items[1..]), r);
    }
  }

  lemma Regrouped(a: string, b: string, c: string, d: string)
    ensures (a + b + c) + d == a + ((b + c) + d)
  {
  }

  lemma {:induction false} ObjectIsRead(v: Json, r: string)
    requires v.Obj?
    ensures ReadValue("{" + (MapText(v, SortedKeys(v.members.Keys)) + r)) == Some((v, r))
    decreases v, 1
  {
    var keys := SortedKeys(v.members.Keys);
    MapTextShape(v, keys, r);
    if keys == [] {
      EmptyObjectIsRead(r);
      assert v.members.Keys == {} && v.members == map[];
    } else {
      KeysAscend(v.members.Keys);
      MembersAreRead(v, keys, None, r);
      AllThose(v, keys);
      hide MapText, SortedKeys, AllAscend, Those;
      ReadObject(MapText(v, keys) + r, v.members, r);
    }
  }

  lemma EmptyObjectIsRead(r: string)
    ensures ReadValue("{" + ("}" + r)) == Some((Obj(map[]), r))
  {
    var text := "{" + ("}" + r);
    assert text[0] == '{' && text[1] == '}' && text[2..] == r;
  }

  lemma ReadObject(text: string, members: map<string, Json>, r: string)
    requires text != [] && text[0] != '}' && ReadMembers(text, None) == Some((members, r))
    ensures ReadValue("{" + text) == Some((Obj(members), r))
  {
    Behind("{", text);
    assert ("{" + text)[1] == text[0];
    hide ReadMembers, ReadString, ReadItems, ReadLiteral;
  }

  lemma KeysAscend(keys: set<string>)
    ensures AllAscend(None, SortedKeys(keys))
  {
    hide StrLe, SortedKeys;
    var sorted := SortedKeys(keys);
    forall i, j | 0 <= i < j < |sorted| ensures StrLe(sorted[i], sorted[j]) && sorted[i] != sorted[j] {
      SortedKeysAscend(keys, i, j);
    }
  }

  lemma AllThose(v: Json, keys: seq<string>)
    requires v.Obj? && forall k :: k in keys <==> k in v.members
    ensures Those(v, keys) == v.members
  {
  }

  ghost predicate AllAscend(last: Option<string>, keys: seq<string>) {
    && (forall i, j :: 0 <= i < j < |keys| ==> StrLe(keys[i], keys[j]) && keys[i] != keys[j])
    && (keys != [] ==> Ascends(last, keys[0]))
  }

  /** The members under some of the keys. */
  function Those(v: Json, keys: seq<string>): map<string, Json>
    requires v.Obj? && forall k :: k in keys ==> k in v.members
  {
    map k | k in keys :: v.members[k]
  }

  lemma OneMoreMember(v: Json, keys: seq<string>)
    requires v.Obj? && keys != [] && forall k :: k in keys ==> k in v.members
    ensures Those(v, keys) == Those(v, keys[1..])[keys[0] := v.members[keys[0]]]
  {
  }

  lemma NextAscends(last: Option<string>, keys: seq<string>)
    requires keys != [] && AllAscend(last, keys)
    ensures Ascends(last, keys[0]) && AllAscend(Some(keys[0]), keys[1..])
  {
    hide StrLe;
  }

  lemma {:induction false} MembersAreRead(v: Json, keys: seq<string>, last: Option<string>, r: string)
    requires v.Obj? && keys != [] && forall k :: k in keys ==> k in v.members
    requires AllAscend(last, keys)
    ensures ReadMembers(MapText(v, keys) + r, last) == Some((Those(v, keys), r))
    decreases v, 0, |keys|
  {
    var k, rest := keys[0], MembersTail(v, keys[1..]) + r;
    var text, value := MapText(v, keys) + r, Print(v.members[k]) + rest;
    MapTextShape(v, keys, r);
    MemberShape(v, k, rest);
    Behind("\"", QuoteTail(k) + (":" + value));
    StringIsRead(k, ":" + value);
    Behind(":", value);
    ValueIsRead(v.members[k], rest);
    MembersTailShape(v, keys[1..], r);
    NextAscends(last, keys);
    OneMoreMember(v, keys);
    hide MapText, Member, Print, MembersTail, ReadValue, ReadString, QuoteTail, Ascends, AllAscend, Those;
    assert text[0] == '"' && text[1..] == QuoteTail(k) + (":" + value);
    if |keys| == 1 {
      Behind("}", r);
      NoMoreMembers(v, keys);
    } else {
      Behind(",", MapText(v, keys[1..]) + r);
      MembersAreRead(v, keys[1..], Some(k), r);
    }
  }

  lemma NoMoreMembers(v: Json, keys: seq<string>)
    requires v.Obj? && |keys| == 1 && keys[0] in v.members
    ensures Those(v, keys) == map[keys[0] := v.members[keys[0]]]
  {
  }

  lemma MemberShape(v: Json, key: string, r: string)
    requires v.Obj? && key in v.members
    ensures Member(v, key) + r == "\"" + (QuoteTail(key) + (":" + (Print(v.members[key]) + r)))
  {
  }

  lemma MapTextShape(v: Json, keys: seq<string>, r: string)
    requires v.Obj? && forall k :: k in keys ==> k in v.members
    ensures keys == [] ==> MapText(v, keys) + r == "}" + r
    ensures keys != [] ==> MapText(v, keys) + r == Member(v, keys[0]) + (MembersTail(v, keys[1..]) + r)
    ensures |MapText(v, keys) + r| > 0 && ((MapText(v, keys) + r)[0] == '}' <==> keys == [])
  {
  }

  /** The rest of an object's text: its brace, or a comma and the text of the remaining members. */
  lemma MembersTailShape(v: Json, keys: seq<string>, r: string)
    requires v.Obj? && forall k :: k in keys ==> k in v.members
    ensures keys == [] ==> MembersTail(v, keys) + r == "}" + r
    ensures keys != [] ==> MembersTail(v, keys) + r == "," + (MapText(v, keys) + r)
    ensures Follows(MembersTail(v, keys) + r)
  {
    hide Member;
    if keys != [] {
      Regrouped(",", Member(v, keys[0]), MembersTail(v, keys[1..]), r);
    }
  }

  /** Reading what `canon.JSON` printed gives the value back: the round trip through the grammar. */
  lemma ParseOfJson(v: Json)
    ensures Parse(JSON(v)) == Some(v)
  {
    ToCanonicalIsIdentity(v);
    ValueIsRead(v, []);
    hide Print, ReadValue;
    assert Print(v) + [] == Print(v);
  }

  // ---------------------------------------------------------------- which escape is printed

  /** The two separators that the encoder escapes although the grammar does not ask for it. */
  predicate Separator(c: char) {
    c == '\U{2028}' || c == '\U{2029}'
  }

  predicate LowerHex(text: string) {
    forall i :: 0 <= i < |text| ==> !('A' <= text[i] <= 'F')
  }

  /** An escape is never longer than it has to be, the two separators excepted: any text that is read as the
      same character is at least as long, and if it is as long and its digits are lower case, it is the same. */
  lemma EscapeIsShortest(c: char, text: string)
    requires ReadChar(text) == Some((c, [])) && !Separator(c)
    ensures |Escape(c)| <= |text|
    ensures |Escape(c)| == |text| && (|text| == 6 ==> LowerHex(text)) ==> text == Escape(c)
  {
    if text[0] != '\\' {
      assert text == [c];
    } else if |text| >= 2 && text[1] in SHORT_ESCAPES {
      assert text == [text[0], text[1]];
    } else {
      assert |text| == 6;
      if |Escape(c)| == 6 && LowerHex(text) {
        DigitsOfCode(c as int, text[2..6]);
        assert text == "\\u" + text[2..6];
      }
    }
  }

  /** The lower-case digits of a code below 32. */
  lemma DigitsOfCode(n: nat, digits: string)
    requires |digits| == 4 && n < 32 && HexCode(digits) == Some(n) && LowerHex(digits)
    ensures digits == "00" + [HexDigit(n / 16), HexDigit(n % 16)]
  {
    var a, b, c, d := HexValue(digits[0]).value, HexValue(digits[1]).value, HexValue(digits[2]).value, HexValue(digits[3]).value;
    assert a == 0 && b == 0 && c == n / 16 && d == n % 16;
    OneDigit(digits[0]);
    OneDigit(digits[1]);
    OneDigit(digits[2]);
    OneDigit(digits[3]);
    assert digits == [digits[0], digits[1], digits[2], digits[3]];
  }

  lemma OneDigit(c: char)
    requires HexValue(c).Some? && !('A' <= c <= 'F')
    ensures 0 <= HexValue(c).value < 16 && c == HexDigit(HexValue(c).value)
  {
  }

  lemma SeparatorsAreEscaped()
    ensures Escape('\U{2028}') == "\\u2028" && Escape('\U{2029}') == "\\u2029"
  {
  }

  // ---------------------------------------------------------------- the text determines the value

  /** Escapes are decodable: no escape starts another. */
  lemma EscapePrefixFree(c: char, d: char, r: string, u: string)
    requires Escape(c) + r == Escape(d) + u
    ensures c == d && r == u
  {
    hide Escape, ReadChar;
    EscapeIsRead(c, r);
    EscapeIsRead(d, u);
  }

  lemma QuoteTailPrefixFree(s: string, t: string, r: string, u: string)
    requires QuoteTail(s) + r == QuoteTail(t) + u
    ensures s == t && r == u
  {
    hide QuoteTail, ReadString;
    StringIsRead(s, r);
    StringIsRead(t, u);
  }

  lemma NumberPrefixFree(a: string, b: string, r: string, u: string)
    requires forall i :: 0 <= i < |a| ==> NumberChar(a[i])
    requires forall i :: 0 <= i < |b| ==> NumberChar(b[i])
    requires Follows(r) && Follows(u) && a + r == b + u
    ensures a == b && r == u
  {
    NumberIsRead(a, r);
    NumberIsRead(b, u);
    assert a == (a + r)[..|a|] && b == (b + u)[..|b|];
    Behind(a, r);
    Behind(b, u);
  }

  /** No canonical text is cut short inside another: two values whose texts start a common text,
      each followed by something that may follow a value, are equal. */
  lemma PrintPrefixFree(v: Json, w: Json, r: string, u: string)
    requires Follows(r) && Follows(u) && Print(v) + r == Print(w) + u
    ensures v == w && r == u
  {
    hide Print, ReadValue;
    ValueIsRead(v, r);
    ValueIsRead(w, u);
  }

  /** `canon.JSON` is injective on decoded values, so equal texts, and equal hashes of an injective
      digest, mean equal values. */
  lemma JsonIsInjective(v: Json, w: Json)
    requires JSON(v) == JSON(w)
    ensures v == w
  {
    hide JSON, Parse;
    ParseOfJson(v);
    ParseOfJson(w);
  }
}
