/**
 * The loosely typed payloads of graph projection events, and how text is read out of them.
 *
 * A number carries the text Python shows for it, and so does a list or an object; that rendering
 * is foreign.  Only the truth value of a number matters otherwise.
 */
module GraphPayload {
  datatype Json =
    | Null
    | Bool(flag: bool)
    | Number(zero: bool, shown: string)
    | Text(text: string)
    | List(items: seq<Json>, shown: string)
    | Object(fields: Fields, shown: string)

  type Fields = map<string, Json>

  predicate Truthy(v: Json) {
    match v
    case Null => false
    case Bool(flag) => flag
    case Number(zero, _) => !zero
    case Text(text) => text != ""
    case List(items, _) => items != []
    case Object(fields, _) => |fields| != 0
  }

  /** Python's `a or b`. */
  function Or(a: Json, b: Json): Json { if Truthy(a) then a else b }

  function OrText(a: string, b: string): string { if a != "" then a else b }

  /** `str(v or "")`. */
  function Shown(v: Json): string {
    if !Truthy(v) then ""
    else match v
      case Null => ""
      case Bool(_) => "True"
      case Number(_, shown) => shown
      case Text(text) => text
      case List(_, shown) => shown
      case Object(_, shown) => shown
  }

  predicate IsSpace(c: char) {
    c in "\t\n\r \U{0B}\U{0C}\U{1C}\U{1D}\U{1E}\U{1F}\U{85}\U{A0}\U{1680}\U{2028}\U{2029}\U{202F}\U{205F}\U{3000}" ||
    '\U{2000}' <= c <= '\U{200A}'
  }

  function StripLeft(s: string): string {
    if s != "" && IsSpace(s[0]) then StripLeft(s[1..]) else s
  }

  function StripRight(s: string): string {
    if s != "" && IsSpace(s[|s| - 1]) then StripRight(s[..|s| - 1]) else s
  }

  function Strip(s: string): string { StripRight(StripLeft(s)) }

  function Str(v: Json): string { Strip(Shown(v)) }

  function Get(fields: Fields, key: string): Json {
    if key in fields then fields[key] else Null
  }

  function Read(fields: Fields, key: string): string { Str(Get(fields, key)) }

  /** The field as an object; anything else counts as an empty one. */
  function Nested(fields: Fields, key: string): Fields {
    var v := Get(fields, key);
    if v.Object? then v.fields else map[]
  }

  /** The objects of a list, in order; anything else in it is skipped. */
  function Objects(items: seq<Json>): seq<Fields> {
    if items == [] then []
    else
      var last := items[|items| - 1];
      Objects(items[..|items| - 1]) + if last.Object? then [last.fields] else []
  }

  function Strings(items: seq<Json>): (r: seq<string>)
    ensures "" !in r
  {
    if items == [] then []
    else
      var last := Str(items[|items| - 1]);
      Strings(items[..|items| - 1]) + if last != "" then [last] else []
  }

  function ObjectList(fields: Fields, key: string): seq<Fields> {
    var v := Get(fields, key);
    if v.List? then Objects(v.items) else []
  }

  function StringList(fields: Fields, key: string): (r: seq<string>)
    ensures "" !in r
  {
    var v := Get(fields, key);
    if v.List? then Strings(v.items) else []
  }

  predicate StartsWith(s: string, prefix: string) { prefix <= s }

  predicate EndsWith(s: string, suffix: string) {
    |suffix| <= |s| && s[|s| - |suffix|..] == suffix
  }

  /** What follows the last dot; the whole text when there is none. */
  function AfterLastDot(s: string): string {
    if s == "" || s[|s| - 1] == '.' then "" else AfterLastDot(s[..|s| - 1]) + [s[|s| - 1]]
  }

  // ---------------------------------------------------------------- what is read

  lemma FalsyExactly(v: Json)
    ensures !Truthy(v) <==>
      || v in {Null, Bool(false), Text("")} || (v.Number? && v.zero)
      || (v.List? && v.items == []) || (v.Object? && v.fields == map[])
  {
  }

  lemma {:induction false} StripLeftExactly(s: string) returns (i: nat)
    ensures i <= |s| && StripLeft(s) == s[i..] && (forall k :: 0 <= k < i ==> IsSpace(s[k]))
    ensures i < |s| ==> !IsSpace(s[i])
  {
    hide IsSpace;
    if s != "" && IsSpace(s[0]) {
      var rest := StripLeftExactly(s[1..]);
      i := rest + 1;
    } else {
      i := 0;
    }
  }

  lemma {:induction false} StripRightExactly(s: string) returns (j: nat)
    ensures j <= |s| && StripRight(s) == s[..j] && (forall k :: j <= k < |s| ==> IsSpace(s[k]))
    ensures j > 0 ==> !IsSpace(s[j - 1])
  {
    hide IsSpace;
    if s != "" && IsSpace(s[|s| - 1]) {
      j := StripRightExactly(s[..|s| - 1]);
    } else {
      j := |s|;
    }
  }

  /** Stripping takes the white space off both ends and nothing else. */
  lemma StripExactly(s: string) returns (i: nat, j: nat)
    ensures i <= j <= |s| && Strip(s) == s[i..j]
    ensures forall k :: 0 <= k < i || j <= k < |s| ==> IsSpace(s[k])
    ensures i < j ==> !IsSpace(s[i]) && !IsSpace(s[j - 1])
  {
    hide IsSpace;
    i := StripLeftExactly(s);
    var kept := StripRightExactly(s[i..]);
    j := i + kept;
  }

  lemma StripIsIdempotent(s: string)
    ensures Strip(Strip(s)) == Strip(s)
  {
    hide IsSpace;
    var i, j := StripExactly(s);
    var k, l := StripExactly(Strip(s));
    var t := Strip(s);
    if t != "" {
      assert t[0] == s[i] && t[|t| - 1] == s[j - 1];
    }
  }

  /** A text field is read without its surrounding white space, and anything missing or falsy as "". */
  lemma FieldsAreReadExactly(fields: Fields, key: string)
    ensures key !in fields || !Truthy(fields[key]) ==> Read(fields, key) == ""
    ensures key in fields && fields[key].Text? ==> Read(fields, key) == Strip(fields[key].text)
    ensures key in fields && Truthy(fields[key]) && !fields[key].Text? ==>
      Read(fields, key) == Strip(if fields[key].Bool? then "True" else fields[key].shown)
  {
  }

  /** A list is read item by item, in order; items without text are left out. */
  lemma {:induction false} StringsExactly(items: seq<Json>, s: string)
    ensures s in Strings(items) <==> s != "" && exists v :: v in items && Str(v) == s
  {
    hide Str;
    if items != [] {
      var n := |items| - 1;
      StringsExactly(items[..n], s);
      assert items == items[..n] + [items[n]];
    }
  }

  lemma {:induction false} StringsOfBoth(a: seq<Json>, b: seq<Json>)
    ensures Strings(a + b) == Strings(a) + Strings(b) && Objects(a + b) == Objects(a) + Objects(b)
  {
    hide Str;
    if b == [] {
      assert a + b == a;
    } else {
      assert (a + b)[..|a + b| - 1] == a + b[..|b| - 1];
      StringsOfBoth(a, b[..|b| - 1]);
    }
  }

  lemma {:induction false} ObjectsExactly(items: seq<Json>, fields: Fields)
    ensures fields in Objects(items) <==> exists v :: v in items && v.Object? && v.fields == fields
  {
    if items != [] {
      var n := |items| - 1;
      ObjectsExactly(items[..n], fields);
      assert items == items[..n] + [items[n]];
    }
  }

  /** Only a list yields its texts and objects. */
  lemma ListsAreReadExactly(fields: Fields, key: string, s: string, found: Fields)
    ensures s in StringList(fields, key) <==>
      && s != "" && key in fields && fields[key].List? && exists v :: v in fields[key].items && Str(v) == s
    ensures found in ObjectList(fields, key) <==>
      && key in fields && fields[key].List?
      && exists v :: v in fields[key].items && v.Object? && v.fields == found
  {
    hide Str;
    if key in fields && fields[key].List? {
      StringsExactly(fields[key].items, s);
      ObjectsExactly(fields[key].items, found);
    }
  }

  /** The text after the last dot is the longest ending that has none. */
  lemma {:induction false} AfterLastDotExactly(s: string) returns (i: nat)
    ensures i <= |s| && AfterLastDot(s) == s[i..] && (forall k :: i <= k < |s| ==> s[k] != '.')
    ensures i > 0 ==> s[i - 1] == '.'
  {
    if s != "" && s[|s| - 1] != '.' {
      i := AfterLastDotExactly(s[..|s| - 1]);
      assert s[i..] == s[..|s| - 1][i..] + [s[|s| - 1]];
    } else {
      i := |s|;
    }
  }
}
