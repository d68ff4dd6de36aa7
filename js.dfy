/**
 * The JavaScript values the client handles: the values JSON.parse can return,
 * their truthiness, own-property reads, `JSON.stringify` and the `String(...)`
 * coercion that `localStorage.setItem` applies to the value it stores.
 * Numbers are integers here; floating point is not modelled.
 */
module Js {
  import opened Wrappers

  datatype Json =
    | JNull
    | JBool(b: bool)
    | JNum(n: int)
    | JStr(s: string)
    | JArr(items: seq<Json>)
    | JObj(fields: seq<(string, Json)>)

  /** JavaScript truthiness (`if (v)`, `v || fallback`). Arrays and objects are always truthy. */
  predicate Truthy(v: Json) {
    match v
    case JNull => false
    case JBool(b) => b
    case JNum(n) => n != 0
    case JStr(s) => s != ""
    case JArr(_) => true
    case JObj(_) => true
  }

  /** Truthiness of a property read; `None` is `undefined`, which is falsy. */
  predicate TruthyProp(p: Option<Json>) {
    p.Some? && Truthy(p.value)
  }

  /** The last binding of `key` among an object's fields (JSON.parse keeps the last of repeated keys). */
  function Lookup(fields: seq<(string, Json)>, key: string): (r: Option<Json>)
    ensures r.Some? <==> exists i :: 0 <= i < |fields| && fields[i].0 == key
    ensures r.Some? ==> exists i :: 0 <= i < |fields| && fields[i] == (key, r.value) &&
                                    forall j :: i < j < |fields| ==> fields[j].0 != key
  {
    if |fields| == 0 then None
    else if fields[|fields| - 1].0 == key then Some(fields[|fields| - 1].1)
    else Lookup(fields[..|fields| - 1], key)
  }

  /**
   * The property read `v.key` on a value that is not `null` (reading a property
   * of `null` throws a TypeError; callers branch on `JNull` first). Only objects
   * carry the named properties the program reads; on anything else the read is
   * `undefined`.
   */
  function Prop(v: Json, key: string): (r: Option<Json>)
    requires !v.JNull?
    ensures r.Some? ==> v.JObj?
  {
    if v.JObj? then Lookup(v.fields, key) else None
  }

  /** The keys of an object's fields are pairwise distinct. */
  predicate DistinctKeys(fields: seq<(string, Json)>) {
    forall a, b :: 0 <= a < b < |fields| ==> fields[a].0 != fields[b].0
  }

  /** With distinct keys, looking up a field's key finds that field's value. */
  lemma LookupDistinct(fields: seq<(string, Json)>, i: int)
    requires 0 <= i < |fields| && DistinctKeys(fields)
    ensures Lookup(fields, fields[i].0) == Some(fields[i].1)
  {
    var r := Lookup(fields, fields[i].0);
    var j :| 0 <= j < |fields| && fields[j] == (fields[i].0, r.value) &&
             forall k :: j < k < |fields| ==> fields[k].0 != fields[i].0;
    assert j == i;
  }

  /** `Object.keys(v).length > 0` for a value that is not `null`. */
  predicate HasKeys(v: Json)
    requires !v.JNull?
  {
    match v
    case JStr(s) => s != ""
    case JArr(items) => items != []
    case JObj(fields) => fields != []
    case _ => false
  }

  function DigitChar(d: nat): char
    requires d < 10
  {
    "0123456789"[d]
  }

  /** Decimal text of a natural number, most significant digit first. */
  function NatToString(n: nat): string
    decreases n
  {
    if n < 10 then [DigitChar(n)] else NatToString(n / 10) + [DigitChar(n % 10)]
  }

  /** Decimal text of an integer, as JavaScript prints an integral number. */
  function IntToString(n: int): string {
    if n < 0 then "-" + NatToString(-n) else NatToString(n)
  }

  function HexDigit(d: nat): char
    requires d < 16
  {
    "0123456789abcdef"[d]
  }

  /** The JSON text of one character inside a string literal. */
  function EscapeChar(c: char): string {
    var code := c as int;
    if c == '"' then "\\\""
    else if c == '\\' then "\\\\"
    else if c == '\n' then "\\n"
    else if c == '\r' then "\\r"
    else if c == '\t' then "\\t"
    else if code == 8 then "\\b"
    else if code == 12 then "\\f"
    else if code < 32 then "\\u00" + [HexDigit(code / 16), HexDigit(code % 16)]
    else [c]
  }

  function Escape(s: string): string
    decreases |s|
  {
    if s == [] then "" else EscapeChar(s[0]) + Escape(s[1..])
  }

  /** A JSON string literal. */
  function Quote(s: string): string {
    "\"" + Escape(s) + "\""
  }

  /** The texts in `parts`, separated by `sep`. */
  function Join(parts: seq<string>, sep: string): string
    decreases |parts|
  {
    if |parts| == 0 then ""
    else if |parts| == 1 then parts[0]
    else parts[0] + sep + Join(parts[1..], sep)
  }

  /** `JSON.stringify(v)` without indentation. */
  function Stringify(v: Json): string
    decreases v
  {
    match v
    case JNull => "null"
    case JBool(b) => if b then "true" else "false"
    case JNum(n) => IntToString(n)
    case JStr(s) => Quote(s)
    case JArr(items) =>
      "[" + Join(seq(|items|, i requires 0 <= i < |items| => Stringify(items[i])), ",") + "]"
    case JObj(fields) =>
      "{" + Join(seq(|fields|, i requires 0 <= i < |fields| =>
                     Quote(fields[i].0) + ":" + Stringify(fields[i].1)), ",") + "}"
  }

  /** `String(v)` where `None` is `undefined`: what `localStorage.setItem` stores for a non-string value. */
  function Coerce(p: Option<Json>): string {
    match p
    case None => "undefined"
    case Some(v) => ToText(v)
  }

  /** `String(v)` of a JSON value. An array joins its elements with commas, `null` elements as empty text. */
  function ToText(v: Json): string
    decreases v
  {
    match v
    case JNull => "null"
    case JBool(b) => if b then "true" else "false"
    case JNum(n) => IntToString(n)
    case JStr(s) => s
    case JArr(items) =>
      Join(seq(|items|, i requires 0 <= i < |items| =>
                 if items[i].JNull? then "" else ToText(items[i])), ",")
    case JObj(_) => "[object Object]"
  }

  /** `JSON.stringify(p)` stored through `setItem`: `JSON.stringify(undefined)` is `undefined`, stored as the text "undefined". */
  function StoredJson(p: Option<Json>): string {
    match p
    case None => "undefined"
    case Some(v) => Stringify(v)
  }

  predicate IsPrefix(t: string, s: string) {
    |t| <= |s| && s[..|t|] == t
  }

  /** `s.includes(t)`. */
  predicate Contains(s: string, t: string)
    decreases |s|
  {
    IsPrefix(t, s) || (|s| > 0 && Contains(s[1..], t))
  }

  /** The characters JSON text can start with. */
  predicate JsonStart(c: char) {
    c == 'n' || c == 't' || c == 'f' || c == '"' || c == '[' || c == '{' || c == '-' || '0' <= c <= '9'
  }

  lemma {:induction false} NatToStringStartsWithDigit(n: nat)
    ensures |NatToString(n)| > 0 && '0' <= NatToString(n)[0] <= '9'
    decreases n
  {
    if n >= 10 {
      NatToStringStartsWithDigit(n / 10);
    }
  }

  lemma JoinStartsWithFirst(parts: seq<string>, sep: string)
    requires |parts| > 0 && |parts[0]| > 0
    ensures |Join(parts, sep)| > 0 && Join(parts, sep)[0] == parts[0][0]
  {
  }

  /** Every JSON text is non-empty and starts with a character that can open a JSON value. */
  lemma StringifyStart(v: Json)
    ensures |Stringify(v)| > 0 && JsonStart(Stringify(v)[0])
  {
    match v
    case JNum(n) =>
      if n < 0 {
      } else {
        NatToStringStartsWithDigit(n);
      }
    case _ =>
  }

  /**
   * `JSON.stringify` never yields the text "[object Object]" that `String(...)`
   * gives for an object: an array's two leading characters are "[]" or "[" and
   * the start of its first element, never "[o".
   */
  lemma StringifyIsNotObjectCoercion(v: Json)
    ensures Stringify(v) != "[object Object]"
  {
    if v.JArr? && |v.items| > 0 {
      var parts := seq(|v.items|, i requires 0 <= i < |v.items| => Stringify(v.items[i]));
      StringifyStart(v.items[0]);
      JoinStartsWithFirst(parts, ",");
      assert Stringify(v)[1] == Stringify(v.items[0])[0];
    } else if v.JArr? {
      assert Stringify(v) == "[]";
    } else {
      StringifyStart(v);
      match v
      case JNum(n) =>
        if n < 0 {
          assert Stringify(v)[0] == '-';
        } else {
          NatToStringStartsWithDigit(n);
        }
      case _ =>
    }
  }
}
