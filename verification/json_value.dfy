/**
 * JSON values as the hubs see them: request bodies after `request.json()`, stored
 * chat messages, and the text `JSON.stringify` makes of them. Numbers are integers
 * (the hubs only ever put millisecond timestamps into JSON).
 */
module JsonValue {
  import opened Wrappers

  datatype Json =
    | JNull
    | JBool(b: bool)
    | JNum(n: int)
    | JStr(s: string)
    | JArr(items: seq<Json>)
    | JObj(fields: seq<Field>)

  /** One own property of an object, in insertion order. */
  datatype Field = Field(key: string, value: Json)

  /** `{ success: true }`, the acknowledgement both SSE hubs send. */
  const SuccessAck: Json := JObj([Field("success", JBool(true))])

  /** Holds when a reader that splits lines on CR or LF sees `s` as one line. */
  predicate SingleLine(s: string)
  {
    forall i :: 0 <= i < |s| ==> s[i] != '\n' && s[i] != '\r'
  }

  /** The property names of an object, in order. */
  function Keys(fields: seq<Field>): (r: seq<string>)
    ensures |r| == |fields|
  {
    seq(|fields|, i requires 0 <= i < |fields| => fields[i].key)
  }

  /** Property read `obj[key]`; None stands for `undefined`. */
  function Lookup(fields: seq<Field>, key: string): (r: Option<Json>)
    ensures r.Some? <==> key in Keys(fields)
  {
    if fields == [] then None
    else if fields[0].key == key then
      assert Keys(fields)[0] == key;
      Some(fields[0].value)
    else
      assert Keys(fields) == [fields[0].key] + Keys(fields[1..]);
      Lookup(fields[1..], key)
  }

  /**
   * Property assignment `obj[key] = v`: an existing property keeps its place, a
   * new property goes after all the others. JavaScript lists integer-like keys
   * ("0", "12") first in ascending order, so this is its order for the other
   * keys only; the one key the hub assigns, "timestamp", is one of those.
   */
  function SetField(fields: seq<Field>, key: string, v: Json): (r: seq<Field>)
    ensures Keys(r) == if key in Keys(fields) then Keys(fields) else Keys(fields) + [key]
  {
    if fields == [] then [Field(key, v)]
    else if fields[0].key == key then
      var r := [Field(key, v)] + fields[1..];
      assert Keys(fields)[0] == key;
      assert Keys(r) == Keys(fields);
      r
    else
      var rest := SetField(fields[1..], key, v);
      assert Keys(fields) == [fields[0].key] + Keys(fields[1..]);
      assert Keys([fields[0]] + rest) == [fields[0].key] + Keys(rest);
      [fields[0]] + rest
  }

  /** After `obj[key] = v`, reading `key` gives `v` and every other property reads as before. */
  lemma {:induction false} SetFieldLookup(fields: seq<Field>, key: string, v: Json, k: string)
    ensures Lookup(SetField(fields, key, v), k) == if k == key then Some(v) else Lookup(fields, k)
  {
    if fields != [] && fields[0].key != key {
      SetFieldLookup(fields[1..], key, v, k);
    }
  }

  function DigitChar(d: nat): (c: char)
    requires d < 10
    ensures '0' <= c <= '9'
  {
    ['0', '1', '2', '3', '4', '5', '6', '7', '8', '9'][d]
  }

  function HexChar(d: nat): (c: char)
    requires d < 16
    ensures c != '\n' && c != '\r'
  {
    "0123456789abcdef"[d]
  }

  /** Decimal digits of `n`, most significant first, without leading zeros. */
  function NatToDecimal(n: nat): (r: string)
    ensures 1 <= |r| && SingleLine(r)
    ensures forall i :: 0 <= i < |r| ==> '0' <= r[i] <= '9'
  {
    if n < 10 then [DigitChar(n)] else NatToDecimal(n / 10) + [DigitChar(n % 10)]
  }

  /** `String(n)` for an integer-valued number below 10^21 in magnitude. */
  function IntToDecimal(n: int): (r: string)
    ensures SingleLine(r)
  {
    if n < 0 then "-" + NatToDecimal(-n) else NatToDecimal(n)
  }

  /** The escape JSON.stringify writes for one character of a string. */
  function EscapeChar(c: char): (r: string)
    ensures SingleLine(r)
  {
    if c == '\U{8}' then "\\b"
    else if c == '\t' then "\\t"
    else if c == '\n' then "\\n"
    else if c == '\U{C}' then "\\f"
    else if c == '\r' then "\\r"
    else if c == '"' then "\\\""
    else if c == '\\' then "\\\\"
    else if c < ' ' then "\\u00" + [HexChar(c as int / 16), HexChar(c as int % 16)]
    else [c]
  }

  function EscapeString(s: string): (r: string)
    ensures SingleLine(r)
  {
    if s == [] then [] else EscapeChar(s[0]) + EscapeString(s[1..])
  }

  /** Text without control characters, quotes or backslashes is written as is. */
  lemma {:induction false} EscapePlain(s: string)
    requires forall i :: 0 <= i < |s| ==> ' ' <= s[i] && s[i] != '"' && s[i] != '\\'
    ensures EscapeString(s) == s
  {
    if s != [] {
      EscapePlain(s[1..]);
    }
  }

  /** A string literal in JSON text. */
  function Quote(s: string): (r: string)
    ensures SingleLine(r)
  {
    "\"" + EscapeString(s) + "\""
  }

  /** `parts.join(sep)`. */
  function Join(parts: seq<string>, sep: string): (r: string)
    ensures SingleLine(sep) && (forall i :: 0 <= i < |parts| ==> SingleLine(parts[i])) ==> SingleLine(r)
  {
    if parts == [] then []
    else if |parts| == 1 then parts[0]
    else parts[0] + sep + Join(parts[1..], sep)
  }

  /** One `"key":value` member of an object's JSON text. */
  function Member(key: string, valueText: string): (r: string)
    ensures SingleLine(valueText) ==> SingleLine(r)
  {
    Quote(key) + ":" + valueText
  }

  /**
   * `JSON.stringify(j)` without indentation. Every line terminator inside a string
   * is escaped, so the text is always a single line.
   */
  function Stringify(j: Json): (r: string)
    ensures SingleLine(r)
    decreases j
  {
    match j
    case JNull => "null"
    case JBool(b) => if b then "true" else "false"
    case JNum(n) => IntToDecimal(n)
    case JStr(s) => Quote(s)
    case JArr(items) =>
      var parts := seq(|items|, i requires 0 <= i < |items| => Stringify(items[i]));
      assert forall i :: 0 <= i < |parts| ==> SingleLine(parts[i]);
      "[" + Join(parts, ",") + "]"
    case JObj(fields) =>
      var parts := seq(|fields|, i requires 0 <= i < |fields| => Member(fields[i].key, Stringify(fields[i].value)));
      assert forall i :: 0 <= i < |parts| ==> SingleLine(parts[i]);
      "{" + Join(parts, ",") + "}"
  }
}
