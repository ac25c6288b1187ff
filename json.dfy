/** JSON values and the accessors of Android's bundled org.json that the app
    calls: `opt`, `has`, `optString`, `optBoolean`, `optJSONObject`,
    `optJSONArray`, and the JSON text of a value (`toString`). */
module Json {
  import opened Common

  /** A parsed JSON value. Numbers are integral (see the README). An object
      keeps its members in order; a key that occurs twice has the value of its
      last occurrence, as the Android parser overwrites earlier ones. */
  datatype Json =
    | JNull
    | JBool(b: bool)
    | JNum(n: int)
    | JStr(s: string)
    | JArr(items: seq<Json>)
    | JObj(fields: seq<(string, Json)>)

  type Fields = seq<(string, Json)>

  const LONG_MIN: int := -0x8000_0000_0000_0000
  const LONG_MAX: int := 0x7FFF_FFFF_FFFF_FFFF

  /** `Number.toInt()` of a parsed integral literal. One that fits in 64 bits
      is read as an Integer or a Long and keeps its low 32 bits; a wider one is
      read as a Double, whose conversion saturates. */
  function NumberToInt(n: int): (r: int)
    ensures IsInt32(r)
    ensures IsInt32(n) ==> r == n
    ensures LONG_MIN <= n <= LONG_MAX ==> (r - n) % 0x1_0000_0000 == 0
    ensures n > LONG_MAX ==> r == INT_MAX
    ensures n < LONG_MIN ==> r == INT_MIN
  {
    if n > LONG_MAX then INT_MAX
    else if n < LONG_MIN then INT_MIN
    else ToInt32(n)
  }

  /** `opt(key)`: None for a missing key, the value (JNull for JSON null) otherwise. */
  function Opt(fields: Fields, key: string): (r: Option<Json>)
    ensures r.None? <==> forall i :: 0 <= i < |fields| ==> fields[i].0 != key
    ensures r.Some? ==>
      exists i :: 0 <= i < |fields| && fields[i] == (key, r.value) && forall j :: i < j < |fields| ==> fields[j].0 != key
  {
    if |fields| == 0 then None
    else if fields[|fields| - 1].0 == key then Some(fields[|fields| - 1].1)
    else Opt(fields[..|fields| - 1], key)
  }

  /** The value `opt` finds is the one of the last member with the key. */
  lemma OptAt(fields: Fields, i: nat, key: string, v: Json)
    requires i < |fields| && fields[i] == (key, v)
    requires forall j :: i < j < |fields| ==> fields[j].0 != key
    ensures Opt(fields, key) == Some(v)
  {
  }

  /** `has(key)`: the key is present, even when its value is JSON null. */
  predicate Has(fields: Fields, key: string) {
    Opt(fields, key).Some?
  }

  /** The text `optString`/`getString` give for a present value: a string as it
      is, anything else as its JSON text (JSON null as "null"). */
  function ValueText(v: Json): (r: string)
    ensures v.JStr? ==> r == v.s
    ensures v.JNull? ==> r == "null"
    ensures v.JArr? ==> |r| > 0 && r[0] == '['
    ensures v.JObj? ==> |r| > 0 && r[0] == '{'
  {
    if v.JStr? then v.s else Render(v)
  }

  /** `optString(key, fallback)` */
  function OptStringOr(fields: Fields, key: string, fallback: string): (r: string)
    ensures !Has(fields, key) ==> r == fallback
    ensures Has(fields, key) ==> r == ValueText(Opt(fields, key).value)
  {
    match Opt(fields, key)
    case None => fallback
    case Some(v) => ValueText(v)
  }

  /** `optString(key)` */
  function OptString(fields: Fields, key: string): (r: string)
    ensures !Has(fields, key) ==> r == ""
  {
    OptStringOr(fields, key, "")
  }

  /** Android's JSON.toBoolean: a boolean, or the text "true"/"false" in any case. */
  function AsBoolean(v: Json): (r: Option<bool>)
    ensures v.JBool? ==> r == Some(v.b)
    ensures r.Some? ==> v.JBool? || v.JStr?
  {
    match v
    case JBool(b) => Some(b)
    case JStr(s) =>
      if EqualsIgnoreCase(s, "true") then Some(true)
      else if EqualsIgnoreCase(s, "false") then Some(false)
      else None
    case _ => None
  }

  /** `optBoolean(key, fallback)` */
  function OptBoolean(fields: Fields, key: string, fallback: bool): (r: bool)
    ensures !Has(fields, key) ==> r == fallback
    ensures Opt(fields, key) == Some(JBool(true)) ==> r
    ensures Opt(fields, key) == Some(JBool(false)) ==> !r
  {
    match Opt(fields, key)
    case None => fallback
    case Some(v) => if AsBoolean(v).Some? then AsBoolean(v).value else fallback
  }

  /** `optJSONObject(key)` */
  function OptObject(fields: Fields, key: string): (r: Option<Fields>)
    ensures r.Some? <==> Has(fields, key) && Opt(fields, key).value.JObj?
    ensures r.Some? ==> Opt(fields, key) == Some(JObj(r.value))
  {
    match Opt(fields, key)
    case Some(JObj(f)) => Some(f)
    case _ => None
  }

  /** `optJSONArray(key)` */
  function OptArray(fields: Fields, key: string): (r: Option<seq<Json>>)
    ensures r.Some? <==> Has(fields, key) && Opt(fields, key).value.JArr?
    ensures r.Some? ==> Opt(fields, key) == Some(JArr(r.value))
  {
    match Opt(fields, key)
    case Some(JArr(a)) => Some(a)
    case _ => None
  }

  /** `optJSONObject(i)` on an array. */
  function ItemObject(items: seq<Json>, i: nat): (r: Option<Fields>)
    ensures r.Some? <==> i < |items| && items[i].JObj?
  {
    if i < |items| && items[i].JObj? then Some(items[i].fields) else None
  }

  // ------------------------------------------------------------------
  // JSON text

  /** One character of a string literal, escaped as Android's JSONStringer does. */
  function EscapeChar(c: char): (r: string)
    ensures |r| >= 1
  {
    if c == '"' || c == '\\' || c == '/' then ['\\', c]
    else if c == '\t' then "\\t"
    else if c == '\U{8}' then "\\b"
    else if c == '\n' then "\\n"
    else if c == '\r' then "\\r"
    else if c == '\U{C}' then "\\f"
    else if c as int <= 0x1F then "\\u00" + [LowerHexDigit(c as int / 16), LowerHexDigit(c as int % 16)]
    else [c]
  }

  function LowerHexDigit(d: nat): char
    requires d < 16
  {
    if d < 10 then ('0' as int + d) as char else ('a' as int + d - 10) as char
  }

  function Escape(s: string): string {
    if |s| == 0 then "" else EscapeChar(s[0]) + Escape(s[1..])
  }

  function Quote(s: string): (r: string)
    ensures |r| >= 2 && r[0] == '"'
  {
    "\"" + Escape(s) + "\""
  }

  /** The compact JSON text of a value (`toString`). */
  function Render(v: Json): (r: string)
    ensures |r| >= 1
    ensures v.JArr? ==> r[0] == '['
    ensures v.JObj? ==> r[0] == '{'
    ensures v.JStr? ==> r[0] == '"'
    decreases v
  {
    match v
    case JNull => "null"
    case JBool(b) => if b then "true" else "false"
    case JNum(n) => IntToString(n)
    case JStr(s) => Quote(s)
    case JArr(items) => "[" + RenderItems(items) + "]"
    case JObj(fields) => "{" + RenderFields(fields) + "}"
  }

  function RenderItems(items: seq<Json>): string
    decreases items
  {
    if |items| == 0 then ""
    else Render(items[0]) + (if |items| == 1 then "" else "," + RenderItems(items[1..]))
  }

  function RenderFields(fields: Fields): string
    decreases fields
  {
    if |fields| == 0 then ""
    else
      var f := fields[0];
      assert f.1 < f && f in fields;
      Quote(f.0) + ":" + Render(f.1) + (if |fields| == 1 then "" else "," + RenderFields(fields[1..]))
  }
}
