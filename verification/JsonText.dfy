/** The ordered JSON boundary: parsing a document and serializing it back. */
module JsonText {
  import opened JsonValue
  import opened Keys
  import opened JsonNumber
  import opened JsonString

  predicate IsSpace(c: char) { c in {' ', '\t', '\n', '\r'} }

  function SkipSpace(s: string): (r: string)
    ensures |r| <= |s| && (r != "" ==> !IsSpace(r[0]))
  {
    if s != "" && IsSpace(s[0]) then SkipSpace(s[1..]) else s
  }

  function ParseValue(round: Rounding, s: string): (r: Result<Value>)
    ensures r.Ok? ==> |r.rest| < |s|
    decreases |s|, 0
  {
    if s == "" then Err
    else if s[0] == '{' then
      var t := SkipSpace(s[1..]);
      if Starts(t, '}') then Ok(EMPTY_OBJECT, t[1..]) else ParseMembers(round, t, EMPTY_OBJECT)
    else if s[0] == '[' then
      var t := SkipSpace(s[1..]);
      if Starts(t, ']') then Ok(Arr([]), t[1..]) else ParseElements(round, t, [])
    else if s[0] == '"' then
      match ParseString(s)
      case Err => Err
      case Ok(text, rest) => Ok(Str(text), rest)
    else if s[0] == 't' then (if "true" <= s then Ok(Bool(true), s[4..]) else Err)
    else if s[0] == 'f' then (if "false" <= s then Ok(Bool(false), s[5..]) else Err)
    else if s[0] == 'n' then (if "null" <= s then Ok(Null, s[4..]) else Err)
    else if s[0] == '-' || IsDigit(s[0]) then ParseNumber(round, s)
    else Err
  }

  // The member loop of an object; `o` holds the members read so far.
  function ParseMembers(round: Rounding, s: string, o: Value): (r: Result<Value>)
    requires o.Obj?
    ensures r.Ok? ==> |r.rest| < |s| && r.value.Obj?
    decreases |s|, 1
  {
    match ParseString(SkipSpace(s))
    case Err => Err
    case Ok(key, s1) =>
      var s2 := SkipSpace(s1);
      if !Starts(s2, ':') then Err
      else match ParseValue(round, SkipSpace(s2[1..]))
        case Err => Err
        case Ok(v, s3) =>
          var put, s4 := PutObject(o, key, v), SkipSpace(s3);
          if Starts(s4, '}') then Ok(put, s4[1..])
          else if !Starts(s4, ',') || SkipSpace(s4[1..]) == "" then Err
          else ParseMembers(round, SkipSpace(s4[1..]), put)
  }

  function ParseElements(round: Rounding, s: string, items: seq<Value>): (r: Result<Value>)
    ensures r.Ok? ==> |r.rest| < |s|
    decreases |s|, 1
  {
    match ParseValue(round, SkipSpace(s))
    case Err => Err
    case Ok(v, s1) =>
      var s2 := SkipSpace(s1);
      if Starts(s2, ']') then Ok(Arr(items + [v]), s2[1..])
      else if !Starts(s2, ',') || SkipSpace(s2[1..]) == "" then Err
      else ParseElements(round, SkipSpace(s2[1..]), items + [v])
  }

  datatype Document = Malformed | Parsed(value: Value)

  /** Parses one complete JSON text. */
  function Parse(round: Rounding, s: string): Document {
    match ParseValue(round, SkipSpace(s))
    case Err => Malformed
    case Ok(v, rest) => if SkipSpace(rest) == "" then Parsed(v) else Malformed
  }

  // ----- Property order -----

  // The value of a JavaScript array index, a canonical decimal below 2^32 - 1; -1 for any other key.
  function IndexValue(key: string): int {
    if key != "" && AllDigits(key) && (key[0] == '0' ==> key == "0") && NatValue(key) < 0xFFFF_FFFF then NatValue(key) else -1
  }

  predicate IsIndex(key: string) { IndexValue(key) >= 0 }

  function InsertIndex(key: string, keys: seq<string>): (r: seq<string>)
    ensures forall k :: k in r <==> k == key || k in keys
  {
    if keys == [] || IndexValue(key) <= IndexValue(keys[0]) then [key] + keys else [keys[0]] + InsertIndex(key, keys[1..])
  }

  lemma {:induction false} InsertKeepsDistinct(key: string, keys: seq<string>)
    requires Distinct(keys) && key !in keys
    ensures Distinct(InsertIndex(key, keys))
  {
    DistinctConcat([key], keys);
    if keys != [] {
      InsertKeepsDistinct(key, keys[1..]);
      DistinctConcat([keys[0]], InsertIndex(key, keys[1..]));
    }
  }

  function SortIndices(keys: seq<string>): (r: seq<string>)
    ensures forall k :: k in r <==> k in keys
    ensures Distinct(keys) ==> Distinct(r)
  {
    if keys == [] then [] else
      var rest := SortIndices(keys[1..]);
      assert Distinct(keys) ==> Distinct(InsertIndex(keys[0], rest)) by {
        if Distinct(keys) { InsertKeepsDistinct(keys[0], rest); }
      }
      InsertIndex(keys[0], rest)
  }

  function Indices(keys: seq<string>): (r: seq<string>)
    ensures forall k :: k in r <==> k in keys && IsIndex(k)
    ensures Distinct(keys) ==> Distinct(r)
  {
    if keys == [] then [] else (if IsIndex(keys[0]) then [keys[0]] else []) + Indices(keys[1..])
  }

  function NonIndices(keys: seq<string>): (r: seq<string>)
    ensures forall k :: k in r <==> k in keys && !IsIndex(k)
    ensures Distinct(keys) ==> Distinct(r)
  {
    if keys == [] then [] else (if IsIndex(keys[0]) then [] else [keys[0]]) + NonIndices(keys[1..])
  }

  /** JavaScript enumerates array indices first, in numeric order, then the other keys as inserted. */
  function PropertyOrder(keys: seq<string>): (r: seq<string>)
    ensures forall k :: k in r <==> k in keys
    ensures Distinct(keys) ==> Distinct(r)
  {
    assert Distinct(keys) ==> Distinct(SortIndices(Indices(keys)) + NonIndices(keys)) by {
      if Distinct(keys) { DistinctConcat(SortIndices(Indices(keys)), NonIndices(keys)); }
    }
    SortIndices(Indices(keys)) + NonIndices(keys)
  }

  // ----- Serializing -----

  // A line break and the indentation of `depth`; nothing in the compact form.
  function Break(pretty: bool, depth: nat): string {
    if pretty then "\n" + seq(2 * depth, _ => ' ') else ""
  }

  function Colon(pretty: bool): string { if pretty then ": " else ":" }

  function Write(pretty: bool, v: Value, depth: nat): string
    decreases v, 1, 0
  {
    match v
    case Null => "null"
    case Bool(b) => if b then "true" else "false"
    case Num(n) => FormatNumber(n)
    case Str(s) => WriteString(s)
    case Arr(items) => if items == [] then "[]" else "[" + WriteElements(pretty, v, 0, depth)
    case Obj(_, m) =>
      var keys := PropertyOrder(ObjectKeys(v));
      if keys == [] then "{}" else "{" + WriteMembers(pretty, v, keys, depth)
  }

  // The elements from index `i` on, with the closing bracket.
  function WriteElements(pretty: bool, v: Value, i: nat, depth: nat): string
    requires v.Arr? && i <= |v.items|
    decreases v, 0, |v.items| - i
  {
    if i == |v.items| then Break(pretty, depth) + "]"
    else
      Break(pretty, depth + 1) + (Write(pretty, v.items[i], depth + 1) +
        ((if i + 1 < |v.items| then "," else "") + WriteElements(pretty, v, i + 1, depth)))
  }

  // The listed members, with the closing brace.
  function WriteMembers(pretty: bool, v: Value, keys: seq<string>, depth: nat): string
    requires v.Obj? && forall k :: k in keys ==> k in v.m
    decreases v, 0, |keys|
  {
    if keys == [] then Break(pretty, depth) + "}"
    else
      Break(pretty, depth + 1) + (WriteString(keys[0]) + (Colon(pretty) + (Write(pretty, v.m[keys[0]], depth + 1) +
        ((if |keys| > 1 then "," else "") + WriteMembers(pretty, v, keys[1..], depth)))))
  }

  /** JSON.stringify(value, null, 2). */
  function Serialize(v: Value): string { Write(true, v, 0) }

  function SerializeFile(v: Value): string { Serialize(v) + "\n" }

  // Where compactSerialize stands in the text it filters.
  datatype Scan = Outside | Inside | Escaped

  function Step(st: Scan, c: char): Scan {
    match st
    case Outside => if c == '"' then Inside else Outside
    case Inside => if c == '\\' then Escaped else if c == '"' then Outside else Inside
    case Escaped => Inside
  }

  function Squeeze(s: string, st: Scan): string {
    if s == "" then ""
    else (if st == Outside && IsSpace(s[0]) then "" else [s[0]]) + Squeeze(s[1..], Step(st, s[0]))
  }

  /** JSON.stringify(value): the serialized text without the whitespace between tokens. */
  function CompactSerialize(v: Value): string { Squeeze(Serialize(v), Outside) }
}
