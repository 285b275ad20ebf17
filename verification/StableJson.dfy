/**
 The canonical JSON text behind idempotency fingerprints, lib/idempotency.ts: object keys sorted at
 every depth, undefined printed as null. It is proved canonical and unambiguous with a reader.
 */
module StableJson {
  import opened Common
  import opened JsonText

  /**
   A JavaScript value as the fingerprint sees it. A number is the text JavaScript prints for it,
   which differs for different numbers.
   */
  datatype Json =
    | Undefined
    | Null
    | Bool(b: bool)
    | Number(text: Text)
    | Str(s: Text)
    | Array(items: seq<Json>)
    | Object(fields: seq<Entry<Json>>)

  datatype Entry<+V> = Entry(key: Text, value: V)

  const COMMA: Unit := 0x2C
  const COLON: Unit := 0x3A
  const OPEN_BRACKET: Unit := 0x5B
  const CLOSE_BRACKET: Unit := 0x5D
  const OPEN_BRACE: Unit := 0x7B
  const CLOSE_BRACE: Unit := 0x7D
  const NULL: Text := [0x6E, 0x75, 0x6C, 0x6C]
  const TRUE: Text := [0x74, 0x72, 0x75, 0x65]
  const FALSE: Text := [0x66, 0x61, 0x6C, 0x73, 0x65]

  /** Digits, sign, point and exponent. */
  predicate IsNumeric(u: Unit) {
    0x30 <= u <= 0x39 || u == 0x2D || u == 0x2B || u == 0x2E || u == 0x65
  }

  predicate StartsNumber(u: Unit) {
    0x30 <= u <= 0x39 || u == 0x2D
  }

  ghost predicate DistinctKeys<V>(entries: seq<Entry<V>>) {
    forall i, j :: 0 <= i < j < |entries| ==> entries[i].key != entries[j].key
  }

  /** What every JavaScript value satisfies: own keys are distinct, a number prints as a number. */
  ghost predicate WellFormed(v: Json) {
    match v
    case Number(text) => text != [] && StartsNumber(text[0]) && forall i :: 0 <= i < |text| ==> IsNumeric(text[i])
    case Array(items) => forall i :: 0 <= i < |items| ==> WellFormed(items[i])
    case Object(fields) => DistinctKeys(fields) && forall i :: 0 <= i < |fields| ==> WellFormed(fields[i].value)
    case _ => true
  }

  // ---- The printer ----

  function InsertEntry<V>(e: Entry<V>, sorted: seq<Entry<V>>): (r: seq<Entry<V>>)
    ensures multiset(r) == multiset{e} + multiset(sorted)
  {
    if sorted == [] || Less(e.key, sorted[0].key) then [e] + sorted
    else
      assert sorted == [sorted[0]] + sorted[1..];
      [sorted[0]] + InsertEntry(e, sorted[1..])
  }

  /** `Object.keys(object).sort()`, with what each key maps to carried along. */
  function SortEntries<V>(entries: seq<Entry<V>>): (r: seq<Entry<V>>)
    ensures multiset(r) == multiset(entries)
  {
    if entries == [] then []
    else
      assert entries == [entries[0]] + entries[1..];
      InsertEntry(entries[0], SortEntries(entries[1..]))
  }

  function Join(parts: seq<Text>): Text {
    if parts == [] then []
    else if |parts| == 1 then parts[0]
    else parts[0] + [COMMA] + Join(parts[1..])
  }

  function Members(entries: seq<Entry<Text>>): (parts: seq<Text>)
    ensures |parts| == |entries|
  {
    if entries == [] then []
    else [Quote(entries[0].key) + [COLON] + entries[0].value] + Members(entries[1..])
  }

  function Stable(v: Json): Text
    decreases v, 1
  {
    match v
    case Undefined => NULL
    case Null => NULL
    case Bool(b) => if b then TRUE else FALSE
    case Number(text) => text
    case Str(s) => Quote(s)
    case Array(items) => [OPEN_BRACKET] + Join(StableItems(items)) + [CLOSE_BRACKET]
    case Object(fields) => [OPEN_BRACE] + Join(Members(SortEntries(StableFields(fields)))) + [CLOSE_BRACE]
  }

  function StableItems(items: seq<Json>): (parts: seq<Text>)
    ensures |parts| == |items|
    ensures forall i :: 0 <= i < |items| ==> parts[i] == Stable(items[i])
    decreases items, 0
  {
    if items == [] then [] else [Stable(items[0])] + StableItems(items[1..])
  }

  function StableFields(fields: seq<Entry<Json>>): (entries: seq<Entry<Text>>)
    ensures |entries| == |fields|
    ensures forall i :: 0 <= i < |fields| ==> entries[i] == Entry(fields[i].key, Stable(fields[i].value))
    decreases fields, 0
  {
    if fields == [] then [] else [Entry(fields[0].key, Stable(fields[0].value))] + StableFields(fields[1..])
  }

  // ---- What the text stands for ----

  /** The value with undefined read as null and the entries of every object in key order. */
  function Norm(v: Json): Json
    decreases v, 1
  {
    match v
    case Undefined => Null
    case Array(items) => Array(NormItems(items))
    case Object(fields) => Object(SortEntries(NormFields(fields)))
    case _ => v
  }

  function NormItems(items: seq<Json>): (r: seq<Json>)
    ensures |r| == |items|
    ensures forall i :: 0 <= i < |items| ==> r[i] == Norm(items[i])
    decreases items, 0
  {
    if items == [] then [] else [Norm(items[0])] + NormItems(items[1..])
  }

  function NormFields(fields: seq<Entry<Json>>): (r: seq<Entry<Json>>)
    ensures |r| == |fields|
    ensures forall i :: 0 <= i < |fields| ==> r[i] == Entry(fields[i].key, Norm(fields[i].value))
    decreases fields, 0
  {
    if fields == [] then [] else [Entry(fields[0].key, Norm(fields[0].value))] + NormFields(fields[1..])
  }

  /**
   The same JSON value: undefined is null, the order of an object's entries does not matter, and
   everything else is compared part by part. Defined without reference to the text or to any order.
   */
  ghost predicate Same(a: Json, b: Json) {
    match (a, b)
    case (Array(x), Array(y)) => |x| == |y| && forall i :: 0 <= i < |x| ==> Same(x[i], y[i])
    case (Object(x), Object(y)) =>
      && (forall i :: 0 <= i < |x| ==> HasKey(y, x[i].key))
      && (forall j :: 0 <= j < |y| ==> HasKey(x, y[j].key))
      && (forall i, j :: 0 <= i < |x| && 0 <= j < |y| && x[i].key == y[j].key ==> Same(x[i].value, y[j].value))
    case (Undefined, Null) => true
    case (Null, Undefined) => true
    case _ => a == b
  }

  ghost predicate HasKey(entries: seq<Entry<Json>>, key: Text) {
    exists i :: 0 <= i < |entries| && entries[i].key == key
  }

  // ---- The reader ----

  function ReadNumber(t: Text): (Text, Text) {
    if t == [] || !IsNumeric(t[0]) then ([], t)
    else
      var (digits, rest) := ReadNumber(t[1..]);
      ([t[0]] + digits, rest)
  }

  /** Reads one value of compact JSON and says what is left of the text. */
  function ReadValue(t: Text): (r: Option<(Json, Text)>)
    ensures r.Some? ==> |r.value.1| < |t|
    decreases |t|, 1
  {
    if t == [] then None
    else if t[0] == OPEN_BRACE then
      if |t| > 1 && t[1] == CLOSE_BRACE then Some((Object([]), t[2..]))
      else
        match ReadMembers(t[1..])
        case None => None
        case Some((fields, rest)) => Some((Object(fields), rest))
    else if t[0] == OPEN_BRACKET then
      if |t| > 1 && t[1] == CLOSE_BRACKET then Some((Array([]), t[2..]))
      else
        match ReadItems(t[1..])
        case None => None
        case Some((items, rest)) => Some((Array(items), rest))
    else if t[0] == QUOTE then
      match ReadString(t[1..])
      case None => None
      case Some((s, rest)) => Some((Str(s), rest))
    else if NULL <= t then Some((Null, t[4..]))
    else if TRUE <= t then Some((Bool(true), t[4..]))
    else if FALSE <= t then Some((Bool(false), t[5..]))
    else if StartsNumber(t[0]) then
      var (digits, rest) := ReadNumber(t[1..]);
      NumberShrinks(t[1..]);
      Some((Number([t[0]] + digits), rest))
    else None
  }

  lemma {:induction false} NumberShrinks(t: Text)
    ensures |ReadNumber(t).1| <= |t|
  {
    if t != [] {
      NumberShrinks(t[1..]);
    }
  }

  function ReadItems(t: Text): (r: Option<(seq<Json>, Text)>)
    ensures r.Some? ==> |r.value.1| < |t|
    decreases |t|, 2
  {
    match ReadValue(t)
    case None => None
    case Some((item, rest)) =>
      if rest == [] then None
      else if rest[0] == CLOSE_BRACKET then Some(([item], rest[1..]))
      else if rest[0] != COMMA then None
      else
        match ReadItems(rest[1..])
        case None => None
        case Some((items, rest')) => Some(([item] + items, rest'))
  }

  function ReadMembers(t: Text): (r: Option<(seq<Entry<Json>>, Text)>)
    ensures r.Some? ==> |r.value.1| < |t|
    decreases |t|, 2
  {
    if t == [] || t[0] != QUOTE then None
    else
      match ReadString(t[1..])
      case None => None
      case Some((key, rest)) =>
        if rest == [] || rest[0] != COLON then None
        else
          match ReadValue(rest[1..])
          case None => None
          case Some((value, rest')) =>
            if rest' == [] then None
            else if rest'[0] == CLOSE_BRACE then Some(([Entry(key, value)], rest'[1..]))
            else if rest'[0] != COMMA then None
            else
              match ReadMembers(rest'[1..])
              case None => None
              case Some((fields, rest'')) => Some(([Entry(key, value)] + fields, rest''))
  }
}
