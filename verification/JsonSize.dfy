/** Opaque provider JSON and the byte estimate that bounds a room's history. */
module JsonSize {
  import opened Prelude

  const USIZE_MAX: nat := 0xFFFF_FFFF_FFFF_FFFF

  datatype Json =
    | Null
    | Bool(flag: bool)
    | Number(text: seq<Byte>)
    | Text(utf8: seq<Byte>)
    | Array(values: seq<Json>)
    | Object(fields: seq<Field>)

  datatype Field = Field(key: seq<Byte>, value: Json)

  function Ascii(s: string): seq<Byte> {
    seq(|s|, i requires 0 <= i < |s| => (s[i] as int) % 256)
  }

  function SaturatingAdd(a: nat, b: nat): nat {
    Min(a + b, USIZE_MAX)
  }

  /** The estimate, saturating at every addition. */
  function ApproxBytes(v: Json): nat
    decreases v, 0
  {
    match v
    case Null => 4
    case Bool(flag) => (if flag then 1 else 0) + 4
    case Number(text) => SaturatingAdd(|text|, 0)
    case Text(utf8) => SaturatingAdd(|utf8|, 2)
    case Array(values) => ApproxValues(values, 2)
    case Object(fields) => ApproxFields(fields, 2)
  }

  function ApproxValues(values: seq<Json>, total: nat): nat
    decreases values, 1
  {
    if values == [] then total
    else ApproxValues(values[1..], SaturatingAdd(total, SaturatingAdd(ApproxBytes(values[0]), 1)))
  }

  function ApproxFields(fields: seq<Field>, total: nat): nat
    decreases fields, 1
  {
    if fields == [] then total
    else
      var keyed := SaturatingAdd(total, SaturatingAdd(|fields[0].key|, 3));
      ApproxFields(fields[1..], SaturatingAdd(keyed, SaturatingAdd(ApproxBytes(fields[0].value), 1)))
  }

  /** The same measure on unbounded integers. */
  function TrueBytes(v: Json): nat
    decreases v, 0
  {
    match v
    case Null => 4
    case Bool(flag) => if flag then 5 else 4
    case Number(text) => |text|
    case Text(utf8) => |utf8| + 2
    case Array(values) => 2 + TrueValues(values)
    case Object(fields) => 2 + TrueFields(fields)
  }

  function TrueValues(values: seq<Json>): nat
    decreases values, 1
  {
    if values == [] then 0 else TrueBytes(values[0]) + 1 + TrueValues(values[1..])
  }

  function TrueFields(fields: seq<Field>): nat
    decreases fields, 1
  {
    if fields == [] then 0
    else |fields[0].key| + 3 + TrueBytes(fields[0].value) + 1 + TrueFields(fields[1..])
  }

  /** Saturating inside every nested value loses nothing but the excess over the machine word. */
  lemma {:induction false} ApproxIsCappedTruth(v: Json)
    ensures ApproxBytes(v) == Min(TrueBytes(v), USIZE_MAX)
    decreases v, 0
  {
    match v
    case Array(values) => ApproxValuesCapped(values, 2);
    case Object(fields) => ApproxFieldsCapped(fields, 2);
    case _ =>
  }

  lemma {:induction false} ApproxValuesCapped(values: seq<Json>, total: nat)
    requires total <= USIZE_MAX
    ensures ApproxValues(values, total) == Min(total + TrueValues(values), USIZE_MAX)
    decreases values, 1
  {
    if values != [] {
      ApproxIsCappedTruth(values[0]);
      ApproxValuesCapped(values[1..], SaturatingAdd(total, SaturatingAdd(ApproxBytes(values[0]), 1)));
    }
  }

  lemma {:induction false} ApproxFieldsCapped(fields: seq<Field>, total: nat)
    requires total <= USIZE_MAX
    ensures ApproxFields(fields, total) == Min(total + TrueFields(fields), USIZE_MAX)
    decreases fields, 1
  {
    if fields != [] {
      ApproxIsCappedTruth(fields[0].value);
      var keyed := SaturatingAdd(total, SaturatingAdd(|fields[0].key|, 3));
      ApproxFieldsCapped(fields[1..], SaturatingAdd(keyed, SaturatingAdd(ApproxBytes(fields[0].value), 1)));
    }
  }

  // ---------- The measure against the text of a value ----------

  /** The value as compact JSON, its strings written as they are. */
  function Compact(v: Json): seq<Byte>
    decreases v, 0
  {
    match v
    case Null => Ascii("null")
    case Bool(flag) => if flag then Ascii("true") else Ascii("false")
    case Number(text) => text
    case Text(utf8) => Ascii("\"") + utf8 + Ascii("\"")
    case Array(values) => Ascii("[") + CompactValues(values) + Ascii("]")
    case Object(fields) => Ascii("{") + CompactFields(fields) + Ascii("}")
  }

  function CompactValues(values: seq<Json>): seq<Byte>
    decreases values, 1
  {
    if values == [] then []
    else Compact(values[0]) + (if |values| > 1 then Ascii(",") else []) + CompactValues(values[1..])
  }

  function CompactFields(fields: seq<Field>): seq<Byte>
    decreases fields, 1
  {
    if fields == [] then []
    else
      Ascii("\"") + fields[0].key + Ascii("\":") + Compact(fields[0].value)
      + (if |fields| > 1 then Ascii(",") else []) + CompactFields(fields[1..])
  }

  /** Arrays and objects that are not empty count one separator too many, `true` counts as long as
      `false`, and `false` as long as `true`. */
  function Excess(v: Json): int
    decreases v, 0
  {
    match v
    case Bool(flag) => if flag then 1 else -1
    case Array(values) => (if values == [] then 0 else 1) + ExcessOfValues(values)
    case Object(fields) => (if fields == [] then 0 else 1) + ExcessOfFields(fields)
    case _ => 0
  }

  function ExcessOfValues(values: seq<Json>): int
    decreases values, 1
  {
    if values == [] then 0 else Excess(values[0]) + ExcessOfValues(values[1..])
  }

  function ExcessOfFields(fields: seq<Field>): int
    decreases fields, 1
  {
    if fields == [] then 0 else Excess(fields[0].value) + ExcessOfFields(fields[1..])
  }

  /** The measure is the length of the compact text, but for that excess. */
  lemma {:induction false} BytesOfText(v: Json)
    ensures TrueBytes(v) == |Compact(v)| + Excess(v)
    decreases v, 0
  {
    match v
    case Array(values) => BytesOfValues(values);
    case Object(fields) => BytesOfFields(fields);
    case _ =>
  }

  lemma {:induction false} BytesOfValues(values: seq<Json>)
    ensures TrueValues(values)
         == |CompactValues(values)| + ExcessOfValues(values) + if values == [] then 0 else 1
    decreases values, 1
  {
    if values != [] {
      BytesOfText(values[0]);
      BytesOfValues(values[1..]);
    }
  }

  lemma {:induction false} BytesOfFields(fields: seq<Field>)
    ensures TrueFields(fields)
         == |CompactFields(fields)| + ExcessOfFields(fields) + if fields == [] then 0 else 1
    decreases fields, 1
  {
    if fields != [] {
      BytesOfText(fields[0].value);
      BytesOfFields(fields[1..]);
    }
  }
}
