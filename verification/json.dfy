/**
 * The part of the jansson JSON library the modules use to save and load their state: values,
 * object lookup by key and the typed getters, which yield zero when the value has another type.
 */
module Json {
  import opened Wrappers

  datatype Json =
    | JNull
    | JBool(b: bool)
    | JInt(i: int)
    | JReal(r: real)
    | JString(s: string)
    | JArray(items: seq<Json>)
    | JObject(fields: seq<Field>)

  datatype Field = Field(key: string, value: Json)

  /** The number of values a JSON value is built from; a measure for walking it. */
  function JsonSize(j: Json): (r: nat)
    ensures r >= 1
  {
    match j
    case JArray(items) => 1 + SizeOfItems(items)
    case JObject(fields) => 1 + SizeOfFields(fields)
    case _ => 1
  }

  function SizeOfItems(items: seq<Json>): (r: nat)
    ensures forall i :: 0 <= i < |items| ==> JsonSize(items[i]) <= r
    ensures items != [] ==> r == JsonSize(items[0]) + SizeOfItems(items[1..])
  {
    if items == [] then 0
    else
      var rest := SizeOfItems(items[1..]);
      assert forall i :: 1 <= i < |items| ==> items[i] == items[1..][i - 1];
      JsonSize(items[0]) + rest
  }

  function SizeOfFields(fields: seq<Field>): (r: nat)
    ensures forall i :: 0 <= i < |fields| ==> JsonSize(fields[i].value) <= r
  {
    if fields == [] then 0
    else
      var rest := SizeOfFields(fields[1..]);
      assert forall i :: 1 <= i < |fields| ==> fields[i] == fields[1..][i - 1];
      JsonSize(fields[0].value) + rest
  }

  /** `json_object_get`: the value stored under `key`, or null for a missing key or a non-object. */
  function Get(j: Json, key: string): (r: Option<Json>)
    ensures r.Some? <==> j.JObject? && exists i :: 0 <= i < |j.fields| && j.fields[i].key == key
    ensures r.Some? ==> exists i :: 0 <= i < |j.fields| && j.fields[i] == Field(key, r.value)
    ensures r.Some? ==> JsonSize(r.value) < JsonSize(j)
  {
    if !j.JObject? then None else FieldLookup(j.fields, key)
  }

  function FieldLookup(fs: seq<Field>, key: string): (r: Option<Json>)
    ensures r.Some? <==> exists i :: 0 <= i < |fs| && fs[i].key == key
    ensures r.Some? ==> exists i :: 0 <= i < |fs| && fs[i] == Field(key, r.value)
    ensures r.Some? ==> JsonSize(r.value) <= SizeOfFields(fs)
  {
    if fs == [] then None
    else if fs[0].key == key then Some(fs[0].value)
    else
      var r := FieldLookup(fs[1..], key);
      assert forall i :: 0 < i < |fs| ==> fs[i] == fs[1..][i - 1];
      r
  }

  /** Lookup in a three-key object: the first matching key wins. */
  lemma GetOfThree(k0: string, v0: Json, k1: string, v1: Json, k2: string, v2: Json, key: string)
    ensures Get(JObject([Field(k0, v0), Field(k1, v1), Field(k2, v2)]), key) ==
      if key == k0 then Some(v0) else if key == k1 then Some(v1) else if key == k2 then Some(v2) else None
  {
    var fs := [Field(k0, v0), Field(k1, v1), Field(k2, v2)];
    assert fs[1..] == [Field(k1, v1), Field(k2, v2)];
    assert fs[1..][1..] == [Field(k2, v2)];
    assert fs[1..][1..][1..] == [];
    assert FieldLookup(fs[1..][1..], key) == if key == k2 then Some(v2) else None;
    assert FieldLookup(fs[1..], key) == if key == k1 then Some(v1) else FieldLookup(fs[1..][1..], key);
    assert FieldLookup(fs, key) == if key == k0 then Some(v0) else FieldLookup(fs[1..], key);
  }

  /** Lookup in a six-key object: the first matching key wins. */
  lemma GetOfSix(fs: seq<Field>, key: string)
    requires |fs| == 6
    ensures Get(JObject(fs), key) ==
      if key == fs[0].key then Some(fs[0].value) else if key == fs[1].key then Some(fs[1].value)
      else if key == fs[2].key then Some(fs[2].value) else if key == fs[3].key then Some(fs[3].value)
      else if key == fs[4].key then Some(fs[4].value) else if key == fs[5].key then Some(fs[5].value)
      else None
  {
    var f1, f2, f3, f4, f5 := fs[1..], fs[2..], fs[3..], fs[4..], fs[5..];
    assert f5[1..] == [];
    assert f1[1..] == f2 && f2[1..] == f3 && f3[1..] == f4 && f4[1..] == f5;
    assert FieldLookup(f5, key) == if key == fs[5].key then Some(fs[5].value) else None;
    assert FieldLookup(f4, key) == if key == fs[4].key then Some(fs[4].value) else FieldLookup(f5, key);
    assert FieldLookup(f3, key) == if key == fs[3].key then Some(fs[3].value) else FieldLookup(f4, key);
    assert FieldLookup(f2, key) == if key == fs[2].key then Some(fs[2].value) else FieldLookup(f3, key);
    assert FieldLookup(f1, key) == if key == fs[1].key then Some(fs[1].value) else FieldLookup(f2, key);
  }

  /** `json_integer_value`: the integer, or 0 when the value is not an integer. */
  function IntegerValue(j: Json): int
  {
    if j.JInt? then j.i else 0
  }

  /** `json_real_value`: the real, or 0.0 when the value is not a real. */
  function RealValue(j: Json): real
  {
    if j.JReal? then j.r else 0.0
  }

  /** `json_is_true`. */
  function IsTrue(j: Json): bool
  {
    j.JBool? && j.b
  }

  /** The elements `json_array_size` and `json_array_get` reach: none unless the value is an array. */
  function ArrayItems(j: Json): (items: seq<Json>)
    ensures SizeOfItems(items) < JsonSize(j)
    ensures j.JArray? ==> items == j.items
  {
    if j.JArray? then j.items else []
  }
}
