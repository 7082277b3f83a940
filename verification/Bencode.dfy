/**
 Bencode values and their printer.

 A `std::map` is modelled by its in-order list of fields: keys strictly
 increasing in the byte order that `std::string` compares by.
 */
module Bencode {
  import opened Decimal
  import opened Options
  import opened Sequences

  datatype Value =
    | Int(i: int)
    | Str(s: string)
    | List(items: seq<Value>)
    | Dict(fields: seq<Field>)

  datatype Field = Field(key: string, value: Value)

  // ----- Key order -----

  /** `a < b` on `std::string`. */
  predicate Less(a: string, b: string) {
    b != "" && (a == "" || a[0] < b[0] || (a[0] == b[0] && Less(a[1..], b[1..])))
  }

  /** The strings agree up to some place, where the first one has the smaller byte. */
  predicate SmallerAt(a: string, b: string, k: nat) {
    k < |a| && k < |b| && a[..k] == b[..k] && a[k] < b[k]
  }

  /** Which way the order runs: a proper prefix comes first, otherwise the first difference decides. */
  lemma {:induction false} LessExact(a: string, b: string)
    ensures Less(a, b) <==> (|a| < |b| && a == b[..|a|]) || exists k :: SmallerAt(a, b, k)
  {
    if a != "" && b != "" {
      if a[0] == b[0] {
        LessExact(a[1..], b[1..]);
        ShorterSame(a, b);
        SmallerLater(a, b);
      } else if a[0] < b[0] {
        assert SmallerAt(a, b, 0);
      } else if k: nat :| SmallerAt(a, b, k) {
        FirstByte(a, b, k);
      }
    }
  }

  lemma {:induction false} FirstByte(a: string, b: string, k: nat)
    requires SmallerAt(a, b, k)
    ensures a[0] <= b[0]
  {
    if k > 0 {
      assert a[..k][0] == b[..k][0];
    }
  }

  lemma {:induction false} ShorterSame(a: string, b: string)
    requires a != "" && b != "" && a[0] == b[0]
    ensures |a| < |b| && a == b[..|a|] <==> |a[1..]| < |b[1..]| && a[1..] == b[1..][..|a| - 1]
  {
    if |a| < |b| {
      assert b[..|a|][1..] == b[1..][..|a| - 1];
      HeadRest(a);
      HeadRest(b[..|a|]);
    }
  }

  lemma {:induction false} SmallerLater(a: string, b: string)
    requires a != "" && b != "" && a[0] == b[0]
    ensures (exists k :: SmallerAt(a, b, k)) <==> exists k :: SmallerAt(a[1..], b[1..], k)
  {
    if k: nat :| SmallerAt(a, b, k) {
      assert a[1..][..k - 1] == a[..k][1..] && b[1..][..k - 1] == b[..k][1..];
      assert SmallerAt(a[1..], b[1..], k - 1);
    }
    if k: nat :| SmallerAt(a[1..], b[1..], k) {
      assert a[..k + 1] == [a[0]] + a[1..][..k] && b[..k + 1] == [b[0]] + b[1..][..k];
      assert SmallerAt(a, b, k + 1);
    }
  }

  lemma {:induction false} LessTransitive(a: string, b: string, c: string)
    requires Less(a, b) && Less(b, c)
    ensures Less(a, c)
  {
    if a != "" && a[0] == b[0] == c[0] {
      LessTransitive(a[1..], b[1..], c[1..]);
    }
  }

  lemma {:induction false} LessTotal(a: string, b: string)
    ensures Less(a, b) || a == b || Less(b, a)
    ensures !(Less(a, b) && Less(b, a))
    ensures a == b ==> !Less(a, b)
  {
    if a != "" && b != "" && a[0] == b[0] {
      LessTotal(a[1..], b[1..]);
      assert a == [a[0]] + a[1..] && b == [b[0]] + b[1..];
    }
  }

  /** Every key is below every later one. */
  predicate StrictlySorted(fields: seq<Field>) {
    forall i, j | 0 <= i < j < |fields| :: Less(fields[i].key, fields[j].key)
  }

  /** A value the C++ types can hold: `int64_t` integers, string sizes within `int64_t`, maps in key order. */
  predicate Valid(v: Value)
    decreases v, 1
  {
    match v
    case Int(i) => INT64_MIN <= i <= INT64_MAX
    case Str(s) => |s| <= INT64_MAX
    case List(items) => AllValid(items)
    case Dict(fields) => StrictlySorted(fields) && AllFieldsValid(fields)
  }

  predicate AllValid(items: seq<Value>)
    decreases items, 0
  {
    items == [] || (Valid(items[0]) && AllValid(items[1..]))
  }

  predicate AllFieldsValid(fields: seq<Field>)
    decreases fields, 0
  {
    fields == [] ||
    (|fields[0].key| <= INT64_MAX && Valid(fields[0].value) && AllFieldsValid(fields[1..]))
  }

  // ----- Printer -----

  function EncodeString(s: string): string {
    PrintNatural(|s|) + ":" + s
  }

  function Encode(v: Value): string
    decreases v, 1
  {
    match v
    case Int(i) => "i" + PrintInteger(i) + "e"
    case Str(s) => EncodeString(s)
    case List(items) => "l" + EncodeAll(items) + "e"
    case Dict(fields) => "d" + EncodeFields(fields) + "e"
  }

  function EncodeAll(items: seq<Value>): string
    decreases items, 0
  {
    if items == [] then "" else Encode(items[0]) + EncodeAll(items[1..])
  }

  function EncodeFields(fields: seq<Field>): string
    decreases fields, 0
  {
    if fields == [] then ""
    else EncodeString(fields[0].key) + Encode(fields[0].value) + EncodeFields(fields[1..])
  }

  lemma {:induction false} EncodeAllAppend(items: seq<Value>, v: Value)
    ensures EncodeAll(items + [v]) == EncodeAll(items) + Encode(v)
  {
    if items == [] {
      assert items + [v] == [v];
    } else {
      assert (items + [v])[1..] == items[1..] + [v];
      EncodeAllAppend(items[1..], v);
    }
  }

  lemma {:induction false} EncodeFieldsAppend(fields: seq<Field>, f: Field)
    ensures EncodeFields(fields + [f]) == EncodeFields(fields) + (EncodeString(f.key) + Encode(f.value))
  {
    if fields == [] {
      assert fields + [f] == [f];
      assert EncodeFields([f]) == EncodeString(f.key) + Encode(f.value) + "";
    } else {
      assert (fields + [f])[1..] == fields[1..] + [f];
      EncodeFieldsAppend(fields[1..], f);
    }
  }

  /** `to_string`, dispatched on the type of the value. */
  method ToString(v: Value) returns (ret: string)
    ensures ret == Encode(v)
    decreases v, 1
  {
    match v
    case Int(i) => ret := "i" + PrintInteger(i) + "e";
    case Str(s) => ret := PrintNatural(|s|) + ":" + s;
    case List(items) => ret := ListToString(items);
    case Dict(fields) => ret := DictToString(fields);
  }

  method ListToString(items: seq<Value>) returns (ret: string)
    ensures ret == "l" + EncodeAll(items) + "e"
    decreases items, 0
  {
    ret := "l";
    for k := 0 to |items|
      invariant ret == "l" + EncodeAll(items[..k])
    {
      var piece := ToString(items[k]);
      EncodeAllAppend(items[..k], items[k]);
      assert items[..k] + [items[k]] == items[..k + 1];
      Associative("l", EncodeAll(items[..k]), piece);
      ret := ret + piece;
    }
    assert items[..|items|] == items;
    ret := ret + "e";
  }

  method DictToString(fields: seq<Field>) returns (ret: string)
    ensures ret == "d" + EncodeFields(fields) + "e"
    decreases fields, 0
  {
    ret := "d";
    for k := 0 to |fields|
      invariant ret == "d" + EncodeFields(fields[..k])
    {
      var piece := ToString(fields[k].value);
      EncodeFieldsAppend(fields[..k], fields[k]);
      assert fields[..k] + [fields[k]] == fields[..k + 1];
      var name := PrintNatural(|fields[k].key|) + ":" + fields[k].key;
      Associative("d", EncodeFields(fields[..k]), name + piece);
      ret := ret + (name + piece);
    }
    assert fields[..|fields|] == fields;
    ret := ret + "e";
  }

  // ----- std::map -----

  /** `map::insert`: an existing key keeps its first value, a new one goes to its sorted place. */
  function Insert(fields: seq<Field>, key: string, value: Value): (r: seq<Field>) {
    if fields == [] || Less(key, fields[0].key) then [Field(key, value)] + fields
    else if fields[0].key == key then fields
    else [fields[0]] + Insert(fields[1..], key, value)
  }

  /** `map::at` and `map::find`. */
  function Lookup(fields: seq<Field>, key: string): (r: Option<Value>)
    ensures r.None? ==> forall k | 0 <= k < |fields| :: fields[k].key != key
    ensures r.Some? ==> Field(key, r.value) in fields
  {
    if fields == [] then None
    else if fields[0].key == key then
      assert fields[0] == Field(key, fields[0].value);
      Some(fields[0].value)
    else
      var r := Lookup(fields[1..], key);
      assert r.Some? ==> Field(key, r.value) in fields[1..];
      r
  }
}
