/**
 The accepted bencode texts as concrete syntax trees, independent of any parser.

 A tree keeps what a value forgets: leading zeros and repeated dictionary keys.
 `Spell` is the text of a tree, `Meaning` its value, `WellFormed` the grammar
 and `Canonical` the trees in which nothing is redundant.
 */
module Spelling {
  import opened Decimal
  import opened Options
  import opened Sequences
  import opened Bencode

  datatype Tree =
    | TInt(text: string)
    | TStr(size: string, body: string)
    | TList(items: seq<Tree>)
    | TDict(entries: seq<Entry>)

  datatype Entry = Entry(size: string, key: string, value: Tree)

  // ----- Text -----

  function Spell(t: Tree): (s: string)
    ensures |s| > 0
    decreases t, 1
  {
    match t
    case TInt(text) => "i" + text + "e"
    case TStr(size, body) => size + ":" + body
    case TList(items) => "l" + SpellAll(items) + "e"
    case TDict(entries) => "d" + SpellEntries(entries) + "e"
  }

  function SpellAll(items: seq<Tree>): string
    decreases items, 0
  {
    if items == [] then "" else Spell(items[0]) + SpellAll(items[1..])
  }

  function SpellKey(e: Entry): string {
    e.size + ":" + e.key
  }

  function SpellEntries(entries: seq<Entry>): string
    decreases entries, 0
  {
    if entries == [] then ""
    else SpellKey(entries[0]) + (Spell(entries[0].value) + SpellEntries(entries[1..]))
  }

  // ----- Grammar -----

  predicate SizeOf(size: string, body: string) {
    IsNatural(size) && NaturalValue(size) == |body| && |body| <= INT64_MAX
  }

  predicate WellFormed(t: Tree)
    decreases t, 1
  {
    match t
    case TInt(text) => IsNumeral(text) && text != "-0" && INT64_MIN <= NumeralValue(text) <= INT64_MAX
    case TStr(size, body) => SizeOf(size, body)
    case TList(items) => AllWellFormed(items)
    case TDict(entries) => KeysInOrder(entries) && EntriesWellFormed(entries)
  }

  predicate AllWellFormed(items: seq<Tree>)
    decreases items, 0
  {
    items == [] || (WellFormed(items[0]) && AllWellFormed(items[1..]))
  }

  predicate EntriesWellFormed(entries: seq<Entry>)
    decreases entries, 0
  {
    entries == [] ||
    (SizeOf(entries[0].size, entries[0].key) && WellFormed(entries[0].value) && EntriesWellFormed(entries[1..]))
  }

  /** No key is above the next one; neighbours may be equal. */
  predicate KeysInOrder(entries: seq<Entry>) {
    forall i | 0 <= i < |entries| - 1 :: !Less(entries[i + 1].key, entries[i].key)
  }

  // ----- Meaning -----

  function Meaning(t: Tree): Value
    decreases t, 1
  {
    match t
    case TInt(text) => Int(NumeralValue(text))
    case TStr(_, body) => Str(body)
    case TList(items) => List(Meanings(items))
    case TDict(entries) => Dict(FieldsOf(entries, None))
  }

  function Meanings(items: seq<Tree>): (r: seq<Value>)
    ensures |r| == |items|
    decreases items, 0
  {
    if items == [] then [] else [Meaning(items[0])] + Meanings(items[1..])
  }

  /** The first entry of each run of equal keys; `prev` is the key just before `entries`. */
  function FieldsOf(entries: seq<Entry>, prev: Option<string>): seq<Field>
    decreases entries, 0
  {
    if entries == [] then []
    else
      var e := entries[0];
      var rest := FieldsOf(entries[1..], Some(e.key));
      if prev == Some(e.key) then rest else [Field(e.key, Meaning(e.value))] + rest
  }

  // ----- Canonical texts -----

  predicate Canonical(t: Tree)
    decreases t, 1
  {
    match t
    case TInt(text) => MinimalNumeral(text)
    case TStr(size, _) => MinimalNatural(size)
    case TList(items) => AllCanonical(items)
    case TDict(entries) => EntriesCanonical(entries, None)
  }

  predicate AllCanonical(items: seq<Tree>)
    decreases items, 0
  {
    items == [] || (Canonical(items[0]) && AllCanonical(items[1..]))
  }

  /** Minimal sizes, canonical values and no key equal to its predecessor. */
  predicate EntriesCanonical(entries: seq<Entry>, prev: Option<string>)
    decreases entries, 0
  {
    entries == [] ||
    (prev != Some(entries[0].key) && MinimalNatural(entries[0].size) && Canonical(entries[0].value) &&
     EntriesCanonical(entries[1..], Some(entries[0].key)))
  }

  /** The canonical tree of a value: what the printer writes. */
  function Plain(v: Value): Tree
    decreases v, 1
  {
    match v
    case Int(i) => TInt(PrintInteger(i))
    case Str(s) => TStr(PrintNatural(|s|), s)
    case List(items) => TList(PlainAll(items))
    case Dict(fields) => TDict(PlainFields(fields))
  }

  function PlainAll(items: seq<Value>): seq<Tree>
    decreases items, 0
  {
    if items == [] then [] else [Plain(items[0])] + PlainAll(items[1..])
  }

  function PlainFields(fields: seq<Field>): (r: seq<Entry>)
    ensures |r| == |fields|
    ensures forall k | 0 <= k < |fields| :: r[k].key == fields[k].key
    decreases fields, 0
  {
    if fields == [] then []
    else
      [Entry(PrintNatural(|fields[0].key|), fields[0].key, Plain(fields[0].value))] + PlainFields(fields[1..])
  }

  // ----- The printer writes canonical, well-formed trees -----

  lemma {:induction false} PlainSpells(v: Value)
    ensures Spell(Plain(v)) == Encode(v)
    decreases v, 1
  {
    match v
    case Int(i) =>
    case Str(s) =>
    case List(items) => PlainSpellsAll(items);
    case Dict(fields) => PlainSpellsFields(fields);
  }

  lemma {:induction false} PlainSpellsAll(items: seq<Value>)
    ensures SpellAll(PlainAll(items)) == EncodeAll(items)
    decreases items, 0
  {
    if items != [] {
      PlainSpells(items[0]);
      PlainSpellsAll(items[1..]);
    }
  }

  lemma {:induction false} PlainSpellsFields(fields: seq<Field>)
    ensures SpellEntries(PlainFields(fields)) == EncodeFields(fields)
    decreases fields, 0
  {
    if fields != [] {
      PlainSpells(fields[0].value);
      PlainSpellsFields(fields[1..]);
      var f := fields[0];
      Associative(EncodeString(f.key), Encode(f.value), EncodeFields(fields[1..]));
    }
  }

  lemma {:induction false} PlainMeans(v: Value)
    requires Valid(v)
    ensures WellFormed(Plain(v)) && Canonical(Plain(v)) && Meaning(Plain(v)) == v
    decreases v, 1
  {
    match v
    case Int(i) => IntegerRoundTrip(i);
    case Str(s) =>
      NaturalRoundTrip(|s|);
      PrintNaturalFirst(|s|);
    case List(items) => PlainMeansAll(items);
    case Dict(fields) =>
      PlainMeansFields(fields, None);
      forall i | 0 <= i < |fields| - 1
        ensures !Less(fields[i + 1].key, fields[i].key)
      {
        LessTotal(fields[i].key, fields[i + 1].key);
      }
  }

  lemma {:induction false} AllCons(t: Tree, rest: seq<Tree>)
    ensures AllWellFormed([t] + rest) <==> WellFormed(t) && AllWellFormed(rest)
    ensures AllCanonical([t] + rest) <==> Canonical(t) && AllCanonical(rest)
    ensures Meanings([t] + rest) == [Meaning(t)] + Meanings(rest)
  {
    assert ([t] + rest)[0] == t && ([t] + rest)[1..] == rest;
  }

  lemma {:induction false} PlainMeansAll(items: seq<Value>)
    requires AllValid(items)
    ensures AllWellFormed(PlainAll(items)) && AllCanonical(PlainAll(items)) && Meanings(PlainAll(items)) == items
    decreases items, 0
  {
    if items != [] {
      PlainMeans(items[0]);
      PlainMeansAll(items[1..]);
      AllCons(Plain(items[0]), PlainAll(items[1..]));
      assert [items[0]] + items[1..] == items;
    }
  }

  lemma {:induction false} PlainMeansFields(fields: seq<Field>, prev: Option<string>)
    requires AllFieldsValid(fields) && StrictlySorted(fields)
    requires fields != [] && prev.Some? ==> Less(prev.value, fields[0].key)
    ensures EntriesWellFormed(PlainFields(fields)) && EntriesCanonical(PlainFields(fields), prev)
    ensures FieldsOf(PlainFields(fields), prev) == fields
    decreases fields, 0
  {
    if fields != [] {
      var f := fields[0];
      PlainMeans(f.value);
      NaturalRoundTrip(|f.key|);
      PrintNaturalFirst(|f.key|);
      PlainMeansFields(fields[1..], Some(f.key));
      if prev.Some? {
        LessTotal(prev.value, f.key);
      }
    }
  }

  // ----- What a well-formed tree means is a valid value -----

  lemma {:induction false} MeaningValid(t: Tree)
    requires WellFormed(t)
    ensures Valid(Meaning(t))
    decreases t, 1
  {
    match t
    case TInt(text) =>
    case TStr(size, body) =>
    case TList(items) => MeaningsValid(items);
    case TDict(entries) => FieldsValid(entries, None);
  }

  lemma {:induction false} MeaningsValid(items: seq<Tree>)
    requires AllWellFormed(items)
    ensures AllValid(Meanings(items))
    decreases items, 0
  {
    if items != [] {
      MeaningValid(items[0]);
      MeaningsValid(items[1..]);
    }
  }

  lemma {:induction false} FieldsValid(entries: seq<Entry>, prev: Option<string>)
    requires EntriesWellFormed(entries) && KeysInOrder(entries)
    requires entries != [] && prev.Some? ==> !Less(entries[0].key, prev.value)
    ensures AllFieldsValid(FieldsOf(entries, prev))
    ensures StrictlySorted(FieldsOf(entries, prev))
    ensures forall k | 0 <= k < |FieldsOf(entries, prev)| && prev.Some? ::
            Less(prev.value, FieldsOf(entries, prev)[k].key)
    decreases entries, 0
  {
    if entries != [] {
      var e, rest := entries[0], entries[1..];
      assert KeysInOrder(rest) by {
        assert forall i | 0 <= i < |rest| :: rest[i] == entries[i + 1];
      }
      MeaningValid(e.value);
      FieldsValid(rest, Some(e.key));
      if prev.Some? && prev.value != e.key {
        LessTotal(prev.value, e.key);
        var tail := FieldsOf(rest, Some(e.key));
        forall k | 0 <= k < |tail|
          ensures Less(prev.value, tail[k].key)
        {
          LessTransitive(prev.value, e.key, tail[k].key);
        }
      }
    }
  }

  // ----- Printing the meaning of a text normalises it -----

  /** The printed meaning is no longer than the text, and is the text exactly when the text is canonical. */
  lemma {:induction false} PrintNormalises(t: Tree)
    requires WellFormed(t)
    ensures |Encode(Meaning(t))| <= |Spell(t)|
    ensures Encode(Meaning(t)) == Spell(t) <==> Canonical(t)
    ensures Canonical(t) || |Encode(Meaning(t))| < |Spell(t)|
    decreases t, 1
  {
    match t
    case TInt(text) => NumeralNormal(text);
    case TStr(size, body) => NaturalNormal(size);
    case TList(items) => PrintNormalisesAll(items);
    case TDict(entries) => PrintNormalisesEntries(entries, None);
  }

  lemma {:induction false} PrintNormalisesAll(items: seq<Tree>)
    requires AllWellFormed(items)
    ensures AllCanonical(items) ==> EncodeAll(Meanings(items)) == SpellAll(items)
    ensures !AllCanonical(items) ==> |EncodeAll(Meanings(items))| < |SpellAll(items)|
    decreases items, 0
  {
    if items != [] {
      PrintNormalises(items[0]);
      PrintNormalisesAll(items[1..]);
      assert Meanings(items)[1..] == Meanings(items[1..]);
    }
  }

  lemma {:induction false} PrintNormalisesEntries(entries: seq<Entry>, prev: Option<string>)
    requires EntriesWellFormed(entries)
    ensures EntriesCanonical(entries, prev) ==> EncodeFields(FieldsOf(entries, prev)) == SpellEntries(entries)
    ensures !EntriesCanonical(entries, prev) ==> |EncodeFields(FieldsOf(entries, prev))| < |SpellEntries(entries)|
    decreases entries, 0
  {
    if entries != [] {
      var e, rest := entries[0], entries[1..];
      PrintNormalises(e.value);
      NaturalNormal(e.size);
      PrintNormalisesEntries(rest, Some(e.key));
      var fields := FieldsOf(entries, prev);
      if prev != Some(e.key) {
        assert fields[1..] == FieldsOf(rest, Some(e.key));
        Associative(EncodeString(e.key), Encode(Meaning(e.value)), EncodeFields(fields[1..]));
      }
    }
  }
}
