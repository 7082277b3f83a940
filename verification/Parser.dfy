/**
 The parser as the program runs it: an object with a cursor that every decoder
 moves forward, loops that accumulate what they read, and a `std::map` filled
 as keys arrive. Each decoder is proved to agree with `Scan` in its value, its
 error and the cursor it leaves.
 */
module Parser {
  import opened Decimal
  import opened Options
  import opened Bencode
  import opened Spelling
  import opened S = Scan

  function Lift(out: Outcome<Tree>): Outcome<Value> {
    if out.Ok? then Ok(Meaning(out.value)) else Fail(out)
  }

  // ----- Facts about the accumulators -----

  lemma {:induction false} MeaningsAppend(items: seq<Tree>, t: Tree)
    ensures Meanings(items + [t]) == Meanings(items) + [Meaning(t)]
  {
    if items == [] {
      assert items + [t] == [t];
    } else {
      assert (items + [t])[1..] == items[1..] + [t];
      MeaningsAppend(items[1..], t);
    }
  }

  lemma {:induction false} PrependAppend<T>(xs: seq<T>, x: T, r: Step<seq<T>>)
    ensures Prepend(xs, Prepend([x], r)) == Prepend(xs + [x], r)
  {
    if r.out.Ok? {
      assert xs + ([x] + r.out.value) == (xs + [x]) + r.out.value;
    }
  }

  lemma {:induction false} PrependNothing<T>(xs: seq<T>, r: Step<seq<T>>)
    ensures Prepend([], r) == r
    ensures r.out == Ok([]) ==> Prepend(xs, r) == Step(Ok(xs), r.next)
  {
    if r.out.Ok? {
      assert [] + r.out.value == r.out.value;
    }
    assert xs + [] == xs;
  }

  function KeysOf(entries: seq<Entry>): (keys: seq<string>)
    ensures |keys| == |entries|
    ensures forall k | 0 <= k < |keys| :: keys[k] == entries[k].key
  {
    seq(|entries|, k requires 0 <= k < |entries| => entries[k].key)
  }

  /** The map after inserting the entries in the order they were read. */
  function InsertAll(entries: seq<Entry>): seq<Field> {
    if entries == [] then []
    else
      var e := entries[|entries| - 1];
      Insert(InsertAll(entries[..|entries| - 1]), e.key, Meaning(e.value))
  }

  lemma {:induction false} FieldsOfAppend(entries: seq<Entry>, e: Entry, prev: Option<string>)
    ensures var last := if entries == [] then prev else Some(entries[|entries| - 1].key);
      FieldsOf(entries + [e], prev) ==
      FieldsOf(entries, prev) + if last == Some(e.key) then [] else [Field(e.key, Meaning(e.value))]
  {
    if entries == [] {
      assert (entries + [e])[1..] == [];
      assert (entries + [e])[0] == e;
    } else {
      assert (entries + [e])[1..] == entries[1..] + [e];
      assert (entries + [e])[0] == entries[0];
      FieldsOfAppend(entries[1..], e, Some(entries[0].key));
    }
  }

  lemma {:induction false} LastField(entries: seq<Entry>, prev: Option<string>)
    requires entries != [] && prev != Some(entries[0].key)
    ensures var fields := FieldsOf(entries, prev);
      fields != [] && fields[|fields| - 1].key == entries[|entries| - 1].key
  {
    if |entries| > 1 {
      var e, rest := entries[0], entries[1..];
      if rest[0].key != e.key {
        LastField(rest, Some(e.key));
      } else {
        LastFieldRun(rest, e.key);
      }
    }
  }

  /** After a run of equal keys either nothing new was kept or the last kept key is the last key read. */
  lemma {:induction false} LastFieldRun(entries: seq<Entry>, key: string)
    ensures var fields := FieldsOf(entries, Some(key));
      if fields == [] then entries == [] || entries[|entries| - 1].key == key
      else fields[|fields| - 1].key == entries[|entries| - 1].key
  {
    if entries != [] {
      LastFieldRun(entries[1..], entries[0].key);
    }
  }

  /** Inserting a key that is not below any present one leaves the map alone or extends it at the end. */
  lemma {:induction false} InsertLast(fields: seq<Field>, key: string, value: Value)
    requires StrictlySorted(fields)
    requires fields != [] ==> !Less(key, fields[|fields| - 1].key)
    ensures Insert(fields, key, value) ==
            if fields != [] && fields[|fields| - 1].key == key then fields else fields + [Field(key, value)]
  {
    if fields != [] {
      var first, last := fields[0].key, fields[|fields| - 1].key;
      LessTotal(last, key);
      if |fields| > 1 {
        LessTotal(first, last);
        if Less(key, first) {
          LessTransitive(key, first, last);
        }
        InsertLast(fields[1..], key, value);
      }
      LessTotal(first, key);
    }
  }

  /** When the keys arrive in order, the map holds the first entry of each run of equal keys. */
  lemma {:induction false} InsertAllInOrder(entries: seq<Entry>)
    requires KeysInOrder(entries) && EntriesWellFormed(entries)
    ensures InsertAll(entries) == FieldsOf(entries, None)
  {
    if entries != [] {
      var front, e := entries[..|entries| - 1], entries[|entries| - 1];
      assert entries == front + [e];
      assert KeysInOrder(front) by {
        assert forall i | 0 <= i < |front| :: front[i] == entries[i];
      }
      FrontWellFormed(entries);
      InsertAllInOrder(front);
      InsertNext(front, e);
    }
  }

  lemma {:induction false} FieldsSorted(entries: seq<Entry>)
    requires KeysInOrder(entries) && EntriesWellFormed(entries)
    ensures StrictlySorted(FieldsOf(entries, None))
  {
    FieldsValid(entries, None);
  }

  lemma {:induction false} InsertAfter(fields: seq<Field>, last: string, key: string, value: Value)
    requires StrictlySorted(fields) && fields != [] && fields[|fields| - 1].key == last && !Less(key, last)
    ensures Insert(fields, key, value) == fields + if last == key then [] else [Field(key, value)]
  {
    InsertLast(fields, key, value);
    assert fields + [] == fields;
  }

  lemma {:induction false} InsertNext(front: seq<Entry>, e: Entry)
    requires KeysInOrder(front) && EntriesWellFormed(front)
    requires front != [] ==> !Less(e.key, front[|front| - 1].key)
    ensures Insert(FieldsOf(front, None), e.key, Meaning(e.value)) == FieldsOf(front + [e], None)
  {
    FieldsOfAppend(front, e, None);
    if front == [] {
      InsertLast([], e.key, Meaning(e.value));
    } else {
      FieldsSorted(front);
      LastField(front, None);
      InsertAfter(FieldsOf(front, None), front[|front| - 1].key, e.key, Meaning(e.value));
    }
  }

  lemma {:induction false} FrontWellFormed(entries: seq<Entry>)
    requires entries != [] && EntriesWellFormed(entries)
    ensures EntriesWellFormed(entries[..|entries| - 1])
  {
    if |entries| > 1 {
      FrontWellFormed(entries[1..]);
      assert entries[..|entries| - 1][1..] == entries[1..][..|entries| - 2];
    }
  }

  // ----- The parser -----

  class BencodeParser {
    var index: nat
    var tokens: string

    constructor ()
      ensures index == 0 && tokens == ""
    {
      index := 0;
      tokens := "";
    }

    /** The public entry point. */
    method Decode(decoded: string) returns (r: Outcome<Value>)
      modifies this
      ensures r == S.Decode(decoded)
    {
      if |decoded| > INT64_MAX {
        return Thrown(InvalidArgument);
      }
      tokens := decoded;
      index := 0;
      r := DecodeValue();
      if r.Ok? && index != |tokens| {
        return Err(InvalidString);
      }
    }

    method DecodeValue() returns (r: Outcome<Value>)
      requires index <= |tokens| + 1
      modifies this`index
      ensures r == Lift(Scan(tokens, old(index)).out) && index == Scan(tokens, old(index)).next
      decreases |tokens| + 2 - index, 2
    {
      if index < |tokens| {
        var token := tokens[index];
        if token == 'i' {
          r := DecodeInt();
          return;
        } else if token <= '9' && token >= '0' {
          r := DecodeString();
          return;
        } else if token == 'l' {
          r := DecodeList();
          return;
        } else if token == 'd' {
          r := DecodeDict();
          return;
        }
      }
      return Err(InvalidString);
    }

    /** The loop that collects a numeral up to its terminator. */
    method ReadUntil(stop: char) returns (text: string)
      requires index <= |tokens|
      modifies this`index
      ensures index == Find(tokens, old(index), stop) && text == tokens[old(index)..index]
    {
      text := "";
      while index < |tokens| && tokens[index] != stop
        invariant old(index) <= index <= |tokens|
        invariant text == tokens[old(index)..index]
        invariant Find(tokens, old(index), stop) == Find(tokens, index, stop)
      {
        text := text + [tokens[index]];
        index := index + 1;
      }
    }

    /** The loop that collects the characters of a string while there are any. */
    method ReadUpTo(length: nat) returns (str: string)
      modifies this`index
      ensures index == old(index) + |str| && |str| <= length
      ensures old(index) <= |tokens| ==> index <= |tokens| && str == tokens[old(index)..index]
      ensures |str| == length || index >= |tokens|
      ensures old(index) >= |tokens| ==> str == ""
    {
      str := "";
      var i := 0;
      while i < length && index < |tokens|
        invariant 0 <= i <= length && index == old(index) + i && |str| == i
        invariant old(index) <= |tokens| ==> index <= |tokens| && str == tokens[old(index)..index]
        invariant old(index) >= |tokens| ==> i == 0
      {
        str := str + [tokens[index]];
        index := index + 1;
        i := i + 1;
      }
    }

    method DecodeInt() returns (r: Outcome<Value>)
      requires index < |tokens|
      modifies this`index
      ensures r == Lift(ScanInt(tokens, old(index)).out) && index == ScanInt(tokens, old(index)).next
    {
      if |tokens| - index < 3 {
        return Err(IntFormat);
      }
      index := index + 1;
      var integer := ReadUntil('e');
      if index == |tokens| {
        return Err(IntFormat);
      } else if integer == "-0" {
        return Err(IntValue);
      } else if !IsNumeral(integer) {
        return Err(IntValue);
      }
      index := index + 1;
      var value := NumeralValue(integer);
      if INT64_MIN <= value <= INT64_MAX {
        return Ok(Int(value));
      }
      return Thrown(OutOfRange);
    }

    method DecodeString() returns (r: Outcome<Value>)
      requires index < |tokens|
      modifies this`index
      ensures r == Lift(ScanString(tokens, old(index)).out) && index == ScanString(tokens, old(index)).next
    {
      if |tokens| - index < 3 {
        return Err(StringFormat);
      }
      var len := ReadUntil(':');
      if !IsNatural(len) {
        return Err(InvalidString);
      }
      index := index + 1;
      var length := NaturalValue(len);
      if length > INT64_MAX {
        return Thrown(OutOfRange);
      }
      var str := ReadUpTo(length);
      if |str| != length {
        return Err(InvalidString);
      }
      return Ok(Str(str));
    }

    /** The item loop of a list. */
    method DecodeItems() returns (r: Outcome<seq<Value>>)
      requires index <= |tokens|
      modifies this`index
      ensures var step := ScanItems(tokens, old(index));
        index == step.next && r == if step.out.Ok? then Ok(Meanings(step.out.value)) else Fail(step.out)
      decreases |tokens| + 2 - index, 4
    {
      ghost var items: seq<Tree> := [];
      var ptr: seq<Value> := [];
      PrependNothing([], ScanItems(tokens, index));
      while index < |tokens| && tokens[index] != 'e'
        invariant old(index) <= index <= |tokens| + 1
        invariant ptr == Meanings(items)
        invariant ScanItems(tokens, old(index)) == Prepend(items, ScanItems(tokens, index))
        decreases |tokens| + 2 - index
      {
        ghost var step := Scan(tokens, index);
        var item := DecodeValue();
        if !item.Ok? {
          return Fail(item);
        }
        MeaningsAppend(items, step.out.value);
        PrependAppend(items, step.out.value, ScanItems(tokens, index));
        ptr := ptr + [item.value];
        items := items + [step.out.value];
      }
      PrependNothing(items, ScanItems(tokens, index));
      return Ok(ptr);
    }

    method DecodeList() returns (r: Outcome<Value>)
      requires index < |tokens| && tokens[index] == 'l'
      modifies this`index
      ensures r == Lift(Scan(tokens, old(index)).out) && index == Scan(tokens, old(index)).next
      decreases |tokens| + 2 - index, 1
    {
      if |tokens| - index < 2 {
        return Err(ListFormat);
      }
      index := index + 1;
      var items := DecodeItems();
      if !items.Ok? {
        return Fail(items);
      }
      if index >= |tokens| {
        return Err(ListFormat);
      }
      index := index + 1;
      return Ok(List(items.value));
    }

    /** A dictionary key, which must be a string, and its value. */
    method DecodeField() returns (r: Outcome<Field>)
      requires index < |tokens|
      modifies this`index
      ensures var step := ScanEntry(tokens, old(index));
        index == step.next &&
        r == if step.out.Ok? then Ok(Field(step.out.value.key, Meaning(step.out.value.value))) else Fail(step.out)
      decreases |tokens| + 2 - index, 3
    {
      var key := DecodeValue();
      if !key.Ok? {
        return Fail(key);
      }
      if !key.value.Str? {
        return Err(DictKey);
      }
      var value := DecodeValue();
      if !value.Ok? {
        return Fail(value);
      }
      return Ok(Field(key.value.s, value.value));
    }

    /** The check, after the closing 'e', that no key is above its successor. */
    static method InOrder(keys: seq<string>) returns (sorted: bool)
      ensures sorted <==> forall k | 0 <= k < |keys| - 1 :: !Less(keys[k + 1], keys[k])
    {
      var i := 0;
      while i < |keys| - 1
        invariant i == 0 || 0 < i < |keys|
        invariant forall k | 0 <= k < i :: !Less(keys[k + 1], keys[k])
      {
        if Less(keys[i + 1], keys[i]) {
          return false;
        }
        i := i + 1;
      }
      return true;
    }

    /** The item loop of a dictionary: the map and the keys in the order they came. */
    method DecodeFields() returns (r: Outcome<(seq<Field>, seq<string>)>)
      requires index <= |tokens|
      modifies this`index
      ensures var step := ScanEntries(tokens, old(index));
        index == step.next &&
        r == if step.out.Ok? then Ok((InsertAll(step.out.value), KeysOf(step.out.value))) else Fail(step.out)
      decreases |tokens| + 2 - index, 4
    {
      ghost var entries: seq<Entry> := [];
      var ptr: seq<Field> := [];
      var keys: seq<string> := [];
      PrependNothing([], ScanEntries(tokens, index));
      while index < |tokens| && tokens[index] != 'e'
        invariant old(index) <= index <= |tokens| + 1
        invariant ptr == InsertAll(entries) && keys == KeysOf(entries)
        invariant ScanEntries(tokens, old(index)) == Prepend(entries, ScanEntries(tokens, index))
        decreases |tokens| + 2 - index
      {
        ghost var step := ScanEntry(tokens, index);
        var field := DecodeField();
        if !field.Ok? {
          return Fail(field);
        }
        PrependAppend(entries, step.out.value, ScanEntries(tokens, index));
        assert (entries + [step.out.value])[..|entries|] == entries;
        keys := keys + [field.value.key];
        ptr := Insert(ptr, field.value.key, field.value.value);
        entries := entries + [step.out.value];
      }
      PrependNothing(entries, ScanEntries(tokens, index));
      return Ok((ptr, keys));
    }

    method DecodeDict() returns (r: Outcome<Value>)
      requires index < |tokens| && tokens[index] == 'd'
      modifies this`index
      ensures r == Lift(Scan(tokens, old(index)).out) && index == Scan(tokens, old(index)).next
      decreases |tokens| + 2 - index, 1
    {
      if |tokens| - index < 2 {
        return Err(DictFormat);
      }
      index := index + 1;
      ghost var start := index;
      var fields := DecodeFields();
      if !fields.Ok? {
        return Fail(fields);
      }
      var (ptr, keys) := fields.value;
      if index >= |tokens| {
        return Err(DictFormat);
      }
      var sorted := InOrder(keys);
      if !sorted {
        return Err(DictKeyOrder);
      }
      ScanEntriesSound(tokens, start);
      InsertAllInOrder(ScanEntries(tokens, start).out.value);
      index := index + 1;
      return Ok(Dict(ptr));
    }
  }
}
