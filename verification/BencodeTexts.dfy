/**
 What the parser makes of particular texts: dictionaries by the order of their
 keys, and the short texts that tell its errors apart.
 */
module BencodeTexts {
  import opened Decimal
  import opened Options
  import opened Bencode
  import opened Spelling
  import opened Scan
  import opened BencodeTheorems

  // ----- Dictionaries -----

  function DictText(entries: seq<Entry>): string {
    "d" + SpellEntries(entries) + "e"
  }

  lemma {:induction false} DictTextAt(entries: seq<Entry>)
    ensures var s, n := DictText(entries), |SpellEntries(entries)|;
      |s| == n + 2 && s[0] == 'd' && At(s, 1, SpellEntries(entries)) && At(s, 1 + n, "e")
  {
    var s := DictText(entries);
    assert s[1..1 + |SpellEntries(entries)|] == SpellEntries(entries);
    assert s[1 + |SpellEntries(entries)|..] == "e";
  }

  /** A dictionary of well-formed entries is accepted exactly if no key is above the one behind it. */
  lemma {:induction false} DictOrderExact(entries: seq<Entry>)
    requires EntriesWellFormed(entries) && |DictText(entries)| <= INT64_MAX
    ensures Decode(DictText(entries)) ==
            if KeysInOrder(entries) then Ok(Dict(FieldsOf(entries, None))) else Err(DictKeyOrder)
  {
    DictTextAt(entries);
    ScanEntriesComplete(DictText(entries), 1, entries);
  }

  lemma {:induction false} TwoEntries(e: Entry, f: Entry)
    ensures SpellEntries([e, f]) == SpellKey(e) + Spell(e.value) + SpellKey(f) + Spell(f.value)
    ensures EntriesWellFormed([e, f]) <==>
            SizeOf(e.size, e.key) && WellFormed(e.value) && SizeOf(f.size, f.key) && WellFormed(f.value)
    ensures KeysInOrder([e, f]) <==> !Less(f.key, e.key)
    ensures e.key != f.key ==>
      FieldsOf([e, f], None) == [Field(e.key, Meaning(e.value)), Field(f.key, Meaning(f.value))]
  {
    assert [e, f][1..] == [f] && [f][1..] == [];
    assert SpellEntries([f]) == SpellKey(f) + Spell(f.value);
    assert EntriesWellFormed([f]) <==> SizeOf(f.size, f.key) && WellFormed(f.value);
    assert e.key != f.key ==> FieldsOf([f], Some(e.key)) == [Field(f.key, Meaning(f.value))];
  }

  lemma {:induction false} OneDigit(c: char)
    requires IsDigit(c)
    ensures IsNatural([c]) && NaturalValue([c]) == DigitValue(c)
    ensures IsNumeral([c]) && [c] != "-0" && NumeralValue([c]) == DigitValue(c)
  {
    assert [c][..0] == "";
  }

  /** Two one-letter keys with small integers, in either order. */
  lemma {:induction false} TwoKeys(a: char, b: char)
    requires a < b
    ensures var s := "d1:" + [a] + "i1e1:" + [b] + "i2ee";
      Decode(s) == Ok(Dict([Field([a], Int(1)), Field([b], Int(2))]))
    ensures var s := "d1:" + [b] + "i2e1:" + [a] + "i1ee";
      Decode(s) == Err(DictKeyOrder)
  {
    var e, f := Entry("1", [a], TInt("1")), Entry("1", [b], TInt("2"));
    OneDigit('1');
    OneDigit('2');
    TwoEntries(e, f);
    TwoEntries(f, e);
    LessExact([a], [b]);
    LessExact([b], [a]);
    assert SmallerAt([a], [b], 0);
    LessTotal([a], [b]);
    DictOrderExact([e, f]);
    DictOrderExact([f, e]);
    assert DictText([e, f]) == "d1:" + [a] + "i1e1:" + [b] + "i2ee";
    assert DictText([f, e]) == "d1:" + [b] + "i2e1:" + [a] + "i1ee";
  }

  lemma {:induction false} AscendingKeys()
    ensures Decode("d1:ai1e1:bi2ee") == Ok(Dict([Field("a", Int(1)), Field("b", Int(2))]))
    ensures Decode("d1:bi2e1:ai1ee") == Err(DictKeyOrder)
  {
    TwoKeys('a', 'b');
    assert "d1:" + "a" + "i1e1:" + "b" + "i2ee" == "d1:ai1e1:bi2ee";
    assert "d1:" + "b" + "i2e1:" + "a" + "i1ee" == "d1:bi2e1:ai1ee";
  }

  // ----- Errors -----

  /** Integers: without an end, a negative zero, and something that is no number. */
  lemma {:induction false} IntegerErrors()
    ensures Decode("i42") == Err(IntFormat) && Decode("i-0e") == Err(IntValue) && Decode("iXe") == Err(IntValue)
  {
    FindAt("i-0e", 1, "-0", 'e');
    FindAt("iXe", 1, "X", 'e');
    assert "i-0e"[1..3] == "-0" && "iXe"[1..2] == "X";
    assert At("i-0e", 1, "-0e") && At("iXe", 1, "Xe");
    assert !IsNumeral("X") by {
      assert !IsDigit("X"[0]);
    }
  }

  /** Strings: longer than the text, without a colon, too short, and of negative length. */
  lemma {:induction false} StringErrors()
    ensures Decode("9:spam") == Err(InvalidString) && Decode("4spam") == Err(InvalidString)
    ensures Decode("0:") == Err(StringFormat) && Decode("-4:spam") == Err(InvalidString)
  {
    FindAt("9:spam", 0, "9", ':');
    assert At("9:spam", 0, "9:") && "9:spam"[0..1] == "9";
    OneDigit('9');
    NoColon("4spam", 0);
    assert "4spam"[0..5] == "4spam";
    assert !IsNatural("4spam") by {
      assert !IsDigit("4spam"[1]);
    }
  }

  lemma {:induction false} NoColon(s: string, i: nat)
    requires i <= |s| && forall k | i <= k < |s| :: s[k] != ':'
    ensures Find(s, i, ':') == |s|
    decreases |s| - i
  {
    if i < |s| {
      NoColon(s, i + 1);
    }
  }

  /** Containers that are not closed, a key that is no string, something behind the value, and no value at all. */
  lemma {:induction false} StructureErrors()
    ensures Decode("l") == Err(ListFormat) && Decode("d") == Err(DictFormat)
    ensures Decode("di1ei2ee") == Err(DictKey) && Decode("i1ee") == Err(InvalidString)
    ensures Decode("") == Err(InvalidString) && Decode("x") == Err(InvalidString)
  {
    OneDigit('1');
    assert Spell(TInt("1")) == "i1e" && At("di1ei2ee", 1, "i1e") && At("i1ee", 0, "i1e");
    ScanIntComplete("di1ei2ee", 1, "1");
    ScanIntComplete("i1ee", 0, "1");
  }

  /** A numeral is read as its value if that is an `int64_t`, and is out of range otherwise. */
  lemma {:induction false} IntegerRange(text: string)
    requires IsNumeral(text) && text != "-0" && |text| + 2 <= INT64_MAX
    ensures Decode("i" + text + "e") ==
            if -0x8000_0000_0000_0000 <= NumeralValue(text) <= 0x7FFF_FFFF_FFFF_FFFF then Ok(Int(NumeralValue(text)))
            else Thrown(OutOfRange)
  {
    var s := "i" + text + "e";
    NumeralCharacters(text);
    assert At(s, 1, text + "e") && s[1..1 + |text|] == text;
    FindAt(s, 1, text, 'e');
  }

  /** A string whose length is no `int64_t` is out of range, whatever follows. */
  lemma {:induction false} SizeRange(size: string, rest: string)
    requires IsNatural(size) && NaturalValue(size) > 0x7FFF_FFFF_FFFF_FFFF && 3 <= |size + ":" + rest| <= INT64_MAX
    ensures Decode(size + ":" + rest) == Thrown(OutOfRange)
  {
    var s := size + ":" + rest;
    assert At(s, 0, size + ":") && s[0..|size|] == size;
    FindAt(s, 0, size, ':');
    assert s[0] == size[0] && IsDigit(size[0]);
  }

  // ----- Values -----

  lemma {:induction false} PrintTwoDigits(a: nat, b: nat)
    requires 0 < a < 10 && b < 10
    ensures PrintNatural(10 * a + b) == [Digit(a), Digit(b)]
  {
    assert (10 * a + b) / 10 == a && (10 * a + b) % 10 == b;
  }

  /** Printed: an integer of either sign and a string. */
  lemma {:induction false} PrintedTexts()
    ensures Encode(Int(42)) == "i42e" && Encode(Int(-42)) == "i-42e" && Encode(Str("spam")) == "4:spam"
  {
    PrintTwoDigits(4, 2);
    TenDigits();
    assert PrintNatural(4) == "4";
  }

  /** Printed: a list, and the empty containers. */
  lemma {:induction false} PrintedLists()
    ensures Encode(List([Int(42), Str("spam")])) == "li42e4:spame"
    ensures Encode(List([])) == "le" && Encode(Dict([])) == "de"
  {
    PrintedTexts();
    EncodeTwo(Int(42), Str("spam"));
    assert "l" + ("i42e" + "4:spam") + "e" == "li42e4:spame";
  }

  lemma {:induction false} EncodeTwo(v: Value, w: Value)
    ensures EncodeAll([v, w]) == Encode(v) + Encode(w)
  {
    assert [v, w][1..] == [w] && [w][1..] == [];
    assert EncodeAll([w]) == Encode(w);
  }

  lemma {:induction false} ReadTexts()
    ensures Decode("i42e") == Ok(Int(42)) && Decode("i-42e") == Ok(Int(-42)) && Decode("4:spam") == Ok(Str("spam"))
    ensures Decode("li42e4:spame") == Ok(List([Int(42), Str("spam")]))
  {
    PrintedTexts();
    PrintedLists();
    RoundTrip(Int(42));
    RoundTrip(Int(-42));
    RoundTrip(Str("spam"));
    var items := [Int(42), Str("spam")];
    assert items[1..] == [Str("spam")] && [Str("spam")][1..] == [];
    assert AllValid([Str("spam")]) && AllValid(items);
    RoundTrip(List(items));
  }
}
