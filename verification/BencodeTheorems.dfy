/**
 The parser and the printer together: which texts are accepted, what they mean,
 and how printing and reading undo each other.
 */
module BencodeTheorems {
  import opened Decimal
  import opened Bencode
  import opened Spelling
  import opened Scan

  /** The text is a spelling of the value under the grammar. */
  ghost predicate Spells(s: string, v: Value) {
    exists t :: WellFormed(t) && Spell(t) == s && Meaning(t) == v
  }

  /** The text has no redundant zero and no repeated key. */
  ghost predicate CanonicalText(s: string) {
    exists t :: WellFormed(t) && Spell(t) == s && Canonical(t)
  }

  /** A string tree that fits in two characters is "0:". */
  lemma {:induction false} ShortString(t: Tree)
    requires WellFormed(t) && t.TStr? && |Spell(t)| < 3
    ensures Spell(t) == "0:" && Meaning(t) == Str("")
  {
    assert |t.size| == 1 && t.body == "";
    assert t.size[..0] == "";
    assert t.size == "0";
  }

  /** Decoding accepts exactly the well-formed spellings, other than a bare "0:", and returns their meaning. */
  lemma {:induction false} DecodeExact(s: string, v: Value)
    ensures Decode(s) == Ok(v) <==> |s| <= INT64_MAX && s != "0:" && Spells(s, v)
  {
    if Decode(s) == Ok(v) {
      var t := Scan.Scan(s, 0).out.value;
      ScanSound(s, 0);
      assert s[0..|s|] == s;
      assert Spell(t) == s;
    }
    if |s| <= INT64_MAX && s != "0:" && Spells(s, v) {
      var t :| WellFormed(t) && Spell(t) == s && Meaning(t) == v;
      assert s[0..|s|] == s;
      if t.TStr? && |s| < 3 {
        ShortString(t);
      }
      ScanComplete(s, 0, t);
    }
  }

  /** Decoding the encoding of a value gives the value back, unless it is the bare empty string or does not fit. */
  lemma {:induction false} RoundTrip(v: Value)
    requires Valid(v)
    ensures Decode(Encode(v)) == Ok(v) <==> v != Str("") && |Encode(v)| <= INT64_MAX
  {
    var t := Plain(v);
    PlainSpells(v);
    PlainMeans(v);
    DecodeExact(Encode(v), v);
    if v == Str("") {
      PrintNaturalFirst(0);
      assert Encode(v) == "0:";
    }
    if Encode(v) == "0:" {
      SpellFirst(t);
      ShortString(t);
    }
  }

  /** No spelling is a proper prefix of another: the tree read from the front of a text is determined by it. */
  lemma {:induction false} UniqueSpelling(t: Tree, a: string, u: Tree, b: string)
    requires WellFormed(t) && WellFormed(u) && Spell(t) + a == Spell(u) + b
    ensures t == u && a == b
  {
    var room := "   ";
    var s := (Spell(t) + a) + room;
    assert s[0..|Spell(t)|] == Spell(t);
    assert s[0..|Spell(u)|] == Spell(u);
    ScanComplete(s, 0, t);
    ScanComplete(s, 0, u);
    assert a == (Spell(t) + a)[|Spell(t)|..];
    assert b == (Spell(u) + b)[|Spell(u)|..];
  }

  /** Unique readability of the printer: encodings are injective and prefix-free. */
  lemma {:induction false} UniqueReadability(v: Value, a: string, w: Value, b: string)
    requires Valid(v) && Valid(w) && Encode(v) + a == Encode(w) + b
    ensures v == w && a == b
  {
    PlainSpells(v);
    PlainMeans(v);
    PlainSpells(w);
    PlainMeans(w);
    UniqueSpelling(Plain(v), a, Plain(w), b);
  }

  /**
   An encoding is read back wherever it stands: between any prefix and suffix that
   leave a string three characters.
   */
  lemma {:induction false} RoundTripInContext(before: string, v: Value, after: string)
    requires Valid(v)
    requires v == Str("") ==> after != ""
    ensures Scan.Scan(before + Encode(v) + after, |before|) == Step(Ok(Plain(v)), |before| + |Encode(v)|)
    ensures Meaning(Plain(v)) == v
  {
    var s := before + Encode(v) + after;
    PlainSpells(v);
    PlainMeans(v);
    assert s[|before|..|before| + |Encode(v)|] == Encode(v);
    if v.Str? && |Encode(v)| < 3 {
      ShortString(Plain(v));
    }
    ScanComplete(s, |before|, Plain(v));
  }

  /**
   Decoding normalises: re-encoding never lengthens, fixes exactly the canonical
   texts and decodes to the same value.
   */
  lemma {:induction false} DecodeNormalises(s: string, v: Value)
    requires Decode(s) == Ok(v)
    ensures Valid(v)
    ensures |Encode(v)| <= |s|
    ensures Encode(v) == s <==> CanonicalText(s)
    ensures Decode(Encode(v)) == Ok(v) <==> v != Str("")
  {
    DecodeExact(s, v);
    var t :| WellFormed(t) && Spell(t) == s && Meaning(t) == v;
    MeaningValid(t);
    PrintNormalises(t);
    RoundTrip(v);
    if CanonicalText(s) {
      var u :| WellFormed(u) && Spell(u) == s && Canonical(u);
      assert Spell(t) + "" == Spell(u) + "";
      UniqueSpelling(t, "", u, "");
    }
  }
}
