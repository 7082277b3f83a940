/**
 What the recursive-descent parser reads from a text, as a function of the text
 and the cursor. It yields the syntax tree it recognised, so that what was
 consumed can be compared with what was understood.

 Reads at or past the end of the text behave as an unexpected character.
 */
module Scan {
  import opened Decimal
  import opened Sequences
  import opened Bencode
  import opened Spelling

  datatype Error =
    | InvalidString | IntFormat | IntValue | StringFormat
    | ListFormat | DictFormat | DictKey | DictKeyOrder

  /** C++ exceptions that can leave the parser. */
  datatype Exception = OutOfRange | InvalidArgument

  datatype Outcome<+T> = Ok(value: T) | Err(error: Error) | Thrown(exception: Exception)

  /** An outcome together with the cursor it leaves behind. */
  datatype Step<+T> = Step(out: Outcome<T>, next: nat)

  /** The first position from `i` on that holds `c`, or the end of the text. */
  function Find(s: string, i: nat, c: char): (e: nat)
    requires i <= |s|
    ensures i <= e <= |s|
    ensures e < |s| ==> s[e] == c
    ensures forall k | i <= k < e :: s[k] != c
    decreases |s| - i
  {
    if i == |s| || s[i] == c then i else Find(s, i + 1, c)
  }

  function ScanInt(s: string, i: nat): (r: Step<Tree>)
    requires i < |s|
    ensures r.out.Ok? ==> i < r.next <= |s| + 1
    ensures i <= r.next <= |s| + 1
  {
    if |s| - i < 3 then Step(Err(IntFormat), i)
    else
      var e := Find(s, i + 1, 'e');
      var text := s[i + 1..e];
      if e == |s| then Step(Err(IntFormat), e)
      else if text == "-0" || !IsNumeral(text) then Step(Err(IntValue), e)
      else if INT64_MIN <= NumeralValue(text) <= INT64_MAX then Step(Ok(TInt(text)), e + 1)
      else Step(Thrown(OutOfRange), e + 1)
  }

  function ScanString(s: string, i: nat): (r: Step<Tree>)
    requires i < |s|
    ensures r.out.Ok? ==> i < r.next
    ensures i <= r.next <= |s| + 1
    ensures r.out.Ok? ==> r.out.value.TStr?
  {
    if |s| - i < 3 then Step(Err(StringFormat), i)
    else
      var e := Find(s, i, ':');
      var size := s[i..e];
      if !IsNatural(size) then Step(Err(InvalidString), e)
      else if NaturalValue(size) > INT64_MAX then Step(Thrown(OutOfRange), e + 1)
      else
        var n := NaturalValue(size);
        if e == |s| then
          // No colon was found: the cursor has stepped past the end.
          if n == 0 then Step(Ok(TStr(size, "")), |s| + 1) else Step(Err(InvalidString), |s| + 1)
        else if e + 1 + n <= |s| then Step(Ok(TStr(size, s[e + 1..e + 1 + n])), e + 1 + n)
        else Step(Err(InvalidString), |s|)
  }

  function Scan(s: string, i: nat): (r: Step<Tree>)
    requires i <= |s| + 1
    ensures r.out.Ok? ==> i < r.next
    ensures i <= r.next <= |s| + 1
    decreases |s| + 2 - i, 0
  {
    if i >= |s| then Step(Err(InvalidString), i)
    else if s[i] == 'i' then ScanInt(s, i)
    else if IsDigit(s[i]) then ScanString(s, i)
    else if s[i] == 'l' then
      if |s| - i < 2 then Step(Err(ListFormat), i)
      else
        var r := ScanItems(s, i + 1);
        if !r.out.Ok? then Step(Fail(r.out), r.next)
        else if r.next >= |s| then Step(Err(ListFormat), r.next)
        else Step(Ok(TList(r.out.value)), r.next + 1)
    else if s[i] == 'd' then
      if |s| - i < 2 then Step(Err(DictFormat), i)
      else
        var r := ScanEntries(s, i + 1);
        if !r.out.Ok? then Step(Fail(r.out), r.next)
        else if r.next >= |s| then Step(Err(DictFormat), r.next)
        else if !KeysInOrder(r.out.value) then Step(Err(DictKeyOrder), r.next)
        else Step(Ok(TDict(r.out.value)), r.next + 1)
    else Step(Err(InvalidString), i)
  }

  /** The item loop of a list: stops on 'e' or at the end of the text. */
  function ScanItems(s: string, i: nat): (r: Step<seq<Tree>>)
    requires i <= |s| + 1
    ensures i <= r.next <= |s| + 1
    ensures r.out.Ok? && r.next < |s| ==> s[r.next] == 'e'
    decreases |s| + 2 - i, 1
  {
    if i >= |s| || s[i] == 'e' then Step(Ok([]), i)
    else
      var r := Scan(s, i);
      if !r.out.Ok? then Step(Fail(r.out), r.next)
      else Prepend([r.out.value], ScanItems(s, r.next))
  }

  /** One key and its value; the key may turn out not to be a string. */
  function ScanEntry(s: string, i: nat): (r: Step<Entry>)
    requires i <= |s| + 1
    ensures r.out.Ok? ==> i < r.next
    ensures i <= r.next <= |s| + 1
    decreases |s| + 2 - i, 1
  {
    var k := Scan(s, i);
    if !k.out.Ok? then Step(Fail(k.out), k.next)
    else if !k.out.value.TStr? then Step(Err(DictKey), k.next)
    else
      var v := Scan(s, k.next);
      if !v.out.Ok? then Step(Fail(v.out), v.next)
      else Step(Ok(Entry(k.out.value.size, k.out.value.body, v.out.value)), v.next)
  }

  /** The item loop of a dictionary. */
  function ScanEntries(s: string, i: nat): (r: Step<seq<Entry>>)
    requires i <= |s| + 1
    ensures i <= r.next <= |s| + 1
    ensures r.out.Ok? && r.next < |s| ==> s[r.next] == 'e'
    decreases |s| + 2 - i, 2
  {
    if i >= |s| || s[i] == 'e' then Step(Ok([]), i)
    else
      var r := ScanEntry(s, i);
      if !r.out.Ok? then Step(Fail(r.out), r.next)
      else Prepend([r.out.value], ScanEntries(s, r.next))
  }

  /** Passes a failure on at another type. */
  function Fail<T, U>(out: Outcome<T>): Outcome<U>
    requires !out.Ok?
  {
    match out
    case Err(e) => Err(e)
    case Thrown(x) => Thrown(x)
  }

  function Prepend<T>(xs: seq<T>, r: Step<seq<T>>): Step<seq<T>> {
    if r.out.Ok? then Step(Ok(xs + r.out.value), r.next) else r
  }

  predicate ZerosFrom(s: string, i: nat) {
    forall k | i <= k < |s| :: s[k] == '0'
  }

  lemma {:induction false} StringPastEnd(s: string, i: nat)
    requires i < |s|
    ensures ScanString(s, i).out.Ok? && ScanString(s, i).next == |s| + 1 <==> i + 3 <= |s| && ZerosFrom(s, i)
  {
    var e := Find(s, i, ':');
    var size := s[i..e];
    if i + 3 <= |s| {
      if ZerosFrom(s, i) {
        assert e == |s|;
        NaturalZero(size);
      } else if e == |s| && IsNatural(size) {
        NaturalZero(size);
        assert forall k | i <= k < |s| :: size[k - i] == s[k];
      }
    }
  }

  /** Exactly when a success leaves the cursor past the end of the text: three or more zeros and nothing else remain. */
  lemma {:induction false} PastEndExact(s: string, i: nat)
    requires i <= |s| + 1
    ensures Scan(s, i).out.Ok? && Scan(s, i).next == |s| + 1 <==> i + 3 <= |s| && ZerosFrom(s, i)
  {
    if i < |s| && IsDigit(s[i]) {
      StringPastEnd(s, i);
    }
  }

  /** Three zeros: a string without a colon, and the cursor one past the end. */
  lemma {:induction false} ThreeZeros()
    ensures Scan("000", 0).out.Ok? && Scan("000", 0).next == 4
  {
    PastEndExact("000", 0);
  }

  /** `BencodeParser::decode(const std::string&)`: the whole text must be consumed. */
  function Decode(s: string): Outcome<Value> {
    if |s| > INT64_MAX then Thrown(InvalidArgument)
    else
      var r := Scan(s, 0);
      if !r.out.Ok? then Fail(r.out)
      else if r.next != |s| then Err(InvalidString)
      else Ok(Meaning(r.out.value))
  }

  // ----- Soundness: what was consumed is the spelling of what was recognised -----

  /** `x` stands in `s` at position `i`. */
  predicate At(s: string, i: nat, x: string) {
    i + |x| <= |s| && s[i..i + |x|] == x
  }

  lemma {:induction false} AtAppend(s: string, i: nat, x: string, y: string)
    ensures At(s, i, x + y) <==> At(s, i, x) && At(s, i + |x|, y)
  {
    if i + |x| + |y| <= |s| {
      assert s[i..i + |x + y|] == s[i..i + |x|] + s[i + |x|..i + |x| + |y|];
      if At(s, i, x + y) {
        assert (x + y)[..|x|] == x && (x + y)[|x|..] == y;
      }
    }
  }

  /** `x` was consumed between the cursors `i` and `next`. */
  predicate Consumed(s: string, i: nat, x: string, next: nat) {
    next == i + |x| && At(s, i, x)
  }

  lemma {:induction false} ConsumedAppend(s: string, i: nat, x: string, j: nat, y: string, k: nat)
    requires Consumed(s, i, x, j) && Consumed(s, j, y, k)
    ensures Consumed(s, i, x + y, k)
  {
    AtAppend(s, i, x, y);
  }

  lemma {:induction false} ConsumedChar(s: string, i: nat)
    requires i < |s|
    ensures Consumed(s, i, [s[i]], i + 1)
  {
  }

  /** A successful step that stays inside the text consumed the spelling of a well-formed tree. */
  predicate TreeSound(s: string, i: nat, r: Step<Tree>) {
    r.out.Ok? && r.next <= |s| ==> WellFormed(r.out.value) && Consumed(s, i, Spell(r.out.value), r.next)
  }

  predicate ItemsSound(s: string, i: nat, r: Step<seq<Tree>>) {
    r.out.Ok? && r.next <= |s| ==> AllWellFormed(r.out.value) && Consumed(s, i, SpellAll(r.out.value), r.next)
  }

  predicate EntriesSound(s: string, i: nat, r: Step<seq<Entry>>) {
    r.out.Ok? && r.next <= |s| ==> EntriesWellFormed(r.out.value) && Consumed(s, i, SpellEntries(r.out.value), r.next)
  }

  lemma {:induction false} ScanIntSound(s: string, i: nat)
    requires i < |s| && s[i] == 'i'
    ensures TreeSound(s, i, ScanInt(s, i))
  {
    var r := ScanInt(s, i);
    if r.out.Ok? {
      var e := Find(s, i + 1, 'e');
      assert s[i..e + 1] == "i" + r.out.value.text + "e";
    }
  }

  lemma {:induction false} ScanStringSound(s: string, i: nat)
    requires i < |s|
    ensures TreeSound(s, i, ScanString(s, i))
  {
    var r := ScanString(s, i);
    if r.out.Ok? && r.next <= |s| {
      var t := r.out.value;
      var e := Find(s, i, ':');
      assert s[i..r.next] == t.size + ":" + t.body;
    }
  }

  lemma {:induction false} ScanListSound(s: string, i: nat)
    requires i < |s| && s[i] == 'l' && ItemsSound(s, i + 1, ScanItems(s, i + 1))
    ensures TreeSound(s, i, Scan(s, i))
  {
    var r := Scan(s, i);
    if r.out.Ok? {
      var inner := SpellAll(r.out.value.items);
      ConsumedChar(s, i);
      ConsumedChar(s, r.next - 1);
      ConsumedAppend(s, i, "l", i + 1, inner, r.next - 1);
      ConsumedAppend(s, i, "l" + inner, r.next - 1, "e", r.next);
    }
  }

  lemma {:induction false} ScanDictSound(s: string, i: nat)
    requires i < |s| && s[i] == 'd' && EntriesSound(s, i + 1, ScanEntries(s, i + 1))
    ensures TreeSound(s, i, Scan(s, i))
  {
    var r := Scan(s, i);
    if r.out.Ok? {
      var inner := SpellEntries(r.out.value.entries);
      ConsumedChar(s, i);
      ConsumedChar(s, r.next - 1);
      ConsumedAppend(s, i, "d", i + 1, inner, r.next - 1);
      ConsumedAppend(s, i, "d" + inner, r.next - 1, "e", r.next);
    }
  }

  /** Every successful scan that stays inside the text consumed exactly the spelling of a well-formed tree. */
  lemma {:induction false} ScanSound(s: string, i: nat)
    requires i <= |s| + 1
    ensures TreeSound(s, i, Scan(s, i))
    decreases |s| + 2 - i, 0
  {
    if i < |s| {
      if s[i] == 'i' {
        ScanIntSound(s, i);
      } else if IsDigit(s[i]) {
        ScanStringSound(s, i);
      } else if s[i] == 'l' {
        ScanItemsSound(s, i + 1);
        ScanListSound(s, i);
      } else if s[i] == 'd' {
        ScanEntriesSound(s, i + 1);
        ScanDictSound(s, i);
      }
    }
  }

  lemma {:induction false} ScanItemsSound(s: string, i: nat)
    requires i <= |s| + 1
    ensures ItemsSound(s, i, ScanItems(s, i))
    decreases |s| + 2 - i, 1
  {
    if i < |s| && s[i] != 'e' {
      var first := Scan(s, i);
      if first.out.Ok? {
        ScanSound(s, i);
        ScanItemsSound(s, first.next);
        var rest := ScanItems(s, first.next);
        if rest.out.Ok? && rest.next <= |s| {
          assert ([first.out.value] + rest.out.value)[1..] == rest.out.value;
          ConsumedAppend(s, i, Spell(first.out.value), first.next, SpellAll(rest.out.value), rest.next);
        }
      }
    }
  }

  lemma {:induction false} ScanEntriesSound(s: string, i: nat)
    requires i <= |s| + 1
    ensures EntriesSound(s, i, ScanEntries(s, i))
    decreases |s| + 2 - i, 1
  {
    if i < |s| && s[i] != 'e' {
      var key := Scan(s, i);
      var first := ScanEntry(s, i);
      if first.out.Ok? {
        ScanSound(s, i);
        ScanSound(s, key.next);
        ScanEntriesSound(s, first.next);
        EntriesSoundCons(s, i, key.next, first, ScanEntries(s, first.next));
      }
    }
  }

  lemma {:induction false} EntriesSoundCons(s: string, i: nat, mid: nat, first: Step<Entry>, rest: Step<seq<Entry>>)
    requires first.out.Ok? && mid <= first.next <= rest.next
    requires var e := first.out.value;
      TreeSound(s, i, Step(Ok(TStr(e.size, e.key)), mid)) && TreeSound(s, mid, Step(Ok(e.value), first.next))
    requires EntriesSound(s, first.next, rest)
    ensures EntriesSound(s, i, Prepend([first.out.value], rest))
  {
    var e := first.out.value;
    if rest.out.Ok? && rest.next <= |s| {
      var others := SpellEntries(rest.out.value);
      assert ([e] + rest.out.value)[1..] == rest.out.value;
      ConsumedAppend(s, mid, Spell(e.value), first.next, others, rest.next);
      ConsumedAppend(s, i, SpellKey(e), mid, Spell(e.value) + others, rest.next);
    }
  }

  // ----- Completeness: every well-formed spelling is recognised where it stands -----

  /** A spelling starts with the character that selects its decoder, never with 'e'. */
  lemma {:induction false} SpellFirst(t: Tree)
    requires WellFormed(t)
    ensures Spell(t)[0] != 'e'
    ensures t.TInt? ==> Spell(t)[0] == 'i'
    ensures t.TStr? ==> IsDigit(Spell(t)[0])
    ensures t.TList? ==> Spell(t)[0] == 'l'
    ensures t.TDict? ==> Spell(t)[0] == 'd'
  {
    if t.TStr? {
      assert Spell(t)[0] == t.size[0];
    }
  }

  lemma {:induction false} FindAt(s: string, i: nat, x: string, c: char)
    requires At(s, i, x + [c]) && c !in x
    ensures Find(s, i, c) == i + |x|
  {
    AtAppend(s, i, x, [c]);
    assert s[i + |x|] == s[i + |x|..i + |x| + 1][0] == c;
    forall k | i <= k < i + |x|
      ensures s[k] != c
    {
      assert s[k] == s[i..i + |x|][k - i] == x[k - i];
      assert x[k - i] in x;
    }
  }

  lemma {:induction false} NumeralCharacters(text: string)
    requires IsNumeral(text)
    ensures 'e' !in text
  {
    if text[0] == '-' {
      assert text == "-" + text[1..];
    }
  }

  lemma {:induction false} ScanIntComplete(s: string, i: nat, text: string)
    requires WellFormed(TInt(text)) && At(s, i, Spell(TInt(text)))
    ensures ScanInt(s, i) == Step(Ok(TInt(text)), i + |Spell(TInt(text))|)
  {
    Associative("i", text, "e");
    AtAppend(s, i, "i", text + "e");
    AtAppend(s, i + 1, text, "e");
    NumeralCharacters(text);
    FindAt(s, i + 1, text, 'e');
  }

  lemma {:induction false} ScanStringComplete(s: string, i: nat, size: string, body: string)
    requires SizeOf(size, body) && At(s, i, Spell(TStr(size, body))) && |s| - i >= 3
    ensures ScanString(s, i) == Step(Ok(TStr(size, body)), i + |Spell(TStr(size, body))|)
  {
    AtAppend(s, i, size + ":", body);
    AtAppend(s, i, size, ":");
    assert ':' !in size;
    FindAt(s, i, size, ':');
  }

  lemma {:induction false} AtFirst(s: string, i: nat, x: string)
    requires At(s, i, x) && x != ""
    ensures i < |s| && s[i] == x[0]
  {
    assert s[i] == s[i..i + |x|][0];
  }

  lemma {:induction false} ScanListComplete(s: string, i: nat, items: seq<Tree>)
    requires At(s, i, Spell(TList(items)))
    requires At(s, i + 1, SpellAll(items)) && At(s, i + 1 + |SpellAll(items)|, "e") ==>
             ScanItems(s, i + 1) == Step(Ok(items), i + 1 + |SpellAll(items)|)
    ensures Scan(s, i) == Step(Ok(TList(items)), i + |Spell(TList(items))|)
  {
    AtAppend(s, i, "l" + SpellAll(items), "e");
    AtAppend(s, i, "l", SpellAll(items));
    AtFirst(s, i, "l");
  }

  lemma {:induction false} ScanDictComplete(s: string, i: nat, entries: seq<Entry>)
    requires At(s, i, Spell(TDict(entries))) && KeysInOrder(entries)
    requires At(s, i + 1, SpellEntries(entries)) && At(s, i + 1 + |SpellEntries(entries)|, "e") ==>
             ScanEntries(s, i + 1) == Step(Ok(entries), i + 1 + |SpellEntries(entries)|)
    ensures Scan(s, i) == Step(Ok(TDict(entries)), i + |Spell(TDict(entries))|)
  {
    AtAppend(s, i, "d" + SpellEntries(entries), "e");
    AtAppend(s, i, "d", SpellEntries(entries));
    AtFirst(s, i, "d");
  }

  lemma {:induction false} ScanLeafComplete(s: string, i: nat, t: Tree)
    requires WellFormed(t) && At(s, i, Spell(t)) && (t.TInt? || (t.TStr? && |s| - i >= 3))
    ensures Scan(s, i) == Step(Ok(t), i + |Spell(t)|)
  {
    SpellFirst(t);
    AtFirst(s, i, Spell(t));
    match t
    case TInt(text) => ScanIntComplete(s, i, text);
    case TStr(size, body) => ScanStringComplete(s, i, size, body);
  }

  /** A well-formed spelling is recognised between any prefix and suffix; a string needs three characters of room. */
  lemma {:induction false} ScanComplete(s: string, i: nat, t: Tree)
    requires WellFormed(t) && At(s, i, Spell(t))
    requires t.TStr? ==> |s| - i >= 3
    ensures Scan(s, i) == Step(Ok(t), i + |Spell(t)|)
    decreases t, 2
  {
    match t
    case TList(items) => ListComplete(s, i, items);
    case TDict(entries) => DictComplete(s, i, entries);
    case _ => ScanLeafComplete(s, i, t);
  }

  lemma {:induction false} ListComplete(s: string, i: nat, items: seq<Tree>)
    requires AllWellFormed(items) && At(s, i, Spell(TList(items)))
    ensures Scan(s, i) == Step(Ok(TList(items)), i + |Spell(TList(items))|)
    decreases items, 1
  {
    if At(s, i + 1, SpellAll(items)) && At(s, i + 1 + |SpellAll(items)|, "e") {
      ScanItemsComplete(s, i + 1, items);
    }
    ScanListComplete(s, i, items);
  }

  lemma {:induction false} DictComplete(s: string, i: nat, entries: seq<Entry>)
    requires EntriesWellFormed(entries) && KeysInOrder(entries) && At(s, i, Spell(TDict(entries)))
    ensures Scan(s, i) == Step(Ok(TDict(entries)), i + |Spell(TDict(entries))|)
    decreases entries, 2
  {
    if At(s, i + 1, SpellEntries(entries)) && At(s, i + 1 + |SpellEntries(entries)|, "e") {
      ScanEntriesComplete(s, i + 1, entries);
    }
    ScanDictComplete(s, i, entries);
  }

  lemma {:induction false} ScanNothing(s: string, i: nat)
    requires At(s, i, "e")
    ensures ScanItems(s, i) == Step(Ok([]), i) && ScanEntries(s, i) == Step(Ok([]), i)
  {
    AtFirst(s, i, "e");
  }

  lemma {:induction false} SpellAllAt(s: string, i: nat, items: seq<Tree>)
    requires items != [] && At(s, i, SpellAll(items))
    ensures var next := i + |Spell(items[0])|;
      At(s, i, Spell(items[0])) && At(s, next, SpellAll(items[1..])) &&
      next + |SpellAll(items[1..])| == i + |SpellAll(items)|
  {
    AtAppend(s, i, Spell(items[0]), SpellAll(items[1..]));
  }

  lemma {:induction false} ScanItemsCons(s: string, i: nat, t: Tree, j: nat, rest: seq<Tree>, k: nat)
    requires i < |s| && s[i] != 'e' && j <= |s| + 1
    requires Scan(s, i) == Step(Ok(t), j) && ScanItems(s, j) == Step(Ok(rest), k)
    ensures ScanItems(s, i) == Step(Ok([t] + rest), k)
  {
  }

  lemma {:induction false} ItemComplete(s: string, i: nat, t: Tree)
    requires WellFormed(t) && At(s, i, Spell(t)) && i + |Spell(t)| < |s|
    requires t.TStr? ==> |s| - i >= 3
    ensures i < |s| && s[i] != 'e'
  {
    SpellFirst(t);
    AtFirst(s, i, Spell(t));
  }

  /** The first item of a list stands where its items do, with room for it and the others behind it. */
  lemma {:induction false} FirstItem(s: string, i: nat, items: seq<Tree>)
    requires items != [] && AllWellFormed(items) && At(s, i, SpellAll(items)) && At(s, i + |SpellAll(items)|, "e")
    ensures var next := i + |Spell(items[0])|;
      && At(s, i, Spell(items[0])) && (items[0].TStr? ==> |s| - i >= 3) && i < |s| && s[i] != 'e' && next <= |s|
      && At(s, next, SpellAll(items[1..])) && next + |SpellAll(items[1..])| == i + |SpellAll(items)|
  {
    SpellAllAt(s, i, items);
    StringRoom(items[0]);
    ItemComplete(s, i, items[0]);
  }

  lemma {:induction false} ScanItemsComplete(s: string, i: nat, items: seq<Tree>)
    requires AllWellFormed(items) && At(s, i, SpellAll(items)) && At(s, i + |SpellAll(items)|, "e")
    ensures ScanItems(s, i) == Step(Ok(items), i + |SpellAll(items)|)
    decreases items, 0
  {
    if items == [] {
      ScanNothing(s, i);
    } else {
      var t, next := items[0], i + |Spell(items[0])|;
      FirstItem(s, i, items);
      ScanComplete(s, i, t);
      ScanItemsComplete(s, next, items[1..]);
      ScanItemsCons(s, i, t, next, items[1..], i + |SpellAll(items)|);
      HeadRest(items);
    }
  }

  lemma {:induction false} KeyComplete(s: string, i: nat, size: string, key: string)
    requires SizeOf(size, key) && At(s, i, size + ":" + key) && |s| - i >= 3
    ensures Scan(s, i) == Step(Ok(TStr(size, key)), i + |size + ":" + key|)
    ensures s[i] != 'e'
  {
    AtFirst(s, i, size + ":" + key);
    assert s[i] == size[0];
    ScanStringComplete(s, i, size, key);
  }

  lemma {:induction false} ScanEntryParts(s: string, i: nat, e: Entry, mid: nat, next: nat)
    requires i <= |s| && mid <= |s| + 1
    requires Scan(s, i) == Step(Ok(TStr(e.size, e.key)), mid) && Scan(s, mid) == Step(Ok(e.value), next)
    ensures ScanEntry(s, i) == Step(Ok(e), next)
  {
  }

  lemma {:induction false} ScanEntryComplete(s: string, i: nat, e: Entry)
    requires SizeOf(e.size, e.key) && WellFormed(e.value)
    requires At(s, i, SpellKey(e)) && At(s, i + |SpellKey(e)|, Spell(e.value))
    requires i + |SpellKey(e)| + |Spell(e.value)| < |s|
    ensures ScanEntry(s, i) == Step(Ok(e), i + |SpellKey(e)| + |Spell(e.value)|)
    ensures s[i] != 'e'
    decreases e, 0
  {
    var mid := i + |SpellKey(e)|;
    StringRoom(e.value);
    KeyComplete(s, i, e.size, e.key);
    ScanComplete(s, mid, e.value);
    ScanEntryParts(s, i, e, mid, mid + |Spell(e.value)|);
  }

  lemma {:induction false} AtThree(s: string, i: nat, x: string, y: string, z: string)
    requires At(s, i, x + (y + z))
    ensures At(s, i, x) && At(s, i + |x|, y) && At(s, i + |x| + |y|, z)
  {
    AtAppend(s, i, x, y + z);
    AtAppend(s, i + |x|, y, z);
  }

  lemma {:induction false} SpellEntriesAt(s: string, i: nat, entries: seq<Entry>)
    requires entries != [] && At(s, i, SpellEntries(entries))
    ensures var e, rest := entries[0], entries[1..];
      var mid := i + |SpellKey(e)|;
      var next := mid + |Spell(e.value)|;
      At(s, i, SpellKey(e)) && At(s, mid, Spell(e.value)) && At(s, next, SpellEntries(rest)) &&
      next + |SpellEntries(rest)| == i + |SpellEntries(entries)|
  {
    AtThree(s, i, SpellKey(entries[0]), Spell(entries[0].value), SpellEntries(entries[1..]));
  }

  lemma {:induction false} ScanEntriesCons(s: string, i: nat, e: Entry, j: nat, rest: seq<Entry>, k: nat)
    requires i < |s| && s[i] != 'e' && j <= |s| + 1
    requires ScanEntry(s, i) == Step(Ok(e), j) && ScanEntries(s, j) == Step(Ok(rest), k)
    ensures ScanEntries(s, i) == Step(Ok([e] + rest), k)
  {
  }

  lemma {:induction false} EntryThenRest(s: string, i: nat, entries: seq<Entry>)
    requires entries != [] && EntriesWellFormed(entries) && At(s, i, SpellEntries(entries))
    requires i + |SpellEntries(entries)| < |s|
    ensures ScanEntry(s, i) == Step(Ok(entries[0]), i + |SpellKey(entries[0])| + |Spell(entries[0].value)|)
    ensures i < |s| && s[i] != 'e'
    decreases entries, 0
  {
    SpellEntriesAt(s, i, entries);
    ScanEntryComplete(s, i, entries[0]);
  }

  lemma {:induction false} ScanEntriesComplete(s: string, i: nat, entries: seq<Entry>)
    requires EntriesWellFormed(entries) && At(s, i, SpellEntries(entries)) && At(s, i + |SpellEntries(entries)|, "e")
    ensures ScanEntries(s, i) == Step(Ok(entries), i + |SpellEntries(entries)|)
    decreases entries, 1
  {
    if entries == [] {
      ScanNothing(s, i);
    } else {
      SpellEntriesAt(s, i, entries);
      EntryThenRest(s, i, entries);
      var next, end := i + |SpellKey(entries[0])| + |Spell(entries[0].value)|, i + |SpellEntries(entries)|;
      ScanEntriesComplete(s, next, entries[1..]);
      ScanEntriesCons(s, i, entries[0], next, entries[1..], end);
      HeadRest(entries);
    }
  }

  /** Inside a list or dictionary the closing 'e' always gives a string its three characters. */
  lemma {:induction false} StringRoom(t: Tree)
    requires WellFormed(t)
    ensures |Spell(t)| >= 2
  {
  }
}
