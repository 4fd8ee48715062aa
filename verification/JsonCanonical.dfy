/**
  The canonical form as a whole: for parsed JSON, sorted-key compact printings are equal
  exactly when the values are equal as JSON values, that is up to key order at every level
  of nesting.
 */
module JsonCanonical {
  import opened Json
  import opened JsonPrinting

  /** Equality of JSON values: objects are finite maps, and no kind of value equals another kind. */
  datatype Meaning =
    | MNull
    | MBool(b: bool)
    | MInt(n: int)
    | MStr(s: Text)
    | MArr(items: seq<Meaning>)
    | MObj(entries: map<Text, Meaning>)

  function MeaningOf(v: Value): Meaning
    decreases v, 0
  {
    match v
    case Null => MNull
    case Bool(b) => MBool(b)
    case Int(n) => MInt(n)
    case Str(s) => MStr(s)
    case Arr(items) => MArr(MeaningOfItems(items))
    case Obj(fields) => MObj(MeaningOfFields(fields))
  }

  function MeaningOfItems(items: seq<Value>): seq<Meaning>
    decreases items, 1
  {
    if items == [] then [] else [MeaningOf(items[0])] + MeaningOfItems(items[1..])
  }

  function MeaningOfFields(fields: seq<Field>): map<Text, Meaning>
    decreases fields, 1
  {
    if fields == [] then map[]
    else MeaningOfFields(fields[1..])[fields[0].key := MeaningOf(fields[0].value)]
  }

  // ---- What a Python value satisfies ----

  predicate HasKey(fields: seq<Field>, key: Text) {
    exists i | 0 <= i < |fields| :: fields[i].key == key
  }

  /** The keys of every dict are distinct. */
  predicate WellFormed(v: Value)
    decreases v, 0
  {
    match v
    case Arr(items) => WellFormedItems(items)
    case Obj(fields) => WellFormedFields(fields)
    case _ => true
  }

  predicate WellFormedItems(items: seq<Value>)
    decreases items, 1
  {
    items == [] || (WellFormed(items[0]) && WellFormedItems(items[1..]))
  }

  predicate WellFormedFields(fields: seq<Field>)
    decreases fields, 1
  {
    fields == []
    || (WellFormed(fields[0].value) && !HasKey(fields[1..], fields[0].key) && WellFormedFields(fields[1..]))
  }

  /** No high surrogate code point directly before a low one: `json.loads` joins such pairs. */
  predicate PlainText(s: Text) {
    forall i | 0 <= i < |s| - 1 :: !(HighSurrogate(s[i]) && LowSurrogate(s[i + 1]))
  }

  predicate Plain(v: Value)
    decreases v, 0
  {
    match v
    case Str(s) => PlainText(s)
    case Arr(items) => PlainItems(items)
    case Obj(fields) => PlainFields(fields)
    case _ => true
  }

  predicate PlainItems(items: seq<Value>)
    decreases items, 1
  {
    items == [] || (Plain(items[0]) && PlainItems(items[1..]))
  }

  predicate PlainFields(fields: seq<Field>)
    decreases fields, 1
  {
    fields == [] || (PlainText(fields[0].key) && Plain(fields[0].value) && PlainFields(fields[1..]))
  }

  // ---- Key order ----

  lemma {:induction false} KeyOrderTotal(a: Text, b: Text)
    ensures a == b || KeyBefore(a, b) || KeyBefore(b, a)
    ensures !(KeyBefore(a, b) && KeyBefore(b, a)) && !KeyBefore(a, a)
  {
    if a != [] && b != [] && a[0] == b[0] {
      KeyOrderTotal(a[1..], b[1..]);
      assert a == [a[0]] + a[1..] && b == [b[0]] + b[1..];
    }
    if a != [] {
      KeyOrderTotal(a[1..], a[1..]);
    }
  }

  lemma {:induction false} KeyOrderTransitive(a: Text, b: Text, c: Text)
    requires KeyBefore(a, b) && KeyBefore(b, c)
    ensures KeyBefore(a, c)
  {
    if a != [] && a[0] == b[0] == c[0] {
      KeyOrderTransitive(a[1..], b[1..], c[1..]);
    }
  }

  // ---- Sorting ----

  /** Keys strictly ascend. */
  predicate SortedFields(fields: seq<Field>) {
    |fields| <= 1 || (KeyBefore(fields[0].key, fields[1].key) && SortedFields(fields[1..]))
  }

  /** Every object, at every level, is in key order. */
  predicate Canonical(v: Value)
    decreases v, 0
  {
    match v
    case Arr(items) => CanonicalItems(items)
    case Obj(fields) => SortedFields(fields) && CanonicalFields(fields)
    case _ => true
  }

  predicate CanonicalItems(items: seq<Value>)
    decreases items, 1
  {
    items == [] || (Canonical(items[0]) && CanonicalItems(items[1..]))
  }

  predicate CanonicalFields(fields: seq<Field>)
    decreases fields, 1
  {
    fields == [] || (Canonical(fields[0].value) && CanonicalFields(fields[1..]))
  }

  /** Inserting a field with a new key adds exactly that entry and keeps the order. */
  lemma {:induction false} InsertAddsEntry(f: Field, fields: seq<Field>)
    requires f.key !in MeaningOfFields(fields)
    ensures MeaningOfFields(InsertField(f, fields)) == MeaningOfFields(fields)[f.key := MeaningOf(f.value)]
    ensures SortedFields(fields) ==> SortedFields(InsertField(f, fields))
    ensures Canonical(f.value) && CanonicalFields(fields) ==> CanonicalFields(InsertField(f, fields))
    ensures PlainText(f.key) && Plain(f.value) && PlainFields(fields) ==> PlainFields(InsertField(f, fields))
  {
    if fields != [] {
      KeyOrderTotal(fields[0].key, f.key);
      if KeyBefore(fields[0].key, f.key) {
        InsertAddsEntry(f, fields[1..]);
        var rest := InsertField(f, fields[1..]);
        assert InsertField(f, fields)[1..] == rest;
      } else {
        assert InsertField(f, fields)[1..] == fields;
      }
    } else {
      assert InsertField(f, fields)[1..] == [];
    }
  }

  lemma {:induction false} KeysOfMeaning(fields: seq<Field>, key: Text)
    ensures key in MeaningOfFields(fields) <==> HasKey(fields, key)
  {
    if fields != [] {
      KeysOfMeaning(fields[1..], key);
      assert HasKey(fields[1..], key) ==> HasKey(fields, key) by {
        if i :| 0 <= i < |fields[1..]| && fields[1..][i].key == key {
          assert fields[i + 1].key == key;
        }
      }
      if i :| 0 <= i < |fields| && fields[i].key == key && i != 0 {
        assert fields[1..][i - 1].key == key;
      }
    }
  }

  /** Sorting changes neither the meaning nor the strings, and yields a canonical value. */
  lemma {:induction false} CanonKeepsMeaning(v: Value)
    requires WellFormed(v)
    ensures MeaningOf(Canon(v)) == MeaningOf(v) && Canonical(Canon(v))
    ensures Plain(v) ==> Plain(Canon(v))
    decreases v, 0
  {
    match v
    case Arr(items) => CanonKeepsItems(items);
    case Obj(fields) => CanonKeepsFields(fields);
    case _ =>
  }

  lemma {:induction false} CanonKeepsItems(items: seq<Value>)
    requires WellFormedItems(items)
    ensures MeaningOfItems(CanonItems(items)) == MeaningOfItems(items) && CanonicalItems(CanonItems(items))
    ensures PlainItems(items) ==> PlainItems(CanonItems(items))
    decreases items, 1
  {
    if items != [] {
      CanonKeepsMeaning(items[0]);
      CanonKeepsItems(items[1..]);
    }
  }

  lemma {:induction false} CanonKeepsFields(fields: seq<Field>)
    requires WellFormedFields(fields)
    ensures MeaningOfFields(CanonFields(fields)) == MeaningOfFields(fields)
    ensures SortedFields(CanonFields(fields)) && CanonicalFields(CanonFields(fields))
    ensures PlainFields(fields) ==> PlainFields(CanonFields(fields))
    decreases fields, 1
  {
    if fields != [] {
      assert fields[0].value < fields[0];
      CanonKeepsMeaning(fields[0].value);
      CanonKeepsFields(fields[1..]);
      KeysOfMeaning(fields[1..], fields[0].key);
      InsertAddsEntry(Field(fields[0].key, Canon(fields[0].value)), CanonFields(fields[1..]));
    }
  }

  /** The first key of a sorted field list comes before all others. */
  lemma {:induction false} FirstKeyIsLeast(fields: seq<Field>, key: Text)
    requires fields != [] && SortedFields(fields) && key in MeaningOfFields(fields[1..])
    ensures KeyBefore(fields[0].key, key)
  {
    if key in MeaningOfFields(fields[2..]) {
      assert fields[1..][1..] == fields[2..];
      FirstKeyIsLeast(fields[1..], key);
      KeyOrderTransitive(fields[0].key, fields[1].key, key);
    }
  }

  /** A canonical value is determined by its meaning. */
  lemma {:induction false} CanonicalIsUnique(a: Value, b: Value)
    requires Canonical(a) && Canonical(b) && MeaningOf(a) == MeaningOf(b)
    ensures a == b
    decreases a, 0
  {
    match a
    case Arr(items) => CanonicalItemsUnique(items, b.items);
    case Obj(fields) => CanonicalFieldsUnique(fields, b.fields);
    case _ =>
  }

  lemma {:induction false} CanonicalItemsUnique(s: seq<Value>, t: seq<Value>)
    requires CanonicalItems(s) && CanonicalItems(t) && MeaningOfItems(s) == MeaningOfItems(t)
    ensures s == t
    decreases s, 1
  {
    if s != [] {
      assert MeaningOfItems(s)[0] == MeaningOf(s[0]) && MeaningOfItems(s)[1..] == MeaningOfItems(s[1..]);
      assert MeaningOfItems(t)[0] == MeaningOf(t[0]) && MeaningOfItems(t)[1..] == MeaningOfItems(t[1..]);
      CanonicalIsUnique(s[0], t[0]);
      CanonicalItemsUnique(s[1..], t[1..]);
      assert s == [s[0]] + s[1..] && t == [t[0]] + t[1..];
    }
  }

  /** The first key of a sorted list is determined by the map, and so is the rest of the map. */
  lemma SplitFirst(s: seq<Field>, t: seq<Field>)
    requires SortedFields(s) && SortedFields(t) && s != [] && t != [] && MeaningOfFields(s) == MeaningOfFields(t)
    ensures s[0].key == t[0].key && MeaningOf(s[0].value) == MeaningOf(t[0].value)
    ensures MeaningOfFields(s[1..]) == MeaningOfFields(t[1..])
  {
    var a, b := s[0].key, t[0].key;
    var m := MeaningOfFields(s);
    assert a in m && b in m;
    KeyOrderTotal(a, b);
    if a != b {
      FirstKeyIsLeast(s, b);
      FirstKeyIsLeast(t, a);
    }
    assert a !in MeaningOfFields(s[1..]) by {
      if a in MeaningOfFields(s[1..]) { FirstKeyIsLeast(s, a); KeyOrderTotal(a, a); }
    }
    assert a !in MeaningOfFields(t[1..]) by {
      if a in MeaningOfFields(t[1..]) { FirstKeyIsLeast(t, a); KeyOrderTotal(a, a); }
    }
    assert MeaningOfFields(s[1..]) == m - {a} == MeaningOfFields(t[1..]);
  }

  lemma EmptyMeaning(s: seq<Field>)
    ensures s == [] <==> MeaningOfFields(s) == map[]
  {
    assert s != [] ==> s[0].key in MeaningOfFields(s);
  }

  lemma {:induction false} CanonicalFieldsUnique(s: seq<Field>, t: seq<Field>)
    requires SortedFields(s) && CanonicalFields(s) && SortedFields(t) && CanonicalFields(t)
    requires MeaningOfFields(s) == MeaningOfFields(t)
    ensures s == t
    decreases s, 1
  {
    EmptyMeaning(s);
    EmptyMeaning(t);
    if s != [] {
      SplitFirst(s, t);
      assert s[0].value < s[0];
      CanonicalIsUnique(s[0].value, t[0].value);
      CanonicalFieldsUnique(s[1..], t[1..]);
      assert s == [s[0]] + s[1..] && t == [t[0]] + t[1..];
    }
  }

  // ---- Code units ----

  /** Strings without split surrogate pairs are determined by their code units. */
  lemma {:induction false} UnitsInjective(s: Text, t: Text)
    requires PlainText(s) && PlainText(t) && Utf16(s) == Utf16(t)
    ensures s == t
  {
    if s != [] && t != [] {
      var us, ut := Utf16(s), Utf16(t);
      assert us[0] == Units(s[0])[0] && ut[0] == Units(t[0])[0];
      SecondUnit(s);
      SecondUnit(t);
      assert |Units(s[0])| == |Units(t[0])|;
      assert us[|Units(s[0])|..] == Utf16(s[1..]) && ut[|Units(t[0])|..] == Utf16(t[1..]);
      assert us[..|Units(s[0])|] == Units(s[0]) && ut[..|Units(t[0])|] == Units(t[0]);
      assert s[0] == t[0];
      assert PlainText(s[1..]) && PlainText(t[1..]);
      UnitsInjective(s[1..], t[1..]);
      assert s == [s[0]] + s[1..] && t == [t[0]] + t[1..];
    }
  }

  /** In a plain string a high unit is followed by a low unit only inside one code point. */
  lemma SecondUnit(s: Text)
    requires PlainText(s) && s != []
    ensures var us := Utf16(s);
            |us| >= 1 && (|Units(s[0])| == 2 <==> |us| >= 2 && HighSurrogate(us[0]) && LowSurrogate(us[1]))
  {
    if |s| > 1 {
      assert Utf16(s[1..])[0] == Units(s[1])[0];
    }
  }

  lemma {:induction false} PlainUnitsInjective(a: Value, b: Value)
    requires Plain(a) && Plain(b) && UnitsOf(a) == UnitsOf(b)
    ensures a == b
    decreases a, 0
  {
    match a
    case Str(s) => UnitsInjective(s, b.s);
    case Arr(items) => PlainItemsInjective(items, b.items);
    case Obj(fields) => PlainFieldsInjective(fields, b.fields);
    case _ =>
  }

  lemma {:induction false} PlainItemsInjective(s: seq<Value>, t: seq<Value>)
    requires PlainItems(s) && PlainItems(t) && UnitsOfItems(s) == UnitsOfItems(t)
    ensures s == t
    decreases s, 1
  {
    if s != [] {
      assert UnitsOfItems(s)[0] == UnitsOf(s[0]) && UnitsOfItems(s)[1..] == UnitsOfItems(s[1..]);
      assert UnitsOfItems(t)[0] == UnitsOf(t[0]) && UnitsOfItems(t)[1..] == UnitsOfItems(t[1..]);
      PlainUnitsInjective(s[0], t[0]);
      PlainItemsInjective(s[1..], t[1..]);
      assert s == [s[0]] + s[1..] && t == [t[0]] + t[1..];
    }
  }

  lemma {:induction false} PlainFieldsInjective(s: seq<Field>, t: seq<Field>)
    requires PlainFields(s) && PlainFields(t) && UnitsOfFields(s) == UnitsOfFields(t)
    ensures s == t
    decreases s, 1
  {
    if s != [] {
      var us, ut := UnitsOfFields(s), UnitsOfFields(t);
      assert us[0] == Field(AsUnits(s[0].key), UnitsOf(s[0].value)) && us[1..] == UnitsOfFields(s[1..]);
      assert ut[0] == Field(AsUnits(t[0].key), UnitsOf(t[0].value)) && ut[1..] == UnitsOfFields(t[1..]);
      assert s[0].value < s[0];
      UnitsInjective(s[0].key, t[0].key);
      PlainUnitsInjective(s[0].value, t[0].value);
      PlainFieldsInjective(s[1..], t[1..]);
      assert s == [s[0]] + s[1..] && t == [t[0]] + t[1..];
    }
  }

  // ---- Main results ----

  /** What the canonical printing cannot tell apart: equal sorted values, up to UTF-16 code units. */
  predicate SameForm(a: Value, b: Value) {
    UnitsOf(Canon(a)) == UnitsOf(Canon(b))
  }

  /**
    For all values, surrogate halves and repeated keys included, equal canonical
    printings mean the same form. For values as JSON parsing yields them, the same form
    means equality up to key order.
   */
  lemma CanonicalFormIsExact(a: Value, b: Value)
    ensures Dumps(a) == Dumps(b) <==> SameForm(a, b)
    ensures WellFormed(a) && WellFormed(b) && Plain(a) && Plain(b) ==>
              (SameForm(a, b) <==> MeaningOf(a) == MeaningOf(b))
  {
    PrintsAlikeExactly(Canon(a), Canon(b));
    if WellFormed(a) && WellFormed(b) && Plain(a) && Plain(b) {
      FormIsMeaning(a, b);
    }
  }

  lemma FormIsMeaning(a: Value, b: Value)
    requires WellFormed(a) && WellFormed(b) && Plain(a) && Plain(b)
    ensures SameForm(a, b) <==> MeaningOf(a) == MeaningOf(b)
  {
    CanonKeepsMeaning(a);
    CanonKeepsMeaning(b);
    if SameForm(a, b) {
      PlainUnitsInjective(Canon(a), Canon(b));
    }
    if MeaningOf(a) == MeaningOf(b) {
      CanonicalIsUnique(Canon(a), Canon(b));
    }
  }

  /** Without the premise on surrogates the printing is ambiguous: one emoji, or its two halves. */
  lemma SplitSurrogatesCollide()
    ensures Dumps(Str([0x1_F600])) == Dumps(Str([0xD83D, 0xDE00]))
  {
    var whole, halves: Text := [0x1_F600], [0xD83D, 0xDE00];
    assert whole[1..] == [] && halves[1..] == [0xDE00] && halves[1..][1..] == [];
    assert Utf16(whole) == Units(0x1_F600) + Utf16(whole[1..]);
    assert Utf16(halves[1..]) == Units(0xDE00) + Utf16(halves[1..][1..]);
    assert Utf16(halves) == Units(0xD83D) + Utf16(halves[1..]);
    assert Utf16(whole) == [0xD83D, 0xDE00] == Utf16(halves);
  }

  /** sha256_json over an abstract digest: a lowercase hex string in the source. */
  function HashOf(digest: string -> string, v: Value): string {
    digest(Dumps(v))
  }

  /** Two different texts with one digest. */
  predicate Collision(digest: string -> string, s: string, t: string) {
    s != t && digest(s) == digest(t)
  }

  /**
    Two specs have one hash exactly if they have the same form or their canonical forms
    are a collision of the digest, never both: a changed spec that keeps its hash hands
    over a collision.
   */
  lemma HashDetectsAnyChange(digest: string -> string, a: Value, b: Value)
    ensures HashOf(digest, a) == HashOf(digest, b) <==> SameForm(a, b) || Collision(digest, Dumps(a), Dumps(b))
    ensures SameForm(a, b) ==> !Collision(digest, Dumps(a), Dumps(b))
    ensures WellFormed(a) && WellFormed(b) && Plain(a) && Plain(b) ==>
              (SameForm(a, b) <==> MeaningOf(a) == MeaningOf(b))
  {
    CanonicalFormIsExact(a, b);
  }
}
