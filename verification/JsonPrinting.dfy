/**
  Compact printing is unambiguous: two values print alike exactly when they are
  the same value up to how their strings are cut into UTF-16 code units.
 */
module JsonPrinting {
  import opened Json

  lemma CancelPrefix(p: string, q: string, x: string, y: string)
    requires p + x == q + y && |p| == |q|
    ensures p == q && x == y
  {
    assert (p + x)[..|p|] == p && (q + y)[..|p|] == q;
    assert (p + x)[|p|..] == x && (q + y)[|p|..] == y;
  }

  lemma SameFirst(p: string, q: string, x: string, y: string)
    requires p != "" && q != "" && p + x == q + y
    ensures p[0] == q[0]
  {
    assert p[0] == (p + x)[0] && q[0] == (q + y)[0];
  }

  // ---- Strings ----

  lemma HexDigitsDiffer(d: int, e: int)
    requires 0 <= d < 16 && 0 <= e < 16 && HexDigit(d) == HexDigit(e)
    ensures d == e
  {
  }

  lemma HexOfUnit(u: int)
    requires 0 <= u < 0x1_0000
    ensures u == u / 0x1000 * 0x1000 + u / 0x100 % 0x10 * 0x100 + u / 0x10 % 0x10 * 0x10 + u % 0x10
    ensures u / 0x1000 < 0x10
  {
    var a, b := u / 0x10, u / 0x100;
    assert u == a * 0x10 + u % 0x10;
    assert a == b * 0x10 + a % 0x10;
    assert b == u / 0x1000 * 0x10 + b % 0x10;
  }

  /** An escape sequence tells where it ends and which unit it stands for. */
  lemma EscapeUnique(u: int, v: int, x: string, y: string)
    requires 0 <= u < 0x1_0000 && 0 <= v < 0x1_0000
    requires Escape(u) + x == Escape(v) + y
    ensures u == v && x == y
  {
    var p, q := Escape(u), Escape(v);
    assert p[0] == (p + x)[0] == (q + y)[0] == q[0];
    if p[0] == '\\' {
      assert p[1] == (p + x)[1] == (q + y)[1] == q[1];
    }
    assert |p| == |q|;
    CancelPrefix(p, q, x, y);
    if |p| == 6 {
      HexDigitsDiffer(u / 0x1000, v / 0x1000);
      HexDigitsDiffer(u / 0x100 % 0x10, v / 0x100 % 0x10);
      HexDigitsDiffer(u / 0x10 % 0x10, v / 0x10 % 0x10);
      HexDigitsDiffer(u % 0x10, v % 0x10);
      HexOfUnit(u);
      HexOfUnit(v);
    }
  }

  lemma EscapeStart(u: int)
    requires 0 <= u < 0x1_0000
    ensures Escape(u) != "" && Escape(u)[0] != '"'
  {
  }

  /** The closing quote is the first unescaped one. */
  lemma {:induction false} EscapedUnique(us: seq<int>, vs: seq<int>, x: string, y: string)
    requires AllUnits(us) && AllUnits(vs)
    requires EscapeAll(us) + ("\"" + x) == EscapeAll(vs) + ("\"" + y)
    ensures us == vs && x == y
  {
    hide Escape;
    var x', y' := "\"" + x, "\"" + y;
    if us != [] { EscapeStart(us[0]); }
    if vs != [] { EscapeStart(vs[0]); }
    if us == [] && vs == [] {
      assert EscapeAll(us) + x' == x' && EscapeAll(vs) + y' == y';
      CancelPrefix("\"", "\"", x, y);
    } else if us == [] {
      assert EscapeAll(vs) + y' == Escape(vs[0]) + (EscapeAll(vs[1..]) + y');
      SameFirst("\"", Escape(vs[0]), x, EscapeAll(vs[1..]) + y');
    } else if vs == [] {
      assert EscapeAll(us) + x' == Escape(us[0]) + (EscapeAll(us[1..]) + x');
      SameFirst(Escape(us[0]), "\"", EscapeAll(us[1..]) + x', y);
    } else {
      assert EscapeAll(us) + x' == Escape(us[0]) + (EscapeAll(us[1..]) + x');
      assert EscapeAll(vs) + y' == Escape(vs[0]) + (EscapeAll(vs[1..]) + y');
      EscapeUnique(us[0], vs[0], EscapeAll(us[1..]) + x', EscapeAll(vs[1..]) + y');
      EscapedUnique(us[1..], vs[1..], x, y);
    }
  }

  lemma TextUnique(s: Text, t: Text, x: string, y: string)
    requires PrintText(s) + x == PrintText(t) + y
    ensures Utf16(s) == Utf16(t) && x == y
  {
    hide EscapeAll, Utf16;
    UnitsInRange(s);
    UnitsInRange(t);
    assert PrintText(s) + x == "\"" + (EscapeAll(Utf16(s)) + ("\"" + x));
    assert PrintText(t) + y == "\"" + (EscapeAll(Utf16(t)) + ("\"" + y));
    CancelPrefix("\"", "\"", EscapeAll(Utf16(s)) + ("\"" + x), EscapeAll(Utf16(t)) + ("\"" + y));
    EscapedUnique(Utf16(s), Utf16(t), x, y);
  }

  // ---- Numbers ----

  predicate IsDigit(c: char) { '0' <= c <= '9' }

  /** What follows a number never starts with a digit. */
  predicate Delimited(x: string) { x == "" || !IsDigit(x[0]) }

  lemma {:induction false} DigitsAreDigits(n: nat)
    ensures Digits(n) != "" && forall i | 0 <= i < |Digits(n)| :: IsDigit(Digits(n)[i])
  {
    if n >= 10 {
      DigitsAreDigits(n / 10);
    }
  }

  lemma DigitsNotLonger(m: nat, n: nat, x: string, y: string)
    requires Digits(m) + x == Digits(n) + y && Delimited(x)
    ensures |Digits(n)| <= |Digits(m)|
  {
    var p, q := Digits(m), Digits(n);
    DigitsAreDigits(n);
    assert |p| < |p + x| ==> (p + x)[|p|] == x[0];
    assert forall i | 0 <= i < |q| :: (q + y)[i] == q[i];
  }

  lemma {:induction false} DigitsInjective(m: nat, n: nat)
    requires Digits(m) == Digits(n)
    ensures m == n
  {
    DigitsAreDigits(m / 10);
    DigitsAreDigits(n / 10);
    var p, q := Digits(m), Digits(n);
    if m < 10 || n < 10 {
      HexDigitsDiffer(m % 10, n % 10);
    } else {
      assert p[|p| - 1] == HexDigit(m % 10) && q[|q| - 1] == HexDigit(n % 10);
      assert p[..|p| - 1] == Digits(m / 10) && q[..|q| - 1] == Digits(n / 10);
      HexDigitsDiffer(m % 10, n % 10);
      DigitsInjective(m / 10, n / 10);
    }
  }

  lemma IntUnique(m: int, n: int, x: string, y: string)
    requires PrintInt(m) + x == PrintInt(n) + y && Delimited(x) && Delimited(y)
    ensures m == n && x == y
  {
    hide Digits;
    var p, q := PrintInt(m), PrintInt(n);
    DigitsAreDigits(if m < 0 then -m else m);
    DigitsAreDigits(if n < 0 then -n else n);
    assert p[0] == (p + x)[0] == (q + y)[0] == q[0];
    assert m < 0 <==> n < 0;
    if m < 0 {
      assert p + x == "-" + (Digits(-m) + x) && q + y == "-" + (Digits(-n) + y);
      CancelPrefix("-", "-", Digits(-m) + x, Digits(-n) + y);
      DigitsNotLonger(-m, -n, x, y);
      DigitsNotLonger(-n, -m, y, x);
      CancelPrefix(Digits(-m), Digits(-n), x, y);
      DigitsInjective(-m, -n);
    } else {
      DigitsNotLonger(m, n, x, y);
      DigitsNotLonger(n, m, y, x);
      CancelPrefix(Digits(m), Digits(n), x, y);
      DigitsInjective(m, n);
    }
  }

  // ---- Values ----

  /** The value with every string, keys included, replaced by its UTF-16 code units. */
  function UnitsOf(v: Value): Value
    decreases v, 0
  {
    match v
    case Str(s) => Str(AsUnits(s))
    case Arr(items) => Arr(UnitsOfItems(items))
    case Obj(fields) => Obj(UnitsOfFields(fields))
    case _ => v
  }

  function UnitsOfItems(items: seq<Value>): seq<Value>
    decreases items, 1
  {
    if items == [] then [] else [UnitsOf(items[0])] + UnitsOfItems(items[1..])
  }

  function UnitsOfFields(fields: seq<Field>): seq<Field>
    decreases fields, 1
  {
    if fields == [] then []
    else [Field(AsUnits(fields[0].key), UnitsOf(fields[0].value))] + UnitsOfFields(fields[1..])
  }

  function AsUnits(s: Text): (t: Text)
    ensures t == Utf16(s)
  {
    UnitsInRange(s);
    Utf16(s)
  }

  /** The first character of a printed value names its kind. */
  function Opening(v: Value): set<char> {
    match v
    case Null => {'n'}
    case Bool(b) => if b then {'t'} else {'f'}
    case Int(n) => {'-', '0', '1', '2', '3', '4', '5', '6', '7', '8', '9'}
    case Str(_) => {'"'}
    case Arr(_) => {'['}
    case Obj(_) => {'{'}
  }

  lemma OpensWith(v: Value)
    ensures Print(v) != "" && Print(v)[0] in Opening(v)
  {
    if v.Int? {
      DigitsAreDigits(if v.n < 0 then -v.n else v.n);
    }
  }

  /** A printed value tells where it ends and, up to code units, which value it is. */
  lemma {:induction false} PrintUnique(a: Value, b: Value, x: string, y: string)
    requires Print(a) + x == Print(b) + y && Delimited(x) && Delimited(y)
    ensures UnitsOf(a) == UnitsOf(b) && x == y
    decreases a, 0
  {
    OpensWith(a);
    OpensWith(b);
    var p, q := Print(a), Print(b);
    SameFirst(p, q, x, y);
    hide PrintItems, PrintFields, PrintText, PrintInt, UnitsOfItems, UnitsOfFields;
    match a
    case Null => CancelPrefix(p, q, x, y);
    case Bool(_) => CancelPrefix(p, q, x, y);
    case Int(n) => IntUnique(n, b.n, x, y);
    case Str(s) => TextUnique(s, b.s, x, y);
    case Arr(items) => ArrayUnique(items, b.items, x, y);
    case Obj(fields) => ObjectUnique(fields, b.fields, x, y);
  }

  /** What a non-empty item list prints behind "[" or ",". */
  function ItemsBody(s: seq<Value>, x: string): string
    requires s != []
  {
    Print(s[0]) + (PrintItems(s[1..]) + x)
  }

  /** What an array prints behind "[". */
  function ArrayTail(s: seq<Value>, x: string): string {
    if s == [] then "]" + x else ItemsBody(s, x)
  }

  lemma ArrayPrint(s: seq<Value>, x: string)
    ensures Print(Arr(s)) + x == "[" + ArrayTail(s, x)
    ensures ArrayTail(s, x) != "" && (ArrayTail(s, x)[0] == ']' <==> s == [])
  {
    hide PrintItems;
    if s == [] {
      assert Print(Arr(s)) + x == "[" + ("]" + x);
    } else {
      OpensWith(s[0]);
      var p, q := Print(s[0]), PrintItems(s[1..]);
      assert "[" + (p + q) + x == "[" + (p + (q + x));
      assert (p + (q + x))[0] == p[0];
    }
  }

  lemma ItemsBehindComma(s: seq<Value>, x: string)
    requires s != []
    ensures PrintItems(s) + x == "," + ItemsBody(s, x)
  {
    hide Print;
  }

  lemma {:induction false} ArrayUnique(s: seq<Value>, t: seq<Value>, x: string, y: string)
    requires Print(Arr(s)) + x == Print(Arr(t)) + y
    ensures UnitsOfItems(s) == UnitsOfItems(t) && x == y
    decreases s, 2
  {
    ArrayPrint(s, x);
    ArrayPrint(t, y);
    hide Print, PrintItems, ItemsBody;
    CancelPrefix("[", "[", ArrayTail(s, x), ArrayTail(t, y));
    if s == [] {
      CancelPrefix("]", "]", x, y);
    } else {
      ItemUnique(s, t, x, y);
    }
  }

  lemma {:induction false} ItemsUnique(s: seq<Value>, t: seq<Value>, x: string, y: string)
    requires PrintItems(s) + x == PrintItems(t) + y
    ensures UnitsOfItems(s) == UnitsOfItems(t) && x == y
    decreases s, 1
  {
    if s != [] { ItemsBehindComma(s, x); }
    if t != [] { ItemsBehindComma(t, y); }
    hide Print, ItemsBody;
    assert (PrintItems(s) + x)[0] == (if s == [] then ']' else ',');
    assert (PrintItems(t) + y)[0] == (if t == [] then ']' else ',');
    if s == [] {
      CancelPrefix("]", "]", x, y);
    } else {
      CancelPrefix(",", ",", ItemsBody(s, x), ItemsBody(t, y));
      ItemUnique(s, t, x, y);
    }
  }

  /** One item, then the others. */
  lemma {:induction false} ItemUnique(s: seq<Value>, t: seq<Value>, x: string, y: string)
    requires s != [] && t != [] && ItemsBody(s, x) == ItemsBody(t, y)
    ensures UnitsOfItems(s) == UnitsOfItems(t) && x == y
    decreases s, 0
  {
    hide Print;
    var x0, y0 := PrintItems(s[1..]) + x, PrintItems(t[1..]) + y;
    assert Delimited(x0) && Delimited(y0);
    PrintUnique(s[0], t[0], x0, y0);
    ItemsUnique(s[1..], t[1..], x, y);
  }

  /** What a non-empty field list prints behind "{" or ",". */
  function FieldsBody(s: seq<Field>, x: string): string
    requires s != []
  {
    PrintText(s[0].key) + (":" + (Print(s[0].value) + (PrintFields(s[1..]) + x)))
  }

  /** Concatenation of four parts, regrouped around the colon. */
  lemma Regroup(o: string, k: string, p: string, q: string, x: string)
    ensures o + (k + ":" + p + q) + x == o + (k + (":" + (p + (q + x))))
  {
    assert (p + q) + x == p + (q + x);
    assert k + ":" + p + q == k + (":" + (p + q));
    assert (k + (":" + (p + q))) + x == k + (":" + ((p + q) + x));
  }

  /** What an object prints behind "{". */
  function ObjectTail(s: seq<Field>, x: string): string {
    if s == [] then "}" + x else FieldsBody(s, x)
  }

  lemma ObjectPrint(s: seq<Field>, x: string)
    ensures Print(Obj(s)) + x == "{" + ObjectTail(s, x)
    ensures ObjectTail(s, x) != "" && (ObjectTail(s, x)[0] == '}' <==> s == [])
  {
    if s == [] {
      assert Print(Obj(s)) + x == "{" + ("}" + x);
    } else {
      QuoteFirst(s[0].key);
      hide PrintText, PrintFields;
      Regroup("{", PrintText(s[0].key), Print(s[0].value), PrintFields(s[1..]), x);
    }
  }

  lemma FieldsBehindComma(s: seq<Field>, x: string)
    requires s != []
    ensures PrintFields(s) + x == "," + FieldsBody(s, x)
  {
    hide PrintText, Print;
    var k, p, q := PrintText(s[0].key), Print(s[0].value), PrintFields(s[1..]);
    assert PrintFields(s) == "," + (k + ":" + p + q);
    Regroup(",", k, p, q, x);
  }

  lemma QuoteFirst(s: Text)
    ensures PrintText(s) != "" && PrintText(s)[0] == '"'
  {
  }

  lemma {:induction false} ObjectUnique(s: seq<Field>, t: seq<Field>, x: string, y: string)
    requires Print(Obj(s)) + x == Print(Obj(t)) + y
    ensures UnitsOfFields(s) == UnitsOfFields(t) && x == y
    decreases s, 2
  {
    ObjectPrint(s, x);
    ObjectPrint(t, y);
    hide Print, PrintFields, FieldsBody;
    CancelPrefix("{", "{", ObjectTail(s, x), ObjectTail(t, y));
    if s == [] {
      CancelPrefix("}", "}", x, y);
    } else {
      FieldUnique(s, t, x, y);
    }
  }

  lemma {:induction false} FieldsUnique(s: seq<Field>, t: seq<Field>, x: string, y: string)
    requires PrintFields(s) + x == PrintFields(t) + y
    ensures UnitsOfFields(s) == UnitsOfFields(t) && x == y
    decreases s, 1
  {
    if s != [] { FieldsBehindComma(s, x); }
    if t != [] { FieldsBehindComma(t, y); }
    hide Print, PrintText, FieldsBody;
    assert (PrintFields(s) + x)[0] == (if s == [] then '}' else ',');
    assert (PrintFields(t) + y)[0] == (if t == [] then '}' else ',');
    if s == [] {
      CancelPrefix("}", "}", x, y);
    } else {
      CancelPrefix(",", ",", FieldsBody(s, x), FieldsBody(t, y));
      FieldUnique(s, t, x, y);
    }
  }

  /** One key-value pair, then the other fields. */
  lemma {:induction false} FieldUnique(s: seq<Field>, t: seq<Field>, x: string, y: string)
    requires s != [] && t != [] && FieldsBody(s, x) == FieldsBody(t, y)
    ensures UnitsOfFields(s) == UnitsOfFields(t) && x == y
    decreases s, 0
  {
    hide Print, PrintText;
    var x0, y0 := PrintFields(s[1..]) + x, PrintFields(t[1..]) + y;
    var x1, y1 := ":" + (Print(s[0].value) + x0), ":" + (Print(t[0].value) + y0);
    TextUnique(s[0].key, t[0].key, x1, y1);
    CancelPrefix(":", ":", Print(s[0].value) + x0, Print(t[0].value) + y0);
    assert s[0].value < s[0];
    assert Delimited(x0) && Delimited(y0);
    PrintUnique(s[0].value, t[0].value, x0, y0);
    FieldsUnique(s[1..], t[1..], x, y);
  }

  // ---- The converse: printing sees only the code units ----

  lemma {:induction false} UnitsArePrintedAlike(v: Value)
    ensures Print(UnitsOf(v)) == Print(v)
    decreases v, 0
  {
    match v
    case Str(s) => UnitsOfUnits(s);
    case Arr(items) => if items != [] { UnitsArePrintedAlike(items[0]); ItemsPrintedAlike(items[1..]); }
    case Obj(fields) =>
      if fields != [] {
        assert fields[0].value < fields[0];
        UnitsOfUnits(fields[0].key);
        UnitsArePrintedAlike(fields[0].value);
        FieldsPrintedAlike(fields[1..]);
      }
    case _ =>
  }

  lemma {:induction false} ItemsPrintedAlike(items: seq<Value>)
    ensures PrintItems(UnitsOfItems(items)) == PrintItems(items)
    decreases items, 1
  {
    if items != [] {
      UnitsArePrintedAlike(items[0]);
      ItemsPrintedAlike(items[1..]);
    }
  }

  lemma {:induction false} FieldsPrintedAlike(fields: seq<Field>)
    ensures PrintFields(UnitsOfFields(fields)) == PrintFields(fields)
    decreases fields, 1
  {
    if fields != [] {
      assert fields[0].value < fields[0];
      UnitsOfUnits(fields[0].key);
      UnitsArePrintedAlike(fields[0].value);
      FieldsPrintedAlike(fields[1..]);
    }
  }

  lemma {:induction false} UnitsOfUnits(s: Text)
    ensures Utf16(AsUnits(s)) == Utf16(s) && PrintText(AsUnits(s)) == PrintText(s)
  {
    UnitsInRange(s);
    UnitsAreFixed(Utf16(s));
  }

  lemma {:induction false} UnitsAreFixed(us: Text)
    requires AllUnits(us)
    ensures Utf16(us) == us
  {
    if us != [] {
      UnitsAreFixed(us[1..]);
    }
  }

  /** Two values print alike exactly when they agree up to UTF-16 code units. */
  lemma PrintsAlikeExactly(a: Value, b: Value)
    ensures Print(a) == Print(b) <==> UnitsOf(a) == UnitsOf(b)
  {
    if Print(a) == Print(b) {
      PrintUnique(a, b, "", "");
    }
    UnitsArePrintedAlike(a);
    UnitsArePrintedAlike(b);
  }
}
