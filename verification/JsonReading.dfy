/**
  A reader for the texts of `json.dumps(obj, sort_keys=True, separators=(",", ":"))`,
  defined by the grammar of RFC 8259 alone and without any of the printing functions. Where
  the grammar leaves a choice it takes only what Python's encoder writes: no whitespace,
  ASCII, short escapes where there is one, lower-case digits in `\uXXXX`, no "-0".
  The printing is what this reader reads back, so it is this text and no other.
 */
module JsonReading {
  import opened Common
  import opened Json
  import opened JsonPrinting
  import opened JsonCanonical

  /** What was read at the front of a text, and what is left of it. */
  datatype Read<+T> = Got(value: T, rest: string) | Bad

  // ---- Strings (section 7 of RFC 8259) ----

  const SHORT_ESCAPES: map<char, CodePoint> := map[
    '"' := 0x22, '\\' := 0x5C, 'b' := 0x08, 'f' := 0x0C, 'n' := 0x0A, 'r' := 0x0D, 't' := 0x09
  ]

  predicate Printable(u: int) {
    0x20 <= u <= 0x7E && u != 0x22 && u != 0x5C
  }

  /** The unit can only be written as `\uXXXX`. */
  predicate NeedsHex(u: int) {
    !Printable(u) && u !in SHORT_ESCAPES.Values
  }

  function HexValue(c: char): Option<int> {
    if '0' <= c <= '9' then Some(c as int - 0x30)
    else if 'a' <= c <= 'f' then Some(c as int - 0x61 + 10)
    else None
  }

  function FourHex(s: string): (u: Option<CodePoint>)
    requires |s| == 4
    ensures u.Some? ==> u.value < 0x1_0000
  {
    var a, b, c, d := HexValue(s[0]), HexValue(s[1]), HexValue(s[2]), HexValue(s[3]);
    if a.Some? && b.Some? && c.Some? && d.Some?
    then Some(a.value * 4096 + b.value * 256 + c.value * 16 + d.value) else None
  }

  function ReadUnit(s: string): (r: Read<CodePoint>)
    ensures r.Got? ==> |r.rest| < |s|
  {
    if s == "" then Bad
    else if Printable(s[0] as int) then Got(s[0] as int, s[1..])
    else if s[0] != '\\' || |s| < 2 then Bad
    else if s[1] in SHORT_ESCAPES then Got(SHORT_ESCAPES[s[1]], s[2..])
    else if s[1] != 'u' || |s| < 6 then Bad
    else
      match FourHex(s[2..6])
      case None => Bad
      case Some(u) => if NeedsHex(u) then Got(u, s[6..]) else Bad
  }

  /** The code units up to the closing quote. */
  function ReadUnits(s: string): (r: Read<Text>)
    ensures r.Got? ==> |r.rest| < |s|
    decreases |s|
  {
    if s == "" then Bad
    else if s[0] == '"' then Got([], s[1..])
    else
      match ReadUnit(s)
      case Bad => Bad
      case Got(u, rest) =>
        match ReadUnits(rest)
        case Bad => Bad
        case Got(us, left) => Got([u] + us, left)
  }

  // ---- Numbers (section 6), integers only ----

  function DigitRun(s: string): (n: nat)
    ensures n <= |s|
  {
    if s != "" && '0' <= s[0] <= '9' then 1 + DigitRun(s[1..]) else 0
  }

  /** The number that a row of digits stands for. */
  function Decimal(ds: string): int {
    if ds == "" then 0 else 10 * Decimal(ds[..|ds| - 1]) + ds[|ds| - 1] as int - 0x30
  }

  /** All digits in front; no leading zero, and no fraction or exponent behind. */
  function ReadNat(s: string): (r: Read<int>)
    ensures r.Got? ==> |r.rest| < |s|
  {
    var n := DigitRun(s);
    if n == 0 || (n > 1 && s[0] == '0') || (n < |s| && s[n] in ".eE") then Bad
    else Got(Decimal(s[..n]), s[n..])
  }

  function ReadInt(s: string): (r: Read<int>)
    ensures r.Got? ==> |r.rest| < |s|
  {
    if s != "" && s[0] == '-' then
      match ReadNat(s[1..])
      case Bad => Bad
      case Got(n, rest) => if n == 0 then Bad else Got(-n, rest)
    else ReadNat(s)
  }

  // ---- Values (sections 3 to 5) ----

  function ReadWord(s: string, word: string, v: Value): (r: Read<Value>)
    requires word != ""
    ensures r.Got? ==> |r.rest| < |s|
  {
    if StartsWith(s, word) then Got(v, s[|word|..]) else Bad
  }

  function ReadValue(s: string): (r: Read<Value>)
    ensures r.Got? ==> |r.rest| < |s|
    decreases |s|, 2
  {
    if s == "" then Bad
    else
      match s[0]
      case 'n' => ReadWord(s, "null", Null)
      case 't' => ReadWord(s, "true", Bool(true))
      case 'f' => ReadWord(s, "false", Bool(false))
      case '"' =>
        (match ReadUnits(s[1..])
         case Bad => Bad
         case Got(us, rest) => Got(Str(us), rest))
      case '[' =>
        if |s| > 1 && s[1] == ']' then Got(Arr([]), s[2..])
        else
          (match ReadItems(s[1..])
           case Bad => Bad
           case Got(items, rest) => Got(Arr(items), rest))
      case '{' =>
        if |s| > 1 && s[1] == '}' then Got(Obj([]), s[2..])
        else
          (match ReadFields(s[1..])
           case Bad => Bad
           case Got(fields, rest) => Got(Obj(fields), rest))
      case _ =>
        match ReadInt(s)
        case Bad => Bad
        case Got(n, rest) => Got(Int(n), rest)
  }

  /** One item or more, separated by commas, with the closing bracket. */
  function ReadItems(s: string): (r: Read<seq<Value>>)
    ensures r.Got? ==> |r.rest| < |s|
    decreases |s|, 3
  {
    match ReadValue(s)
    case Bad => Bad
    case Got(v, rest) =>
      if rest == "" then Bad
      else if rest[0] == ']' then Got([v], rest[1..])
      else if rest[0] != ',' then Bad
      else
        match ReadItems(rest[1..])
        case Bad => Bad
        case Got(items, left) => Got([v] + items, left)
  }

  /** One field or more, separated by commas, with the closing brace. */
  function ReadFields(s: string): (r: Read<seq<Field>>)
    ensures r.Got? ==> |r.rest| < |s|
    decreases |s|, 3
  {
    if s == "" || s[0] != '"' then Bad
    else
      match ReadUnits(s[1..])
      case Bad => Bad
      case Got(key, behind) =>
        if behind == "" || behind[0] != ':' then Bad
        else
          match ReadValue(behind[1..])
          case Bad => Bad
          case Got(v, rest) =>
            if rest == "" then Bad
            else if rest[0] == '}' then Got([Field(key, v)], rest[1..])
            else if rest[0] != ',' then Bad
            else
              match ReadFields(rest[1..])
              case Bad => Bad
              case Got(fields, left) => Got([Field(key, v)] + fields, left)
  }

  // ---- Reading what was printed: strings ----

  lemma HexIsRead(d: int)
    requires 0 <= d < 16
    ensures HexValue(HexDigit(d)) == Some(d)
  {
  }

  lemma ShortIsRead(u: int, c: char, x: string)
    requires c in SHORT_ESCAPES && SHORT_ESCAPES[c] == u
    ensures ReadUnit(['\\', c] + x) == Got(u, x)
  {
    assert (['\\', c] + x)[2..] == x;
  }

  lemma ShortEscapes(u: int)
    ensures u in SHORT_ESCAPES.Values <==> u in {0x22, 0x5C, 0x08, 0x0C, 0x0A, 0x0D, 0x09}
  {
    assert SHORT_ESCAPES['"'] in SHORT_ESCAPES.Values && SHORT_ESCAPES['\\'] in SHORT_ESCAPES.Values;
    assert SHORT_ESCAPES['b'] in SHORT_ESCAPES.Values && SHORT_ESCAPES['f'] in SHORT_ESCAPES.Values;
    assert SHORT_ESCAPES['n'] in SHORT_ESCAPES.Values && SHORT_ESCAPES['r'] in SHORT_ESCAPES.Values;
    assert SHORT_ESCAPES['t'] in SHORT_ESCAPES.Values;
  }

  lemma HexForm(u: int)
    requires 0 <= u < 0x1_0000 && NeedsHex(u)
    ensures Escape(u) == ['\\', 'u', HexDigit(u / 0x1000), HexDigit(u / 0x100 % 0x10), HexDigit(u / 0x10 % 0x10),
                          HexDigit(u % 0x10)]
  {
    ShortEscapes(u);
  }

  lemma HexEscapeIsRead(u: int, x: string)
    requires 0 <= u < 0x1_0000 && NeedsHex(u)
    ensures ReadUnit(Escape(u) + x) == Got(u, x) && |Escape(u)| == 6
  {
    var e, s := Escape(u), Escape(u) + x;
    HexForm(u);
    assert s[6..] == x && s[2..6] == e[2..6];
    hide Escape, NeedsHex;
    HexIsRead(u / 0x1000);
    HexIsRead(u / 0x100 % 0x10);
    HexIsRead(u / 0x10 % 0x10);
    HexIsRead(u % 0x10);
    HexOfUnit(u);
  }

  lemma EscapeIsRead(u: int, x: string)
    requires 0 <= u < 0x1_0000
    ensures ReadUnit(Escape(u) + x) == Got(u, x)
    ensures Escape(u) != "" && Escape(u)[0] != '"'
  {
    if NeedsHex(u) {
      HexEscapeIsRead(u, x);
    } else if Printable(u) {
      assert ([u as char] + x)[1..] == x;
    } else {
      ShortEscapes(u);
      var e := Escape(u);
      assert |e| == 2 && e[0] == '\\' && e[1] in SHORT_ESCAPES && SHORT_ESCAPES[e[1]] == u;
      ShortIsRead(u, e[1], x);
    }
  }

  lemma {:induction false} UnitsAreRead(us: Text, x: string)
    requires AllUnits(us)
    ensures ReadUnits(EscapeAll(us) + ("\"" + x)) == Got(us, x)
  {
    hide ReadUnit, Escape;
    if us == [] {
      assert EscapeAll(us) + ("\"" + x) == "\"" + x;
    } else {
      var rest := EscapeAll(us[1..]) + ("\"" + x);
      assert EscapeAll(us) + ("\"" + x) == Escape(us[0]) + rest;
      EscapeIsRead(us[0], rest);
      UnitsAreRead(us[1..], x);
      assert us == [us[0]] + us[1..];
    }
  }

  /** A printed string is read back as its UTF-16 code units. */
  lemma TextIsRead(t: Text, x: string)
    ensures PrintText(t) + x == "\"" + (PrintText(t) + x)[1..]
    ensures ReadUnits((PrintText(t) + x)[1..]) == Got(AsUnits(t), x)
  {
    hide ReadUnits, EscapeAll;
    UnitsInRange(t);
    UnitsAreRead(AsUnits(t), x);
    assert (PrintText(t) + x)[1..] == EscapeAll(Utf16(t)) + ("\"" + x);
  }

  // ---- Numbers ----

  lemma {:induction false} DigitsAreRead(n: nat)
    ensures Decimal(Digits(n)) == n && Digits(n) != ""
    ensures Digits(n)[0] == '0' <==> n == 0
    ensures Digits(n)[0] == '0' ==> |Digits(n)| == 1
  {
    var ds := Digits(n);
    if n < 10 {
      assert ds[..0] == "";
    } else {
      DigitsAreRead(n / 10);
      assert ds[..|ds| - 1] == Digits(n / 10);
    }
  }

  /** What may follow a value inside an array or object, or at the end. */
  predicate Ends(x: string) {
    x == "" || x[0] in ",]}"
  }

  lemma {:induction false} RunOfDigits(ds: string, x: string)
    requires (forall i | 0 <= i < |ds| :: IsDigit(ds[i])) && Ends(x)
    ensures DigitRun(ds + x) == |ds|
  {
    if ds == "" {
      assert ds + x == x;
    } else {
      assert (ds + x)[1..] == ds[1..] + x;
      RunOfDigits(ds[1..], x);
    }
  }

  lemma NatIsRead(n: nat, x: string)
    requires Ends(x)
    ensures ReadNat(Digits(n) + x) == Got(n, x)
  {
    var ds := Digits(n);
    DigitsAreRead(n);
    DigitsAreDigits(n);
    RunOfDigits(ds, x);
    assert (ds + x)[..|ds|] == ds && (ds + x)[|ds|..] == x;
  }

  lemma IntIsRead(n: int, x: string)
    requires Ends(x)
    ensures ReadInt(PrintInt(n) + x) == Got(n, x)
    ensures PrintInt(n) != "" && (PrintInt(n)[0] == '-' || IsDigit(PrintInt(n)[0]))
  {
    hide Digits, ReadNat;
    var m := if n < 0 then -n else n;
    NatIsRead(m, x);
    DigitsAreDigits(m);
    if n < 0 {
      assert (PrintInt(n) + x)[1..] == Digits(m) + x;
    }
  }

  // ---- Values ----

  lemma NumberIsRead(n: int, x: string)
    requires Ends(x)
    ensures ReadValue(Print(Int(n)) + x) == Got(Int(n), x)
  {
    IntIsRead(n, x);
    hide ReadInt, PrintInt, ReadWord, ReadUnits;
    var s := Print(Int(n)) + x;
    assert s[0] == PrintInt(n)[0];
  }

  lemma WordIsRead(v: Value, x: string)
    requires v.Null? || v.Bool?
    ensures ReadValue(Print(v) + x) == Got(v, x)
  {
    var p := Print(v);
    assert (p + x)[|p|..] == x && (p + x)[..|p|] == p;
    assert (p + x)[0] == p[0];
  }

  lemma StringIsRead(t: Text, x: string)
    ensures ReadValue(Print(Str(t)) + x) == Got(Str(AsUnits(t)), x)
  {
    TextIsRead(t, x);
    hide PrintText, ReadUnits, ReadWord;
    var s := PrintText(t) + x;
    assert s[0] == '"';
  }

  /** A printed value is read back up to its delimiter. */
  lemma {:induction false} PrintIsRead(v: Value, x: string)
    requires Ends(x)
    ensures ReadValue(Print(v) + x) == Got(UnitsOf(v), x)
    decreases v, 0
  {
    match v
    case Null => WordIsRead(v, x);
    case Bool(_) => WordIsRead(v, x);
    case Int(n) => NumberIsRead(n, x);
    case Str(t) => StringIsRead(t, x);
    case Arr(items) => ArrayIsRead(items, x);
    case Obj(fields) => ObjectIsRead(fields, x);
  }

  lemma {:induction false} ArrayIsRead(items: seq<Value>, x: string)
    requires Ends(x)
    ensures ReadValue(Print(Arr(items)) + x) == Got(Arr(UnitsOfItems(items)), x)
    decreases items, 2
  {
    ArrayPrint(items, x);
    hide Print, PrintItems, ItemsBody, ReadItems, ReadUnits, ReadWord, ReadInt, ReadFields;
    var s := "[" + ArrayTail(items, x);
    assert s[0] == '[' && s[1] == ArrayTail(items, x)[0] && s[1..] == ArrayTail(items, x);
    if items == [] {
      assert s[2..] == x;
    } else {
      ItemsAreRead(items, x);
    }
  }

  lemma {:induction false} ItemsAreRead(items: seq<Value>, x: string)
    requires items != [] && Ends(x)
    ensures ReadItems(ItemsBody(items, x)) == Got(UnitsOfItems(items), x)
    decreases items, 1
  {
    hide Print, ReadValue;
    var rest := PrintItems(items[1..]) + x;
    PrintIsRead(items[0], rest);
    if items[1..] == [] {
      assert rest == "]" + x && rest[1..] == x;
      assert UnitsOfItems(items) == [UnitsOf(items[0])];
    } else {
      ItemsBehindComma(items[1..], x);
      ItemsAreRead(items[1..], x);
      assert rest[1..] == ItemsBody(items[1..], x);
    }
  }

  lemma {:induction false} ObjectIsRead(fields: seq<Field>, x: string)
    requires Ends(x)
    ensures ReadValue(Print(Obj(fields)) + x) == Got(Obj(UnitsOfFields(fields)), x)
    decreases fields, 2
  {
    ObjectPrint(fields, x);
    hide Print, PrintFields, FieldsBody, ReadItems, ReadUnits, ReadWord, ReadInt, ReadFields;
    var s := "{" + ObjectTail(fields, x);
    assert s[0] == '{' && s[1] == ObjectTail(fields, x)[0] && s[1..] == ObjectTail(fields, x);
    if fields == [] {
      assert s[2..] == x;
    } else {
      FieldsAreRead(fields, x);
    }
  }

  lemma {:induction false} FieldsAreRead(fields: seq<Field>, x: string)
    requires fields != [] && Ends(x)
    ensures ReadFields(FieldsBody(fields, x)) == Got(UnitsOfFields(fields), x)
    decreases fields, 1
  {
    hide Print, ReadValue, PrintText, ReadUnits;
    var rest := PrintFields(fields[1..]) + x;
    var behind := ":" + (Print(fields[0].value) + rest);
    TextIsRead(fields[0].key, behind);
    assert fields[0].value < fields[0];
    PrintIsRead(fields[0].value, rest);
    assert behind[1..] == Print(fields[0].value) + rest;
    if fields[1..] == [] {
      assert rest == "}" + x && rest[1..] == x;
      assert UnitsOfFields(fields) == [Field(AsUnits(fields[0].key), UnitsOf(fields[0].value))];
    } else {
      FieldsBehindComma(fields[1..], x);
      FieldsAreRead(fields[1..], x);
      assert rest[1..] == FieldsBody(fields[1..], x);
    }
  }

  /** Reading a whole text. */
  function Loads(s: string): Option<Value> {
    match ReadValue(s)
    case Bad => None
    case Got(v, rest) => if rest == "" then Some(v) else None
  }

  /** The canonical text of every value reads as its sorted value, strings as UTF-16 code units. */
  lemma DumpsIsRead(v: Value)
    ensures Loads(Dumps(v)) == Some(UnitsOf(Canon(v)))
  {
    PrintIsRead(Canon(v), "");
    assert Print(Canon(v)) + "" == Print(Canon(v));
  }

  // ---- What json.loads makes of the text ----

  /** A high surrogate and the low one behind it are one code point (RFC 8259, section 7). */
  function Joined(us: Text): Text {
    if us == [] then []
    else if |us| > 1 && 0xD800 <= us[0] <= 0xDBFF && 0xDC00 <= us[1] <= 0xDFFF then
      [0x1_0000 + (us[0] - 0xD800) * 0x400 + (us[1] - 0xDC00)] + Joined(us[2..])
    else [us[0]] + Joined(us[1..])
  }

  function JoinedValue(v: Value): Value
    decreases v, 0
  {
    match v
    case Str(s) => Str(Joined(s))
    case Arr(items) => Arr(JoinedItems(items))
    case Obj(fields) => Obj(JoinedFields(fields))
    case _ => v
  }

  function JoinedItems(items: seq<Value>): seq<Value>
    decreases items, 1
  {
    if items == [] then [] else [JoinedValue(items[0])] + JoinedItems(items[1..])
  }

  function JoinedFields(fields: seq<Field>): seq<Field>
    decreases fields, 1
  {
    if fields == [] then []
    else [Field(Joined(fields[0].key), JoinedValue(fields[0].value))] + JoinedFields(fields[1..])
  }

  lemma UnitsOfPoint(c: CodePoint)
    ensures if c < 0x1_0000 then Units(c) == [c]
            else |Units(c)| == 2 && HighSurrogate(Units(c)[0]) && LowSurrogate(Units(c)[1])
                 && 0x1_0000 + (Units(c)[0] - 0xD800) * 0x400 + (Units(c)[1] - 0xDC00) == c
  {
  }

  lemma {:induction false} TextIsJoined(s: Text)
    requires PlainText(s)
    ensures Joined(AsUnits(s)) == s
  {
    if s != [] {
      var us := AsUnits(s);
      UnitsOfPoint(s[0]);
      SecondUnit(s);
      TextIsJoined(s[1..]);
      assert us == Units(s[0]) + AsUnits(s[1..]);
      hide Units, PlainText, Utf16;
      assert us[|Units(s[0])|..] == AsUnits(s[1..]);
      assert Joined(us) == [s[0]] + Joined(AsUnits(s[1..]));
      assert s == [s[0]] + s[1..];
    }
  }

  lemma {:induction false} ValueIsJoined(v: Value)
    requires Plain(v)
    ensures JoinedValue(UnitsOf(v)) == v
    decreases v, 0
  {
    match v
    case Str(s) => TextIsJoined(s);
    case Arr(items) => ItemsAreJoined(items);
    case Obj(fields) => FieldsAreJoined(fields);
    case _ =>
  }

  lemma {:induction false} ItemsAreJoined(items: seq<Value>)
    requires PlainItems(items)
    ensures JoinedItems(UnitsOfItems(items)) == items
    decreases items, 1
  {
    if items != [] {
      ValueIsJoined(items[0]);
      ItemsAreJoined(items[1..]);
      assert UnitsOfItems(items)[1..] == UnitsOfItems(items[1..]);
      assert items == [items[0]] + items[1..];
    }
  }

  lemma {:induction false} FieldsAreJoined(fields: seq<Field>)
    requires PlainFields(fields)
    ensures JoinedFields(UnitsOfFields(fields)) == fields
    decreases fields, 1
  {
    if fields != [] {
      assert fields[0].value < fields[0];
      TextIsJoined(fields[0].key);
      ValueIsJoined(fields[0].value);
      FieldsAreJoined(fields[1..]);
      assert UnitsOfFields(fields)[1..] == UnitsOfFields(fields[1..]);
      assert fields == [fields[0]] + fields[1..];
    }
  }

  // ---- The order of keys ----

  /** `a` and `b` agree on `n` code points, after which `a` ends, or has the smaller one. */
  predicate DifferAt(a: Text, b: Text, n: nat) {
    n <= |a| && n < |b| && a[..n] == b[..n] && (n < |a| ==> a[n] < b[n])
  }

  /** The order of `sort_keys`: by the first difference in code points. */
  ghost predicate Precedes(a: Text, b: Text) {
    exists n :: DifferAt(a, b, n)
  }

  lemma {:induction false} KeyOrderIsByCodePoint(a: Text, b: Text)
    ensures KeyBefore(a, b) <==> Precedes(a, b)
  {
    if a == [] {
      assert b != [] ==> DifferAt(a, b, 0);
    } else if b != [] {
      KeyOrderIsByCodePoint(a[1..], b[1..]);
      assert a[0] < b[0] ==> DifferAt(a, b, 0);
      if a[0] == b[0] && Precedes(a[1..], b[1..]) {
        var n: nat :| DifferAt(a[1..], b[1..], n);
        assert a[..n + 1] == [a[0]] + a[1..][..n] && b[..n + 1] == [b[0]] + b[1..][..n];
        assert DifferAt(a, b, n + 1);
      }
      if n: nat :| DifferAt(a, b, n) && n > 0 {
        assert a[..n][0] == a[0] && b[..n][0] == b[0];
        assert a[1..][..n - 1] == a[..n][1..] && b[1..][..n - 1] == b[..n][1..];
        assert DifferAt(a[1..], b[1..], n - 1);
      }
    }
  }

  ghost predicate KeysAscend(fields: seq<Field>) {
    forall i, j | 0 <= i < j < |fields| :: Precedes(fields[i].key, fields[j].key)
  }

  lemma {:induction false} SortedAscends(fields: seq<Field>)
    requires SortedFields(fields)
    ensures KeysAscend(fields)
  {
    if |fields| > 1 {
      SortedAscends(fields[1..]);
      forall i, j | 0 <= i < j < |fields|
        ensures Precedes(fields[i].key, fields[j].key)
      {
        if i > 0 {
          assert fields[1..][i - 1] == fields[i] && fields[1..][j - 1] == fields[j];
        } else {
          KeyOrderIsByCodePoint(fields[0].key, fields[1].key);
          if j > 1 {
            assert fields[1..][0] == fields[1] && fields[1..][j - 1] == fields[j];
            KeyOrderIsByCodePoint(fields[1].key, fields[j].key);
            KeyOrderTransitive(fields[0].key, fields[1].key, fields[j].key);
            KeyOrderIsByCodePoint(fields[0].key, fields[j].key);
          }
        }
      }
    }
  }

  /** `w` is `v` with the fields of every object, at every depth, put in ascending order of their keys. */
  ghost predicate SortedFrom(v: Value, w: Value) {
    match v
    case Arr(items) =>
      && w.Arr? && |w.items| == |items|
      && forall i | 0 <= i < |items| :: SortedFrom(items[i], w.items[i])
    case Obj(fields) =>
      && w.Obj? && |w.fields| == |fields| && KeysAscend(w.fields)
      && forall i | 0 <= i < |fields| ::
           exists j | 0 <= j < |w.fields| ::
             w.fields[j].key == fields[i].key && SortedFrom(fields[i].value, w.fields[j].value)
    case _ => w == v
  }

  lemma {:induction false} InsertKeepsAll(f: Field, sorted: seq<Field>)
    ensures |InsertField(f, sorted)| == |sorted| + 1
    ensures f in InsertField(f, sorted) && forall g | g in sorted :: g in InsertField(f, sorted)
  {
    if sorted != [] && KeyBefore(sorted[0].key, f.key) {
      InsertKeepsAll(f, sorted[1..]);
      assert sorted == [sorted[0]] + sorted[1..];
    }
  }

  lemma {:induction false} CanonFieldsAreAll(fields: seq<Field>)
    ensures |CanonFields(fields)| == |fields|
    ensures forall i | 0 <= i < |fields| :: Field(fields[i].key, Canon(fields[i].value)) in CanonFields(fields)
  {
    if fields != [] {
      CanonFieldsAreAll(fields[1..]);
      InsertKeepsAll(Field(fields[0].key, Canon(fields[0].value)), CanonFields(fields[1..]));
      forall i | 0 < i < |fields|
        ensures Field(fields[i].key, Canon(fields[i].value)) in CanonFields(fields)
      {
        assert fields[i] == fields[1..][i - 1];
      }
    }
  }

  lemma {:induction false} CanonItemsAt(items: seq<Value>, i: nat)
    requires i < |items|
    ensures |CanonItems(items)| == |items| && CanonItems(items)[i] == Canon(items[i])
  {
    if |items| > 1 {
      CanonItemsAt(items[1..], if i == 0 then 0 else i - 1);
    }
  }

  lemma {:induction false} WellFormedItem(items: seq<Value>, i: nat)
    requires WellFormedItems(items) && i < |items|
    ensures WellFormed(items[i])
  {
    if i > 0 {
      WellFormedItem(items[1..], i - 1);
    }
  }

  lemma {:induction false} WellFormedField(fields: seq<Field>, i: nat)
    requires WellFormedFields(fields) && i < |fields|
    ensures WellFormed(fields[i].value)
  {
    if i > 0 {
      WellFormedField(fields[1..], i - 1);
    }
  }

  lemma {:induction false} CanonSorts(v: Value)
    requires WellFormed(v)
    ensures SortedFrom(v, Canon(v))
    decreases v
  {
    match v
    case Arr(items) =>
      forall i | 0 <= i < |items|
        ensures |CanonItems(items)| == |items| && SortedFrom(items[i], CanonItems(items)[i])
      {
        CanonItemsAt(items, i);
        WellFormedItem(items, i);
        CanonSorts(items[i]);
      }
    case Obj(fields) =>
      CanonKeepsMeaning(v);
      SortedAscends(CanonFields(fields));
      CanonFieldsAreAll(fields);
      hide KeysAscend, CanonFields, SortedFields;
      var sorted := CanonFields(fields);
      forall i | 0 <= i < |fields|
        ensures exists j | 0 <= j < |sorted| ::
                  sorted[j].key == fields[i].key && SortedFrom(fields[i].value, sorted[j].value)
      {
        WellFormedField(fields, i);
        CanonSorts(fields[i].value);
        var j :| 0 <= j < |sorted| && sorted[j] == Field(fields[i].key, Canon(fields[i].value));
      }
    case _ =>
  }

  /**
    Round trip: what `json.loads` reads from the canonical text of a value is that value with
    the keys of every object in ascending order of code points, and nothing else changed.
   */
  lemma DumpsRoundTrip(v: Value)
    requires WellFormed(v) && Plain(v)
    ensures Loads(Dumps(v)).Some? && SortedFrom(v, JoinedValue(Loads(Dumps(v)).value))
  {
    DumpsIsRead(v);
    CanonKeepsMeaning(v);
    ValueIsJoined(Canon(v));
    CanonSorts(v);
  }
}
