/**
  JSON values as Python holds them and the compact sorted-key printing of
  `sha256_json` (`dzt_proxy/tool_registry.py`): `json.dumps(obj, sort_keys=True,
  separators=(",", ":"))` with its default `ensure_ascii`.
 */
module Json {
  import opened Common

  /** A Python string is a sequence of code points; a lone surrogate is possible. */
  type CodePoint = c: int | 0 <= c < 0x11_0000
  type Text = seq<CodePoint>

  /** A dict keeps its keys in insertion order; keys are unique (see `WellFormed`). */
  datatype Value =
    | Null
    | Bool(b: bool)
    | Int(n: int)
    | Str(s: Text)
    | Arr(items: seq<Value>)
    | Obj(fields: seq<Field>)

  datatype Field = Field(key: Text, value: Value)

  /** A Dafny string as the code points of a Python string. */
  function FromString(s: string): Text {
    seq(|s|, i requires 0 <= i < |s| => s[i] as int)
  }

  // ---- Strings (section 7 of RFC 8259) ----

  predicate HighSurrogate(u: int) { 0xD800 <= u < 0xDC00 }
  predicate LowSurrogate(u: int) { 0xDC00 <= u < 0xE000 }

  /** UTF-16 code units of one code point. */
  function Units(c: CodePoint): seq<int> {
    if c < 0x1_0000 then [c]
    else [0xD800 + (c - 0x1_0000) / 0x400, 0xDC00 + (c - 0x1_0000) % 0x400]
  }

  function Utf16(s: Text): seq<int> {
    if s == [] then [] else Units(s[0]) + Utf16(s[1..])
  }

  const HEX := "0123456789abcdef"

  function HexDigit(d: int): char
    requires 0 <= d < 16
  {
    HEX[d]
  }

  /** One code unit inside a printed string: short escapes, printable ASCII, `\uXXXX` otherwise. */
  function Escape(u: int): string
    requires 0 <= u < 0x1_0000
  {
    if u == 0x22 then "\\\""
    else if u == 0x5C then "\\\\"
    else if u == 0x0A then "\\n"
    else if u == 0x0D then "\\r"
    else if u == 0x09 then "\\t"
    else if u == 0x0C then "\\f"
    else if u == 0x08 then "\\b"
    else if 0x20 <= u <= 0x7E then [u as char]
    else ['\\', 'u', HexDigit(u / 0x1000), HexDigit(u / 0x100 % 0x10), HexDigit(u / 0x10 % 0x10), HexDigit(u % 0x10)]
  }

  predicate AllUnits(us: seq<int>) {
    forall i | 0 <= i < |us| :: 0 <= us[i] < 0x1_0000
  }

  function EscapeAll(us: seq<int>): string
    requires AllUnits(us)
  {
    if us == [] then "" else Escape(us[0]) + EscapeAll(us[1..])
  }

  lemma {:induction false} UnitsInRange(s: Text)
    ensures AllUnits(Utf16(s))
  {
    if s != [] {
      UnitsInRange(s[1..]);
    }
  }

  function PrintText(s: Text): string {
    UnitsInRange(s);
    "\"" + EscapeAll(Utf16(s)) + "\""
  }

  // ---- Numbers ----

  function Digits(n: nat): string {
    if n < 10 then [HexDigit(n)] else Digits(n / 10) + [HexDigit(n % 10)]
  }

  function PrintInt(n: int): string {
    if n < 0 then "-" + Digits(-n) else Digits(n)
  }

  // ---- Compact printing in stored order ----

  function Print(v: Value): string
    decreases v, 0
  {
    match v
    case Null => "null"
    case Bool(b) => if b then "true" else "false"
    case Int(n) => PrintInt(n)
    case Str(s) => PrintText(s)
    case Arr(items) => "[" + if items == [] then "]" else Print(items[0]) + PrintItems(items[1..])
    case Obj(fields) =>
      "{" + if fields == [] then "}"
            else PrintText(fields[0].key) + ":" + Print(fields[0].value) + PrintFields(fields[1..])
  }

  /** The remaining items of an array, with the closing bracket. */
  function PrintItems(items: seq<Value>): string
    decreases items, 1
  {
    if items == [] then "]" else "," + Print(items[0]) + PrintItems(items[1..])
  }

  function PrintFields(fields: seq<Field>): string
    decreases fields, 1
  {
    if fields == [] then "}"
    else "," + PrintText(fields[0].key) + ":" + Print(fields[0].value) + PrintFields(fields[1..])
  }

  // ---- sort_keys ----

  /** Python's order on strings: by code point, a prefix first. */
  predicate KeyBefore(a: Text, b: Text) {
    if a == [] then b != []
    else b != [] && (a[0] < b[0] || (a[0] == b[0] && KeyBefore(a[1..], b[1..])))
  }

  function InsertField(f: Field, sorted: seq<Field>): seq<Field> {
    if sorted == [] then [f]
    else if KeyBefore(sorted[0].key, f.key) then [sorted[0]] + InsertField(f, sorted[1..])
    else [f] + sorted
  }

  /** The value with the fields of every object in key order. */
  function Canon(v: Value): Value
    decreases v, 0
  {
    match v
    case Arr(items) => Arr(CanonItems(items))
    case Obj(fields) => Obj(CanonFields(fields))
    case _ => v
  }

  function CanonItems(items: seq<Value>): seq<Value>
    decreases items, 1
  {
    if items == [] then [] else [Canon(items[0])] + CanonItems(items[1..])
  }

  function CanonFields(fields: seq<Field>): seq<Field>
    decreases fields, 1
  {
    if fields == [] then []
    else InsertField(Field(fields[0].key, Canon(fields[0].value)), CanonFields(fields[1..]))
  }

  /** json.dumps(v, sort_keys=True, separators=(",", ":")) */
  function Dumps(v: Value): string {
    Print(Canon(v))
  }

  // ---- Dictionary access ----

  /** v.get(key) of a dict, and None where the key is missing. */
  function Lookup(fields: seq<Field>, key: Text): Option<Value> {
    if fields == [] then None
    else if fields[0].key == key then Some(fields[0].value)
    else Lookup(fields[1..], key)
  }

  /** Python truth value. */
  predicate Truthy(v: Value) {
    match v
    case Null => false
    case Bool(b) => b
    case Int(n) => n != 0
    case Str(s) => s != []
    case Arr(items) => items != []
    case Obj(fields) => fields != []
  }

  /** The six values that Python counts as false. */
  predicate Falsy(v: Value) {
    v in {Null, Bool(false), Int(0), Str([]), Arr([]), Obj([])}
  }

  lemma TruthyExactly(v: Value)
    ensures Truthy(v) <==> !Falsy(v)
  {
  }

  /** The text is the given ASCII string, code point for character. */
  predicate Spells(t: Text, s: string) {
    |t| == |s| && forall i | 0 <= i < |s| :: t[i] == s[i] as int
  }

  /** `v` is an object, and `value` belongs to the first of its fields with that name. */
  predicate FirstNamed(v: Value, name: string, value: Value) {
    v.Obj? && exists i | 0 <= i < |v.fields| ::
                Spells(v.fields[i].key, name) && v.fields[i].value == value
                && forall j | 0 <= j < i :: !Spells(v.fields[j].key, name)
  }

  /** `v` is an object without a field of that name. */
  predicate NoneNamed(v: Value, name: string) {
    v.Obj? && forall i | 0 <= i < |v.fields| :: !Spells(v.fields[i].key, name)
  }

  lemma {:induction false} LookupFindsFirst(fields: seq<Field>, name: string)
    ensures var found := Lookup(fields, FromString(name));
            if found.Some? then FirstNamed(Obj(fields), name, found.value) else NoneNamed(Obj(fields), name)
  {
    if fields != [] {
      assert fields[0].key == FromString(name) <==> Spells(fields[0].key, name);
      if fields[0].key != FromString(name) {
        LookupFindsFirst(fields[1..], name);
        var found := Lookup(fields[1..], FromString(name));
        if found.Some? {
          var i :| 0 <= i < |fields[1..]| && Spells(fields[1..][i].key, name) && fields[1..][i].value == found.value
                   && forall j | 0 <= j < i :: !Spells(fields[1..][j].key, name);
          assert fields[i + 1] == fields[1..][i];
          assert forall j | 0 < j < i + 1 :: fields[j] == fields[1..][j - 1];
        } else {
          assert forall j | 0 < j < |fields| :: fields[j] == fields[1..][j - 1];
        }
      }
    }
  }

  /** There is one first field of a name, and none if there is none. */
  lemma FirstIsOnly(v: Value, name: string, a: Value, b: Value)
    requires FirstNamed(v, name, a)
    ensures !NoneNamed(v, name) && (FirstNamed(v, name, b) ==> a == b)
  {
  }
}
