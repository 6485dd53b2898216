/** The canonical record printer behind the evidence hash (`stableStringify`): JSON
    text with object keys sorted at every level. The main result is that the printed
    text determines the value up to key order. */
module CanonicalRecord {
  import opened Collections
  import opened StableSort
  import opened Texts

  // ---- Values ----------------------------------------------------------------

  predicate NumberUnit(c: CodeUnit)
  {
    48 <= c <= 57 || c == 45 || c == 43 || c == 46 || c == 101
  }

  /** The text JavaScript prints for a finite number: digits, sign, point, exponent. */
  type NumberText = t: Text | t != [] && (48 <= t[0] <= 57 || t[0] == 45) && forall c :: c in t ==> NumberUnit(c)
    witness [48]

  /** A JavaScript value as the printer sees it: a number is the text printed for it,
      an object the list of its own properties in insertion order. */
  datatype Json =
    | Null | Undefined | NonFinite
    | Bool(b: bool)
    | Number(literal: NumberText)
    | String(text: Text)
    | Array(items: seq<Json>)
    | Object(fields: seq<Field>)

  datatype Field = Field(key: Text, value: Json)

  // ---- JSON.stringify of a string --------------------------------------------

  const QUOTE: CodeUnit := 34
  const BACKSLASH: CodeUnit := 92
  const LETTER_U: CodeUnit := 117

  /** The letter after the backslash for the units that have a short escape, else 0. */
  function ShortEscape(c: CodeUnit): CodeUnit
  {
    if c == 8 then 98 else if c == 9 then 116 else if c == 10 then 110 else if c == 12 then 102
    else if c == 13 then 114 else if c == QUOTE then QUOTE else if c == BACKSLASH then BACKSLASH else 0
  }

  predicate HighSurrogate(c: CodeUnit) { 0xD800 <= c <= 0xDBFF }

  predicate LowSurrogate(c: CodeUnit) { 0xDC00 <= c <= 0xDFFF }

  function HexDigit(n: int): CodeUnit
    requires 0 <= n < 16
  {
    if n < 10 then 48 + n else 87 + n
  }

  /** `\uXXXX` in front of `rest`. */
  function HexEscape(c: CodeUnit, rest: Text): Text
  {
    [BACKSLASH] + ([LETTER_U] + ([HexDigit(c / 4096)] + ([HexDigit(c / 256 % 16)]
    + ([HexDigit(c / 16 % 16)] + ([HexDigit(c % 16)] + rest)))))
  }

  /** Escaped body of a string and its closing quote, in front of `rest`: short escapes,
      `\uXXXX` for other control units and for surrogates that are not part of a pair,
      everything else as it is. */
  function Escape(s: Text, rest: Text): Text
  {
    if s == [] then [QUOTE] + rest
    else if ShortEscape(s[0]) != 0 then [BACKSLASH] + ([ShortEscape(s[0])] + Escape(s[1..], rest))
    else if s[0] < 0x20 then HexEscape(s[0], Escape(s[1..], rest))
    else if HighSurrogate(s[0]) && |s| > 1 && LowSurrogate(s[1]) then [s[0]] + ([s[1]] + Escape(s[2..], rest))
    else if HighSurrogate(s[0]) || LowSurrogate(s[0]) then HexEscape(s[0], Escape(s[1..], rest))
    else [s[0]] + Escape(s[1..], rest)
  }

  /** `JSON.stringify` of a string. */
  function Quoted(s: Text): Text
  {
    [QUOTE] + Escape(s, [])
  }

  // ---- The printer -----------------------------------------------------------

  const NULL_TEXT: Text := [110, 117, 108, 108]
  const TRUE_TEXT: Text := [116, 114, 117, 101]
  const FALSE_TEXT: Text := [102, 97, 108, 115, 101]

  const COMMA: CodeUnit := 44
  const COLON: CodeUnit := 58
  const OPEN_BRACKET: CodeUnit := 91
  const CLOSE_BRACKET: CodeUnit := 93
  const OPEN_BRACE: CodeUnit := 123
  const CLOSE_BRACE: CodeUnit := 125

  /** A printed property, kept with its key for sorting. */
  datatype PrintedField = PrintedField(key: Text, value: Text)

  predicate KeyAtMost(a: PrintedField, b: PrintedField) { AtMost(a.key, b.key) }

  function FieldText(f: PrintedField): Text
  {
    Quoted(f.key) + [COLON] + f.value
  }

  /** `stableStringify`. */
  function Print(v: Json): Text
  {
    match v
    case Null => NULL_TEXT
    case Undefined => NULL_TEXT
    case NonFinite => NULL_TEXT
    case Bool(b) => if b then TRUE_TEXT else FALSE_TEXT
    case Number(literal) => literal
    case String(text) => Quoted(text)
    case Array(items) => [OPEN_BRACKET] + Join(PrintItems(items), COMMA) + [CLOSE_BRACKET]
    case Object(fields) =>
      [OPEN_BRACE] + Join(Map(FieldText, Sort(KeyAtMost, PrintFields(fields))), COMMA) + [CLOSE_BRACE]
  }

  function PrintItems(items: seq<Json>): (r: seq<Text>)
    ensures |r| == |items|
  {
    if items == [] then [] else [Print(items[0])] + PrintItems(items[1..])
  }

  function PrintFields(fields: seq<Field>): (r: seq<PrintedField>)
    ensures |r| == |fields|
  {
    if fields == [] then []
    else [PrintedField(fields[0].key, Print(fields[0].value))] + PrintFields(fields[1..])
  }

  // ---- Key order put aside ---------------------------------------------------

  predicate FieldAtMost(a: Field, b: Field) { AtMost(a.key, b.key) }

  /** The value with the keys of every object sorted, and `undefined` and non-finite
      numbers replaced by the `null` they print as. */
  function Canon(v: Json): Json
  {
    match v
    case Undefined => Null
    case NonFinite => Null
    case Array(items) => Array(CanonItems(items))
    case Object(fields) => Object(Sort(FieldAtMost, CanonFields(fields)))
    case _ => v
  }

  function CanonItems(items: seq<Json>): (r: seq<Json>)
    ensures |r| == |items|
  {
    if items == [] then [] else [Canon(items[0])] + CanonItems(items[1..])
  }

  function CanonFields(fields: seq<Field>): (r: seq<Field>)
    ensures |r| == |fields|
  {
    if fields == [] then [] else [Field(fields[0].key, Canon(fields[0].value))] + CanonFields(fields[1..])
  }

  /** Printing in the order given, in front of `rest`. */
  function Onto(v: Json, rest: Text): Text
  {
    match v
    case Null => NULL_TEXT + rest
    case Undefined => NULL_TEXT + rest
    case NonFinite => NULL_TEXT + rest
    case Bool(b) => (if b then TRUE_TEXT else FALSE_TEXT) + rest
    case Number(literal) => literal + rest
    case String(text) => [QUOTE] + Escape(text, rest)
    case Array(items) => [OPEN_BRACKET] + ItemsOnto(items, rest)
    case Object(fields) => [OPEN_BRACE] + FieldsOnto(fields, rest)
  }

  /** The rest of an array from here, with its closing bracket. */
  function ItemsOnto(items: seq<Json>, rest: Text): Text
    decreases items, 1
  {
    if items == [] then [CLOSE_BRACKET] + rest
    else Onto(items[0], ItemsTail(items, rest))
  }

  function ItemsTail(items: seq<Json>, rest: Text): Text
    requires items != []
    decreases items, 0
  {
    if |items| == 1 then [CLOSE_BRACKET] + rest else [COMMA] + ItemsOnto(items[1..], rest)
  }

  function FieldsOnto(fields: seq<Field>, rest: Text): Text
    decreases fields, 1
  {
    if fields == [] then [CLOSE_BRACE] + rest
    else [QUOTE] + Escape(fields[0].key, [COLON] + Onto(fields[0].value, FieldsTail(fields, rest)))
  }

  function FieldsTail(fields: seq<Field>, rest: Text): Text
    requires fields != []
    decreases fields, 0
  {
    if |fields| == 1 then [CLOSE_BRACE] + rest else [COMMA] + FieldsOnto(fields[1..], rest)
  }

  // ---- Strings read back -----------------------------------------------------

  function HexValue(d: CodeUnit): int
  {
    if d < 58 then d - 48 else d - 87
  }

  function LongUnit(c: CodeUnit): CodeUnit
  {
    if c == 98 then 8 else if c == 116 then 9 else if c == 110 then 10 else if c == 102 then 12
    else if c == 114 then 13 else c
  }

  /** Reads an escaped body up to its closing quote and returns what follows too. */
  function Unescape(u: Text): Option<(Text, Text)>
  {
    if u == [] then None
    else if u[0] == QUOTE then Some(([], u[1..]))
    else if u[0] == BACKSLASH then
      if |u| >= 6 && u[1] == LETTER_U then
        var n := HexValue(u[2]) * 4096 + HexValue(u[3]) * 256 + HexValue(u[4]) * 16 + HexValue(u[5]);
        Prepend(if 0 <= n < 0x1_0000 then n else 0, Unescape(u[6..]))
      else if |u| >= 2 then Prepend(LongUnit(u[1]), Unescape(u[2..]))
      else None
    else Prepend(u[0], Unescape(u[1..]))
  }

  function Prepend(c: CodeUnit, r: Option<(Text, Text)>): Option<(Text, Text)>
  {
    match r case None => None case Some((s, rest)) => Some(([c] + s, rest))
  }

  lemma HexRoundTrip(c: CodeUnit)
    ensures HexValue(HexDigit(c / 4096)) * 4096 + HexValue(HexDigit(c / 256 % 16)) * 256
            + HexValue(HexDigit(c / 16 % 16)) * 16 + HexValue(HexDigit(c % 16)) == c
  {
    assert c / 16 / 16 == c / 256 && c / 256 / 16 == c / 4096;
    assert c / 16 == c / 256 * 16 + c / 16 % 16;
    assert c / 256 == c / 4096 * 16 + c / 256 % 16;
  }

  lemma UnescapeHex(c: CodeUnit, rest: Text)
    ensures Unescape(HexEscape(c, rest)) == Prepend(c, Unescape(rest))
  {
    HexRoundTrip(c);
    assert HexEscape(c, rest)[6..] == rest;
  }

  lemma UnescapeShort(c: CodeUnit, rest: Text)
    requires ShortEscape(c) != 0
    ensures Unescape([BACKSLASH] + ([ShortEscape(c)] + rest)) == Prepend(c, Unescape(rest))
  {
    assert ([BACKSLASH] + ([ShortEscape(c)] + rest))[2..] == rest;
  }

  lemma UnescapeRaw(c: CodeUnit, rest: Text)
    requires c != QUOTE && c != BACKSLASH
    ensures Unescape([c] + rest) == Prepend(c, Unescape(rest))
  {
  }

  /** A surrogate pair is printed as it is. */
  lemma UnescapePair(s: Text, rest: Text)
    requires |s| > 1 && s[0] >= 0x20 && ShortEscape(s[0]) == 0 && HighSurrogate(s[0]) && LowSurrogate(s[1])
    requires Unescape(Escape(s[2..], rest)) == Some((s[2..], rest))
    ensures Unescape(Escape(s, rest)) == Some((s, rest))
  {
    UnescapeRaw(s[1], Escape(s[2..], rest));
    UnescapeRaw(s[0], [s[1]] + Escape(s[2..], rest));
    assert s == [s[0]] + ([s[1]] + s[2..]);
  }

  /** Reading undoes escaping, for every string of code units, paired surrogates or not. */
  lemma {:induction false} UnescapeEscape(s: Text, rest: Text)
    ensures Unescape(Escape(s, rest)) == Some((s, rest))
  {
    if s == [] {
      assert Escape(s, rest)[1..] == rest;
    } else {
      var c := s[0];
      assert s == [c] + s[1..];
      if ShortEscape(c) != 0 {
        UnescapeEscape(s[1..], rest);
        UnescapeShort(c, Escape(s[1..], rest));
      } else if c >= 0x20 && HighSurrogate(c) && |s| > 1 && LowSurrogate(s[1]) {
        UnescapeEscape(s[2..], rest);
        UnescapePair(s, rest);
      } else if c < 0x20 || HighSurrogate(c) || LowSurrogate(c) {
        UnescapeEscape(s[1..], rest);
        UnescapeHex(c, Escape(s[1..], rest));
      } else {
        UnescapeEscape(s[1..], rest);
        UnescapeRaw(c, Escape(s[1..], rest));
      }
    }
  }

  lemma EscapeUnique(s: Text, x: Text, t: Text, y: Text)
    requires Escape(s, x) == Escape(t, y)
    ensures s == t && x == y
  {
    UnescapeEscape(s, x);
    UnescapeEscape(t, y);
  }

  // ---- Unique parse ----------------------------------------------------------

  /** What may follow a printed value inside a larger text. */
  predicate Stops(x: Text)
  {
    x == [] || x[0] == COMMA || x[0] == CLOSE_BRACKET || x[0] == CLOSE_BRACE
  }

  /** No `undefined` and no non-finite number anywhere. */
  predicate Proper(v: Json)
  {
    match v
    case Undefined => false
    case NonFinite => false
    case Array(items) => forall i :: 0 <= i < |items| ==> Proper(items[i])
    case Object(fields) => forall i :: 0 <= i < |fields| ==> Proper(fields[i].value)
    case _ => true
  }

  /** The first unit tells the kind of value. */
  function Kind(c: CodeUnit): int
  {
    if c == 110 then 0 else if c == 116 then 1 else if c == 102 then 2
    else if 48 <= c <= 57 || c == 45 then 3 else if c == QUOTE then 4
    else if c == OPEN_BRACKET then 5 else if c == OPEN_BRACE then 6 else 7
  }

  function KindOf(v: Json): int
  {
    match v
    case Bool(b) => if b then 1 else 2
    case Number(_) => 3
    case String(_) => 4
    case Array(_) => 5
    case Object(_) => 6
    case _ => 0
  }

  lemma OntoStart(v: Json, rest: Text)
    ensures Onto(v, rest) != [] && Kind(Onto(v, rest)[0]) == KindOf(v)
  {
  }

  lemma Cons(c: CodeUnit, x: Text, d: CodeUnit, y: Text)
    requires [c] + x == [d] + y
    ensures c == d && x == y
  {
    assert ([c] + x)[0] == ([d] + y)[0];
    assert ([c] + x)[1..] == x && ([d] + y)[1..] == y;
  }

  lemma {:induction false} NumberUnique(n: Text, x: Text, m: Text, y: Text)
    requires (forall c :: c in n ==> NumberUnit(c)) && (forall c :: c in m ==> NumberUnit(c))
    requires Stops(x) && Stops(y) && n + x == m + y
    ensures n == m && x == y
  {
    var whole := n + x;
    assert whole == [] || whole[0] == if n != [] then n[0] else x[0];
    assert whole == [] || whole[0] == if m != [] then m[0] else y[0];
    assert n != [] ==> n[0] in n;
    assert m != [] ==> m[0] in m;
    if n != [] {
      assert whole[1..] == n[1..] + x == m[1..] + y;
      NumberUnique(n[1..], x, m[1..], y);
      assert n == [n[0]] + n[1..] && m == [m[0]] + m[1..];
    } else {
      assert whole == x == y;
    }
  }

  lemma LiteralUnique(a: Json, x: Text, b: Json, y: Text)
    requires KindOf(a) == KindOf(b) <= 2 && Proper(a) && Proper(b) && Onto(a, x) == Onto(b, y)
    ensures a == b && x == y
  {
    assert Onto(a, x)[if a == Bool(false) then 5 else 4..] == x;
    assert Onto(b, y)[if b == Bool(false) then 5 else 4..] == y;
  }

  /** Unique parse: two values printed in front of something that stops give the same
      text only if the values and the rests agree. */
  lemma {:induction false} OntoUnique(a: Json, x: Text, b: Json, y: Text)
    requires Proper(a) && Proper(b) && Stops(x) && Stops(y)
    requires Onto(a, x) == Onto(b, y)
    ensures a == b && x == y
    decreases a, 1, 0
  {
    OntoStart(a, x);
    OntoStart(b, y);
    match a {
      case Number(n) =>
        NumberUnique(n, x, b.literal, y);
      case String(s) =>
        Cons(QUOTE, Escape(s, x), QUOTE, Escape(b.text, y));
        EscapeUnique(s, x, b.text, y);
      case Array(items) =>
        Cons(OPEN_BRACKET, ItemsOnto(items, x), OPEN_BRACKET, ItemsOnto(b.items, y));
        ItemsUnique(a, items, x, b.items, y);
      case Object(fields) =>
        Cons(OPEN_BRACE, FieldsOnto(fields, x), OPEN_BRACE, FieldsOnto(b.fields, y));
        FieldsUnique(a, fields, x, b.fields, y);
      case _ =>
        LiteralUnique(a, x, b, y);
    }
  }

  lemma {:induction false} ItemsUnique(whole: Json, s: seq<Json>, x: Text, t: seq<Json>, y: Text)
    requires forall i :: 0 <= i < |s| ==> Proper(s[i]) && s[i] < whole
    requires forall i :: 0 <= i < |t| ==> Proper(t[i])
    requires ItemsOnto(s, x) == ItemsOnto(t, y)
    ensures s == t && x == y
    decreases whole, 0, |s|
  {
    if s != [] { OntoStart(s[0], ItemsTail(s, x)); }
    if t != [] { OntoStart(t[0], ItemsTail(t, y)); }
    assert Kind(CLOSE_BRACKET) == 7;
    if s == [] {
      Cons(CLOSE_BRACKET, x, CLOSE_BRACKET, y);
    } else {
      OntoUnique(s[0], ItemsTail(s, x), t[0], ItemsTail(t, y));
      assert ItemsTail(s, x)[0] == ItemsTail(t, y)[0];
      if |s| == 1 {
        Cons(CLOSE_BRACKET, x, CLOSE_BRACKET, y);
        assert s == [s[0]] && t == [t[0]];
      } else {
        Cons(COMMA, ItemsOnto(s[1..], x), COMMA, ItemsOnto(t[1..], y));
        ItemsUnique(whole, s[1..], x, t[1..], y);
        assert s == [s[0]] + s[1..] && t == [t[0]] + t[1..];
      }
    }
  }

  lemma {:induction false} FieldsUnique(whole: Json, s: seq<Field>, x: Text, t: seq<Field>, y: Text)
    requires forall i :: 0 <= i < |s| ==> Proper(s[i].value) && s[i].value < whole
    requires forall i :: 0 <= i < |t| ==> Proper(t[i].value)
    requires FieldsOnto(s, x) == FieldsOnto(t, y)
    ensures s == t && x == y
    decreases whole, 0, |s|
  {
    assert FieldsOnto(s, x)[0] == if s == [] then CLOSE_BRACE else QUOTE;
    assert FieldsOnto(t, y)[0] == if t == [] then CLOSE_BRACE else QUOTE;
    if s == [] {
      Cons(CLOSE_BRACE, x, CLOSE_BRACE, y);
    } else {
      var u, v := Onto(s[0].value, FieldsTail(s, x)), Onto(t[0].value, FieldsTail(t, y));
      Cons(QUOTE, Escape(s[0].key, [COLON] + u), QUOTE, Escape(t[0].key, [COLON] + v));
      EscapeUnique(s[0].key, [COLON] + u, t[0].key, [COLON] + v);
      Cons(COLON, u, COLON, v);
      OntoUnique(s[0].value, FieldsTail(s, x), t[0].value, FieldsTail(t, y));
      assert FieldsTail(s, x)[0] == FieldsTail(t, y)[0];
      if |s| == 1 {
        Cons(CLOSE_BRACE, x, CLOSE_BRACE, y);
        assert s == [s[0]] && t == [t[0]];
      } else {
        Cons(COMMA, FieldsOnto(s[1..], x), COMMA, FieldsOnto(t[1..], y));
        FieldsUnique(whole, s[1..], x, t[1..], y);
        assert s == [s[0]] + s[1..] && t == [t[0]] + t[1..];
      }
    }
  }

  // ---- The printer is canonical ----------------------------------------------

  lemma ConsAppend(c: CodeUnit, x: Text, y: Text)
    ensures [c] + x + y == [c] + (x + y)
  {
  }

  lemma HexAppend(c: CodeUnit, x: Text, y: Text)
    ensures HexEscape(c, x) + y == HexEscape(c, x + y)
  {
  }

  lemma {:induction false} EscapeAppend(s: Text, x: Text, y: Text)
    ensures Escape(s, x) + y == Escape(s, x + y)
  {
    if s == [] {
      ConsAppend(QUOTE, x, y);
    } else if ShortEscape(s[0]) == 0 && s[0] >= 0x20 && HighSurrogate(s[0]) && |s| > 1 && LowSurrogate(s[1]) {
      EscapeAppend(s[2..], x, y);
      ConsAppend(s[1], Escape(s[2..], x), y);
      ConsAppend(s[0], [s[1]] + Escape(s[2..], x), y);
    } else {
      var tail := Escape(s[1..], x);
      EscapeAppend(s[1..], x, y);
      ConsAppend(ShortEscape(s[0]), tail, y);
      ConsAppend(BACKSLASH, [ShortEscape(s[0])] + tail, y);
      HexAppend(s[0], tail, y);
      ConsAppend(s[0], tail, y);
    }
  }

  lemma QuotedAppend(s: Text, y: Text)
    ensures Quoted(s) + y == [QUOTE] + Escape(s, y)
  {
    EscapeAppend(s, [], y);
    ConsAppend(QUOTE, Escape(s, []), y);
    assert [] + y == y;
  }

  lemma JoinAppend(t: Text, more: Text, rest: Text)
    ensures t + [COMMA] + more + rest == t + ([COMMA] + (more + rest))
  {
  }

  lemma BracketAppend(open: CodeUnit, body: Text, close: CodeUnit, rest: Text)
    ensures [open] + body + [close] + rest == [open] + (body + ([close] + rest))
  {
  }

  /** The source's printer prints exactly the canonical value in order. */
  lemma {:induction false} PrintOnto(v: Json, rest: Text)
    ensures Print(v) + rest == Onto(Canon(v), rest)
    decreases v, 1
  {
    match v {
      case String(text) => QuotedAppend(text, rest);
      case Array(items) =>
        PrintItemsOnto(items, rest);
        BracketAppend(OPEN_BRACKET, Join(PrintItems(items), COMMA), CLOSE_BRACKET, rest);
      case Object(fields) =>
        var ps, fs := PrintFields(fields), CanonFields(fields);
        PrintFieldsMatch(fields);
        SortMatches(ps, fs);
        FieldsJoin(Sort(KeyAtMost, ps), Sort(FieldAtMost, fs), rest);
        BracketAppend(OPEN_BRACE, Join(Map(FieldText, Sort(KeyAtMost, ps)), COMMA), CLOSE_BRACE, rest);
      case _ =>
    }
  }

  lemma {:induction false} PrintItemsOnto(items: seq<Json>, rest: Text)
    ensures Join(PrintItems(items), COMMA) + ([CLOSE_BRACKET] + rest) == ItemsOnto(CanonItems(items), rest)
    decreases items, 0
  {
    var end := [CLOSE_BRACKET] + rest;
    if items == [] {
      assert [] + end == end;
    } else {
      PrintOnto(items[0], ItemsTail(CanonItems(items), rest));
      if |items| > 1 {
        PrintItemsOnto(items[1..], rest);
        JoinAppend(Print(items[0]), Join(PrintItems(items[1..]), COMMA), end);
      }
    }
  }

  /** A printed field is the text of the canonical one, in front of anything. */
  ghost predicate Matches(p: PrintedField, f: Field)
  {
    p.key == f.key && forall rest :: p.value + rest == Onto(f.value, rest)
  }

  ghost predicate AllMatch(ps: seq<PrintedField>, fs: seq<Field>)
  {
    |ps| == |fs| && forall i :: 0 <= i < |ps| ==> Matches(ps[i], fs[i])
  }

  lemma {:induction false} PrintFieldsMatch(fields: seq<Field>)
    ensures AllMatch(PrintFields(fields), CanonFields(fields))
    decreases fields, 0
  {
    if fields != [] {
      forall rest
        ensures Print(fields[0].value) + rest == Onto(Canon(fields[0].value), rest)
      {
        PrintOnto(fields[0].value, rest);
      }
      PrintFieldsMatch(fields[1..]);
    }
  }

  lemma {:induction false} SortMatches(ps: seq<PrintedField>, fs: seq<Field>)
    requires AllMatch(ps, fs)
    ensures AllMatch(Sort(KeyAtMost, ps), Sort(FieldAtMost, fs))
  {
    if ps != [] {
      var n := |ps| - 1;
      SortMatches(ps[..n], fs[..n]);
      InsertMatches(Sort(KeyAtMost, ps[..n]), Sort(FieldAtMost, fs[..n]), ps[n], fs[n]);
    }
  }

  lemma {:induction false} InsertMatches(ps: seq<PrintedField>, fs: seq<Field>, p: PrintedField, f: Field)
    requires AllMatch(ps, fs) && Matches(p, f)
    ensures AllMatch(Insert(KeyAtMost, ps, p), Insert(FieldAtMost, fs, f))
  {
    var n := |ps|;
    if n > 0 && !KeyAtMost(ps[n - 1], p) {
      InsertMatches(ps[..n - 1], fs[..n - 1], p, f);
    }
  }

  lemma FieldOnto(p: PrintedField, f: Field, rest: Text)
    requires Matches(p, f)
    ensures FieldText(p) + rest == [QUOTE] + Escape(f.key, [COLON] + Onto(f.value, rest))
  {
    var colon := [COLON] + (p.value + rest);
    assert FieldText(p) + rest == Quoted(p.key) + colon;
    QuotedAppend(p.key, colon);
  }

  lemma {:induction false} FieldsJoin(ps: seq<PrintedField>, fs: seq<Field>, rest: Text)
    requires AllMatch(ps, fs)
    ensures Join(Map(FieldText, ps), COMMA) + ([CLOSE_BRACE] + rest) == FieldsOnto(fs, rest)
    decreases |ps|
  {
    var end := [CLOSE_BRACE] + rest;
    if ps == [] {
      assert [] + end == end;
    } else {
      FieldOnto(ps[0], fs[0], FieldsTail(fs, rest));
      if |ps| > 1 {
        FieldsJoin(ps[1..], fs[1..], rest);
        assert Map(FieldText, ps)[1..] == Map(FieldText, ps[1..]);
        JoinAppend(FieldText(ps[0]), Join(Map(FieldText, ps[1..]), COMMA), end);
      }
    }
  }

  lemma SortedStayProper(c: seq<Field>)
    requires forall i :: 0 <= i < |c| ==> Proper(c[i].value)
    ensures forall i :: 0 <= i < |c| ==> Proper(Sort(FieldAtMost, c)[i].value)
  {
    var sorted := Sort(FieldAtMost, c);
    SortPermutes(FieldAtMost, c);
    PermutationMembers(c, sorted);
    forall i | 0 <= i < |sorted|
      ensures Proper(sorted[i].value)
    {
      assert sorted[i] in c;
    }
  }

  lemma {:induction false} CanonProper(v: Json)
    ensures Proper(Canon(v))
    decreases v, 1
  {
    match v {
      case Array(items) =>
        forall i | 0 <= i < |items|
          ensures Proper(CanonItems(items)[i])
        {
          CanonItemsAt(items, i);
          CanonProper(items[i]);
        }
      case Object(fields) =>
        var c := CanonFields(fields);
        forall i | 0 <= i < |fields|
          ensures Proper(c[i].value)
        {
          CanonFieldsAt(fields, i);
          CanonProper(fields[i].value);
        }
        SortedStayProper(c);
      case _ =>
    }
  }

  lemma {:induction false} CanonItemsAt(items: seq<Json>, i: nat)
    requires i < |items|
    ensures CanonItems(items)[i] == Canon(items[i])
  {
    if i > 0 {
      CanonItemsAt(items[1..], i - 1);
    }
  }

  lemma {:induction false} CanonFieldsAt(fields: seq<Field>, i: nat)
    requires i < |fields|
    ensures CanonFields(fields)[i] == Field(fields[i].key, Canon(fields[i].value))
  {
    if i > 0 {
      CanonFieldsAt(fields[1..], i - 1);
    }
  }

  /** The printed texts of two values are equal exactly when their canonical forms are. */
  lemma PrintDeterminesCanon(a: Json, b: Json)
    ensures Print(a) == Print(b) <==> Canon(a) == Canon(b)
  {
    PrintOnto(a, []);
    PrintOnto(b, []);
    assert Print(a) + [] == Print(a) && Print(b) + [] == Print(b);
    CanonProper(a);
    CanonProper(b);
    if Print(a) == Print(b) {
      OntoUnique(Canon(a), [], Canon(b), []);
    }
  }

  // ---- Equality up to key order ----------------------------------------------

  /** Every object has distinct keys, as JavaScript objects do. */
  ghost predicate DistinctKeys(v: Json)
  {
    match v
    case Array(items) => forall i :: 0 <= i < |items| ==> DistinctKeys(items[i])
    case Object(fields) =>
      && (forall i, j :: 0 <= i < j < |fields| ==> fields[i].key != fields[j].key)
      && (forall i :: 0 <= i < |fields| ==> DistinctKeys(fields[i].value))
    case _ => true
  }

  predicate Nullish(v: Json) { v.Null? || v.Undefined? || v.NonFinite? }

  /** Equality of values with nothing canonical in it: objects agree when they have
      equally many properties and each property of one has its equal in the other. */
  ghost predicate Same(a: Json, b: Json)
    decreases a, 1
  {
    match a
    case Array(items) =>
      b.Array? && |items| == |b.items| && forall i :: 0 <= i < |items| ==> Same(items[i], b.items[i])
    case Object(fields) =>
      && b.Object? && |fields| == |b.fields|
      && forall i :: 0 <= i < |fields| ==> Paired(fields[i], b.fields)
    case _ => if Nullish(a) then Nullish(b) else a == b
  }

  /** Some field of `gs` has the same key and the same value. */
  ghost predicate Paired(f: Field, gs: seq<Field>)
    decreases f, 0
  {
    exists j :: 0 <= j < |gs| && f.key == gs[j].key && Same(f.value, gs[j].value)
  }

  lemma {:induction false} NoDupCount<T>(s: seq<T>, x: T)
    requires NoDup(s)
    ensures multiset(s)[x] <= 1
  {
    if s != [] {
      NoDupCount(s[1..], x);
      assert s == [s[0]] + s[1..];
      assert s[0] !in s[1..];
    }
  }

  /** Equally long lists without repetition, one inside the other, hold the same. */
  lemma NoDupWithin<T>(a: seq<T>, b: seq<T>)
    requires NoDup(a) && |a| == |b| && forall x :: x in a ==> x in b
    ensures multiset(a) == multiset(b)
  {
    forall x
      ensures multiset(a)[x] <= multiset(b)[x]
    {
      NoDupCount(a, x);
      assert x in a <==> x in multiset(a);
      assert x in b <==> x in multiset(b);
    }
    var more := multiset(b) - multiset(a);
    assert multiset(b) == multiset(a) + more;
    assert |more| == 0;
  }

  ghost predicate Within(a: seq<Field>, b: seq<Field>)
  {
    forall i :: 0 <= i < |a| ==> exists j :: 0 <= j < |b| && a[i] == b[j]
  }

  /** Sorting by key forgets exactly the order of the fields. */
  lemma SortedFieldsAgree(a: seq<Field>, b: seq<Field>)
    requires forall i, j :: 0 <= i < j < |a| ==> a[i].key != a[j].key
    ensures Sort(FieldAtMost, a) == Sort(FieldAtMost, b) <==> |a| == |b| && Within(a, b)
  {
    AtMostOrder();
    forall f, g | f in a && g in a && FieldAtMost(f, g) && FieldAtMost(g, f)
      ensures f == g
    {
      assert f.key == g.key;
    }
    SortAgrees(FieldAtMost, a, b);
    if multiset(a) == multiset(b) {
      PermutationMembers(a, b);
      assert forall i :: 0 <= i < |a| ==> a[i] in b;
    } else if |a| == |b| && Within(a, b) {
      NoDupWithin(a, b);
    }
  }

  lemma {:induction false} CanonSame(a: Json, b: Json)
    requires DistinctKeys(a) && DistinctKeys(b)
    ensures Canon(a) == Canon(b) <==> Same(a, b)
    decreases a
  {
    if a.Array? && b.Array? && |a.items| == |b.items| {
      forall i | 0 <= i < |a.items|
        ensures CanonItems(a.items)[i] == CanonItems(b.items)[i] <==> Same(a.items[i], b.items[i])
      {
        CanonItemsAt(a.items, i);
        CanonItemsAt(b.items, i);
        CanonSame(a.items[i], b.items[i]);
      }
    } else if a.Object? && b.Object? && |a.fields| == |b.fields| {
      CanonObjectSame(a, b);
    } else if a.Object? && b.Object? {
      assert |Sort(FieldAtMost, CanonFields(a.fields))| == |a.fields|;
    }
  }

  lemma {:induction false} CanonObjectSame(a: Json, b: Json)
    requires a.Object? && b.Object? && |a.fields| == |b.fields| && DistinctKeys(a) && DistinctKeys(b)
    ensures Canon(a) == Canon(b) <==> Same(a, b)
    decreases a, 0
  {
    var x, y := CanonFields(a.fields), CanonFields(b.fields);
    forall i | 0 <= i < |x|
      ensures x[i] == Field(a.fields[i].key, Canon(a.fields[i].value))
      ensures y[i] == Field(b.fields[i].key, Canon(b.fields[i].value))
    {
      CanonFieldsAt(a.fields, i);
      CanonFieldsAt(b.fields, i);
    }
    SortedFieldsAgree(x, y);
    forall i | 0 <= i < |x|
      ensures (exists j :: 0 <= j < |y| && x[i] == y[j]) <==> Paired(a.fields[i], b.fields)
    {
      forall j | 0 <= j < |y|
        ensures Canon(a.fields[i].value) == Canon(b.fields[j].value) <==> Same(a.fields[i].value, b.fields[j].value)
      {
        CanonSame(a.fields[i].value, b.fields[j].value);
      }
      FieldPaired(a.fields[i], b.fields, x[i], y);
    }
  }

  lemma FieldPaired(f: Field, gs: seq<Field>, x: Field, y: seq<Field>)
    requires x == Field(f.key, Canon(f.value)) && |y| == |gs|
    requires forall j :: 0 <= j < |gs| ==> y[j] == Field(gs[j].key, Canon(gs[j].value))
    requires forall j :: 0 <= j < |gs| ==> (Canon(f.value) == Canon(gs[j].value) <==> Same(f.value, gs[j].value))
    ensures (exists j :: 0 <= j < |y| && x == y[j]) <==> Paired(f, gs)
  {
  }

  /** Two values print alike exactly when they are the same up to the key order of
      their objects (and the spelling of null). */
  lemma PrintInjective(a: Json, b: Json)
    requires DistinctKeys(a) && DistinctKeys(b)
    ensures Print(a) == Print(b) <==> Same(a, b)
  {
    PrintDeterminesCanon(a, b);
    CanonSame(a, b);
  }

  // ---- Printed text survives UTF-8 -------------------------------------------

  /** No control unit, and every surrogate in a pair: UTF-8 encodes such a text without loss. */
  predicate Encodable(t: Text)
  {
    t == []
    || if 0xD800 <= t[0] <= 0xDBFF then |t| > 1 && 0xDC00 <= t[1] <= 0xDFFF && Encodable(t[2..])
       else 0x20 <= t[0] && !(0xDC00 <= t[0] <= 0xDFFF) && Encodable(t[1..])
  }

  /** A unit that needs no partner. */
  predicate Single(c: CodeUnit)
  {
    0x20 <= c < 0xD800 || c > 0xDFFF
  }

  lemma {:induction false} SinglesBefore(t: Text, rest: Text)
    requires Encodable(rest) && forall i :: 0 <= i < |t| ==> Single(t[i])
    ensures Encodable(t + rest)
  {
    if t == [] {
      assert t + rest == rest;
    } else {
      SinglesBefore(t[1..], rest);
      assert (t + rest)[0] == t[0] && (t + rest)[1..] == t[1..] + rest;
    }
  }

  lemma HexEscapeEncodable(c: CodeUnit, rest: Text)
    requires Encodable(rest)
    ensures Encodable(HexEscape(c, rest))
  {
    var t := [BACKSLASH, LETTER_U, HexDigit(c / 4096), HexDigit(c / 256 % 16), HexDigit(c / 16 % 16), HexDigit(c % 16)];
    SinglesBefore(t, rest);
    assert HexEscape(c, rest) == t + rest;
  }

  lemma PairEncodable(high: CodeUnit, low: CodeUnit, rest: Text)
    requires HighSurrogate(high) && LowSurrogate(low) && Encodable(rest)
    ensures Encodable([high] + ([low] + rest))
  {
    var t := [high] + ([low] + rest);
    assert t[0] == high && t[1] == low && t[2..] == rest;
  }

  lemma ShortEncodable(c: CodeUnit, rest: Text)
    requires Encodable(rest) && ShortEscape(c) != 0
    ensures Encodable([BACKSLASH] + ([ShortEscape(c)] + rest))
  {
    SinglesBefore([BACKSLASH, ShortEscape(c)], rest);
    assert [BACKSLASH, ShortEscape(c)] + rest == [BACKSLASH] + ([ShortEscape(c)] + rest);
  }

  lemma UnitEncodable(s: Text, rest: Text)
    requires s != [] && Encodable(Escape(s[1..], rest))
    requires !(s[0] >= 0x20 && HighSurrogate(s[0]) && |s| > 1 && LowSurrogate(s[1]))
    ensures Encodable(Escape(s, rest))
  {
    var after := Escape(s[1..], rest);
    if ShortEscape(s[0]) != 0 {
      ShortEncodable(s[0], after);
    } else if s[0] < 0x20 || HighSurrogate(s[0]) || LowSurrogate(s[0]) {
      HexEscapeEncodable(s[0], after);
    } else {
      SinglesBefore([s[0]], after);
    }
  }

  lemma {:induction false} EscapeEncodable(s: Text, rest: Text)
    requires Encodable(rest)
    ensures Encodable(Escape(s, rest))
  {
    if s == [] {
      SinglesBefore([QUOTE], rest);
    } else if s[0] >= 0x20 && HighSurrogate(s[0]) && |s| > 1 && LowSurrogate(s[1]) {
      EscapeEncodable(s[2..], rest);
      PairEncodable(s[0], s[1], Escape(s[2..], rest));
    } else {
      EscapeEncodable(s[1..], rest);
      UnitEncodable(s, rest);
    }
  }

  lemma {:induction false} OntoEncodable(v: Json, rest: Text)
    requires Encodable(rest)
    ensures Encodable(Onto(v, rest))
    decreases v, 1, 0
  {
    match v {
      case Bool(b) => SinglesBefore(if b then TRUE_TEXT else FALSE_TEXT, rest);
      case Number(literal) =>
        assert forall i :: 0 <= i < |literal| ==> literal[i] in literal && NumberUnit(literal[i]);
        SinglesBefore(literal, rest);
      case String(text) =>
        EscapeEncodable(text, rest);
        SinglesBefore([QUOTE], Escape(text, rest));
      case Array(items) =>
        ItemsEncodable(v, items, rest);
        SinglesBefore([OPEN_BRACKET], ItemsOnto(items, rest));
      case Object(fields) =>
        FieldsEncodable(v, fields, rest);
        SinglesBefore([OPEN_BRACE], FieldsOnto(fields, rest));
      case _ => SinglesBefore(NULL_TEXT, rest);
    }
  }

  lemma {:induction false} ItemsEncodable(whole: Json, items: seq<Json>, rest: Text)
    requires Encodable(rest) && forall i :: 0 <= i < |items| ==> items[i] < whole
    ensures Encodable(ItemsOnto(items, rest))
    decreases whole, 0, |items|
  {
    if |items| <= 1 {
      SinglesBefore([CLOSE_BRACKET], rest);
    } else {
      ItemsEncodable(whole, items[1..], rest);
      SinglesBefore([COMMA], ItemsOnto(items[1..], rest));
    }
    if items != [] {
      OntoEncodable(items[0], ItemsTail(items, rest));
    }
  }

  lemma {:induction false} FieldsEncodable(whole: Json, fields: seq<Field>, rest: Text)
    requires Encodable(rest) && forall i :: 0 <= i < |fields| ==> fields[i].value < whole
    ensures Encodable(FieldsOnto(fields, rest))
    decreases whole, 0, |fields|
  {
    if |fields| <= 1 {
      SinglesBefore([CLOSE_BRACE], rest);
    } else {
      FieldsEncodable(whole, fields[1..], rest);
      SinglesBefore([COMMA], FieldsOnto(fields[1..], rest));
    }
    if fields != [] {
      var value := Onto(fields[0].value, FieldsTail(fields, rest));
      OntoEncodable(fields[0].value, FieldsTail(fields, rest));
      SinglesBefore([COLON], value);
      EscapeEncodable(fields[0].key, [COLON] + value);
      SinglesBefore([QUOTE], Escape(fields[0].key, [COLON] + value));
    }
  }

  /** Whatever strings a value holds, unpaired surrogates and control units included, its
      printed text holds none: the digest of the UTF-8 encoding is a digest of the text. */
  lemma PrintEncodable(v: Json)
    ensures Encodable(Print(v))
  {
    PrintOnto(v, []);
    assert Print(v) + [] == Print(v);
    OntoEncodable(Canon(v), []);
  }
}
