/** Canonical JSON (src/mncs_fabric/jcs.py): the encoder, a parser that undoes it,
    and the key order of section 3.2.3 of RFC 8785. */
module Jcs {
  import opened Orders

  datatype Field = Field(key: string, value: Json)
  datatype Json =
    | Null
    | Bool(b: bool)
    | Num(n: int)
    | Str(s: string)
    | Arr(items: seq<Json>)
    | Obj(fields: seq<Field>)

  /** A Python dict has one value per key. */
  predicate UniqueKeys(fields: seq<Field>) {
    forall i, j :: 0 <= i < j < |fields| ==> fields[i].key != fields[j].key
  }

  ghost predicate WellFormed(j: Json) {
    match j
    case Arr(items) => forall x :: x in items ==> WellFormed(x)
    case Obj(fields) => UniqueKeys(fields) && forall f :: f in fields ==> WellFormed(f.value)
    case _ => true
  }

  // ---- Key order -----------------------------------------------------------

  /** UTF-16 code units of one scalar value. */
  function Units(c: char): (r: seq<int>)
    ensures 0 < |r|
    ensures forall u :: u in r ==> 0 <= u < 0x10000
  {
    var n := c as int;
    if n < 0x10000 then [n]
    else [0xD800 + (n - 0x10000) / 0x400, 0xDC00 + (n - 0x10000) % 0x400]
  }

  function Utf16(s: string): (r: seq<int>)
    ensures forall u :: u in r ==> 0 <= u < 0x10000
  {
    if |s| == 0 then [] else Units(s[0]) + Utf16(s[1..])
  }

  /** `str.encode("utf-16-be")`: each unit as two bytes, high byte first. */
  function BigEndian(units: seq<int>): seq<int> {
    if |units| == 0 then [] else [units[0] / 256, units[0] % 256] + BigEndian(units[1..])
  }

  predicate KeyLe(a: string, b: string) { LexLe(BigEndian(Utf16(a)), BigEndian(Utf16(b))) }

  predicate FieldLe(a: Field, b: Field) { KeyLe(a.key, b.key) }

  /** Comparing big-endian bytes is comparing code units. */
  lemma {:induction false} BytesOrderIsUnitOrder(a: seq<int>, b: seq<int>)
    requires forall i :: 0 <= i < |a| ==> 0 <= a[i] < 0x10000
    requires forall i :: 0 <= i < |b| ==> 0 <= b[i] < 0x10000
    ensures LexLe(BigEndian(a), BigEndian(b)) == LexLe(a, b)
  {
    if |a| > 0 && |b| > 0 {
      var x, y := BigEndian(a), BigEndian(b);
      assert x[1..][0] == a[0] % 256 && y[1..][0] == b[0] % 256;
      assert x[1..][1..] == BigEndian(a[1..]) && y[1..][1..] == BigEndian(b[1..]);
      if a[0] == b[0] { BytesOrderIsUnitOrder(a[1..], b[1..]); }
    }
  }

  lemma {:induction false} UnitsPrefixFree(c: char, d: char, x: seq<int>, y: seq<int>)
    requires Units(c) + x == Units(d) + y
    ensures c == d && x == y
  {
    var u, v := Units(c) + x, Units(d) + y;
    assert u[0] == Units(c)[0] && v[0] == Units(d)[0];
    assert |Units(c)| == |Units(d)|;
    if |Units(c)| == 2 { assert u[1] == Units(c)[1] && v[1] == Units(d)[1]; }
    assert x == u[|Units(c)|..] && y == v[|Units(d)|..];
  }

  lemma {:induction false} Utf16Injective(a: string, b: string)
    requires Utf16(a) == Utf16(b)
    ensures a == b
  {
    if |a| > 0 && |b| > 0 {
      UnitsPrefixFree(a[0], b[0], Utf16(a[1..]), Utf16(b[1..]));
      Utf16Injective(a[1..], b[1..]);
      assert a == [a[0]] + a[1..] && b == [b[0]] + b[1..];
    }
  }

  /** Section 3.2.3: keys are ordered by their UTF-16 code units, and no two keys tie. */
  lemma {:induction false} KeyOrder(a: string, b: string)
    ensures KeyLe(a, b) == LexLe(Utf16(a), Utf16(b))
    ensures KeyLe(a, b) || KeyLe(b, a)
    ensures KeyLe(a, b) && KeyLe(b, a) ==> a == b
  {
    forall s: string, i | 0 <= i < |Utf16(s)| ensures 0 <= Utf16(s)[i] < 0x10000 { assert Utf16(s)[i] in Utf16(s); }
    BytesOrderIsUnitOrder(Utf16(a), Utf16(b));
    BytesOrderIsUnitOrder(Utf16(b), Utf16(a));
    LexTotal(Utf16(a), Utf16(b));
    if KeyLe(a, b) && KeyLe(b, a) { Utf16Injective(a, b); }
  }

  lemma {:induction false} FieldLeTotal()
    ensures Total(FieldLe)
  {
    forall x, y ensures FieldLe(x, y) || FieldLe(y, x) { KeyOrder(x.key, y.key); }
    forall x, y, z | FieldLe(x, y) && FieldLe(y, z) ensures FieldLe(x, z) {
      LexTransitive(BigEndian(Utf16(x.key)), BigEndian(Utf16(y.key)), BigEndian(Utf16(z.key)));
    }
  }

  /** The order differs from code point order above the basic plane, so sorting keys
      as Python text would not be canonical. */
  lemma {:induction false} UnitOrderIsNotTextOrder()
    ensures KeyLe("\U{10000}", "\U{FFFD}") && !TextLe("\U{10000}", "\U{FFFD}")
  {
    var a, b := "\U{10000}", "\U{FFFD}";
    assert a[1..] == "" && b[1..] == "";
    assert Utf16(a) == [0xD800, 0xDC00];
    assert Utf16(b) == [0xFFFD];
    KeyOrder(a, b);
    assert Codes(a)[0] == 0x10000 && Codes(b)[0] == 0xFFFD;
  }

  // ---- Encoder -------------------------------------------------------------

  function Hex(n: nat): char requires n < 16 {
    "0123456789abcdef"[n]
  }

  /** `json.dumps(..., ensure_ascii=False)` on one character. */
  function EscapeChar(c: char): string {
    if c == '\"' then "\\\""
    else if c == '\\' then "\\\\"
    else if c == '\n' then "\\n"
    else if c == '\r' then "\\r"
    else if c == '\t' then "\\t"
    else if c as int == 12 then "\\f"
    else if c as int == 8 then "\\b"
    else if c as int < 32 then "\\u00" + [Hex(c as int / 16), Hex(c as int % 16)]
    else [c]
  }

  function Escape(s: string): string {
    if |s| == 0 then "" else EscapeChar(s[0]) + Escape(s[1..])
  }

  function Quote(s: string): string { "\"" + Escape(s) + "\"" }

  function Digits(n: nat): (r: string)
    ensures |r| > 0
  {
    if n < 10 then [Hex(n)] else Digits(n / 10) + [Hex(n % 10)]
  }

  function Decimal(n: int): string { if n < 0 then "-" + Digits(-n) else Digits(n) }

  /** Text of a tree with every object's fields printed in stored order. */
  function Print(j: Json): (r: string)
    decreases j, 0
  {
    match j
    case Null => "null"
    case Bool(b) => if b then "true" else "false"
    case Num(n) => Decimal(n)
    case Str(s) => Quote(s)
    case Arr(items) => "[" + PrintItems(items) + "]"
    case Obj(fields) => "{" + PrintFields(fields) + "}"
  }

  function PrintItems(items: seq<Json>): string
    decreases items, 1
  {
    if |items| == 0 then ""
    else if |items| == 1 then Print(items[0])
    else Print(items[0]) + "," + PrintItems(items[1..])
  }

  function PrintField(f: Field): string
    decreases f, 1
  { Quote(f.key) + ":" + Print(f.value) }

  function PrintFields(fields: seq<Field>): string
    decreases fields, 2
  {
    if |fields| == 0 then ""
    else if |fields| == 1 then PrintField(fields[0])
    else PrintField(fields[0]) + "," + PrintFields(fields[1..])
  }

  /** Sort the fields of every object at every depth. */
  function Canonical(j: Json): Json
    decreases j, 0
  {
    match j
    case Arr(items) => Arr(CanonicalItems(items))
    case Obj(fields) => Obj(Sort(FieldLe, CanonicalFields(fields)))
    case _ => j
  }

  function CanonicalItems(items: seq<Json>): (r: seq<Json>)
    ensures |r| == |items|
    ensures forall i :: 0 <= i < |items| ==> r[i] == Canonical(items[i])
    decreases items, 1
  {
    if |items| == 0 then [] else [Canonical(items[0])] + CanonicalItems(items[1..])
  }

  function CanonicalFields(fields: seq<Field>): (r: seq<Field>)
    ensures |r| == |fields|
    ensures forall i :: 0 <= i < |fields| ==> r[i] == Field(fields[i].key, Canonical(fields[i].value))
    decreases fields, 1
  {
    if |fields| == 0 then []
    else [Field(fields[0].key, Canonical(fields[0].value))] + CanonicalFields(fields[1..])
  }

  /** `_encode`, as text. */
  function Encode(j: Json): string { Print(Canonical(j)) }

  // ---- Parser --------------------------------------------------------------

  type Parsed<T> = Option<(T, string)>

  function HexValue(c: char): Option<nat> {
    if '0' <= c <= '9' then Some(c as nat - '0' as nat)
    else if 'a' <= c <= 'f' then Some(c as nat - 'a' as nat + 10)
    else None
  }

  /** The character an escape sequence stands for, and how long the sequence is. */
  function UnescapeChar(s: string): (r: Option<(char, nat)>)
    ensures r.Some? ==> 0 < r.value.1 <= |s|
  {
    if |s| == 0 then None
    else if s[0] != '\\' then Some((s[0], 1))
    else if |s| == 1 then None
    else match s[1]
      case '\"' => Some(('\"', 2))
      case '\\' => Some(('\\', 2))
      case 'n' => Some(('\n', 2))
      case 'r' => Some(('\r', 2))
      case 't' => Some(('\t', 2))
      case 'f' => Some((12 as char, 2))
      case 'b' => Some((8 as char, 2))
      case 'u' =>
        if |s| < 6 || s[2] != '0' || s[3] != '0' || HexValue(s[4]).None? || HexValue(s[5]).None? then None
        else Some(((HexValue(s[4]).value * 16 + HexValue(s[5]).value) as char, 6))
      case _ => None
  }

  /** Reads up to and including the closing quote. */
  function ParseText(s: string): (r: Parsed<string>)
    ensures r.Some? ==> |r.value.1| < |s|
  {
    if |s| == 0 then None
    else if s[0] == '\"' then Some(("", s[1..]))
    else match UnescapeChar(s)
      case None => None
      case Some((c, n)) =>
        match ParseText(s[n..])
        case None => None
        case Some((tail, rest)) => Some(([c] + tail, rest))
  }

  predicate StartsWithDigit(s: string) { |s| > 0 && '0' <= s[0] <= '9' }

  function DigitRun(s: string): (n: nat)
    ensures n <= |s|
  {
    if StartsWithDigit(s) then 1 + DigitRun(s[1..]) else 0
  }

  function NatOf(s: string): nat
    requires forall i :: 0 <= i < |s| ==> '0' <= s[i] <= '9'
  {
    if |s| == 0 then 0 else NatOf(s[..|s| - 1]) * 10 + (s[|s| - 1] as nat - '0' as nat)
  }

  lemma {:induction false} DigitRunDigits(s: string)
    ensures forall i :: 0 <= i < DigitRun(s) ==> '0' <= s[i] <= '9'
  {
    if StartsWithDigit(s) { DigitRunDigits(s[1..]); }
  }

  function ParseNat(s: string): (r: Parsed<nat>)
    ensures r.Some? ==> |r.value.1| < |s|
  {
    var n := DigitRun(s);
    if n == 0 then None
    else DigitRunDigits(s); Some((NatOf(s[..n]), s[n..]))
  }

  function ParseWord(s: string, word: string, value: Json): (r: Parsed<Json>)
    requires |word| > 0
    ensures r.Some? ==> |r.value.1| < |s|
  {
    if word <= s then Some((value, s[|word|..])) else None
  }

  function ParseNumber(s: string, negative: bool): (r: Parsed<Json>)
    ensures r.Some? ==> |r.value.1| < |s|
  {
    match ParseNat(s)
    case None => None
    case Some((n, rest)) => Some((Num(if negative then 0 - n as int else n), rest))
  }

  function ParseQuoted(s: string): (r: Parsed<Json>)
    ensures r.Some? ==> |r.value.1| < |s|
  {
    match ParseText(s)
    case None => None
    case Some((t, rest)) => Some((Str(t), rest))
  }

  function ParseScalar(s: string): (r: Parsed<Json>)
    requires |s| > 0
    ensures r.Some? ==> |r.value.1| < |s|
  {
    if s[0] == 'n' then ParseWord(s, "null", Null)
    else if s[0] == 't' then ParseWord(s, "true", Bool(true))
    else if s[0] == 'f' then ParseWord(s, "false", Bool(false))
    else if s[0] == '-' then ParseNumber(s[1..], true)
    else if s[0] == '\"' then ParseQuoted(s[1..])
    else ParseNumber(s, false)
  }

  function ParseValue(s: string): (r: Parsed<Json>)
    ensures r.Some? ==> |r.value.1| < |s|
    decreases |s|, 0
  {
    if |s| == 0 then None
    else if s[0] == '[' then
      if |s| > 1 && s[1] == ']' then Some((Arr([]), s[2..]))
      else match ParseItems(s[1..])
        case None => None
        case Some((items, rest)) => Some((Arr(items), rest))
    else if s[0] == '{' then
      if |s| > 1 && s[1] == '}' then Some((Obj([]), s[2..]))
      else match ParseFields(s[1..])
        case None => None
        case Some((fields, rest)) => Some((Obj(fields), rest))
    else ParseScalar(s)
  }

  /** One or more values up to the closing bracket. */
  function ParseItems(s: string): (r: Parsed<seq<Json>>)
    ensures r.Some? ==> |r.value.1| < |s|
    decreases |s|, 1
  {
    match ParseValue(s)
    case None => None
    case Some((x, rest)) =>
      if |rest| > 0 && rest[0] == ']' then Some(([x], rest[1..]))
      else if |rest| > 0 && rest[0] == ',' then
        match ParseItems(rest[1..])
        case None => None
        case Some((tail, rest')) => Some(([x] + tail, rest'))
      else None
  }

  function ParseField(s: string): (r: Parsed<Field>)
    ensures r.Some? ==> |r.value.1| < |s|
    decreases |s|, 1
  {
    if |s| == 0 || s[0] != '\"' then None
    else match ParseText(s[1..])
      case None => None
      case Some((key, rest)) =>
        if |rest| == 0 || rest[0] != ':' then None
        else match ParseValue(rest[1..])
          case None => None
          case Some((v, rest')) => Some((Field(key, v), rest'))
  }

  function ParseFields(s: string): (r: Parsed<seq<Field>>)
    ensures r.Some? ==> |r.value.1| < |s|
    decreases |s|, 2
  {
    match ParseField(s)
    case None => None
    case Some((f, rest)) =>
      if |rest| > 0 && rest[0] == '}' then Some(([f], rest[1..]))
      else if |rest| > 0 && rest[0] == ',' then
        match ParseFields(rest[1..])
        case None => None
        case Some((tail, rest')) => Some(([f] + tail, rest'))
      else None
  }

  // ---- The parser undoes the printer ----------------------------------------

  lemma {:induction false} UnescapeUndoesEscape(c: char, rest: string)
    ensures UnescapeChar(EscapeChar(c) + rest) == Some((c, |EscapeChar(c)|))
    ensures |EscapeChar(c)| > 0 && EscapeChar(c)[0] != '\"'
  {
    var t := EscapeChar(c) + rest;
    var n := c as int;
    if n < 32 && |EscapeChar(c)| == 6 {
      assert t[..6] == EscapeChar(c);
      assert t[4] == Hex(n / 16) && t[5] == Hex(n % 16);
      assert HexValue(t[4]) == Some(n / 16) && HexValue(t[5]) == Some(n % 16);
    }
  }

  lemma {:induction false} ParseTextStep(e: string, tail: string, c: char, s: string, rest: string)
    requires |e| > 0 && e[0] != '\"' && UnescapeChar(e + tail) == Some((c, |e|)) && ParseText(tail) == Some((s, rest))
    ensures ParseText(e + tail) == Some(([c] + s, rest))
  {
    assert (e + tail)[|e|..] == tail && (e + tail)[0] == e[0];
  }

  lemma {:induction false} TextRoundTrip(s: string, rest: string)
    ensures ParseText(Escape(s) + "\"" + rest) == Some((s, rest))
  {
    if |s| == 0 {
      assert (Escape(s) + "\"" + rest)[1..] == rest;
    } else {
      var e, tail := EscapeChar(s[0]), Escape(s[1..]) + "\"" + rest;
      assert Escape(s) + "\"" + rest == e + tail;
      UnescapeUndoesEscape(s[0], tail);
      TextRoundTrip(s[1..], rest);
      ParseTextStep(e, tail, s[0], s[1..], rest);
      assert s == [s[0]] + s[1..];
    }
  }

  lemma {:induction false} DigitsRoundTrip(n: nat)
    ensures forall i :: 0 <= i < |Digits(n)| ==> '0' <= Digits(n)[i] <= '9'
    ensures NatOf(Digits(n)) == n
  {
    if n >= 10 {
      DigitsRoundTrip(n / 10);
      var d := Digits(n);
      assert d[..|d| - 1] == Digits(n / 10);
    } else {
      assert Digits(n)[..0] == "";
    }
  }

  lemma {:induction false} DigitRunStops(d: string, rest: string)
    requires forall i :: 0 <= i < |d| ==> '0' <= d[i] <= '9'
    requires !StartsWithDigit(rest)
    ensures DigitRun(d + rest) == |d|
  {
    if |d| == 0 {
      assert d + rest == rest;
    } else {
      assert (d + rest)[1..] == d[1..] + rest;
      DigitRunStops(d[1..], rest);
    }
  }

  lemma {:induction false} NatRoundTrip(n: nat, rest: string)
    requires !StartsWithDigit(rest)
    ensures ParseNat(Digits(n) + rest) == Some((n, rest))
  {
    DigitsRoundTrip(n);
    DigitRunStops(Digits(n), rest);
    var t := Digits(n) + rest;
    assert t[..|Digits(n)|] == Digits(n) && t[|Digits(n)|..] == rest;
  }

  lemma {:induction false} NegativeRoundTrip(m: nat, rest: string)
    requires !StartsWithDigit(rest)
    ensures ParseScalar("-" + (Digits(m) + rest)) == Some((Num(0 - m as int), rest))
  {
    var t := "-" + (Digits(m) + rest);
    NatRoundTrip(m, rest);
    assert t[0] == '-' && t[1..] == Digits(m) + rest;
  }

  lemma {:induction false} NatScalarRoundTrip(m: nat, rest: string)
    requires !StartsWithDigit(rest)
    ensures var t := Digits(m) + rest; '0' <= t[0] <= '9' && ParseScalar(t) == Some((Num(m), rest))
  {
    NatRoundTrip(m, rest);
    DigitsRoundTrip(m);
    assert (Digits(m) + rest)[0] == Digits(m)[0];
  }

  lemma {:induction false} NumRoundTrip(n: int, rest: string)
    requires !StartsWithDigit(rest)
    ensures ParseScalar(Decimal(n) + rest) == Some((Num(n), rest))
  {
    if n < 0 {
      var m: nat := -n;
      var t := "-" + (Digits(m) + rest);
      NegativeRoundTrip(m, rest);
      assert Decimal(n) + rest == t;
    } else {
      NatScalarRoundTrip(n, rest);
    }
  }

  lemma {:induction false} WordRoundTrip(word: string, value: Json, rest: string)
    requires word == Print(value) && (value == Null || value.Bool?)
    ensures ParseScalar(word + rest) == Some((value, rest))
  {
    var t := word + rest;
    assert t[..|word|] == word && t[|word|..] == rest && t[0] == word[0];
  }

  lemma {:induction false} StrRoundTrip(s: string, rest: string)
    ensures ParseScalar(Quote(s) + rest) == Some((Str(s), rest))
  {
    var t, tail := Quote(s) + rest, Escape(s) + "\"" + rest;
    TextRoundTrip(s, rest);
    assert t == "\"" + tail;
    assert t[0] == '\"' && t[1..] == tail;
    assert ParseQuoted(tail) == Some((Str(s), rest));
  }

  /** The first character decides which branch of the parser runs. */
  lemma {:induction false} PrintHead(j: Json)
    ensures |Print(j)| > 0
    ensures Print(j)[0] == '[' <==> j.Arr?
    ensures Print(j)[0] == '{' <==> j.Obj?
    ensures Print(j)[0] !in {']', '}'}
  {
    match j
    case Num(n) => if n >= 0 { DigitsRoundTrip(n); }
    case _ =>
  }

  lemma {:induction false} ScalarRoundTrip(j: Json, rest: string)
    requires !j.Arr? && !j.Obj? && !StartsWithDigit(rest)
    ensures ParseValue(Print(j) + rest) == Some((j, rest))
  {
    PrintHead(j);
    assert (Print(j) + rest)[0] == Print(j)[0];
    match j
    case Null => WordRoundTrip("null", j, rest);
    case Bool(b) => WordRoundTrip(if b then "true" else "false", j, rest);
    case Num(n) => NumRoundTrip(n, rest);
    case Str(s) => StrRoundTrip(s, rest);
  }

  lemma {:induction false} ValueRoundTrip(j: Json, rest: string)
    requires !StartsWithDigit(rest)
    ensures ParseValue(Print(j) + rest) == Some((j, rest))
    decreases j, 0
  {
    var t := Print(j) + rest;
    match j
    case Arr(items) => ArrRoundTrip(items, rest);
    case Obj(fields) => ObjRoundTrip(fields, rest);
    case _ => ScalarRoundTrip(j, rest);
  }

  lemma {:induction false} ArrRoundTrip(items: seq<Json>, rest: string)
    ensures ParseValue("[" + PrintItems(items) + "]" + rest) == Some((Arr(items), rest))
    decreases items, 2
  {
    var t := "[" + PrintItems(items) + "]" + rest;
    assert t[0] == '[' && t[1..] == PrintItems(items) + "]" + rest;
    if |items| == 0 {
      assert t[1] == ']' && t[2..] == rest;
    } else {
      PrintHead(items[0]);
      assert t[1] == PrintItems(items)[0] == Print(items[0])[0];
      ItemsRoundTrip(items, rest);
    }
  }

  lemma {:induction false} ObjRoundTrip(fields: seq<Field>, rest: string)
    ensures ParseValue("{" + PrintFields(fields) + "}" + rest) == Some((Obj(fields), rest))
    decreases fields, 3
  {
    var t := "{" + PrintFields(fields) + "}" + rest;
    assert t[0] == '{' && t[1..] == PrintFields(fields) + "}" + rest;
    if |fields| == 0 {
      assert t[1] == '}' && t[2..] == rest;
    } else {
      assert t[1] == PrintFields(fields)[0] == PrintField(fields[0])[0] == '\"';
      FieldsRoundTrip(fields, rest);
    }
  }

  lemma {:induction false} ItemsRoundTrip(items: seq<Json>, rest: string)
    requires |items| > 0
    ensures ParseItems(PrintItems(items) + "]" + rest) == Some((items, rest))
    decreases items, 1
  {
    var t := PrintItems(items) + "]" + rest;
    if |items| == 1 {
      ValueRoundTrip(items[0], "]" + rest);
      assert t == Print(items[0]) + ("]" + rest);
      assert ("]" + rest)[1..] == rest && items == [items[0]];
    } else {
      var tail := PrintItems(items[1..]) + "]" + rest;
      assert t == Print(items[0]) + ("," + tail);
      ValueRoundTrip(items[0], "," + tail);
      assert ("," + tail)[1..] == tail;
      ItemsRoundTrip(items[1..], rest);
      assert items == [items[0]] + items[1..];
    }
  }

  lemma {:induction false} QuotedPair(a: string, b: string, rest: string)
    ensures var tail := ":" + (b + rest);
      var t := "\"" + a + "\"" + ":" + b + rest;
      t[0] == '\"' && t[1..] == a + "\"" + tail && tail[0] == ':' && tail[1..] == b + rest
  {}

  lemma {:induction false} FieldRoundTrip(f: Field, rest: string)
    requires !StartsWithDigit(rest)
    ensures ParseField(PrintField(f) + rest) == Some((f, rest))
    decreases f, 1
  {
    QuotedPair(Escape(f.key), Print(f.value), rest);
    TextRoundTrip(f.key, ":" + (Print(f.value) + rest));
    ValueRoundTrip(f.value, rest);
  }

  lemma {:induction false} FieldsRoundTrip(fields: seq<Field>, rest: string)
    requires |fields| > 0
    ensures ParseFields(PrintFields(fields) + "}" + rest) == Some((fields, rest))
    decreases fields, 2
  {
    var t := PrintFields(fields) + "}" + rest;
    var first := PrintField(fields[0]);
    if |fields| == 1 {
      var tail := "}" + rest;
      assert t == first + tail;
      assert tail[0] == '}' && tail[1..] == rest;
      FieldRoundTrip(fields[0], tail);
      assert fields == [fields[0]];
    } else {
      var more := PrintFields(fields[1..]) + "}" + rest;
      var tail := "," + more;
      assert t == first + tail;
      assert tail[0] == ',' && tail[1..] == more;
      FieldRoundTrip(fields[0], tail);
      FieldsRoundTrip(fields[1..], rest);
      assert fields == [fields[0]] + fields[1..];
    }
  }

  // ---- Encoding is canonical --------------------------------------------------

  /** Equality of JSON values: lists in order, objects by key. */
  predicate Same(a: Json, b: Json)
    decreases a
  {
    match a
    case Arr(items) =>
      b.Arr? && |items| == |b.items| && forall i :: 0 <= i < |items| ==> Same(items[i], b.items[i])
    case Obj(fields) =>
      b.Obj? && |fields| == |b.fields| && forall f :: f in fields ==> HasSame(f, b.fields)
    case _ => a == b
  }

  predicate HasSame(f: Field, fields: seq<Field>)
    decreases f
  {
    exists g :: g in fields && g.key == f.key && Same(f.value, g.value)
  }

  lemma CanonicalFieldsUnique(fields: seq<Field>)
    requires UniqueKeys(fields)
    ensures NoDuplicates(CanonicalFields(fields)) && NoTies(FieldLe, CanonicalFields(fields))
  {
    var c := CanonicalFields(fields);
    forall x, y | x in c && y in c && FieldLe(x, y) && FieldLe(y, x) ensures x == y {
      KeyOrder(x.key, y.key);
    }
  }

  lemma SortedFieldsAgree(a: seq<Field>, b: seq<Field>)
    requires UniqueKeys(a) && UniqueKeys(b)
    requires multiset(CanonicalFields(a)) == multiset(CanonicalFields(b))
    ensures Sort(FieldLe, CanonicalFields(a)) == Sort(FieldLe, CanonicalFields(b))
  {
    var x, y := CanonicalFields(a), CanonicalFields(b);
    FieldLeTotal();
    SortSorts(FieldLe, x);
    SortSorts(FieldLe, y);
    CanonicalFieldsUnique(a);
    SameElements(x, Sort(FieldLe, x));
    SortedUnique(FieldLe, Sort(FieldLe, x), Sort(FieldLe, y));
  }

  lemma FieldsInSortedOrder(fields: seq<Field>)
    ensures multiset(Sort(FieldLe, CanonicalFields(fields))) == multiset(CanonicalFields(fields))
    ensures |Sort(FieldLe, CanonicalFields(fields))| == |fields|
    ensures forall f :: f in fields ==> Field(f.key, Canonical(f.value)) in Sort(FieldLe, CanonicalFields(fields))
    ensures forall c :: c in Sort(FieldLe, CanonicalFields(fields)) ==>
      exists f :: f in fields && c == Field(f.key, Canonical(f.value))
  {
    var x := CanonicalFields(fields);
    FieldLeTotal();
    SortSorts(FieldLe, x);
    SameElements(x, Sort(FieldLe, x));
    forall f | f in fields ensures Field(f.key, Canonical(f.value)) in x {
      var i :| 0 <= i < |fields| && fields[i] == f;
      assert x[i] == Field(f.key, Canonical(f.value));
    }
    forall c | c in x ensures exists f :: f in fields && c == Field(f.key, Canonical(f.value)) {
      var i :| 0 <= i < |x| && x[i] == c;
      assert fields[i] in fields;
    }
  }

  /** Canonical forms are equal exactly when the JSON values are. */
  lemma {:induction false} SameIffCanonical(a: Json, b: Json)
    requires WellFormed(a) && WellFormed(b)
    ensures Same(a, b) <==> Canonical(a) == Canonical(b)
    decreases a
  {
    match a
    case Arr(items) =>
      if b.Arr? && |items| == |b.items| {
        forall i | 0 <= i < |items|
          ensures Same(items[i], b.items[i]) <==> Canonical(a).items[i] == Canonical(b).items[i]
        { SameIffCanonical(items[i], b.items[i]); }
      }
    case Obj(fields) =>
      if b.Obj? && |fields| == |b.fields| {
        forall f, g | f in fields && g in b.fields
          ensures Same(f.value, g.value) <==> Canonical(f.value) == Canonical(g.value)
        { SameIffCanonical(f.value, g.value); }
        SameFields(fields, b.fields);
      } else if b.Obj? {
        FieldsInSortedOrder(fields);
        FieldsInSortedOrder(b.fields);
      }
    case _ =>
  }

  lemma SameFieldsSortAlike(a: seq<Field>, b: seq<Field>)
    requires UniqueKeys(a) && UniqueKeys(b) && |a| == |b|
    requires forall f, g :: f in a && g in b && Same(f.value, g.value) ==> Canonical(f.value) == Canonical(g.value)
    requires forall f :: f in a ==> HasSame(f, b)
    ensures Sort(FieldLe, CanonicalFields(a)) == Sort(FieldLe, CanonicalFields(b))
  {
    var x, y := CanonicalFields(a), CanonicalFields(b);
    forall i | 0 <= i < |x| ensures x[i] in y {
      assert HasSame(a[i], b);
      var g :| g in b && g.key == a[i].key && Same(a[i].value, g.value);
      var k :| 0 <= k < |b| && b[k] == g;
      assert y[k] == x[i];
    }
    CanonicalFieldsUnique(a);
    CanonicalFieldsUnique(b);
    Rearranged(x, y);
    SortedFieldsAgree(a, b);
  }

  lemma SameFields(a: seq<Field>, b: seq<Field>)
    requires UniqueKeys(a) && UniqueKeys(b) && |a| == |b|
    requires forall f, g :: f in a && g in b ==> (Same(f.value, g.value) <==> Canonical(f.value) == Canonical(g.value))
    ensures (forall f :: f in a ==> HasSame(f, b)) <==>
      Sort(FieldLe, CanonicalFields(a)) == Sort(FieldLe, CanonicalFields(b))
  {
    if forall f :: f in a ==> HasSame(f, b) { SameFieldsSortAlike(a, b); }
    if Sort(FieldLe, CanonicalFields(a)) == Sort(FieldLe, CanonicalFields(b)) {
      FieldsInSortedOrder(a);
      FieldsInSortedOrder(b);
      forall f | f in a ensures HasSame(f, b) {
        assert Field(f.key, Canonical(f.value)) in Sort(FieldLe, CanonicalFields(b));
      }
    }
  }

  /** Parsing what was encoded gives the value back, objects in canonical field order. */
  lemma EncodeRoundTrip(j: Json)
    ensures ParseValue(Encode(j)) == Some((Canonical(j), ""))
  {
    ValueRoundTrip(Canonical(j), "");
    assert Encode(j) + "" == Encode(j);
  }

  /** Two values have the same encoding exactly when they are the same JSON value:
      the encoding is injective and blind to insertion order. */
  lemma EncodeIsCanonical(a: Json, b: Json)
    requires WellFormed(a) && WellFormed(b)
    ensures Encode(a) == Encode(b) <==> Same(a, b)
  {
    SameIffCanonical(a, b);
    EncodeRoundTrip(a);
    EncodeRoundTrip(b);
  }

  // ---- The encoder's own recursion ---------------------------------------------

  /** Joining `_encode(key) + ":" + _encode(item)` with commas. */
  function EncodeJoined(fields: seq<Field>): string {
    if |fields| == 0 then ""
    else
      var one := Quote(fields[0].key) + ":" + Encode(fields[0].value);
      if |fields| == 1 then one else one + "," + EncodeJoined(fields[1..])
  }

  lemma {:induction false} InsertCommutes(s: seq<Field>, x: Field)
    ensures CanonicalFields(Insert(FieldLe, s, x)) ==
      Insert(FieldLe, CanonicalFields(s), Field(x.key, Canonical(x.value)))
  {
    if |s| > 0 {
      var c := CanonicalFields(s);
      assert c[..|s| - 1] == CanonicalFields(s[..|s| - 1]);
      InsertCommutes(s[..|s| - 1], x);
    }
  }

  lemma {:induction false} SortCommutes(s: seq<Field>)
    ensures CanonicalFields(Sort(FieldLe, s)) == Sort(FieldLe, CanonicalFields(s))
  {
    if |s| > 0 {
      var c := CanonicalFields(s);
      assert c[..|s| - 1] == CanonicalFields(s[..|s| - 1]);
      SortCommutes(s[..|s| - 1]);
      InsertCommutes(Sort(FieldLe, s[..|s| - 1]), s[|s| - 1]);
    }
  }

  lemma {:induction false} JoinedIsPrinted(fields: seq<Field>)
    ensures EncodeJoined(fields) == PrintFields(CanonicalFields(fields))
  {
    if |fields| > 1 {
      assert CanonicalFields(fields)[1..] == CanonicalFields(fields[1..]);
      JoinedIsPrinted(fields[1..]);
    }
  }

  /** An object is encoded by sorting its items by key and joining their encodings. */
  lemma EncodeObject(fields: seq<Field>)
    ensures Encode(Obj(fields)) == "{" + EncodeJoined(Sort(FieldLe, fields)) + "}"
  {
    SortCommutes(fields);
    JoinedIsPrinted(Sort(FieldLe, fields));
  }

  // ---- Bytes -------------------------------------------------------------------

  function Utf8Char(c: char): (r: seq<int>)
    ensures 0 < |r| <= 4
  {
    var n := c as int;
    if n < 0x80 then [n]
    else if n < 0x800 then [0xC0 + n / 0x40, 0x80 + n % 0x40]
    else if n < 0x10000 then [0xE0 + n / 0x40 / 0x40, 0x80 + n / 0x40 % 0x40, 0x80 + n % 0x40]
    else [0xF0 + n / 0x40 / 0x40 / 0x40, 0x80 + n / 0x40 / 0x40 % 0x40, 0x80 + n / 0x40 % 0x40, 0x80 + n % 0x40]
  }

  function Utf8(s: string): seq<int> {
    if |s| == 0 then [] else Utf8Char(s[0]) + Utf8(s[1..])
  }

  /** `canonical_jcs_bytes`. */
  function Bytes(j: Json): seq<int> { Utf8(Encode(j)) }

  predicate Scalar(n: int) { 0 <= n < 0xD800 || 0xE000 <= n < 0x110000 }

  function Utf8Length(lead: int): nat {
    if lead < 0x80 then 1 else if lead < 0xE0 then 2 else if lead < 0xF0 then 3 else 4
  }

  function Utf8Value(b: seq<int>): int
    requires |b| > 0 && Utf8Length(b[0]) <= |b|
  {
    match Utf8Length(b[0])
    case 1 => b[0]
    case 2 => (b[0] - 0xC0) * 0x40 + (b[1] - 0x80)
    case 3 => ((b[0] - 0xE0) * 0x40 + (b[1] - 0x80)) * 0x40 + (b[2] - 0x80)
    case _ => (((b[0] - 0xF0) * 0x40 + (b[1] - 0x80)) * 0x40 + (b[2] - 0x80)) * 0x40 + (b[3] - 0x80)
  }

  /** First scalar value of a byte string, and its length. */
  function Utf8Head(b: seq<int>): (r: Option<(char, nat)>)
    ensures r.Some? ==> 0 < r.value.1 <= |b|
  {
    if |b| == 0 || |b| < Utf8Length(b[0]) || !Scalar(Utf8Value(b)) then None
    else Some((Utf8Value(b) as char, Utf8Length(b[0])))
  }

  function Utf8Decode(b: seq<int>): Option<string> {
    if |b| == 0 then Some("")
    else match Utf8Head(b)
      case None => None
      case Some((c, len)) =>
        match Utf8Decode(b[len..])
        case None => None
        case Some(tail) => Some([c] + tail)
  }

  lemma Utf8ValueUndoes(c: char)
    ensures Utf8Length(Utf8Char(c)[0]) == |Utf8Char(c)| && Utf8Value(Utf8Char(c)) == c as int
  {
    var n := c as int;
    var q := n / 0x40;
    assert n == q * 0x40 + n % 0x40 && q == q / 0x40 * 0x40 + q % 0x40;
  }

  lemma Utf8HeadUndoes(c: char, rest: seq<int>)
    ensures Utf8Head(Utf8Char(c) + rest) == Some((c, |Utf8Char(c)|))
  {
    var u := Utf8Char(c);
    var b := u + rest;
    Utf8ValueUndoes(c);
    assert forall i :: 0 <= i < |u| ==> b[i] == u[i];
    assert Utf8Value(b) == Utf8Value(u);
    assert Scalar(c as int);
  }

  lemma {:induction false} Utf8RoundTrip(s: string)
    ensures Utf8Decode(Utf8(s)) == Some(s)
  {
    if |s| > 0 {
      var b := Utf8(s);
      Utf8HeadUndoes(s[0], Utf8(s[1..]));
      assert b[|Utf8Char(s[0])|..] == Utf8(s[1..]);
      Utf8RoundTrip(s[1..]);
      assert s == [s[0]] + s[1..];
    }
  }

  function ParseBytes(b: seq<int>): Option<Json> {
    match Utf8Decode(b)
    case None => None
    case Some(text) =>
      match ParseValue(text)
      case Some((j, rest)) => if rest == "" then Some(j) else None
      case None => None
  }

  /** `canonical_jcs_bytes` has a left inverse and identifies exactly equal values. */
  lemma BytesAreCanonical(a: Json, b: Json)
    requires WellFormed(a) && WellFormed(b)
    ensures ParseBytes(Bytes(a)) == Some(Canonical(a)) && Same(a, Canonical(a))
    ensures Bytes(a) == Bytes(b) <==> Same(a, b)
  {
    Utf8RoundTrip(Encode(a));
    Utf8RoundTrip(Encode(b));
    EncodeRoundTrip(a);
    EncodeIsCanonical(a, b);
    SameAsCanonical(a);
  }

  lemma {:induction false} SameAsCanonical(j: Json)
    ensures Same(j, Canonical(j))
    decreases j
  {
    match j
    case Arr(items) =>
      forall i | 0 <= i < |items| ensures Same(items[i], Canonical(items[i])) { SameAsCanonical(items[i]); }
    case Obj(fields) =>
      FieldsInSortedOrder(fields);
      var s := Sort(FieldLe, CanonicalFields(fields));
      forall f | f in fields ensures HasSame(f, s) {
        SameAsCanonical(f.value);
        assert Field(f.key, Canonical(f.value)) in s;
      }
    case _ =>
  }

  lemma BytesReadBack(j: Json)
    ensures ParseBytes(Bytes(j)) == Some(Canonical(j))
  {
    Utf8RoundTrip(Encode(j));
    EncodeRoundTrip(j);
  }

  /** Canonical values are their own canonical form, so they encode to the same bytes. */
  lemma {:induction false} CanonicalIdempotent(j: Json)
    ensures Canonical(Canonical(j)) == Canonical(j)
    decreases j
  {
    match j
    case Arr(items) =>
      forall i | 0 <= i < |items|
        ensures Canonical(Canonical(items[i])) == Canonical(items[i]) { CanonicalIdempotent(items[i]); }
      assert CanonicalItems(CanonicalItems(items)) == CanonicalItems(items);
    case Obj(fields) =>
      var c := CanonicalFields(fields);
      forall i | 0 <= i < |fields|
        ensures Canonical(Canonical(fields[i].value)) == Canonical(fields[i].value)
            { CanonicalIdempotent(fields[i].value); }
      assert CanonicalFields(c) == c;
      SortCommutes(c);
      FieldLeTotal();
      SortSorts(FieldLe, c);
      SortIdempotent(FieldLe, Sort(FieldLe, c));
    case _ =>
  }
}
