/** Redaction can make a result body longer: a body the validator accepts whose audited form it
    refuses, so that the broker records nothing although the adapter ran. */
module AuditSize {
  import opened Orders
  import opened Jcs
  import opened Redaction
  import opened Arguments
  import opened Broker

  // ---- Counting bytes ---------------------------------------------------------------------------

  lemma {:induction false} Utf8Append(a: string, b: string)
    ensures Utf8(a + b) == Utf8(a) + Utf8(b)
  {
    if |a| == 0 {
      assert a + b == b;
    } else {
      assert (a + b)[1..] == a[1..] + b;
      Utf8Append(a[1..], b);
    }
  }

  lemma {:induction false} AsciiSize(s: string)
    requires forall i :: 0 <= i < |s| ==> s[i] as int < 0x80
    ensures |Utf8(s)| == |s|
  { if |s| > 0 { AsciiSize(s[1..]); } }

  lemma {:induction false} EscapeOrdinary(s: string)
    requires forall i :: 0 <= i < |s| ==> s[i] as int >= 32 && s[i] != '\"' && s[i] != '\\'
    ensures Escape(s) == s
  {
    if |s| > 0 {
      EscapeOrdinary(s[1..]);
      assert s == [s[0]] + s[1..];
    }
  }

  function FieldBytes(f: Field): nat { |Utf8(PrintField(f))| + 1 }

  /** Bytes of a field list, one separator per field. */
  function Weight(fields: seq<Field>): nat {
    if |fields| == 0 then 0 else Weight(fields[..|fields| - 1]) + FieldBytes(fields[|fields| - 1])
  }

  lemma {:induction false} WeightFront(f: Field, rest: seq<Field>)
    ensures Weight([f] + rest) == FieldBytes(f) + Weight(rest)
  {
    var all := [f] + rest;
    if |rest| == 0 {
      assert all[..0] == [];
    } else {
      assert all[..|all| - 1] == [f] + rest[..|rest| - 1];
      WeightFront(f, rest[..|rest| - 1]);
    }
  }

  lemma {:induction false} PrintedWeight(fields: seq<Field>)
    requires |fields| > 0
    ensures |Utf8(PrintFields(fields))| + 1 == Weight(fields)
  {
    assert fields == [fields[0]] + fields[1..];
    WeightFront(fields[0], fields[1..]);
    if |fields| > 1 {
      PrintedWeight(fields[1..]);
      Utf8Append(PrintField(fields[0]) + ",", PrintFields(fields[1..]));
      Utf8Append(PrintField(fields[0]), ",");
      AsciiSize(",");
    }
  }

  lemma {:induction false} InsertWeight(s: seq<Field>, x: Field)
    ensures Weight(Insert(FieldLe, s, x)) == Weight(s) + FieldBytes(x)
  {
    var r := Insert(FieldLe, s, x);
    if |s| == 0 {
      assert r[..0] == [];
    } else if FieldLe(s[|s| - 1], x) {
      assert r[..|s|] == s;
    } else {
      InsertWeight(s[..|s| - 1], x);
      assert r[..|r| - 1] == Insert(FieldLe, s[..|s| - 1], x);
    }
  }

  lemma {:induction false} SortWeight(s: seq<Field>)
    ensures Weight(Sort(FieldLe, s)) == Weight(s)
  {
    if |s| > 0 {
      SortWeight(s[..|s| - 1]);
      InsertWeight(Sort(FieldLe, s[..|s| - 1]), s[|s| - 1]);
    }
  }

  lemma BracedSize(text: string)
    ensures |Utf8("{" + text + "}")| == |Utf8(text)| + 2
  {
    Utf8Append("{" + text, "}");
    Utf8Append("{", text);
    AsciiSize("{");
    AsciiSize("}");
  }

  /** Sorting keys does not change how many bytes an object takes. */
  lemma {:induction false} ObjectBytes(fields: seq<Field>)
    requires |fields| > 0
    ensures |Bytes(Obj(fields))| == Weight(CanonicalFields(fields)) + 1
  {
    var c := CanonicalFields(fields);
    var sorted := Sort(FieldLe, c);
    SortWeight(c);
    SortLength(FieldLe, c);
    PrintedWeight(sorted);
    BracedSize(PrintFields(sorted));
    assert Canonical(Obj(fields)) == Obj(sorted);
    assert Print(Obj(sorted)) == "{" + PrintFields(sorted) + "}";
  }

  // ---- A list of tokens ----------------------------------------------------------------------------

  function Token(value: string): Json { Obj([Field("token", Str(value))]) }

  function Tokens(value: string, n: nat): (r: seq<Json>)
    ensures |r| == n && forall i :: 0 <= i < n ==> r[i] == Token(value)
  { seq(n, _ => Token(value)) }

  predicate Ordinary(s: string)
        { forall i :: 0 <= i < |s| ==> 32 <= s[i] as int < 0x80 && s[i] != '\"' && s[i] != '\\' }

  lemma QuoteBytes(s: string)
    requires Ordinary(s)
    ensures |Utf8(Quote(s))| == |s| + 2
  {
    EscapeOrdinary(s);
    Utf8Append("\"" + s, "\"");
    Utf8Append("\"", s);
    AsciiSize("\"");
    AsciiSize(s);
  }

  lemma PairBytes(key: string, value: Json)
    requires Ordinary(key)
    ensures |Utf8(PrintField(Field(key, value)))| == |key| + 3 + |Utf8(Print(value))|
  {
    QuoteBytes(key);
    Utf8Append(Quote(key) + ":", Print(value));
    Utf8Append(Quote(key), ":");
    AsciiSize(":");
  }

  lemma TokenText(value: string)
    requires Ordinary(value)
    ensures |Utf8(Print(Token(value)))| == 12 + |value|
  {
    var field := PrintField(Field("token", Str(value)));
    PairBytes("token", Str(value));
    QuoteBytes(value);
    BracedSize(field);
    assert Print(Token(value)) == "{" + field + "}";
  }

  lemma {:induction false} TokensText(value: string, n: nat)
    requires Ordinary(value) && n > 0
    ensures |Utf8(PrintItems(Tokens(value, n)))| == (13 + |value|) * n - 1
  {
    TokenText(value);
    var all := Tokens(value, n);
    if n > 1 {
      TokensText(value, n - 1);
      assert all[1..] == Tokens(value, n - 1);
      Utf8Append(Print(all[0]) + ",", PrintItems(all[1..]));
      Utf8Append(Print(all[0]), ",");
      AsciiSize(",");
      assert (13 + |value|) * n == (13 + |value|) * (n - 1) + 13 + |value|;
    }
  }

  lemma TokensCanonical(value: string, n: nat)
    ensures Canonical(Arr(Tokens(value, n))) == Arr(Tokens(value, n))
  {
    var one := [Field("token", Str(value))];
    assert CanonicalFields(one) == one;
    SortIdempotent(FieldLe, one);
    assert CanonicalItems(Tokens(value, n)) == Tokens(value, n);
  }

  lemma TokensRedacted(n: nat)
    ensures Redact(Arr(Tokens("", n))) == Arr(Tokens(REDACTED, n))
  {
    assert Spells("token", SECRET_FIELDS[1]) && Secret("token");
    assert RedactFields([Field("token", Str(""))]) == [Field("token", Str(REDACTED))];
    assert RedactItems(Tokens("", n)) == Tokens(REDACTED, n);
  }

  // ---- The body ------------------------------------------------------------------------------------

  function Body(value: string, n: nat): ResultBody {
    ResultBody(Pass, "ok", false, Arr(Tokens(value, n)), Null, Obj([]), "", "")
  }

  lemma {:induction false} WeightAppend(a: seq<Field>, b: seq<Field>)
    ensures Weight(a + b) == Weight(a) + Weight(b)
  {
    if |b| == 0 {
      assert a + b == a;
    } else {
      assert (a + b)[..|a + b| - 1] == a + b[..|b| - 1];
      WeightAppend(a, b[..|b| - 1]);
    }
  }

  lemma WeightAround(before: seq<Field>, big: Field, after: seq<Field>)
    ensures Weight(before + [big] + after) == Weight(before) + FieldBytes(big) + Weight(after)
  {
    WeightAppend(before + [big], after);
    WeightAppend(before, [big]);
    assert [big][..0] == [];
  }

  /** The fields of `Body` other than `previous_state`. */
  const BEFORE := [Field("outcome", Str("PASS")), Field("detail", Str("ok")), Field("changed", Bool(false))]
  const AFTER := [Field("new_state", Null), Field("data", Obj([])), Field("stdout", Str("")), Field("stderr", Str(""))]

  function BodyFields(list: Json): seq<Field> { BEFORE + [Field("previous_state", list)] + AFTER }

  lemma BodyFieldsAre(value: string, n: nat)
    ensures BodyJson(Body(value, n)).fields == BodyFields(Arr(Tokens(value, n)))
  {}

  predicate Slight(f: Field) {
    |f.key| <= 14 && (f.value.Null? || f.value.Bool? || f.value == Obj([]) || (f.value.Str? && |f.value.s| <= 4))
  }

  lemma SlightField(f: Field)
    requires Slight(f)
    ensures FieldBytes(f) <= 460 && Canonical(f.value) == f.value
  {
    EscapeSize(f.key);
    if f.value.Str? { EscapeSize(f.value.s); }
    assert |Print(f.value)| <= 26;
    Utf8Size(PrintField(f));
  }

  lemma {:induction false} SlightWeight(fields: seq<Field>)
    requires forall i :: 0 <= i < |fields| ==> Slight(fields[i])
    ensures Weight(fields) <= 460 * |fields|
  {
    if |fields| > 0 {
      SlightWeight(fields[..|fields| - 1]);
      SlightField(fields[|fields| - 1]);
    }
  }

  lemma ListBytes(value: string, n: nat)
    requires Ordinary(value) && n > 0
    ensures |Utf8(Print(Arr(Tokens(value, n))))| == (13 + |value|) * n + 1
  {
    var items := PrintItems(Tokens(value, n));
    TokensText(value, n);
    Utf8Append("[" + items, "]");
    Utf8Append("[", items);
    AsciiSize("[");
    AsciiSize("]");
  }

  lemma BigField(key: string, list: Json)
    requires |key| <= 14
    ensures |Utf8(Print(list))| < FieldBytes(Field(key, list)) <= |Utf8(Print(list))| + 349
  {
    var name := Quote(key) + ":";
    EscapeSize(key);
    Utf8Append(name, Print(list));
    Utf8Size(name);
  }

  lemma FieldsBytes(before: seq<Field>, big: Field, after: seq<Field>)
    requires |before| + |after| == 7 && forall f :: f in before + after ==> Slight(f)
    requires |big.key| <= 14 && Canonical(big.value) == big.value
    ensures var size := |Utf8(Print(big.value))|; size <= |Bytes(Obj(before + [big] + after))| <= size + 4000
  {
    var fields := before + [big] + after;
    forall i | 0 <= i < |before| ensures Slight(before[i]) { assert before[i] in before + after; }
    forall i | 0 <= i < |after| ensures Slight(after[i]) { assert after[i] in before + after; }
    forall i | 0 <= i < |fields| ensures Canonical(fields[i].value) == fields[i].value {
      if fields[i] in before { SlightField(fields[i]); } else if fields[i] in after { SlightField(fields[i]); }
    }
    assert CanonicalFields(fields) == fields;
    ObjectBytes(fields);
    WeightAround(before, big, after);
    SlightWeight(before);
    SlightWeight(after);
    BigField(big.key, big.value);
  }

  lemma RestIsSlight()
    ensures forall f :: f in BEFORE + AFTER ==> Slight(f)
  {}

  lemma BodyBytes(value: string, n: nat)
    requires Ordinary(value) && n > 0
    ensures (13 + |value|) * n < |Bytes(BodyJson(Body(value, n)))| <= (13 + |value|) * n + 4001
  {
    var list := Arr(Tokens(value, n));
    TokensCanonical(value, n);
    ListBytes(value, n);
    RestIsSlight();
    FieldsBytes(BEFORE, Field("previous_state", list), AFTER);
    BodyFieldsAre(value, n);
  }

  lemma BodyRedacted(n: nat)
    ensures AuditBody(Body("", n)) == Body(REDACTED, n)
  {
    TokensRedacted(n);
    assert RedactFields([]) == [];
  }

  lemma Fits(value: string, n: nat)
    requires Ordinary(value) && n > 0 && (13 + |value|) * n + 4001 <= MAX_ARGUMENT_BYTES
    ensures ValidBody(Body(value, n))
  { BodyBytes(value, n); }

  lemma TooBig(value: string, n: nat)
    requires Ordinary(value) && n > 0 && (13 + |value|) * n >= MAX_ARGUMENT_BYTES
    ensures !ValidBody(Body(value, n))
  { BodyBytes(value, n); }

  lemma PlaceholderIsOrdinary()
    ensures Ordinary(REDACTED) && |REDACTED| == 10 && Ordinary("")
  {}

  lemma EmptyTokensFit(n: nat)
    requires 0 < n <= 2212
    ensures ValidBody(Body("", n))
  {
    PlaceholderIsOrdinary();
    Fits("", n);
  }

  lemma PlaceholdersDoNot(n: nat)
    requires n >= 1425
    ensures !ValidBody(Body(REDACTED, n))
  {
    PlaceholderIsOrdinary();
    TooBig(REDACTED, n);
  }

  /** Bodies of some twenty kilobytes of empty tokens are valid, and their audited form is over the
      bound. */
  lemma RedactionOutgrowsTheBound(n: nat)
    requires 1425 <= n <= 2212
    ensures ValidBody(Body("", n)) && !ValidBody(AuditBody(Body("", n)))
  {
    EmptyTokensFit(n);
    PlaceholdersDoNot(n);
    BodyRedacted(n);
  }

  lemma UnprintableErrors()
    ensures !ValidBody(Plainly(Fail, "")) && !ValidBody(Plainly(Fail, "\n"))
  {
    assert "\n"[0] as int < 32;
  }

  /** So the broker loses such a result although the adapter was called and its body is valid, as it
      loses an error whose text is empty or holds a control character. */
  lemma SomeAnswersAreNeverAudited(c: Config, call: Call, n: nat)
    requires (forall b :: c.goodBody(b) == ValidBody(b)) && Permitted(c, call) && 1425 <= n <= 2212
    requires call.adapter == Returned(Body("", n)) || call.adapter == Raised("") || call.adapter == Raised("\n")
    ensures Unrecorded(c, call)
  {
    RedactionOutgrowsTheBound(n);
    UnprintableErrors();
  }
}
