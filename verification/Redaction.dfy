/** Redaction and result bodies (src/mncs_fabric/capability_broker.py). */
module Redaction {
  import opened Jcs

  const MAX_AUDIT_OUTPUT := 4096
  const MAX_DETAIL := 512
  const MAX_ARGUMENT_BYTES := 32 * 1024

  const SECRET_FIELDS := ["password", "token", "secret", "credential", "private_key", "authorization"]

  /** `str.lower()` as far as it can produce an ASCII letter: A to Z and the Kelvin sign. */
  function LowerChar(c: char): char {
    if 'A' <= c <= 'Z' then (c as int + 32) as char
    else if c == '\U{212A}' then 'k'
    else c
  }

  predicate Spells(field: string, word: string) {
    |field| == |word| && forall i :: 0 <= i < |word| ==> LowerChar(field[i]) == word[i]
  }

  predicate Secret(field: string) { exists i :: 0 <= i < |SECRET_FIELDS| && Spells(field, SECRET_FIELDS[i]) }

  function Cut(s: string, n: nat): string { if |s| <= n then s else s[..n] }

  const REDACTED := "[redacted]"

  function Redact(j: Json): Json
    decreases j, 0
  {
    match j
    case Obj(fields) => Obj(RedactFields(fields))
    case Arr(items) => Arr(RedactItems(items))
    case Str(s) => Str(Cut(s, MAX_AUDIT_OUTPUT))
    case _ => j
  }

  function RedactField(f: Field): Field
    decreases f, 1
  { Field(f.key, if Secret(f.key) then Str(REDACTED) else Redact(f.value)) }

  function RedactItems(items: seq<Json>): (r: seq<Json>)
    ensures |r| == |items| && forall i :: 0 <= i < |items| ==> r[i] == Redact(items[i])
    decreases items, 1
  { if |items| == 0 then [] else [Redact(items[0])] + RedactItems(items[1..]) }

  function RedactFields(fields: seq<Field>): (r: seq<Field>)
    ensures |r| == |fields| && forall i :: 0 <= i < |fields| ==> r[i] == RedactField(fields[i])
    decreases fields, 2
  { if |fields| == 0 then [] else [RedactField(fields[0])] + RedactFields(fields[1..]) }

  /** Nothing left to hide, at any depth: secret-named fields hold the placeholder and no
      text value exceeds the bound. */
  predicate Clean(j: Json)
    decreases j
  {
    match j
    case Obj(fields) => forall f :: f in fields ==> if Secret(f.key) then f.value == Str(REDACTED) else Clean(f.value)
    case Arr(items) => forall x :: x in items ==> Clean(x)
    case Str(s) => |s| <= MAX_AUDIT_OUTPUT
    case _ => true
  }

  lemma {:induction false} RedactIsClean(j: Json)
    ensures Clean(Redact(j))
    decreases j
  {
    match j
    case Obj(fields) =>
      var r := RedactFields(fields);
      forall f | f in r ensures if Secret(f.key) then f.value == Str(REDACTED) else Clean(f.value) {
        var i :| 0 <= i < |r| && r[i] == f;
        RedactIsClean(fields[i].value);
      }
    case Arr(items) =>
      var r := RedactItems(items);
      forall x | x in r ensures Clean(x) {
        var i :| 0 <= i < |r| && r[i] == x;
        RedactIsClean(items[i]);
      }
    case _ =>
  }

  /** Redaction leaves a value alone exactly when it is already clean. */
  lemma {:induction false} RedactFixesExactlyClean(j: Json)
    ensures Redact(j) == j <==> Clean(j)
    decreases j
  {
    RedactIsClean(j);
    match j
    case Obj(fields) =>
      if Clean(j) {
        var r := RedactFields(fields);
        forall i | 0 <= i < |fields| ensures r[i] == fields[i] {
          assert fields[i] in fields;
          RedactFixesExactlyClean(fields[i].value);
        }
      }
    case Arr(items) =>
      if Clean(j) {
        var r := RedactItems(items);
        forall i | 0 <= i < |items| ensures r[i] == items[i] {
          assert items[i] in items;
          RedactFixesExactlyClean(items[i]);
        }
      }
    case _ =>
  }

  lemma RedactIdempotent(j: Json)
    ensures Redact(Redact(j)) == Redact(j)
  {
    RedactIsClean(j);
    RedactFixesExactlyClean(Redact(j));
  }

  /** Equal JSON values are clean together. */
  lemma {:induction false} SameIsClean(a: Json, b: Json)
    requires Same(a, b) && Clean(b)
    ensures Clean(a)
    decreases a
  {
    match a
    case Obj(fields) =>
      forall f | f in fields ensures if Secret(f.key) then f.value == Str(REDACTED) else Clean(f.value) {
        assert HasSame(f, b.fields);
        var g :| g in b.fields && g.key == f.key && Same(f.value, g.value);
        if !Secret(f.key) { SameIsClean(f.value, g.value); }
      }
    case Arr(items) =>
      forall x | x in items ensures Clean(x) {
        var i :| 0 <= i < |items| && items[i] == x;
        assert b.items[i] in b.items;
        SameIsClean(x, b.items[i]);
      }
    case _ =>
  }

  // ---- Result bodies ------------------------------------------------------------------

  datatype Outcome = Pass | Fail | Unknown | Skipped

  datatype ResultBody = ResultBody(
    outcome: Outcome, detail: string, changed: bool, previous: Json, next: Json, data: Json, stdout: string,
        stderr: string)

  function OutcomeText(o: Outcome): string {
    match o case Pass => "PASS" case Fail => "FAIL" case Unknown => "UNKNOWN" case Skipped => "SKIPPED"
  }

  function BodyJson(b: ResultBody): Json {
    Obj([Field("outcome", Str(OutcomeText(b.outcome))), Field("detail", Str(b.detail)),
        Field("changed", Bool(b.changed)),
         Field("previous_state", b.previous), Field("new_state", b.next), Field("data", b.data),
         Field("stdout", Str(b.stdout)), Field("stderr", Str(b.stderr))])
  }

  /** `_command_result`. */
  function Command(b: ResultBody): ResultBody {
    ResultBody(b.outcome, Cut(b.detail, MAX_DETAIL), b.changed, Redact(b.previous), Redact(b.next), Redact(b.data),
               Cut(b.stdout, MAX_AUDIT_OUTPUT), Cut(b.stderr, MAX_AUDIT_OUTPUT))
  }

  predicate Printable(s: string) {
    forall i :: 0 <= i < |s| ==> !(s[i] as int < 32 || 127 <= s[i] as int <= 159)
  }

  predicate BoundedText(s: string, maximum: nat) { 0 < |s| <= maximum && Printable(s) }

  /** `_validate_result_body`. */
  predicate ValidBody(b: ResultBody) {
    && BoundedText(b.detail, MAX_DETAIL)
    && b.data.Obj?
    && |b.stdout| <= MAX_AUDIT_OUTPUT && |b.stderr| <= MAX_AUDIT_OUTPUT
    && |Bytes(BodyJson(b))| <= MAX_ARGUMENT_BYTES
  }

  /** What an audit record keeps of a body. */
  function AuditBody(b: ResultBody): ResultBody {
    b.(detail := Cut(b.detail, MAX_AUDIT_OUTPUT), previous := Redact(b.previous), next := Redact(b.next),
        data := Redact(b.data),
       stdout := Cut(b.stdout, MAX_AUDIT_OUTPUT), stderr := Cut(b.stderr, MAX_AUDIT_OUTPUT))
  }

  /** Length and third letter already tell a secret name from every name the program uses. */
  predicate Plain(key: string) {
    && (|key| == 5 ==> key[2] !in {'k', 'K', '\U{212A}'}) && (|key| == 6 ==> key[2] !in {'c', 'C'})
    && (|key| == 8 ==> key[2] !in {'s', 'S'}) && (|key| == 10 ==> key[2] !in {'e', 'E'})
    && (|key| == 11 ==> key[2] !in {'i', 'I'}) && (|key| == 13 ==> key[2] !in {'t', 'T'})
  }

  lemma PlainIsNotSecret(key: string)
    requires Plain(key)
    ensures !Secret(key)
  {
    forall i | 0 <= i < |SECRET_FIELDS| && |key| == |SECRET_FIELDS[i]|
      ensures LowerChar(key[2]) != SECRET_FIELDS[i][2] {}
  }

  lemma RedactPlain(key: string, value: Json)
    requires Plain(key)
    ensures RedactField(Field(key, value)) == Field(key, Redact(value))
  { PlainIsNotSecret(key); }

  /** Redacting a body's JSON is redacting the body. */
  lemma RedactBodyJson(b: ResultBody)
    ensures Redact(BodyJson(b)) == BodyJson(AuditBody(b))
  {
    var fields := BodyJson(b).fields;
    var want := BodyJson(AuditBody(b)).fields;
    assert |OutcomeText(b.outcome)| <= 7;
    RedactPlain("outcome", fields[0].value);
    RedactPlain("detail", fields[1].value);
    RedactPlain("changed", fields[2].value);
    RedactPlain("previous_state", fields[3].value);
    RedactPlain("new_state", fields[4].value);
    RedactPlain("data", fields[5].value);
    RedactPlain("stdout", fields[6].value);
    RedactPlain("stderr", fields[7].value);
    forall i | 0 <= i < 8 ensures RedactField(fields[i]) == want[i] {}
  }

  /** A result rebuilt from the redacted audit equals the result built from the body itself. */
  lemma RecoveredEqualsOriginal(b: ResultBody)
    ensures Command(AuditBody(b)) == Command(b)
  {
    RedactIdempotent(b.previous);
    RedactIdempotent(b.next);
    RedactIdempotent(b.data);
  }

  /** A body that `_command_result` built is audited as it is: only an adapter that builds its own
      bodies can return one that auditing changes. */
  lemma CommandIsAuditedWhole(b: ResultBody)
    ensures AuditBody(Command(b)) == Command(b)
  {
    RedactIdempotent(b.previous);
    RedactIdempotent(b.next);
    RedactIdempotent(b.data);
  }
}
