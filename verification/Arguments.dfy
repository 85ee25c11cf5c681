/** The argument validator of the capability broker (`validate_capability_arguments` in
    src/mncs_fabric/capability_broker.py), one table row per field of each operation. */
module Arguments {
  import opened Orders
  import opened Jcs
  import opened Redaction

  const MAX_PACKAGE_COUNT := 64
  const MAX_NAME := 128
  const MAX_PATH := 512

  // ---- Patterns -----------------------------------------------------------------------

  predicate Digit(c: char) { '0' <= c <= '9' }
  predicate Alnum(c: char) { Digit(c) || 'A' <= c <= 'Z' || 'a' <= c <= 'z' }
  predicate AlnumOr(c: char, extra: string) { Alnum(c) || c in extra }

  predicate All(s: string, extra: string, maximum: nat) {
    0 < |s| <= maximum && forall i :: 0 <= i < |s| ==> AlnumOr(s[i], extra)
  }

  predicate Number(s: string) { |s| > 0 && forall i :: 0 <= i < |s| ==> Digit(s[i]) }

  predicate Identifier(s: string) { All(s, "_.:@+-", 128) && Alnum(s[0]) }
  predicate ModuleName(s: string) { All(s, "_.-", 128) && AlnumOr(s[0], "_") }
  predicate FirewallName(s: string) { All(s, "_. -", 128) && Alnum(s[0]) }
  predicate SysctlKey(s: string) { All(s, "_.-", 128) }
  predicate SafeValue(s: string) { All(s, "_.:/+-", 128) }
  predicate BootSetting(s: string) { All(s, "_.-", 64) }
  predicate Port(s: string) { s == "any" || (Number(s) && |s| <= 5 && s[0] != '0') }

  predicate Username(s: string) {
    var name := if |s| > 0 && s[|s| - 1] == '$' then s[..|s| - 1] else s;
    && 0 < |name| <= 32
    && ('a' <= name[0] <= 'z' || name[0] == '_')
    && forall i :: 0 <= i < |name| ==> 'a' <= name[i] <= 'z' || Digit(name[i]) || name[i] in "_-"
  }

  predicate AbsolutePath(s: string) {
    || (|s| > 0 && s[0] == '/')
    || (|s| > 2 && Alnum(s[0]) && !Digit(s[0]) && s[1] == ':' && s[2] in "\\/")
    || (|s| > 1 && s[0] == '\\' && s[1] == '\\')
  }

  predicate CgroupValue(s: string) {
    s == "max" || Number(s) || exists i :: 0 < i < |s| && s[i] == ' ' && Number(s[..i]) && Number(s[i + 1..])
  }

  predicate MountOption(s: string) {
    || s in {"nosuid", "nodev", "noexec"}
    || ("size=" <= s && (Number(s[5..]) || (|s| > 5 && s[|s| - 1] in "KMG" && Number(s[5..|s| - 1]))))
    || ("mode=" <= s && 3 <= |s| - 5 <= 4 && forall i :: 5 <= i < |s| ==> '0' <= s[i] <= '7')
  }

  // ---- Field checks -------------------------------------------------------------------

  datatype Pattern =
    | AnyText | Package | ModuleText | Path | SysctlText | Option_ | Cgroup | User | Rule_ | PortText | Setting
    | OneOf(words: set<string>)

  predicate Matches(p: Pattern, s: string) {
    match p
    case AnyText => true
    case Package => Identifier(s)
    case ModuleText => ModuleName(s)
    case Path => AbsolutePath(s)
    case SysctlText => SysctlKey(s)
    case Option_ => MountOption(s)
    case Cgroup => CgroupValue(s)
    case User => Username(s)
    case Rule_ => FirewallName(s)
    case PortText => Port(s)
    case Setting => BootSetting(s)
    case OneOf(words) => s in words
  }

  datatype Check =
    | Text(pattern: Pattern, maximum: nat)
    | Lowered(words: set<string>, maximum: nat)   // text whose lower case is one of the words
    | Nullable(maximum: nat)                      // text or null
    | Range(high: nat)                            // an integer from 0 to `high`
    | SafeScalar                                  // text or integer, stored as text
    | ListOf(pattern: Pattern, size: nat, minimum: nat, most: nat)

  function Lower(s: string): (r: string)
    ensures |r| == |s| && forall i :: 0 <= i < |s| ==> r[i] == LowerChar(s[i])
  { seq(|s|, i requires 0 <= i < |s| => LowerChar(s[i])) }

  predicate GoodText(p: Pattern, maximum: nat, v: Json) { v.Str? && BoundedText(v.s, maximum) && Matches(p, v.s) }

  function Accept(check: Check, v: Json): Option<Json> {
    match check
    case Text(p, maximum) => if GoodText(p, maximum, v) then Some(v) else None
    case Lowered(words, maximum) =>
      if v.Str? && BoundedText(v.s, maximum) && Lower(v.s) in words then Some(Str(Lower(v.s))) else None
    case Nullable(maximum) => if v.Null? || GoodText(AnyText, maximum, v) then Some(v) else None
    case Range(high) => if v.Num? && 0 <= v.n <= high then Some(v) else None
    case SafeScalar =>
      var text := if v.Str? then Some(v.s) else if v.Num? then Some(Decimal(v.n)) else None;
      if text.Some? && SafeValue(text.value) then Some(Str(text.value)) else None
    case ListOf(p, size, minimum, most) =>
      if v.Arr? && minimum <= |v.items| <= most && forall i :: 0 <= i < |v.items| ==> GoodText(p, size, v.items[i])
      then Some(v) else None
  }

  // ---- Tables -------------------------------------------------------------------------

  datatype Need = Required | Optional | Default(value: Json)
  datatype FieldRule = FieldRule(key: string, need: Need, check: Check)
  datatype Form = Form(rules: seq<FieldRule>, least: nat)

  function Exactly(rules: seq<FieldRule>): Form { Form(rules, 0) }
  function Must(key: string, check: Check): FieldRule { FieldRule(key, Required, check) }

  const STATES := {"running", "stopped", "enabled", "disabled"}
  const KINDS := {"mount", "uts", "ipc", "net", "pid", "cgroup", "user"}
  const NAME := Must("name", Text(ModuleText, 128))
  const SERVICE := Must("service", Text(Package, MAX_NAME))
  const TARGET := Must("target", Text(Path, MAX_PATH))
  const KEY := Must("key", Text(SysctlText, 128))

  const NOTHING := Exactly([])
  const PACKAGES := Exactly([Must("packages", ListOf(Package, MAX_NAME, 1, MAX_PACKAGE_COUNT))])
  const ONE_SERVICE := Exactly([SERVICE])
  const SERVICE_STATUS := Exactly([SERVICE, FieldRule("state", Optional, Text(OneOf(STATES), 16))])
  const POWER := Exactly([FieldRule("reason", Default(Null), Nullable(256)),
      FieldRule("delay_seconds", Default(Num(0)), Range(3600))])
  const SYSCTL_GET := Exactly([KEY])
  const SYSCTL_SET := Exactly([KEY, Must("value", SafeScalar)])
  const ONE_MODULE := Exactly([Must("module", Text(ModuleText, 128))])
  const ONE_PATH := Exactly([Must("path", Text(Path, MAX_PATH))])
  const MOUNT := Exactly([
    Must("source", Text(OneOf({"tmpfs"}), MAX_PATH)), TARGET, Must("filesystem", Text(OneOf({"tmpfs"}), 32)),
    Must("options", ListOf(Option_, 64, 0, 8))])
  const UNMOUNT := Exactly([TARGET])
  const NAMESPACE := Exactly([NAME, Must("kind", Text(OneOf(KINDS), 16))])
  const ONE_NAME := Exactly([NAME])
  const CGROUP_SET :=
    Form([NAME, FieldRule("cpu_max", Optional, Text(Cgroup, 64)),
        FieldRule("memory_max", Optional, Text(Cgroup, 64))], 2)
  const USERNAME := Exactly([Must("username", Text(User, 64))])
  const FIREWALL := Exactly([
    Must("name", Text(Rule_, 128)), Must("direction", Lowered({"in", "out"}, 8)),
        Must("action", Lowered({"allow", "block"}, 8)),
    Must("protocol", Lowered({"tcp", "udp", "any"}, 8)), Must("local_port", Text(PortText, 5))])
  const BOOT_SET := Exactly([Must("setting", Text(Setting, 64)), Must("value", Text(AnyText, 128))])
  const OBSERVATIONS := Exactly([Must("observations", ListOf(AnyText, 64, 1, 16))])

  function When(accepted: bool, form: Form): Option<Form> { if accepted then Some(form) else None }

  function FormFor(capability: string, operation: string): Option<Form> {
    match capability
    case "package-management" =>
      if operation == "refresh" then Some(NOTHING) else When(operation in {"install", "remove", "query"}, PACKAGES)
    case "service-management" =>
      if operation == "status" then Some(SERVICE_STATUS)
      else When(operation in {"start", "stop", "restart", "enable", "disable"}, ONE_SERVICE)
    case "system-reboot" => When(operation == "request", POWER)
    case "system-shutdown" => When(operation == "request", POWER)
    case "kernel-parameter-management" =>
      if operation == "get" then Some(SYSCTL_GET) else When(operation == "set", SYSCTL_SET)
    case "kernel-module-management" => When(operation in {"load", "unload", "status"}, ONE_MODULE)
    case "performance-counters" => When(operation in {"status", "enable", "disable"}, NOTHING)
    case "ebpf" => When(operation in {"status", "enable", "disable"}, NOTHING)
    case "device-access" => When(operation == "inspect", ONE_PATH)
    case "mount-management" =>
      if operation == "mount" then Some(MOUNT) else if operation == "unmount" then Some(UNMOUNT)
          else When(operation == "list", NOTHING)
    case "namespace-management" => When(operation in {"create", "cleanup", "status"}, NAMESPACE)
    case "cgroup-management" =>
      if operation == "set" then Some(CGROUP_SET) else When(operation in {"create", "cleanup", "status"}, ONE_NAME)
    case "experiment-directory-management" => When(operation in {"create", "cleanup", "inspect"}, ONE_PATH)
    case "experiment-user-management" => When(operation in {"create", "remove", "inspect"}, USERNAME)
    case "container-management" => When(operation in {"start", "stop", "remove", "status"}, ONE_NAME)
    case "driver-management" =>
      if operation in {"install", "remove"} then Some(ONE_PATH)
          else When(operation in {"start", "stop", "status"}, ONE_NAME)
    case "firewall-management" =>
      if operation == "status" then Some(NOTHING) else When(operation in {"add-rule", "remove-rule"}, FIREWALL)
    case "boot-management" => if operation == "inspect" then Some(NOTHING) else When(operation == "configure", BOOT_SET)
    case "hardware-observation" => When(operation == "collect", OBSERVATIONS)
    case "system-observation" => When(operation == "collect", OBSERVATIONS)
    case _ => None
  }

  // ---- Validation ---------------------------------------------------------------------

  function Lookup(fields: seq<Field>, key: string): Option<Json> {
    if |fields| == 0 then None else if fields[0].key == key then Some(fields[0].value) else Lookup(fields[1..], key)
  }

  predicate HasRule(rules: seq<FieldRule>, key: string) { exists i :: 0 <= i < |rules| && rules[i].key == key }

  /** The field a rule contributes: `None` is a rejection, an absent optional field contributes nothing. */
  function Contribution(rule: FieldRule, fields: seq<Field>): Option<seq<Field>> {
    match Lookup(fields, rule.key)
    case Some(v) =>
      var checked := Accept(rule.check, v);
      if checked.Some? then Some([Field(rule.key, checked.value)]) else None
    case None =>
      if rule.need.Required? then None
      else if rule.need.Optional? then Some([]) else Some([Field(rule.key, rule.need.value)])
  }

  function Gather(rules: seq<FieldRule>, fields: seq<Field>): Option<seq<Field>> {
    if |rules| == 0 then Some([])
    else
      var first, rest := Contribution(rules[0], fields), Gather(rules[1..], fields);
      if first.Some? && rest.Some? then Some(first.value + rest.value) else None
  }

  function ApplyForm(form: Form, fields: seq<Field>): Option<seq<Field>> {
    if forall i :: 0 <= i < |fields| ==> HasRule(form.rules, fields[i].key) then
      var out := Gather(form.rules, fields);
      if out.Some? && |out.value| >= form.least then out else None
    else None
  }

  /** `validate_capability_arguments`. */
  function Validate(capability: string, operation: string, arguments: Json): Option<Json> {
    var form := FormFor(capability, operation);
    if form.None? || !arguments.Obj? || |Bytes(arguments)| > MAX_ARGUMENT_BYTES then None
    else
      var out := ApplyForm(form.value, arguments.fields);
      if out.Some? then Some(Obj(out.value)) else None
  }

  // ---- What the tables promise ----------------------------------------------------------

  /** The stored value may differ from the given one. */
  predicate Rewrites(rule: FieldRule) { rule.need.Default? || rule.check.Lowered? || rule.check.SafeScalar? }

  /** The stored value is a scalar whose text stays short. */
  predicate Short(check: Check) {
    match check
    case Text(_, maximum) => maximum <= 256
    case Lowered(words, maximum) => maximum <= 256
    case Nullable(maximum) => maximum <= 256
    case Range(high) => high <= 3600
    case SafeScalar => true
    case ListOf(_, _, _, _) => false
  }

  predicate LowerWord(w: string) { |w| > 0 && forall i :: 0 <= i < |w| ==> 'a' <= w[i] <= 'z' }

  predicate GoodCheck(check: Check) {
    match check
    case Text(_, maximum) => maximum <= MAX_PATH
    case Lowered(words, maximum) => maximum <= 256 && forall w :: w in words ==> LowerWord(w) && |w| <= maximum
    case ListOf(_, size, _, _) => size <= MAX_PATH
    case _ => Short(check)
  }

  predicate GoodRule(rule: FieldRule) {
    && Plain(rule.key) && |rule.key| <= 15
    && GoodCheck(rule.check)
    && (rule.need.Default? ==> GoodDefault(rule.check, rule.need.value))
  }

  predicate GoodDefault(check: Check, value: Json)
        { (check.Nullable? && value.Null?) || (check.Range? && value == Num(0)) }

  ghost predicate DistinctRules(rules: seq<FieldRule>) { forall i,
        j :: 0 <= i < j < |rules| ==> rules[i].key != rules[j].key }

  ghost predicate GoodForm(form: Form) {
    && DistinctRules(form.rules)
    && (forall i :: 0 <= i < |form.rules| ==> GoodRule(form.rules[i]))
    && ((exists i :: 0 <= i < |form.rules| && Rewrites(form.rules[i])) ==>
         |form.rules| <= 5 && forall i :: 0 <= i < |form.rules| ==> Short(form.rules[i].check))
  }

  lemma LoweredWords()
    ensures GoodCheck(Lowered({"in", "out"}, 8)) && GoodCheck(Lowered({"allow", "block"}, 8))
        && GoodCheck(Lowered({"tcp", "udp", "any"}, 8))
  {}

  lemma FirewallRulesAreGood()
    ensures forall i :: 0 <= i < |FIREWALL.rules| ==> GoodRule(FIREWALL.rules[i])
  {
    LoweredWords();
    PlainKeys();
  }

  lemma PlainKeys()
    ensures Plain("name") && Plain("direction") && Plain("action") && Plain("protocol") && Plain("local_port")
  {}

  lemma FiveRules(rules: seq<FieldRule>)
    requires |rules| == 5 && forall i :: 0 <= i < 5 ==> GoodRule(rules[i]) && Short(rules[i].check)
    requires |rules[0].key| == 4 && |rules[1].key| == 9 && |rules[2].key| == 6 && |rules[3].key| == 8
        && |rules[4].key| == 10
    ensures GoodForm(Exactly(rules))
  {}

  lemma FirewallIsGood()
    ensures GoodForm(FIREWALL)
  {
    FirewallRulesAreGood();
    FiveRules(FIREWALL.rules);
  }

  lemma PowerIsGood()
    ensures GoodForm(POWER)
  {}

  lemma SysctlIsGood()
    ensures GoodForm(SYSCTL_SET)
  {}

  lemma PairsAreGood()
    ensures GoodForm(SERVICE_STATUS) && GoodForm(NAMESPACE) && GoodForm(BOOT_SET)
  {}

  lemma MountIsGood()
    ensures GoodForm(MOUNT)
  {
    var rules := MOUNT.rules;
    assert rules[0].key[0] == 's' && rules[1].key[0] == 't' && rules[2].key[0] == 'f' && rules[3].key[0] == 'o';
  }

  lemma CgroupIsGood()
    ensures GoodForm(CGROUP_SET)
  {}

  lemma NamedRulesAreGood()
    ensures GoodForm(NOTHING) && GoodForm(ONE_SERVICE) && GoodForm(SYSCTL_GET) && GoodForm(UNMOUNT)
        && GoodForm(ONE_NAME)
  {}

  lemma OtherRulesAreGood()
    ensures GoodForm(ONE_MODULE) && GoodForm(ONE_PATH) && GoodForm(USERNAME)
  {}

  lemma ListsAreGood()
    ensures GoodForm(PACKAGES) && GoodForm(OBSERVATIONS)
  {}

  lemma EveryFormIsGood(capability: string, operation: string)
    requires FormFor(capability, operation).Some?
    ensures GoodForm(FormFor(capability, operation).value)
  {
    NamedRulesAreGood();
    OtherRulesAreGood();
    ListsAreGood();
    PairsAreGood();
    PowerIsGood();
    SysctlIsGood();
    MountIsGood();
    CgroupIsGood();
    FirewallIsGood();
  }

  // ---- The validator accepts its own output ----------------------------------------------

  lemma AcceptAgain(check: Check, v: Json)
    requires GoodCheck(check) && Accept(check, v).Some?
    ensures var w := Accept(check, v).value; Accept(check, w) == Some(w) && Redact(w) == w && WellFormed(w)
  {
    var w := Accept(check, v).value;
    if w.Arr? {
      forall x | x in w.items ensures Clean(x) && WellFormed(x) {}
    }
    if check.Lowered? { assert Lower(w.s) == w.s; }
    RedactFixesExactlyClean(w);
  }

  lemma DefaultAccepted(rule: FieldRule)
    requires GoodRule(rule) && rule.need.Default?
    ensures Accept(rule.check, rule.need.value) == Some(rule.need.value)
    ensures Redact(rule.need.value) == rule.need.value && WellFormed(rule.need.value)
  {}

  lemma ContributionShape(rule: FieldRule, fields: seq<Field>)
    requires GoodRule(rule) && Contribution(rule, fields).Some?
    ensures var c := Contribution(rule, fields).value;
      |c| <= 1 && forall i :: 0 <= i < |c| ==>
        c[i].key == rule.key && Accept(rule.check, c[i].value) == Some(c[i].value) && Redact(c[i].value) == c[i].value
            && WellFormed(c[i].value)
    ensures Contribution(rule, fields).value == [] ==> rule.need.Optional?
  {
    var v := Lookup(fields, rule.key);
    if v.Some? { AcceptAgain(rule.check, v.value); } else if rule.need.Default? { DefaultAccepted(rule); }
  }

  ghost predicate GoodRules(rules: seq<FieldRule>) {
    DistinctRules(rules) && forall i :: 0 <= i < |rules| ==> GoodRule(rules[i])
  }

  /** Every gathered field belongs to a rule, is fixed by its check, and is the only one with its key. */
  lemma {:induction false} GatherShape(rules: seq<FieldRule>, fields: seq<Field>)
    requires GoodRules(rules) && Gather(rules, fields).Some?
    ensures var out := Gather(rules, fields).value;
      && |out| <= |rules| && UniqueKeys(out)
      && forall f :: f in out ==>
           HasRule(rules, f.key) && Plain(f.key) && |f.key| <= 15 && Redact(f.value) == f.value && WellFormed(f.value)
  {
    if |rules| > 0 {
      var out, tail := Gather(rules, fields).value, Gather(rules[1..], fields).value;
      ContributionShape(rules[0], fields);
      GatherShape(rules[1..], fields);
      forall f | f in out ensures HasRule(rules, f.key) && Plain(f.key) && |f.key| <= 15 && Redact(f.value) == f.value
          && WellFormed(f.value) {
        if f in tail { assert HasRule(rules[1..], f.key); } else { assert f.key == rules[0].key; }
      }
      forall f | f in tail ensures f.key != rules[0].key { assert HasRule(rules[1..], f.key); }
    }
  }

  lemma {:induction false} LookupFinds(fields: seq<Field>, key: string)
    ensures Lookup(fields, key).None? <==> forall f :: f in fields ==> f.key != key
    ensures Lookup(fields, key).Some? ==> Field(key, Lookup(fields, key).value) in fields
    ensures UniqueKeys(fields) ==> forall f :: f in fields && f.key == key ==> Lookup(fields, key) == Some(f.value)
  {
    if |fields| > 0 { LookupFinds(fields[1..], key); assert fields == [fields[0]] + fields[1..]; }
  }

  /** Gathering again from anything that holds the gathered fields, and no others under these rules' keys. */
  lemma {:induction false} GatherAgain(rules: seq<FieldRule>, fields: seq<Field>, whole: seq<Field>)
    requires GoodRules(rules) && Gather(rules, fields).Some? && UniqueKeys(whole)
    requires var out := Gather(rules, fields).value;
      && (forall f :: f in out ==> f in whole)
      && (forall f :: f in whole && HasRule(rules, f.key) ==> f in out)
    ensures Gather(rules, whole) == Gather(rules, fields)
  {
    if |rules| > 0 {
      var rule, out, tail := rules[0], Gather(rules, fields).value, Gather(rules[1..], fields).value;
      ContributionShape(rule, fields);
      GatherShape(rules[1..], fields);
      LookupFinds(whole, rule.key);
      var c := Contribution(rule, fields).value;
      assert c != [] ==> c[0] in out;
      assert HasRule(rules, rule.key);
      forall f | f in tail ensures f.key != rule.key { assert HasRule(rules[1..], f.key); }
      assert Contribution(rule, whole) == Some(c);
      forall f | f in whole && HasRule(rules[1..], f.key) ensures f in tail { assert f.key != rule.key; }
      GatherAgain(rules[1..], fields, whole);
    }
  }

  lemma FormAgain(form: Form, fields: seq<Field>)
    requires GoodForm(form) && ApplyForm(form, fields).Some?
    ensures ApplyForm(form, ApplyForm(form, fields).value) == ApplyForm(form, fields)
  {
    var out := ApplyForm(form, fields).value;
    GatherShape(form.rules, fields);
    GatherAgain(form.rules, fields, out);
    forall i | 0 <= i < |out| ensures HasRule(form.rules, out[i].key) { assert out[i] in out; }
  }

  // ---- The output stays within the size bound ----------------------------------------------

  lemma {:induction false} Utf8Size(s: string)
    ensures |Utf8(s)| <= 4 * |s|
  { if |s| > 0 { Utf8Size(s[1..]); } }

  lemma {:induction false} EscapeSize(s: string)
    ensures |Escape(s)| <= 6 * |s|
  { if |s| > 0 { EscapeSize(s[1..]); } }

  predicate ShortValue(v: Json) { v.Null? || (v.Num? && 0 <= v.n <= 3600) || (v.Str? && |v.s| <= 256) }

  lemma ShortAccepted(rule: FieldRule, v: Json)
    requires GoodRule(rule) && Short(rule.check) && Accept(rule.check, v) == Some(v)
    ensures ShortValue(v)
  {}

  lemma ShortFieldSize(f: Field)
    requires |f.key| <= 15 && ShortValue(f.value)
    ensures |PrintField(f)| <= 1633
  {
    EscapeSize(f.key);
    if f.value.Str? { EscapeSize(f.value.s); }
    if f.value.Num? {
      var n := f.value.n;
      assert |Digits(n / 1000)| == 1 && |Digits(n / 100)| <= 2 && |Digits(n / 10)| <= 3 && |Digits(n)| <= 4;
    }
  }

  lemma {:induction false} ShortFieldsSize(fields: seq<Field>)
    requires forall f :: f in fields ==> |f.key| <= 15 && ShortValue(f.value)
    ensures |PrintFields(fields)| <= 1634 * |fields|
  {
    if |fields| > 0 {
      assert fields[0] in fields;
      ShortFieldSize(fields[0]);
      ShortFieldsSize(fields[1..]);
    }
  }

  lemma ShortObjectSize(fields: seq<Field>)
    requires |fields| <= 5 && forall f :: f in fields ==> |f.key| <= 15 && ShortValue(f.value)
    ensures |Bytes(Obj(fields))| <= MAX_ARGUMENT_BYTES
  {
    var c := CanonicalFields(fields);
    assert c == fields;
    FieldLeTotal();
    SortSorts(FieldLe, c);
    SameElements(Sort(FieldLe, c), c);
    ShortFieldsSize(Sort(FieldLe, c));
    Utf8Size(Encode(Obj(fields)));
  }

  lemma {:induction false} GatherShort(rules: seq<FieldRule>, fields: seq<Field>)
    requires GoodRules(rules) && Gather(rules, fields).Some? && forall i :: 0 <= i < |rules| ==> Short(rules[i].check)
    ensures forall f :: f in Gather(rules, fields).value ==> ShortValue(f.value)
  {
    if |rules| > 0 {
      ContributionShape(rules[0], fields);
      GatherShort(rules[1..], fields);
      var c := Contribution(rules[0], fields).value;
      if c != [] { ShortAccepted(rules[0], c[0].value); }
    }
  }

  lemma AcceptKeeps(check: Check, v: Json)
    requires Accept(check, v).Some? && !check.Lowered? && !check.SafeScalar?
    ensures Accept(check, v) == Some(v)
  {}

  /** Without rewriting rules, gathering only reorders. */
  lemma {:induction false} GatherKeeps(rules: seq<FieldRule>, fields: seq<Field>)
    requires Gather(rules, fields).Some? && UniqueKeys(fields) && forall i :: 0 <= i < |rules| ==> !Rewrites(rules[i])
    ensures forall f :: f in Gather(rules, fields).value ==> f in fields
    ensures forall f :: f in fields && HasRule(rules, f.key) ==> f in Gather(rules, fields).value
  {
    if |rules| > 0 {
      var rule, out, tail := rules[0], Gather(rules, fields).value, Gather(rules[1..], fields).value;
      GatherKeeps(rules[1..], fields);
      LookupFinds(fields, rule.key);
      var v := Lookup(fields, rule.key);
      if v.Some? { AcceptKeeps(rule.check, v.value); assert out[0] == Field(rule.key, v.value); }
      forall f | f in fields && HasRule(rules, f.key) ensures f in out {
        if f.key != rule.key {
          assert HasRule(rules[1..], f.key);
        }
      }
    }
  }

  lemma FormKeepsSize(form: Form, fields: seq<Field>)
    requires GoodForm(form) && ApplyForm(form, fields).Some? && UniqueKeys(fields)
        && |Bytes(Obj(fields))| <= MAX_ARGUMENT_BYTES
    ensures |Bytes(Obj(ApplyForm(form, fields).value))| <= MAX_ARGUMENT_BYTES
  {
    var out := ApplyForm(form, fields).value;
    GatherShape(form.rules, fields);
    if exists i :: 0 <= i < |form.rules| && Rewrites(form.rules[i]) {
      GatherShort(form.rules, fields);
      ShortObjectSize(out);
    } else {
      GatherKeeps(form.rules, fields);
      forall f | f in fields ensures f in out {
        var i :| 0 <= i < |fields| && fields[i] == f;
        assert HasRule(form.rules, fields[i].key);
      }
      SameMembers(out, fields);
      SameFieldsEncodeAlike(out, fields);
    }
  }

  lemma SameFieldsEncodeAlike(a: seq<Field>, b: seq<Field>)
    requires UniqueKeys(a) && UniqueKeys(b) && |a| == |b| && forall f :: f in a <==> f in b
    requires forall f :: f in a ==> WellFormed(f.value)
    ensures Bytes(Obj(a)) == Bytes(Obj(b))
  {
    forall f | f in a ensures HasSame(f, b) {
      SameIffCanonical(f.value, f.value);
    }
    BytesAreCanonical(Obj(a), Obj(b));
  }

  /** The validator accepts its own output unchanged, so every built request validates again,
      and redaction leaves every validated argument object alone. */
  lemma ValidateAgain(capability: string, operation: string, arguments: Json)
    requires arguments.Obj? ==> UniqueKeys(arguments.fields)
    requires Validate(capability, operation, arguments).Some?
    ensures var checked := Validate(capability, operation, arguments).value;
      Validate(capability, operation, checked) == Some(checked) && Redact(checked) == checked && WellFormed(checked)
  {
    var form := FormFor(capability, operation).value;
    EveryFormIsGood(capability, operation);
    FormAgain(form, arguments.fields);
    FormKeepsSize(form, arguments.fields);
    GatherShape(form.rules, arguments.fields);
    var checked := Validate(capability, operation, arguments).value;
    forall f | f in checked.fields ensures !Secret(f.key) && Clean(f.value) {
      PlainIsNotSecret(f.key);
      RedactFixesExactlyClean(f.value);
    }
    RedactFixesExactlyClean(checked);
  }

  /** Arguments a request may carry: validation gives back an equal value. */
  predicate CanonicalArguments(capability: string, operation: string, arguments: Json) {
    var checked := Validate(capability, operation, arguments);
    checked.Some? && Same(arguments, checked.value)
  }

  /** What an audit record keeps of a request's arguments is the arguments themselves. */
  lemma RedactKeepsArguments(capability: string, operation: string, arguments: Json)
    requires arguments.Obj? ==> UniqueKeys(arguments.fields)
    requires CanonicalArguments(capability, operation, arguments)
    ensures Redact(arguments) == arguments
  {
    ValidateAgain(capability, operation, arguments);
    var checked := Validate(capability, operation, arguments).value;
    RedactFixesExactlyClean(checked);
    SameIsClean(arguments, checked);
    RedactFixesExactlyClean(arguments);
  }
}
