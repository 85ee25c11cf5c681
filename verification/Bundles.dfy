/** Execution bundle archives (src/mncs_fabric/bundles.py): the builder and the offline verifier.
    Hashing, Unicode tables, the zip container and reading typed fields out of JSON are functions
    of the environment. */
module Bundles {
  import opened Orders
  import opened Ledger
  import opened Jcs

  type Data = seq<int>

  const MANIFEST_NAME := "manifest.json"
  const MAX_FILE_COUNT := 2000
  const MAX_FILE_BYTES := 8 * 1024 * 1024
  const MAX_TOTAL_BYTES := 64 * 1024 * 1024
  const MAX_ARCHIVE_BYTES := 64 * 1024 * 1024
  const MAX_PATH_BYTES := 512
  const MAX_EXPANSION_RATIO := 100
  const ROLES := {"test", "harness", "expected", "manifest", "fixture", "input", "runtime-requirement",
      "policy-reference", "support"}

  datatype Mode = Plain | Executable
  function Bits(m: Mode): int { if m.Executable? then 0x1ED else 0x1A4 }
  function ModeText(m: Mode): string { if m.Executable? then "0755" else "0644" }

  datatype Entry = Entry(path: string, id: Digest, size: int, role: string, mode: Mode)
  datatype Reference = Reference(path: string, id: Digest)
  datatype Entrypoint = Entrypoint(name: string, path: string)
  datatype Limits = Limits(fileCount: int, fileBytes: int, totalBytes: int, pathBytes: int, expansion: int)

  datatype Manifest = Manifest(
    bundleId: string, identity: Digest, entries: seq<Entry>, entrypoints: seq<Entrypoint>, runtime: seq<Reference>,
    policies: seq<Reference>, harness: Option<Digest>, inputs: Option<Digest>, policy: Option<Digest>, limits: Limits,
    extensions: seq<Field>)

  /** One member of a zip container: what its header declares and what reading it yields. */
  datatype Member = Member(name: string, regular: bool, encrypted: bool, bits: int, size: nat, compressed: nat,
        data: Data)

  datatype Env = Env(
    sha: Data -> Digest, hex: Digest -> string, isNfc: string -> bool, isAlpha: char -> bool, fold: string -> string,
    zip: seq<Member> -> Data, unzip: Data -> Option<seq<Member>>, read: Json -> Option<Manifest>)

  // ---- Paths --------------------------------------------------------------------------------------

  function Split(s: string, at: char): (r: seq<string>)
    ensures |r| > 0
  {
    if |s| == 0 then [""]
    else
      var rest := Split(s[1..], at);
      if s[0] == at then [""] + rest else [[s[0]] + rest[0]] + rest[1..]
  }

  /** `normalize_bundle_path` accepts. */
  predicate NormalPath(env: Env, s: string) {
    && s != "" && '\0' !in s && env.isNfc(s) && '\\' !in s && s[0] != '/'
    && |Utf8(s)| <= MAX_PATH_BYTES
    && !(|s| >= 2 && s[1] == ':' && env.isAlpha(s[0]))
    && (forall part :: part in Split(s, '/') ==> part !in {"", ".", ".."})
    && s != MANIFEST_NAME
  }

  predicate PathLe(a: string, b: string) { LexLe(Utf8(a), Utf8(b)) }

  // ---- Manifest JSON --------------------------------------------------------------------------------

  function EntryJson(env: Env, e: Entry): Json {
    Obj([Field("path", Str(e.path)), Field("identity", Str(env.hex(e.id))), Field("size_bytes", Num(e.size)),
         Field("role", Str(e.role)), Field("mode", Str(ModeText(e.mode)))])
  }

  function EntriesJson(env: Env, entries: seq<Entry>): seq<Json> {
    if |entries| == 0 then [] else [EntryJson(env, entries[0])] + EntriesJson(env, entries[1..])
  }

  function ReferencesJson(env: Env, references: seq<Reference>): seq<Json> {
    if |references| == 0 then []
    else [Obj([Field("path", Str(references[0].path)),
        Field("identity", Str(env.hex(references[0].id)))])] + ReferencesJson(env, references[1..])
  }

  function EntrypointsJson(points: seq<Entrypoint>): seq<Json> {
    if |points| == 0 then []
        else [Obj([Field("name", Str(points[0].name)),
            Field("path", Str(points[0].path))])] + EntrypointsJson(points[1..])
  }

  function OptionalHash(env: Env, d: Option<Digest>): Json { if d.Some? then Str(env.hex(d.value)) else Null }

  function LimitsJson(l: Limits): Json {
    Obj([Field("max_file_count", Num(l.fileCount)), Field("max_file_bytes", Num(l.fileBytes)),
        Field("max_total_bytes", Num(l.totalBytes)),
         Field("max_path_bytes", Num(l.pathBytes)), Field("max_expansion_ratio", Num(l.expansion))])
  }

  /** Everything the bundle identity covers. */
  function Material(env: Env, m: Manifest): seq<Field> {
    [Field("schema_version", Str("0.1-experimental")), Field("record_type", Str("mncs-execution-bundle")),
     Field("bundle_id", Str(m.bundleId)), Field("bundle_format", Str("mncs-execution-bundle-zip-0.1")),
     Field("entries", Arr(EntriesJson(env, m.entries))), Field("entrypoints", Arr(EntrypointsJson(m.entrypoints))),
     Field("runtime_requirements", Arr(ReferencesJson(env, m.runtime))),
         Field("policy_references", Arr(ReferencesJson(env, m.policies))),
     Field("harness_identity", OptionalHash(env, m.harness)),
         Field("input_snapshot_identity", OptionalHash(env, m.inputs)),
     Field("policy_identity", OptionalHash(env, m.policy)), Field("limits", LimitsJson(m.limits)),
         Field("extensions", Obj(m.extensions))]
  }

  function ManifestJson(env: Env, m: Manifest): Json
        { Obj(Material(env, m) + [Field("bundle_identity", Str(env.hex(m.identity)))]) }

  function ManifestBytes(env: Env, m: Manifest): Data { Bytes(ManifestJson(env, m)) }

  function LogicalIdentity(env: Env, m: Manifest): Digest { env.sha(Bytes(Obj(Material(env, m)))) }

  function WithRole(entries: seq<Entry>, role: string): seq<Entry> { Keep((e: Entry) => e.role == role, entries) }

  function RoleEntriesJson(env: Env, entries: seq<Entry>): seq<Json> {
    if |entries| == 0 then []
    else
      var e := entries[0];
      [Obj([Field("path", Str(e.path)), Field("identity", Str(env.hex(e.id))),
          Field("mode", Str(ModeText(e.mode)))])] + RoleEntriesJson(env, entries[1..])
  }

  /** `_entry_identity`. */
  function EntryIdentity(env: Env, entries: seq<Entry>, role: string): Option<Digest> {
    var chosen := WithRole(entries, role);
    if chosen == [] then None
    else Some(env.sha(Bytes(Obj([Field("role", Str(role)), Field("entries", Arr(RoleEntriesJson(env, chosen)))]))))
  }

  function ReferenceIdentity(env: Env, references: seq<Reference>): Option<Digest> {
    if references == [] then None
        else Some(env.sha(Bytes(Obj([Field("references", Arr(ReferencesJson(env, references)))]))))
  }

  // ---- What is accepted -------------------------------------------------------------------------------

  predicate GoodName(env: Env, name: string) { name == MANIFEST_NAME || NormalPath(env, name) }

  predicate GoodMember(env: Env, m: Member) {
    && GoodName(env, m.name) && m.regular && !m.encrypted && m.size <= MAX_FILE_BYTES
    && !(m.compressed == 0 && m.size > 0) && !(m.compressed > 0 && m.size > MAX_EXPANSION_RATIO * m.compressed)
    && |m.data| == m.size
  }

  function TotalSize(members: seq<Member>): nat {
    if |members| == 0 then 0 else TotalSize(members[..|members| - 1]) + members[|members| - 1].size
  }

  ghost predicate DistinctKeys(env: Env, members: seq<Member>) {
    forall i, j :: 0 <= i < j < |members| ==> env.fold(members[i].name) != env.fold(members[j].name)
  }

  ghost predicate GoodMembers(env: Env, members: seq<Member>) {
    && 0 < |members| <= MAX_FILE_COUNT + 1
    && (forall i :: 0 <= i < |members| ==> GoodMember(env, members[i]))
    && DistinctKeys(env, members) && TotalSize(members) <= MAX_TOTAL_BYTES
  }

  function DataOf(members: seq<Member>, name: string): Option<Data> {
    if |members| == 0 then None else if members[0].name == name then Some(members[0].data)
        else DataOf(members[1..], name)
  }

  function BitsOf(members: seq<Member>, name: string): Option<int> {
    if |members| == 0 then None else if members[0].name == name then Some(members[0].bits)
        else BitsOf(members[1..], name)
  }

  predicate GoodLimits(l: Limits) {
    && 0 < l.fileCount <= MAX_FILE_COUNT && 0 < l.fileBytes <= MAX_FILE_BYTES && 0 < l.totalBytes <= MAX_TOTAL_BYTES
    && 0 < l.pathBytes <= MAX_PATH_BYTES && 0 < l.expansion <= MAX_EXPANSION_RATIO
  }

  predicate GoodEntry(env: Env, l: Limits, e: Entry) {
    NormalPath(env, e.path) && 0 <= e.size <= l.fileBytes && e.role in ROLES
  }

  function TotalDeclared(entries: seq<Entry>): int {
    if |entries| == 0 then 0 else TotalDeclared(entries[..|entries| - 1]) + entries[|entries| - 1].size
  }

  ghost predicate DistinctPaths(env: Env, entries: seq<Entry>) {
    forall i, j :: 0 <= i < j < |entries| ==> env.fold(entries[i].path) != env.fold(entries[j].path)
  }

  predicate Ordered(entries: seq<Entry>)
        { forall i :: 0 < i < |entries| ==> PathLe(entries[i - 1].path, entries[i].path) }

  /** `_verify_manifest_shape`, for limits that do not exceed the verifier's own. */
  ghost predicate GoodEntries(env: Env, l: Limits, entries: seq<Entry>) {
    && |entries| <= l.fileCount
    && (forall i :: 0 <= i < |entries| ==> GoodEntry(env, l, entries[i]))
    && DistinctPaths(env, entries) && Ordered(entries)
    && TotalDeclared(entries) <= l.totalBytes
  }

  predicate Declares(entries: seq<Entry>, path: string) { exists i :: 0 <= i < |entries| && entries[i].path == path }

  predicate Binds(entries: seq<Entry>, r: Reference)
        { exists i :: 0 <= i < |entries| && entries[i].path == r.path && entries[i].id == r.id }

  predicate GoodReferences(env: Env, m: Manifest) {
    && (forall i :: 0 <= i < |m.runtime| ==> Binds(m.entries, m.runtime[i]))
    && (forall i :: 0 <= i < |m.policies| ==> Binds(m.entries, m.policies[i]))
    && (forall i :: 0 <= i < |m.entrypoints| ==> Declares(m.entries, m.entrypoints[i].path))
  }

  predicate GoodIdentities(env: Env, m: Manifest) {
    && m.identity == LogicalIdentity(env, m)
    && m.harness == EntryIdentity(env, m.entries, "harness") && m.inputs == EntryIdentity(env, m.entries, "input")
    && m.policy == ReferenceIdentity(env, m.policies)
  }

  ghost predicate GoodManifest(env: Env, m: Manifest) {
    m.bundleId != "" && GoodLimits(m.limits) && GoodEntries(env, m.limits, m.entries) && GoodReferences(env, m)
        && GoodIdentities(env, m)
  }

  predicate Intact(env: Env, members: seq<Member>, e: Entry) {
    && DataOf(members, e.path).Some? && |DataOf(members, e.path).value| == e.size
         && env.sha(DataOf(members, e.path).value) == e.id
    && BitsOf(members, e.path) == Some(Bits(e.mode))
  }

  /** The members are the manifest and exactly the declared entries, each intact. */
  ghost predicate Agrees(env: Env, members: seq<Member>, m: Manifest) {
    && (forall i :: 0 <= i < |members| ==> members[i].name == MANIFEST_NAME || Declares(m.entries, members[i].name))
    && (forall i :: 0 <= i < |m.entries| ==> Intact(env, members, m.entries[i]))
  }

  function ReadManifest(env: Env, data: Data): Option<Manifest> {
    var j := ParseBytes(data);
    if j.None? || Bytes(j.value) != data then None else env.read(j.value)
  }

  ghost predicate AcceptsMembers(env: Env, members: seq<Member>, m: Manifest) {
    && GoodMembers(env, members)
    && DataOf(members, MANIFEST_NAME).Some? && ReadManifest(env, DataOf(members, MANIFEST_NAME).value) == Some(m)
    && GoodManifest(env, m) && Agrees(env, members, m)
  }

  /** `verify_bundle_archive` reports the archive valid with this manifest. */
  ghost predicate Accepts(env: Env, archive: Data, m: Manifest, bundle: Option<Digest>, archiveId: Option<Digest>) {
    && (archiveId.Some? ==> env.sha(archive) == archiveId.value)
    && |archive| <= MAX_ARCHIVE_BYTES
    && env.unzip(archive).Some? && AcceptsMembers(env, env.unzip(archive).value, m)
    && (bundle.Some? ==> m.identity == bundle.value)
  }

  // ---- The verifier -----------------------------------------------------------------------------------

  ghost predicate Holds(store: map<string, Data>, members: seq<Member>) {
    && (forall n :: n in store <==> DataOf(members, n).Some?)
    && forall n :: n in store ==> DataOf(members, n) == Some(store[n])
  }

  lemma {:induction false} DataOfAppend(members: seq<Member>, m: Member, name: string)
    ensures DataOf(members + [m], name) ==
      if DataOf(members, name).Some? then DataOf(members, name) else if m.name == name then Some(m.data) else None
    ensures BitsOf(members + [m], name) ==
      if BitsOf(members, name).Some? then BitsOf(members, name) else if m.name == name then Some(m.bits) else None
  {
    if |members| > 0 {
      assert (members + [m])[1..] == members[1..] + [m];
      DataOfAppend(members[1..], m, name);
    } else {
      assert (members + [m])[1..] == [];
    }
  }

  lemma {:induction false} DataOfFinds(members: seq<Member>, name: string)
    ensures DataOf(members, name).Some? <==> exists i :: 0 <= i < |members| && members[i].name == name
    ensures BitsOf(members, name).Some? <==> exists i :: 0 <= i < |members| && members[i].name == name
    ensures DataOf(members, name).Some? ==>
      exists i :: 0 <= i < |members| && members[i].name == name && members[i].data == DataOf(members, name).value
          && Some(members[i].bits) == BitsOf(members, name)
  {
    if |members| > 0 {
      DataOfFinds(members[1..], name);
      var tail := members[1..];
      if i :| 0 <= i < |tail| && tail[i].name == name { assert members[i + 1] == tail[i]; }
      if DataOf(tail, name).Some? {
        var i :| 0 <= i < |tail| && tail[i].name == name
                 && tail[i].data == DataOf(tail, name).value && Some(tail[i].bits) == BitsOf(tail, name);
        assert members[i + 1] == tail[i];
      }
      if i :| 0 <= i < |members| && members[i].name == name { assert i > 0 ==> tail[i - 1] == members[i]; }
      if members[0].name == name { assert members[0].data == DataOf(members, name).value; }
    }
  }

  lemma SizesGrow(members: seq<Member>, n: nat)
    requires n <= |members|
    ensures TotalSize(members[..n]) <= TotalSize(members)
    decreases |members| - n
  {
    if n < |members| {
      assert members[..n + 1][..n] == members[..n];
      SizesGrow(members, n + 1);
    } else {
      assert members[..n] == members;
    }
  }

  method MemberPasses(env: Env, info: Member) returns (ok: bool)
    ensures ok == GoodMember(env, info)
  {
    if !GoodName(env, info.name) { return false; }
    if !info.regular || info.encrypted || info.size > MAX_FILE_BYTES { return false; }
    if (info.compressed == 0 && info.size > 0)
        || (info.compressed > 0 && info.size > MAX_EXPANSION_RATIO * info.compressed) { return false; }
    return |info.data| == info.size;
  }

  ghost predicate Seen(env: Env, seen: set<string>, members: seq<Member>) {
    && (forall i :: 0 <= i < |members| ==> env.fold(members[i].name) in seen)
    && forall key :: key in seen ==> exists i :: 0 <= i < |members| && env.fold(members[i].name) == key
  }

  lemma SeenStep(env: Env, seen: set<string>, members: seq<Member>, m: Member)
    requires Seen(env, seen, members)
    ensures Seen(env, seen + {env.fold(m.name)}, members + [m])
    ensures DistinctKeys(env, members + [m]) <==> DistinctKeys(env, members) && env.fold(m.name) !in seen
  {
    var after := members + [m];
    assert after[|members|] == m && forall i :: 0 <= i < |members| ==> after[i] == members[i];
    if env.fold(m.name) in seen {
      var i :| 0 <= i < |members| && env.fold(members[i].name) == env.fold(m.name);
      assert env.fold(after[i].name) == env.fold(after[|members|].name);
    }
  }

  /** Everything the member loop has established of a prefix. */
  ghost predicate PrefixGood(env: Env, members: seq<Member>) {
    (forall i :: 0 <= i < |members| ==> GoodMember(env, members[i])) && DistinctKeys(env, members)
        && TotalSize(members) <= MAX_TOTAL_BYTES
  }

  lemma PrefixOfGood(env: Env, members: seq<Member>, n: nat)
    requires n <= |members| && PrefixGood(env, members)
    ensures PrefixGood(env, members[..n])
  { SizesGrow(members, n); }

  lemma PrefixStep(env: Env, seen: set<string>, members: seq<Member>, m: Member)
    requires Seen(env, seen, members) && PrefixGood(env, members)
    ensures PrefixGood(env, members + [m]) <==>
      GoodMember(env, m) && env.fold(m.name) !in seen && TotalSize(members) + m.size <= MAX_TOTAL_BYTES
  {
    SeenStep(env, seen, members, m);
    assert (members + [m])[..|members|] == members;
    assert (members + [m])[|members|] == m;
  }

  /** The state of the member loop after some members. */
  ghost predicate Reading(env: Env, members: seq<Member>, seen: set<string>, total: int, store: map<string, Data>) {
    PrefixGood(env, members) && Seen(env, seen, members) && total == TotalSize(members) && Holds(store, members)
  }

  lemma ReadingStep(env: Env, members: seq<Member>, m: Member, seen: set<string>, total: int, store: map<string, Data>)
    requires Reading(env, members, seen, total, store)
    ensures PrefixGood(env, members + [m]) <==>
      GoodMember(env, m) && env.fold(m.name) !in seen && total + m.size <= MAX_TOTAL_BYTES
    ensures PrefixGood(env, members + [m]) ==>
      Reading(env, members + [m], seen + {env.fold(m.name)}, total + m.size, store[m.name := m.data])
  {
    PrefixStep(env, seen, members, m);
    SeenStep(env, seen, members, m);
    assert (members + [m])[..|members|] == members;
    if env.fold(m.name) !in seen { StoreOne(store, members, m); }
  }

  lemma PrefixFails(env: Env, members: seq<Member>, n: nat)
    requires n <= |members| && !PrefixGood(env, members[..n])
    ensures !GoodMembers(env, members)
  { if GoodMembers(env, members) { PrefixOfGood(env, members, n); } }

  /** The member loop: names, collisions, kinds, sizes and the running total. */
  method ReadMembers(env: Env, infos: seq<Member>) returns (store: map<string, Data>, ok: bool)
    ensures ok <==> GoodMembers(env, infos)
    ensures ok ==> Holds(store, infos)
  {
    store, ok := map[], false;
    if |infos| == 0 || |infos| > MAX_FILE_COUNT + 1 { return; }
    var seen: set<string>, total := {}, 0;
    for i := 0 to |infos|
      invariant Reading(env, infos[..i], seen, total, store)
    {
      var info := infos[i];
      assert infos[..i + 1] == infos[..i] + [info];
      ReadingStep(env, infos[..i], info, seen, total, store);
      var key := env.fold(info.name);
      var passes := MemberPasses(env, info);
      if key in seen || !passes || total + info.size > MAX_TOTAL_BYTES {
        PrefixFails(env, infos, i + 1);
        return;
      }
      seen, total, store := seen + {key}, total + info.size, store[info.name := info.data];
    }
    assert infos[..|infos|] == infos;
    ok := true;
  }

  lemma StoreOne(store: map<string, Data>, members: seq<Member>, m: Member)
    requires Holds(store, members) && forall i :: 0 <= i < |members| ==> members[i].name != m.name
    ensures Holds(store[m.name := m.data], members + [m])
  {
    DataOfFinds(members, m.name);
    forall n ensures DataOf(members + [m], n) == if n == m.name then Some(m.data) else DataOf(members, n)
        { DataOfAppend(members, m, n); }
  }

  ghost predicate SeenPaths(env: Env, seen: set<string>, entries: seq<Entry>) {
    && (forall i :: 0 <= i < |entries| ==> env.fold(entries[i].path) in seen)
    && forall key :: key in seen ==> exists i :: 0 <= i < |entries| && env.fold(entries[i].path) == key
  }

  lemma SeenPathStep(env: Env, seen: set<string>, entries: seq<Entry>, e: Entry)
    requires SeenPaths(env, seen, entries)
    ensures SeenPaths(env, seen + {env.fold(e.path)}, entries + [e])
    ensures DistinctPaths(env, entries + [e]) <==> DistinctPaths(env, entries) && env.fold(e.path) !in seen
  {
    var after := entries + [e];
    assert after[|entries|] == e && forall i :: 0 <= i < |entries| ==> after[i] == entries[i];
    if env.fold(e.path) in seen {
      var i :| 0 <= i < |entries| && env.fold(entries[i].path) == env.fold(e.path);
      assert env.fold(after[i].path) == env.fold(after[|entries|].path);
    }
  }

  lemma DistinctPrefix(env: Env, entries: seq<Entry>, n: nat)
    requires n <= |entries| && DistinctPaths(env, entries)
    ensures DistinctPaths(env, entries[..n])
  {}

  /** The state of the entry loop after some entries. */
  ghost predicate Checked(env: Env, limits: Limits, entries: seq<Entry>, seen: set<string>) {
    && (forall i :: 0 <= i < |entries| ==> GoodEntry(env, limits, entries[i]))
    && DistinctPaths(env, entries) && SeenPaths(env, seen, entries)
  }

  ghost predicate EntriesGood(env: Env, limits: Limits, entries: seq<Entry>) {
    (forall i :: 0 <= i < |entries| ==> GoodEntry(env, limits, entries[i])) && DistinctPaths(env, entries)
  }

  lemma CheckedStep(env: Env, limits: Limits, entries: seq<Entry>, e: Entry, seen: set<string>)
    requires Checked(env, limits, entries, seen)
    ensures EntriesGood(env, limits, entries + [e]) <==> GoodEntry(env, limits, e) && env.fold(e.path) !in seen
    ensures EntriesGood(env, limits, entries + [e]) ==> Checked(env, limits, entries + [e], seen + {env.fold(e.path)})
  {
    SeenPathStep(env, seen, entries, e);
    assert (entries + [e])[|entries|] == e;
  }

  lemma EntriesPrefix(env: Env, limits: Limits, entries: seq<Entry>, n: nat)
    requires n <= |entries| && !EntriesGood(env, limits, entries[..n])
    ensures !EntriesGood(env, limits, entries)
  { if EntriesGood(env, limits, entries) { DistinctPrefix(env, entries, n); } }

  /** The entry loop: each entry by itself, and no path key twice. */
  method EntryLoop(env: Env, limits: Limits, entries: seq<Entry>) returns (ok: bool)
    ensures ok == EntriesGood(env, limits, entries)
  {
    var seen: set<string> := {};
    for i := 0 to |entries|
      invariant Checked(env, limits, entries[..i], seen)
    {
      assert entries[..i + 1] == entries[..i] + [entries[i]];
      CheckedStep(env, limits, entries[..i], entries[i], seen);
      var key := env.fold(entries[i].path);
      if !GoodEntry(env, limits, entries[i]) || key in seen {
        EntriesPrefix(env, limits, entries, i + 1);
        return false;
      }
      seen := seen + {key};
    }
    assert entries[..|entries|] == entries;
    return true;
  }

  method ShapePasses(env: Env, m: Manifest) returns (ok: bool)
    ensures ok == GoodEntries(env, m.limits, m.entries)
  {
    if |m.entries| > m.limits.fileCount { return false; }
    var each := EntryLoop(env, m.limits, m.entries);
    return each && Ordered(m.entries) && TotalDeclared(m.entries) <= m.limits.totalBytes;
  }

  method EntriesPass(env: Env, infos: seq<Member>, store: map<string, Data>, m: Manifest) returns (ok: bool)
    requires Holds(store, infos)
    ensures ok == Agrees(env, infos, m)
  {
    for i := 0 to |infos|
      invariant forall j :: 0 <= j < i ==> infos[j].name == MANIFEST_NAME || Declares(m.entries, infos[j].name)
    {
      if infos[i].name != MANIFEST_NAME && !Declares(m.entries, infos[i].name) { return false; }
    }
    for i := 0 to |m.entries|
      invariant forall j :: 0 <= j < i ==> Intact(env, infos, m.entries[j])
    {
      var e := m.entries[i];
      if e.path !in store { return false; }
      if |store[e.path]| != e.size || env.sha(store[e.path]) != e.id { return false; }
      if BitsOf(infos, e.path) != Some(Bits(e.mode)) { return false; }
    }
    return true;
  }

  method ManifestPasses(env: Env, m: Manifest) returns (ok: bool)
    ensures ok == GoodManifest(env, m)
  {
    if m.bundleId == "" || !GoodLimits(m.limits) { return false; }
    var shape := ShapePasses(env, m);
    return shape && GoodReferences(env, m) && GoodIdentities(env, m);
  }

  /** `verify_bundle_archive`: the manifest of a valid archive. */
  method VerifyBundleArchive(env: Env, archive: Data, bundle: Option<Digest>, archiveId: Option<Digest>)
        returns (r: Option<Manifest>)
    ensures r.Some? ==> Accepts(env, archive, r.value, bundle, archiveId)
    ensures r.None? ==> forall m :: !Accepts(env, archive, m, bundle, archiveId)
  {
    if archiveId.Some? && env.sha(archive) != archiveId.value { return None; }
    if |archive| > MAX_ARCHIVE_BYTES { return None; }
    var unzipped := env.unzip(archive);
    if unzipped.None? { return None; }
    r := VerifyMembers(env, unzipped.value);
    if r.Some? && bundle.Some? && r.value.identity != bundle.value { return None; }
  }

  method VerifyMembers(env: Env, infos: seq<Member>) returns (r: Option<Manifest>)
    ensures r.Some? ==> AcceptsMembers(env, infos, r.value)
    ensures forall m :: AcceptsMembers(env, infos, m) ==> r == Some(m)
  {
    var store, ok := ReadMembers(env, infos);
    if !ok || MANIFEST_NAME !in store { return None; }
    var m := ReadManifest(env, store[MANIFEST_NAME]);
    if m.None? { return None; }
    var good := ManifestPasses(env, m.value);
    if !good { return None; }
    var agrees := EntriesPass(env, infos, store, m.value);
    return if agrees then m else None;
  }

  // ---- Accepted archives -------------------------------------------------------------------------------

  /** The member carries exactly this entry. */
  predicate Carries(env: Env, member: Member, e: Entry) {
    member.name == e.path && |member.data| == e.size && member.size == e.size && env.sha(member.data) == e.id
        && member.bits == Bits(e.mode)
  }

  predicate CarriedBySome(env: Env, members: seq<Member>, e: Entry)
        { exists i :: 0 <= i < |members| && Carries(env, members[i], e) }
  predicate IsSomeEntry(env: Env, entries: seq<Entry>, member: Member)
        { exists k :: 0 <= k < |entries| && Carries(env, member, entries[k]) }

  lemma MemberOfEntry(env: Env, members: seq<Member>, e: Entry)
    requires Intact(env, members, e) && forall i :: 0 <= i < |members| ==> GoodMember(env, members[i])
    ensures CarriedBySome(env, members, e)
  {
    DataOfFinds(members, e.path);
    var i :| 0 <= i < |members| && members[i].name == e.path && members[i].data == DataOf(members, e.path).value
        && Some(members[i].bits) == BitsOf(members, e.path);
    assert GoodMember(env, members[i]);
  }

  lemma EntryOfMember(env: Env, members: seq<Member>, m: Manifest, i: nat)
    requires GoodMembers(env, members) && Agrees(env, members, m) && i < |members| && members[i].name != MANIFEST_NAME
    ensures IsSomeEntry(env, m.entries, members[i])
  {
    assert Declares(m.entries, members[i].name);
    var k :| 0 <= k < |m.entries| && m.entries[k].path == members[i].name;
    MemberOfEntry(env, members, m.entries[k]);
    var n :| 0 <= n < |members| && Carries(env, members[n], m.entries[k]);
    assert env.fold(members[n].name) == env.fold(members[i].name);
    assert n == i;
  }

  /** The members other than the manifest are exactly the declared entries, with matching hash, size
      and mode, pairwise distinct under the path key, and bounded in total. */
  ghost predicate Exact(env: Env, members: seq<Member>, entries: seq<Entry>) {
    && (forall i :: 0 <= i < |members| && members[i].name != MANIFEST_NAME ==> IsSomeEntry(env, entries, members[i]))
    && (forall k :: 0 <= k < |entries| ==> entries[k].path != MANIFEST_NAME && CarriedBySome(env, members, entries[k]))
    && DistinctKeys(env, members) && DistinctPaths(env, entries) && TotalSize(members) <= MAX_TOTAL_BYTES
  }

  lemma AgreeingIsExact(env: Env, members: seq<Member>, m: Manifest)
    requires GoodMembers(env, members) && Agrees(env, members, m) && GoodEntries(env, m.limits, m.entries)
    ensures Exact(env, members, m.entries)
  {
    forall i | 0 <= i < |members| && members[i].name != MANIFEST_NAME ensures IsSomeEntry(env, m.entries, members[i]) {
      EntryOfMember(env, members, m, i);
    }
    forall k | 0 <= k < |m.entries|
      ensures m.entries[k].path != MANIFEST_NAME && CarriedBySome(env, members, m.entries[k]) {
      assert Intact(env, members, m.entries[k]) && GoodEntry(env, m.limits, m.entries[k]);
      MemberOfEntry(env, members, m.entries[k]);
    }
  }

  lemma AcceptedIsExact(env: Env, archive: Data, m: Manifest, bundle: Option<Digest>, archiveId: Option<Digest>)
    requires Accepts(env, archive, m, bundle, archiveId)
    ensures Exact(env, env.unzip(archive).value, m.entries)
  {
    AgreeingIsExact(env, env.unzip(archive).value, m);
  }

  // ---- The builder ----------------------------------------------------------------------------------------

  datatype SourceFile = SourceFile(path: string, data: Data, executable: bool)

  function ModeOf(f: SourceFile): Mode { if f.executable then Executable else Plain }

  function EntryOf(env: Env, f: SourceFile): Entry
        { Entry.Entry(f.path, env.sha(f.data), |f.data|, "harness", ModeOf(f)) }

  function EntriesOf(env: Env, files: seq<SourceFile>): (r: seq<Entry>)
    ensures |r| == |files| && forall i :: 0 <= i < |r| ==> r[i] == EntryOf(env, files[i])
  { seq(|files|, i requires 0 <= i < |files| => EntryOf(env, files[i])) }

  function CountLimit(n: nat): int { if n <= 32 then 32 else if n <= MAX_FILE_COUNT then n else MAX_FILE_COUNT }

  function Draft(env: Env, files: seq<SourceFile>, bundleId: string): Manifest
    requires |files| > 0
  {
    var entries := EntriesOf(env, files);
    Manifest(bundleId, 0, entries, [Entrypoint("harness", files[0].path)], [], [],
        EntryIdentity(env, entries, "harness"), None, None,
             Limits(CountLimit(|files|), MAX_FILE_BYTES, MAX_TOTAL_BYTES, MAX_PATH_BYTES, MAX_EXPANSION_RATIO), [])
  }

  function Built(env: Env, files: seq<SourceFile>, bundleId: string): Manifest
    requires |files| > 0
  {
    var draft := Draft(env, files, bundleId);
    draft.(identity := LogicalIdentity(env, draft))
  }

  function Stored(name: string, bits: int, data: Data): Member { Member(name, true, false, bits, |data|, |data|, data) }

  function FileMembers(files: seq<SourceFile>): (r: seq<Member>)
    ensures |r| == |files| && forall i :: 0 <= i < |r| ==>
      r[i] == Stored(files[i].path, Bits(ModeOf(files[i])), files[i].data)
  { seq(|files|, i requires 0 <= i < |files| => Stored(files[i].path, Bits(ModeOf(files[i])), files[i].data)) }

  function Packed(manifest: Data, files: seq<SourceFile>): seq<Member>
        { [Stored(MANIFEST_NAME, 0x1A4, manifest)] + FileMembers(files) }

  function TotalData(files: seq<SourceFile>): nat {
    if |files| == 0 then 0 else TotalData(files[..|files| - 1]) + |files[|files| - 1].data|
  }

  /** Files as the source walk lists them: acceptable paths in UTF-8 order. */
  ghost predicate Walked(env: Env, files: seq<SourceFile>) {
    && (forall i :: 0 <= i < |files| ==> NormalPath(env, files[i].path))
    && (forall i :: 0 < i < |files| ==> PathLe(files[i - 1].path, files[i].path))
  }

  /** No two files, nor a file and the manifest, share a path key. */
  ghost predicate NoCollision(env: Env, files: seq<SourceFile>) {
    && (forall i :: 0 <= i < |files| ==> env.fold(files[i].path) != env.fold(MANIFEST_NAME))
    && forall i, j :: 0 <= i < j < |files| ==> env.fold(files[i].path) != env.fold(files[j].path)
  }

  /** The limits a file set must respect, the manifest included. */
  ghost predicate WithinLimits(files: seq<SourceFile>, manifest: Data) {
    && |files| <= MAX_FILE_COUNT
    && |manifest| <= MAX_FILE_BYTES && (forall i :: 0 <= i < |files| ==> |files[i].data| <= MAX_FILE_BYTES)
    && |manifest| + TotalData(files) <= MAX_TOTAL_BYTES
  }

  // Reading back the manifest the builder wrote.

  lemma ManifestReadsBack(env: Env, m: Manifest)
    requires env.read(Canonical(ManifestJson(env, m))) == Some(m)
    ensures ReadManifest(env, ManifestBytes(env, m)) == Some(m)
  {
    var j := ManifestJson(env, m);
    BytesReadBack(j);
    CanonicalIdempotent(j);
  }

  lemma {:induction false} PackedTotal(manifest: Data, files: seq<SourceFile>)
    ensures TotalSize(Packed(manifest, files)) == |manifest| + TotalData(files)
  {
    var packed := Packed(manifest, files);
    if |files| > 0 {
      assert packed[..|packed| - 1] == Packed(manifest, files[..|files| - 1]);
      PackedTotal(manifest, files[..|files| - 1]);
    } else {
      assert packed[..0] == [];
    }
  }

  lemma PackedMembers(env: Env, manifest: Data, files: seq<SourceFile>)
    requires Walked(env, files)
    ensures GoodMembers(env, Packed(manifest, files)) <==> NoCollision(env, files) && WithinLimits(files, manifest)
  {
    var packed := Packed(manifest, files);
    PackedTotal(manifest, files);
    assert packed[0] == Stored(MANIFEST_NAME, 0x1A4, manifest);
    forall i | 0 <= i < |files| ensures packed[i + 1] == Stored(files[i].path, Bits(ModeOf(files[i])), files[i].data) {}
    PackedKeys(env, manifest, files);
    if GoodMembers(env, packed) {
      assert GoodMember(env, packed[0]);
      forall i | 0 <= i < |files| ensures |files[i].data| <= MAX_FILE_BYTES { assert GoodMember(env, packed[i + 1]); }
    }
    if WithinLimits(files, manifest) {
      forall i | 0 <= i < |packed| ensures GoodMember(env, packed[i]) {
        if i > 0 { assert NormalPath(env, files[i - 1].path); }
      }
    }
  }

  lemma KeysWithHead(env: Env, head: Member, tail: seq<Member>)
    ensures DistinctKeys(env, [head] + tail) <==>
      (forall i :: 0 <= i < |tail| ==> env.fold(head.name) != env.fold(tail[i].name)) && DistinctKeys(env, tail)
  {
    var all := [head] + tail;
    if DistinctKeys(env, all) {
      forall i | 0 <= i < |tail|
        ensures env.fold(head.name) != env.fold(tail[i].name) { assert all[i + 1] == tail[i] && all[0] == head; }
      forall i, j | 0 <= i < j < |tail| ensures env.fold(tail[i].name) != env.fold(tail[j].name) {
        assert all[i + 1] == tail[i] && all[j + 1] == tail[j];
      }
    }
  }

  lemma FileKeys(env: Env, files: seq<SourceFile>)
    ensures DistinctKeys(env, FileMembers(files)) <==>
      forall i, j :: 0 <= i < j < |files| ==> env.fold(files[i].path) != env.fold(files[j].path)
  {
    var members := FileMembers(files);
    assert forall i :: 0 <= i < |files| ==> members[i].name == files[i].path;
  }

  lemma PackedKeys(env: Env, manifest: Data, files: seq<SourceFile>)
    ensures DistinctKeys(env, Packed(manifest, files)) <==> NoCollision(env, files)
  {
    KeysWithHead(env, Stored(MANIFEST_NAME, 0x1A4, manifest), FileMembers(files));
    FileKeys(env, files);
    assert forall i :: 0 <= i < |files| ==> FileMembers(files)[i].name == files[i].path;
  }

  lemma {:induction false} DataOfDistinct(env: Env, members: seq<Member>, i: nat)
    requires i < |members| && DistinctKeys(env, members)
    ensures DataOf(members, members[i].name) == Some(members[i].data)
        && BitsOf(members, members[i].name) == Some(members[i].bits)
  {
    if i > 0 {
      assert env.fold(members[0].name) != env.fold(members[i].name);
      DataOfDistinct(env, members[1..], i - 1);
    }
  }

  lemma PackedAgrees(env: Env, manifest: Data, files: seq<SourceFile>, m: Manifest)
    requires NoCollision(env, files) && m.entries == EntriesOf(env, files)
    ensures Agrees(env, Packed(manifest, files), m) && DataOf(Packed(manifest, files), MANIFEST_NAME) == Some(manifest)
  {
    var packed := Packed(manifest, files);
    PackedKeys(env, manifest, files);
    DataOfDistinct(env, packed, 0);
    forall i | 0 <= i < |packed| ensures packed[i].name == MANIFEST_NAME || Declares(m.entries, packed[i].name) {
      if i > 0 { assert m.entries[i - 1].path == packed[i].name; }
    }
    forall i | 0 <= i < |files| ensures Intact(env, packed, m.entries[i]) {
      DataOfDistinct(env, packed, i + 1);
      assert packed[i + 1] == Stored(files[i].path, Bits(ModeOf(files[i])), files[i].data);
    }
  }

  lemma RolesOf(entries: seq<Entry>)
    requires forall e :: e in entries ==> e.role == "harness"
    ensures WithRole(entries, "input") == []
  {
    assert "harness"[0] != "input"[0];
    KeepNone((e: Entry) => e.role == "input", entries);
  }

  lemma {:induction false} DeclaredTotal(env: Env, files: seq<SourceFile>)
    ensures TotalDeclared(EntriesOf(env, files)) == TotalData(files)
  {
    if |files| > 0 {
      assert EntriesOf(env, files)[..|files| - 1] == EntriesOf(env, files[..|files| - 1]);
      DeclaredTotal(env, files[..|files| - 1]);
    }
  }

  lemma IdentityIgnoresItself(env: Env, m: Manifest, d: Digest)
    ensures LogicalIdentity(env, m.(identity := d)) == LogicalIdentity(env, m)
  {}

  lemma BuiltIdentities(env: Env, files: seq<SourceFile>, bundleId: string)
    requires |files| > 0
    ensures GoodIdentities(env, Built(env, files, bundleId))
  {
    var draft := Draft(env, files, bundleId);
    IdentityIgnoresItself(env, draft, LogicalIdentity(env, draft));
    RolesOf(draft.entries);
  }

  lemma BuiltEntry(env: Env, files: seq<SourceFile>, l: Limits, i: nat)
    requires i < |files| && NormalPath(env, files[i].path) && |files[i].data| <= l.fileBytes
    ensures GoodEntry(env, l, EntryOf(env, files[i]))
  { assert "harness" in ROLES; }

  lemma BuiltPaths(env: Env, files: seq<SourceFile>)
    requires NoCollision(env, files)
    ensures DistinctPaths(env, EntriesOf(env, files))
  {
    var entries := EntriesOf(env, files);
    assert forall i :: 0 <= i < |files| ==> entries[i].path == files[i].path;
  }

  lemma BuiltOrder(env: Env, files: seq<SourceFile>)
    requires Walked(env, files)
    ensures Ordered(EntriesOf(env, files))
  {
    var entries := EntriesOf(env, files);
    forall i | 0 < i < |entries|
      ensures PathLe(entries[i - 1].path, entries[i].path) { assert PathLe(files[i - 1].path, files[i].path); }
  }

  lemma BuiltShape(env: Env, files: seq<SourceFile>, l: Limits, manifest: Data)
    requires Walked(env, files) && NoCollision(env, files) && WithinLimits(files, manifest)
    requires |files| <= l.fileCount && l.fileBytes == MAX_FILE_BYTES && l.totalBytes == MAX_TOTAL_BYTES
    ensures GoodEntries(env, l, EntriesOf(env, files))
  {
    DeclaredTotal(env, files);
    BuiltPaths(env, files);
    BuiltOrder(env, files);
    forall i | 0 <= i < |files| ensures GoodEntry(env, l, EntryOf(env, files[i])) { BuiltEntry(env, files, l, i); }
  }

  lemma BuiltIsGood(env: Env, files: seq<SourceFile>, bundleId: string, manifest: Data)
    requires |files| > 0 && bundleId != "" && Walked(env, files) && NoCollision(env, files)
        && WithinLimits(files, manifest)
    ensures GoodManifest(env, Built(env, files, bundleId))
  {
    BuiltIdentities(env, files, bundleId);
    var m := Built(env, files, bundleId);
    BuiltShape(env, files, m.limits, manifest);
    assert m.entries[0].path == files[0].path;
    assert Declares(m.entries, m.entrypoints[0].path);
  }

  /** What the container and the field reader must undo, for this one archive. */
  ghost predicate Reversible(env: Env, files: seq<SourceFile>, bundleId: string)
    requires |files| > 0
  {
    var m := Built(env, files, bundleId);
    var packed := Packed(ManifestBytes(env, m), files);
    env.unzip(env.zip(packed)) == Some(packed) && env.read(Canonical(ManifestJson(env, m))) == Some(m)
  }

  ghost predicate Buildable(env: Env, files: seq<SourceFile>, bundleId: string)
    requires |files| > 0
  {
    && bundleId != "" && NoCollision(env, files)
    && WithinLimits(files, ManifestBytes(env, Built(env, files, bundleId)))
    && |BuiltArchive(env, files, bundleId)| <= MAX_ARCHIVE_BYTES
  }

  /** Builder and verifier: the archive built from a walked, non-empty file set verifies, under the
      identity the builder computed, exactly when the bundle has a name, no path keys collide and
      every limit holds. */
  lemma BuiltVerifiesIff(env: Env, files: seq<SourceFile>, bundleId: string)
    requires |files| > 0 && Walked(env, files) && Reversible(env, files, bundleId)
    ensures var m := Built(env, files, bundleId);
      Accepts(env, BuiltArchive(env, files, bundleId), m, Some(m.identity), None) <==> Buildable(env, files, bundleId)
  {
    var m := Built(env, files, bundleId);
    var manifest := ManifestBytes(env, m);
    PackedMembers(env, manifest, files);
    if bundleId != "" && NoCollision(env, files) && WithinLimits(files, manifest) {
      PackedAgrees(env, manifest, files, m);
      ManifestReadsBack(env, m);
      BuiltIsGood(env, files, bundleId, manifest);
    }
  }

  method PathsPass(env: Env, files: seq<SourceFile>) returns (ok: bool)
    ensures ok <==> forall i :: 0 <= i < |files| ==> NormalPath(env, files[i].path)
  {
    for i := 0 to |files|
      invariant forall j :: 0 <= j < i ==> NormalPath(env, files[j].path)
    {
      if !NormalPath(env, files[i].path) { return false; }
    }
    return true;
  }

  function BuiltArchive(env: Env, files: seq<SourceFile>, bundleId: string): Data
    requires |files| > 0
  { env.zip(Packed(ManifestBytes(env, Built(env, files, bundleId)), files)) }

  /** `build_bundle_archive` after the walk: refuses bad paths and empty sources, packs, then verifies
      its own output. */
  method BuildBundleArchive(env: Env, files: seq<SourceFile>, bundleId: string) returns (r: Option<Data>)
    requires forall i :: 0 < i < |files| ==> PathLe(files[i - 1].path, files[i].path)
    requires |files| > 0 && Walked(env, files) ==> Reversible(env, files, bundleId)
    ensures r.Some? <==> |files| > 0 && Walked(env, files) && Buildable(env, files, bundleId)
    ensures r.Some? ==>
      r.value == BuiltArchive(env, files, bundleId) &&
      Accepts(env, r.value, Built(env, files, bundleId), Some(Built(env, files, bundleId).identity), None)
  {
    var paths := PathsPass(env, files);
    if |files| == 0 || !paths { return None; }
    BuiltVerifiesIff(env, files, bundleId);
    var m := Built(env, files, bundleId);
    var archive := BuiltArchive(env, files, bundleId);
    var report := VerifyBundleArchive(env, archive, Some(m.identity), None);
    if report.None? { return None; }
    AcceptedUniquely(env, files, bundleId, report.value);
    return Some(archive);
  }

  /** The manifest the verifier finds in a built archive is the built one. */
  lemma AcceptedUniquely(env: Env, files: seq<SourceFile>, bundleId: string, found: Manifest)
    requires |files| > 0 && Walked(env, files) && Reversible(env, files, bundleId)
    requires Accepts(env, BuiltArchive(env, files, bundleId), found, Some(Built(env, files, bundleId).identity), None)
    ensures found == Built(env, files, bundleId)
  {
    var m := Built(env, files, bundleId);
    var manifest := ManifestBytes(env, m);
    PackedMembers(env, manifest, files);
    PackedAgrees(env, manifest, files, m);
    ManifestReadsBack(env, m);
  }
}
