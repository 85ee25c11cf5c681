/** Controller/worker trust state (src/mncs_fabric/enrollment.py): a memoised projection
    of the trust ledger, keyed on the ledger file's stat token. */
module TrustStore {
  import opened Orders
  import opened Ledger

  type Key = (string, string)

  datatype Event = Enrolled | Revoked | OtherEvent(name: string)

  datatype TrustRecord = TrustRecord(
    kind: string, identity: string, fingerprint: string, active: bool, metadata: string, event: Event)

  type Cache = map<Key, TrustRecord>

  function KeyOf(r: TrustRecord): Key { (r.kind, r.identity) }

  predicate Counts(r: TrustRecord) {
    r.kind != "" && r.identity != "" && !r.event.OtherEvent?
  }

  /** The full scan: the last counting record of an identity. */
  function LastFor(records: seq<TrustRecord>, key: Key): Option<TrustRecord> {
    if |records| == 0 then None
    else
      var last := records[|records| - 1];
      if Counts(last) && KeyOf(last) == key then Some(last) else LastFor(records[..|records| - 1], key)
  }

  function Get(cache: Cache, key: Key): Option<TrustRecord> {
    if key in cache then Some(cache[key]) else None
  }

  ghost predicate Projects(cache: Cache, records: seq<TrustRecord>) {
    forall key :: Get(cache, key) == LastFor(records, key)
  }

  // ---- The file and its stat token ------------------------------------------------

  /** `width` is the size of a ledger line, never zero. */
  datatype Disk = Disk(records: seq<TrustRecord>, mtime: int)
  type Token = (nat, int)

  function Size(width: TrustRecord -> nat, records: seq<TrustRecord>): nat {
    if |records| == 0 then 0
    else Size(width, records[..|records| - 1]) + width(records[|records| - 1]) + 1
  }

  function Stat(width: TrustRecord -> nat, disk: Disk): Option<Token> {
    if disk.records == [] then None else Some((Size(width, disk.records), disk.mtime))
  }

  /** `FabricLedger.append`: the file changes only when the record is new. */
  function Write(disk: Disk, r: TrustRecord, mtime: int): Disk {
    if r in disk.records then disk else Disk(disk.records + [r], mtime)
  }

  lemma {:induction false} LongerIsLarger(width: TrustRecord -> nat, a: seq<TrustRecord>, b: seq<TrustRecord>)
    requires a <= b
    ensures Size(width, a) <= Size(width, b)
    ensures Size(width, a) == Size(width, b) ==> a == b
  {
    if |a| < |b| {
      var front := b[..|b| - 1];
      assert a <= front;
      LongerIsLarger(width, a, front);
    } else {
      assert a == b;
    }
  }

  // ---- One process's view -------------------------------------------------------------

  datatype View = View(cache: Cache, token: Option<Token>)

  const Fresh := View(map[], None)

  function Scan(records: seq<TrustRecord>): Cache {
    if |records| == 0 then map[]
    else
      var before, last := Scan(records[..|records| - 1]), records[|records| - 1];
      if Counts(last) then before[KeyOf(last) := last] else before
  }

  lemma {:induction false} ScanProjects(records: seq<TrustRecord>)
    ensures Projects(Scan(records), records)
  {
    if |records| > 0 { ScanProjects(records[..|records| - 1]); }
  }

  /** `_ensure_cache`. */
  function Refresh(width: TrustRecord -> nat, disk: Disk, v: View): View {
    if disk.records == [] then Fresh
    else if Stat(width, disk) == v.token then v
    else View(Scan(disk.records), Stat(width, disk))
  }

  function Enrolment(kind: string, identity: string, fingerprint: string, metadata: string): TrustRecord {
    TrustRecord(kind, identity, fingerprint, true, metadata, Enrolled)
  }

  function Revocation(key: Key, fingerprint: string, reason: string): TrustRecord {
    TrustRecord(key.0, key.1, fingerprint, false, reason, Revoked)
  }

  predicate Acceptable(kind: string, identity: string, fingerprint: string) {
    (kind == "controller" || kind == "worker") && identity != "" && "sha256:" <= fingerprint
  }

  /** The record an enrolment would write, or why it is refused. */
  function EnrolmentDecision(v: View, kind: string, identity: string, fingerprint: string,
        metadata: string): Result<TrustRecord> {
    var current := Get(v.cache, (kind, identity));
    if !Acceptable(kind, identity, fingerprint) then
      Err("trust enrollment requires a controller/worker and certificate fingerprint")
    else if current.Some? && current.value.active && current.value.fingerprint != fingerprint then
      Err("active identity cannot be rebound without explicit revocation")
    else Ok(Enrolment(kind, identity, fingerprint, metadata))
  }

  function RevocationDecision(v: View, key: Key, reason: string): Result<TrustRecord> {
    match Get(v.cache, key)
    case None => Err("cannot revoke an unknown identity")
    case Some(current) => Ok(Revocation(key, current.fingerprint, reason))
  }

  /** Append, overwrite the cached entry, take the new token. */
  function Store(width: TrustRecord -> nat, disk: Disk, v: View, r: TrustRecord, mtime: int): (Disk, View) {
    var disk' := Write(disk, r, mtime);
    (disk', View(v.cache[KeyOf(r) := r], Stat(width, disk')))
  }

  function Authorized(current: Option<TrustRecord>, fingerprint: string): Result<()> {
    match current
    case None => Err("unknown certificate identity")
    case Some(r) =>
      if !r.active then Err("certificate identity is revoked")
      else if r.fingerprint != fingerprint then Err("certificate fingerprint does not match enrolled identity")
      else Ok(())
  }

  class LedgerFile {
    var disk: Disk
    constructor () ensures disk == Disk([], 0) { disk := Disk([], 0); }
  }

  class TrustStore {
    const file: LedgerFile
    const width: TrustRecord -> nat
    var cache: Cache
    var token: Option<Token>

    constructor (file: LedgerFile, width: TrustRecord -> nat)
      ensures this.file == file && this.width == width && Current() == Fresh
    {
      this.file, this.width := file, width;
      cache, token := map[], None;
    }

    function Current(): View reads this { View(cache, token) }

    method EnsureCache()
      modifies this
      ensures Current() == Refresh(width, file.disk, old(Current()))
    {
      var records := file.disk.records;
      if records == [] {
        cache, token := map[], None;
        return;
      }
      var stat := Stat(width, file.disk);
      if stat != token {
        var rebuilt: Cache := map[];
        for i := 0 to |records|
          invariant rebuilt == Scan(records[..i])
        {
          assert records[..i + 1][..i] == records[..i];
          if Counts(records[i]) { rebuilt := rebuilt[KeyOf(records[i]) := records[i]]; }
        }
        assert records[..|records|] == records;
        cache, token := rebuilt, stat;
      }
    }

    method Lookup(key: Key) returns (r: Option<TrustRecord>)
      modifies this
      ensures Current() == Refresh(width, file.disk, old(Current()))
      ensures r == Get(Current().cache, key)
    {
      EnsureCache();
      r := if key in cache then Some(cache[key]) else None;
    }

    /** Append to the ledger, overwrite the cached entry, take the new token. */
    method Record(record: TrustRecord, mtime: int)
      modifies this, file
      ensures (file.disk, Current()) == Store(width, old(file.disk), old(Current()), record, mtime)
    {
      file.disk := Write(file.disk, record, mtime);
      cache := cache[KeyOf(record) := record];
      token := Stat(width, file.disk);
    }

    method Enroll(kind: string, identity: string, fingerprint: string, metadata: string, mtime: int)
        returns (r: Result<TrustRecord>)
      modifies this, file
      ensures var v := Refresh(width, old(file.disk), old(Current()));
        && r == EnrolmentDecision(v, kind, identity, fingerprint, metadata)
        && (r.Ok? ==> (file.disk, Current()) == Store(width, old(file.disk), v, r.value, mtime))
        && (r.Err? ==> file.disk == old(file.disk) && Current() in {old(Current()), v})
    {
      if !Acceptable(kind, identity, fingerprint) {
        return Err("trust enrollment requires a controller/worker and certificate fingerprint");
      }
      var current := Lookup((kind, identity));
      if current.Some? && current.value.active && current.value.fingerprint != fingerprint {
        return Err("active identity cannot be rebound without explicit revocation");
      }
      var record := Enrolment(kind, identity, fingerprint, metadata);
      Record(record, mtime);
      return Ok(record);
    }

    method Revoke(key: Key, reason: string, mtime: int) returns (r: Result<TrustRecord>)
      modifies this, file
      ensures var v := Refresh(width, old(file.disk), old(Current()));
        && r == RevocationDecision(v, key, reason)
        && (r.Ok? ==> (file.disk, Current()) == Store(width, old(file.disk), v, r.value, mtime))
        && (r.Err? ==> file.disk == old(file.disk) && Current() == v)
    {
      var current := Lookup(key);
      if current.None? {
        return Err("cannot revoke an unknown identity");
      }
      var record := Revocation(key, current.value.fingerprint, reason);
      Record(record, mtime);
      return Ok(record);
    }

    method Authorize(key: Key, fingerprint: string) returns (r: Result<()>)
      modifies this
      ensures Current() == Refresh(width, file.disk, old(Current()))
      ensures r == Authorized(Get(Current().cache, key), fingerprint)
    {
      var current := Lookup(key);
      if current.None? { return Err("unknown certificate identity"); }
      if !current.value.active { return Err("certificate identity is revoked"); }
      if current.value.fingerprint != fingerprint {
        return Err("certificate fingerprint does not match enrolled identity");
      }
      return Ok(());
    }
  }

  // ---- Any number of processes over one ledger ------------------------------------------

  datatype System = System(disk: Disk, views: map<nat, View>)

  datatype Op =
    | Enroll(pid: nat, kind: string, identity: string, fingerprint: string, metadata: string, mtime: int)
    | Revoke(pid: nat, key: Key, reason: string, mtime: int)
    | Look(pid: nat)
    | Foreign(record: TrustRecord, mtime: int)

  function ViewOf(s: System, pid: nat): View { if pid in s.views then s.views[pid] else Fresh }

  function Refreshed(width: TrustRecord -> nat, s: System, pid: nat): View {
    Refresh(width, s.disk, ViewOf(s, pid))
  }

  /** The record an operation is about to write, if it writes one. */
  function Pending(width: TrustRecord -> nat, s: System, op: Op): Option<TrustRecord> {
    match op
    case Enroll(pid, kind, identity, fingerprint, metadata, _) =>
      var d := EnrolmentDecision(Refreshed(width, s, pid), kind, identity, fingerprint, metadata);
      if d.Ok? then Some(d.value) else None
    case Revoke(pid, key, reason, _) =>
      var d := RevocationDecision(Refreshed(width, s, pid), key, reason);
      if d.Ok? then Some(d.value) else None
    case _ => None
  }

  function Next(width: TrustRecord -> nat, s: System, op: Op): System {
    match op
    case Look(pid) => s.(views := s.views[pid := Refreshed(width, s, pid)])
    case Foreign(record, mtime) => s.(disk := Write(s.disk, record, mtime))
    case _ =>
      var v := Refreshed(width, s, op.pid);
      match Pending(width, s, op)
      case None => s.(views := s.views[op.pid := v])
      case Some(r) =>
        var (disk, v') := Store(width, s.disk, v, r, op.mtime);
        System(disk, s.views[op.pid := v'])
  }

  /** The append takes effect, or repeats what the ledger already says last. */
  predicate TakesEffect(records: seq<TrustRecord>, r: TrustRecord) {
    r !in records || LastFor(records, KeyOf(r)) == Some(r)
  }

  ghost predicate Follows(width: TrustRecord -> nat, states: seq<System>, ops: seq<Op>, i: nat)
    requires i < |ops| && |states| == |ops| + 1
  { states[i + 1] == Next(width, states[i], ops[i]) }

  ghost predicate Run(width: TrustRecord -> nat, states: seq<System>, ops: seq<Op>) {
    && |states| == |ops| + 1
    && states[0].views == map[]
    && forall i :: 0 <= i < |ops| ==> Follows(width, states, ops, i)
  }

  /** Exact condition: an operation on an up-to-date view leaves the cache equal to the full
      scan if and only if its append takes effect. */
  lemma CacheAgreesIffEffective(width: TrustRecord -> nat, disk: Disk, v: View, r: TrustRecord, mtime: int)
    requires Projects(v.cache, disk.records) && Counts(r)
    ensures var (disk', v') := Store(width, disk, v, r, mtime);
      Projects(v'.cache, disk'.records) <==> TakesEffect(disk.records, r)
  {
    var (disk', v') := Store(width, disk, v, r, mtime);
    if r !in disk.records {
      assert disk'.records[..|disk.records|] == disk.records;
      forall key ensures Get(v'.cache, key) == LastFor(disk'.records, key) {}
    } else {
      assert Get(v'.cache, KeyOf(r)) == Some(r);
      if LastFor(disk.records, KeyOf(r)) == Some(r) {
        forall key ensures Get(v'.cache, key) == LastFor(disk'.records, key) {}
      }
    }
  }

  lemma {:induction false} LastCounts(records: seq<TrustRecord>, key: Key)
    ensures LastFor(records, key).Some? ==>
      Counts(LastFor(records, key).value) && KeyOf(LastFor(records, key).value) == key
  {
    if |records| > 0 { LastCounts(records[..|records| - 1], key); }
  }

  lemma LastForAppend(records: seq<TrustRecord>, r: TrustRecord, key: Key)
    ensures LastFor(records + [r], key) == if Counts(r) && KeyOf(r) == key then Some(r) else LastFor(records, key)
  {
    assert (records + [r])[..|records|] == records;
  }

  // ---- Every run: when does a lookup differ from a full scan? ------------------------------

  /** Step `j` is a write of `key` by `pid` that the ledger drops although it is not current. */
  ghost predicate Lost(width: TrustRecord -> nat, states: seq<System>, ops: seq<Op>, j: nat, pid: nat, key: Key)
    requires j < |ops| && j < |states|
  {
    && (ops[j].Enroll? || ops[j].Revoke?) && ops[j].pid == pid
    && var p := Pending(width, states[j], ops[j]);
       p.Some? && Counts(p.value) && KeyOf(p.value) == key && !TakesEffect(states[j].disk.records, p.value)
  }

  function ScanAt(states: seq<System>, k: nat, key: Key): Option<TrustRecord>
    requires k < |states|
  { LastFor(states[k].disk.records, key) }

  /** The record `found` at state `k` is what a write lost at step `j` left in the cache; the ledger's
      own last record of the key has not changed since. */
  ghost predicate LeftBy(width: TrustRecord -> nat, states: seq<System>, ops: seq<Op>, j: nat, k: nat, pid: nat,
        key: Key, found: Option<TrustRecord>)
    requires k < |states| == |ops| + 1
  {
    && j < k && Lost(width, states, ops, j, pid, key)
    && found == Pending(width, states[j], ops[j]) && ScanAt(states, j, key) == ScanAt(states, k, key)
  }

  /** What a process sees of a key is the scan's answer, or the trace of one of its own lost writes. */
  ghost predicate Explained(width: TrustRecord -> nat, states: seq<System>, ops: seq<Op>, k: nat, pid: nat, key: Key,
        found: Option<TrustRecord>)
    requires k < |states| == |ops| + 1
  {
    found == ScanAt(states, k, key) || exists j: nat :: LeftBy(width, states, ops, j, k, pid, key, found)
  }

  ghost predicate AllExplained(width: TrustRecord -> nat, states: seq<System>, ops: seq<Op>, k: nat, pid: nat,
        cache: Cache)
    requires k < |states| == |ops| + 1
  { forall key :: Explained(width, states, ops, k, pid, key, Get(cache, key)) }

  /** A view is unused, or older than the file, or as large as the file and explained. */
  ghost predicate ViewInv(width: TrustRecord -> nat, states: seq<System>, ops: seq<Op>, k: nat, pid: nat)
    requires k < |states| == |ops| + 1
  {
    var v, size := ViewOf(states[k], pid), Size(width, states[k].disk.records);
    v.token.Some? ==>
      v.token.value.0 <= size && (v.token.value.0 == size ==> AllExplained(width, states, ops, k, pid, v.cache))
  }

  lemma RefreshExplained(width: TrustRecord -> nat, states: seq<System>, ops: seq<Op>, k: nat, pid: nat)
    requires k < |states| == |ops| + 1 && ViewInv(width, states, ops, k, pid)
    ensures AllExplained(width, states, ops, k, pid, Refreshed(width, states[k], pid).cache)
    ensures Refreshed(width, states[k], pid).token == Stat(width, states[k].disk)
  {
    var disk, v := states[k].disk, ViewOf(states[k], pid);
    ScanProjects(disk.records);
    if disk.records == [] || Stat(width, disk) != v.token {
      forall key ensures Get(Refreshed(width, states[k], pid).cache, key) == ScanAt(states, k, key) {}
    }
  }

  /** An explanation stays one while the key's last record does. */
  lemma StillExplained(width: TrustRecord -> nat, states: seq<System>, ops: seq<Op>, k: nat, pid: nat, key: Key,
        found: Option<TrustRecord>)
    requires k + 1 < |states| == |ops| + 1 && Explained(width, states, ops, k, pid, key, found)
    requires ScanAt(states, k + 1, key) == ScanAt(states, k, key)
    ensures Explained(width, states, ops, k + 1, pid, key, found)
  {
    if found != ScanAt(states, k, key) {
      var j: nat :| LeftBy(width, states, ops, j, k, pid, key, found);
      assert LeftBy(width, states, ops, j, k + 1, pid, key, found);
    }
  }

  lemma ExplainedCounts(width: TrustRecord -> nat, states: seq<System>, ops: seq<Op>, k: nat, pid: nat, key: Key,
        found: Option<TrustRecord>)
    requires k < |states| == |ops| + 1 && Explained(width, states, ops, k, pid, key, found) && found.Some?
    ensures Counts(found.value) && KeyOf(found.value) == key
  {
    LastCounts(states[k].disk.records, key);
  }

  lemma PendingCounts(width: TrustRecord -> nat, states: seq<System>, ops: seq<Op>, k: nat)
    requires k < |ops| && |states| == |ops| + 1 && (ops[k].Enroll? || ops[k].Revoke?)
    requires AllExplained(width, states, ops, k, ops[k].pid, Refreshed(width, states[k], ops[k].pid).cache)
    ensures var p := Pending(width, states[k], ops[k]); p.Some? ==> Counts(p.value)
  {
    if ops[k].Revoke? {
      var found := Get(Refreshed(width, states[k], ops[k].pid).cache, ops[k].key);
      if found.Some? { ExplainedCounts(width, states, ops, k, ops[k].pid, ops[k].key, found); }
    }
  }

  /** One write, for one key. */
  lemma WriteExplained(width: TrustRecord -> nat, states: seq<System>, ops: seq<Op>, k: nat, r: TrustRecord, key: Key)
    requires k < |ops| && |states| == |ops| + 1 && Follows(width, states, ops, k)
    requires (ops[k].Enroll? || ops[k].Revoke?) && Pending(width, states[k], ops[k]) == Some(r) && Counts(r)
    requires AllExplained(width, states, ops, k, ops[k].pid, Refreshed(width, states[k], ops[k].pid).cache)
    ensures Explained(width, states, ops, k + 1, ops[k].pid, key, Get(ViewOf(states[k + 1], ops[k].pid).cache, key))
  {
    var records := states[k].disk.records;
    var found := Get(ViewOf(states[k + 1], ops[k].pid).cache, key);
    LastForAppend(records, r, key);
    if key != KeyOf(r) {
      assert found == Get(Refreshed(width, states[k], ops[k].pid).cache, key);
      assert Explained(width, states, ops, k, ops[k].pid, key, found);
      StillExplained(width, states, ops, k, ops[k].pid, key, found);
    } else if !TakesEffect(records, r) {
      assert LeftBy(width, states, ops, k, k + 1, ops[k].pid, key, found);
    }
  }

  lemma OwnStep(width: TrustRecord -> nat, states: seq<System>, ops: seq<Op>, k: nat)
    requires k < |ops| && |states| == |ops| + 1 && Follows(width, states, ops, k)
    requires !ops[k].Foreign? && ViewInv(width, states, ops, k, ops[k].pid)
    ensures ViewInv(width, states, ops, k + 1, ops[k].pid)
  {
    var pid, p := ops[k].pid, Pending(width, states[k], ops[k]);
    RefreshExplained(width, states, ops, k, pid);
    if p.Some? { PendingCounts(width, states, ops, k); }
    var cache := ViewOf(states[k + 1], pid).cache;
    forall key ensures Explained(width, states, ops, k + 1, pid, key, Get(cache, key)) {
      if p.Some? {
        WriteExplained(width, states, ops, k, p.value, key);
      } else {
        assert Explained(width, states, ops, k, pid, key, Get(cache, key));
        StillExplained(width, states, ops, k, pid, key, Get(cache, key));
      }
    }
  }

  lemma NextExtends(width: TrustRecord -> nat, s: System, op: Op)
    ensures s.disk.records <= Next(width, s, op).disk.records
  {}

  lemma OtherStep(width: TrustRecord -> nat, states: seq<System>, ops: seq<Op>, k: nat, pid: nat)
    requires k < |ops| && |states| == |ops| + 1 && Follows(width, states, ops, k)
    requires (ops[k].Foreign? || ops[k].pid != pid) && ViewInv(width, states, ops, k, pid)
    ensures ViewInv(width, states, ops, k + 1, pid)
  {
    var v, before, after := ViewOf(states[k], pid), states[k].disk.records, states[k + 1].disk.records;
    assert ViewOf(states[k + 1], pid) == v;
    NextExtends(width, states[k], ops[k]);
    LongerIsLarger(width, before, after);
    if v.token.Some? && v.token.value.0 == Size(width, after) {
      forall key ensures Explained(width, states, ops, k + 1, pid, key, Get(v.cache, key)) {
        assert Explained(width, states, ops, k, pid, key, Get(v.cache, key));
        StillExplained(width, states, ops, k, pid, key, Get(v.cache, key));
      }
    }
  }

  lemma StepExplained(width: TrustRecord -> nat, states: seq<System>, ops: seq<Op>, k: nat, pid: nat)
    requires k < |ops| && |states| == |ops| + 1 && Follows(width, states, ops, k)
    requires ViewInv(width, states, ops, k, pid)
    ensures ViewInv(width, states, ops, k + 1, pid)
  {
    if ops[k].Foreign? || ops[k].pid != pid { OtherStep(width, states, ops, k, pid); } else
        { OwnStep(width, states, ops, k); }
  }

  lemma StartExplained(width: TrustRecord -> nat, states: seq<System>, ops: seq<Op>, pid: nat)
    requires |states| == |ops| + 1 && states[0].views == map[]
    ensures ViewInv(width, states, ops, 0, pid)
  {}

  lemma RunExplained(width: TrustRecord -> nat, states: seq<System>, ops: seq<Op>, k: nat, pid: nat)
    requires Run(width, states, ops) && k < |states|
    ensures ViewInv(width, states, ops, k, pid)
  {
    StartExplained(width, states, ops, pid);
    for i := 0 to k
      invariant ViewInv(width, states, ops, i, pid)
    {
      assert Follows(width, states, ops, i);
      StepExplained(width, states, ops, i, pid);
    }
  }

  function Found(width: TrustRecord -> nat, states: seq<System>, k: nat, pid: nat, key: Key): Option<TrustRecord>
    requires k < |states|
  { Get(Refreshed(width, states[k], pid).cache, key) }

  /** In every run of any number of processes and foreign appends, with no condition at all: a lookup
      differs from the last record of a full scan if and only if the process itself earlier wrote that
      key, the ledger dropped the write, the key's last record has not changed since, and the dropped
      record is what the lookup returns. */
  lemma LookupDiffersIff(width: TrustRecord -> nat, states: seq<System>, ops: seq<Op>, k: nat, pid: nat, key: Key)
    requires Run(width, states, ops) && k < |states|
    ensures var found := Found(width, states, k, pid, key);
      found != ScanAt(states, k, key) <==> exists j: nat :: LeftBy(width, states, ops, j, k, pid, key, found)
  {
    RunExplained(width, states, ops, k, pid);
    RefreshExplained(width, states, ops, k, pid);
    assert Explained(width, states, ops, k, pid, key, Found(width, states, k, pid, key));
  }

  /** So a process that lost no write of a key sees the full scan of it, and authorises by it. */
  lemma LookupIsFullScan(width: TrustRecord -> nat, states: seq<System>, ops: seq<Op>, k: nat, pid: nat, key: Key,
        fingerprint: string)
    requires Run(width, states, ops) && k < |states|
    requires forall j :: 0 <= j < k ==> !Lost(width, states, ops, j, pid, key)
    ensures var found, scanned := Found(width, states, k, pid, key), ScanAt(states, k, key);
      && found == scanned
      && (Authorized(found, fingerprint).Ok? <==>
            scanned.Some? && scanned.value.active && scanned.value.fingerprint == fingerprint)
  {
    LookupDiffersIff(width, states, ops, k, pid, key);
  }

  // ---- Every run: when is an active identity rebound? ---------------------------------------

  /** The enrolment guard, evaluated on a full scan; other records pass. */
  predicate Respects(records: seq<TrustRecord>, r: TrustRecord) {
    Counts(r) && r.event.Enrolled? ==>
      var before := LastFor(records, KeyOf(r));
      before.Some? && before.value.active ==> before.value.fingerprint == r.fingerprint
  }

  /** The last active record of an identity is only ever followed by one with the same fingerprint or
      by a revocation. */
  ghost predicate NeverRebound(records: seq<TrustRecord>) {
    forall n :: 0 <= n < |records| ==> Respects(records[..n], records[n])
  }

  /** Exact condition for one append. */
  lemma AppendKeepsBindingIff(records: seq<TrustRecord>, r: TrustRecord)
    ensures NeverRebound(records + [r]) <==> NeverRebound(records) && Respects(records, r)
  {
    var more := records + [r];
    forall n | 0 <= n < |more| ensures more[..n] == if n < |records| then records[..n] else records {}
    if NeverRebound(more) {
      assert more[..|records|] == records && more[|records|] == r;
      forall n | 0 <= n < |records| ensures Respects(records[..n], records[n]) { assert Respects(more[..n], more[n]); }
    }
  }

  /** The record a step appends, if it appends one. */
  function Appended(width: TrustRecord -> nat, s: System, op: Op): Option<TrustRecord> {
    var p := if op.Foreign? then Some(op.record) else Pending(width, s, op);
    if p.Some? && p.value !in s.disk.records then p else None
  }

  lemma AppendedIs(width: TrustRecord -> nat, s: System, op: Op)
    ensures Next(width, s, op).disk.records ==
        s.disk.records + (if Appended(width, s, op).Some? then [Appended(width, s, op).value] else [])
  {
    assert s.disk.records == s.disk.records + [];
  }

  /** The step appends an enrolment of an identity that the ledger holds active under another
      fingerprint. */
  ghost predicate Rebinds(width: TrustRecord -> nat, s: System, op: Op) {
    var r := Appended(width, s, op);
    r.Some? && !Respects(s.disk.records, r.value)
  }

  lemma StepKeepsBindingIff(width: TrustRecord -> nat, s: System, op: Op)
    ensures NeverRebound(Next(width, s, op).disk.records) <==> NeverRebound(s.disk.records) && !Rebinds(width, s, op)
  {
    AppendedIs(width, s, op);
    if Appended(width, s, op).Some? {
      AppendKeepsBindingIff(s.disk.records, Appended(width, s, op).value);
    } else {
      assert s.disk.records + [] == s.disk.records;
    }
  }

  ghost predicate RebindsAt(width: TrustRecord -> nat, states: seq<System>, ops: seq<Op>, i: nat)
    requires i < |ops| && |states| == |ops| + 1
  { Rebinds(width, states[i], ops[i]) }

  ghost predicate NoneRebinds(width: TrustRecord -> nat, states: seq<System>, ops: seq<Op>, k: nat)
    requires k <= |ops| && |states| == |ops| + 1
  { forall i :: 0 <= i < k ==> !RebindsAt(width, states, ops, i) }

  lemma RebindsStep(width: TrustRecord -> nat, states: seq<System>, ops: seq<Op>, n: nat)
    requires n < |ops| && |states| == |ops| + 1 && Follows(width, states, ops, n)
    ensures NoneRebinds(width, states, ops, n + 1) <==>
      NoneRebinds(width, states, ops, n) && !RebindsAt(width, states, ops, n)
    ensures NeverRebound(states[n + 1].disk.records) <==>
      NeverRebound(states[n].disk.records) && !RebindsAt(width, states, ops, n)
  {
    StepKeepsBindingIff(width, states[n], ops[n]);
  }

  /** Exactly: in every run the ledger never rebinds an active identity if and only if it had not
      before and no step's append fails the guard on a full scan. */
  lemma NeverReboundIff(width: TrustRecord -> nat, states: seq<System>, ops: seq<Op>, k: nat)
    requires Run(width, states, ops) && k < |states|
    ensures NeverRebound(states[k].disk.records) <==>
      NeverRebound(states[0].disk.records) && NoneRebinds(width, states, ops, k)
  {
    for n := 0 to k
      invariant NeverRebound(states[n].disk.records) <==>
        NeverRebound(states[0].disk.records) && NoneRebinds(width, states, ops, n)
    {
      assert Follows(width, states, ops, n);
      RebindsStep(width, states, ops, n);
    }
  }

  /** Step `j < k` is a lost revocation of the key by this process; the key's last record has not
      changed since. */
  ghost predicate LostRevoke(width: TrustRecord -> nat, states: seq<System>, ops: seq<Op>, j: nat, k: nat, pid: nat,
        key: Key)
    requires k < |states| == |ops| + 1
  {
    j < k && Lost(width, states, ops, j, pid, key) && ops[j].Revoke? && ScanAt(states, j, key) == ScanAt(states, k, key)
  }

  /** In every run, with no condition: an enrolment passes while the ledger holds the identity active
      under another fingerprint only if the same process called `revoke` on it before, and that
      revocation was lost. So an active fingerprint never changes without an intervening `revoke` call. */
  lemma {:induction false} RebindingFollowsARevoke(width: TrustRecord -> nat, states: seq<System>, ops: seq<Op>, k: nat)
    requires Run(width, states, ops) && k < |ops| && ops[k].Enroll? && Pending(width, states[k], ops[k]).Some?
    requires !Respects(states[k].disk.records, Pending(width, states[k], ops[k]).value)
    ensures exists j: nat :: LostRevoke(width, states, ops, j, k, ops[k].pid,
        KeyOf(Pending(width, states[k], ops[k]).value))
  {
    var pid, r := ops[k].pid, Pending(width, states[k], ops[k]).value;
    var key := KeyOf(r);
    LookupDiffersIff(width, states, ops, k, pid, key);
    var j: nat :| LeftBy(width, states, ops, j, k, pid, key, Found(width, states, k, pid, key));
    if ops[j].Revoke? {
      assert LostRevoke(width, states, ops, j, k, pid, key);
    } else {
      RebindingFollowsARevoke(width, states, ops, j);
      var i: nat :| LostRevoke(width, states, ops, i, j, pid, key);
      assert LostRevoke(width, states, ops, i, k, pid, key);
    }
  }

  ghost predicate OwnOps(ops: seq<Op>) { forall i :: 0 <= i < |ops| ==> !ops[i].Foreign? }

  /** When every record comes through `enroll` and `revoke` and no revocation was lost, an active
      fingerprint never changes without a revocation in the ledger. */
  lemma FingerprintIsStable(width: TrustRecord -> nat, states: seq<System>, ops: seq<Op>, k: nat)
    requires Run(width, states, ops) && OwnOps(ops) && k < |states| && NeverRebound(states[0].disk.records)
    requires forall j, pid, key :: 0 <= j < k && ops[j].Revoke? ==> !Lost(width, states, ops, j, pid, key)
    ensures NeverRebound(states[k].disk.records)
  {
    NeverReboundIff(width, states, ops, k);
    forall i | 0 <= i < k ensures !RebindsAt(width, states, ops, i) {
      if RebindsAt(width, states, ops, i) {
        EnrolmentsRebind(width, states[i], ops[i]);
        RebindingFollowsARevoke(width, states, ops, i);
      }
    }
  }

  lemma EnrolmentsRebind(width: TrustRecord -> nat, s: System, op: Op)
    requires !op.Foreign? && Rebinds(width, s, op)
    ensures op.Enroll? && Pending(width, s, op).Some? && !Respects(s.disk.records, Pending(width, s, op).value)
  {}

  // ---- What happens when an append does not take effect ------------------------------------

  /** After a write the writer's view is its old cache with the record on top. */
  lemma AfterStore(width: TrustRecord -> nat, s: System, op: Op, r: TrustRecord)
    requires (op.Enroll? || op.Revoke?) && Pending(width, s, op) == Some(r)
    ensures Next(width, s, op).disk == Write(s.disk, r, op.mtime)
    ensures Refreshed(width, Next(width, s, op), op.pid).cache == Refreshed(width, s, op.pid).cache[KeyOf(r) := r]
  {
    StoredViewStays(width, s.disk, Refreshed(width, s, op.pid), r, op.mtime);
  }

  lemma StoredViewStays(width: TrustRecord -> nat, disk: Disk, v: View, r: TrustRecord, mtime: int)
    ensures var (after, kept) := Store(width, disk, v, r, mtime); Refresh(width, after, kept) == kept
  {}

  lemma NewcomerScans(width: TrustRecord -> nat, s: System, pid: nat, key: Key)
    requires pid !in s.views
    ensures Get(Refreshed(width, s, pid).cache, key) == LastFor(s.disk.records, key)
  {
    ScanProjects(s.disk.records);
  }

  /** A revocation is lost whenever the ledger already holds the same revocation from an
      earlier rotation: the writer believes the identity revoked, the ledger and every
      other process still hold it active. */
  lemma RepeatedRevocationIsLost(width: TrustRecord -> nat, s: System, pid: nat, key: Key, reason: string, mtime: int,
        newcomer: nat)
    requires Get(Refreshed(width, s, pid).cache, key) == LastFor(s.disk.records, key) && newcomer !in s.views
        && newcomer != pid
    requires var last := LastFor(s.disk.records, key);
      last.Some? && last.value.active && Revocation(key, last.value.fingerprint, reason) in s.disk.records
    ensures var s' := Next(width, s, Revoke(pid, key, reason, mtime));
      var fp := LastFor(s.disk.records, key).value.fingerprint;
      && s'.disk == s.disk
      && Authorized(Get(Refreshed(width, s', pid).cache, key), fp).Err?
      && Authorized(Get(Refreshed(width, s', newcomer).cache, key), fp).Ok?
  {
    var r := Revocation(key, LastFor(s.disk.records, key).value.fingerprint, reason);
    AfterStore(width, s, Revoke(pid, key, reason, mtime), r);
    NewcomerScans(width, Next(width, s, Revoke(pid, key, reason, mtime)), newcomer, key);
  }

  /** Enrolled, revoked and enrolled again under the same fingerprint: a second identical revocation is
      lost, and the writer can then rebind the identity that is still active. */
  lemma LostRevocationAllowsRebinding(width: TrustRecord -> nat, key: Key, fp: string, other: string, a: string,
        b: string, reason: string)
    requires Acceptable(key.0, key.1, fp) && Acceptable(key.0, key.1, other) && fp != other
    ensures var e1, e2 := Enrolment(key.0, key.1, fp, a), Enrolment(key.0, key.1, fp, b);
      var s0 := System(Disk([e1, Revocation(key, fp, reason), e2], 0), map[]);
      var s1 := Next(width, s0, Revoke(1, key, reason, 1));
      var s2 := Next(width, s1, Enroll(1, key.0, key.1, other, a, 2));
      NeverRebound(s0.disk.records) && !NeverRebound(s2.disk.records)
  {
    var e1, e2, e3 := Enrolment(key.0, key.1, fp, a), Enrolment(key.0, key.1, fp, b), Enrolment(key.0, key.1, other, a);
    var s0 := System(Disk([e1, Revocation(key, fp, reason), e2], 0), map[]);
    ThreeRecords(e1, Revocation(key, fp, reason), e2);
    NewcomerScans(width, s0, 1, key);
    AfterStore(width, s0, Revoke(1, key, reason, 1), Revocation(key, fp, reason));
    EnrolsWhenSeenRevoked(width, Next(width, s0, Revoke(1, key, reason, 1)), 1, key, other, a, 2);
    AppendKeepsBindingIff(s0.disk.records, e3);
  }

  /** An enrolment goes through when the process sees the identity revoked, whatever the ledger says. */
  lemma EnrolsWhenSeenRevoked(width: TrustRecord -> nat, s: System, pid: nat, key: Key, fingerprint: string,
        metadata: string, mtime: int)
    requires Acceptable(key.0, key.1, fingerprint) && Enrolment(key.0, key.1, fingerprint, metadata) !in s.disk.records
    requires var found := Get(Refreshed(width, s, pid).cache, key); found.Some? && !found.value.active
    ensures Next(width, s, Enroll(pid, key.0, key.1, fingerprint, metadata, mtime)).disk.records ==
      s.disk.records + [Enrolment(key.0, key.1, fingerprint, metadata)]
  {}

  /** Enrolled, revoked, enrolled again: nothing is rebound. */
  lemma ThreeRecords(a: TrustRecord, b: TrustRecord, c: TrustRecord)
    requires Counts(a) && Counts(b) && Counts(c) && KeyOf(a) == KeyOf(b) == KeyOf(c) && !b.event.Enrolled? && !b.active
    ensures NeverRebound([a, b, c]) && LastFor([a, b, c], KeyOf(c)) == Some(c)
  {
    assert [] + [a] == [a] && [a] + [b] == [a, b] && [a, b] + [c] == [a, b, c];
    AppendKeepsBindingIff([], a);
    AppendKeepsBindingIff([a], b);
    AppendKeepsBindingIff([a, b], c);
    LastForAppend([a], b, KeyOf(c));
    LastForAppend([a, b], c, KeyOf(c));
  }
}
