/** Resumable bundle transfer and the content-addressed cache (`BundleCache` in
    src/mncs_fabric/bundle_transfer.py) with its service client (`_upload_service_bundle` in
    src/mncs_fabric/api.py). Requests are serialised by the service lock, so each is one step;
    a torn step is a crash between the part-file append and the metadata rewrite. */
module BundleTransfer {
  import opened Orders
  import opened Ledger
  import opened Gc

  const MAX_ARCHIVE_BYTES := 64 * 1024 * 1024
  const MAX_CHUNK_BYTES := 64 * 1024
  const MAX_CHUNKS := 2048
  const MAX_IN_PROGRESS := 4

  datatype EntryInfo = EntryInfo(path: string, id: Digest, size: nat)
  datatype Report = Report(bundle: Digest, entries: seq<EntryInfo>)

  /** The archive verifier, member extraction, the hash, the size of a metadata file and the budget. */
  datatype Env = Env(
    sha: Data -> Digest, report: Data -> Option<Report>, extract: (Data, string) -> Data, metadataBytes: nat -> nat,
        max: nat)

  datatype Offer = Offer(transfer: string, bundle: Digest, archiveId: Digest, total: int, chunkBytes: int,
        chunkCount: int)

  /** `state.json` and `archive.part`. */
  datatype Transfer = Transfer(
    bundle: Digest, archiveId: Digest, total: int, chunkBytes: int, chunkCount: int, next: int, received: int,
        part: Data)

  /** `leftovers`: bytes of publications that were interrupted. */
  datatype Cache = Cache(published: Published, staging: map<string, Transfer>, leftovers: nat)

  const EMPTY := Cache(map[], map[], 0)

  function CountOf(total: int, chunkBytes: int): int requires chunkBytes > 0 { (total + chunkBytes - 1) / chunkBytes }

  predicate GoodOffer(o: Offer) {
    && o.transfer != "" && 1 <= o.total <= MAX_ARCHIVE_BYTES && 1 <= o.chunkBytes <= MAX_CHUNK_BYTES
    && 1 <= o.chunkCount <= MAX_CHUNKS && o.chunkCount == CountOf(o.total, o.chunkBytes)
  }

  // ---- Published targets -------------------------------------------------------------------------

  predicate Lists(entries: seq<EntryInfo>, path: string) { exists i :: 0 <= i < |entries| && entries[i].path == path }

  predicate FileMatches(env: Env, f: File, e: EntryInfo) { |f.data| == e.size && env.sha(f.data) == e.id }

  /** There is a file at the entry's path, and what is there matches the entry. */
  predicate Stored(env: Env, content: seq<File>, e: EntryInfo) {
    && (exists i :: 0 <= i < |content| && content[i].path == e.path)
    && forall i :: 0 <= i < |content| && content[i].path == e.path ==> FileMatches(env, content[i], e)
  }

  /** The extracted files are exactly the manifest's entries. */
  predicate ContentMatches(env: Env, entries: seq<EntryInfo>, content: seq<File>) {
    && (forall i :: 0 <= i < |content| ==> Lists(entries, content[i].path))
    && (forall i :: 0 <= i < |entries| ==> Stored(env, content, entries[i]))
  }

  predicate ArchiveVerifies(env: Env, archive: Data, bundle: Digest, archiveId: Digest) {
    env.sha(archive) == archiveId && env.report(archive).Some? && env.report(archive).value.bundle == bundle
  }

  predicate Genuine(env: Env, t: Target, bundle: Digest, archiveId: Digest) {
    && t.bundle == Some(bundle) && t.archiveId == archiveId
    && ArchiveVerifies(env, t.archive, bundle, archiveId)
    && ContentMatches(env, env.report(t.archive).value.entries, t.content)
  }

  datatype Health = Absent | Healthy | Conflict | Broken

  /** `_healthy_published_target`, before it discards anything. */
  function HealthOf(env: Env, p: Published, bundle: Digest, archiveId: Digest): Health {
    if bundle !in p then Absent
    else if p[bundle].bundle != Some(bundle) then Broken
    else if p[bundle].archiveId != archiveId then Conflict
    else if Genuine(env, p[bundle], bundle, archiveId) then Healthy
    else Broken
  }

  function Repaired(env: Env, p: Published, bundle: Digest, archiveId: Digest): Published {
    if HealthOf(env, p, bundle, archiveId).Broken? then p - {bundle} else p
  }

  // ---- Requests ------------------------------------------------------------------------------------

  datatype Reply =
    | AlreadyPresent | Required(next: int, received: int) | Accepted | Committed | Mismatch | Full | Refused | NoReply

  function BeginIn(env: Env, c: Cache, o: Offer): (Cache, Reply) {
    if !GoodOffer(o) then (c, Refused)
    else
      var health := HealthOf(env, c.published, o.bundle, o.archiveId);
      var repaired := c.(published := Repaired(env, c.published, o.bundle, o.archiveId));
      if health.Conflict? then (c, Refused)
      else if health.Healthy? then (c, AlreadyPresent)
      else if |c.staging| >= MAX_IN_PROGRESS then (repaired, Refused)
      else if o.transfer in c.staging then
        var t := c.staging[o.transfer];
        (repaired, if t.archiveId == o.archiveId && t.bundle == o.bundle then Required(t.next, t.received) else Refused)
      else
        var t := Transfer(o.bundle, o.archiveId, o.total, o.chunkBytes, o.chunkCount, 0, 0, []);
        (repaired.(staging := c.staging[o.transfer := t]), Required(0, 0))
  }

  predicate Bound(c: Cache, transfer: string, bundle: Digest, archiveId: Digest) {
    transfer in c.staging && c.staging[transfer].bundle == bundle && c.staging[transfer].archiveId == archiveId
  }

  predicate Fits(t: Transfer, sequence: int, data: Data) {
    sequence == t.next && 0 < |data| <= t.chunkBytes && t.received + |data| <= t.total
  }

  function ChunkIn(c: Cache, transfer: string, bundle: Digest, archiveId: Digest, sequence: int, data: Data,
        torn: bool): (Cache, Reply) {
    if !Bound(c, transfer, bundle, archiveId) || !Fits(c.staging[transfer], sequence, data) then (c, Refused)
    else
      var t := c.staging[transfer];
      if torn then (c.(staging := c.staging[transfer := t.(part := t.part + data)]), NoReply)
      else
        (c.(staging := c.staging[transfer := t.(part := t.part + data, next := t.next + 1,
            received := t.received + |data|)]), Accepted)
  }

  predicate Complete(t: Transfer) { t.received == t.total && t.next == t.chunkCount }

  function ExtractAll(env: Env, archive: Data, entries: seq<EntryInfo>): (r: seq<File>)
    ensures |r| == |entries| && forall i :: 0 <= i < |r| ==>
      r[i] == File(entries[i].path, env.extract(archive, entries[i].path))
  { seq(|entries|, i requires 0 <= i < |entries| => File(entries[i].path, env.extract(archive, entries[i].path))) }

  function NewTarget(env: Env, archive: Data, bundle: Digest, archiveId: Digest, now: int): Target {
    var content := if env.report(archive).Some? then ExtractAll(env, archive, env.report(archive).value.entries)
        else [];
    Target(Some(bundle), archiveId, archive, content, env.metadataBytes(ContentBytes(content)), now)
  }

  /** Make room for an archive, as `commit` does before it publishes. */
  function MakeRoom(env: Env, p: Published, leftovers: nat, size: nat, bundle: Digest): Published {
    if CacheBytes(p) + leftovers + size > env.max
        then CollectFrom(p, leftovers, env.max, size, {}, {bundle}).sweep.left else p
  }

  datatype Interruption = None_ | DuringPublication(wasted: nat) | BeforeCleanup

  function PublishIn(env: Env, c: Cache, transfer: string, t: Transfer, now: int, crash: Interruption): (Cache, Reply) {
    var room := c.(published := MakeRoom(env, c.published, c.leftovers, |t.part|, t.bundle));
    if CacheBytes(room.published) + c.leftovers + |t.part| > env.max then (room, Full)
    else if crash.DuringPublication? then (room.(leftovers := c.leftovers + crash.wasted), NoReply)
    else
      var done := room.(published := room.published[t.bundle := NewTarget(env, t.part, t.bundle, t.archiveId, now)]);
      if crash.BeforeCleanup? then (done, NoReply) else (done.(staging := c.staging - {transfer}), Committed)
  }

  function CommitIn(env: Env, c: Cache, transfer: string, bundle: Digest, archiveId: Digest, now: int,
        crash: Interruption): (Cache, Reply) {
    if !Bound(c, transfer, bundle, archiveId) || !Complete(c.staging[transfer]) then (c, Refused)
    else if !ArchiveVerifies(env, c.staging[transfer].part, bundle, archiveId) then (c, Mismatch)
    else
      var t := c.staging[transfer];
      var health := HealthOf(env, c.published, bundle, archiveId);
      if health.Conflict? then (c, Refused)
      else if health.Healthy? then (c.(staging := c.staging - {transfer}), AlreadyPresent)
      else PublishIn(env, c.(published := Repaired(env, c.published, bundle, archiveId)), transfer, t, now, crash)
  }

  /** `root_for`: the content of a target that verifies. */
  function RootIn(env: Env, p: Published, bundle: Digest, archiveId: Digest): Option<seq<File>> {
    if bundle in p && Genuine(env, p[bundle], bundle, archiveId) then Some(p[bundle].content) else None
  }

  class BundleCache {
    const env: Env
    var published: Published
    var staging: map<string, Transfer>
    var leftovers: nat

    constructor (env: Env)
      ensures this.env == env && Contents() == EMPTY
    {
      this.env := env;
      published, staging, leftovers := map[], map[], 0;
    }

    function Contents(): Cache reads this { Cache(published, staging, leftovers) }

    /** `_verify_published_target` on the extracted files. */
    method ContentVerifies(entries: seq<EntryInfo>, content: seq<File>) returns (ok: bool)
      ensures ok == ContentMatches(env, entries, content)
    {
      for i := 0 to |content|
        invariant forall j :: 0 <= j < i ==> Lists(entries, content[j].path)
      {
        if !Lists(entries, content[i].path) { return false; }
      }
      for i := 0 to |entries|
        invariant forall j :: 0 <= j < i ==> Stored(env, content, entries[j])
      {
        var found := false;
        for k := 0 to |content|
          invariant found <==> exists j :: 0 <= j < k && content[j].path == entries[i].path
          invariant forall j :: 0 <= j < k && content[j].path == entries[i].path ==>
            FileMatches(env, content[j], entries[i])
        {
          if content[k].path == entries[i].path {
            if !FileMatches(env, content[k], entries[i]) { return false; }
            found := true;
          }
        }
        if !found { return false; }
      }
      return true;
    }

    method CheckTarget(bundle: Digest, archiveId: Digest) returns (health: Health)
      modifies this`published
      ensures health == HealthOf(env, old(published), bundle, archiveId)
      ensures published == Repaired(env, old(published), bundle, archiveId)
    {
      if bundle !in published { return Absent; }
      var t := published[bundle];
      if t.bundle == Some(bundle) && t.archiveId != archiveId { return Conflict; }
      var ok := t.bundle == Some(bundle) && ArchiveVerifies(env, t.archive, bundle, archiveId);
      if ok { ok := ContentVerifies(env.report(t.archive).value.entries, t.content); }
      if ok { return Healthy; }
      published := published - {bundle};
      return Broken;
    }

    /** `begin`, with the progress the service adds to its answer. */
    method Begin(o: Offer) returns (reply: Reply)
      modifies this
      ensures (Contents(), reply) == BeginIn(env, old(Contents()), o)
    {
      if !GoodOffer(o) { return Refused; }
      var health := CheckTarget(o.bundle, o.archiveId);
      if health.Conflict? { return Refused; }
      if health.Healthy? { return AlreadyPresent; }
      if |staging| >= MAX_IN_PROGRESS { return Refused; }
      if o.transfer in staging {
        var t := staging[o.transfer];
        if t.archiveId != o.archiveId || t.bundle != o.bundle { return Refused; }
        return Required(t.next, t.received);
      }
      staging := staging[o.transfer := Transfer(o.bundle, o.archiveId, o.total, o.chunkBytes, o.chunkCount, 0, 0, [])];
      return Required(0, 0);
    }

    method Chunk(transfer: string, bundle: Digest, archiveId: Digest, sequence: int, data: Data, torn: bool)
          returns (reply: Reply)
      modifies this
      ensures (Contents(), reply) == ChunkIn(old(Contents()), transfer, bundle, archiveId, sequence, data, torn)
    {
      if transfer !in staging { return Refused; }
      var metadata := staging[transfer];
      if metadata.bundle != bundle || metadata.archiveId != archiveId { return Refused; }
      if sequence != metadata.next || !(0 < |data| <= metadata.chunkBytes) { return Refused; }
      if metadata.received + |data| > metadata.total { return Refused; }
      staging := staging[transfer := metadata.(part := metadata.part + data)];
      if torn { return NoReply; }
      staging := staging[transfer := staging[transfer].(next := metadata.next + 1,
          received := metadata.received + |data|)];
      assert staging == old(staging)[transfer := staging[transfer]];
      return Accepted;
    }

    /** `gc` on the published directories. */
    method Collect(dryRun: bool, confirm: bool, needed: int, pinned: set<Digest>, inUse: set<Digest>)
        returns (outcome: Outcome, evicted: seq<Digest>, freed: nat)
      modifies this`published
      ensures dryRun || !confirm ==> outcome == DryRun && published == old(published) && evicted == []
      ensures !dryRun && confirm ==>
        CollectFrom(old(published), leftovers, env.max, needed, pinned, inUse) ==
            Collection(Sweep(published, evicted, freed), outcome)
    {
      evicted, freed := [], 0;
      if dryRun || !confirm { return DryRun, evicted, freed; }
      var goal := Goal(CacheBytes(published), env.max, needed);
      var candidates := Candidates(published, pinned, inUse);
      ghost var start := Sweep(published, [], 0);
      ghost var whole := candidates;
      while |candidates| > 0 && !Enough(published, leftovers, env.max, needed, goal, freed)
        invariant SweepFrom(start, whole, leftovers, env.max, needed, goal) ==
          SweepFrom(Sweep(published, evicted, freed), candidates, leftovers, env.max, needed, goal)
        decreases |candidates|
      {
        var item := candidates[0];
        if item.identity in published {
          published := published - {item.identity};
          evicted := evicted + [item.identity];
          freed := freed + item.bytes;
        }
        candidates := candidates[1..];
      }
      outcome := if needed != 0 && CacheBytes(published) + leftovers + needed > env.max then Failed else Collected;
    }

    method Publish(transfer: string, now: int, crash: Interruption) returns (reply: Reply)
      requires transfer in staging
      modifies this
      ensures (Contents(), reply) == PublishIn(env, old(Contents()), transfer, old(staging[transfer]), now, crash)
    {
      var t := staging[transfer];
      if CacheBytes(published) + leftovers + |t.part| > env.max {
        var _, _, _ := Collect(false, true, |t.part|, {}, {t.bundle});
      }
      if CacheBytes(published) + leftovers + |t.part| > env.max { return Full; }
      if crash.DuringPublication? {
        leftovers := leftovers + crash.wasted;
        return NoReply;
      }
      published := published[t.bundle := NewTarget(env, t.part, t.bundle, t.archiveId, now)];
      if crash.BeforeCleanup? { return NoReply; }
      staging := staging - {transfer};
      return Committed;
    }

    method Commit(transfer: string, bundle: Digest, archiveId: Digest, now: int, crash: Interruption)
          returns (reply: Reply)
      modifies this
      ensures (Contents(), reply) == CommitIn(env, old(Contents()), transfer, bundle, archiveId, now, crash)
    {
      if transfer !in staging { return Refused; }
      var t := staging[transfer];
      if t.bundle != bundle || t.archiveId != archiveId { return Refused; }
      if t.received != t.total || t.next != t.chunkCount { return Refused; }
      if !ArchiveVerifies(env, t.part, bundle, archiveId) { return Mismatch; }
      var health := CheckTarget(bundle, archiveId);
      if health.Conflict? { return Refused; }
      if health.Healthy? {
        staging := staging - {transfer};
        return AlreadyPresent;
      }
      reply := Publish(transfer, now, crash);
    }

    method RootFor(bundle: Digest, archiveId: Digest) returns (root: Option<seq<File>>)
      ensures root == RootIn(env, published, bundle, archiveId)
    {
      if bundle !in published { return None; }
      var t := published[bundle];
      if t.bundle != Some(bundle) || t.archiveId != archiveId || !ArchiveVerifies(env, t.archive, bundle, archiveId)
          { return None; }
      var ok := ContentVerifies(env.report(t.archive).value.entries, t.content);
      return if ok then Some(t.content) else None;
    }
  }
}
