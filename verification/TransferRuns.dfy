/** What holds in every run of the bundle transfer service, for well-behaved and misbehaving
    clients alike. */
module TransferRuns {
  import opened Orders
  import opened Ledger
  import opened Gc
  import opened BundleTransfer

  datatype Request =
    | BeginRequest(offer: Offer)
    | ChunkRequest(transfer: string, bundle: Digest, archiveId: Digest, sequence: int, data: Data, torn: bool)
    | CommitRequest(transfer: string, bundle: Digest, archiveId: Digest, now: int, crash: Interruption)
    | CollectRequest(needed: int, pinned: set<Digest>, inUse: set<Digest>)

  function Handle(env: Env, c: Cache, r: Request): (Cache, Reply) {
    match r
    case BeginRequest(o) => BeginIn(env, c, o)
    case ChunkRequest(transfer, bundle, archiveId, sequence, data, torn) =>
      ChunkIn(c, transfer, bundle, archiveId, sequence, data, torn)
    case CommitRequest(transfer, bundle, archiveId, now, crash) =>
      CommitIn(env, c, transfer, bundle, archiveId, now, crash)
    case CollectRequest(needed, pinned, inUse) =>
      (c.(published := CollectFrom(c.published, c.leftovers, env.max, needed, pinned, inUse).sweep.left), NoReply)
  }

  function Run(env: Env, c: Cache, requests: seq<Request>): Cache
    decreases |requests|
  {
    if |requests| == 0 then c else Handle(env, Run(env, c, requests[..|requests| - 1]), requests[|requests| - 1]).0
  }

  /** What the archive verifier guarantees: every declared entry extracts to data of the declared
      size and hash. */
  ghost predicate Faithful(env: Env) {
    forall a, i :: env.report(a).Some? && 0 <= i < |env.report(a).value.entries| ==>
      Extracts(env, a, env.report(a).value.entries[i])
  }

  predicate Extracts(env: Env, archive: Data, e: EntryInfo) {
    |env.extract(archive, e.path)| == e.size && env.sha(env.extract(archive, e.path)) == e.id
  }

  // ---- What is handed out -------------------------------------------------------------------------

  /** In any state whatever, tampered or not: a bundle reported as present, or whose root is handed
      out, has archive bytes of the requested identity and, hashes being collision free, files equal
      to the archive's own entries and no others. */
  lemma HandedOutIsGenuine(env: Env, c: Cache, o: Offer)
    requires Faithful(env) && Injective(env.sha)
    requires BeginIn(env, c, o).1 == AlreadyPresent || RootIn(env, c.published, o.bundle, o.archiveId).Some?
    ensures o.bundle in c.published
    ensures var t := c.published[o.bundle];
      && env.sha(t.archive) == o.archiveId
      && env.report(t.archive).Some? && env.report(t.archive).value.bundle == o.bundle
      && (forall f :: f in t.content ==>
           Lists(env.report(t.archive).value.entries, f.path) && f.data == env.extract(t.archive, f.path))
      && (forall e :: e in env.report(t.archive).value.entries ==>
           File(e.path, env.extract(t.archive, e.path)) in t.content)
  {
    var t := c.published[o.bundle];
    var entries := env.report(t.archive).value.entries;
    forall f | f in t.content ensures Lists(entries, f.path) && f.data == env.extract(t.archive, f.path) {
      var i :| 0 <= i < |t.content| && t.content[i] == f;
      assert Lists(entries, t.content[i].path);
      var k :| 0 <= k < |entries| && entries[k].path == f.path;
      StoredIsExtracted(env, t, k, i);
    }
    forall e | e in entries ensures File(e.path, env.extract(t.archive, e.path)) in t.content {
      var k :| 0 <= k < |entries| && entries[k] == e;
      assert Stored(env, t.content, entries[k]);
      var i :| 0 <= i < |t.content| && t.content[i].path == e.path;
      StoredIsExtracted(env, t, k, i);
      assert t.content[i] == File(e.path, env.extract(t.archive, e.path));
    }
  }

  lemma StoredIsExtracted(env: Env, t: Target, k: nat, i: nat)
    requires Faithful(env) && Injective(env.sha) && env.report(t.archive).Some?
        && k < |env.report(t.archive).value.entries|
    requires Stored(env, t.content, env.report(t.archive).value.entries[k])
    requires i < |t.content| && t.content[i].path == env.report(t.archive).value.entries[k].path
    ensures t.content[i].data == env.extract(t.archive, t.content[i].path)
  {
    var e := env.report(t.archive).value.entries[k];
    assert Extracts(env, t.archive, e) && FileMatches(env, t.content[i], e);
  }

  // ---- Every run --------------------------------------------------------------------------------------

  /** What the metadata of a transfer always satisfies, torn or not. */
  ghost predicate Sane(t: Transfer) {
    && 1 <= t.total && 1 <= t.chunkBytes && t.chunkCount == CountOf(t.total, t.chunkBytes)
    && 0 <= t.next <= t.received <= t.total && t.received <= t.next * t.chunkBytes && t.received <= |t.part|
  }

  ghost predicate AllGenuine(env: Env, p: Published) { forall k :: k in p ==> Genuine(env, p[k], k, p[k].archiveId) }

  ghost predicate AllSane(staging: map<string, Transfer>) { forall id :: id in staging ==> Sane(staging[id]) }

  ghost predicate Inv(env: Env, c: Cache) { AllGenuine(env, c.published) && AllSane(c.staging) }

  lemma NewTargetIsGenuine(env: Env, archive: Data, bundle: Digest, archiveId: Digest, now: int)
    requires Faithful(env) && ArchiveVerifies(env, archive, bundle, archiveId)
    ensures Genuine(env, NewTarget(env, archive, bundle, archiveId, now), bundle, archiveId)
  {
    var entries := env.report(archive).value.entries;
    var content := NewTarget(env, archive, bundle, archiveId, now).content;
    forall i | 0 <= i < |content| ensures Lists(entries, content[i].path) { assert entries[i].path == content[i].path; }
    forall i | 0 <= i < |entries| ensures Stored(env, content, entries[i]) {
      assert Extracts(env, archive, entries[i]);
      assert content[i].path == entries[i].path;
      forall k | 0 <= k < |content| && content[k].path == entries[i].path
        ensures FileMatches(env, content[k], entries[i]) {}
    }
  }

  lemma GenuineIsTidy(env: Env, p: Published)
    requires AllGenuine(env, p)
    ensures Tidy(p)
  {
    forall k | k in p ensures p[k].bundle == Some(k) { assert Genuine(env, p[k], k, p[k].archiveId); }
  }

  lemma CollectKeeps(env: Env, p: Published, leftovers: nat, max: nat, needed: int, pinned: set<Digest>,
        inUse: set<Digest>)
    requires AllGenuine(env, p)
    ensures var left := CollectFrom(p, leftovers, max, needed, pinned, inUse).sweep.left;
      AllGenuine(env, left) && CacheBytes(left) <= CacheBytes(p) && forall k :: k in p && k in inUse ==> k in left
  {
    GenuineIsTidy(env, p);
    var n := CollectEvictsShortestOldestPrefix(p, leftovers, max, needed, pinned, inUse);
    var left := CollectFrom(p, leftovers, max, needed, pinned, inUse).sweep.left;
    forall k | k in left
      ensures Genuine(env, left[k], k, left[k].archiveId) { assert Genuine(env, p[k], k, p[k].archiveId); }
  }

  /** In such a cache nothing ever needs repair. */
  lemma NothingBroken(env: Env, p: Published, bundle: Digest, archiveId: Digest)
    requires AllGenuine(env, p)
    ensures !HealthOf(env, p, bundle, archiveId).Broken? && Repaired(env, p, bundle, archiveId) == p
  {
    if bundle in p { assert Genuine(env, p[bundle], bundle, p[bundle].archiveId); }
  }

  lemma CeilingGrows(total: int, chunkBytes: int)
    requires total >= 1 && chunkBytes >= 1
    ensures CountOf(total, chunkBytes) >= 1
    ensures (CountOf(total, chunkBytes) - 1) * chunkBytes < total <= CountOf(total, chunkBytes) * chunkBytes
  {
    var n := CountOf(total, chunkBytes);
    assert total + chunkBytes - 1 == n * chunkBytes + (total + chunkBytes - 1) % chunkBytes;
    assert (n - 1) * chunkBytes == n * chunkBytes - chunkBytes;
    if n < 1 { MulNonPositive(n, chunkBytes); }
  }

  lemma MulNonPositive(n: int, c: int)
    requires n <= 0 && c >= 1
    ensures n * c <= 0
  {}

  lemma MulMonotone(a: int, b: int, c: int)
    requires a <= b && c >= 0
    ensures a * c <= b * c
  {
    assert (b - a) * c >= 0;
    assert b * c == a * c + (b - a) * c;
  }

  /** The ceiling arithmetic: once every byte is recorded, enough sequence numbers are too, even
      after torn steps and for clients that send chunks of odd sizes. */
  lemma AllBytesMeansAllChunks(t: Transfer)
    requires Sane(t) && t.received == t.total
    ensures t.next >= t.chunkCount
  {
    CeilingGrows(t.total, t.chunkBytes);
    if t.next <= t.chunkCount - 1 {
      MulMonotone(t.next, t.chunkCount - 1, t.chunkBytes);
    }
  }

  lemma ChunkStaysSane(t: Transfer, data: Data)
    requires Sane(t) && Fits(t, t.next, data)
    ensures Sane(t.(part := t.part + data))
    ensures Sane(t.(part := t.part + data, next := t.next + 1, received := t.received + |data|))
  {
    assert (t.next + 1) * t.chunkBytes == t.next * t.chunkBytes + t.chunkBytes;
  }

  lemma BeginKeeps(env: Env, c: Cache, o: Offer)
    requires Inv(env, c)
    ensures Inv(env, BeginIn(env, c, o).0) && BeginIn(env, c, o).0.published == c.published
  {
    NothingBroken(env, c.published, o.bundle, o.archiveId);
    if GoodOffer(o) {
      var t := Transfer(o.bundle, o.archiveId, o.total, o.chunkBytes, o.chunkCount, 0, 0, []);
      assert Sane(t);
    }
  }

  lemma ChunkKeeps(env: Env, c: Cache, transfer: string, bundle: Digest, archiveId: Digest, sequence: int, data: Data,
        torn: bool)
    requires Inv(env, c)
    ensures Inv(env, ChunkIn(c, transfer, bundle, archiveId, sequence, data, torn).0)
  {
    if Bound(c, transfer, bundle, archiveId) && Fits(c.staging[transfer], sequence, data) {
      ChunkStaysSane(c.staging[transfer], data);
    }
  }

  lemma MakeRoomKeeps(env: Env, p: Published, leftovers: nat, size: nat, bundle: Digest)
    requires AllGenuine(env, p)
    ensures AllGenuine(env, MakeRoom(env, p, leftovers, size, bundle))
        && CacheBytes(MakeRoom(env, p, leftovers, size, bundle)) <= CacheBytes(p)
    ensures bundle in p ==> bundle in MakeRoom(env, p, leftovers, size, bundle)
    ensures bundle !in p ==> bundle !in MakeRoom(env, p, leftovers, size, bundle)
  {
    CollectKeeps(env, p, leftovers, env.max, size, {}, {bundle});
    GenuineIsTidy(env, p);
    var n := CollectEvictsShortestOldestPrefix(p, leftovers, env.max, size, {}, {bundle});
  }

  lemma PublishKeeps(env: Env, c: Cache, transfer: string, t: Transfer, now: int, crash: Interruption)
    requires Faithful(env) && Inv(env, c) && ArchiveVerifies(env, t.part, t.bundle, t.archiveId)
    ensures Inv(env, PublishIn(env, c, transfer, t, now, crash).0)
  {
    MakeRoomKeeps(env, c.published, c.leftovers, |t.part|, t.bundle);
    NewTargetIsGenuine(env, t.part, t.bundle, t.archiveId, now);
  }

  lemma CommitKeeps(env: Env, c: Cache, transfer: string, bundle: Digest, archiveId: Digest, now: int,
        crash: Interruption)
    requires Faithful(env) && Inv(env, c)
    ensures Inv(env, CommitIn(env, c, transfer, bundle, archiveId, now, crash).0)
  {
    NothingBroken(env, c.published, bundle, archiveId);
    if Bound(c, transfer, bundle, archiveId) && ArchiveVerifies(env, c.staging[transfer].part, bundle, archiveId) {
      PublishKeeps(env, c, transfer, c.staging[transfer], now, crash);
    }
  }

  lemma HandleKeeps(env: Env, c: Cache, r: Request)
    requires Faithful(env) && Inv(env, c)
    ensures Inv(env, Handle(env, c, r).0)
  {
    match r
    case BeginRequest(o) => BeginKeeps(env, c, o);
    case ChunkRequest(transfer, bundle, archiveId, sequence, data, torn) =>
      ChunkKeeps(env, c, transfer, bundle, archiveId, sequence, data, torn);
    case CommitRequest(transfer, bundle, archiveId, now, crash) =>
      CommitKeeps(env, c, transfer, bundle, archiveId, now, crash);
    case CollectRequest(needed, pinned, inUse) =>
      CollectKeeps(env, c.published, c.leftovers, env.max, needed, pinned, inUse);
  }

  /** For any requests, from any clients, with torn steps and crashes: every published bundle always
      verifies, and every transfer's numbers stay consistent. */
  lemma {:induction false} EveryRunIsSound(env: Env, requests: seq<Request>)
    requires Faithful(env)
    ensures Inv(env, Run(env, EMPTY, requests))
    decreases |requests|
  {
    if |requests| > 0 {
      EveryRunIsSound(env, requests[..|requests| - 1]);
      HandleKeeps(env, Run(env, EMPTY, requests[..|requests| - 1]), requests[|requests| - 1]);
    }
  }

  // ---- The byte budget -----------------------------------------------------------------------------

  function Overhead(t: Target): nat { ContentBytes(t.content) + t.metadataBytes }

  predicate CrashFree(r: Request) { r.CommitRequest? ==> r.crash.None_? }

  /** Overhead of the bundle published last. */
  function LastOverhead(env: Env, requests: seq<Request>): nat
    decreases |requests|
  {
    if |requests| == 0 then 0
    else
      var front, r := requests[..|requests| - 1], requests[|requests| - 1];
      var c := Run(env, EMPTY, front);
      if r.CommitRequest? && Handle(env, c, r).1 == Committed
      then Overhead(NewTarget(env, c.staging[r.transfer].part, r.bundle, r.archiveId, r.now))
      else LastOverhead(env, front)
  }

  lemma PublishBytes(env: Env, c: Cache, transfer: string, t: Transfer, now: int)
    requires AllGenuine(env, c.published) && t.bundle !in c.published
    ensures var (after, reply) := PublishIn(env, c, transfer, t, now, None_);
      var target := NewTarget(env, t.part, t.bundle, t.archiveId, now);
      var room := MakeRoom(env, c.published, c.leftovers, |t.part|, t.bundle);
      && after.leftovers == c.leftovers
      && (reply == Full || reply == Committed)
      && (reply == Committed ==>
            && CacheBytes(after.published) == CacheBytes(room) + |t.part| + Overhead(target)
            && CacheBytes(after.published) + c.leftovers <= env.max + Overhead(target)
            && (CacheBytes(after.published) + c.leftovers <= env.max <==>
                 CacheBytes(room) + c.leftovers + |t.part| + Overhead(target) <= env.max))
      && (reply == Full ==> CacheBytes(after.published) <= CacheBytes(c.published))
  {
    var room := MakeRoom(env, c.published, c.leftovers, |t.part|, t.bundle);
    MakeRoomKeeps(env, c.published, c.leftovers, |t.part|, t.bundle);
    BytesWith(room, t.bundle, NewTarget(env, t.part, t.bundle, t.archiveId, now));
  }

  lemma CommitBytes(env: Env, c: Cache, r: Request)
    requires Inv(env, c) && r.CommitRequest? && r.crash.None_?
    ensures var (after, reply) := Handle(env, c, r);
      && after.leftovers == c.leftovers
      && (reply != Committed ==> CacheBytes(after.published) <= CacheBytes(c.published))
      && (reply == Committed ==>
            && r.transfer in c.staging
            && CacheBytes(after.published) + c.leftovers <= env.max + Overhead(NewTarget(env,
                 c.staging[r.transfer].part, r.bundle, r.archiveId, r.now)))
  {
    NothingBroken(env, c.published, r.bundle, r.archiveId);
    if Bound(c, r.transfer, r.bundle, r.archiveId) && r.bundle !in c.published {
      PublishBytes(env, c, r.transfer, c.staging[r.transfer], r.now);
    }
  }

  lemma StepBytes(env: Env, c: Cache, r: Request)
    requires Inv(env, c) && !r.CommitRequest?
    ensures var after := Handle(env, c, r).0;
      after.leftovers == c.leftovers && CacheBytes(after.published) <= CacheBytes(c.published)
  {
    match r
    case BeginRequest(o) => BeginKeeps(env, c, o);
    case ChunkRequest(_, _, _, _, _, _) =>
    case CollectRequest(needed, pinned, inUse) =>
      CollectKeeps(env, c.published, c.leftovers, env.max, needed, pinned, inUse);
    case CommitRequest(_, _, _, _, _) =>
  }

  /** In every crash-free run the cache stays within the budget plus the content and metadata of the
      one bundle published last; `BoundIsAttained` shows that no tighter bound holds. */
  lemma {:induction false} CacheStaysBounded(env: Env, requests: seq<Request>)
    requires Faithful(env) && forall r :: r in requests ==> CrashFree(r)
    ensures var c := Run(env, EMPTY, requests);
      c.leftovers == 0 && CacheBytes(c.published) <= env.max + LastOverhead(env, requests)
    decreases |requests|
  {
    if |requests| > 0 {
      var front, r := requests[..|requests| - 1], requests[|requests| - 1];
      assert r in requests && forall x :: x in front ==> x in requests;
      CacheStaysBounded(env, front);
      EveryRunIsSound(env, front);
      var c := Run(env, EMPTY, front);
      if r.CommitRequest? { CommitBytes(env, c, r); } else { StepBytes(env, c, r); }
    }
  }

  // ---- Honest uploads ---------------------------------------------------------------------------------

  datatype Job = Job(transfer: string, archive: Data, bundle: Digest, archiveId: Digest, chunkBytes: int)

  function Least(a: int, b: int): int { if a <= b then a else b }

  predicate GoodJob(j: Job) {
    && j.transfer != "" && 1 <= |j.archive| <= MAX_ARCHIVE_BYTES && 1 <= j.chunkBytes <= MAX_CHUNK_BYTES
    && CountOf(|j.archive|, j.chunkBytes) <= MAX_CHUNKS
  }

  function Count(j: Job): int requires GoodJob(j) { CountOf(|j.archive|, j.chunkBytes) }

  function OfferOf(j: Job): Offer
    requires GoodJob(j)
  { Offer(j.transfer, j.bundle, j.archiveId, |j.archive|, j.chunkBytes, Count(j)) }

  /** Bytes covered by the first `n` chunks. */
  function Covered(j: Job, n: int): int { Least(n * j.chunkBytes, |j.archive|) }

  function Partial(j: Job, n: int): Transfer
    requires GoodJob(j) && 0 <= n
  {
    assert n * j.chunkBytes >= 0;
    Transfer(j.bundle, j.archiveId, |j.archive|, j.chunkBytes, Count(j), n, Covered(j, n), j.archive[..Covered(j, n)])
  }

  function ReadAt(j: Job, position: int): Data {
    if 0 <= position <= |j.archive|
        && 0 <= j.chunkBytes then j.archive[position..Least(position + j.chunkBytes, |j.archive|)] else []
  }

  /** The staged transfer, if there is one, holds exactly the archive's first chunks. */
  ghost predicate Honest(j: Job, c: Cache)
    requires GoodJob(j)
  {
    j.transfer in c.staging ==> exists n :: 0 <= n <= Count(j) && c.staging[j.transfer] == Partial(j, n)
  }

  lemma CoveredGrows(j: Job, n: int)
    requires GoodJob(j) && 0 <= n < Count(j)
    ensures 0 <= n * j.chunkBytes < |j.archive| && Covered(j, n) == n * j.chunkBytes
    ensures Covered(j, n + 1) == Least(Covered(j, n) + j.chunkBytes, |j.archive|) > Covered(j, n)
    ensures |ReadAt(j, Covered(j, n))| == Covered(j, n + 1) - Covered(j, n)
    ensures j.archive[..Covered(j, n)] + ReadAt(j, Covered(j, n)) == j.archive[..Covered(j, n + 1)]
  {
    CeilingGrows(|j.archive|, j.chunkBytes);
    MulMonotone(n, Count(j) - 1, j.chunkBytes);
    MulMonotone(0, n, j.chunkBytes);
    assert (n + 1) * j.chunkBytes == n * j.chunkBytes + j.chunkBytes;
  }

  lemma CoveredAll(j: Job)
    requires GoodJob(j)
    ensures Count(j) >= 1 && Covered(j, Count(j)) == |j.archive| && Partial(j, Count(j)).part == j.archive
  { CeilingGrows(|j.archive|, j.chunkBytes); }

  /** The next chunk is accepted and the staged part grows by exactly that chunk. */
  lemma NextChunkAccepted(j: Job, c: Cache, n: int)
    requires GoodJob(j) && 0 <= n < Count(j) && j.transfer in c.staging && c.staging[j.transfer] == Partial(j, n)
    ensures ChunkIn(c, j.transfer, j.bundle, j.archiveId, n, ReadAt(j, Covered(j, n)), false) ==
      (c.(staging := c.staging[j.transfer := Partial(j, n + 1)]), Accepted)
  {
    CoveredGrows(j, n);
  }

  /** The client's check on the progress it is told. */
  predicate Plausible(j: Job, next: int, received: int)
    requires GoodJob(j)
  { 0 <= next <= Count(j) && received == Covered(j, next) }

  /** A staged transfer that has recorded `n` chunks: its part is exactly those chunks or, after a
      torn step, longer than what is recorded. */
  ghost predicate Staged(j: Job, t: Transfer, n: int, torn: bool)
    requires GoodJob(j)
  {
    && 0 <= n <= Count(j) && t == Partial(j, n).(part := t.part)
    && if torn then |t.part| > t.received else t.part == Partial(j, n).part
  }

  ghost predicate Tracks(j: Job, c: Cache, torn: bool)
    requires GoodJob(j)
  { j.transfer in c.staging ==> exists n :: Staged(j, c.staging[j.transfer], n, torn) }

  lemma HonestIsUntorn(j: Job, c: Cache)
    requires GoodJob(j)
    ensures Honest(j, c) <==> Tracks(j, c, false)
  {
    if j.transfer in c.staging {
      if Honest(j, c) {
        var n :| 0 <= n <= Count(j) && c.staging[j.transfer] == Partial(j, n);
        assert Staged(j, c.staging[j.transfer], n, false);
      }
      if Tracks(j, c, false) {
        var n :| Staged(j, c.staging[j.transfer], n, false);
        assert c.staging[j.transfer] == Partial(j, n);
      }
    }
  }

  /** The client's progress check on any answer of `begin` never fails, torn steps or not. */
  lemma ProgressCheckPasses(env: Env, j: Job, c: Cache, torn: bool)
    requires GoodJob(j) && Tracks(j, c, torn)
    ensures var (after, reply) := BeginIn(env, c, OfferOf(j));
      && Tracks(j, after, if j.transfer in c.staging then torn else false)
      && (reply.Required? ==>
            && Plausible(j, reply.next, reply.received)
            && j.transfer in after.staging
                 && Staged(j, after.staging[j.transfer], reply.next, if j.transfer in c.staging then torn else false))
  {
    CeilingGrows(|j.archive|, j.chunkBytes);
    assert GoodOffer(OfferOf(j));
    var (after, reply) := BeginIn(env, c, OfferOf(j));
    if j.transfer in c.staging {
      assert after.staging == c.staging;
      var n :| Staged(j, c.staging[j.transfer], n, torn);
    } else if reply.Required? {
      assert Covered(j, 0) == 0 && after.staging[j.transfer] == Partial(j, 0);
      assert Staged(j, after.staging[j.transfer], 0, false);
    }
  }

  /** A commit that passes its guards sees the whole archive, so it is never refused as a mismatch. */
  lemma CommitSeesWholeArchive(env: Env, j: Job, c: Cache, now: int, crash: Interruption)
    requires GoodJob(j) && Honest(j, c) && ArchiveVerifies(env, j.archive, j.bundle, j.archiveId)
    ensures j.transfer in c.staging && Complete(c.staging[j.transfer]) ==> c.staging[j.transfer].part == j.archive
    ensures CommitIn(env, c, j.transfer, j.bundle, j.archiveId, now, crash).1 != Mismatch
  {
    CoveredAll(j);
  }

  // A whole upload into an empty cache, request by request.

  function ChunkRequests(j: Job, n: nat): seq<Request> {
    if n == 0 then []
    else ChunkRequests(j,
        n - 1) + [ChunkRequest(j.transfer, j.bundle, j.archiveId, n - 1, ReadAt(j, Covered(j, n - 1)), false)]
  }

  function SendRequests(j: Job, n: nat): seq<Request>
    requires GoodJob(j)
  { [BeginRequest(OfferOf(j))] + ChunkRequests(j, n) }

  function CommitOf(j: Job, now: int): Request { CommitRequest(j.transfer, j.bundle, j.archiveId, now, None_) }

  lemma SendFirst(env: Env, j: Job)
    requires GoodJob(j)
    ensures Handle(env, EMPTY, BeginRequest(OfferOf(j))).0 == Cache(map[], map[j.transfer := Partial(j, 0)], 0)
  {
    CeilingGrows(|j.archive|, j.chunkBytes);
    assert GoodOffer(OfferOf(j)) && Covered(j, 0) == 0;
  }

  lemma SendNext(j: Job, n: nat)
    requires GoodJob(j) && n < Count(j)
    ensures ChunkIn(Cache(map[], map[j.transfer := Partial(j, n)], 0), j.transfer, j.bundle, j.archiveId, n,
        ReadAt(j, Covered(j, n)), false).0 ==
      Cache(map[], map[j.transfer := Partial(j, n + 1)], 0)
  {
    var c := Cache(map[], map[j.transfer := Partial(j, n)], 0);
    NextChunkAccepted(j, c, n);
    assert c.staging[j.transfer := Partial(j, n + 1)] == map[j.transfer := Partial(j, n + 1)];
  }

  lemma {:induction false} SendRun(env: Env, j: Job, n: nat)
    requires GoodJob(j) && n <= Count(j)
    ensures Run(env, EMPTY, SendRequests(j, n)) == Cache(map[], map[j.transfer := Partial(j, n)], 0)
    ensures forall r :: r in SendRequests(j, n) ==> CrashFree(r)
  {
    var requests := SendRequests(j, n);
    if n == 0 {
      assert requests == [BeginRequest(OfferOf(j))] && requests[..0] == [];
      SendFirst(env, j);
    } else {
      SendRun(env, j, n - 1);
      assert requests[..|requests| - 1] == SendRequests(j, n - 1);
      SendNext(j, n - 1);
    }
  }

  /** The bound of `CacheStaysBounded` is reached by every verified archive that fills the budget:
      admission counts its bytes only, publication adds its content and metadata. */
  lemma BoundIsAttained(env: Env, j: Job, now: int)
    requires GoodJob(j) && ArchiveVerifies(env, j.archive, j.bundle, j.archiveId) && |j.archive| == env.max
    ensures var requests := SendRequests(j, Count(j)) + [CommitOf(j, now)];
      && (forall r :: r in requests ==> CrashFree(r))
      && CacheBytes(Run(env, EMPTY, requests).published) == env.max + LastOverhead(env, requests)
      && LastOverhead(env, requests) == Overhead(NewTarget(env, j.archive, j.bundle, j.archiveId, now))
  {
    var sent, requests := SendRequests(j, Count(j)), SendRequests(j, Count(j)) + [CommitOf(j, now)];
    CoveredAll(j);
    SendRun(env, j, Count(j));
    assert requests[..|requests| - 1] == sent;
    var c := Run(env, EMPTY, sent);
    PublishBytes(env, c, j.transfer, c.staging[j.transfer], now);
    assert CommitIn(env, c, j.transfer, j.bundle, j.archiveId, now, None_) ==
        PublishIn(env, c, j.transfer, c.staging[j.transfer], now, None_);
  }

  /** So the budget itself can be exceeded, by an archive of any size that fits one chunk. */
  lemma BudgetCanBeExceeded(archive: Data)
    requires 1 <= |archive| <= MAX_CHUNK_BYTES
    ensures exists env: Env, requests: seq<Request> ::
      && Faithful(env) && env.max == |archive| && (forall r :: r in requests ==> CrashFree(r))
      && CacheBytes(Run(env, EMPTY, requests).published) > env.max
  {
    var env := Env(_ => 0, _ => Some(Report(0, [])), (_, _) => [], _ => 1, |archive|);
    var j := Job("t", archive, 0, 0, |archive|);
    CeilingGrows(|archive|, |archive|);
    var n := CountOf(|archive|, |archive|);
    if n >= 2 { MulMonotone(1, n - 1, |archive|); }
    BoundIsAttained(env, j, 0);
    assert Faithful(env);
  }

  /** One of any number of clients. */
  datatype Client = Away | Sending(sequence: int, position: int)
  datatype System = System(cache: Cache, clients: map<nat, Client>)

  datatype Move =
    | OfferMove(client: nat, lost: bool)
    | SendMove(client: nat, lost: bool, torn: bool)
    | CommitMove(client: nat, now: int, crash: Interruption)
    | Die(client: nat)
    | Foreign(request: Request)

  function ClientOf(s: System, i: nat): Client { if i in s.clients then s.clients[i] else Away }

  predicate TouchesOther(j: Job, r: Request) {
    match r
    case BeginRequest(o) => o.transfer != j.transfer
    case ChunkRequest(transfer, _, _, _, _, _) => transfer != j.transfer
    case CommitRequest(transfer, _, _, _, _) => transfer != j.transfer
    case CollectRequest(_, _, _) => true
  }

  /** One request of one client, or a step of something else; a client that is refused, or whose
      answer is lost, is gone until it offers again. */
  function Advance(env: Env, j: Job, s: System, m: Move): System
    requires GoodJob(j)
  {
    match m
    case OfferMove(i, lost) =>
      if ClientOf(s, i) != Away then s
      else
        var (cache, reply) := BeginIn(env, s.cache, OfferOf(j));
        System(cache, s.clients[i := if reply.Required? && !lost
            && Plausible(j, reply.next, reply.received) then Sending(reply.next, reply.received) else Away])
    case SendMove(i, lost, torn) =>
      var client := ClientOf(s, i);
      if client == Away || client.sequence >= Count(j) then s
      else
        var data := ReadAt(j, client.position);
        var (cache, reply) := ChunkIn(s.cache, j.transfer, j.bundle, j.archiveId, client.sequence, data, torn);
        System(cache, s.clients[i := if reply.Accepted?
            && !lost then Sending(client.sequence + 1, client.position + |data|) else Away])
    case CommitMove(i, now, crash) =>
      if ClientOf(s, i) == Away || ClientOf(s, i).sequence != Count(j) then s
      else System(CommitIn(env, s.cache, j.transfer, j.bundle, j.archiveId, now, crash).0, s.clients[i := Away])
    case Die(i) => s.(clients := s.clients[i := Away])
    case Foreign(r) => if TouchesOther(j, r) then s.(cache := Handle(env, s.cache, r).0) else s
  }

  ghost predicate ClientsInStep(j: Job, clients: map<nat, Client>)
    requires GoodJob(j)
  {
    forall i :: i in clients && clients[i].Sending? ==>
      0 <= clients[i].sequence <= Count(j) && clients[i].position == Covered(j, clients[i].sequence)
  }

  /** This move tears a chunk of the upload: the server took its bytes and died. */
  predicate Tears(j: Job, s: System, m: Move)
    requires GoodJob(j)
  {
    && m.SendMove? && m.torn && ClientOf(s, m.client).Sending? && ClientOf(s, m.client).sequence < Count(j)
    && var client := ClientOf(s, m.client);
       ChunkIn(s.cache, j.transfer, j.bundle, j.archiveId, client.sequence, ReadAt(j, client.position),
           true).1 != Refused
  }

  predicate IsStaged(j: Job, s: System) { j.transfer in s.cache.staging }

  function Play(env: Env, j: Job, s: System, moves: seq<Move>): System
    requires GoodJob(j)
    decreases |moves|
  {
    if |moves| == 0 then s else Advance(env, j, Play(env, j, s, moves[..|moves| - 1]), moves[|moves| - 1])
  }

  /** Some chunk was torn since the transfer was last staged. */
  predicate TornSince(env: Env, j: Job, s: System, moves: seq<Move>)
    requires GoodJob(j)
    decreases |moves|
  {
    |moves| > 0 &&
    var before, m := Play(env, j, s, moves[..|moves| - 1]), moves[|moves| - 1];
    && IsStaged(j, before) && IsStaged(j, Advance(env, j, before, m))
    && (TornSince(env, j, s, moves[..|moves| - 1]) || Tears(j, before, m))
  }

  /** A chunk of the archive, torn or whole, keeps track of the transfer. */
  lemma ChunkTracks(j: Job, c: Cache, k: int, torn: bool, tear: bool)
    requires GoodJob(j) && Tracks(j, c, torn) && 0 <= k < Count(j)
    ensures var (after, reply) := ChunkIn(c, j.transfer, j.bundle, j.archiveId, k, ReadAt(j, Covered(j, k)), tear);
      Tracks(j, after, torn || (tear && reply != Refused))
  {
    CoveredGrows(j, k);
    var (after, reply) := ChunkIn(c, j.transfer, j.bundle, j.archiveId, k, ReadAt(j, Covered(j, k)), tear);
    if j.transfer in c.staging {
      var n :| Staged(j, c.staging[j.transfer], n, torn);
      if reply == Refused {
        assert Staged(j, after.staging[j.transfer], n, torn);
      } else if tear {
        assert Staged(j, after.staging[j.transfer], n, true);
      } else {
        assert Staged(j, after.staging[j.transfer], n + 1, torn);
      }
    }
  }

  lemma OthersLeaveIt(env: Env, j: Job, c: Cache, r: Request)
    requires TouchesOther(j, r)
    ensures var after := Handle(env, c, r).0;
      (j.transfer in after.staging <==> j.transfer in c.staging) &&
      (j.transfer in c.staging ==> after.staging[j.transfer] == c.staging[j.transfer])
  {}

  /** The upload as a whole: the transfer is tracked and every client is in step with the archive. */
  ghost predicate InStep(j: Job, s: System, torn: bool)
    requires GoodJob(j)
  { Tracks(j, s.cache, torn) && ClientsInStep(j, s.clients) }

  lemma AdvanceKeeps(env: Env, j: Job, s: System, m: Move, torn: bool)
    requires GoodJob(j) && InStep(j, s, torn)
    ensures var after := Advance(env, j, s, m);
      InStep(j, after, IsStaged(j, s) && IsStaged(j, after) && (torn || Tears(j, s, m)))
  {
    match m
    case OfferMove(i, lost) => ProgressCheckPasses(env, j, s.cache, torn);
    case SendMove(i, lost, tear) =>
      var client := ClientOf(s, i);
      if client.Sending? && client.sequence < Count(j) {
        CoveredGrows(j, client.sequence);
        ChunkTracks(j, s.cache, client.sequence, torn, tear);
      }
    case CommitMove(i, now, crash) =>
      CommitLeavesOrRemoves(env, s.cache, j.transfer, j.bundle, j.archiveId, now, crash);
    case Die(i) =>
    case Foreign(r) => if TouchesOther(j, r) { OthersLeaveIt(env, j, s.cache, r); }
  }

  lemma CommitLeavesOrRemoves(env: Env, c: Cache, transfer: string, bundle: Digest, archiveId: Digest, now: int,
        crash: Interruption)
    ensures var after := CommitIn(env, c, transfer, bundle, archiveId, now, crash).0;
      after.staging == c.staging || after.staging == c.staging - {transfer}
  {}

  /** In every run of any number of clients uploading one archive, with deaths, lost answers, torn
      chunks and any other traffic: what the transfer records is always the first `n` chunks, and its
      part is exactly those chunks unless one was torn since it was staged; then it is longer. */
  lemma {:induction false} UploadsStayInStep(env: Env, j: Job, c: Cache, moves: seq<Move>)
    requires GoodJob(j) && j.transfer !in c.staging
    ensures InStep(j, Play(env, j, System(c, map[]), moves), TornSince(env, j, System(c, map[]), moves))
    decreases |moves|
  {
    if |moves| > 0 {
      var s, front := System(c, map[]), moves[..|moves| - 1];
      UploadsStayInStep(env, j, c, front);
      AdvanceKeeps(env, j, Play(env, j, s, front), moves[|moves| - 1], TornSince(env, j, s, front));
    }
  }

  predicate Untorn(m: Move) { m.SendMove? ==> !m.torn }

  lemma {:induction false} UntornRuns(env: Env, j: Job, s: System, moves: seq<Move>)
    requires GoodJob(j) && forall m :: m in moves ==> Untorn(m)
    ensures !TornSince(env, j, s, moves)
    decreases |moves|
  {
    if |moves| > 0 {
      assert moves[|moves| - 1] in moves && forall m :: m in moves[..|moves| - 1] ==> m in moves;
      UntornRuns(env, j, s, moves[..|moves| - 1]);
    }
  }

  /** When every server step is whole, each client may still die between any two requests: the staged
      part is exactly the archive's first `received` bytes, with `received` the lesser of `next` chunks
      and the whole. */
  lemma HonestUploadsNeverDiverge(env: Env, j: Job, c: Cache, moves: seq<Move>)
    requires GoodJob(j) && j.transfer !in c.staging && forall m :: m in moves ==> Untorn(m)
    ensures var s := Play(env, j, System(c, map[]), moves); Honest(j, s.cache) && ClientsInStep(j, s.clients)
  {
    UploadsStayInStep(env, j, c, moves);
    UntornRuns(env, j, System(c, map[]), moves);
    HonestIsUntorn(j, Play(env, j, System(c, map[]), moves).cache);
  }

  // ---- Resuming ----------------------------------------------------------------------------------------

  /** The next chunk is accepted and recorded, torn before or not. */
  lemma NextChunkStaged(j: Job, c: Cache, n: int, torn: bool)
    requires GoodJob(j) && n < Count(j) && j.transfer in c.staging && Staged(j, c.staging[j.transfer], n, torn)
    ensures var (after, reply) := ChunkIn(c, j.transfer, j.bundle, j.archiveId, n, ReadAt(j, Covered(j, n)), false);
      && reply == Accepted && j.transfer in after.staging && Staged(j, after.staging[j.transfer], n + 1, torn)
      && after == c.(staging := c.staging[j.transfer := after.staging[j.transfer]])
  {
    CoveredGrows(j, n);
  }

  /** A complete transfer verifies exactly when it was not torn. */
  lemma CompleteVerifiesIff(env: Env, j: Job, t: Transfer, torn: bool)
    requires GoodJob(j) && Staged(j, t, Count(j), torn) && (torn ==> Injective(env.sha))
    requires ArchiveVerifies(env, j.archive, j.bundle, j.archiveId)
    ensures Complete(t) && (ArchiveVerifies(env, t.part, j.bundle, j.archiveId) <==> !torn)
        && (!torn ==> t.part == j.archive)
  {
    CoveredAll(j);
    if torn { assert t.part != j.archive; }
  }

  /** The bundle can be published: a transfer slot is free, the staged transfer, if any, was not torn,
      and there is room. */
  ghost predicate CanPublish(env: Env, j: Job, c: Cache, torn: bool) {
    && |c.staging| < MAX_IN_PROGRESS && (j.transfer in c.staging ==> !torn)
    && CacheBytes(MakeRoom(env, c.published, c.leftovers, |j.archive|, j.bundle)) + c.leftovers + |j.archive| <= env.max
  }

  /** `_upload_service_bundle`, not interrupted: it resumes from whatever earlier clients left, torn or
      not, and succeeds exactly when the bundle is already there or can be published. */
  method UploadServiceBundle(cache: BundleCache, j: Job, now: int, ghost torn: bool) returns (ok: bool)
    requires GoodJob(j) && Faithful(cache.env) && Inv(cache.env, cache.Contents()) && Tracks(j, cache.Contents(), torn)
    requires torn ==> Injective(cache.env.sha)
    modifies cache
    ensures Inv(cache.env, cache.Contents())
    ensures ok ==> j.bundle in cache.published && Genuine(cache.env, cache.published[j.bundle], j.bundle, j.archiveId)
    ensures var before := old(cache.Contents());
      var health := HealthOf(cache.env, before.published, j.bundle, j.archiveId);
      ok <==>
        && ArchiveVerifies(cache.env, j.archive, j.bundle, j.archiveId)
        && (health.Healthy? || (health.Absent? && CanPublish(cache.env, j, before, torn)))
  {
    ghost var start := cache.Contents();
    if !ArchiveVerifies(cache.env, j.archive, j.bundle, j.archiveId) { return false; }
    NothingBroken(cache.env, start.published, j.bundle, j.archiveId);
    ProgressCheckPasses(cache.env, j, start, torn);
    BeginKeeps(cache.env, start, OfferOf(j));
    CeilingGrows(|j.archive|, j.chunkBytes);
    var offered := cache.Begin(OfferOf(j));
    if offered == AlreadyPresent { return true; }
    if !offered.Required? || !Plausible(j, offered.next, offered.received) { return false; }
    ghost var poisoned := j.transfer in start.staging && torn;
    SendRest(cache, j, offered.next, offered.received, poisoned);
    ghost var full := cache.Contents();
    CompleteVerifiesIff(cache.env, j, full.staging[j.transfer], poisoned);
    CommitKeeps(cache.env, full, j.transfer, j.bundle, j.archiveId, now, None_);
    var committed := cache.Commit(j.transfer, j.bundle, j.archiveId, now, None_);
    return committed in {Committed, AlreadyPresent};
  }

  method SendRest(cache: BundleCache, j: Job, next: int, received: int, ghost torn: bool)
    requires GoodJob(j) && Plausible(j, next, received) && Inv(cache.env, cache.Contents())
    requires j.transfer in cache.staging && Staged(j, cache.staging[j.transfer], next, torn)
    modifies cache
    ensures Inv(cache.env, cache.Contents())
    ensures j.transfer in cache.staging && Staged(j, cache.staging[j.transfer], Count(j), torn)
    ensures cache.Contents() ==
        old(cache.Contents()).(staging := old(cache.staging)[j.transfer := cache.staging[j.transfer]])
  {
    var position := received;
    for sequence := next to Count(j)
      invariant Inv(cache.env, cache.Contents()) && position == Covered(j, sequence)
      invariant j.transfer in cache.staging && Staged(j, cache.staging[j.transfer], sequence, torn)
      invariant cache.Contents() ==
          old(cache.Contents()).(staging := old(cache.staging)[j.transfer := cache.staging[j.transfer]])
    {
      var data := ReadAt(j, position);
      CoveredGrows(j, sequence);
      NextChunkStaged(j, cache.Contents(), sequence, torn);
      ChunkKeeps(cache.env, cache.Contents(), j.transfer, j.bundle, j.archiveId, sequence, data, false);
      var _ := cache.Chunk(j.transfer, j.bundle, j.archiveId, sequence, data, false);
      position := position + |data|;
      assert cache.staging == old(cache.staging)[j.transfer := cache.staging[j.transfer]];
    }
  }

  // ---- Torn steps ----------------------------------------------------------------------------------------

  /** The part file holds bytes the metadata does not know of. */
  ghost predicate Poisoned(env: Env, t: Transfer, archive: Data) {
    |t.part| > t.received && t.total == |archive| && t.archiveId == env.sha(archive)
  }

  /** A torn chunk of an honest upload either was refused anyway or poisons the transfer. */
  lemma TornChunkPoisons(env: Env, j: Job, c: Cache, k: int)
    requires GoodJob(j) && Honest(j, c) && 0 <= k < Count(j) && j.archiveId == env.sha(j.archive)
    ensures var (after, reply) := ChunkIn(c, j.transfer, j.bundle, j.archiveId, k, ReadAt(j, Covered(j, k)), true);
      if reply == Refused then after == c
      else j.transfer in after.staging && Poisoned(env, after.staging[j.transfer], j.archive)
  {
    CoveredGrows(j, k);
  }

  lemma PoisonStays(env: Env, c: Cache, transfer: string, archive: Data, r: Request)
    requires Injective(env.sha) && transfer in c.staging && Poisoned(env, c.staging[transfer], archive)
    ensures var (after, reply) := Handle(env, c, r);
      && transfer in after.staging && Poisoned(env, after.staging[transfer], archive)
      && (r.CommitRequest? && r.transfer == transfer ==> reply == Refused || reply == Mismatch)
  {
    var t := c.staging[transfer];
    if r.CommitRequest? && r.transfer == transfer && Complete(t) { assert t.part != archive; }
  }

  /** One torn step is enough: whatever anyone sends afterwards, that transfer is never published
      and never goes away, so the archive cannot be uploaded under it again. */
  lemma {:induction false} TornTransferIsStuck(env: Env, c: Cache, transfer: string, archive: Data,
        requests: seq<Request>)
    requires Injective(env.sha) && transfer in c.staging && Poisoned(env, c.staging[transfer], archive)
    ensures var after := Run(env, c, requests);
      && transfer in after.staging && Poisoned(env, after.staging[transfer], archive)
      && forall bundle, archiveId, now,
           crash :: CommitIn(env, after, transfer, bundle, archiveId, now, crash).1 in {Refused, Mismatch}
    decreases |requests|
  {
    if |requests| > 0 {
      TornTransferIsStuck(env, c, transfer, archive, requests[..|requests| - 1]);
      PoisonStays(env, Run(env, c, requests[..|requests| - 1]), transfer, archive, requests[|requests| - 1]);
    }
    var after := Run(env, c, requests);
    forall bundle, archiveId, now, crash
      ensures CommitIn(env, after, transfer, bundle, archiveId, now, crash).1 in {Refused, Mismatch} {
      PoisonStays(env, after, transfer, archive, CommitRequest(transfer, bundle, archiveId, now, crash));
    }
  }

  /** Over every run: a commit that passes its guards is refused as a mismatch exactly when some chunk
      was torn since the transfer was staged. */
  lemma CommitMismatchIffTorn(env: Env, j: Job, c: Cache, moves: seq<Move>, now: int, crash: Interruption)
    requires Injective(env.sha) && GoodJob(j) && ArchiveVerifies(env, j.archive, j.bundle, j.archiveId)
        && j.transfer !in c.staging
    ensures var s := Play(env, j, System(c, map[]), moves);
      IsStaged(j, s) && Complete(s.cache.staging[j.transfer]) ==>
        (CommitIn(env, s.cache, j.transfer, j.bundle, j.archiveId, now, crash).1 == Mismatch <==>
          TornSince(env, j, System(c, map[]), moves))
  {
    var s, torn := Play(env, j, System(c, map[]), moves), TornSince(env, j, System(c, map[]), moves);
    UploadsStayInStep(env, j, c, moves);
    if IsStaged(j, s) && Complete(s.cache.staging[j.transfer]) {
      var t := s.cache.staging[j.transfer];
      var n :| Staged(j, t, n, torn);
      CoveredAll(j);
      if torn { assert t.part != j.archive; }
    }
  }

  /** `transfer_archive` always sends from sequence 0, so after an interruption it is refused: its first
      chunk is accepted exactly when nothing was received before. */
  lemma SenderCannotResume(env: Env, j: Job, c: Cache)
    requires GoodJob(j) && Honest(j, c) && BeginIn(env, c, OfferOf(j)).1.Required?
    ensures var after := BeginIn(env, c, OfferOf(j)).0;
      ChunkIn(after, j.transfer, j.bundle, j.archiveId, 0, ReadAt(j, 0), false).1 == Accepted <==>
      (j.transfer in c.staging ==> c.staging[j.transfer].next == 0)
  {
    HonestIsUntorn(j, c);
    ProgressCheckPasses(env, j, c, false);
    var (after, reply) := BeginIn(env, c, OfferOf(j));
    CoveredAll(j);
    if reply.next == 0 {
      assert Covered(j, 0) == 0;
      NextChunkAccepted(j, after, 0);
    }
  }
}
