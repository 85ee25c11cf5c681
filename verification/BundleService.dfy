/** The bundle verifier behind the transfer service: what a consumer packs is what a worker is
    handed, through building, uploading, publishing and looking up. */
module BundleService {
  import opened Orders
  import opened Ledger
  import Bundles
  import Gc
  import opened BundleTransfer
  import opened TransferRuns

  ghost predicate Valid(env: Bundles.Env, archive: Gc.Data) { exists m :: Bundles.Accepts(env, archive, m, None, None) }

  function Infos(entries: seq<Bundles.Entry>): (r: seq<EntryInfo>)
    ensures |r| == |entries| && forall i :: 0 <= i < |r| ==> r[i].path == entries[i].path && r[i].id == entries[i].id
  { seq(|entries|, i requires 0 <= i < |entries| => EntryInfo(entries[i].path, entries[i].id, if entries[i].size >= 0
      then entries[i].size else 0)) }

  ghost function ReportOf(env: Bundles.Env, archive: Gc.Data): Option<Report> {
    if Valid(env, archive) then
      var m :| Bundles.Accepts(env, archive, m, None, None);
      Some(Report(m.identity, Infos(m.entries)))
    else None
  }

  ghost function Extract(env: Bundles.Env, archive: Gc.Data, path: string): Gc.Data {
    if env.unzip(archive).Some? && Bundles.DataOf(env.unzip(archive).value, path).Some?
    then Bundles.DataOf(env.unzip(archive).value, path).value else []
  }

  /** The service environment that uses the bundle verifier. */
  ghost function ServiceEnv(env: Bundles.Env, metadataBytes: nat -> nat, max: nat): Env {
    Env(env.sha, a => ReportOf(env, a), (a, p) => Extract(env, a, p), metadataBytes, max)
  }

  lemma ManifestIsUnique(env: Bundles.Env, archive: Gc.Data, m: Bundles.Manifest, n: Bundles.Manifest)
    requires Bundles.Accepts(env, archive, m, None, None) && Bundles.Accepts(env, archive, n, None, None)
    ensures m == n
  {}

  lemma AcceptedExtracts(env: Bundles.Env, archive: Gc.Data, m: Bundles.Manifest, k: nat)
    requires Bundles.Accepts(env, archive, m, None, None) && k < |m.entries|
    ensures m.entries[k].size >= 0 && |Extract(env, archive, m.entries[k].path)| == m.entries[k].size
    ensures env.sha(Extract(env, archive, m.entries[k].path)) == m.entries[k].id
  {
    assert Bundles.Intact(env, env.unzip(archive).value, m.entries[k]);
  }

  /** The verifier keeps the promise the transfer service relies on. */
  lemma VerifierIsFaithful(env: Bundles.Env, metadataBytes: nat -> nat, max: nat)
    ensures Faithful(ServiceEnv(env, metadataBytes, max))
  {
    var service := ServiceEnv(env, metadataBytes, max);
    forall a, i | service.report(a).Some? && 0 <= i < |service.report(a).value.entries|
      ensures Extracts(service, a, service.report(a).value.entries[i])
    {
      assert service.report(a) == ReportOf(env, a);
      var m :| Bundles.Accepts(env, a, m, None, None) && ReportOf(env, a) == Some(Report(m.identity, Infos(m.entries)));
      AcceptedExtracts(env, a, m, i);
    }
  }

  lemma ExtractedFromBuilt(env: Bundles.Env, files: seq<Bundles.SourceFile>, manifest: Gc.Data, i: nat)
    requires i < |files| && Bundles.NoCollision(env, files)
    ensures Bundles.DataOf(Bundles.Packed(manifest, files), files[i].path) == Some(files[i].data)
  {
    var packed := Bundles.Packed(manifest, files);
    Bundles.PackedKeys(env, manifest, files);
    Bundles.DataOfDistinct(env, packed, i + 1);
    assert packed[i + 1].name == files[i].path;
  }

  lemma AcceptedReport(env: Bundles.Env, archive: Gc.Data, m: Bundles.Manifest)
    requires Bundles.Accepts(env, archive, m, None, None)
    ensures ReportOf(env, archive) == Some(Report(m.identity, Infos(m.entries)))
  {
    assert Valid(env, archive);
    var n :| Bundles.Accepts(env, archive, n, None, None)
        && ReportOf(env, archive) == Some(Report(n.identity, Infos(n.entries)));
    ManifestIsUnique(env, archive, m, n);
  }

  lemma AcceptsWithout(env: Bundles.Env, archive: Gc.Data, m: Bundles.Manifest, bundle: Option<Digest>)
    requires Bundles.Accepts(env, archive, m, bundle, None)
    ensures Bundles.Accepts(env, archive, m, None, None)
  {}

  /** The archive declares and yields exactly these files. */
  ghost predicate PacksFiles(service: Env, archive: Gc.Data, files: seq<Bundles.SourceFile>) {
    && service.report(archive).Some? && |service.report(archive).value.entries| == |files|
    && forall i :: 0 <= i < |files| ==>
         service.report(archive).value.entries[i].path == files[i].path
             && service.extract(archive, files[i].path) == files[i].data
  }

  lemma BuiltExtracts(env: Bundles.Env, files: seq<Bundles.SourceFile>, bundleId: string, i: nat)
    requires i < |files| && Bundles.Reversible(env, files, bundleId) && Bundles.NoCollision(env, files)
    ensures Extract(env, Bundles.BuiltArchive(env, files, bundleId), files[i].path) == files[i].data
  {
    ExtractedFromBuilt(env, files, Bundles.ManifestBytes(env, Bundles.Built(env, files, bundleId)), i);
  }

  lemma BuiltPacks(env: Bundles.Env, metadataBytes: nat -> nat, max: nat, files: seq<Bundles.SourceFile>,
        bundleId: string)
    requires |files| > 0 && Bundles.Reversible(env, files, bundleId) && Bundles.Walked(env, files)
        && Bundles.Buildable(env, files, bundleId)
    ensures PacksFiles(ServiceEnv(env, metadataBytes, max), Bundles.BuiltArchive(env, files, bundleId), files)
  {
    var archive, m := Bundles.BuiltArchive(env, files, bundleId), Bundles.Built(env, files, bundleId);
    Bundles.BuiltVerifiesIff(env, files, bundleId);
    AcceptsWithout(env, archive, m, Some(m.identity));
    AcceptedReport(env, archive, m);
    forall i | 0 <= i < |files|
      ensures Infos(m.entries)[i].path == files[i].path && Extract(env, archive, files[i].path) == files[i].data
    {
      BuiltExtracts(env, files, bundleId, i);
    }
  }

  lemma RootHoldsFiles(service: Env, c: Cache, o: Offer, archive: Gc.Data, files: seq<Bundles.SourceFile>)
    requires Faithful(service) && Injective(service.sha) && o.archiveId == service.sha(archive)
        && PacksFiles(service, archive, files)
    requires BeginIn(service, c, o).1 == AlreadyPresent || RootIn(service, c.published, o.bundle, o.archiveId).Some?
    ensures o.bundle in c.published
    ensures var content := c.published[o.bundle].content;
      && (forall i :: 0 <= i < |files| ==> Gc.File(files[i].path, files[i].data) in content)
      && (forall f :: f in content ==> exists i :: 0 <= i < |files| && f == Gc.File(files[i].path, files[i].data))
  {
    HandedOutIsGenuine(service, c, o);
    var t, entries := c.published[o.bundle], service.report(archive).value.entries;
    assert t.archive == archive;
    forall i | 0 <= i < |files| ensures Gc.File(files[i].path, files[i].data) in t.content {
      assert entries[i] in entries;
    }
    forall f | f in t.content ensures exists i :: 0 <= i < |files| && f == Gc.File(files[i].path, files[i].data) {
      var i :| 0 <= i < |entries| && entries[i].path == f.path;
      assert f == Gc.File(files[i].path, files[i].data);
    }
  }

  /** End to end, in any state of the cache, even a tampered one: if the bundle built from some files
      is reported present or its root is handed out, that root holds those files, byte for byte, and
      no others. */
  lemma WorkerGetsWhatWasPacked(env: Bundles.Env, metadataBytes: nat -> nat, max: nat, files: seq<Bundles.SourceFile>,
        bundleId: string, c: Cache, o: Offer)
    requires Injective(env.sha) && |files| > 0 && Bundles.Reversible(env, files, bundleId)
        && Bundles.Walked(env, files) && Bundles.Buildable(env, files, bundleId)
    requires o.archiveId == env.sha(Bundles.BuiltArchive(env, files, bundleId))
    requires var service := ServiceEnv(env, metadataBytes, max);
      BeginIn(service, c, o).1 == AlreadyPresent || RootIn(service, c.published, o.bundle, o.archiveId).Some?
    ensures o.bundle in c.published
    ensures var content := c.published[o.bundle].content;
      && (forall i :: 0 <= i < |files| ==> Gc.File(files[i].path, files[i].data) in content)
      && (forall f :: f in content ==> exists i :: 0 <= i < |files| && f == Gc.File(files[i].path, files[i].data))
  {
    VerifierIsFaithful(env, metadataBytes, max);
    BuiltPacks(env, metadataBytes, max, files, bundleId);
    RootHoldsFiles(ServiceEnv(env, metadataBytes, max), c, o, Bundles.BuiltArchive(env, files, bundleId), files);
  }
}
