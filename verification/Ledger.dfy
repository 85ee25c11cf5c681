/** The append-only hash-chained ledger (src/mncs_fabric/store.py). SHA-256 over a record
    and over an entry are arbitrary functions; collision freedom is a hypothesis where used. */
module Ledger {
  import opened Orders

  type Digest = int

  datatype Result<+T> = Ok(value: T) | Err(reason: string)

  datatype Material<R> =
    Material(sequence: int, previous: Option<Digest>, kind: string, record: R, recordId: Digest)
  datatype Entry<R> = Entry(body: Material<R>, entryId: Digest)
  datatype Hashes<!R> = Hashes(ofRecord: R -> Digest, ofEntry: Material<R> -> Digest)

  ghost predicate Injective<A(!new), B>(f: A -> B) { forall x, y :: f(x) == f(y) ==> x == y }

  function Head<R>(l: seq<Entry<R>>): Option<Digest> {
    if |l| == 0 then None else Some(l[|l| - 1].entryId)
  }

  predicate Links<R>(h: Hashes<R>, e: Entry<R>, position: int, previous: Option<Digest>) {
    && e.body.sequence == position
    && e.body.previous == previous
    && e.body.recordId == h.ofRecord(e.body.record)
    && e.entryId == h.ofEntry(e.body)
  }

  ghost predicate Chained<R>(h: Hashes<R>, l: seq<Entry<R>>) {
    forall i :: 0 <= i < |l| ==> Links(h, l[i], i + 1, Head(l[..i]))
  }

  ghost predicate DistinctRecords<R>(l: seq<Entry<R>>) {
    forall i, j :: 0 <= i < j < |l| ==> l[i].body.recordId != l[j].body.recordId
  }

  ghost predicate Valid<R>(h: Hashes<R>, l: seq<Entry<R>>) { Chained(h, l) && DistinctRecords(l) }

  function Seal<R>(h: Hashes<R>, l: seq<Entry<R>>, kind: string, record: R): Entry<R> {
    var body := Material(|l| + 1, Head(l), kind, record, h.ofRecord(record));
    Entry(body, h.ofEntry(body))
  }

  /** `_verify_unlocked`: stream the entries, carrying only the previous sequence and identity. */
  method Verify<R>(h: Hashes<R>, l: seq<Entry<R>>) returns (ok: bool)
    ensures ok <==> Chained(h, l)
  {
    var previousSequence, previousId := 0, None;
    for i := 0 to |l|
      invariant previousSequence == i && previousId == Head(l[..i])
      invariant Chained(h, l[..i])
    {
      var expected := if previousSequence > 0 then previousSequence + 1 else 1;
      if !Links(h, l[i], expected, previousId) {
        return false;
      }
      previousSequence, previousId := l[i].body.sequence, Some(l[i].entryId);
      assert l[..i + 1] == l[..i] + [l[i]];
      ChainedPrefix(h, l, i + 1);
    }
    assert l[..|l|] == l;
    return true;
  }

  lemma ChainedPrefix<R>(h: Hashes<R>, l: seq<Entry<R>>, n: nat)
    requires n <= |l|
    ensures Chained(h, l[..n]) <==> forall i :: 0 <= i < n ==> Links(h, l[i], i + 1, Head(l[..i]))
  {
    assert forall i :: 0 <= i < n ==> l[..n][i] == l[i] && l[..n][..i] == l[..i];
  }

  predicate GoodReason(reason: string) { 0 < |reason| <= 512 && '\0' !in reason }

  class FabricLedger<R(==)> {
    var entries: seq<Entry<R>>
    const hashes: Hashes<R>

    constructor (hashes: Hashes<R>)
      ensures entries == [] && this.hashes == hashes && Valid(hashes, entries)
    {
      this.hashes := hashes;
      entries := [];
    }

    /** Appends a sealed entry, unless a record of the same identity is already stored:
        then that entry is returned and nothing is written. */
    method Append(kind: string, record: R) returns (result: Result<Entry<R>>)
      requires Valid(hashes, entries)
      modifies this`entries
      ensures Valid(hashes, entries)
      ensures (forall e :: e in old(entries) ==> e.body.recordId != hashes.ofRecord(record)) ==>
        result == Ok(Seal(hashes, old(entries), kind, record)) && entries == old(entries) + [result.value]
      ensures forall e :: e in old(entries) && e.body.recordId == hashes.ofRecord(record) ==>
        entries == old(entries) &&
        result == if e.body.kind == kind && e.body.record == record then Ok(e)
            else Err("conflicting duplicate record identity")
    {
      var id := hashes.ofRecord(record);
      for i := 0 to |entries|
        invariant entries == old(entries)
        invariant forall j :: 0 <= j < i ==> entries[j].body.recordId != id
      {
        var existing := entries[i];
        if existing.body.recordId == id {
          assert forall e :: e in entries && e.body.recordId == id ==> e == existing;
          if existing.body.kind != kind || existing.body.record != record {
            return Err("conflicting duplicate record identity");
          }
          return Ok(existing);
        }
      }
      var entry := Seal(hashes, entries, kind, record);
      SealKeeps(hashes, entries, kind, record);
      entries := entries + [entry];
      return Ok(entry);
    }

    /** Rewrites the ledger with the kept entries resealed into a fresh chain and a receipt naming the
        old head and the counts as the last record; refuses, unchanged, when too many would be kept. */
    method Compact(
        keep: Entry<R> -> bool, reason: string, maxKept: int, receipt: (string, Option<Digest>, nat, nat) -> R)
        returns (ok: bool)
      requires Valid(hashes, entries)
      modifies this`entries
      ensures ok <==> GoodReason(reason) && 1 <= maxKept <= 100000 && |Keep(keep, old(entries))| <= maxKept
      ensures !ok ==> entries == old(entries)
      ensures ok ==>
        var kept := Keep(keep, old(entries));
        var note := receipt(reason, Head(old(entries)), |old(entries)|, |kept|);
        && Chained(hashes, entries) && |entries| == |kept| + 1
        && (forall i :: 0 <= i < |kept| ==> SameRecord(entries[i], kept[i]))
        && entries[|kept|].body.kind == "ledger.compaction" && entries[|kept|].body.record == note
        && (Valid(hashes, entries) <==> forall i :: 0 <= i < |kept| ==> kept[i].body.recordId != hashes.ofRecord(note))
    {
      if !GoodReason(reason) || !(1 <= maxKept <= 100000) { return false; }
      var kept: seq<Entry<R>> := [];
      for i := 0 to |entries|
        invariant kept == Keep(keep, entries[..i]) && |kept| <= maxKept
      {
        assert entries[..i + 1][..i] == entries[..i];
        if keep(entries[i]) { kept := kept + [entries[i]]; }
        if |kept| > maxKept {
          KeptGrows(keep, entries, i + 1);
          return false;
        }
      }
      assert entries[..|entries|] == entries;
      KeptFrom(hashes, keep, entries);
      var resealed := Reseal(hashes, kept);
      var note := receipt(reason, Head(entries), |entries|, |kept|);
      ChainedSeal(hashes, resealed, "ledger.compaction", note);
      ReceiptDistinct(hashes, kept, resealed, "ledger.compaction", note);
      entries := resealed + [Seal(hashes, resealed, "ledger.compaction", note)];
      return true;
    }
  }

  method Reseal<R(==)>(h: Hashes<R>, kept: seq<Entry<R>>) returns (resealed: seq<Entry<R>>)
    requires forall i :: 0 <= i < |kept| ==> kept[i].body.recordId == h.ofRecord(kept[i].body.record)
    ensures Chained(h, resealed) && |resealed| == |kept|
    ensures forall i :: 0 <= i < |kept| ==> SameRecord(resealed[i], kept[i])
  {
    resealed := [];
    for i := 0 to |kept|
      invariant Chained(h, resealed) && |resealed| == i
      invariant forall k :: 0 <= k < i ==> SameRecord(resealed[k], kept[k])
    {
      ChainedSeal(h, resealed, kept[i].body.kind, kept[i].body.record);
      resealed := resealed + [Seal(h, resealed, kept[i].body.kind, kept[i].body.record)];
    }
  }

  lemma {:induction false} KeptGrows<R>(keep: Entry<R> -> bool, l: seq<Entry<R>>, n: nat)
    requires n <= |l|
    ensures |Keep(keep, l[..n])| <= |Keep(keep, l)|
    decreases |l| - n
  {
    if n < |l| {
      assert l[..n + 1][..n] == l[..n];
      KeptGrows(keep, l, n + 1);
    } else {
      assert l[..n] == l;
    }
  }

  lemma {:induction false} KeptDistinct<R>(keep: Entry<R> -> bool, l: seq<Entry<R>>)
    requires DistinctRecords(l)
    ensures DistinctRecords(Keep(keep, l))
  {
    if |l| > 0 {
      var front, last := l[..|l| - 1], l[|l| - 1];
      var kept := Keep(keep, front);
      KeptDistinct(keep, front);
      KeepMembers(keep, front);
      forall i | 0 <= i < |kept| ensures kept[i].body.recordId != last.body.recordId {
        assert kept[i] in front;
        var j :| 0 <= j < |front| && front[j] == kept[i];
        assert l[j] == front[j];
      }
    }
  }

  /** Kept entries come from the ledger, each once. */
  lemma KeptFrom<R>(h: Hashes<R>, keep: Entry<R> -> bool, l: seq<Entry<R>>)
    requires Valid(h, l)
    ensures DistinctRecords(Keep(keep, l))
    ensures forall i :: 0 <= i < |Keep(keep, l)| ==>
      Keep(keep, l)[i].body.recordId == h.ofRecord(Keep(keep, l)[i].body.record)
  {
    var kept := Keep(keep, l);
    KeptDistinct(keep, l);
    KeepMembers(keep, l);
    forall i | 0 <= i < |kept| ensures kept[i].body.recordId == h.ofRecord(kept[i].body.record) {
      assert kept[i] in l;
      var j :| 0 <= j < |l| && l[j] == kept[i];
      KeptRecorded(h, l, j);
    }
  }

  lemma ReceiptDistinct<R>(h: Hashes<R>, kept: seq<Entry<R>>, resealed: seq<Entry<R>>, kind: string, note: R)
    requires DistinctRecords(kept) && |resealed| == |kept| && forall i :: 0 <= i < |kept| ==>
      SameRecord(resealed[i], kept[i])
    ensures DistinctRecords(resealed + [Seal(h, resealed, kind, note)]) <==>
      forall i :: 0 <= i < |kept| ==> kept[i].body.recordId != h.ofRecord(note)
  {
    var after := resealed + [Seal(h, resealed, kind, note)];
    assert after[|kept|].body.recordId == h.ofRecord(note);
    forall i | 0 <= i < |kept|
      ensures after[i].body.recordId == kept[i].body.recordId { assert SameRecord(resealed[i], kept[i]); }
    if DistinctRecords(after) {
      forall i | 0 <= i < |kept|
        ensures kept[i].body.recordId != h.ofRecord(note)
            { assert after[i].body.recordId != after[|kept|].body.recordId; }
    }
  }

  ghost predicate SameRecord<R>(a: Entry<R>, b: Entry<R>) {
    a.body.record == b.body.record && a.body.kind == b.body.kind && a.body.recordId == b.body.recordId
  }

  lemma KeptRecorded<R>(h: Hashes<R>, l: seq<Entry<R>>, i: nat)
    requires Chained(h, l) && i < |l|
    ensures l[i].body.recordId == h.ofRecord(l[i].body.record)
  {}

  lemma ChainedSeal<R>(h: Hashes<R>, l: seq<Entry<R>>, kind: string, record: R)
    requires Chained(h, l)
    ensures Chained(h, l + [Seal(h, l, kind, record)])
  {
    var m := l + [Seal(h, l, kind, record)];
    forall i | 0 <= i < |m| ensures Links(h, m[i], i + 1, Head(m[..i])) {
      assert i < |l| ==> m[..i] == l[..i];
      assert m[..|l|] == l;
    }
  }

  lemma SealKeeps<R>(h: Hashes<R>, l: seq<Entry<R>>, kind: string, record: R)
    requires Valid(h, l)
    requires forall i :: 0 <= i < |l| ==> l[i].body.recordId != h.ofRecord(record)
    ensures Valid(h, l + [Seal(h, l, kind, record)])
  {
    ChainedSeal(h, l, kind, record);
  }

  /** Tamper evidence: two verified ledgers with the same head identity are the same ledger,
      entry for entry, when entry hashing has no collision. */
  lemma {:induction false} HeadDeterminesLedger<R(!new)>(h: Hashes<R>, a: seq<Entry<R>>, b: seq<Entry<R>>)
    requires Injective(h.ofEntry)
    requires Chained(h, a) && Chained(h, b) && Head(a) == Head(b)
    ensures a == b
  {
    if |a| > 0 {
      var n, m := |a| - 1, |b| - 1;
      assert Links(h, a[n], n + 1, Head(a[..n])) && Links(h, b[m], m + 1, Head(b[..m]));
      assert a[n] == b[m];
      ChainedPrefix(h, a, n);
      ChainedPrefix(h, b, m);
      HeadDeterminesLedger(h, a[..n], b[..m]);
      assert a == a[..n] + [a[n]] && b == b[..m] + [b[m]];
    }
  }

  // ---- Records only ------------------------------------------------------------

  function Records<R>(l: seq<Entry<R>>): (r: seq<R>)
    ensures |r| == |l| && forall i :: 0 <= i < |l| ==> r[i] == l[i].body.record
  {
    seq(|l|, i requires 0 <= i < |l| => l[i].body.record)
  }

  /** What an append does to the stored records: a record already present is not added again. */
  function Add<R(==)>(records: seq<R>, record: R): (r: seq<R>)
    ensures record in r && records <= r
  {
    if record in records then records else records + [record]
  }

  /** The store modules see the ledger through `Add`; this is what `Append` does to the records
      when record hashing has no collision. */
  lemma AddIsAppend<R(!new)>(h: Hashes<R>, l: seq<Entry<R>>, kind: string, record: R, after: seq<Entry<R>>)
    requires Valid(h, l) && Injective(h.ofRecord)
    requires (forall e :: e in l ==> e.body.recordId != h.ofRecord(record)) ==> after == l + [Seal(h, l, kind, record)]
    requires (exists e :: e in l && e.body.recordId == h.ofRecord(record)) ==> after == l
    ensures Records(after) == Add(Records(l), record)
  {
    forall i | 0 <= i < |l| ensures l[i].body.recordId == h.ofRecord(record) <==> l[i].body.record == record {
      assert Links(h, l[i], i + 1, Head(l[..i]));
    }
    if record in Records(l) {
      var i :| 0 <= i < |l| && Records(l)[i] == record;
      assert l[i] in l;
    } else {
      forall e | e in l ensures e.body.recordId != h.ofRecord(record) {
        var i :| 0 <= i < |l| && l[i] == e;
        assert Records(l)[i] == e.body.record;
      }
    }
  }
}
