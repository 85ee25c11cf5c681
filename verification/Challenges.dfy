/** The single-use challenge ledger (src/mncs_fabric/challenges.py). Times are integers, the
    clock reading of each call is arbitrary, and the hashes are arbitrary functions. */
module Challenges {
  import opened Orders
  import opened Ledger

  datatype ChallengeBody = ChallengeBody(issuer: string, issuedAt: int, expiresAt: int, nonce: string, scope: string)
  datatype Challenge = Challenge(body: ChallengeBody, id: Digest)

  /** A receipt's scope and what it observed of the challenge. */
  datatype ReceiptBody = ReceiptBody(scope: string, nonce: string, issuedAt: int, expiresAt: int, evidence: string)
  datatype Receipt = Receipt(body: ReceiptBody, id: Digest)

  datatype EntryBody = EntryBody(
    sequence: int, challenge: Digest, nonce: Digest, receipt: Digest, scope: string, consumedAt: int,
    previous: Option<Digest>, watermark: int)
  datatype ReplayEntry = ReplayEntry(body: EntryBody, id: Digest)

  datatype ReplayBody = ReplayBody(
    challenge: Digest, receipt: Digest, scope: string, consumedAt: int, sequence: int, nonce: Digest,
    entry: Digest, previous: Option<Digest>, watermark: int)
  datatype ReplayReceipt = ReplayReceipt(body: ReplayBody, id: Digest)

  /** `wellShaped` stands for the field patterns of a challenge. */
  datatype Rules = Rules(
    wellShaped: ChallengeBody -> bool, ofChallenge: ChallengeBody -> Digest, ofReceipt: ReceiptBody -> Digest,
    ofEntry: EntryBody -> Digest, ofReplay: ReplayBody -> Digest, ofNonce: string -> Digest)

  predicate ValidChallenge(k: Rules, c: Challenge) {
    k.wellShaped(c.body) && c.body.issuedAt < c.body.expiresAt && c.id == k.ofChallenge(c.body)
  }

  /** `bind_challenge_to_receipt`. */
  predicate Bound(k: Rules, c: Challenge, r: Receipt) {
    && ValidChallenge(k, c)
    && r.id == k.ofReceipt(r.body)
    && r.body.scope == c.body.scope
    && r.body.nonce == c.body.nonce && r.body.issuedAt == c.body.issuedAt && r.body.expiresAt == c.body.expiresAt
  }

  predicate Mentions(e: ReplayEntry, challenge: Digest, nonce: Digest)
        { e.body.challenge == challenge || e.body.nonce == nonce }

  predicate Spent(k: Rules, entries: seq<ReplayEntry>, c: Challenge) {
    exists i :: 0 <= i < |entries| && Mentions(entries[i], c.id, k.ofNonce(c.body.nonce))
  }

  /** The greatest watermark written so far. */
  function Watermark(entries: seq<ReplayEntry>): Option<int> {
    if |entries| == 0 then None
    else
      var before, last := Watermark(entries[..|entries| - 1]), entries[|entries| - 1].body.watermark;
      Some(if before.Some? && before.value > last then before.value else last)
  }

  function Effective(entries: seq<ReplayEntry>, now: int): int {
    var w := Watermark(entries);
    if w.Some? && w.value > now then w.value else now
  }

  predicate InWindow(c: Challenge, t: int) { c.body.issuedAt <= t < c.body.expiresAt }

  function Prior(entries: seq<ReplayEntry>): Option<Digest> {
    if |entries| == 0 then None else Some(entries[|entries| - 1].id)
  }

  function NewEntry(k: Rules, entries: seq<ReplayEntry>, c: Challenge, r: Receipt, now: int): ReplayEntry {
    var at := Effective(entries, now);
    var body := EntryBody(|entries| + 1, c.id, k.ofNonce(c.body.nonce), r.id, c.body.scope, at, Prior(entries), at);
    ReplayEntry(body, k.ofEntry(body))
  }

  function ReplayFor(k: Rules, e: ReplayEntry): ReplayReceipt {
    var b := e.body;
    var body := ReplayBody(b.challenge, b.receipt, b.scope, b.consumedAt, b.sequence, b.nonce, e.id, b.previous,
        b.watermark);
    ReplayReceipt(body, k.ofReplay(body))
  }

  predicate Consumable(k: Rules, entries: seq<ReplayEntry>, c: Challenge, r: Receipt, now: int) {
    Bound(k, c, r) && !Spent(k, entries, c) && InWindow(c, Effective(entries, now))
  }

  class ReplayStore {
    const rules: Rules
    var entries: seq<ReplayEntry>

    constructor (rules: Rules)
      ensures this.rules == rules && entries == []
    {
      this.rules, entries := rules, [];
    }

    method Consume(c: Challenge, r: Receipt, now: int) returns (replay: Option<ReplayReceipt>)
      modifies this
      ensures replay.Some? <==> Consumable(rules, old(entries), c, r, now)
      ensures replay.Some? ==>
        var e := NewEntry(rules, old(entries), c, r, now);
        entries == Add(old(entries), e) && replay.value == ReplayFor(rules, e)
      ensures replay.None? ==> entries == old(entries)
    {
      if !Bound(rules, c, r) { return None; }
      var digest := rules.ofNonce(c.body.nonce);
      var prior: Option<int> := None;
      for i := 0 to |entries|
        invariant forall j :: 0 <= j < i ==> !Mentions(entries[j], c.id, digest)
        invariant prior == Watermark(entries[..i])
      {
        if Mentions(entries[i], c.id, digest) { return None; }
        assert entries[..i + 1][..i] == entries[..i];
        var mark := entries[i].body.watermark;
        prior := Some(if prior.Some? && prior.value > mark then prior.value else mark);
      }
      assert entries[..|entries|] == entries;
      var effective := if prior.Some? && prior.value > now then prior.value else now;
      if effective < c.body.issuedAt || effective >= c.body.expiresAt { return None; }
      var entry := NewEntry(rules, entries, c, r, now);
      entries := Add(entries, entry);
      return Some(ReplayFor(rules, entry));
    }

    /** `verify_replay_receipt` against this store. */
    method VerifyReplay(replay: ReplayReceipt, c: Challenge, r: Receipt) returns (ok: bool)
      ensures ok <==> Verified(rules, entries, replay, c, r)
    {
      if replay.id != rules.ofReplay(replay.body) || !Bound(rules, c, r) { return false; }
      if replay.body.challenge != c.id || replay.body.receipt != r.id
          || replay.body.nonce != rules.ofNonce(c.body.nonce) { return false; }
      for i := 0 to |entries|
        invariant forall j :: 0 <= j < i ==> entries[j].id != replay.body.entry
      {
        if entries[i].id == replay.body.entry { return true; }
      }
      return false;
    }
  }

  ghost predicate Verified(k: Rules, entries: seq<ReplayEntry>, replay: ReplayReceipt, c: Challenge, r: Receipt) {
    && replay.id == k.ofReplay(replay.body)
    && Bound(k, c, r)
    && replay.body.challenge == c.id && replay.body.receipt == r.id && replay.body.nonce == k.ofNonce(c.body.nonce)
    && exists i :: 0 <= i < |entries| && entries[i].id == replay.body.entry
  }

  // ---- Every store ----------------------------------------------------------------------

  predicate LinksAt(k: Rules, e: ReplayEntry, position: int, previous: Option<Digest>) {
    e.body.sequence == position && e.body.previous == previous && e.id == k.ofEntry(e.body)
  }

  ghost predicate Linked(k: Rules, entries: seq<ReplayEntry>) {
    forall i :: 0 <= i < |entries| ==> LinksAt(k, entries[i], i + 1, Prior(entries[..i]))
  }

  ghost predicate SingleUse(entries: seq<ReplayEntry>) {
    forall i, j :: 0 <= i < j < |entries| ==>
      entries[i].body.challenge != entries[j].body.challenge && entries[i].body.nonce != entries[j].body.nonce
  }

  ghost predicate Monotone(entries: seq<ReplayEntry>) {
    forall i, j :: 0 <= i <= j < |entries| ==> entries[i].body.watermark <= entries[j].body.watermark
  }

  ghost predicate Inv(k: Rules, entries: seq<ReplayEntry>)
        { Linked(k, entries) && SingleUse(entries) && Monotone(entries) }

  /** The stored maximum is simply the last entry's watermark. */
  lemma {:induction false} WatermarkIsLast(entries: seq<ReplayEntry>)
    requires Monotone(entries) && |entries| > 0
    ensures Watermark(entries) == Some(entries[|entries| - 1].body.watermark)
  {
    if |entries| > 1 { WatermarkIsLast(entries[..|entries| - 1]); }
  }

  lemma LinkedAppend(k: Rules, entries: seq<ReplayEntry>, e: ReplayEntry)
    requires Linked(k, entries) && LinksAt(k, e, |entries| + 1, Prior(entries))
    ensures Linked(k, entries + [e]) && e !in entries
  {
    var after := entries + [e];
    forall i | 0 <= i < |after| ensures LinksAt(k, after[i], i + 1, Prior(after[..i])) {
      assert i < |entries| ==> after[..i] == entries[..i];
      assert after[..|entries|] == entries;
    }
    forall i | 0 <= i < |entries| ensures entries[i] != e {
      assert LinksAt(k, entries[i], i + 1, Prior(entries[..i]));
    }
  }

  lemma LinkedPrefix(k: Rules, entries: seq<ReplayEntry>, n: nat)
    requires Linked(k, entries) && n <= |entries|
    ensures Linked(k, entries[..n])
  {
    forall i | 0 <= i < n ensures LinksAt(k, entries[..n][i], i + 1, Prior(entries[..n][..i])) {
      assert entries[..n][..i] == entries[..i];
      assert LinksAt(k, entries[i], i + 1, Prior(entries[..i]));
    }
  }

  lemma {:induction false} MonotoneAppend(entries: seq<ReplayEntry>, e: ReplayEntry)
    requires Monotone(entries) && (|entries| > 0 ==> Watermark(entries).value <= e.body.watermark)
    ensures Monotone(entries + [e])
    ensures Watermark(entries + [e]) == Some(e.body.watermark)
  {
    var after := entries + [e];
    if |entries| > 0 { WatermarkIsLast(entries); }
    forall i, j | 0 <= i <= j < |after| ensures after[i].body.watermark <= after[j].body.watermark {
      assert i < |entries| ==> entries[i].body.watermark <= entries[|entries| - 1].body.watermark;
    }
    WatermarkIsLast(after);
  }

  lemma ConsumeKeeps(k: Rules, entries: seq<ReplayEntry>, c: Challenge, r: Receipt, now: int)
    requires Inv(k, entries) && Consumable(k, entries, c, r, now)
    ensures var e := NewEntry(k, entries, c, r, now);
      && Add(entries, e) == entries + [e] && Inv(k, entries + [e])
      && Watermark(entries + [e]) == Some(Effective(entries, now))
  {
    var e := NewEntry(k, entries, c, r, now);
    LinkedAppend(k, entries, e);
    MonotoneAppend(entries, e);
    forall i | 0 <= i < |entries| ensures !Mentions(entries[i], c.id, k.ofNonce(c.body.nonce)) {}
    assert SingleUse(entries + [e]);
  }

  // ---- Every run ------------------------------------------------------------------------

  datatype Op = Op(challenge: Challenge, receipt: Receipt, now: int)

  function Next(k: Rules, entries: seq<ReplayEntry>, op: Op): seq<ReplayEntry> {
    if Consumable(k, entries, op.challenge, op.receipt, op.now)
    then Add(entries, NewEntry(k, entries, op.challenge, op.receipt, op.now)) else entries
  }

  function Run(k: Rules, entries: seq<ReplayEntry>, ops: seq<Op>): seq<ReplayEntry>
    decreases |ops|
  {
    if |ops| == 0 then entries else Next(k, Run(k, entries, ops[..|ops| - 1]), ops[|ops| - 1])
  }

  /** The `i`th call of a run succeeds. */
  predicate Succeeds(k: Rules, ops: seq<Op>, i: nat)
    requires i < |ops|
  {
    Consumable(k, Run(k, [], ops[..i]), ops[i].challenge, ops[i].receipt, ops[i].now)
  }

  lemma {:induction false} RunKeeps(k: Rules, entries: seq<ReplayEntry>, ops: seq<Op>)
    requires Inv(k, entries)
    ensures Inv(k, Run(k, entries, ops)) && entries <= Run(k, entries, ops)
    decreases |ops|
  {
    if |ops| > 0 {
      RunKeeps(k, entries, ops[..|ops| - 1]);
      var before, op := Run(k, entries, ops[..|ops| - 1]), ops[|ops| - 1];
      if Consumable(k, before, op.challenge, op.receipt, op.now)
          { ConsumeKeeps(k, before, op.challenge, op.receipt, op.now); }
    }
  }

  /** Whatever the clocks read, every store reached is linked, numbered 1..n, single-use and
      monotone in its watermark. */
  lemma EveryStoreIsSound(k: Rules, ops: seq<Op>)
    ensures Inv(k, Run(k, [], ops))
  { RunKeeps(k, [], ops); }

  lemma {:induction false} RunSplits(k: Rules, entries: seq<ReplayEntry>, ops: seq<Op>, n: nat)
    requires n <= |ops|
    ensures Run(k, entries, ops) == Run(k, Run(k, entries, ops[..n]), ops[n..])
    decreases |ops|
  {
    if n == |ops| {
      assert ops[..n] == ops && ops[n..] == [];
    } else {
      var front := ops[..|ops| - 1];
      assert front[..n] == ops[..n] && front[n..] == ops[n..][..|ops| - n - 1];
      RunSplits(k, entries, front, n);
    }
  }

  /** The entry a successful call wrote is in every later store, inside its challenge's window. */
  lemma EntryOf(k: Rules, ops: seq<Op>, i: nat)
    requires i < |ops| && Succeeds(k, ops, i)
    ensures var before, op := Run(k, [], ops[..i]), ops[i];
      var e := NewEntry(k, before, op.challenge, op.receipt, op.now);
      && Run(k, [], ops[..i + 1]) == before + [e] <= Run(k, [], ops)
      && InWindow(op.challenge, e.body.consumedAt)
  {
    var before, op := Run(k, [], ops[..i]), ops[i];
    EveryStoreIsSound(k, ops[..i]);
    ConsumeKeeps(k, before, op.challenge, op.receipt, op.now);
    assert ops[..i + 1][..i] == ops[..i];
    RunSplits(k, [], ops, i + 1);
    RunKeeps(k, Run(k, [], ops[..i + 1]), ops[i + 1..]);
  }

  /** At most once: two successful calls never share a challenge identity or a nonce. */
  lemma ConsumedOnce(k: Rules, ops: seq<Op>, i: nat, j: nat)
    requires i < j < |ops| && Succeeds(k, ops, i) && Succeeds(k, ops, j)
    ensures ops[i].challenge.id != ops[j].challenge.id && ops[i].challenge.body.nonce != ops[j].challenge.body.nonce
  {
    var early := ops[..j];
    assert early[..i] == ops[..i];
    EntryOf(k, early, i);
    var n := |Run(k, [], ops[..i])|;
    assert !Mentions(Run(k, [], early)[n], ops[j].challenge.id, k.ofNonce(ops[j].challenge.body.nonce));
  }

  /** Once the watermark has reached a challenge's expiry, no later call consumes it, even if
      the clock is set back. */
  lemma ExpiredForever(k: Rules, entries: seq<ReplayEntry>, ops: seq<Op>, c: Challenge, r: Receipt, now: int)
    requires Inv(k, entries) && |entries| > 0 && entries[|entries| - 1].body.watermark >= c.body.expiresAt
    ensures !Consumable(k, Run(k, entries, ops), c, r, now)
  {
    var later := Run(k, entries, ops);
    RunKeeps(k, entries, ops);
    WatermarkIsLast(later);
    assert later[|entries| - 1] == entries[|entries| - 1];
  }

  /** The replay receipt of a successful call verifies against every later store. */
  lemma ReceiptsStayVerified(k: Rules, ops: seq<Op>, i: nat)
    requires i < |ops| && Succeeds(k, ops, i)
    ensures var e := NewEntry(k, Run(k, [], ops[..i]), ops[i].challenge, ops[i].receipt, ops[i].now);
      Verified(k, Run(k, [], ops), ReplayFor(k, e), ops[i].challenge, ops[i].receipt)
  {
    EntryOf(k, ops, i);
    var before := Run(k, [], ops[..i]);
    assert Run(k, [], ops)[|before|] == NewEntry(k, before, ops[i].challenge, ops[i].receipt, ops[i].now);
  }

  /** Tamper evidence: with no hash collisions the last entry identity fixes the whole store. */
  lemma {:induction false} HeadFixesStore(k: Rules, a: seq<ReplayEntry>, b: seq<ReplayEntry>)
    requires Injective(k.ofEntry) && Linked(k, a) && Linked(k, b) && Prior(a) == Prior(b)
    ensures a == b
  {
    if |a| > 0 {
      var n, m := |a| - 1, |b| - 1;
      assert LinksAt(k, a[n], n + 1, Prior(a[..n])) && LinksAt(k, b[m], m + 1, Prior(b[..m]));
      assert a[n] == b[m];
      LinkedPrefix(k, a, n);
      LinkedPrefix(k, b, m);
      HeadFixesStore(k, a[..n], b[..m]);
      assert a == a[..n] + [a[n]] && b == b[..m] + [b[m]];
    }
  }

  /** The greatest clock reading of the calls that succeeded. */
  function LatestSuccess(k: Rules, ops: seq<Op>): Option<int>
    decreases |ops|
  {
    if |ops| == 0 then None
    else
      var before, op := LatestSuccess(k, ops[..|ops| - 1]), ops[|ops| - 1];
      if !Consumable(k, Run(k, [], ops[..|ops| - 1]), op.challenge, op.receipt, op.now) then before
      else Some(if before.Some? && before.value > op.now then before.value else op.now)
  }

  /** The watermark is exactly the latest clock reading of a successful call: a refused call never
      moves it, and a clock set back never lowers it. */
  lemma {:induction false} WatermarkIsLatestSuccess(k: Rules, ops: seq<Op>)
    ensures Watermark(Run(k, [], ops)) == LatestSuccess(k, ops)
    decreases |ops|
  {
    if |ops| > 0 {
      var front, op := ops[..|ops| - 1], ops[|ops| - 1];
      WatermarkIsLatestSuccess(k, front);
      var before := Run(k, [], front);
      if Consumable(k, before, op.challenge, op.receipt, op.now) {
        EveryStoreIsSound(k, front);
        ConsumeKeeps(k, before, op.challenge, op.receipt, op.now);
      }
    }
  }
}
