/** Capability leases (`CapabilityLeaseStore` in src/mncs_fabric/capability_broker.py): lease
    state is derived by replaying ledger events against a clock. Times are integers; every
    reading of the wall clock is a parameter of its own. */
module Leases {
  import opened Orders
  import opened Ledger

  const MAX_LEASE_SECONDS := 24 * 60 * 60

  datatype LeaseState = Active | Revoked | Expired | Cleaned

  datatype Scope = Scope(worker: string, experiment: Option<string>, operations: map<string, set<string>>)
  datatype Body = Body(scope: Scope, grantedAt: int, expiresAt: int)
  datatype Lease = Lease(id: string, body: Body)

  datatype LeaseEvent =
    | Grant(lease: Lease)
    | Change(lease_id: string, worker: string, state: LeaseState, reason: string, changedAt: int)

  function IdOf(e: LeaseEvent): string { if e.Grant? then e.lease.id else e.lease_id }

  /** `validate_capability_lease`: the identity is the hash of the body, the scope names at least
      one operation of each capability, and the time to live is bounded. */
  predicate ValidLease(identify: Body -> string, lease: Lease) {
    && lease.id == identify(lease.body)
    && lease.body.scope.operations != map[]
    && (forall c :: c in lease.body.scope.operations ==> lease.body.scope.operations[c] != {})
    && 0 < lease.body.expiresAt - lease.body.grantedAt <= MAX_LEASE_SECONDS
  }

  function About(id: string): LeaseEvent -> bool { (e: LeaseEvent) => IdOf(e) == id }

  function EventsOf(ledger: seq<LeaseEvent>, id: string): seq<LeaseEvent> { Keep(About(id), ledger) }

  /** Replay: a state event sets the state, a repeated grant carries none and leaves it. */
  function Replay(events: seq<LeaseEvent>): LeaseState {
    if |events| <= 1 then Active
    else
      var last := events[|events| - 1];
      if last.Change? then last.state else Replay(events[..|events| - 1])
  }

  function StateAt(identify: Body -> string, events: seq<LeaseEvent>, now: int): Result<(Lease, LeaseState)> {
    if |events| == 0 || !events[0].Grant? || !ValidLease(identify, events[0].lease) then
      Err("capability lease was not found or is invalid")
    else
      var lease, state := events[0].lease, Replay(events);
      Ok((lease, if state.Active? && now >= lease.body.expiresAt then Expired else state))
  }

  function InspectIn(identify: Body -> string, ledger: seq<LeaseEvent>, id: string, now: int): Result<(Lease,
        LeaseState)> {
    StateAt(identify, EventsOf(ledger, id), now)
  }

  predicate Covers(scope: Scope, worker: string, capability: string, operation: string, experiment: Option<string>) {
    && scope.worker == worker
    && capability in scope.operations
    && operation in scope.operations[capability]
    && (scope.experiment.None? || scope.experiment == experiment)
  }

  predicate ActiveIn(identify: Body -> string, ledger: seq<LeaseEvent>, id: string, worker: string,
                     capability: string, operation: string, experiment: Option<string>, now: int)
  {
    match InspectIn(identify, ledger, id, now)
    case Err(_) => false
    case Ok((lease, state)) => state.Active? && Covers(lease.body.scope, worker, capability, operation, experiment)
  }

  /** Two wall clock readings: one to inspect with, one to stamp the record. */
  datatype Reading = Reading(at: int, stamp: int)

  function ChangeFor(lease: Lease, state: LeaseState, reason: string, stamp: int): LeaseEvent {
    Change(lease.id, lease.body.scope.worker, state, reason, stamp)
  }

  /** `_set_state`. */
  function SetIn(identify: Body -> string, ledger: seq<LeaseEvent>, id: string, state: LeaseState, reason: string,
        clock: Reading): Result<seq<LeaseEvent>> {
    match InspectIn(identify, ledger, id, clock.at)
    case Err(e) => Err(e)
    case Ok((lease, current)) =>
      Ok(if current == state then ledger else Add(ledger, ChangeFor(lease, state, reason, clock.stamp)))
  }

  const ELAPSED := "lease ttl elapsed"
  const COMPLETED := "lease cleanup completed"

  predicate Concerns(lease: Lease, worker: Option<string>) { worker.None? || lease.body.scope.worker == worker.value }

  predicate HasState(events: seq<LeaseEvent>, state: LeaseState) {
    exists i :: 1 <= i < |events| && events[i].Change? && events[i].state == state
  }

  /** One identity's turn in the loop of `expire`. */
  function ExpireOne(identify: Body -> string, ledger: seq<LeaseEvent>, id: string, now: int, worker: Option<string>,
        clock: Reading): seq<LeaseEvent> {
    match InspectIn(identify, ledger, id, now)
    case Err(_) => ledger
    case Ok((lease, state)) =>
      if Concerns(lease, worker) && state.Expired? && !HasState(EventsOf(ledger, id), Expired) then
        var r := SetIn(identify, ledger, id, Expired, ELAPSED, clock);
        if r.Ok? then r.value else ledger
      else ledger
  }

  /** One identity's turn in the loop of `cleanup`. */
  function CleanOne(identify: Body -> string, ledger: seq<LeaseEvent>, id: string, now: int, worker: Option<string>,
        clock: Reading): seq<LeaseEvent> {
    match InspectIn(identify, ledger, id, now)
    case Err(_) => ledger
    case Ok((lease, state)) =>
      if Concerns(lease, worker) && (state.Expired? || state.Revoked?) then
        var r := SetIn(identify, ledger, id, Cleaned, COMPLETED, clock);
        if r.Ok? then r.value else ledger
      else ledger
  }

  function ExpireAll(identify: Body -> string, ledger: seq<LeaseEvent>, ids: seq<string>, now: int,
        worker: Option<string>, clock: string -> Reading): seq<LeaseEvent> {
    if |ids| == 0 then ledger
    else
      var id := ids[|ids| - 1];
      ExpireOne(identify, ExpireAll(identify, ledger, ids[..|ids| - 1], now, worker, clock), id, now, worker, clock(id))
  }

  function CleanAll(identify: Body -> string, ledger: seq<LeaseEvent>, ids: seq<string>, now: int,
        worker: Option<string>, clock: string -> Reading): seq<LeaseEvent> {
    if |ids| == 0 then ledger
    else
      var id := ids[|ids| - 1];
      CleanOne(identify, CleanAll(identify, ledger, ids[..|ids| - 1], now, worker, clock), id, now, worker, clock(id))
  }

  function Identities(ledger: seq<LeaseEvent>): (ids: seq<string>)
    ensures NoDuplicates(ids)
    ensures forall id :: id in ids <==> exists i :: 0 <= i < |ledger| && IdOf(ledger[i]) == id
  {
    if |ledger| == 0 then []
    else
      var before, id := Identities(ledger[..|ledger| - 1]), IdOf(ledger[|ledger| - 1]);
      if id in before then before else before + [id]
  }

  function SortedIdentities(ledger: seq<LeaseEvent>): seq<string> { Sort(TextLe, Identities(ledger)) }

  function ExpireLedger(identify: Body -> string, ledger: seq<LeaseEvent>, now: int, worker: Option<string>,
        clock: string -> Reading): seq<LeaseEvent> {
    ExpireAll(identify, ledger, SortedIdentities(ledger), now, worker, clock)
  }

  function CleanLedger(identify: Body -> string, ledger: seq<LeaseEvent>, now: int, worker: Option<string>,
        expiring: string -> Reading, cleaning: string -> Reading): seq<LeaseEvent> {
    var expired := ExpireLedger(identify, ledger, now, worker, expiring);
    CleanAll(identify, expired, SortedIdentities(expired), now, worker, cleaning)
  }

  class LeaseStore {
    var ledger: seq<LeaseEvent>
    const identify: Body -> string

    constructor (identify: Body -> string)
      ensures ledger == [] && this.identify == identify
    {
      this.identify := identify;
      ledger := [];
    }

    method GrantLease(lease: Lease) returns (ok: bool)
      modifies this
      ensures ok <==> ValidLease(identify, lease)
      ensures ledger == if ok then Add(old(ledger), Grant(lease)) else old(ledger)
    {
      ok := ValidLease(identify, lease);
      if ok { ledger := Add(ledger, Grant(lease)); }
    }

    method Events(id: string) returns (events: seq<LeaseEvent>)
      ensures events == EventsOf(ledger, id)
    {
      events := [];
      for i := 0 to |ledger|
        invariant events == EventsOf(ledger[..i], id)
      {
        assert ledger[..i + 1][..i] == ledger[..i];
        if IdOf(ledger[i]) == id { events := events + [ledger[i]]; }
      }
      assert ledger[..|ledger|] == ledger;
    }

    method Inspect(id: string, now: int) returns (r: Result<(Lease, LeaseState)>)
      ensures r == InspectIn(identify, ledger, id, now)
    {
      var events := Events(id);
      if |events| == 0 || !events[0].Grant? || !ValidLease(identify, events[0].lease) {
        return Err("capability lease was not found or is invalid");
      }
      var state := Active;
      for i := 1 to |events|
        invariant state == Replay(events[..i])
      {
        assert events[..i + 1][..i] == events[..i];
        if events[i].Change? { state := events[i].state; }
      }
      assert events[..|events|] == events;
      if state.Active? && now >= events[0].lease.body.expiresAt { state := Expired; }
      return Ok((events[0].lease, state));
    }

    method IsActive(id: string, worker: string, capability: string, operation: string, experiment: Option<string>,
          now: int)
        returns (active: bool)
      ensures active == ActiveIn(identify, ledger, id, worker, capability, operation, experiment, now)
    {
      var r := Inspect(id, now);
      if r.Err? { return false; }
      return r.value.1.Active? && Covers(r.value.0.body.scope, worker, capability, operation, experiment);
    }

    method SetState(id: string, state: LeaseState, reason: string, clock: Reading) returns (ok: bool)
      modifies this
      ensures var r := SetIn(identify, old(ledger), id, state, reason, clock);
        ok == r.Ok? && ledger == if ok then r.value else old(ledger)
    {
      var r := Inspect(id, clock.at);
      if r.Err? { return false; }
      if r.value.1 != state { ledger := Add(ledger, ChangeFor(r.value.0, state, reason, clock.stamp)); }
      return true;
    }

    /** One identity's turn in `expire`. */
    method ExpireTurn(id: string, now: int, worker: Option<string>, clock: Reading)
      modifies this
      ensures ledger == ExpireOne(identify, old(ledger), id, now, worker, clock)
    {
      var inspected := Inspect(id, now);
      if inspected.Ok? && Concerns(inspected.value.0, worker) {
        var events := Events(id);
        if inspected.value.1.Expired? && !HasState(events, Expired) {
          var _ := SetState(id, Expired, ELAPSED, clock);
        }
      }
    }

    method Expire(now: int, worker: Option<string>, clock: string -> Reading)
      modifies this
      ensures ledger == ExpireLedger(identify, old(ledger), now, worker, clock)
    {
      var ids := SortedIdentities(ledger);
      for i := 0 to |ids|
        invariant ledger == ExpireAll(identify, old(ledger), ids[..i], now, worker, clock)
      {
        assert ids[..i + 1][..i] == ids[..i];
        ExpireTurn(ids[i], now, worker, clock(ids[i]));
      }
      assert ids[..|ids|] == ids;
    }

    /** One identity's turn in `cleanup`. */
    method CleanTurn(id: string, now: int, worker: Option<string>, clock: Reading)
      modifies this
      ensures ledger == CleanOne(identify, old(ledger), id, now, worker, clock)
    {
      var inspected := Inspect(id, now);
      if inspected.Ok? && Concerns(inspected.value.0, worker)
          && (inspected.value.1.Expired? || inspected.value.1.Revoked?) {
        var _ := SetState(id, Cleaned, COMPLETED, clock);
      }
    }

    method CleanEach(now: int, worker: Option<string>, clock: string -> Reading)
      modifies this
      ensures ledger == CleanAll(identify, old(ledger), SortedIdentities(old(ledger)), now, worker, clock)
    {
      var ids := SortedIdentities(ledger);
      for i := 0 to |ids|
        invariant ledger == CleanAll(identify, old(ledger), ids[..i], now, worker, clock)
      {
        assert ids[..i + 1][..i] == ids[..i];
        CleanTurn(ids[i], now, worker, clock(ids[i]));
      }
      assert ids[..|ids|] == ids;
    }

    method Cleanup(now: int, worker: Option<string>, expiring: string -> Reading, cleaning: string -> Reading)
      modifies this
      ensures ledger == CleanLedger(identify, old(ledger), now, worker, expiring, cleaning)
    {
      Expire(now, worker, expiring);
      CleanEach(now, worker, cleaning);
    }
  }

  // ---- What every run keeps -----------------------------------------------------------

  datatype Op =
    | GrantOp(lease: Lease)
    | RevokeOp(id: string, reason: string, clock: Reading)
    | ExpireOp(now: int, worker: Option<string>, expiring: string -> Reading)
    | CleanupOp(now: int, worker: Option<string>, expiring: string -> Reading, cleaning: string -> Reading)

  function Next(identify: Body -> string, ledger: seq<LeaseEvent>, op: Op): seq<LeaseEvent> {
    match op
    case GrantOp(lease) => if ValidLease(identify, lease) then Add(ledger, Grant(lease)) else ledger
    case RevokeOp(id, reason, clock) =>
      var r := SetIn(identify, ledger, id, Revoked, reason, clock);
      if r.Ok? then r.value else ledger
    case ExpireOp(now, worker, clock) => ExpireLedger(identify, ledger, now, worker, clock)
    case CleanupOp(now, worker, expiring, cleaning) => CleanLedger(identify, ledger, now, worker, expiring, cleaning)
  }

  function After(identify: Body -> string, ledger: seq<LeaseEvent>, ops: seq<Op>): seq<LeaseEvent>
    decreases |ops|
  {
    if |ops| == 0 then ledger else After(identify, Next(identify, ledger, ops[0]), ops[1..])
  }

  /** Every grant is valid; every state event is a real change and follows a grant of its lease. */
  ghost predicate Sound(identify: Body -> string, ledger: seq<LeaseEvent>) {
    forall i :: 0 <= i < |ledger| ==>
      if ledger[i].Grant? then ValidLease(identify, ledger[i].lease)
      else ledger[i].state != Active && GrantedBefore(ledger, ledger[i].lease_id, i)
  }

  ghost predicate GrantedBefore(ledger: seq<LeaseEvent>, id: string, n: nat)
    requires n <= |ledger|
  {
    exists j :: 0 <= j < n && ledger[j].Grant? && ledger[j].lease.id == id
  }

  lemma EventsOfAppend(ledger: seq<LeaseEvent>, e: LeaseEvent, id: string)
    ensures EventsOf(ledger + [e], id) == EventsOf(ledger, id) + (if IdOf(e) == id then [e] else [])
  { KeepOne(About(id), ledger, e); }

  lemma EventsOfMembers(ledger: seq<LeaseEvent>, id: string)
    ensures forall e :: e in EventsOf(ledger, id) <==> e in ledger && IdOf(e) == id
  { KeepMembers(About(id), ledger); }

  /** What the replay finds in a sound ledger: a valid grant first, then real changes. */
  ghost predicate Replayable(identify: Body -> string, events: seq<LeaseEvent>, id: string) {
    && (|events| > 0 ==> events[0].Grant?)
    && (forall i :: 0 <= i < |events| ==>
          IdOf(events[i]) == id && if events[i].Grant? then ValidLease(identify, events[i].lease)
              else events[i].state != Active)
  }

  lemma SoundPrefix(identify: Body -> string, ledger: seq<LeaseEvent>, n: nat)
    requires Sound(identify, ledger) && n <= |ledger|
    ensures Sound(identify, ledger[..n])
  {
    var front := ledger[..n];
    forall i | 0 <= i < n && front[i].Change? ensures GrantedBefore(front, front[i].lease_id, i) {
      assert GrantedBefore(ledger, ledger[i].lease_id, i);
      var j :| 0 <= j < i && ledger[j].Grant? && ledger[j].lease.id == ledger[i].lease_id;
      assert front[j] == ledger[j];
    }
  }

  lemma ReplayableAppend(identify: Body -> string, events: seq<LeaseEvent>, e: LeaseEvent, id: string)
    requires Replayable(identify, events, id) && IdOf(e) == id
    requires if e.Grant? then ValidLease(identify, e.lease) else e.state != Active && events != []
    ensures Replayable(identify, events + [e], id)
  {}

  lemma GrantIsAnEvent(ledger: seq<LeaseEvent>, id: string, n: nat)
    requires n <= |ledger| && GrantedBefore(ledger, id, n)
    ensures EventsOf(ledger[..n], id) != []
  {
    var j :| 0 <= j < n && ledger[j].Grant? && ledger[j].lease.id == id;
    EventsOfMembers(ledger[..n], id);
    assert ledger[..n][j] in EventsOf(ledger[..n], id);
  }

  lemma {:induction false} SoundIsReplayable(identify: Body -> string, ledger: seq<LeaseEvent>, id: string)
    requires Sound(identify, ledger)
    ensures Replayable(identify, EventsOf(ledger, id), id)
  {
    if |ledger| > 0 {
      var n := |ledger| - 1;
      SoundPrefix(identify, ledger, n);
      SoundIsReplayable(identify, ledger[..n], id);
      if IdOf(ledger[n]) == id {
        if ledger[n].Change? { GrantIsAnEvent(ledger, id, n); }
        ReplayableAppend(identify, EventsOf(ledger[..n], id), ledger[n], id);
      }
    }
  }

  lemma {:induction false} ReplayActive(identify: Body -> string, events: seq<LeaseEvent>, id: string)
    requires Replayable(identify, events, id) && |events| > 0
    ensures Replay(events).Active? <==> forall e :: e in events ==> e.Grant?
  {
    if |events| > 1 {
      var front, last := events[..|events| - 1], events[|events| - 1];
      assert events == front + [last];
      if last.Grant? {
        ReplayActive(identify, front, id);
      } else {
        assert last in events;
      }
    } else {
      assert events == [events[0]];
    }
  }

  /** A lease authorises exactly when it was granted, no state event names it, its expiry is
      still ahead and its scope covers the request. */
  lemma ActiveExactlyWhen(identify: Body -> string, ledger: seq<LeaseEvent>, id: string, worker: string,
                          capability: string, operation: string, experiment: Option<string>, now: int)
    requires Sound(identify, ledger) && Injective(identify)
    ensures ActiveIn(identify, ledger, id, worker, capability, operation, experiment, now) <==>
      && (forall e :: e in ledger && e.Change? ==> e.lease_id != id)
      && (exists lease :: Grant(lease) in ledger && lease.id == id && now < lease.body.expiresAt
                          && Covers(lease.body.scope, worker, capability, operation, experiment))
  {
    var events := EventsOf(ledger, id);
    SoundIsReplayable(identify, ledger, id);
    EventsOfMembers(ledger, id);
    if |events| > 0 {
      ReplayActive(identify, events, id);
      var first := events[0].lease;
      assert Grant(first) in ledger;
      forall lease | Grant(lease) in ledger && lease.id == id ensures lease == first {
        assert Grant(lease) in events;
      }
    } else {
      forall lease | Grant(lease) in ledger ensures lease.id != id {
        assert Grant(lease) !in events;
      }
    }
  }

  // ---- The ledger only grows, one event of the named lease at a time -------------------------

  ghost predicate AddsOnly(ledger: seq<LeaseEvent>, after: seq<LeaseEvent>, id: string) {
    after == ledger || (exists e :: IdOf(e) == id && after == ledger + [e])
  }

  lemma SetInAddsOnly(identify: Body -> string, ledger: seq<LeaseEvent>, id: string, state: LeaseState,
        reason: string, clock: Reading)
    requires Sound(identify, ledger) && state != Active
    ensures var r := SetIn(identify, ledger, id, state, reason, clock);
      r.Ok? ==> AddsOnly(ledger, r.value, id) && Sound(identify, r.value)
  {
    var r := SetIn(identify, ledger, id, state, reason, clock);
    if r.Ok? && r.value != ledger {
      var lease := EventsOf(ledger, id)[0].lease;
      SoundIsReplayable(identify, ledger, id);
      EventsOfMembers(ledger, id);
      var e := ChangeFor(lease, state, reason, clock.stamp);
      assert r.value == ledger + [e] && IdOf(e) == id;
      assert Grant(lease) in ledger by { assert EventsOf(ledger, id)[0] in EventsOf(ledger, id); }
      AppendKeepsSound(identify, ledger, e);
    }
  }

  lemma AppendKeepsSound(identify: Body -> string, ledger: seq<LeaseEvent>, e: LeaseEvent)
    requires Sound(identify, ledger)
    requires if e.Grant? then ValidLease(identify, e.lease) else
      e.state != Active && exists g :: g in ledger && g.Grant? && g.lease.id == e.lease_id
    ensures Sound(identify, ledger + [e])
  {
    var more := ledger + [e];
    forall i | 0 <= i < |more| && more[i].Change? ensures GrantedBefore(more, more[i].lease_id, i) {
      if i < |ledger| {
        assert GrantedBefore(ledger, ledger[i].lease_id, i);
        var j :| 0 <= j < i && ledger[j].Grant? && ledger[j].lease.id == ledger[i].lease_id;
        assert more[j] == ledger[j];
      } else {
        var g :| g in ledger && g.Grant? && g.lease.id == e.lease_id;
        var j :| 0 <= j < |ledger| && ledger[j] == g;
        assert more[j] == g;
      }
    }
  }

  lemma {:induction false} ExpireAllKeeps(identify: Body -> string, ledger: seq<LeaseEvent>, ids: seq<string>,
        now: int, worker: Option<string>, clock: string -> Reading)
    requires Sound(identify, ledger)
    ensures var after := ExpireAll(identify, ledger, ids, now, worker, clock); ledger <= after && Sound(identify, after)
  {
    if |ids| > 0 {
      ExpireAllKeeps(identify, ledger, ids[..|ids| - 1], now, worker, clock);
      var before := ExpireAll(identify, ledger, ids[..|ids| - 1], now, worker, clock);
      SetInAddsOnly(identify, before, ids[|ids| - 1], Expired, ELAPSED, clock(ids[|ids| - 1]));
    }
  }

  lemma {:induction false} CleanAllKeeps(identify: Body -> string, ledger: seq<LeaseEvent>, ids: seq<string>,
        now: int, worker: Option<string>, clock: string -> Reading)
    requires Sound(identify, ledger)
    ensures var after := CleanAll(identify, ledger, ids, now, worker, clock); ledger <= after && Sound(identify, after)
  {
    if |ids| > 0 {
      CleanAllKeeps(identify, ledger, ids[..|ids| - 1], now, worker, clock);
      var before := CleanAll(identify, ledger, ids[..|ids| - 1], now, worker, clock);
      SetInAddsOnly(identify, before, ids[|ids| - 1], Cleaned, COMPLETED, clock(ids[|ids| - 1]));
    }
  }

  lemma NextKeeps(identify: Body -> string, ledger: seq<LeaseEvent>, op: Op)
    requires Sound(identify, ledger)
    ensures ledger <= Next(identify, ledger, op) && Sound(identify, Next(identify, ledger, op))
  {
    match op
    case GrantOp(lease) =>
      if ValidLease(identify, lease) && Grant(lease) !in ledger { AppendKeepsSound(identify, ledger, Grant(lease)); }
    case RevokeOp(id, reason, clock) => SetInAddsOnly(identify, ledger, id, Revoked, reason, clock);
    case ExpireOp(now, worker, clock) => ExpireAllKeeps(identify, ledger, SortedIdentities(ledger), now, worker, clock);
    case CleanupOp(now, worker, expiring, cleaning) =>
      ExpireAllKeeps(identify, ledger, SortedIdentities(ledger), now, worker, expiring);
      var expired := ExpireLedger(identify, ledger, now, worker, expiring);
      CleanAllKeeps(identify, expired, SortedIdentities(expired), now, worker, cleaning);
  }

  lemma {:induction false} RunKeeps(identify: Body -> string, ledger: seq<LeaseEvent>, ops: seq<Op>)
    requires Sound(identify, ledger)
    ensures ledger <= After(identify, ledger, ops) && Sound(identify, After(identify, ledger, ops))
    decreases |ops|
  {
    if |ops| > 0 {
      NextKeeps(identify, ledger, ops[0]);
      RunKeeps(identify, Next(identify, ledger, ops[0]), ops[1..]);
    }
  }

  /** Once a state event names a lease, no later run, whatever it grants, revokes, expires or
      cleans, makes that lease active again, at any time and for any scope. */
  lemma NeverActiveAgain(identify: Body -> string, ledger: seq<LeaseEvent>, e: LeaseEvent, ops: seq<Op>, worker: string,
                         capability: string, operation: string, experiment: Option<string>, now: int)
    requires Sound(identify, ledger) && Injective(identify) && e in ledger && e.Change?
    ensures !ActiveIn(identify, After(identify, ledger, ops), e.lease_id, worker, capability, operation, experiment,
        now)
  {
    RunKeeps(identify, ledger, ops);
    ActiveExactlyWhen(identify, After(identify, ledger, ops), e.lease_id, worker, capability, operation, experiment,
        now);
  }

  // ---- Expiry and cleanup, lease by lease ---------------------------------------------------

  /** What `expire` does to one lease's own events. */
  function ExpireEvents(identify: Body -> string, events: seq<LeaseEvent>, now: int, worker: Option<string>,
        clock: Reading): seq<LeaseEvent> {
    match StateAt(identify, events, now)
    case Err(_) => events
    case Ok((lease, state)) =>
      if Concerns(lease, worker) && state.Expired? && !HasState(events, Expired)
          && StateAt(identify, events, clock.at).value.1 != Expired
      then events + [ChangeFor(lease, Expired, ELAPSED, clock.stamp)]
      else events
  }

  function CleanEvents(identify: Body -> string, events: seq<LeaseEvent>, now: int, worker: Option<string>,
        clock: Reading): seq<LeaseEvent> {
    match StateAt(identify, events, now)
    case Err(_) => events
    case Ok((lease, state)) =>
      if Concerns(lease, worker) && (state.Expired? || state.Revoked?)
      then Add(events, ChangeFor(lease, Cleaned, COMPLETED, clock.stamp))
      else events
  }

  lemma AddsOnlyElsewhere(ledger: seq<LeaseEvent>, after: seq<LeaseEvent>, id: string, other: string)
    requires AddsOnly(ledger, after, id) && other != id
    ensures EventsOf(after, other) == EventsOf(ledger, other)
  {
    if after != ledger {
      var e :| IdOf(e) == id && after == ledger + [e];
      EventsOfAppend(ledger, e, other);
    }
  }

  /** What `_set_state` adds to the lease's own events. */
  lemma SetInLocal(identify: Body -> string, ledger: seq<LeaseEvent>, id: string, state: LeaseState, reason: string,
        clock: Reading)
    requires Sound(identify, ledger) && EventsOf(ledger, id) != []
    ensures var r := SetIn(identify, ledger, id, state, reason, clock);
      var events := EventsOf(ledger, id);
      && StateAt(identify, events, clock.at).Ok? && r.Ok?
      && StateAt(identify, events, clock.at).value.0 == events[0].lease
      && EventsOf(r.value, id) ==
         if StateAt(identify, events, clock.at).value.1 == state then events
         else Add(events, ChangeFor(events[0].lease, state, reason, clock.stamp))
  {
    var events := EventsOf(ledger, id);
    SoundIsReplayable(identify, ledger, id);
    EventsOfMembers(ledger, id);
    var e := ChangeFor(events[0].lease, state, reason, clock.stamp);
    EventsOfAppend(ledger, e, id);
    assert IdOf(e) == id;
  }

  lemma NoSuchState(events: seq<LeaseEvent>, e: LeaseEvent)
    requires |events| > 0 && events[0].Grant? && e.Change? && !HasState(events, e.state)
    ensures e !in events
  {
    forall i | 0 <= i < |events| ensures events[i] != e {}
  }

  lemma ExpireOwnEvents(identify: Body -> string, ledger: seq<LeaseEvent>, id: string, now: int,
        worker: Option<string>, clock: Reading)
    requires Sound(identify, ledger) && EventsOf(ledger, id) != []
    ensures EventsOf(ExpireOne(identify, ledger, id, now, worker, clock), id) ==
        ExpireEvents(identify, EventsOf(ledger, id), now, worker, clock)
  {
    var events := EventsOf(ledger, id);
    SoundIsReplayable(identify, ledger, id);
    SetInLocal(identify, ledger, id, Expired, ELAPSED, clock);
    if !HasState(events, Expired) {
      NoSuchState(events, ChangeFor(events[0].lease, Expired, ELAPSED, clock.stamp));
    }
  }

  lemma ExpireOneLocal(identify: Body -> string, ledger: seq<LeaseEvent>, id: string, other: string, now: int,
        worker: Option<string>, clock: Reading)
    requires Sound(identify, ledger)
    ensures EventsOf(ExpireOne(identify, ledger, id, now, worker, clock), other) ==
      if other == id then ExpireEvents(identify, EventsOf(ledger, id), now, worker, clock) else EventsOf(ledger, other)
  {
    if other != id {
      SetInAddsOnly(identify, ledger, id, Expired, ELAPSED, clock);
      AddsOnlyElsewhere(ledger, ExpireOne(identify, ledger, id, now, worker, clock), id, other);
    } else if EventsOf(ledger, id) != [] {
      ExpireOwnEvents(identify, ledger, id, now, worker, clock);
    }
  }

  lemma CleanOneLocal(identify: Body -> string, ledger: seq<LeaseEvent>, id: string, other: string, now: int,
        worker: Option<string>, clock: Reading)
    requires Sound(identify, ledger)
    ensures EventsOf(CleanOne(identify, ledger, id, now, worker, clock), other) ==
      if other == id then CleanEvents(identify, EventsOf(ledger, id), now, worker, clock) else EventsOf(ledger, other)
  {
    if other != id {
      SetInAddsOnly(identify, ledger, id, Cleaned, COMPLETED, clock);
      AddsOnlyElsewhere(ledger, CleanOne(identify, ledger, id, now, worker, clock), id, other);
    } else if EventsOf(ledger, id) != [] {
      SetInLocal(identify, ledger, id, Cleaned, COMPLETED, clock);
    }
  }

  lemma {:induction false} ExpireAllLocal(identify: Body -> string, ledger: seq<LeaseEvent>, ids: seq<string>,
        id: string, now: int, worker: Option<string>, clock: string -> Reading)
    requires Sound(identify, ledger) && NoDuplicates(ids)
    ensures EventsOf(ExpireAll(identify, ledger, ids, now, worker, clock), id) ==
      if id in ids then ExpireEvents(identify, EventsOf(ledger, id), now, worker, clock(id)) else EventsOf(ledger, id)
  {
    if |ids| > 0 {
      var front, last := ids[..|ids| - 1], ids[|ids| - 1];
      assert ids == front + [last];
      ExpireAllLocal(identify, ledger, front, id, now, worker, clock);
      ExpireAllKeeps(identify, ledger, front, now, worker, clock);
      ExpireOneLocal(identify, ExpireAll(identify, ledger, front, now, worker, clock), last, id, now, worker,
          clock(last));
    }
  }

  lemma {:induction false} CleanAllLocal(identify: Body -> string, ledger: seq<LeaseEvent>, ids: seq<string>,
        id: string, now: int, worker: Option<string>, clock: string -> Reading)
    requires Sound(identify, ledger) && NoDuplicates(ids)
    ensures EventsOf(CleanAll(identify, ledger, ids, now, worker, clock), id) ==
      if id in ids then CleanEvents(identify, EventsOf(ledger, id), now, worker, clock(id)) else EventsOf(ledger, id)
  {
    if |ids| > 0 {
      var front, last := ids[..|ids| - 1], ids[|ids| - 1];
      assert ids == front + [last];
      CleanAllLocal(identify, ledger, front, id, now, worker, clock);
      CleanAllKeeps(identify, ledger, front, now, worker, clock);
      CleanOneLocal(identify, CleanAll(identify, ledger, front, now, worker, clock), last, id, now, worker,
          clock(last));
    }
  }

  lemma SortedIdentitiesCover(ledger: seq<LeaseEvent>, id: string)
    ensures NoDuplicates(SortedIdentities(ledger))
    ensures id in SortedIdentities(ledger) <==> EventsOf(ledger, id) != []
  {
    var ids := Identities(ledger);
    TextLeOrder();
    SortSorts(TextLe, ids);
    SameElements(ids, SortedIdentities(ledger));
    PermutationNoDuplicates(ids, SortedIdentities(ledger));
    EventsOfMembers(ledger, id);
    if EventsOf(ledger, id) != [] {
      assert EventsOf(ledger, id)[0] in ledger;
    }
    if id in ids {
      var i :| 0 <= i < |ledger| && IdOf(ledger[i]) == id;
      assert ledger[i] in EventsOf(ledger, id);
    }
  }

  /** `expire` acts on each lease separately. */
  lemma ExpireLocal(identify: Body -> string, ledger: seq<LeaseEvent>, id: string, now: int, worker: Option<string>,
        clock: string -> Reading)
    requires Sound(identify, ledger)
    ensures EventsOf(ExpireLedger(identify, ledger, now, worker, clock), id) ==
      ExpireEvents(identify, EventsOf(ledger, id), now, worker, clock(id))
  {
    SortedIdentitiesCover(ledger, id);
    ExpireAllLocal(identify, ledger, SortedIdentities(ledger), id, now, worker, clock);
  }

  lemma CleanLocal(identify: Body -> string, ledger: seq<LeaseEvent>, id: string, now: int, worker: Option<string>,
        cleaning: string -> Reading)
    requires Sound(identify, ledger)
    ensures EventsOf(CleanAll(identify, ledger, SortedIdentities(ledger), now, worker, cleaning), id) ==
      CleanEvents(identify, EventsOf(ledger, id), now, worker, cleaning(id))
  {
    SortedIdentitiesCover(ledger, id);
    CleanAllLocal(identify, ledger, SortedIdentities(ledger), id, now, worker, cleaning);
  }

  lemma CleanupLocal(identify: Body -> string, ledger: seq<LeaseEvent>, id: string, now: int, worker: Option<string>,
        expiring: string -> Reading, cleaning: string -> Reading)
    requires Sound(identify, ledger)
    ensures EventsOf(CleanLedger(identify, ledger, now, worker, expiring, cleaning), id) ==
      CleanEvents(identify, ExpireEvents(identify, EventsOf(ledger, id), now, worker, expiring(id)), now, worker,
          cleaning(id))
  {
    var expired := ExpireLedger(identify, ledger, now, worker, expiring);
    ExpireLocal(identify, ledger, id, now, worker, expiring);
    ExpireAllKeeps(identify, ledger, SortedIdentities(ledger), now, worker, expiring);
    CleanLocal(identify, expired, id, now, worker, cleaning);
  }

  lemma ReplayAppend(events: seq<LeaseEvent>, e: LeaseEvent)
    requires |events| > 0 && e.Change?
    ensures Replay(events + [e]) == e.state
  {}

  /** `expire(now)` never changes what `inspect` reports at `now` or later, for any lease. */
  lemma ExpireIsInvisible(identify: Body -> string, ledger: seq<LeaseEvent>, id: string, now: int,
        worker: Option<string>, clock: string -> Reading, t: int)
    requires Sound(identify, ledger) && t >= now
    ensures InspectIn(identify, ExpireLedger(identify, ledger, now, worker, clock), id, t) ==
        InspectIn(identify, ledger, id, t)
  {
    ExpireLocal(identify, ledger, id, now, worker, clock);
    var events := EventsOf(ledger, id);
    var after := ExpireEvents(identify, events, now, worker, clock(id));
    SoundIsReplayable(identify, ledger, id);
    if after != events {
      ReplayAppend(events, after[|events|]);
      ReplayStates(identify, events, id);
    }
  }

  /** The last change is recorded under its own state. */
  lemma {:induction false} ReplayStates(identify: Body -> string, events: seq<LeaseEvent>, id: string)
    requires Replayable(identify, events, id) && |events| > 0
    ensures !Replay(events).Active? ==> HasState(events, Replay(events))
  {
    if |events| > 1 {
      var front, last := events[..|events| - 1], events[|events| - 1];
      if last.Grant? {
        ReplayStates(identify, front, id);
        if !Replay(front).Active? {
          var i :| 1 <= i < |front| && front[i].Change? && front[i].state == Replay(front);
          assert events[i] == front[i];
        }
      } else {
        assert events[|events| - 1] == last;
      }
    }
  }

  /** The record that cleaning a lease writes. */
  function CleaningRecord(identify: Body -> string, ledger: seq<LeaseEvent>, id: string, now: int,
        stamp: int): LeaseEvent
    requires InspectIn(identify, ledger, id, now).Ok?
  {
    ChangeFor(InspectIn(identify, ledger, id, now).value.0, Cleaned, COMPLETED, stamp)
  }

  predicate NeedsCleaning(identify: Body -> string, ledger: seq<LeaseEvent>, id: string, now: int,
        worker: Option<string>) {
    match InspectIn(identify, ledger, id, now)
    case Err(_) => false
    case Ok((lease, state)) => Concerns(lease, worker) && (state.Expired? || state.Revoked?)
  }

  lemma CleanEventsOutcome(identify: Body -> string, events: seq<LeaseEvent>, id: string, now: int,
        worker: Option<string>, clock: Reading)
    requires Replayable(identify, events, id) && StateAt(identify, events, now).Ok?
    ensures var (lease, state) := StateAt(identify, events, now).value;
      var after := StateAt(identify, CleanEvents(identify, events, now, worker, clock), now);
      var record := ChangeFor(lease, Cleaned, COMPLETED, clock.stamp);
      after == if Concerns(lease, worker) && (state.Expired? || state.Revoked?)
          && record !in events then Ok((lease, Cleaned)) else Ok((lease, state))
  {
    var (lease, state) := StateAt(identify, events, now).value;
    var record := ChangeFor(lease, Cleaned, COMPLETED, clock.stamp);
    if record !in events { ReplayAppend(events, record); }
  }

  /** Exact outcome of `cleanup(now)` for one lease. A lease that needs cleaning is reported
      cleaned afterwards if and only if its cleaning record is new; every other lease, in
      particular one active at `now`, is reported exactly as before. */
  lemma CleanupOutcome(identify: Body -> string, ledger: seq<LeaseEvent>, id: string, now: int,
        worker: Option<string>, expiring: string -> Reading, cleaning: string -> Reading)
    requires Sound(identify, ledger)
    ensures var after := InspectIn(identify, CleanLedger(identify, ledger, now, worker, expiring, cleaning), id, now);
      var before := InspectIn(identify, ledger, id, now);
      after ==
        if NeedsCleaning(identify, ledger, id, now, worker)
           && CleaningRecord(identify, ledger, id, now, cleaning(id).stamp) !in ledger
        then Ok((before.value.0, Cleaned)) else before
  {
    var expired := ExpireLedger(identify, ledger, now, worker, expiring);
    ExpireIsInvisible(identify, ledger, id, now, worker, expiring, now);
    CleanupLocal(identify, ledger, id, now, worker, expiring, cleaning);
    ExpireLocal(identify, ledger, id, now, worker, expiring);
    ExpireAllKeeps(identify, ledger, SortedIdentities(ledger), now, worker, expiring);
    SoundIsReplayable(identify, expired, id);
    var before := InspectIn(identify, ledger, id, now);
    if before.Ok? {
      CleanEventsOutcome(identify, EventsOf(expired, id), id, now, worker, cleaning(id));
      var record := ChangeFor(before.value.0, Cleaned, COMPLETED, cleaning(id).stamp);
      SoundIsReplayable(identify, ledger, id);
      EventsOfMembers(ledger, id);
      assert record in ledger <==> record in EventsOf(expired, id);
    }
  }

  ghost predicate NewStamps(identify: Body -> string, ledger: seq<LeaseEvent>, now: int, worker: Option<string>,
        cleaning: string -> Reading) {
    forall id :: NeedsCleaning(identify, ledger, id, now, worker) ==>
      CleaningRecord(identify, ledger, id, now, cleaning(id).stamp) !in ledger
  }

  /** With new stamps one cleanup is enough: nothing of the worker is left to clean, and a
      second cleanup at the same time appends nothing, whatever its clocks read. */
  lemma CleanupIsComplete(identify: Body -> string, ledger: seq<LeaseEvent>, now: int, worker: Option<string>,
                          expiring: string -> Reading, cleaning: string -> Reading, expiring2: string -> Reading,
                              cleaning2: string -> Reading)
    requires Sound(identify, ledger) && NewStamps(identify, ledger, now, worker, cleaning)
    ensures var after := CleanLedger(identify, ledger, now, worker, expiring, cleaning);
      && (forall id :: !NeedsCleaning(identify, after, id, now, worker))
      && CleanLedger(identify, after, now, worker, expiring2, cleaning2) == after
  {
    var after := CleanLedger(identify, ledger, now, worker, expiring, cleaning);
    forall id ensures !NeedsCleaning(identify, after, id, now, worker) {
      CleanupOutcome(identify, ledger, id, now, worker, expiring, cleaning);
    }
    NothingToExpire(identify, after, SortedIdentities(after), now, worker, expiring2);
    NothingToClean(identify, after, SortedIdentities(after), now, worker, cleaning2);
  }

  lemma {:induction false} NothingToExpire(identify: Body -> string, ledger: seq<LeaseEvent>, ids: seq<string>,
        now: int, worker: Option<string>, clock: string -> Reading)
    requires forall id :: !NeedsCleaning(identify, ledger, id, now, worker)
    ensures ExpireAll(identify, ledger, ids, now, worker, clock) == ledger
  {
    if |ids| > 0 {
      NothingToExpire(identify, ledger, ids[..|ids| - 1], now, worker, clock);
      assert !NeedsCleaning(identify, ledger, ids[|ids| - 1], now, worker);
    }
  }

  lemma {:induction false} NothingToClean(identify: Body -> string, ledger: seq<LeaseEvent>, ids: seq<string>,
        now: int, worker: Option<string>, clock: string -> Reading)
    requires forall id :: !NeedsCleaning(identify, ledger, id, now, worker)
    ensures CleanAll(identify, ledger, ids, now, worker, clock) == ledger
  {
    if |ids| > 0 {
      NothingToClean(identify, ledger, ids[..|ids| - 1], now, worker, clock);
      assert !NeedsCleaning(identify, ledger, ids[|ids| - 1], now, worker);
    }
  }

  /** A lease cleaned at some stamp and revoked afterwards. */
  function Recleaned(lease: Lease, stamp: int, reason: string, revoked: int): seq<LeaseEvent> {
    [Grant(lease), ChangeFor(lease, Cleaned, COMPLETED, stamp), ChangeFor(lease, Revoked, reason, revoked)]
  }

  lemma RecleanedIsSound(identify: Body -> string, lease: Lease, stamp: int, reason: string, revoked: int)
    requires ValidLease(identify, lease)
    ensures Sound(identify, Recleaned(lease, stamp, reason, revoked))
  {
    var ledger := Recleaned(lease, stamp, reason, revoked);
    assert ledger[0].Grant? && ledger[0].lease.id == lease.id;
    assert GrantedBefore(ledger, lease.id, 1) && GrantedBefore(ledger, lease.id, 2);
  }

  lemma {:induction false} RecleanedIsRevoked(identify: Body -> string, lease: Lease, stamp: int, reason: string,
        revoked: int, now: int)
    requires ValidLease(identify, lease)
    ensures InspectIn(identify, Recleaned(lease, stamp, reason, revoked), lease.id, now) == Ok((lease, Revoked))
  {
    var ledger := Recleaned(lease, stamp, reason, revoked);
    var first, second := ledger[..1], ledger[..2];
    assert first == [] + [ledger[0]] && second == first + [ledger[1]] && ledger == second + [ledger[2]];
    EventsOfAppend([], ledger[0], lease.id);
    EventsOfAppend(first, ledger[1], lease.id);
    EventsOfAppend(second, ledger[2], lease.id);
    assert EventsOf(ledger, lease.id) == ledger;
    ReplayAppend(second, ledger[2]);
  }

  lemma {:induction false} OneIdentity(lease: Lease)
    ensures SortedIdentities([Grant(lease)]) == [lease.id] && EventsOf([Grant(lease)], lease.id) == [Grant(lease)]
  {
    var ledger := [Grant(lease)];
    assert ledger[..0] == [] && Identities([]) == [];
    assert Identities(ledger) == [lease.id];
    SortOne(TextLe, lease.id);
    assert EventsOf([], lease.id) == [];
  }

  /** Cleaning up a lone expired lease, when the wall clock agrees that it is expired, adds one record. */
  lemma {:induction false} CleansOne(identify: Body -> string, lease: Lease, t: int, clock: string -> Reading)
    requires ValidLease(identify, lease) && t >= lease.body.expiresAt && clock(lease.id).at == t
    ensures Next(identify, [Grant(lease)], CleanupOp(t, None, clock, clock)) ==
      [Grant(lease), ChangeFor(lease, Cleaned, COMPLETED, clock(lease.id).stamp)]
  {
    var ledger := [Grant(lease)];
    OneIdentity(lease);
    assert [lease.id][..0] == [];
    assert InspectIn(identify, ledger, lease.id, t) == Ok((lease, Expired));
    assert ExpireAll(identify, ledger, [], t, None, clock) == ledger
        && CleanAll(identify, ledger, [], t, None, clock) == ledger;
    assert ExpireLedger(identify, ledger, t, None, clock) == ledger;
    assert CleanOne(identify, ledger, lease.id, t, None, clock(lease.id)) ==
      ledger + [ChangeFor(lease, Cleaned, COMPLETED, clock(lease.id).stamp)];
  }

  lemma {:induction false} CleanedIsSeen(identify: Body -> string, lease: Lease, stamp: int, at: int)
    requires ValidLease(identify, lease)
    ensures InspectIn(identify, [Grant(lease), ChangeFor(lease, Cleaned, COMPLETED, stamp)], lease.id, at) ==
        Ok((lease, Cleaned))
  {
    var first, change := [Grant(lease)], ChangeFor(lease, Cleaned, COMPLETED, stamp);
    OneIdentity(lease);
    EventsOfAppend(first, change, lease.id);
    assert [Grant(lease), change] == first + [change];
    ReplayAppend(first, change);
  }

  lemma {:induction false} RevokesCleaned(identify: Body -> string, lease: Lease, stamp: int, reason: string, at: int,
        revoked: int)
    requires ValidLease(identify, lease)
    ensures Next(identify, [Grant(lease), ChangeFor(lease, Cleaned, COMPLETED, stamp)],
        RevokeOp(lease.id, reason, Reading(at, revoked))) ==
      Recleaned(lease, stamp, reason, revoked)
  {
    CleanedIsSeen(identify, lease, stamp, at);
  }

  lemma {:induction false} AfterThree(
      identify: Body -> string, a: Op, b: Op, c: Op, one: seq<LeaseEvent>, two: seq<LeaseEvent>, three: seq<LeaseEvent>)
    requires Next(identify, [], a) == one && Next(identify, one, b) == two && Next(identify, two, c) == three
    ensures After(identify, [], [a, b, c]) == three
  {
    assert [a, b, c][1..] == [b, c] && [b, c][1..] == [c] && [c][1..] == [];
    assert After(identify, two, [c]) == After(identify, three, []);
    assert After(identify, one, [b, c]) == After(identify, two, [c]);
  }

  /** That history is a run of the store: granted, cleaned up after its expiry, revoked. */
  lemma RecleanedIsReached(identify: Body -> string, lease: Lease, t: int, clock: string -> Reading, reason: string,
        revoked: int)
    requires ValidLease(identify, lease) && t >= lease.body.expiresAt && clock(lease.id).at == t
    ensures After(identify, [],
        [GrantOp(lease), CleanupOp(t, None, clock, clock), RevokeOp(lease.id, reason, Reading(t, revoked))]) ==
      Recleaned(lease, clock(lease.id).stamp, reason, revoked)
  {
    var stamp := clock(lease.id).stamp;
    var granted := [Grant(lease)];
    CleansOne(identify, lease, t, clock);
    RevokesCleaned(identify, lease, stamp, reason, t, revoked);
    AfterThree(identify, GrantOp(lease), CleanupOp(t, None, clock, clock),
        RevokeOp(lease.id, reason, Reading(t, revoked)),
               granted, granted + [ChangeFor(lease, Cleaned, COMPLETED, stamp)],
                   Recleaned(lease, stamp, reason, revoked));
  }

  /** Every valid lease has a sound history in which cleaning is lost: cleaned at some stamp, revoked,
      and cleaned again at the same stamp. The lease stays revoked. */
  lemma UsedStampLosesCleaning(identify: Body -> string, lease: Lease, stamp: int, reason: string, revoked: int,
        now: int,
                               expiring: string -> Reading, cleaning: string -> Reading)
    requires ValidLease(identify, lease) && cleaning(lease.id).stamp == stamp
    ensures var ledger := Recleaned(lease, stamp, reason, revoked);
      && Sound(identify, ledger) && NeedsCleaning(identify, ledger, lease.id, now, None)
      && InspectIn(identify, CleanLedger(identify, ledger, now, None, expiring, cleaning), lease.id, now) ==
           Ok((lease, Revoked))
  {
    var ledger := Recleaned(lease, stamp, reason, revoked);
    RecleanedIsSound(identify, lease, stamp, reason, revoked);
    RecleanedIsRevoked(identify, lease, stamp, reason, revoked, now);
    CleanupOutcome(identify, ledger, lease.id, now, None, expiring, cleaning);
    assert ledger[1] in ledger;
  }
}
