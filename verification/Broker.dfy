/** The capability broker (`CapabilityBroker.request` in src/mncs_fabric/capability_broker.py):
    at-most-once privileged operations, recovered from an audit ledger that is written before
    the result ledger. A crash may follow any step; the adapter is arbitrary. */
module Broker {
  import opened Orders
  import opened Ledger
  import opened Jcs
  import opened Redaction
  import opened Arguments
  import Leases

  datatype RequestBody = RequestBody(
    worker: string, capability: string, operation: string, arguments: Json,
    experiment: Option<string>, session: Option<string>, lease: Option<string>)
  /** What the request identity covers: the time is hashed too, but no audit record keeps it. */
  datatype RequestMaterial = RequestMaterial(body: RequestBody, requestedAt: string)
  datatype Request = Request(body: RequestBody, requestedAt: string, id: Digest)

  datatype AuditFields = AuditFields(request: RequestBody, requestId: Digest, result: ResultBody, recordedAt: int)
  datatype Audit = Audit(fields: AuditFields, id: Digest)

  datatype ResultFields = ResultFields(
    worker: string, requestId: Digest, capability: string, operation: string, body: ResultBody, audit: Digest)
  datatype CapabilityResult = CapabilityResult(fields: ResultFields, id: Digest)

  datatype Profile = Profile(worker: string, unrestricted: bool, allowed: set<string>, leaseRequired: set<string>)

  /** One broker's policy, its validators and the identity hashes. */
  datatype Config = Config(
    profile: Profile, knows: (string, string) -> bool, goodRequest: RequestBody -> bool, goodBody: ResultBody -> bool,
    leaseId: Leases.Body -> string,
    ofRequest: RequestMaterial -> Digest, ofAudit: AuditFields -> Digest, ofResult: ResultFields -> Digest)

  /** The validators the program uses. */
  function Standard(p: Profile, leaseId: Leases.Body -> string, ofRequest: RequestMaterial -> Digest,
                    ofAudit: AuditFields -> Digest, ofResult: ResultFields -> Digest): Config
  {
    Config(p, (capability, operation) => FormFor(capability, operation).Some?, b => ValidBodyOfRequest(p, b), ValidBody,
           leaseId, ofRequest, ofAudit, ofResult)
  }

  /** All that the runs below need of the validators. */
  ghost predicate Lawful(c: Config) {
    && (forall b :: c.goodRequest(b) ==>
         && b.worker == c.profile.worker && BoundedText(b.worker, 256)
         && c.knows(b.capability, b.operation) && Redact(b.arguments) == b.arguments)
    && (forall b :: c.goodBody(b) ==>
         && BoundedText(b.detail, MAX_DETAIL) && b.data.Obj?
         && |b.stdout| <= MAX_AUDIT_OUTPUT && |b.stderr| <= MAX_AUDIT_OUTPUT)
  }

  lemma StandardIsLawful(p: Profile, leaseId: Leases.Body -> string, ofRequest: RequestMaterial -> Digest,
                         ofAudit: AuditFields -> Digest, ofResult: ResultFields -> Digest)
    ensures Lawful(Standard(p, leaseId, ofRequest, ofAudit, ofResult))
  {
    forall b | ValidBodyOfRequest(p, b) ensures Redact(b.arguments) == b.arguments {
      RedactKeepsArguments(b.capability, b.operation, b.arguments);
    }
  }

  const HIGH_RISK_OPERATIONS := {
    "install", "remove", "refresh", "set", "load", "unload", "enable", "disable", "mount", "unmount", "create",
        "cleanup",
    "configure", "add-rule", "remove-rule", "start", "stop", "restart", "request"}

  predicate Allows(c: Config, capability: string, operation: string) {
    capability in c.profile.allowed && c.knows(capability, operation)
  }

  predicate RequiresLease(p: Profile, capability: string, operation: string) {
    !p.unrestricted && capability in p.leaseRequired && operation in HIGH_RISK_OPERATIONS
  }

  predicate OptionalText(s: Option<string>, maximum: nat) { s.None? || BoundedText(s.value, maximum) }

  predicate ValidBodyOfRequest(p: Profile, b: RequestBody) {
    && b.worker == p.worker && BoundedText(b.worker, 256)
    && (b.arguments.Obj? ==> UniqueKeys(b.arguments.fields))
         && CanonicalArguments(b.capability, b.operation, b.arguments)
    && OptionalText(b.experiment, 256) && OptionalText(b.session, 256) && OptionalText(b.lease, 128)
  }

  /** `validate_capability_request`. */
  predicate ValidRequest(c: Config, r: Request)
        { r.id == c.ofRequest(RequestMaterial(r.body, r.requestedAt)) && c.goodRequest(r.body) }

  /** `validate_capability_audit`. */
  predicate ValidAudit(c: Config, a: Audit) {
    a.id == c.ofAudit(a.fields) && c.goodRequest(a.fields.request) && c.goodBody(a.fields.result)
  }

  /** `validate_capability_result`. */
  predicate ValidResult(c: Config, r: CapabilityResult) {
    && r.id == c.ofResult(r.fields)
    && r.fields.worker == c.profile.worker && BoundedText(r.fields.worker, 256)
    && c.knows(r.fields.capability, r.fields.operation)
    && BoundedText(r.fields.body.detail, MAX_DETAIL)
    && r.fields.body.data.Obj?
    && |r.fields.body.stdout| <= MAX_AUDIT_OUTPUT && |r.fields.body.stderr| <= MAX_AUDIT_OUTPUT
  }

  /** `build_capability_result`. */
  function BuildResult(c: Config, r: RequestBody, id: Digest, b: ResultBody, audit: Digest): CapabilityResult {
    var fields := ResultFields(r.worker, id, r.capability, r.operation, Command(b), audit);
    CapabilityResult(fields, c.ofResult(fields))
  }

  /** `CapabilityAuditStore.record`: nothing is recorded unless the body is valid both as it
      came and as it is kept. */
  predicate Auditable(c: Config, b: ResultBody) { c.goodBody(b) && c.goodBody(AuditBody(b)) }

  function BuildAudit(c: Config, r: Request, b: ResultBody, stamp: int): Audit {
    var fields := AuditFields(r.body.(arguments := Redact(r.body.arguments)), r.id, AuditBody(b), stamp);
    Audit(fields, c.ofAudit(fields))
  }

  /** `CapabilityResultStore.find`. */
  function Find(c: Config, results: seq<CapabilityResult>, id: Digest): Result<Option<CapabilityResult>> {
    if |results| == 0 then Ok(None)
    else
      var before, last := Find(c, results[..|results| - 1], id), results[|results| - 1];
      if before.Err? || last.fields.requestId != id then before
      else if !ValidResult(c, last) then Err("invalid durable result")
      else if before.value.Some? && before.value.value != last then Err("conflicting durable results")
      else Ok(Some(last))
  }

  /** The first audit record of a request identity. */
  function AuditOf(audits: seq<Audit>, id: Digest): (r: Option<Audit>)
    ensures r.Some? ==> r.value in audits && r.value.fields.requestId == id
    ensures r.None? ==> forall a :: a in audits ==> a.fields.requestId != id
  {
    if |audits| == 0 then None
    else if audits[0].fields.requestId == id then Some(audits[0]) else AuditOf(audits[1..], id)
  }

  predicate AuditsReadable(c: Config, audits: seq<Audit>) { forall i :: 0 <= i < |audits| ==> ValidAudit(c, audits[i]) }

  // ---- One request ----------------------------------------------------------------------

  /** What the adapter does if it is called. */
  datatype Adapter = Returned(body: ResultBody) | Raised(message: string) | Unusable

  datatype Crash = Never | BeforeAdapter | AfterAdapter | AfterAudit | AfterResult

  datatype Call = Call(
    request: Request, adapter: Adapter, crash: Crash, leases: Option<seq<Leases.LeaseEvent>>, now: int, stamp: int)

  datatype Memory = Memory(results: seq<CapabilityResult>, audits: seq<Audit>, called: seq<Digest>)

  datatype Reply = Answer(result: CapabilityResult) | Rejected | Silent

  predicate Permitted(c: Config, call: Call) {
    var b := call.request.body;
    && Allows(c, b.capability, b.operation)
    && (RequiresLease(c.profile, b.capability, b.operation) ==>
          && call.leases.Some? && b.lease.Some?
          && Leases.ActiveIn(c.leaseId, call.leases.value, b.lease.value, c.profile.worker, b.capability, b.operation,
               b.experiment, call.now))
  }

  function Plainly(outcome: Outcome, detail: string): ResultBody {
    Command(ResultBody(outcome, detail, false, Null, Null, Obj([]), "", ""))
  }

  const DENIED := "capability is not allowed by the host profile"
  const NO_LEASE := "operation requires an active capability lease"

  /** The body a first attempt yields, if it yields one. */
  function Attempt(c: Config, call: Call): Option<ResultBody> {
    if !Allows(c, call.request.body.capability, call.request.body.operation) then Some(Plainly(Fail, DENIED))
    else if !Permitted(c, call) then Some(Plainly(Skipped, NO_LEASE))
    else match call.adapter
      case Returned(b) => Some(b)
      case Raised(message) => Some(Plainly(Fail, message))
      case Unusable => None
  }

  /** The last step of `request`: append the result and return it. */
  function Conclude(c: Config, m: Memory, result: CapabilityResult, crash: Crash): (Memory, Reply) {
    if !ValidResult(c, result) then (m, Rejected)
    else
      var stored := m.(results := Add(m.results, result));
      (stored, if crash == AfterResult then Silent else Answer(result))
  }

  /** Audit a body, then conclude. */
  function RecordAttempt(c: Config, m: Memory, call: Call, body: ResultBody): (Memory, Reply) {
    var audit := BuildAudit(c, call.request, body, call.stamp);
    if !Auditable(c, body) || !ValidAudit(c, audit) then (m, Rejected)
    else
      var audited := m.(audits := Add(m.audits, audit));
      if call.crash == AfterAudit then (audited, Silent)
      else Conclude(c, audited, BuildResult(c, call.request.body, call.request.id, body, audit.id), call.crash)
  }

  function Tried(c: Config, m: Memory, call: Call): Memory {
    if Permitted(c, call) then m.(called := m.called + [call.request.id]) else m
  }

  /** A first attempt, once neither ledger knows the request. */
  function FirstAttempt(c: Config, m: Memory, call: Call): (Memory, Reply) {
    if call.crash == BeforeAdapter then (m, Silent)
    else
      var body, tried := Attempt(c, call), Tried(c, m, call);
      if call.crash == AfterAdapter then (tried, Silent)
      else if body.None? then (tried, Rejected)
      else RecordAttempt(c, tried, call, body.value)
  }

  function Step(c: Config, m: Memory, call: Call): (Memory, Reply) {
    if !ValidRequest(c, call.request) then (m, Rejected)
    else
      match Find(c, m.results, call.request.id)
      case Err(_) => (m, Rejected)
      case Ok(prior) =>
        if prior.Some? then (m, Answer(prior.value))
        else if !AuditsReadable(c, m.audits) then (m, Rejected)
        else match AuditOf(m.audits, call.request.id)
          case Some(audit) =>
            if call.crash != Never && call.crash != AfterResult then (m, Silent)
            else Conclude(c, m, BuildResult(c, call.request.body, call.request.id, audit.fields.result, audit.id),
                call.crash)
          case None => FirstAttempt(c, m, call)
  }

  class CapabilityBroker {
    const config: Config
    const leases: Leases.LeaseStore?
    var results: seq<CapabilityResult>
    var audits: seq<Audit>
    /** The request identities for which the adapter was called, in order. */
    ghost var called: seq<Digest>

    constructor (config: Config, leases: Leases.LeaseStore?)
      requires leases == null || leases.identify == config.leaseId
      ensures this.config == config && this.leases == leases && Contents() == Memory([], [], [])
    {
      this.config, this.leases := config, leases;
      results, audits, called := [], [], [];
    }

    ghost function Contents(): Memory reads this { Memory(results, audits, called) }

    ghost function LeaseEvents(): Option<seq<Leases.LeaseEvent>> reads leases {
      if leases == null then None else Some(leases.ledger)
    }

    method FindResult(id: Digest) returns (r: Result<Option<CapabilityResult>>)
      ensures r == Find(config, results, id)
    {
      r := Ok(None);
      for i := 0 to |results|
        invariant r.Ok? && r == Find(config, results[..i], id)
      {
        assert results[..i + 1][..i] == results[..i];
        if results[i].fields.requestId == id {
          if !ValidResult(config, results[i]) {
            FindStays(config, results, i + 1, id);
            return Err("invalid durable result");
          }
          if r.value.Some? && r.value.value != results[i] {
            FindStays(config, results, i + 1, id);
            return Err("conflicting durable results");
          }
          r := Ok(Some(results[i]));
        }
      }
      assert results[..|results|] == results;
    }

    /** `request`, with the outcome of the adapter and the point of a crash, if any, given. */
    method Handle(request: Request, adapter: Adapter, crash: Crash, now: int, stamp: int) returns (reply: Reply)
      requires leases == null || leases.identify == config.leaseId
      modifies this
      ensures (Contents(), reply) ==
          Step(config, old(Contents()), Call(request, adapter, crash, old(LeaseEvents()), now, stamp))
    {
      ghost var call := Call(request, adapter, crash, LeaseEvents(), now, stamp);
      if !ValidRequest(config, request) { return Rejected; }
      var prior := FindResult(request.id);
      if prior.Err? { return Rejected; }
      if prior.value.Some? { return Answer(prior.value.value); }
      if !AuditsReadable(config, audits) { return Rejected; }
      for i := 0 to |audits|
        invariant Contents() == old(Contents())
        invariant AuditOf(audits, request.id) == AuditOf(audits[i..], request.id)
      {
        if audits[i].fields.requestId == request.id {
          if crash != Never && crash != AfterResult { return Silent; }
          reply := Finish(BuildResult(config, request.body, request.id, audits[i].fields.result, audits[i].id), crash);
          return;
        }
        assert audits[i..][1..] == audits[i + 1..];
      }
      reply := Perform(request, adapter, crash, now, stamp);
    }

    method MayCall(request: Request, now: int) returns (permitted: bool)
      requires leases == null || leases.identify == config.leaseId
      ensures forall call: Call :: call.request == request && call.leases == LeaseEvents() && call.now == now ==>
        permitted == Permitted(config, call)
    {
      var b := request.body;
      if !Allows(config, b.capability, b.operation) { return false; }
      if !RequiresLease(config.profile, b.capability, b.operation) { return true; }
      if leases == null || b.lease.None? { return false; }
      permitted := leases.IsActive(b.lease.value, config.profile.worker, b.capability, b.operation, b.experiment, now);
    }

    /** Deny, or call the adapter; what the adapter does is given. */
    method Try(request: Request, adapter: Adapter, now: int) returns (body: Option<ResultBody>)
      requires leases == null || leases.identify == config.leaseId
      modifies this`called
      ensures forall call: Call ::
        (call.request == request && call.adapter == adapter && call.leases == LeaseEvents() && call.now == now) ==>
        && body == Attempt(config, call)
        && called == if Permitted(config, call) then old(called) + [request.id] else old(called)
    {
      var permitted := MayCall(request, now);
      if !Allows(config, request.body.capability, request.body.operation) { return Some(Plainly(Fail, DENIED)); }
      if !permitted { return Some(Plainly(Skipped, NO_LEASE)); }
      called := called + [request.id];
      return match adapter case Returned(r) => Some(r) case Raised(message) => Some(Plainly(Fail,
          message)) case Unusable => None;
    }

    method AppendAudit(audit: Audit) returns (ok: bool)
      modifies this`audits
      ensures ok == ValidAudit(config, audit) && audits == if ok then Add(old(audits), audit) else old(audits)
    {
      ok := ValidAudit(config, audit);
      if ok { audits := Add(audits, audit); }
    }

    method Perform(request: Request, adapter: Adapter, crash: Crash, now: int, stamp: int) returns (reply: Reply)
      requires leases == null || leases.identify == config.leaseId
      modifies this
      ensures (Contents(), reply) ==
          FirstAttempt(config, old(Contents()), Call(request, adapter, crash, old(LeaseEvents()), now, stamp))
    {
      ghost var call := Call(request, adapter, crash, LeaseEvents(), now, stamp);
      if crash == BeforeAdapter { return Silent; }
      var body := Try(request, adapter, now);
      if crash == AfterAdapter { return Silent; }
      if body.None? || !Auditable(config, body.value) { return Rejected; }
      var audit := BuildAudit(config, request, body.value, stamp);
      var recorded := AppendAudit(audit);
      if !recorded { return Rejected; }
      if crash == AfterAudit { return Silent; }
      reply := Finish(BuildResult(config, request.body, request.id, body.value, audit.id), crash);
    }

    /** Append the result and return it. */
    method Finish(result: CapabilityResult, crash: Crash) returns (reply: Reply)
      modifies this`results
      ensures (Contents(), reply) == Conclude(config, old(Contents()), result, crash)
    {
      if !ValidResult(config, result) { return Rejected; }
      results := Add(results, result);
      return if crash == AfterResult then Silent else Answer(result);
    }
  }

  /** An error found on the way is the error of the whole scan. */
  lemma {:induction false} FindStays(c: Config, results: seq<CapabilityResult>, n: nat, id: Digest)
    requires n <= |results| && Find(c, results[..n], id).Err?
    ensures Find(c, results, id) == Find(c, results[..n], id)
  {
    if n < |results| {
      var front := results[..|results| - 1];
      assert front[..n] == results[..n];
      FindStays(c, front, n, id);
    } else {
      assert results[..n] == results;
    }
  }

  // ---- Every run --------------------------------------------------------------------------

  /** The one result an audit record stands for. */
  function Recovered(c: Config, a: Audit): CapabilityResult {
    BuildResult(c, a.fields.request, a.fields.requestId, a.fields.result, a.id)
  }

  ghost predicate Backed(c: Config, r: CapabilityResult, audits: seq<Audit>) {
    exists a :: a in audits && r == Recovered(c, a)
  }

  /** The request identity of an audit is that of its request at some time. */
  ghost predicate Identifies(c: Config, f: AuditFields) {
    exists at :: f.requestId == c.ofRequest(RequestMaterial(f.request, at))
  }

  ghost predicate GoodAudits(c: Config, audits: seq<Audit>) {
    && (forall a :: a in audits ==> ValidAudit(c, a) && Identifies(c, a.fields))
    && (forall i, j :: 0 <= i < j < |audits| ==> audits[i].fields.requestId != audits[j].fields.requestId)
  }

  ghost predicate Inv(c: Config, m: Memory) {
    GoodAudits(c, m.audits) && forall r :: r in m.results ==> Backed(c, r, m.audits)
  }

  lemma RecoveredIsValid(c: Config, a: Audit)
    requires Lawful(c) && ValidAudit(c, a)
    ensures ValidResult(c, Recovered(c, a))
  {}

  lemma {:induction false} AuditOfUnique(audits: seq<Audit>, a: Audit)
    requires a in audits && forall i, j :: 0 <= i < j < |audits| ==>
      audits[i].fields.requestId != audits[j].fields.requestId
    ensures AuditOf(audits, a.fields.requestId) == Some(a)
  {
    if audits[0] != a { AuditOfUnique(audits[1..], a); }
  }

  lemma {:induction false} AuditOfAppend(audits: seq<Audit>, a: Audit, id: Digest)
    ensures AuditOf(audits + [a], id) ==
      if AuditOf(audits, id).Some? then AuditOf(audits, id) else if a.fields.requestId == id then Some(a) else None
  {
    if |audits| > 0 {
      assert (audits + [a])[1..] == audits[1..] + [a];
      AuditOfAppend(audits[1..], a, id);
    } else {
      assert (audits + [a])[1..] == [];
    }
  }

  /** `find` never sees a conflict or an unreadable record, and what it finds is what the audit stands for. */
  lemma {:induction false} FindAgrees(c: Config, results: seq<CapabilityResult>, audits: seq<Audit>, id: Digest)
    requires Lawful(c) && GoodAudits(c, audits) && forall r :: r in results ==> Backed(c, r, audits)
    ensures Find(c, results, id).Ok?
    ensures Find(c, results, id).value.Some? ==>
      AuditOf(audits, id).Some? && Find(c, results, id).value.value == Recovered(c, AuditOf(audits, id).value)
  {
    if |results| > 0 {
      var front, last := results[..|results| - 1], results[|results| - 1];
      FindAgrees(c, front, audits, id);
      assert last in results;
      if last.fields.requestId == id {
        var a :| a in audits && last == Recovered(c, a);
        AuditOfUnique(audits, a);
        RecoveredIsValid(c, a);
      }
    }
  }

  lemma RecoveryBuildsRecovered(c: Config, request: Request, a: Audit)
    requires Injective(c.ofRequest) && ValidRequest(c, request)
    requires a.fields.requestId == request.id && Identifies(c, a.fields)
    ensures BuildResult(c, request.body, request.id, a.fields.result, a.id) == Recovered(c, a)
  {
    var at :| a.fields.requestId == c.ofRequest(RequestMaterial(a.fields.request, at));
    assert RequestMaterial(request.body, request.requestedAt) == RequestMaterial(a.fields.request, at);
  }

  /** Recording keeps the request and enough of the body to rebuild the very result returned. */
  lemma AuditStandsForResult(c: Config, request: Request, b: ResultBody, stamp: int)
    requires Lawful(c) && ValidRequest(c, request)
    ensures var a := BuildAudit(c, request, b, stamp);
      && a.fields.request == request.body && a.fields.requestId == request.id && Identifies(c, a.fields)
      && BuildResult(c, request.body, request.id, b, a.id) == Recovered(c, a)
  {
    RecoveredEqualsOriginal(b);
    assert request.id == c.ofRequest(RequestMaterial(request.body, request.requestedAt));
  }

  lemma BackedStays(c: Config, results: seq<CapabilityResult>, audits: seq<Audit>, after: seq<Audit>)
    requires audits <= after && forall r :: r in results ==> Backed(c, r, audits)
    ensures forall r :: r in results ==> Backed(c, r, after)
  {
    forall r | r in results ensures Backed(c, r, after) {
      var a :| a in audits && r == Recovered(c, a);
      assert a in after;
    }
  }

  /** The answer, if one was given, is what the identity's audit record stands for. */
  ghost predicate Answered(c: Config, audits: seq<Audit>, id: Digest, reply: Reply) {
    reply.Answer? ==> AuditOf(audits, id).Some? && reply.result == Recovered(c, AuditOf(audits, id).value)
  }

  /** The audit ledger gains at most one record, for a request it did not know. */
  ghost predicate AuditsGrow(audits: seq<Audit>, id: Digest, after: seq<Audit>) {
    || after == audits
    || (AuditOf(audits, id).None? && |after| == |audits| + 1 && audits <= after && AuditOf(after, id).Some?)
  }

  /** What one request may do, whatever the adapter does and wherever it stops. */
  ghost predicate Disciplined(c: Config, m: Memory, call: Call, after: Memory, reply: Reply) {
    var id := call.request.id;
    && Inv(c, after)
    && AuditsGrow(m.audits, id, after.audits)
    && Answered(c, after.audits, id, reply)
    && (after.called == m.called
        || (after.called == m.called + [id] && AuditOf(m.audits, id).None? && ValidRequest(c, call.request)
             && Permitted(c, call)))
  }

  lemma ConcludeKeeps(c: Config, m: Memory, a: Audit, crash: Crash)
    requires Lawful(c) && Inv(c, m) && a in m.audits
    ensures var (after, reply) := Conclude(c, m, Recovered(c, a), crash);
      && Inv(c, after) && after == m.(results := Add(m.results, Recovered(c, a)))
      && reply == if crash == AfterResult then Silent else Answer(Recovered(c, a))
  {
    RecoveredIsValid(c, a);
    assert Backed(c, Recovered(c, a), m.audits);
  }

  lemma NewAuditKeeps(c: Config, m: Memory, a: Audit)
    requires Inv(c, m) && AuditOf(m.audits, a.fields.requestId).None?
    requires ValidAudit(c, a) && Identifies(c, a.fields)
    ensures Add(m.audits, a) == m.audits + [a] && Inv(c, m.(audits := m.audits + [a]))
    ensures AuditOf(m.audits + [a], a.fields.requestId) == Some(a)
  {
    BackedStays(c, m.results, m.audits, m.audits + [a]);
    AuditOfAppend(m.audits, a, a.fields.requestId);
  }

  lemma RecordKeeps(c: Config, m: Memory, call: Call, body: ResultBody)
    requires Lawful(c) && Inv(c, m) && ValidRequest(c, call.request) && AuditOf(m.audits, call.request.id).None?
    ensures var (after, reply) := RecordAttempt(c, m, call, body);
      && Inv(c, after) && AuditsGrow(m.audits, call.request.id, after.audits) && after.called == m.called
      && Answered(c, after.audits, call.request.id, reply)
      && (after.audits == m.audits <==> !Auditable(c, body))
      && (reply.Answer? <==> Auditable(c, body) && call.crash !in {AfterAudit, AfterResult})
  {
    var audit := BuildAudit(c, call.request, body, call.stamp);
    AuditStandsForResult(c, call.request, body, call.stamp);
    if Auditable(c, body) {
      NewAuditKeeps(c, m, audit);
      ConcludeKeeps(c, m.(audits := m.audits + [audit]), audit, call.crash);
    }
  }

  /** The adapter ran but nothing was recorded: the process died in between, or the body could
      not be audited. */
  predicate Unrecorded(c: Config, call: Call) {
    || call.crash == AfterAdapter
    || Attempt(c, call).None? || !Auditable(c, Attempt(c, call).value)
  }

  lemma TriedThenRecorded(c: Config, m: Memory, call: Call, after: Memory, reply: Reply)
    requires ValidRequest(c, call.request) && AuditOf(m.audits, call.request.id).None?
    requires Inv(c, after) && AuditsGrow(m.audits, call.request.id, after.audits)
        && Answered(c, after.audits, call.request.id, reply)
    requires after.called == Tried(c, m, call).called
    ensures Disciplined(c, m, call, after, reply)
  {}

  lemma FirstAttemptKeeps(c: Config, m: Memory, call: Call)
    requires Lawful(c) && Inv(c, m) && ValidRequest(c, call.request) && AuditOf(m.audits, call.request.id).None?
    ensures var (after, reply) := FirstAttempt(c, m, call); Disciplined(c, m, call, after, reply)
  {
    if call.crash != BeforeAdapter {
      var body, tried := Attempt(c, call), Tried(c, m, call);
      var (after, reply) := FirstAttempt(c, m, call);
      if body.Some? && call.crash != AfterAdapter { RecordKeeps(c, tried, call, body.value); }
      TriedThenRecorded(c, m, call, after, reply);
    }
  }

  /** Exactly when a first attempt calls the adapter, leaves an audit record, and answers. */
  lemma FirstAttemptOutcome(c: Config, m: Memory, call: Call)
    requires Lawful(c) && Inv(c, m) && ValidRequest(c, call.request) && AuditOf(m.audits, call.request.id).None?
    ensures var (after, reply) := FirstAttempt(c, m, call);
      && (AuditOf(after.audits, call.request.id).Some? <==> call.crash != BeforeAdapter && !Unrecorded(c, call))
      && (after.called == if call.crash != BeforeAdapter && Permitted(c, call) then m.called + [call.request.id]
           else m.called)
      && (reply.Answer? <==> call.crash == Never && !Unrecorded(c, call))
  {
    var body, tried := Attempt(c, call), Tried(c, m, call);
    if body.Some? { RecordKeeps(c, tried, call, body.value); }
  }

  /** An audited request: nothing but the missing result is ever added, and every answer is the recorded one. */
  lemma AuditedStep(c: Config, m: Memory, call: Call)
    requires Lawful(c) && Injective(c.ofRequest) && Inv(c, m) && ValidRequest(c, call.request)
        && AuditOf(m.audits, call.request.id).Some?
    ensures var (after, reply) := Step(c, m, call);
      var result := Recovered(c, AuditOf(m.audits, call.request.id).value);
      && Inv(c, after) && after.audits == m.audits && after.called == m.called
      && (reply == Answer(result) || (reply == Silent && call.crash != Never))
  {
    var a := AuditOf(m.audits, call.request.id).value;
    FindAgrees(c, m.results, m.audits, call.request.id);
    RecoveryBuildsRecovered(c, call.request, a);
    ConcludeKeeps(c, m, a, call.crash);
  }

  lemma StepIsDisciplined(c: Config, m: Memory, call: Call)
    requires Lawful(c) && Injective(c.ofRequest) && Inv(c, m)
    ensures var (after, reply) := Step(c, m, call); Disciplined(c, m, call, after, reply)
  {
    if ValidRequest(c, call.request) {
      if AuditOf(m.audits, call.request.id).Some? {
        AuditedStep(c, m, call);
      } else {
        FindAgrees(c, m.results, m.audits, call.request.id);
        FirstAttemptKeeps(c, m, call);
      }
    }
  }

  function Run(c: Config, m: Memory, calls: seq<Call>): (r: (Memory, seq<Reply>))
    ensures |r.1| == |calls|
    decreases |calls|
  {
    if |calls| == 0 then (m, [])
    else
      var (before, replies) := Run(c, m, calls[..|calls| - 1]);
      var (after, reply) := Step(c, before, calls[|calls| - 1]);
      (after, replies + [reply])
  }

  const EMPTY := Memory([], [], [])

  lemma {:induction false} AuditOfPrefix(audits: seq<Audit>, after: seq<Audit>, id: Digest)
    requires audits <= after && AuditOf(audits, id).Some?
    ensures AuditOf(after, id) == AuditOf(audits, id)
  {
    if audits[0].fields.requestId != id {
      AuditOfPrefix(audits[1..], after[1..], id);
    }
  }

  lemma AnsweredStays(c: Config, audits: seq<Audit>, after: seq<Audit>, id: Digest, reply: Reply)
    requires audits <= after && Answered(c, audits, id, reply)
    ensures Answered(c, after, id, reply)
  {
    if reply.Answer? { AuditOfPrefix(audits, after, id); }
  }

  lemma {:induction false} RunKeeps(c: Config, calls: seq<Call>)
    requires Lawful(c) && Injective(c.ofRequest)
    ensures Inv(c, Run(c, EMPTY, calls).0)
    decreases |calls|
  {
    if |calls| > 0 {
      var front := calls[..|calls| - 1];
      RunKeeps(c, front);
      StepIsDisciplined(c, Run(c, EMPTY, front).0, calls[|calls| - 1]);
    }
  }

  /** In every run there is at most one audit record per request identity and `find` never
      fails; and every answer ever given for an identity, recovered or not, is the one value
      its audit record stands for. */
  lemma {:induction false} OneAnswerPerRequest(c: Config, calls: seq<Call>, i: nat)
    requires Lawful(c) && Injective(c.ofRequest) && i < |calls|
    ensures var (m, replies) := Run(c, EMPTY, calls);
      Inv(c, m) && Answered(c, m.audits, calls[i].request.id, replies[i])
    decreases |calls|
  {
    var front, call := calls[..|calls| - 1], calls[|calls| - 1];
    RunKeeps(c, calls);
    RunKeeps(c, front);
    var (before, replies) := Run(c, EMPTY, front);
    var (after, reply) := Step(c, before, call);
    StepIsDisciplined(c, before, call);
    if i < |front| {
      OneAnswerPerRequest(c, front, i);
      AnsweredStays(c, before.audits, after.audits, calls[i].request.id, replies[i]);
    }
  }

  /** Any two answers for the same request are equal, however much crashed in between. */
  lemma AnswersAgree(c: Config, calls: seq<Call>, i: nat, j: nat)
    requires Lawful(c) && Injective(c.ofRequest) && i < |calls| && j < |calls|
        && calls[i].request.id == calls[j].request.id
    ensures var replies := Run(c, EMPTY, calls).1;
      replies[i].Answer? && replies[j].Answer? ==> replies[i] == replies[j]
  {
    OneAnswerPerRequest(c, calls, i);
    OneAnswerPerRequest(c, calls, j);
  }

  /** The adapter is called for a request only when the profile allows the operation, any lease it
      needs is active, and no audit record exists for it: with a record, never again. */
  lemma CallsArePermitted(c: Config, calls: seq<Call>, call: Call)
    requires Lawful(c) && Injective(c.ofRequest)
    ensures var m := Run(c, EMPTY, calls).0;
      var after := Step(c, m, call).0;
      && Find(c, m.results, call.request.id).Ok?
      && (after.called == m.called || after.called == m.called + [call.request.id])
      && (after.called != m.called ==> Permitted(c, call) && AuditOf(m.audits, call.request.id).None?)
  {
    RunKeeps(c, calls);
    var m := Run(c, EMPTY, calls).0;
    StepIsDisciplined(c, m, call);
    FindAgrees(c, m.results, m.audits, call.request.id);
  }

  function Count(ids: seq<Digest>, id: Digest): nat {
    if |ids| == 0 then 0 else Count(ids[..|ids| - 1], id) + if ids[|ids| - 1] == id then 1 else 0
  }

  /** A step that calls the adapter for `id` and leaves no audit record. */
  predicate Loses(c: Config, m: Memory, call: Call, id: Digest) {
    && call.request.id == id && ValidRequest(c, call.request) && AuditOf(m.audits, id).None?
    && call.crash != BeforeAdapter && Permitted(c, call) && Unrecorded(c, call)
  }

  function Losses(c: Config, calls: seq<Call>, id: Digest): nat
    decreases |calls|
  {
    if |calls| == 0 then 0
    else
      var front, call := calls[..|calls| - 1], calls[|calls| - 1];
      Losses(c, front, id) + if Loses(c, Run(c, EMPTY, front).0, call, id) then 1 else 0
  }

  ghost predicate Counted(c: Config, m: Memory, call: Call, id: Digest, after: Memory) {
    var more := Count(after.called, id) - Count(m.called, id);
    && (AuditOf(m.audits, id).Some? ==> more == 0 && AuditOf(after.audits, id).Some?)
    && (AuditOf(m.audits, id).None? && AuditOf(after.audits, id).None? ==>
         more == if Loses(c, m, call, id) then 1 else 0)
    && (AuditOf(m.audits, id).None? && AuditOf(after.audits, id).Some? ==> 0 <= more <= 1 && !Loses(c, m, call, id))
  }

  lemma CountAppend(ids: seq<Digest>, x: Digest, id: Digest)
    ensures Count(ids + [x], id) == Count(ids, id) + if x == id then 1 else 0
  {
    assert (ids + [x])[..|ids|] == ids;
  }

  lemma OtherCounts(c: Config, m: Memory, call: Call, id: Digest, after: Memory, reply: Reply)
    requires Disciplined(c, m, call, after, reply) && call.request.id != id
    ensures Counted(c, m, call, id, after)
  {
    CountAppend(m.called, call.request.id, id);
    if after.audits != m.audits {
      assert after.audits == m.audits + [after.audits[|m.audits|]];
      AuditOfAppend(m.audits, after.audits[|m.audits|], id);
      AuditOfAppend(m.audits, after.audits[|m.audits|], call.request.id);
    }
  }

  lemma FirstCounts(c: Config, m: Memory, call: Call)
    requires Lawful(c) && Inv(c, m) && ValidRequest(c, call.request) && AuditOf(m.audits, call.request.id).None?
    ensures Counted(c, m, call, call.request.id, FirstAttempt(c, m, call).0)
  {
    CountAppend(m.called, call.request.id, call.request.id);
    FirstAttemptOutcome(c, m, call);
  }

  lemma FirstStep(c: Config, m: Memory, call: Call)
    requires Lawful(c) && Inv(c, m) && ValidRequest(c, call.request) && AuditOf(m.audits, call.request.id).None?
    ensures Step(c, m, call) == FirstAttempt(c, m, call)
  { FindAgrees(c, m.results, m.audits, call.request.id); }

  lemma OwnCounts(c: Config, m: Memory, call: Call)
    requires Lawful(c) && Injective(c.ofRequest) && Inv(c, m)
    ensures Counted(c, m, call, call.request.id, Step(c, m, call).0)
  {
    if ValidRequest(c, call.request) {
      if AuditOf(m.audits, call.request.id).Some? {
        AuditedStep(c, m, call);
      } else {
        FirstStep(c, m, call);
        FirstCounts(c, m, call);
      }
    }
  }

  lemma StepCounts(c: Config, m: Memory, call: Call, id: Digest)
    requires Lawful(c) && Injective(c.ofRequest) && Inv(c, m)
    ensures Counted(c, m, call, id, Step(c, m, call).0)
  {
    if call.request.id == id { OwnCounts(c, m, call); }
    else {
      StepIsDisciplined(c, m, call);
      var (after, reply) := Step(c, m, call);
      OtherCounts(c, m, call, id, after, reply);
    }
  }

  /** At most once, exactly: the adapter is called for a request once for every attempt that was
      lost before its audit record, and at most once more, by the attempt that wrote the record. */
  lemma {:induction false} CallsAreLossesPlusOne(c: Config, calls: seq<Call>, id: Digest)
    requires Lawful(c) && Injective(c.ofRequest)
    ensures var m := Run(c, EMPTY, calls).0;
      && Losses(c, calls, id) <= Count(m.called, id) <= Losses(c, calls, id) + 1
      && (AuditOf(m.audits, id).None? ==> Count(m.called, id) == Losses(c, calls, id))
    decreases |calls|
  {
    if |calls| > 0 {
      var front, call := calls[..|calls| - 1], calls[|calls| - 1];
      CallsAreLossesPlusOne(c, front, id);
      RunKeeps(c, front);
      StepCounts(c, Run(c, EMPTY, front).0, call, id);
    }
  }
}
