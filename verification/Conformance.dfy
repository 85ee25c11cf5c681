/** Desired state against observed state (`diff_desired_state` in src/mncs_fabric/desired_state.py,
    `evaluate_conformance` and `evaluate_ready` in src/mncs_fabric/conformance.py). */
module Conformance {
  import opened Orders
  import opened DesiredState

  // ---- Observation ----------------------------------------------------------------------------

  datatype Tool = Tool(present: bool, version: Option<string>)
  datatype Runtime = Runtime(present: bool, reachable: bool, models: seq<string>)
  datatype Service = Service(present: bool, state: Option<string>)
  datatype Credential = Credential(name: string, available: bool, detail: string)

  datatype Inventory = Inventory(
    id: string, worker: string, tools: map<string, Tool>, runtimes: map<string, Runtime>, services: map<string,
        Service>,
    workerVersion: Option<string>, harnessVersion: Option<string>, credentials: seq<Credential>)

  datatype Desired = Desired(id: string, profiles: seq<string>, requirements: seq<Requirement>,
        supportedCurrent: map<string, string>)

  /** Python's truth of an optional text. */
  predicate Given(s: Option<string>) { s.Some? && s.value != "" }

  function ActualTool(i: Inventory, r: Requirement): string {
    if r.name !in i.tools || !i.tools[r.name].present then "absent"
    else if (r.level.SupportedCurrent? || r.level.MncsSupported?)
        && !Given(i.tools[r.name].version) then "present-unversioned"
    else "present"
  }

  function ActualRuntime(i: Inventory, r: Requirement): string {
    if r.name !in i.runtimes || !i.runtimes[r.name].present then "absent"
    else if r.level.Running? && !i.runtimes[r.name].reachable then "present-unreachable"
    else if r.level.MncsSupported? && !i.runtimes[r.name].reachable then "present-unverified"
    else "present"
  }

  function ActualService(i: Inventory, r: Requirement): string {
    if r.name !in i.services || !i.services[r.name].present then "absent"
    else
      var state := i.services[r.name].state;
      if Given(state) then state.value
      else if r.level.Running? then "unknown" else "present"
  }

  function ActualModel(i: Inventory, r: Requirement): string {
    var models := if "ollama" in i.runtimes then i.runtimes["ollama"].models else [];
    if exists m :: m in models && (m == r.name || r.name + ":" <= m) then "present" else "absent"
  }

  function ActualPackage(i: Inventory, supported: map<string, string>, r: Requirement): string {
    if r.name == "fabric-worker" then
      var pin := if Given(r.version) then r.version
                 else if "fabric-worker" in supported then Some(supported["fabric-worker"]) else None;
      if !Given(i.workerVersion) then "absent"
      else if r.level.SupportedCurrent? && Given(pin) && i.workerVersion != pin then "version-drift"
      else i.workerVersion.value
    else if r.name == "local-harness" then
      if Given(i.harnessVersion) then i.harnessVersion.value else "absent"
    else "unknown"
  }

  /** `_actual_for`. */
  function Actual(i: Inventory, supported: map<string, string>, r: Requirement): string {
    if r.kind == "tool" then ActualTool(i, r)
    else if r.kind == "runtime" then ActualRuntime(i, r)
    else if r.kind == "service" then ActualService(i, r)
    else if r.kind == "model" then ActualModel(i, r)
    else if r.kind == "package" then ActualPackage(i, supported, r)
    else "unknown"
  }

  /** `_is_compliant`. */
  predicate Compliant(r: Requirement, actual: string) {
    if r.level.Absent? then actual == "absent"
    else if actual == "absent" || actual == "version-drift" then false
    else if r.level.Running? then actual == "running" || actual == "present"
    else actual !in {"absent", "present-unverified", "present-unreachable", "version-drift"}
  }

  // ---- The diff ---------------------------------------------------------------------------------

  datatype Change = Change(requirement: Requirement, actual: string)

  /** What one requirement contributes. */
  function ChangesFor(i: Inventory, d: Desired, classes: set<string>, r: Requirement): seq<Change> {
    var actual := Actual(i, d.supportedCurrent, r);
    if r.updateClass in classes && !Compliant(r, actual) then [Change(r, actual)] else []
  }

  function Contribution(i: Inventory, d: Desired, classes: set<string>): Requirement -> seq<Change> {
    r => ChangesFor(i, d, classes, r)
  }

  function Diff(i: Inventory, d: Desired, classes: set<string>, requirements: seq<Requirement>): seq<Change> {
    FlatMap(Contribution(i, d, classes), requirements)
  }

  method DiffDesiredState(i: Inventory, d: Desired, classes: set<string>) returns (changes: seq<Change>)
    ensures changes == Diff(i, d, classes, d.requirements)
  {
    changes := [];
    for n := 0 to |d.requirements|
      invariant changes == Diff(i, d, classes, d.requirements[..n])
    {
      assert d.requirements[..n + 1][..n] == d.requirements[..n];
      var r := d.requirements[n];
      if r.updateClass in classes {
        var actual := Actual(i, d.supportedCurrent, r);
        if !Compliant(r, actual) { changes := changes + [Change(r, actual)]; }
      }
    }
    assert d.requirements[..|d.requirements|] == d.requirements;
  }

  // ---- Conformance --------------------------------------------------------------------------------

  datatype Status = Pass | Nonconformant | NotInstalled | AuthRequired | Unknown

  datatype Finding = Finding(requirement: Requirement, blocking: bool, status: Status, actual: string)

  datatype Report = Report(inventory: string, desired: string, findings: seq<Finding>,
        blockingFailures: seq<Requirement>, disposition: Disposition)
  datatype Disposition = Conforms | Fails | Undecided

  predicate Unauthenticated(detail: string) { exists k :: 0 <= k <= |detail| && "unauthenticated" <= detail[k..] }

  function CredentialStatus(credentials: seq<Credential>, name: string): Option<Status> {
    if |credentials| == 0 then None
    else if credentials[0].name != name then CredentialStatus(credentials[1..], name)
    else if credentials[0].available then Some(Pass)
    else if Unauthenticated(credentials[0].detail) then Some(AuthRequired)
    else if credentials[0].detail in {"absent", "gh-absent"} then Some(NotInstalled)
    else Some(Unknown)
  }

  predicate IsGh(r: Requirement) { r.kind == "tool" && r.name == "gh" }

  function StatusOf(i: Inventory, supported: map<string, string>, r: Requirement): Status {
    var actual := Actual(i, supported, r);
    var status :=
      if actual == "absent" then NotInstalled
      else if actual == "unknown" then Unknown
      else if Compliant(r, actual) then Pass else Nonconformant;
    if IsGh(r) && "gh" in i.tools && i.tools["gh"].present then
      var credential := CredentialStatus(i.credentials, "github-cli");
      if credential == Some(AuthRequired) then AuthRequired
      else if credential == Some(Pass) && status == Nonconformant then Pass
      else status
    else status
  }

  const BUILD_ONLY_TOOLS := {"gcc", "rustc", "cargo", "forge"}

  /** `requirement_blocks_ready`. */
  predicate Blocks(r: Requirement, profiles: seq<string>) {
    && !(r.kind == "package" && r.name == "local-harness")
    && !IsGh(r)
    && !(r.kind == "tool" && r.name in BUILD_ONLY_TOOLS && "mncs-build-worker" !in profiles)
    && r.updateClass != "D"
  }

  predicate Failed(s: Status) { s.Nonconformant? || s.NotInstalled? || s.AuthRequired? }

  function FindingFor(i: Inventory, d: Desired, r: Requirement): Finding {
    Finding(r, Blocks(r, d.profiles), StatusOf(i, d.supportedCurrent, r), Actual(i, d.supportedCurrent, r))
  }

  function Findings(i: Inventory, d: Desired, requirements: seq<Requirement>): (r: seq<Finding>)
    ensures |r| == |requirements| && forall n :: 0 <= n < |r| ==> r[n] == FindingFor(i, d, requirements[n])
  { seq(|requirements|, n requires 0 <= n < |requirements| => FindingFor(i, d, requirements[n])) }

  function BlockingFailures(findings: seq<Finding>): seq<Requirement> {
    if |findings| == 0 then []
    else
      var last := findings[|findings| - 1];
      BlockingFailures(findings[..|findings| - 1]) + (if last.blocking && Failed(last.status) then [last.requirement]
          else [])
  }

  predicate AnyFailed(findings: seq<Finding>) { exists n :: 0 <= n < |findings| && Failed(findings[n].status) }
  predicate AnyUnknown(findings: seq<Finding>) { exists n :: 0 <= n < |findings| && findings[n].actual == "unknown" }

  function DispositionOf(findings: seq<Finding>): Disposition {
    if AnyUnknown(findings) && !AnyFailed(findings) then Undecided else if AnyFailed(findings) then Fails else Conforms
  }

  function Evaluated(i: Inventory, d: Desired): Report {
    var findings := Findings(i, d, d.requirements);
    Report(i.id, d.id, findings, BlockingFailures(findings), DispositionOf(findings))
  }

  method EvaluateConformance(i: Inventory, d: Desired) returns (report: Report)
    ensures report == Evaluated(i, d)
  {
    var findings, blockingFailures, unknown := [], [], false;
    for n := 0 to |d.requirements|
      invariant findings == Findings(i, d, d.requirements[..n])
      invariant blockingFailures == BlockingFailures(findings)
      invariant unknown == AnyUnknown(findings)
    {
      ghost var before := findings;
      var finding := FindingFor(i, d, d.requirements[n]);
      findings := findings + [finding];
      Extended(before, finding);
      if finding.actual == "unknown" { unknown := true; }
      if Failed(finding.status) && finding.blocking { blockingFailures := blockingFailures + [finding.requirement]; }
    }
    assert d.requirements[..|d.requirements|] == d.requirements;
    var failed := AnyFailed(findings);
    var disposition := if unknown && !failed then Undecided else if failed then Fails else Conforms;
    return Report(i.id, d.id, findings, blockingFailures, disposition);
  }

  lemma Extended(findings: seq<Finding>, f: Finding)
    ensures AnyUnknown(findings + [f]) <==> AnyUnknown(findings) || f.actual == "unknown"
    ensures BlockingFailures(findings + [f]) == BlockingFailures(findings) + if f.blocking
        && Failed(f.status) then [f.requirement] else []
  {
    var after := findings + [f];
    assert after[|findings|] == f && after[..|findings|] == findings;
    if AnyUnknown(findings) {
      var n :| 0 <= n < |findings| && findings[n].actual == "unknown";
      assert after[n] == findings[n];
    }
  }

  // ---- Do the two evaluators agree? -----------------------------------------------------------------

  predicate Flagged(s: Status) { s.Nonconformant? || s.NotInstalled? }

  /** The observations on which the diff and conformance part ways. */
  predicate Divides(i: Inventory, supported: map<string, string>, r: Requirement) {
    var actual := Actual(i, supported, r);
    || (r.level.Absent? && actual == "absent")
    || (actual == "unknown" && (r.level.Absent? || r.level.Running?))
    || (IsGh(r) && r.level.Absent? && actual != "absent"
        && CredentialStatus(i.credentials, "github-cli") in {Some(AuthRequired), Some(Pass)})
  }

  /** Exactly: a requirement is out of compliance for the diff if and only if conformance flags
      it, except on the dividing observations, where the two always differ. */
  lemma DiffAgreesWithConformanceIff(i: Inventory, supported: map<string, string>, r: Requirement)
    ensures (!Compliant(r, Actual(i, supported, r)) <==> Flagged(StatusOf(i, supported, r))) <==>
      !Divides(i, supported, r)
  {
    if IsGh(r) { assert Actual(i, supported, r) == ActualTool(i, r); }
  }

  const BARE := Inventory("i", "w", map[], map[], map[], None, None, [])

  /** Each kind of dividing observation occurs: a tool that must be absent, and is, is compliant yet
      NOT_INSTALLED; a service of unknown state that must run, and an uninspected package that must be
      absent, are changes yet UNKNOWN; and gh that must be absent is a change yet PASS once its
      credential is available. */
  lemma DividingObservationsOccur()
    ensures var r := Requirement("tool", "forge", "B", Absent, None);
      Compliant(r, Actual(BARE, map[], r)) && StatusOf(BARE, map[], r) == NotInstalled
    ensures var r := Requirement("service", "ollama", "B", Running, None);
      var i := BARE.(services := map["ollama" := Service(true, None)]);
      !Compliant(r, Actual(i, map[], r)) && StatusOf(i, map[], r) == Unknown
    ensures var r := Requirement("package", "other", "B", Absent, None);
      !Compliant(r, Actual(BARE, map[], r)) && StatusOf(BARE, map[], r) == Unknown
    ensures var r := Requirement("tool", "gh", "B", Absent, None);
      var i := BARE.(tools := map["gh" := Tool(true, None)], credentials := [Credential("github-cli", true, "")]);
      !Compliant(r, Actual(i, map[], r)) && StatusOf(i, map[], r) == Pass
  {
    var i := BARE.(tools := map["gh" := Tool(true, None)], credentials := [Credential("github-cli", true, "")]);
    assert CredentialStatus(i.credentials, "github-cli") == Some(Pass);
    assert "package" != "tool" && "other"[0] == 'o' && "fabric-worker"[0] == 'f' && "local-harness"[0] == 'l';
  }

  lemma DiffLists(i: Inventory, d: Desired, classes: set<string>, requirements: seq<Requirement>, c: Change)
    ensures c in Diff(i, d, classes, requirements) <==>
      && c.requirement in requirements && c.requirement.updateClass in classes
      && c.actual == Actual(i, d.supportedCurrent, c.requirement) && !Compliant(c.requirement, c.actual)
  {
    FlatMapMembers(Contribution(i, d, classes), requirements, c);
    forall r ensures c in ChangesFor(i, d, classes, r) <==>
      r == c.requirement && c in ChangesFor(i, d, classes, c.requirement) {}
  }

  /** The unfiltered diff lists a requirement if and only if conformance marks it NONCONFORMANT or
      NOT_INSTALLED, unless its observation divides them. */
  lemma DiffListsWhatConformanceFlags(i: Inventory, d: Desired, classes: set<string>, n: nat)
    requires n < |d.requirements| && forall r :: r in d.requirements ==> r.updateClass in classes
    requires !Divides(i, d.supportedCurrent, d.requirements[n])
    ensures var r, f := d.requirements[n], Evaluated(i, d).findings[n];
      Change(r, f.actual) in Diff(i, d, classes, d.requirements) <==> Flagged(f.status)
  {
    var r := d.requirements[n];
    assert r in d.requirements;
    DiffLists(i, d, classes, d.requirements, Change(r, Actual(i, d.supportedCurrent, r)));
    DiffAgreesWithConformanceIff(i, d.supportedCurrent, r);
  }

  // ---- READY --------------------------------------------------------------------------------------

  datatype Certification = Certification(disposition: string, inventory: string, worker: Option<string>,
        observedVersion: Option<string>)

  datatype Evidence = Evidence(
    certification: Option<Certification>, conformance: Option<Report>, inventory: Option<Inventory>,
        desired: Option<Desired>,
    transaction: Option<string>, currentInventory: Option<string>, currentDesired: Option<string>, policyAllows: bool,
        completing: bool)

  datatype Readiness = Ready | Maintenance | Verifying | Quarantined | Degraded

  const UNRESOLVED := {
    "UPDATE_PLANNED", "DRAINING", "UPDATE_APPLYING", "UPDATE_APPLIED", "RESTART_PENDING", "DISCONNECT_EXPECTED",
    "RECONNECTING", "VERSION_VERIFYING", "CERTIFYING", "ROLLBACK_APPLYING"}

  predicate Unresolved(e: Evidence) {
    e.transaction.Some? && e.transaction.value in UNRESOLVED && !(e.completing && e.transaction.value == "CERTIFYING")
  }

  function CurrentInventory(e: Evidence): Option<string> {
    var id := if e.inventory.Some? then Some(e.inventory.value.id) else e.currentInventory;
    if Given(id) then id else None
  }

  function CurrentDesired(e: Evidence): Option<string> {
    var id := if e.desired.Some? then Some(e.desired.value.id) else e.currentDesired;
    if Given(id) then id else None
  }

  /** `evaluate_ready`. */
  function EvaluateReady(e: Evidence): Readiness {
    if !e.policyAllows then Maintenance
    else if Unresolved(e) then Verifying
    else if e.transaction == Some("QUARANTINED") then Quarantined
    else if e.transaction == Some("FAILED") then Degraded
    else if e.certification.None? then Verifying
    else if e.certification.value.disposition == "FAILED" then Quarantined
    else if e.certification.value.disposition != "CERTIFIED" then Degraded
    else if e.conformance.None? then Verifying
    else BoundReady(e, e.certification.value, e.conformance.value)
  }

  function BoundReady(e: Evidence, certification: Certification, conformance: Report): Readiness {
    if CurrentInventory(e).None? then Verifying
    else if certification.inventory != CurrentInventory(e).value then Verifying
    else if conformance.inventory != CurrentInventory(e).value then Verifying
    else if e.inventory.Some? && Given(certification.worker)
        && certification.worker.value != e.inventory.value.worker then Quarantined
    else if e.inventory.Some? && Given(e.inventory.value.workerVersion) && Given(certification.observedVersion)
         && certification.observedVersion != e.inventory.value.workerVersion then Verifying
    else if CurrentDesired(e).None? then Verifying
    else if conformance.desired != CurrentDesired(e).value then Verifying
    else if |conformance.blockingFailures| > 0 then Degraded
    else if conformance.disposition.Undecided? then Degraded
    else Ready
  }

  lemma {:induction false} BlockingFailuresAre(findings: seq<Finding>)
    ensures BlockingFailures(findings) == [] <==>
      forall n :: 0 <= n < |findings| ==> !(findings[n].blocking && Failed(findings[n].status))
  {
    if |findings| > 0 {
      var front, last := findings[..|findings| - 1], findings[|findings| - 1];
      BlockingFailuresAre(front);
      assert forall n :: 0 <= n < |front| ==> front[n] == findings[n];
      assert findings[|front|] == last;
    }
  }

  lemma UnknownIsObserved(i: Inventory, d: Desired, n: nat)
    requires n < |d.requirements|
    ensures var f := Evaluated(i, d).findings[n]; f.status == Unknown <==> f.actual == "unknown"
  {}

  /** No blocking requirement failed, and nothing is left undecided by conformance as a whole. */
  ghost predicate Settled(findings: seq<Finding>) {
    && (forall n :: 0 <= n < |findings| && findings[n].blocking ==> findings[n].status in {Pass, Unknown})
    && ((exists n :: 0 <= n < |findings| && findings[n].status == Unknown) ==>
          exists m :: 0 <= m < |findings| && !findings[m].blocking && Failed(findings[m].status))
  }

  /** Conformance evidence lets a worker become READY exactly when every blocking requirement is PASS
      or UNKNOWN, and an UNKNOWN one is possible only beside a failed non-blocking requirement. */
  lemma ConformanceAllowsReadyIff(i: Inventory, d: Desired)
    ensures var report := Evaluated(i, d);
      (report.blockingFailures == [] && report.disposition != Undecided) <==> Settled(report.findings)
  {
    var findings := Evaluated(i, d).findings;
    BlockingFailuresAre(findings);
    forall n | 0 <= n < |findings|
      ensures findings[n].status == Unknown <==> findings[n].actual == "unknown" { UnknownIsObserved(i, d, n); }
    forall n | 0 <= n < |findings| ensures findings[n].status in {Pass, Unknown} <==> !Failed(findings[n].status) {}
  }

  /** READY from computed conformance, exactly. */
  lemma ReadyIff(e: Evidence, i: Inventory, d: Desired)
    requires e.conformance == Some(Evaluated(i, d))
    ensures EvaluateReady(e) == Ready <==>
      && e.policyAllows && !Unresolved(e) && e.transaction !in {Some("QUARANTINED"), Some("FAILED")}
      && e.certification.Some? && e.certification.value.disposition == "CERTIFIED"
      && CurrentInventory(e) == Some(i.id) && e.certification.value.inventory == i.id
      && CurrentDesired(e) == Some(d.id)
      && (e.inventory.Some? ==>
            && (Given(e.certification.value.worker) ==> e.certification.value.worker.value == e.inventory.value.worker)
            && (Given(e.inventory.value.workerVersion) && Given(e.certification.value.observedVersion) ==>
                  e.certification.value.observedVersion == e.inventory.value.workerVersion))
      && Settled(Evaluated(i, d).findings)
  {
    ConformanceAllowsReadyIff(i, d);
  }
}
