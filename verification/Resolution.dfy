/** Worker resolution and fleet ranking (src/mncs_fabric/capability_resolution.py). Token sets of
    a query are kept as their sorted lists; an absent option is "any" or "unknown". */
module Resolution {
  import opened Orders
  import opened Ledger

  datatype Os = Linux | Windows | Macos
  datatype Arch = X86_64 | Aarch64 | Riscv64 | X86 | Arm32
  datatype Libc = Gnu | Musl | WasiC | WinCrt

  datatype ReqEnv = ReqEnv(
    os: Option<Os>, arch: Option<Arch>, libc: Option<Libc>, requireCuda: bool, cudaMajor: int, cudaMinor: int,
    requireEbpf: bool, requireWasm: bool, requirePtx: bool, allowEmulation: bool, minMemory: int, minCpus: int)

  datatype Env = Env(
    os: Option<Os>, arch: Option<Arch>, libc: Option<Libc>, cuda: bool, emulated: bool, emulatesArch: bool,
    cudaMajor: int, cudaMinor: int, ebpf: bool, wasm: bool, ptx: bool, memory: int, cpus: int)

  datatype Policy = Policy(
    experimental: bool, disposable: bool, rootMutation: bool, reboot: bool, toolchainInstall: bool, constrained: bool)

  datatype Intent = Normal | Mutating | Privileged
  datatype Liveness = Available | Unavailable | Disconnected
  datatype Provenance = WorkerObserved | OperatorAsserted | ConsumerDeclared | Unrecognised

  datatype Query = Query(
    requireAll: seq<string>, requireAny: seq<set<string>>, forbid: seq<string>, prefer: set<string>,
        env: Option<ReqEnv>, intent: Intent)

  /** `tokens`: the worker's capabilities with those its environment and policy stand for. */
  datatype Worker = Worker(
    id: string, tokens: set<string>, env: Env, policy: Policy, liveness: Liveness, available: bool, age: Option<int>,
        provenance: Provenance)

  const MAX_AGE := 300

  // ---- The platform checks -----------------------------------------------------------------------

  predicate Satisfies<T(==)>(want: Option<T>, got: Option<T>) { want.None? || want == got }

  predicate ArchSatisfies(req: ReqEnv, env: Env) {
    if Satisfies(req.arch, env.arch) then !env.emulated || req.allowEmulation
    else req.allowEmulation && env.emulatesArch && env.emulated
  }

  predicate CudaSatisfies(req: ReqEnv, env: Env) {
    !req.requireCuda || (env.cuda
        && (env.cudaMajor > req.cudaMajor || (env.cudaMajor == req.cudaMajor && env.cudaMinor >= req.cudaMinor)))
  }

  predicate FlagSatisfies(require: bool, got: bool) { require ==> got }

  predicate ResourcesSatisfy(req: ReqEnv, env: Env) { req.minMemory <= env.memory && req.minCpus <= env.cpus }

  /** `env_satisfies`. */
  predicate EnvSatisfies(req: ReqEnv, env: Env) {
    && Satisfies(req.os, env.os) && ArchSatisfies(req, env) && Satisfies(req.libc, env.libc) && CudaSatisfies(req, env)
    && FlagSatisfies(req.requireEbpf, env.ebpf) && FlagSatisfies(req.requireWasm, env.wasm)
         && FlagSatisfies(req.requirePtx, env.ptx)
    && ResourcesSatisfy(req, env)
  }

  // ---- Diagnostics ---------------------------------------------------------------------------------

  datatype Diagnostic =
    | MissingToken(token: string)
    | MissingOneOf(group: set<string>)
    | ForbiddenPresent(token: string)
    | MissingCuda | MissingArch | MissingOs | MissingLibc | MissingEbpf | MissingWasm | MissingPtx | MissingResources
    | MissingPolicy(intent: Intent)

  function MissingTokens(required: seq<string>, tokens: set<string>): seq<Diagnostic> {
    if |required| == 0 then []
    else
      var last := required[|required| - 1];
      MissingTokens(required[..|required| - 1], tokens) + (if last in tokens then [] else [MissingToken(last)])
  }

  predicate Hit(group: set<string>, tokens: set<string>) { exists t :: t in group && t in tokens }

  function MissingGroups(groups: seq<set<string>>, tokens: set<string>): seq<Diagnostic> {
    if |groups| == 0 then []
    else
      var last := groups[|groups| - 1];
      MissingGroups(groups[..|groups| - 1], tokens) + (if Hit(last, tokens) then [] else [MissingOneOf(last)])
  }

  function ForbiddenTokens(forbid: seq<string>, tokens: set<string>): seq<Diagnostic> {
    if |forbid| == 0 then []
    else
      var last := forbid[|forbid| - 1];
      ForbiddenTokens(forbid[..|forbid| - 1], tokens) + (if last in tokens then [ForbiddenPresent(last)] else [])
  }

  function When(failed: bool, d: Diagnostic): seq<Diagnostic> { if failed then [d] else [] }

  function MissingEnv(req: ReqEnv, env: Env): seq<Diagnostic> {
    if EnvSatisfies(req, env) then []
    else
      When(!CudaSatisfies(req, env), MissingCuda) +
      When(req.arch.Some? && !ArchSatisfies(req, env), MissingArch) +
      When(!Satisfies(req.os, env.os), MissingOs) +
      When(!Satisfies(req.libc, env.libc), MissingLibc) +
      When(!FlagSatisfies(req.requireEbpf, env.ebpf), MissingEbpf) +
      When(!FlagSatisfies(req.requireWasm, env.wasm), MissingWasm) +
      When(!FlagSatisfies(req.requirePtx, env.ptx), MissingPtx) +
      When(!ResourcesSatisfy(req, env), MissingResources)
  }

  function LivenessOf(w: Worker): Liveness { if !w.available && w.liveness.Available? then Unavailable else w.liveness }
  predicate Fresh(w: Worker) { w.age.None? || 0 <= w.age.value <= MAX_AGE }
  predicate Trusted(w: Worker) { w.provenance.WorkerObserved? || w.provenance.OperatorAsserted? }
  predicate Reachable(w: Worker) { LivenessOf(w).Available? && Fresh(w) && Trusted(w) }

  function Missing(q: Query, w: Worker): seq<Diagnostic> {
    if !Reachable(w) then []
    else
      MissingTokens(q.requireAll, w.tokens) + MissingGroups(q.requireAny, w.tokens) + ForbiddenTokens(q.forbid,
          w.tokens) +
      (if q.env.Some? then MissingEnv(q.env.value, w.env) else [])
  }

  predicate IntentAllowed(p: Policy, intent: Intent) {
    match intent
    case Normal => true
    case Mutating => p.experimental && p.toolchainInstall
    case Privileged => p.experimental && p.rootMutation
  }

  method WorkerBaseInputs(q: Query, w: Worker) returns (missing: seq<Diagnostic>, forbiddenHit: Option<string>)
    ensures missing == Missing(q, w)
    ensures forbiddenHit.Some? <==> exists t :: ForbiddenPresent(t) in missing
  {
    missing, forbiddenHit := [], None;
    if Reachable(w) {
      for i := 0 to |q.requireAll|
        invariant missing == MissingTokens(q.requireAll[..i], w.tokens)
      {
        assert q.requireAll[..i + 1][..i] == q.requireAll[..i];
        if q.requireAll[i] !in w.tokens { missing := missing + [MissingToken(q.requireAll[i])]; }
      }
      assert q.requireAll[..|q.requireAll|] == q.requireAll;
      for i := 0 to |q.requireAny|
        invariant missing == MissingTokens(q.requireAll, w.tokens) + MissingGroups(q.requireAny[..i], w.tokens)
      {
        assert q.requireAny[..i + 1][..i] == q.requireAny[..i];
        if !Hit(q.requireAny[i], w.tokens) { missing := missing + [MissingOneOf(q.requireAny[i])]; }
      }
      assert q.requireAny[..|q.requireAny|] == q.requireAny;
      ghost var before := missing;
      for i := 0 to |q.forbid|
        invariant missing == before + ForbiddenTokens(q.forbid[..i], w.tokens)
        invariant forbiddenHit.Some? <==> |ForbiddenTokens(q.forbid[..i], w.tokens)| > 0
      {
        assert q.forbid[..i + 1][..i] == q.forbid[..i];
        if q.forbid[i] in w.tokens {
          if forbiddenHit.None? { forbiddenHit := Some(q.forbid[i]); }
          missing := missing + [ForbiddenPresent(q.forbid[i])];
        }
      }
      assert q.forbid[..|q.forbid|] == q.forbid;
      if q.env.Some? { missing := missing + MissingEnv(q.env.value, w.env); }
      ForbiddenAmong(q, w);
    }
  }

  // ---- Codes -----------------------------------------------------------------------------------------

  datatype Code =
    | Eligible | CapabilityUnsatisfied | PolicyDenied | ProvenanceUnverified | WorkerStale | WorkerUnavailable
    | WorkerDisconnected | ToolchainMissing | RuntimeMissing

  function ResolveCode(liveness: Liveness, recent: bool, trusted: bool, envOk: bool, intentOk: bool): Code {
    if liveness.Unavailable? then WorkerUnavailable
    else if liveness.Disconnected? then WorkerDisconnected
    else if !recent then WorkerStale
    else if !trusted then ProvenanceUnverified
    else if !envOk then CapabilityUnsatisfied
    else if !intentOk then PolicyDenied
    else Eligible
  }

  predicate ToolToken(t: string) { "tool:" <= t || "toolchain:" <= t || "compiler:" <= t }
  predicate RuntimeToken(t: string) { "runtime:" <= t }

  /** The text after the first word of a diagnostic carries a toolchain (runtime) prefix: only
      token diagnostics can. */
  predicate ToolText(d: Diagnostic) { (d.MissingToken? || d.ForbiddenPresent?) && ToolToken(d.token) }
  predicate RuntimeText(d: Diagnostic) { (d.MissingToken? || d.ForbiddenPresent?) && RuntimeToken(d.token) }

  predicate AllTool(missing: seq<Diagnostic>) { forall i :: 0 <= i < |missing| ==> ToolText(missing[i]) }
  predicate AllRuntime(missing: seq<Diagnostic>) { forall i :: 0 <= i < |missing| ==> RuntimeText(missing[i]) }
  predicate OnlyForbidden(missing: seq<Diagnostic>) { forall i :: 0 <= i < |missing| ==> missing[i].ForbiddenPresent? }
  predicate AnyForbidden(missing: seq<Diagnostic>) { exists i :: 0 <= i < |missing| && missing[i].ForbiddenPresent? }

  /** The refinements of `finish_worker_resolution`. */
  function Refine(missing: seq<Diagnostic>, code: Code): Code {
    var afterForbidden :=
      if code.Eligible? && AnyForbidden(missing) then PolicyDenied
      else if code.CapabilityUnsatisfied? && AnyForbidden(missing) && OnlyForbidden(missing) then PolicyDenied
      else code;
    if afterForbidden.CapabilityUnsatisfied? && |missing| > 0 then
      if AllTool(missing) then ToolchainMissing else if AllRuntime(missing) then RuntimeMissing
          else CapabilityUnsatisfied
    else afterForbidden
  }

  datatype Verdict = Verdict(id: string, code: Code, missing: seq<Diagnostic>, hits: nat)

  function BaseCode(q: Query, w: Worker): Code {
    ResolveCode(LivenessOf(w), Fresh(w), Trusted(w), |Missing(q, w)| == 0, IntentAllowed(w.policy, q.intent))
  }

  /** `resolve_worker`. */
  function ResolveWorker(q: Query, w: Worker): Verdict {
    var missing := Missing(q, w);
    var code := Refine(missing, BaseCode(q, w));
    Verdict(w.id, code, if code.PolicyDenied? && |missing| == 0 then [MissingPolicy(q.intent)]
        else missing, |q.prefer * w.tokens|)
  }

  // ---- The stages agree -----------------------------------------------------------------------------

  lemma {:induction false} TokensHold(required: seq<string>, tokens: set<string>)
    ensures MissingTokens(required, tokens) == [] <==> forall t :: t in required ==> t in tokens
    ensures forall d :: d in MissingTokens(required, tokens) ==> d.MissingToken?
  {
    if |required| > 0 {
      TokensHold(required[..|required| - 1], tokens);
      assert required == required[..|required| - 1] + [required[|required| - 1]];
    }
  }

  lemma {:induction false} GroupsHit(groups: seq<set<string>>, tokens: set<string>)
    ensures MissingGroups(groups, tokens) == [] <==> forall g :: g in groups ==> Hit(g, tokens)
    ensures forall d :: d in MissingGroups(groups, tokens) ==> d.MissingOneOf?
  {
    if |groups| > 0 {
      GroupsHit(groups[..|groups| - 1], tokens);
      assert groups == groups[..|groups| - 1] + [groups[|groups| - 1]];
    }
  }

  lemma {:induction false} NoneForbidden(forbid: seq<string>, tokens: set<string>)
    ensures ForbiddenTokens(forbid, tokens) == [] <==> forall t :: t in forbid ==> t !in tokens
    ensures forall d :: d in ForbiddenTokens(forbid, tokens) ==> d.ForbiddenPresent?
  {
    if |forbid| > 0 {
      NoneForbidden(forbid[..|forbid| - 1], tokens);
      assert forbid == forbid[..|forbid| - 1] + [forbid[|forbid| - 1]];
    }
  }

  lemma MissingEnvKinds(req: ReqEnv, env: Env)
    ensures forall d :: d in MissingEnv(req, env) ==> !d.ForbiddenPresent?
  {}

  lemma ForbiddenAmong(q: Query, w: Worker)
    requires Reachable(w)
    ensures (exists t :: ForbiddenPresent(t) in Missing(q, w)) <==> |ForbiddenTokens(q.forbid, w.tokens)| > 0
  {
    var forbidden := ForbiddenTokens(q.forbid, w.tokens);
    TokensHold(q.requireAll, w.tokens);
    GroupsHit(q.requireAny, w.tokens);
    NoneForbidden(q.forbid, w.tokens);
    if q.env.Some? { MissingEnvKinds(q.env.value, w.env); }
    if |forbidden| > 0 {
      assert forbidden[0] in forbidden;
      assert ForbiddenPresent(forbidden[0].token) in Missing(q, w);
    }
  }

  /** The one check that fails without a diagnostic: any architecture is acceptable, but execution is
      emulated and emulation is not allowed. */
  predicate Unreported(req: ReqEnv, env: Env) {
    req.arch.None? && env.emulated && !req.allowEmulation
  }

  predicate EnvReported(req: ReqEnv, env: Env) {
    && Satisfies(req.os, env.os) && (req.arch.None? || ArchSatisfies(req, env)) && Satisfies(req.libc, env.libc)
         && CudaSatisfies(req, env)
    && FlagSatisfies(req.requireEbpf, env.ebpf) && FlagSatisfies(req.requireWasm, env.wasm)
         && FlagSatisfies(req.requirePtx, env.ptx)
    && ResourcesSatisfy(req, env)
  }

  lemma MissingEnvIff(req: ReqEnv, env: Env)
    ensures MissingEnv(req, env) == [] <==> EnvReported(req, env)
    ensures EnvReported(req, env) <==>
      EnvSatisfies(req, env) || (Unreported(req, env) && EnvSatisfies(req.(allowEmulation := true), env))
  {}

  const UNKNOWN_HOST := Env(None, None, None, false, true, false, 0, 0, false, false, false, 0, 0)
  const ANY_HOST := ReqEnv(None, None, None, false, 0, 0, false, false, false, false, 0, 0)

  /** Such a worker exists: emulated, asked for nothing in particular, and found eligible although the
      environment check refuses it. */
  lemma EmulatedWorkerSlipsThrough()
    ensures !EnvSatisfies(ANY_HOST, UNKNOWN_HOST) && MissingEnv(ANY_HOST, UNKNOWN_HOST) == []
    ensures var q := Query([], [], [], {}, Some(ANY_HOST), Normal);
      var w := Worker("w", {}, UNKNOWN_HOST, Policy(false, false, false, false, false, false), Available, true, None,
          WorkerObserved);
      ResolveWorker(q, w).code == Eligible
  {
    MissingEnvIff(ANY_HOST, UNKNOWN_HOST);
  }

  /** For a reachable worker no diagnostic means exactly: every required token held, every group hit,
      nothing forbidden present, and the environment satisfied, or failing only in the unreported check. */
  lemma NoDiagnosticsIff(q: Query, w: Worker)
    requires Reachable(w)
    ensures Missing(q, w) == [] <==>
      && (forall t :: t in q.requireAll ==> t in w.tokens)
      && (forall g :: g in q.requireAny ==> Hit(g, w.tokens))
      && (forall t :: t in q.forbid ==> t !in w.tokens)
      && (q.env.Some? ==>
            || EnvSatisfies(q.env.value, w.env)
            || (Unreported(q.env.value, w.env) && EnvSatisfies(q.env.value.(allowEmulation := true), w.env)))
  {
    TokensHold(q.requireAll, w.tokens);
    GroupsHit(q.requireAny, w.tokens);
    NoneForbidden(q.forbid, w.tokens);
    if q.env.Some? { MissingEnvIff(q.env.value, w.env); }
  }

  /** The refinement never changes eligibility; an eligible worker misses nothing and a capability,
      toolchain, runtime or policy denial always says what is missing. */
  lemma RefinementKeepsEligibility(q: Query, w: Worker)
    ensures var v := ResolveWorker(q, w);
      && (v.code.Eligible? <==> BaseCode(q, w).Eligible?)
      && (v.code.Eligible? ==> v.missing == [])
      && (v.code in {CapabilityUnsatisfied, ToolchainMissing, RuntimeMissing, PolicyDenied} ==> v.missing != [])
  {}

  /** Which code, exactly, for a worker that was reached. */
  lemma DenialCodes(q: Query, w: Worker)
    requires Reachable(w) && Missing(q, w) != []
    ensures var v := ResolveWorker(q, w);
      && (v.code == PolicyDenied <==> OnlyForbidden(v.missing))
      && (v.code == ToolchainMissing <==> !OnlyForbidden(v.missing) && AllTool(v.missing))
      && (v.code == RuntimeMissing <==> !OnlyForbidden(v.missing) && !AllTool(v.missing) && AllRuntime(v.missing))
      && v.missing == Missing(q, w)
  {
    if OnlyForbidden(Missing(q, w)) { assert Missing(q, w)[0].ForbiddenPresent?; }
  }

  ghost predicate Admits(q: Query, w: Worker)
        { Reachable(w) && Missing(q, w) == [] && IntentAllowed(w.policy, q.intent) }

  lemma EligibleIff(q: Query, w: Worker)
    ensures ResolveWorker(q, w).code.Eligible? <==> Admits(q, w)
  { RefinementKeepsEligibility(q, w); }

  // ---- Asking for more ---------------------------------------------------------------------------------

  predicate WantMore<T(==)>(more: Option<T>, less: Option<T>) { less.None? || more == less }

  predicate EnvAsksMore(more: ReqEnv, less: ReqEnv) {
    && WantMore(more.os, less.os) && WantMore(more.arch, less.arch) && WantMore(more.libc, less.libc)
    && (less.requireCuda ==>
         more.requireCuda && (more.cudaMajor > less.cudaMajor
             || (more.cudaMajor == less.cudaMajor && more.cudaMinor >= less.cudaMinor)))
    && (less.requireEbpf ==> more.requireEbpf) && (less.requireWasm ==> more.requireWasm)
         && (less.requirePtx ==> more.requirePtx)
    && (more.allowEmulation ==> less.allowEmulation)
    && less.minMemory <= more.minMemory && less.minCpus <= more.minCpus
  }

  ghost predicate AsksMore(more: Query, less: Query) {
    && (forall t :: t in less.requireAll ==> t in more.requireAll)
    && (forall g :: g in less.requireAny ==> exists h :: h in more.requireAny && h <= g)
    && (forall t :: t in less.forbid ==> t in more.forbid)
    && (less.env.Some? ==> more.env.Some? && EnvAsksMore(more.env.value, less.env.value))
    && (less.intent.Normal? || more.intent == less.intent)
  }

  /** Strengthening requirements, forbids, floors or the intent never makes a worker eligible. */
  lemma AskingMoreNeverHelps(more: Query, less: Query, w: Worker)
    requires AsksMore(more, less) && ResolveWorker(more, w).code.Eligible?
    ensures ResolveWorker(less, w).code.Eligible?
  {
    EligibleIff(more, w);
    EligibleIff(less, w);
    NoDiagnosticsIff(more, w);
    NoDiagnosticsIff(less, w);
    forall g | g in less.requireAny ensures Hit(g, w.tokens) {
      var h :| h in more.requireAny && h <= g;
      assert Hit(h, w.tokens);
      var t :| t in h && t in w.tokens;
      assert t in g;
    }
    if less.env.Some? {
      MissingEnvIff(more.env.value, w.env);
      MissingEnvIff(less.env.value, w.env);
    }
  }

  /** Preferences rank; they never decide eligibility. */
  lemma PreferencesOnlyRank(q: Query, prefer: set<string>, w: Worker)
    ensures ResolveWorker(q.(prefer := prefer), w) == ResolveWorker(q, w).(hits := |prefer * w.tokens|)
  {
    assert Missing(q.(prefer := prefer), w) == Missing(q, w);
  }

  // ---- The fleet ---------------------------------------------------------------------------------------

  predicate ValidPolicy(p: Policy) { (p.rootMutation ==> p.experimental) && (p.disposable ==> p.experimental) }

  datatype FleetVerdict = FleetVerdict(enough: bool, eligible: seq<string>, selected: seq<string>,
        perWorker: seq<Verdict>)

  /** Sort keys of `_ranked`. */
  datatype Ranking = Ranking(hits: nat, constrained: bool, id: string)

  predicate RankLe(a: Ranking, b: Ranking) {
    if a.hits != b.hits then a.hits > b.hits
    else if a.constrained != b.constrained then b.constrained
    else TextLe(a.id, b.id)
  }

  predicate ByIdLe(a: Verdict, b: Verdict) { TextLe(a.id, b.id) }

  /** Some worker of this name is resource-constrained. */
  predicate Constrained(fleet: seq<Worker>, id: string) {
    exists i :: 0 <= i < |fleet| && fleet[i].id == id && fleet[i].policy.constrained
  }

  function RankingOf(fleet: seq<Worker>, v: Verdict): Ranking { Ranking(v.hits, Constrained(fleet, v.id), v.id) }

  function EligibleRankings(fleet: seq<Worker>, vs: seq<Verdict>): seq<Ranking> {
    if |vs| == 0 then []
    else
      var last := vs[|vs| - 1];
      EligibleRankings(fleet, vs[..|vs| - 1]) + (if last.code.Eligible? then [RankingOf(fleet, last)] else [])
  }

  function Resolver(q: Query): Worker -> Verdict { w => ResolveWorker(q, w) }

  function Verdicts(q: Query, ws: seq<Worker>): (r: seq<Verdict>)
    ensures |r| == |ws| && forall i :: 0 <= i < |ws| ==> r[i] == ResolveWorker(q, ws[i])
  { Map(Resolver(q), ws) }

  function Ids(rankings: seq<Ranking>): (r: seq<string>)
    ensures |r| == |rankings| && forall i :: 0 <= i < |r| ==> r[i] == rankings[i].id
  { seq(|rankings|, i requires 0 <= i < |rankings| => rankings[i].id) }

  function Ranked(q: Query, ws: seq<Worker>): seq<Ranking> { Sort(RankLe, EligibleRankings(ws, Verdicts(q, ws))) }

  function FleetOf(q: Query, ws: seq<Worker>, replicas: nat): FleetVerdict {
    var ids := Ids(Ranked(q, ws));
    FleetVerdict(|ids| >= replicas, ids, if |ids| >= replicas then ids[..replicas]
        else [], Sort(ByIdLe, Verdicts(q, ws)))
  }

  predicate Resolvable(ws: seq<Worker>, replicas: nat)
        { 1 <= replicas <= 64 && forall i :: 0 <= i < |ws| ==> ValidPolicy(ws[i].policy) }

  ghost predicate DistinctIds(ws: seq<Worker>) { forall i, j :: 0 <= i < j < |ws| ==> ws[i].id != ws[j].id }

  method ConstrainedIds(ws: seq<Worker>) returns (constrained: set<string>, ok: bool)
    ensures ok <==> forall i :: 0 <= i < |ws| ==> ValidPolicy(ws[i].policy)
    ensures ok ==> forall id :: id in constrained <==> Constrained(ws, id)
  {
    constrained := {};
    for i := 0 to |ws|
      invariant forall j :: 0 <= j < i ==> ValidPolicy(ws[j].policy)
      invariant forall id :: id in constrained <==> exists j :: 0 <= j < i && ws[j].id == id && ws[j].policy.constrained
    {
      if !ValidPolicy(ws[i].policy) { return constrained, false; }
      if ws[i].policy.constrained { constrained := constrained + {ws[i].id}; }
    }
    return constrained, true;
  }

  /** `resolve_fleet`: resolve each worker, collect the constrained names, rank. */
  method ResolveFleet(q: Query, ws: seq<Worker>, replicas: nat) returns (r: Result<FleetVerdict>)
    ensures r.Ok? <==> Resolvable(ws, replicas)
    ensures r.Ok? ==> r.value == FleetOf(q, ws, replicas)
  {
    if !(1 <= replicas <= 64) { return Err("replicas must be between 1 and 64"); }
    var constrained, valid := ConstrainedIds(ws);
    if !valid { return Err("worker policy is invalid"); }
    var resolutions := Verdicts(q, ws);
    var eligible := RankEligible(resolutions, ws, constrained);
    var ids := Ids(Sort(RankLe, eligible));
    var selected := if |ids| >= replicas then ids[..replicas] else [];
    return Ok(FleetVerdict(|ids| >= replicas, ids, selected, Sort(ByIdLe, resolutions)));
  }

  method RankEligible(vs: seq<Verdict>, ghost fleet: seq<Worker>, constrained: set<string>)
        returns (eligible: seq<Ranking>)
    requires forall id :: id in constrained <==> Constrained(fleet, id)
    ensures eligible == EligibleRankings(fleet, vs)
  {
    eligible := [];
    for i := 0 to |vs|
      invariant eligible == EligibleRankings(fleet, vs[..i])
    {
      assert vs[..i + 1][..i] == vs[..i];
      if vs[i].code.Eligible? { eligible := eligible + [Ranking(vs[i].hits, vs[i].id in constrained, vs[i].id)]; }
    }
    assert vs[..|vs|] == vs;
  }

  lemma RankOrder()
    ensures Total(RankLe)
    ensures forall a, b :: RankLe(a, b) && RankLe(b, a) ==> a == b
  {
    TextLeOrder();
    forall a, b, c | RankLe(a, b) && RankLe(b, c) ensures RankLe(a, c) {}
  }

  lemma ByIdOrder()
    ensures Total(ByIdLe)
  { TextLeOrder(); }

  ghost predicate Ranks(fleet: seq<Worker>, vs: seq<Verdict>, x: Ranking) {
    exists i :: 0 <= i < |vs| && vs[i].code.Eligible? && x == RankingOf(fleet, vs[i])
  }

  lemma {:induction false} EligibleRankingsAre(fleet: seq<Worker>, vs: seq<Verdict>)
    ensures forall x :: x in EligibleRankings(fleet, vs) <==> Ranks(fleet, vs, x)
  {
    if |vs| > 0 {
      var front := vs[..|vs| - 1];
      EligibleRankingsAre(fleet, front);
      forall x | x in EligibleRankings(fleet, front) ensures Ranks(fleet, vs, x) {
        var i :| 0 <= i < |front| && front[i].code.Eligible? && x == RankingOf(fleet, front[i]);
        assert vs[i] == front[i];
      }
      forall x | Ranks(fleet, vs, x) ensures x in EligibleRankings(fleet, vs) {
        var i :| 0 <= i < |vs| && vs[i].code.Eligible? && x == RankingOf(fleet, vs[i]);
        if i < |front| { assert front[i] == vs[i]; assert Ranks(fleet, front, x); }
      }
    }
  }

  lemma RankedAre(q: Query, ws: seq<Worker>)
    ensures Sorted(RankLe, Ranked(q, ws)) && forall x :: x in Ranked(q, ws) <==> Ranks(ws, Verdicts(q, ws), x)
  {
    var rankings := EligibleRankings(ws, Verdicts(q, ws));
    EligibleRankingsAre(ws, Verdicts(q, ws));
    RankOrder();
    SortSorts(RankLe, rankings);
    SameElements(Ranked(q, ws), rankings);
  }

  ghost predicate Listed(q: Query, ws: seq<Worker>, id: string) {
    exists i :: 0 <= i < |ws| && ws[i].id == id && Verdicts(q, ws)[i].code.Eligible?
  }

  /** The eligible list names exactly the eligible workers; the verdict is positive exactly when
      there are enough; and every selected worker ranks before every eligible one left out, strictly
      unless the two rank exactly alike, name included. */
  lemma FleetSelectsLeast(q: Query, ws: seq<Worker>, replicas: nat)
    ensures var f := FleetOf(q, ws, replicas);
      && (forall id :: id in f.eligible <==> Listed(q, ws, id))
      && (f.enough <==> |f.eligible| >= replicas)
      && f.selected == (if f.enough then f.eligible[..replicas] else [])
    ensures forall i, j :: 0 <= i < j < |Ranked(q, ws)| ==>
      RankLe(Ranked(q, ws)[i], Ranked(q, ws)[j])
          && (RankLe(Ranked(q, ws)[j], Ranked(q, ws)[i]) ==> Ranked(q, ws)[i] == Ranked(q, ws)[j])
  {
    RankedAre(q, ws);
    RankOrder();
    var ranked, f, vs := Ranked(q, ws), FleetOf(q, ws, replicas), Verdicts(q, ws);
    forall id ensures id in f.eligible <==> Listed(q, ws, id) {
      if id in f.eligible {
        var k :| 0 <= k < |ranked| && ranked[k].id == id;
        assert Ranks(ws, vs, ranked[k]);
      }
      if Listed(q, ws, id) {
        var i :| 0 <= i < |ws| && ws[i].id == id && vs[i].code.Eligible?;
        assert Ranks(ws, vs, RankingOf(ws, vs[i]));
        var k :| 0 <= k < |ranked| && ranked[k] == RankingOf(ws, vs[i]);
        assert f.eligible[k] == id;
      }
    }
  }

  lemma SameConstrained(a: seq<Worker>, b: seq<Worker>, id: string)
    requires forall w :: w in a <==> w in b
    ensures Constrained(a, id) <==> Constrained(b, id)
  {
    if Constrained(a, id) {
      var i :| 0 <= i < |a| && a[i].id == id && a[i].policy.constrained;
      assert a[i] in b;
    }
    if Constrained(b, id) {
      var i :| 0 <= i < |b| && b[i].id == id && b[i].policy.constrained;
      assert b[i] in a;
    }
  }

  function RankIfEligible(fleet: seq<Worker>): Verdict -> seq<Ranking> {
    (v: Verdict) => if v.code.Eligible? then [RankingOf(fleet, v)] else []
  }

  lemma {:induction false} RankingsFlat(fleet: seq<Worker>, vs: seq<Verdict>)
    ensures EligibleRankings(fleet, vs) == FlatMap(RankIfEligible(fleet), vs)
  { if |vs| > 0 { RankingsFlat(fleet, vs[..|vs| - 1]); } }

  lemma {:induction false} RankingsShare(a: seq<Worker>, b: seq<Worker>, vs: seq<Verdict>)
    requires forall w :: w in a <==> w in b
    ensures EligibleRankings(a, vs) == EligibleRankings(b, vs)
  {
    if |vs| > 0 {
      RankingsShare(a, b, vs[..|vs| - 1]);
      SameConstrained(a, b, vs[|vs| - 1].id);
    }
  }

  /** Eligibility, verdict and selection are the same for every arrangement of the fleet, repeated
      ids included. */
  lemma SelectionIgnoresOrder(q: Query, a: seq<Worker>, b: seq<Worker>, replicas: nat)
    requires multiset(a) == multiset(b)
    ensures FleetOf(q, a, replicas) == FleetOf(q, b, replicas).(perWorker := FleetOf(q, a, replicas).perWorker)
  {
    var va, vb := Verdicts(q, a), Verdicts(q, b);
    SameElements(a, b);
    MapPermutation(Resolver(q), a, b);
    RankingsFlat(b, va);
    RankingsFlat(b, vb);
    FlatMapPermutation(RankIfEligible(b), va, vb);
    RankingsShare(a, b, va);
    RankOrder();
    SortPermutation(RankLe, EligibleRankings(a, va), EligibleRankings(b, vb));
  }

  /** Workers of the same name resolve alike. */
  ghost predicate NamesakesAgree(q: Query, ws: seq<Worker>) {
    forall w, x :: w in ws && x in ws && w.id == x.id ==> ResolveWorker(q, w) == ResolveWorker(q, x)
  }

  lemma UntiedIffNamesakesAgree(q: Query, ws: seq<Worker>)
    ensures NoTies(ByIdLe, Verdicts(q, ws)) <==> NamesakesAgree(q, ws)
  {
    var vs := Verdicts(q, ws);
    if NamesakesAgree(q, ws) {
      forall v, u | v in vs && u in vs && ByIdLe(v, u) && ByIdLe(u, v) ensures v == u {
        TextLeAntisymmetric(v.id, u.id);
        var i :| 0 <= i < |vs| && vs[i] == v;
        var j :| 0 <= j < |vs| && vs[j] == u;
        assert ws[i] in ws && ws[j] in ws && ws[i].id == ws[j].id;
      }
    } else {
      var w, x :| w in ws && x in ws && w.id == x.id && ResolveWorker(q, w) != ResolveWorker(q, x);
      var i :| 0 <= i < |ws| && ws[i] == w;
      var j :| 0 <= j < |ws| && ws[j] == x;
      LexTotal(Codes(w.id), Codes(w.id));
      assert vs[i] in vs && vs[j] in vs && ByIdLe(vs[i], vs[j]) && ByIdLe(vs[j], vs[i]);
    }
  }

  /** Every arrangement of the fleet gives the same result. */
  ghost predicate OrderFree(q: Query, ws: seq<Worker>, replicas: nat) {
    forall other: seq<Worker> :: multiset(other) == multiset(ws) ==>
      FleetOf(q, other, replicas) == FleetOf(q, ws, replicas)
  }

  lemma OrderShowsInVerdicts(q: Query, ws: seq<Worker>, replicas: nat)
    ensures OrderFree(q, ws, replicas) <==> ArrangementHidden(ByIdLe, Resolver(q), ws)
  {
    forall other: seq<Worker> | multiset(other) == multiset(ws)
      ensures FleetOf(q, other, replicas) == FleetOf(q, ws, replicas) <==>
        Sort(ByIdLe, Map(Resolver(q), other)) == Sort(ByIdLe, Map(Resolver(q), ws))
    {
      SelectionIgnoresOrder(q, other, ws, replicas);
    }
  }

  /** The whole result is the same for every arrangement of the fleet if and only if workers of the
      same name resolve alike; in particular when all names differ. */
  lemma FleetIgnoresOrder(q: Query, ws: seq<Worker>, replicas: nat)
    ensures OrderFree(q, ws, replicas) <==> NamesakesAgree(q, ws)
  {
    OrderShowsInVerdicts(q, ws, replicas);
    ByIdOrder();
    ArrangementHiddenIff(ByIdLe, Resolver(q), ws);
    UntiedIffNamesakesAgree(q, ws);
  }

  lemma DistinctNamesAgree(q: Query, ws: seq<Worker>)
    requires DistinctIds(ws)
    ensures NamesakesAgree(q, ws)
  {}

  /** Changing preferences reorders the eligible workers and nothing else. */
  lemma PreferencesKeepTheEligible(q: Query, prefer: set<string>, ws: seq<Worker>, replicas: nat)
    ensures var f, g := FleetOf(q, ws, replicas), FleetOf(q.(prefer := prefer), ws, replicas);
      forall id :: id in f.eligible <==> id in g.eligible
  {
    var p := q.(prefer := prefer);
    FleetSelectsLeast(q, ws, replicas);
    FleetSelectsLeast(p, ws, replicas);
    forall i | 0 <= i < |ws|
      ensures Verdicts(p, ws)[i].code == Verdicts(q, ws)[i].code { PreferencesOnlyRank(q, prefer, ws[i]); }
    forall id ensures Listed(p, ws, id) <==> Listed(q, ws, id) {}
  }
}
