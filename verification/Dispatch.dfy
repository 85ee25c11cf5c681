/** Slot accounting of remote dispatch (`NetworkController.dispatch_remote` and
    `_set_remote_state` in src/mncs_fabric/controller.py, `schedule` in
    src/mncs_fabric/scheduler.py). Each section under `_remote_lock` is one atomic step; any
    number of dispatches and liveness refreshes interleave. */
module Dispatch {
  import opened Orders

  datatype Slot = Slot(active: int, limit: int, available: bool, observed: int)

  /** One scheduling question: which workers the resolver and the resource admission accept,
      their preference hits, and how many are wanted. */
  datatype Ask = Ask(eligible: string -> bool, admitted: string -> bool, hits: string -> int, replicas: nat)

  predicate Free(fleet: map<string, Slot>, ask: Ask, w: string) {
    w in fleet && ask.eligible(w) && fleet[w].active < fleet[w].limit && ask.admitted(w)
  }

  /** More preference hits first, then by worker id. */
  predicate RankLe(ask: Ask, a: string, b: string) {
    ask.hits(a) > ask.hits(b) || (ask.hits(a) == ask.hits(b) && TextLe(a, b))
  }

  function FreeOnes(fleet: map<string, Slot>, ask: Ask, order: seq<string>): seq<string>
        { Keep(w => Free(fleet, ask, w), order) }

  function Ranked(fleet: map<string, Slot>, ask: Ask, order: seq<string>): seq<string> {
    Sort((a, b) => RankLe(ask, a, b), FreeOnes(fleet, ask, order))
  }

  /** `schedule`: the first `replicas` ranked workers, or nothing. */
  function Schedule(fleet: map<string, Slot>, ask: Ask, order: seq<string>): Option<seq<string>> {
    var ranked := Ranked(fleet, ask, order);
    if |ranked| < ask.replicas then None else Some(ranked[..ask.replicas])
  }

  function Shift(fleet: map<string, Slot>, w: string, delta: int): map<string, Slot> {
    if w !in fleet then fleet
    else
      var n := fleet[w].active + delta;
      fleet[w := fleet[w].(active := if n < 0 then 0 else n)]
  }

  function ShiftAll(fleet: map<string, Slot>, ws: seq<string>, delta: int): (r: map<string, Slot>)
    ensures r.Keys == fleet.Keys
  {
    if |ws| == 0 then fleet else Shift(ShiftAll(fleet, ws[..|ws| - 1], delta), ws[|ws| - 1], delta)
  }

  class NetworkController {
    var remoteWorkers: map<string, Slot>
    /** Registration order of the workers. */
    var order: seq<string>
    ghost var inFlight: map<nat, seq<string>>

    constructor ()
      ensures Contents() == State(map[], [], map[])
    {
      remoteWorkers, order, inFlight := map[], [], map[];
    }

    ghost function Contents(): State reads this { State(remoteWorkers, order, inFlight) }

    method RegisterRemote(w: string, limit: int) returns (ok: bool)
      modifies this
      ensures ok == (w !in old(remoteWorkers)) && Contents() == Next(old(Contents()), Register(w, limit))
    {
      if w in remoteWorkers { return false; }
      remoteWorkers := remoteWorkers[w := Slot(0, limit, true, 0)];
      order := order + [w];
      return true;
    }

    /** `_set_remote_state`: with a description the whole observation is replaced. */
    method SetRemoteState(w: string, description: Option<int>, available: bool) returns (ok: bool)
      modifies this
      ensures ok == (w in old(remoteWorkers)) && Contents() == Next(old(Contents()), Refresh(w, description, available))
    {
      if w !in remoteWorkers { return false; }
      var slot := remoteWorkers[w];
      if description.Some? {
        slot := slot.(available := true, observed := description.value);
      } else {
        slot := slot.(available := available);
      }
      remoteWorkers := remoteWorkers[w := slot];
      return true;
    }

    /** The first locked section of `dispatch_remote`: choose workers and take a slot on each. */
    method Reserve(ghost d: nat, ask: Ask) returns (workers: Option<seq<string>>)
      requires Accounted(Contents()) && d !in inFlight
      modifies this
      ensures workers == Schedule(old(remoteWorkers), ask, old(order))
      ensures Contents() == Next(old(Contents()), Begin(d, ask))
    {
      workers := Schedule(remoteWorkers, ask, order);
      if workers.Some? {
        ScheduleKnows(remoteWorkers, ask, order);
        TakeAll(workers.value);
        inFlight := inFlight[d := workers.value];
      }
    }

    method TakeAll(ws: seq<string>)
      requires forall w :: w in ws ==> w in remoteWorkers && remoteWorkers[w].active >= 0
      modifies this`remoteWorkers
      ensures remoteWorkers == ShiftAll(old(remoteWorkers), ws, 1)
    {
      for i := 0 to |ws|
        invariant remoteWorkers == ShiftAll(old(remoteWorkers), ws[..i], 1)
        invariant forall w :: w in ws ==> w in remoteWorkers && remoteWorkers[w].active >= 0
      {
        assert ws[..i + 1][..i] == ws[..i];
        assert ws[i] in ws;
        var slot := remoteWorkers[ws[i]];
        remoteWorkers := remoteWorkers[ws[i] := slot.(active := slot.active + 1)];
      }
      assert ws[..|ws|] == ws;
    }

    /** The `finally` section: give every slot back, clamped at zero. */
    method Release(ghost d: nat, ws: seq<string>)
      requires Accounted(Contents()) && d in inFlight && inFlight[d] == ws
      modifies this
      ensures Contents() == Next(old(Contents()), End(d))
    {
      for i := 0 to |ws|
        invariant remoteWorkers == ShiftAll(old(remoteWorkers), ws[..i], -1)
        invariant order == old(order) && inFlight == old(inFlight)
      {
        assert ws[..i + 1][..i] == ws[..i];
        assert ws[i] in ws;
        var slot := remoteWorkers[ws[i]];
        var fewer := slot.active - 1;
        remoteWorkers := remoteWorkers[ws[i] := slot.(active := if fewer > 0 then fewer else 0)];
      }
      assert ws[..|ws|] == ws;
      inFlight := inFlight - {d};
    }
  }

  // ---- Scheduling -------------------------------------------------------------------------

  lemma FreeOnesAre(fleet: map<string, Slot>, ask: Ask, order: seq<string>)
    requires NoDuplicates(order)
    ensures NoDuplicates(FreeOnes(fleet, ask, order))
    ensures forall w :: w in FreeOnes(fleet, ask, order) <==> w in order && Free(fleet, ask, w)
  {
    KeepNoDuplicates(w => Free(fleet, ask, w), order);
    KeepMembers(w => Free(fleet, ask, w), order);
  }

  lemma RankOrder(ask: Ask)
    ensures Total((a, b) => RankLe(ask, a, b))
    ensures forall a, b :: RankLe(ask, a, b) && RankLe(ask, b, a) ==> a == b
  {
    TextLeOrder();
    var le := (a, b) => RankLe(ask, a, b);
    forall a, b, c | le(a, b) && le(b, c) ensures le(a, c) {
      assert RankLe(ask, a, b) && RankLe(ask, b, c);
    }
    forall a, b ensures le(a, b) || le(b, a) { assert TextLe(a, b) || TextLe(b, a); }
  }

  lemma RankedAre(fleet: map<string, Slot>, ask: Ask, order: seq<string>)
    requires NoDuplicates(order)
    ensures var ranked := Ranked(fleet, ask, order);
      && NoDuplicates(ranked) && Sorted((a, b) => RankLe(ask, a, b), ranked)
      && forall w :: w in ranked <==> w in order && Free(fleet, ask, w)
  {
    var free, le := FreeOnes(fleet, ask, order), (a, b) => RankLe(ask, a, b);
    RankOrder(ask);
    FreeOnesAre(fleet, ask, order);
    SortSorts(le, free);
    SameElements(Sort(le, free), free);
    PermutationNoDuplicates(free, Sort(le, free));
  }

  /** The selection: distinct workers, each with a free slot, each ranked before every free worker
      left out. */
  lemma ScheduleSelects(fleet: map<string, Slot>, ask: Ask, order: seq<string>)
    requires NoDuplicates(order)
    ensures var s := Schedule(fleet, ask, order);
      && (s.None? <==> |Ranked(fleet, ask, order)| < ask.replicas)
      && (s.Some? ==>
            && |s.value| == ask.replicas && NoDuplicates(s.value)
            && (forall w :: w in s.value ==> w in order && Free(fleet, ask, w))
            && (forall w, v :: w in s.value && v in order && v !in s.value && Free(fleet, ask, v) ==>
                 RankLe(ask, w, v)))
  {
    RankedAre(fleet, ask, order);
    var ranked := Ranked(fleet, ask, order);
    var s := Schedule(fleet, ask, order);
    if s.Some? {
      forall w, v | w in s.value && v in order && v !in s.value && Free(fleet, ask, v) ensures RankLe(ask, w, v) {
        var j :| 0 <= j < |ranked| && ranked[j] == v;
        assert forall k :: 0 <= k < ask.replicas ==> s.value[k] == ranked[k] && s.value[k] in s.value;
      }
    }
  }

  lemma ScheduleKnows(fleet: map<string, Slot>, ask: Ask, order: seq<string>)
    requires NoDuplicates(order)
    ensures var s := Schedule(fleet, ask, order); s.Some? ==> forall w :: w in s.value ==> w in fleet
  { ScheduleSelects(fleet, ask, order); }

  /** Registration order does not influence the selection. */
  lemma ScheduleIgnoresOrder(fleet: map<string, Slot>, ask: Ask, a: seq<string>, b: seq<string>)
    requires NoDuplicates(a) && NoDuplicates(b) && forall w :: w in a <==> w in b
    ensures Schedule(fleet, ask, a) == Schedule(fleet, ask, b)
  {
    var x, y := Ranked(fleet, ask, a), Ranked(fleet, ask, b);
    RankedAre(fleet, ask, a);
    RankedAre(fleet, ask, b);
    SameMembers(x, y);
    RankOrder(ask);
    SortedUnique((p, q) => RankLe(ask, p, q), x, y);
  }

  // ---- Every interleaving -------------------------------------------------------------------

  datatype State = State(fleet: map<string, Slot>, order: seq<string>, inFlight: map<nat, seq<string>>)

  datatype StepKind =
    | Register(worker: string, limit: int)
    | Refresh(worker: string, description: Option<int>, available: bool)
    | Begin(dispatch: nat, ask: Ask)
    | End(dispatch: nat)

  function Next(s: State, step: StepKind): State {
    match step
    case Register(w, limit) =>
      if w in s.fleet then s else s.(fleet := s.fleet[w := Slot(0, limit, true, 0)], order := s.order + [w])
    case Refresh(w, description, available) =>
      if w !in s.fleet then s
      else if description.Some?
          then s.(fleet := s.fleet[w := s.fleet[w].(available := true, observed := description.value)])
      else s.(fleet := s.fleet[w := s.fleet[w].(available := available)])
    case Begin(d, ask) =>
      var ws := Schedule(s.fleet, ask, s.order);
      if d in s.inFlight || ws.None? then s
      else s.(fleet := ShiftAll(s.fleet, ws.value, 1), inFlight := s.inFlight[d := ws.value])
    case End(d) =>
      if d !in s.inFlight then s
      else s.(fleet := ShiftAll(s.fleet, s.inFlight[d], -1), inFlight := s.inFlight - {d})
  }

  ghost predicate Sound(s: State) {
    && NoDuplicates(s.order) && (forall w :: w in s.order <==> w in s.fleet)
    && (forall d, w :: d in s.inFlight && w in s.inFlight[d] ==> w in s.fleet)
  }

  /** The dispatches in flight that hold a slot on `w`. */
  ghost function Holders(inFlight: map<nat, seq<string>>, w: string): set<nat> {
    set d | d in inFlight && w in inFlight[d]
  }

  ghost predicate Accounted(s: State) {
    && Sound(s)
    && (forall d :: d in s.inFlight ==> NoDuplicates(s.inFlight[d]))
    && (forall w :: w in s.fleet ==> Fair(s, w))
  }

  predicate Movable(slot: Slot, delta: int) { slot.active + delta >= 0 }

  lemma {:induction false} ShiftAllCounts(fleet: map<string, Slot>, ws: seq<string>, delta: int, w: string)
    requires w in fleet && NoDuplicates(ws) && forall v :: v in ws && v in fleet ==> Movable(fleet[v], delta)
    ensures ShiftAll(fleet, ws, delta)[w] == if w in ws then fleet[w].(active := fleet[w].active + delta) else fleet[w]
  {
    if |ws| > 0 {
      var front, last := ws[..|ws| - 1], ws[|ws| - 1];
      assert ws == front + [last];
      assert last in ws;
      ShiftAllCounts(fleet, front, delta, w);
      assert last !in front;
      if w == last { assert Movable(fleet[w], delta); }
    }
  }

  ghost predicate Fair(s: State, w: string)
    requires w in s.fleet
  {
    && s.fleet[w].active == |Holders(s.inFlight, w)|
    && (s.fleet[w].active <= s.fleet[w].limit || s.fleet[w].active == 0)
  }

  lemma BeginFair(s: State, d: nat, ws: seq<string>, w: string)
    requires d !in s.inFlight && w in s.fleet && Fair(s, w) && NoDuplicates(ws)
    requires forall v :: v in ws && v in s.fleet ==> Movable(s.fleet[v], 1)
    requires w in ws ==> s.fleet[w].active < s.fleet[w].limit
    ensures Fair(s.(fleet := ShiftAll(s.fleet, ws, 1), inFlight := s.inFlight[d := ws]), w)
  {
    ShiftAllCounts(s.fleet, ws, 1, w);
    var held := Holders(s.inFlight, w);
    assert Holders(s.inFlight[d := ws], w) == if w in ws then held + {d} else held;
    assert d !in held;
  }

  lemma BeginKeeps(s: State, d: nat, ask: Ask)
    requires Accounted(s) && d !in s.inFlight && Schedule(s.fleet, ask, s.order).Some?
    ensures Accounted(Next(s, Begin(d, ask)))
  {
    ScheduleSelects(s.fleet, ask, s.order);
    var ws := Schedule(s.fleet, ask, s.order).value;
    forall w | w in s.fleet ensures Movable(s.fleet[w], 1) { assert Fair(s, w); }
    forall w | w in s.fleet ensures Fair(Next(s, Begin(d, ask)), w) { BeginFair(s, d, ws, w); }
  }

  /** Every worker a dispatch holds has a positive count, so the clamp at zero never acts. */
  lemma ClampNeverFires(s: State, d: nat, w: string)
    requires Accounted(s) && d in s.inFlight && w in s.inFlight[d]
    ensures s.fleet[w].active >= 1
  {
    assert Fair(s, w);
    assert d in Holders(s.inFlight, w);
  }

  lemma EndFair(s: State, d: nat, w: string)
    requires Accounted(s) && d in s.inFlight && w in s.fleet
    ensures Fair(Next(s, End(d)), w)
    ensures Next(s, End(d)).fleet[w] == s.fleet[w].(active := s.fleet[w].active - if w in s.inFlight[d] then 1 else 0)
  {
    forall v | v in s.inFlight[d] ensures Movable(s.fleet[v], -1) { ClampNeverFires(s, d, v); }
    ShiftAllCounts(s.fleet, s.inFlight[d], -1, w);
    assert Fair(s, w);
    assert Holders(s.inFlight - {d}, w) == Holders(s.inFlight, w) - {d};
  }

  lemma EndKeeps(s: State, d: nat)
    requires Accounted(s) && d in s.inFlight
    ensures Accounted(Next(s, End(d)))
  {
    forall w | w in s.fleet ensures Fair(Next(s, End(d)), w) { EndFair(s, d, w); }
  }

  lemma StepKeeps(s: State, step: StepKind)
    requires Accounted(s)
    ensures Accounted(Next(s, step))
  {
    match step
    case Register(w, limit) =>
      if w !in s.fleet { assert Holders(s.inFlight, w) == {}; }
      forall v | v in s.fleet ensures Fair(Next(s, step), v) { assert Fair(s, v); }
    case Refresh(w, description, available) =>
      forall v | v in s.fleet ensures Fair(Next(s, step), v) { assert Fair(s, v); }
    case Begin(d, ask) =>
      if d !in s.inFlight && Schedule(s.fleet, ask, s.order).Some? { BeginKeeps(s, d, ask); }
    case End(d) =>
      if d in s.inFlight { EndKeeps(s, d); }
  }

  const START := State(map[], [], map[])

  function Run(s: State, steps: seq<StepKind>): State
    decreases |steps|
  {
    if |steps| == 0 then s else Next(Run(s, steps[..|steps| - 1]), steps[|steps| - 1])
  }

  /** Over every interleaving, each worker's count is the number of dispatches in flight that hold
      it, never above its limit; with none in flight every count is back at zero. */
  lemma {:induction false} EveryRunIsAccounted(steps: seq<StepKind>)
    ensures var s := Run(START, steps);
      Accounted(s) && (s.inFlight == map[] ==> forall w :: w in s.fleet ==> s.fleet[w].active == 0)
    decreases |steps|
  {
    var s := Run(START, steps);
    if |steps| > 0 {
      EveryRunIsAccounted(steps[..|steps| - 1]);
      StepKeeps(Run(START, steps[..|steps| - 1]), steps[|steps| - 1]);
    }
    if s.inFlight == map[] {
      forall w | w in s.fleet ensures s.fleet[w].active == 0 {
        assert Fair(s, w);
        assert Holders(s.inFlight, w) == {};
      }
    }
  }

  /** `set_runtime_observation` reads a slot and writes it back without the lock; what it writes
      may be stale. */
  function UnlockedWrite(s: State, w: string, seen: Slot, observed: int): State {
    s.(fleet := s.fleet[w := seen.(observed := observed)])
  }

  /** The accounting survives an unlocked write exactly when the count it read is still current. */
  lemma UnlockedWriteIsSafeIff(s: State, w: string, seen: Slot, observed: int)
    requires Accounted(s) && w in s.fleet && seen.limit == s.fleet[w].limit
    ensures Accounted(UnlockedWrite(s, w, seen, observed)) <==> seen.active == s.fleet[w].active
  {
    var after := UnlockedWrite(s, w, seen, observed);
    assert Fair(s, w) && after.fleet[w].active == seen.active;
    if seen.active == s.fleet[w].active {
      forall v | v in after.fleet ensures Fair(after, v) { assert Fair(s, v); }
    } else {
      assert !Fair(after, w);
    }
  }
}
