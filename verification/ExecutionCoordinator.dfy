/** Write targets reserved by running goals. */
module ExecutionCoordinator {
  import opened Common
  import opened Sorting

  type RunId = string
  type EntityId = string

  /** A step of a plan, with the entities its action writes; a step without an action writes nothing. */
  datatype Step = Step(action: Option<seq<EntityId>>)

  datatype Reservation =
    | Acquired(entityIds: seq<EntityId>)
    | Conflict(entityIds: seq<EntityId>, conflictingRunIds: seq<RunId>)

  type Owners = map<EntityId, RunId>

  /** Every entity some step of the plan writes. */
  function Written(steps: seq<Step>): set<EntityId> {
    set step, e | step in steps && step.action.Some? && e in step.action.value :: e
  }

  function Elements(items: seq<EntityId>): set<EntityId> {
    set e | e in items
  }

  predicate Distinct(items: seq<EntityId>) {
    forall i, j :: 0 <= i < j < |items| ==> items[i] != items[j]
  }

  /** The entities a plan writes, each once. */
  method Targets(steps: seq<Step>) returns (targets: seq<EntityId>)
    ensures Distinct(targets) && Elements(targets) == Written(steps)
  {
    targets := [];
    for i := 0 to |steps|
      invariant Distinct(targets)
      invariant forall e :: e in targets <==> exists k :: 0 <= k < i && steps[k].action.Some? && e in steps[k].action.value
    {
      if steps[i].action.Some? {
        var raw := steps[i].action.value;
        for j := 0 to |raw|
          invariant Distinct(targets)
          invariant forall e :: e in targets <==>
                      || (exists k :: 0 <= k < i && steps[k].action.Some? && e in steps[k].action.value)
                      || e in raw[..j]
        {
          if raw[j] !in targets {
            targets := targets + [raw[j]];
          }
        }
        assert raw[..|raw|] == raw;
      }
    }
  }

  /** The other runs that own one of these targets. */
  function Others(owners: Owners, targets: set<EntityId>, runId: RunId): set<RunId> {
    set e | e in targets && e in owners && owners[e] != runId :: owners[e]
  }

  predicate Writes(step: Step, e: EntityId) {
    step.action.Some? && e in step.action.value
  }

  /** Every target of every step is written, and nothing else is. */
  lemma WrittenExactly(steps: seq<Step>, e: EntityId)
    ensures e in Written(steps) <==> exists k :: 0 <= k < |steps| && Writes(steps[k], e)
  {
    if e in Written(steps) {
      var step :| step in steps && step.action.Some? && e in step.action.value;
      assert Writes(step, e);
    }
  }

  /** What stands in the way of a run are the other owners of its targets, never the run itself. */
  lemma OthersExactly(owners: Owners, targets: set<EntityId>, runId: RunId, other: RunId)
    ensures other in Others(owners, targets, runId) <==> other != runId && exists e :: e in targets && e in owners && owners[e] == other
  {
  }

  /** The owners once a run has reserved these targets. */
  function Reserved(owners: Owners, targets: set<EntityId>, runId: RunId): Owners {
    owners + map e | e in targets :: runId
  }

  function OwnedBy(owners: Owners, runId: RunId): set<EntityId> {
    set e | e in owners && owners[e] == runId
  }

  /** Owners and holdings say the same. */
  ghost predicate Matching(owners: Owners, holdings: map<RunId, set<EntityId>>) {
    && (forall e :: e in owners ==> owners[e] in holdings && e in holdings[owners[e]])
    && (forall run, e :: run in holdings && e in holdings[run] ==> e in owners && owners[e] == run)
  }

  function Held(holdings: map<RunId, set<EntityId>>, runId: RunId): set<EntityId> {
    if runId in holdings then holdings[runId] else {}
  }

  /** Runs that hold something hold different things. */
  lemma HoldingsAreDisjoint(owners: Owners, holdings: map<RunId, set<EntityId>>, run: RunId, other: RunId)
    requires Matching(owners, holdings) && run in holdings && other in holdings && run != other
    ensures holdings[run] !! holdings[other]
  {
    forall e | e in holdings[run]
      ensures e !in holdings[other]
    {
      assert owners[e] == run;
    }
  }

  lemma HoldingsFollow(owners: Owners, holdings: map<RunId, set<EntityId>>, runId: RunId, targets: set<EntityId>,
                       owners': Owners, holdings': map<RunId, set<EntityId>>)
    requires Matching(owners, holdings) && Others(owners, targets, runId) == {}
    requires owners' == Reserved(owners, targets, runId)
    requires holdings' == holdings[runId := Held(holdings, runId) + targets]
    ensures Matching(owners', holdings')
  {
    forall e | e in targets && e in owners
      ensures owners[e] == runId
    {
      var owner := owners[e];
      assert owner != runId ==> owner in Others(owners, targets, runId);
    }
  }

  lemma ReservedNext(owners: Owners, targets: seq<EntityId>, i: nat, runId: RunId)
    requires i < |targets|
    ensures Reserved(owners, Elements(targets[..i + 1]), runId) == Reserved(owners, Elements(targets[..i]), runId)[targets[i] := runId]
  {
    assert targets[..i + 1] == targets[..i] + [targets[i]];
  }

  lemma ReleaseFollows(owners: Owners, holdings: map<RunId, set<EntityId>>, runId: RunId)
    requires Matching(owners, holdings)
    ensures Matching(owners - OwnedBy(owners, runId), holdings - {runId})
  {
  }

  class ExecutionCoordinator {
    var owners: Owners
    // What each run was granted and has not released.
    ghost var holdings: map<RunId, set<EntityId>>

    ghost predicate Valid()
      reads this
    {
      Matching(owners, holdings)
    }

    constructor ()
      ensures Valid() && owners == map[] && holdings == map[]
    {
      owners, holdings := map[], map[];
    }

    /** Enters the run as the owner of every target. */
    method Reserve(runId: RunId, targets: seq<EntityId>)
      modifies `owners
      ensures owners == Reserved(old(owners), Elements(targets), runId)
    {
      for i := 0 to |targets|
        invariant owners == Reserved(old(owners), Elements(targets[..i]), runId)
      {
        ReservedNext(old(owners), targets, i, runId);
        owners := owners[targets[i] := runId];
      }
      assert targets[..|targets|] == targets;
    }

    method Acquire(runId: RunId, steps: seq<Step>) returns (r: Reservation)
      requires Valid()
      modifies this
      ensures Valid()
      ensures Distinct(r.entityIds) && Elements(r.entityIds) == Written(steps)
      ensures
        var others := Others(old(owners), Written(steps), runId);
        if others == {} then
          && r.Acquired? && owners == Reserved(old(owners), Written(steps), runId)
          && holdings == old(holdings)[runId := Held(old(holdings), runId) + Written(steps)]
        else
          && r == Conflict(r.entityIds, Sorted(others))
          && owners == old(owners) && holdings == old(holdings)
    {
      var targets := Targets(steps);
      var conflicts := Sorted(Others(owners, Elements(targets), runId));
      SortedLists(Others(owners, Elements(targets), runId));
      if conflicts != [] {
        return Conflict(targets, conflicts);
      }
      Reserve(runId, targets);
      holdings := holdings[runId := Held(holdings, runId) + Written(steps)];
      HoldingsFollow(old(owners), old(holdings), runId, Written(steps), owners, holdings);
      return Acquired(targets);
    }

    /** Deletes the run's entries. */
    method Free(runId: RunId)
      modifies `owners
      ensures owners == old(owners) - OwnedBy(old(owners), runId)
    {
      ghost var mine := OwnedBy(owners, runId);
      var rest := owners.Keys;
      while rest != {}
        invariant rest <= owners.Keys
        invariant owners == old(owners) - (mine - rest)
        decreases |rest|
      {
        var entityId :| entityId in rest;
        rest := rest - {entityId};
        if owners[entityId] == runId {
          owners := owners - {entityId};
        }
      }
      assert mine - {} == mine;
    }

    method Release(runId: RunId)
      requires Valid()
      modifies this
      ensures Valid()
      ensures holdings == old(holdings) - {runId}
      ensures owners == old(owners) - OwnedBy(old(owners), runId)
    {
      Free(runId);
      holdings := holdings - {runId};
      ReleaseFollows(old(owners), old(holdings), runId);
    }
  }

  // ----- whole runs -----------------------------------------------------------------------

  datatype Call = Acquiring(runId: RunId, steps: seq<Step>) | Releasing(runId: RunId)

  /** The owners once a call is handled. */
  function Handled(owners: Owners, call: Call): Owners {
    match call
    case Acquiring(runId, steps) =>
      if Others(owners, Written(steps), runId) == {} then Reserved(owners, Written(steps), runId) else owners
    case Releasing(runId) => owners - OwnedBy(owners, runId)
  }

  function OwnersAfter(calls: seq<Call>): Owners {
    if calls == [] then map[] else Handled(OwnersAfter(calls[..|calls| - 1]), calls[|calls| - 1])
  }

  /** An acquisition is granted exactly when no other run owns a target; otherwise those runs are named, sorted. */
  ghost predicate Answers(owners: Owners, call: Call, result: Option<Reservation>) {
    match call
    case Acquiring(runId, steps) =>
      var others := Others(owners, Written(steps), runId);
      && result.Some? && Distinct(result.value.entityIds) && Elements(result.value.entityIds) == Written(steps)
      && if others == {} then result.value.Acquired? else result.value == Conflict(result.value.entityIds, Sorted(others))
    case Releasing(_) => result == None
  }

  ghost predicate AllAnswered(calls: seq<Call>, results: seq<Option<Reservation>>) {
    |results| == |calls| && forall i :: 0 <= i < |calls| ==> Answers(OwnersAfter(calls[..i]), calls[i], results[i])
  }

  lemma NextAnswered(calls: seq<Call>, results: seq<Option<Reservation>>, call: Call, result: Option<Reservation>)
    requires AllAnswered(calls, results) && Answers(OwnersAfter(calls), call, result)
    ensures AllAnswered(calls + [call], results + [result])
    ensures OwnersAfter(calls + [call]) == Handled(OwnersAfter(calls), call)
  {
    var more := calls + [call];
    assert more[..|calls|] == calls;
    forall i | 0 <= i < |more|
      ensures Answers(OwnersAfter(more[..i]), more[i], (results + [result])[i])
    {
      if i < |calls| {
        assert more[..i] == calls[..i];
      }
    }
  }

  predicate Granted(call: Call, result: Option<Reservation>) {
    call.Acquiring? && result.Some? && result.value.Acquired?
  }

  /** The `i`-th call was granted its targets, and its run did not release them before the `n`-th. */
  predicate StillHeld(calls: seq<Call>, result: Option<Reservation>, i: nat, n: nat)
    requires i < n <= |calls|
  {
    Granted(calls[i], result) && forall k :: i < k < n ==> calls[k] != Releasing(calls[i].runId)
  }

  /** What is still held does not overlap what another run is granted. */
  predicate Exclusive(calls: seq<Call>, results: seq<Option<Reservation>>, i: nat, j: nat)
    requires i < j < |results| <= |calls|
  {
    StillHeld(calls, results[i], i, j) && Granted(calls[j], results[j]) && calls[j].runId != calls[i].runId
    ==> Written(calls[i].steps) !! Written(calls[j].steps)
  }

  /** The run owns everything the call writes. */
  predicate Holds(owners: Owners, call: Call)
    requires call.Acquiring?
  {
    forall e :: e in Written(call.steps) ==> e in owners && owners[e] == call.runId
  }

  /** Another run is only granted what does not overlap. */
  lemma GrantIsExclusive(owners: Owners, call: Call, targets: set<EntityId>, other: RunId)
    requires call.Acquiring? && Holds(owners, call) && call.runId != other
    requires Others(owners, targets, other) == {}
    ensures Written(call.steps) !! targets
  {
    forall e | e in Written(call.steps)
      ensures e !in targets
    {
      var owner := owners[e];
      assert e in targets ==> owner in Others(owners, targets, other);
    }
  }

  /** What a run holds it is granted again, and what it released stands in nobody's way. */
  lemma OwnIsFree(owners: Owners, call: Call, runId: RunId)
    requires call.Acquiring? && Holds(owners, call)
    ensures Others(owners, Written(call.steps), call.runId) == {}
    ensures forall other :: Others(Handled(owners, Releasing(call.runId)), Written(call.steps), other) == {}
    ensures runId != call.runId ==> OwnedBy(Handled(owners, Releasing(call.runId)), runId) == OwnedBy(owners, runId)
  {
    forall other
      ensures Others(Handled(owners, Releasing(call.runId)), Written(call.steps), other) == {}
    {
      assert forall e :: e in Written(call.steps) ==> e !in Handled(owners, Releasing(call.runId));
    }
  }

  /** No other call takes away what a run holds. */
  lemma HoldingIsKept(owners: Owners, held: Call, call: Call)
    requires held.Acquiring? && Holds(owners, held) && call != Releasing(held.runId)
    ensures Holds(Handled(owners, call), held)
  {
    if call.Acquiring? && call.runId != held.runId && Others(owners, Written(call.steps), call.runId) == {} {
      GrantIsExclusive(owners, held, Written(call.steps), call.runId);
    }
  }

  lemma GrantHolds(owners: Owners, call: Call, result: Option<Reservation>)
    requires Answers(owners, call, result) && Granted(call, result)
    ensures Holds(Handled(owners, call), call)
  {
  }

  lemma OwnersNext(calls: seq<Call>, n: nat)
    requires n < |calls|
    ensures OwnersAfter(calls[..n + 1]) == Handled(OwnersAfter(calls[..n]), calls[n])
  {
    assert calls[..n + 1][..n] == calls[..n];
  }

  lemma {:induction false} GrantIsKept(calls: seq<Call>, result: Option<Reservation>, i: nat, n: nat)
    requires i < n <= |calls| && StillHeld(calls, result, i, n)
    requires Answers(OwnersAfter(calls[..i]), calls[i], result)
    ensures Holds(OwnersAfter(calls[..n]), calls[i])
  {
    OwnersNext(calls, n - 1);
    if n == i + 1 {
      GrantHolds(OwnersAfter(calls[..i]), calls[i], result);
    } else {
      GrantIsKept(calls, result, i, n - 1);
      HoldingIsKept(OwnersAfter(calls[..n - 1]), calls[i], calls[n - 1]);
    }
  }

  method Handle(coordinator: ExecutionCoordinator, call: Call) returns (r: Option<Reservation>)
    requires coordinator.Valid()
    modifies coordinator
    ensures coordinator.Valid()
    ensures coordinator.owners == Handled(old(coordinator.owners), call) && Answers(old(coordinator.owners), call, r)
  {
    match call
    case Acquiring(runId, steps) =>
      var reservation := coordinator.Acquire(runId, steps);
      r := Some(reservation);
    case Releasing(runId) =>
      coordinator.Release(runId);
      r := None;
  }

  method HandleAll(calls: seq<Call>) returns (coordinator: ExecutionCoordinator, results: seq<Option<Reservation>>)
    ensures fresh(coordinator) && coordinator.Valid() && coordinator.owners == OwnersAfter(calls)
    ensures AllAnswered(calls, results)
  {
    coordinator := new ExecutionCoordinator();
    results := [];
    for n := 0 to |calls|
      invariant fresh(coordinator) && coordinator.Valid() && coordinator.owners == OwnersAfter(calls[..n])
      invariant AllAnswered(calls[..n], results)
    {
      var r := Handle(coordinator, calls[n]);
      NextAnswered(calls[..n], results, calls[n], r);
      assert calls[..n + 1] == calls[..n] + [calls[n]];
      results := results + [r];
    }
    assert calls[..|calls|] == calls;
  }

  /** Reservation safety over any interleaving of calls. */
  method RunReservations(calls: seq<Call>) returns (coordinator: ExecutionCoordinator, results: seq<Option<Reservation>>)
    ensures fresh(coordinator) && coordinator.Valid() && coordinator.owners == OwnersAfter(calls)
    ensures AllAnswered(calls, results)
    ensures forall i, j :: 0 <= i < j < |calls| ==> Exclusive(calls, results, i, j)
  {
    coordinator, results := HandleAll(calls);
    forall i, j | 0 <= i < j < |calls|
      ensures Exclusive(calls, results, i, j)
    {
      if StillHeld(calls, results[i], i, j) && Granted(calls[j], results[j]) && calls[j].runId != calls[i].runId {
        GrantIsKept(calls, results[i], i, j);
        GrantIsExclusive(OwnersAfter(calls[..j]), calls[i], Written(calls[j].steps), calls[j].runId);
      }
    }
  }
}
