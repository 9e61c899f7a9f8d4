/**
 The mutating operations on automations. Each takes one lock for all its steps,
 so that only external editors act between them. Two operations take it late or
 twice: a duplication reads its source before, and a recorded run releases the
 lock between counting the run and deleting the automation. Their steps are
 modelled without another operation in between.
 */
module AutomationExecutor {
  import opened Common
  import opened Config
  import opened AutomationEdits
  import opened AutomationHistory
  import opened TransactionHost
  import opened TransactionOutcome
  import opened TransactionProtocol
  import Sorting
  import Store = AutomationMetadataStore

  function SettingOf(h: Host): Setting
    reads h
  {
    Setting(h.historyAvailable, h.clock, h.limit, h.Pending())
  }

  /**
   What every operation respects, whatever fails and whoever interferes: the
   invariants, any transaction that is already open, and the history limit.
   */
  twostate predicate Orderly(h: Host)
    reads h
  {
    && h.Valid()
    && h.Pending() <= old(h.Pending())
    && (old(h.journal).Some? ==>
          h.OnlyEnvironment() && h.journal == old(h.journal) && h.history == old(h.history) && h.live == old(h.live))
    && (|h.history| <= |old(h.history)| || |h.history| <= h.limit)
  }

  /** What a change owes an open transaction: it fails, and only an external editor may have changed anything. */
  twostate predicate Blocked(h: Host, r: Result)
    reads h
  {
    && (r.Raised? || r.Crashed?) && h.OnlyEnvironment()
    && h.journal == old(h.journal) && h.history == old(h.history)
    && h.metadata == old(h.metadata) && h.live == old(h.live)
  }

  // ----- create --------------------------------------------------------------------

  function NewEntry(config: Automation, scheduledFor: Option<Stamp>, once: bool, maxRuns: Option<int>): Entry {
    Entry(match Get(config, "alias") case Str(s) => s case _ => "", true, 1, scheduledFor, once, maxRuns, 0)
  }

  lemma NewEntryWithinBounds(id: Id, config: Automation, scheduledFor: Option<Stamp>, once: bool, maxRuns: Option<int>)
    ensures (maxRuns.Some? ==> maxRuns.value >= 1) ==> WithinBounds(map[id := NewEntry(config, scheduledFor, once, maxRuns)])
  {
  }

  function CreateGoal(s: State, id: Id, config: Automation, entry: Entry): Option<Goal> {
    match Load(s.yaml)
    case None => None
    case Some(automations) =>
      Some(Goal(Operation.Create, id, automations + [WithId(id, config)], s.metadata[id := entry], {id}))
  }

  /** The list with one more automation at the end: the configuration, and the id unless it has one of its own. */
  predicate Appends(before: seq<Automation>, after: seq<Automation>, id: Id, config: Automation) {
    && |after| == |before| + 1 && after[..|before|] == before
    && var created := after[|before|];
       && created.Keys == config.Keys + {"id"}
       && (forall key :: key in config ==> created[key] == config[key])
       && ("id" !in config ==> created["id"] == Str(id))
  }

  /** One entry more, which has not run yet, and no other changed. */
  predicate Registers(before: Metadata, after: Metadata, id: Id, scheduledFor: Option<Stamp>, once: bool, maxRuns: Option<int>) {
    && after.Keys == before.Keys + {id} && after - {id} == before - {id}
    && after[id].createdByHomeIntent && after[id].version == 1 && after[id].runCount == 0
    && after[id].scheduledFor == scheduledFor && after[id].once == once && after[id].maxRuns == maxRuns
  }

  /** The automation was created: it is in the file and runs, and nothing else has changed. */
  predicate Creates(pre: State, post: State, id: Id, config: Automation, scheduledFor: Option<Stamp>, once: bool, maxRuns: Option<int>) {
    && post.journal == None && Load(pre.yaml).Some? && Load(post.yaml) == Some(post.live)
    && Appends(Load(pre.yaml).value, post.live, id, config)
    && Registers(pre.metadata, post.metadata, id, scheduledFor, once, maxRuns)
  }

  lemma PerformedCreates(pre: State, post: State, r: Result, id: Id, config: Automation, scheduledFor: Option<Stamp>, once: bool,
                         maxRuns: Option<int>, setting: Setting, pending: nat)
    requires setting.limit >= 1 && Load(pre.yaml).Some?
    requires Performed(pre, post, r, CreateGoal(pre, id, config, NewEntry(config, scheduledFor, once, maxRuns)), setting, pending)
    ensures if r.Done? then Creates(pre, post, id, config, scheduledFor, once, maxRuns) else pending < setting.pending
  {
  }

  method Create(h: Host, id: Id, config: Automation, scheduledFor: Option<Stamp>, once: bool, maxRuns: Option<int>)
    returns (r: Result)
    requires h.Valid()
    modifies h
    ensures Orderly(h)
    ensures old(h.journal).Some? ==> Blocked(h, r)
    ensures old(RunsBounded(h.Now())) && (maxRuns.Some? ==> maxRuns.value >= 1) ==> RunsBounded(h.Now())
    ensures h.Quiet() && old(h.journal == None) ==>
              Performed(old(h.Now()), h.Now(), r,
                        CreateGoal(old(h.Now()), id, config, NewEntry(config, scheduledFor, once, maxRuns)),
                        old(SettingOf(h)), h.Pending())
    ensures h.Quiet() && old(h.journal == None && Load(h.yaml).Some?) ==>
              if r.Done? then Creates(old(h.Now()), h.Now(), id, config, scheduledFor, once, maxRuns) else h.Faulted()
  {
    var entry := NewEntry(config, scheduledFor, once, maxRuns);
    NewEntryWithinBounds(id, config, scheduledFor, once, maxRuns);
    r := CreateAs(h, id, config, entry);
    if h.Quiet() && old(h.journal == None && Load(h.yaml).Some?) {
      PerformedCreates(old(h.Now()), h.Now(), r, id, config, scheduledFor, once, maxRuns, old(SettingOf(h)), h.Pending());
    }
  }

  /** The creation of an automation with this entry. */
  method CreateAs(h: Host, id: Id, config: Automation, entry: Entry) returns (r: Result)
    requires h.Valid()
    modifies h
    ensures Orderly(h)
    ensures old(h.journal).Some? ==> Blocked(h, r)
    ensures old(RunsBounded(h.Now())) && WithinBounds(map[id := entry]) ==> RunsBounded(h.Now())
    ensures h.Quiet() && old(h.journal == None) ==>
              Performed(old(h.Now()), h.Now(), r, CreateGoal(old(h.Now()), id, config, entry), old(SettingOf(h)), h.Pending())
  {
    var snapshot :- h.ReadSnapshot();
    r := CreateFrom(h, id, config, entry, snapshot, old(h.Pending()));
  }

  /** The creation from the list as it was read. */
  method CreateFrom(h: Host, id: Id, config: Automation, entry: Entry, snapshot: Snapshot, ghost earlier: nat)
    returns (r: Result)
    requires h.Valid() && earlier >= h.Pending()
    requires !h.trace.replayed ==> Load(FileOf(snapshot.digest)) == Some(snapshot.automations)
    requires h.trace.author.Found? ==> snapshot.digest == DigestOf(h.yaml)
    modifies h
    ensures Orderly(h)
    ensures old(h.journal).Some? ==> Blocked(h, r)
    ensures old(RunsBounded(h.Now())) && WithinBounds(map[id := entry]) ==> RunsBounded(h.Now())
    ensures old(Ready(h, snapshot)) ==>
              Performed(old(h.Now()), h.Now(), r, CreateGoal(old(h.Now()), id, config, entry),
                        old(SettingOf(h)).(pending := earlier), h.Pending())
  {
    var automations := snapshot.automations + [WithId(id, config)];
    ghost var goal := Goal(Operation.Create, id, automations, h.metadata[id := entry], {id});
    var t :- BeginTransaction(h, Operation.Create, id, snapshot, automations, true, goal);
    r := FinishCreate(h, id, entry, t, old(h.Now()), goal);
  }

  method FinishCreate(h: Host, id: Id, entry: Entry, t: Transaction, ghost pre: State, ghost goal: Goal)
    returns (r: Result)
    requires h.Valid() && h.journal == Some(t) && t.after.Some? && t.state.YamlWritten?
    modifies h`schedule, h`yaml, h`trace, h`journal, h`history, h`live, h`metadata
    ensures h.Valid()
    ensures r.Done? ==> h.history == old(h.history)
    ensures h.history in {old(h.history), Withdrawn(old(h.history), t.createdAt)}
    ensures old(RunsBounded(h.Now())) && WithinBounds(map[id := entry]) ==> RunsBounded(h.Now())
    ensures h.Quiet() && old(Opened(pre, h.Now(), t, goal))
              && goal.metadata == pre.metadata[id := entry] && goal.dropped == {id} ==>
              AllOrNothing(pre, h.Now(), r, goal) && (!r.Done? ==> h.Faulted()) && (r.RaisedLate? ==> h.FaultedTwice())
    ensures h.Pending() <= old(h.Pending())
  {
    r := ReloadOrRollback(h, t, pre, goal);
    if r.Done? {
      r := EnterOrUndo(h, id, entry, t, pre, goal);
    }
  }

  method EnterOrUndo(h: Host, id: Id, entry: Entry, t: Transaction, ghost pre: State, ghost goal: Goal)
    returns (r: Result)
    requires h.Valid() && h.journal == Some(t) && t.after.Some? && t.state.YamlWritten?
    modifies h`schedule, h`yaml, h`trace, h`journal, h`history, h`live, h`metadata
    ensures h.Valid()
    ensures r.Done? ==> h.history == old(h.history)
    ensures h.history in {old(h.history), Withdrawn(old(h.history), t.createdAt)}
    ensures old(RunsBounded(h.Now())) && WithinBounds(map[id := entry]) ==> RunsBounded(h.Now())
    ensures h.Quiet() && old(Reloaded(pre, h.Now(), t, goal))
              && goal.metadata == pre.metadata[id := entry] && goal.dropped == {id} ==>
              AllOrNothing(pre, h.Now(), r, goal) && (!r.Done? ==> h.Faulted()) && (r.RaisedLate? ==> h.FaultedTwice())
    ensures h.Pending() <= old(h.Pending())
  {
    r := Enter(h, id, entry);
    if r.Raised? {
      r := UndoCreate(h, id, t, pre, goal);
      return;
    }
    if r.Done? {
      EntryWithinBounds(old(h.metadata), id, entry);
      r := CompleteTransaction(h);
    }
  }

  lemma EntryWithinBounds(metadata: Metadata, id: Id, entry: Entry)
    ensures WithinBounds(metadata) && WithinBounds(map[id := entry]) ==> WithinBounds(metadata[id := entry])
  {
    assert map[id := entry][id] == entry;
  }

  /** The category and the metadata entry of a new automation. */
  method Enter(h: Host, id: Id, entry: Entry) returns (r: Result)
    requires h.Valid()
    modifies h`schedule, h`yaml, h`trace, h`metadata
    ensures h.Valid() && h.OnlyEnvironment() && r != RaisedLate
    ensures r.Done? ==> h.metadata == old(h.metadata)[id := entry]
    ensures !r.Done? ==> h.metadata == old(h.metadata) && h.Faulted()
  {
    r := h.AssignCategory();
    if r.Done? {
      r := Store.Save(h, id, entry);
    }
  }

  /** The compensation of a creation whose category or metadata step failed. */
  method UndoCreate(h: Host, id: Id, t: Transaction, ghost pre: State, ghost goal: Goal) returns (r: Result)
    requires h.Valid() && h.journal == Some(t) && t.after.Some? && t.state.YamlWritten?
    modifies h`schedule, h`yaml, h`trace, h`journal, h`history, h`live, h`metadata
    ensures h.Valid() && r != Done
    ensures h.history in {old(h.history), Withdrawn(old(h.history), t.createdAt)}
    ensures old(RunsBounded(h.Now())) ==> RunsBounded(h.Now())
    ensures h.Quiet() && old(Reloaded(pre, h.Now(), t, goal)) && goal.dropped == {id} ==>
              AllOrNothing(pre, h.Now(), r, goal) && (r.RaisedLate? ==> h.Faulted())
    ensures h.Pending() <= old(h.Pending())
  {
    r := RollbackTransaction(h, t);
    if r.Done? {
      r := ForgetAndReload(h, id);
    }
  }

  /** A second reload failure is swallowed: the file is correct either way. */
  method ForgetAndReload(h: Host, id: Id) returns (r: Result)
    requires h.Valid()
    modifies h`schedule, h`yaml, h`trace, h`live, h`metadata
    ensures h.Valid() && h.OnlyEnvironment() && r != Done
    ensures h.metadata in {old(h.metadata), old(h.metadata) - {id}}
    ensures r.Raised? ==> h.metadata == old(h.metadata) - {id} && Load(h.yaml) == Some(h.live)
    ensures r.RaisedLate? && Load(h.yaml).Some? ==> h.Faulted()
  {
    r := Store.Delete(h, id);
    if r.Done? {
      r := h.Reload();
    }
    r := match r case Done => Raised case Raised => RaisedLate case other => other;
  }

  // ----- duplicate -------------------------------------------------------------------

  function DuplicateGoal(s: State, id: Id, newId: Id): Option<Goal> {
    if Load(s.yaml) == None || Find(Load(s.yaml).value, id) == None || id !in s.metadata
       || !s.metadata[id].createdByHomeIntent then None
    else
      var source := s.metadata[id];
      match DuplicateConfig(Find(Load(s.yaml).value, id).value, id, newId)
      case None => None
      case Some(config) => CreateGoal(s, newId, config, NewEntry(config, source.scheduledFor, source.once, source.maxRuns))
  }

  /** The automation exists, was created here, and comes through the rewriting. */
  predicate Duplicable(s: State, id: Id, newId: Id) {
    && Load(s.yaml).Some? && Present(Load(s.yaml).value, id)
    && id in s.metadata && s.metadata[id].createdByHomeIntent
    && DuplicateConfig(Find(Load(s.yaml).value, id).value, id, newId).Some?
  }

  /** The rewritten copy was created, with the schedule and the limit of its source. */
  predicate DuplicatedFrom(pre: State, post: State, id: Id, newId: Id)
    requires Duplicable(pre, id, newId)
  {
    var source := pre.metadata[id];
    Creates(pre, post, newId, DuplicateConfig(Find(Load(pre.yaml).value, id).value, id, newId).value,
            source.scheduledFor, source.once, source.maxRuns)
  }

  /** Copies an automation under a fresh id; the source is read before the lock is taken. */
  method Duplicate(h: Host, id: Id, newId: Id) returns (r: Result)
    requires h.Valid()
    modifies h
    ensures Orderly(h)
    ensures old(h.journal).Some? ==> Blocked(h, r)
    ensures old(RunsBounded(h.Now())) ==> RunsBounded(h.Now())
    ensures h.Quiet() && old(h.journal == None) ==>
              Performed(old(h.Now()), h.Now(), r, DuplicateGoal(old(h.Now()), id, newId), old(SettingOf(h)), h.Pending())
    ensures h.Quiet() && old(h.journal == None) && r.Done? ==>
              Duplicable(old(h.Now()), id, newId) && DuplicatedFrom(old(h.Now()), h.Now(), id, newId)
    ensures h.Quiet() && old(h.journal == None) && !r.Done? ==>
              h.Faulted() || (!Duplicable(old(h.Now()), id, newId) && h.Now() == old(h.Now()))
  {
    var automations := Load(h.yaml);
    if automations == None || Find(automations.value, id) == None {
      return Raised;
    }
    if id !in h.metadata || !h.metadata[id].createdByHomeIntent {
      return Raised;
    }
    var source := h.metadata[id];
    var config := DuplicateConfig(Find(automations.value, id).value, id, newId);
    if config == None {
      return Raised;
    }
    r := Create(h, newId, config.value, source.scheduledFor, source.once, source.maxRuns);
  }

  // ----- delete -------------------------------------------------------------------

  function OtherThan(id: Id): Automation -> bool {
    a => !HasId(a, id)
  }

  function DeleteGoal(s: State, id: Id): Option<Goal> {
    match Load(s.yaml)
    case None => None
    case Some(automations) =>
      if !Present(automations, id) then None
      else Some(Goal(Operation.Delete, id, Filter(automations, OtherThan(id)), s.metadata - {id}, {}))
  }

  /** A deletion is meant exactly when the automation exists, and then removes just what has the id. */
  lemma DeletionExactly(s: State, id: Id)
    ensures
      var goal := DeleteGoal(s, id);
      && (goal.Some? <==> Load(s.yaml).Some? && exists a :: a in Load(s.yaml).value && Get(a, "id") == Str(id))
      && (goal.Some? ==>
            && goal.value.operation.Delete? && goal.value.metadata == s.metadata - {id}
            && goal.value.automations == Filter(Load(s.yaml).value, OtherThan(id))
            && forall a :: OtherThan(id)(a) <==> Get(a, "id") != Str(id))
  {
    assert forall a: Automation :: HasId(a, id) <==> Get(a, "id") == Str(id);
  }

  lemma RemainingIsShorter(automations: seq<Automation>, id: Id)
    ensures |Filter(automations, OtherThan(id))| < |automations| <==> Present(automations, id)
  {
  }

  method Delete(h: Host, id: Id) returns (r: Result)
    requires h.Valid()
    modifies h
    ensures Orderly(h)
    ensures old(h.journal).Some? ==> Blocked(h, r)
    ensures old(RunsBounded(h.Now())) ==> RunsBounded(h.Now())
    ensures h.Quiet() && old(h.journal == None) ==>
              Performed(old(h.Now()), h.Now(), r, DeleteGoal(old(h.Now()), id), old(SettingOf(h)), h.Pending())
  {
    var snapshot :- h.ReadSnapshot();
    r := DeleteFrom(h, id, snapshot, old(h.Pending()));
  }

  /** The deletion from the list as it was read. */
  method DeleteFrom(h: Host, id: Id, snapshot: Snapshot, ghost earlier: nat) returns (r: Result)
    requires h.Valid() && earlier >= h.Pending()
    requires !h.trace.replayed ==> Load(FileOf(snapshot.digest)) == Some(snapshot.automations)
    requires h.trace.author.Found? ==> snapshot.digest == DigestOf(h.yaml)
    modifies h
    ensures Orderly(h)
    ensures old(h.journal).Some? ==> Blocked(h, r)
    ensures old(RunsBounded(h.Now())) ==> RunsBounded(h.Now())
    ensures old(Ready(h, snapshot)) ==>
              Performed(old(h.Now()), h.Now(), r, DeleteGoal(old(h.Now()), id), old(SettingOf(h)).(pending := earlier), h.Pending())
  {
    var remaining := Filter(snapshot.automations, OtherThan(id));
    RemainingIsShorter(snapshot.automations, id);
    if |remaining| == |snapshot.automations| {
      return Raised;
    }
    ghost var goal := Goal(Operation.Delete, id, remaining, h.metadata - {id}, {});
    assert old(Ready(h, snapshot)) ==> DeleteGoal(old(h.Now()), id) == Some(goal);
    var t :- BeginTransaction(h, Operation.Delete, id, snapshot, remaining, true, goal);
    r := FinishDelete(h, id, t, old(h.Now()), goal);
  }

  method FinishDelete(h: Host, id: Id, t: Transaction, ghost pre: State, ghost goal: Goal) returns (r: Result)
    requires h.Valid() && h.journal == Some(t) && t.after.Some? && t.state.YamlWritten?
    modifies h`schedule, h`yaml, h`trace, h`journal, h`history, h`live, h`metadata
    ensures h.Valid()
    ensures r.Done? ==> h.history == old(h.history)
    ensures h.history in {old(h.history), Withdrawn(old(h.history), t.createdAt)}
    ensures old(RunsBounded(h.Now())) ==> RunsBounded(h.Now())
    ensures h.Quiet() && old(Opened(pre, h.Now(), t, goal)) && goal.metadata == pre.metadata - {id} ==>
              AllOrNothing(pre, h.Now(), r, goal) && (!r.Done? ==> h.Faulted()) && (r.RaisedLate? ==> h.FaultedTwice())
    ensures h.Pending() <= old(h.Pending())
  {
    r := ReloadOrRollback(h, t, pre, goal);
    if r.IsFailure() {
      return;
    }
    r := Store.Delete(h, id);
    if r.Raised? {
      r := RollbackAndReload(h, t, pre, goal);
      return;
    }
    if r.Done? {
      r := CompleteTransaction(h);
    }
  }

  // ----- edits of one automation, with or without a metadata change ---------------------

  function EditGoal(s: State, operation: Operation, id: Id, edit: Edit, change: Option<Store.Change>): Option<Goal> {
    match Load(s.yaml)
    case None => None
    case Some(automations) =>
      match EditMatching(automations, id, edit)
      case None => None
      case Some(updated) =>
        if !Present(automations, id) || (change.Some? && id !in s.metadata) then None
        else Some(Goal(operation, id, updated, Changed(s.metadata, id, change), {}))
  }

  function Changed(metadata: Metadata, id: Id, change: Option<Store.Change>): Metadata
    requires change.Some? ==> id in metadata
  {
    if change == None then metadata else metadata[id := Store.Applied(metadata[id], change.value)]
  }

  /** Each named field has its new value, every other its old one, and the entry is one version further. */
  predicate FieldsChange(before: Entry, after: Entry, change: Store.Change) {
    && after.createdByHomeIntent == before.createdByHomeIntent && after.once == before.once
    && after.version == before.version + 1
    && after.scheduledFor == (if change.scheduledFor == None then before.scheduledFor else change.scheduledFor)
    && Some(after.maxRuns) == (if change.maxRuns == None then Some(before.maxRuns) else change.maxRuns)
    && Some(after.runCount) == (if change.runCount == None then Some(before.runCount) else change.runCount)
    && Some(after.sourceText) == (if change.sourceText == None then Some(before.sourceText) else change.sourceText)
  }

  /** An edit is meant exactly when the automation, its entry and the edit allow it, and then changes nothing else. */
  lemma EditExactly(s: State, operation: Operation, id: Id, edit: Edit, change: Option<Store.Change>)
    ensures
      var goal := EditGoal(s, operation, id, edit, change);
      && (goal.Some? <==>
            && Load(s.yaml).Some? && Present(Load(s.yaml).value, id) && (change.Some? ==> id in s.metadata)
            && forall a :: a in Load(s.yaml).value && HasId(a, id) ==> edit(a).Some?)
      && (goal.Some? ==>
            && goal.value.operation == operation && EditsInPlace(Load(s.yaml).value, goal.value.automations, id, edit)
            && goal.value.metadata.Keys == s.metadata.Keys && goal.value.metadata - {id} == s.metadata - {id}
            && (id in s.metadata ==>
                  if change == None then goal.value.metadata[id] == s.metadata[id]
                  else FieldsChange(s.metadata[id], goal.value.metadata[id], change.value)))
  {
    if Load(s.yaml).Some? {
      EditMatchingExactly(Load(s.yaml).value, id, edit);
    }
  }

  /** The change cannot push a bounded entry past its limit. */
  predicate Harmless(change: Store.Change) {
    match change.maxRuns
    case None => change.runCount == None
    case Some(None) => true
    case Some(Some(limit)) => change.runCount.Some? && 0 <= change.runCount.value < limit
  }

  /** The common body of toggling, rescheduling, bounding and replacing sections. */
  method EditAutomation(h: Host, operation: Operation, id: Id, edit: Edit, change: Option<Store.Change>)
    returns (r: Result)
    requires h.Valid() && (change.Some? ==> id in h.metadata)
    modifies h
    ensures Orderly(h)
    ensures old(h.journal).Some? ==> Blocked(h, r)
    ensures old(RunsBounded(h.Now())) && (change.Some? ==> Harmless(change.value)) ==> RunsBounded(h.Now())
    ensures h.Quiet() && old(h.journal == None) ==>
              Performed(old(h.Now()), h.Now(), r, EditGoal(old(h.Now()), operation, id, edit, change), old(SettingOf(h)), h.Pending())
  {
    ghost var goal := Goal(operation, id, [], Changed(h.metadata, id, change), {});
    var t;
    r, t, goal := BeginEdit(h, operation, id, edit, goal);
    if r.Done? {
      r := FinishEdit(h, id, change, t, old(h.Now()), goal);
    }
  }

  method BeginEdit(h: Host, operation: Operation, id: Id, edit: Edit, ghost aim: Goal)
    returns (r: Result, t: Transaction, ghost goal: Goal)
    requires h.Valid() && aim.operation == operation && aim.automationId == id
    modifies h`schedule, h`yaml, h`trace, h`journal, h`history, h`clock
    ensures Orderly(h)
    ensures old(h.journal).Some? ==> Blocked(h, r)
    ensures r != RaisedLate
    ensures r.Done? ==> h.journal == Some(t) && t.after.Some? && t.state.YamlWritten? && t.createdAt == old(h.clock)
    ensures old(RunsBounded(h.Now())) ==> RunsBounded(h.Now())
    ensures goal == aim.(automations := goal.automations)
    ensures h.Quiet() && old(h.journal == None) ==>
              if r.Done?
              then && old(Load(h.yaml)).Some? && old(Present(Load(h.yaml).value, id))
                   && EditMatching(old(Load(h.yaml)).value, id, edit) == Some(goal.automations)
                   && Opened(old(h.Now()), h.Now(), t, goal)
                   && h.history == if h.historyAvailable
                                   then Pushed(old(h.history), UndoEntry(old(h.Now()), goal, old(h.clock)), h.limit)
                                   else old(h.history)
              else if old(Load(h.yaml)).Some? && old(Present(Load(h.yaml).value, id))
                      && EditMatching(old(Load(h.yaml)).value, id, edit).Some?
              then && EditMatching(old(Load(h.yaml)).value, id, edit) == Some(goal.automations)
                   && AllOrNothing(old(h.Now()), h.Now(), r, goal) && h.Faulted()
              else h.Now() == old(h.Now())
  {
    t := Transaction(operation, id, 0, NoFile, None, [], [], Prepared);
    goal := aim;
    var snapshot;
    r, snapshot := h.ReadSnapshot();
    if r != Done {
      ghost var automations := Load(h.yaml);
      if automations.Some? && EditMatching(automations.value, id, edit).Some? {
        goal := aim.(automations := EditMatching(automations.value, id, edit).value);
      }
      return;
    }
    var found, updated := EditAll(snapshot.automations, id, edit);
    if !found || updated == None {
      return Raised, t, goal;
    }
    goal := aim.(automations := updated.value);
    r, t := BeginTransaction(h, operation, id, snapshot, updated.value, true, goal);
  }

  method FinishEdit(h: Host, id: Id, change: Option<Store.Change>, t: Transaction, ghost pre: State, ghost goal: Goal)
    returns (r: Result)
    requires h.Valid() && h.journal == Some(t) && t.after.Some? && t.state.YamlWritten?
    modifies h`schedule, h`yaml, h`trace, h`journal, h`history, h`live, h`metadata
    ensures h.Valid()
    ensures r.Done? ==> h.history == old(h.history)
    ensures h.history in {old(h.history), Withdrawn(old(h.history), t.createdAt)}
    ensures old(RunsBounded(h.Now())) && (change.Some? ==> Harmless(change.value)) ==> RunsBounded(h.Now())
    ensures h.Quiet() && old(Opened(pre, h.Now(), t, goal))
              && (change.Some? ==> id in pre.metadata) && goal.metadata == Changed(pre.metadata, id, change) ==>
              AllOrNothing(pre, h.Now(), r, goal) && (!r.Done? ==> h.Faulted()) && (r.RaisedLate? ==> h.FaultedTwice())
    ensures h.Pending() <= old(h.Pending())
  {
    match change
    case Some(fields) => r := FinishUpdate(h, id, fields, t, pre, goal);
    case None => r := FinishToggle(h, t, pre, goal);
  }

  method FinishToggle(h: Host, t: Transaction, ghost pre: State, ghost goal: Goal) returns (r: Result)
    requires h.Valid() && h.journal == Some(t) && t.after.Some? && t.state.YamlWritten?
    modifies h`schedule, h`yaml, h`trace, h`journal, h`history, h`live
    ensures h.Valid()
    ensures r.Done? ==> h.history == old(h.history)
    ensures h.history in {old(h.history), Withdrawn(old(h.history), t.createdAt)}
    ensures old(RunsBounded(h.Now())) ==> RunsBounded(h.Now())
    ensures h.Quiet() && old(Opened(pre, h.Now(), t, goal)) && goal.metadata == pre.metadata ==>
              AllOrNothing(pre, h.Now(), r, goal) && (!r.Done? ==> h.Faulted()) && (r.RaisedLate? ==> h.FaultedTwice())
    ensures h.Pending() <= old(h.Pending())
  {
    r := ReloadOrRollback(h, t, pre, goal);
    if r.IsFailure() {
      return;
    }
    r := CompleteTransaction(h);
  }

  method ReloadAndUpdate(h: Host, id: Id, change: Store.Change) returns (r: Result)
    requires h.Valid()
    modifies h`schedule, h`yaml, h`trace, h`live, h`metadata
    ensures h.Valid() && h.OnlyEnvironment() && r != RaisedLate
    ensures r.Done? ==>
              && (h.Quiet() ==> Load(h.yaml) == Some(h.live))
              && id in old(h.metadata) && h.metadata == old(h.metadata)[id := Store.Applied(old(h.metadata)[id], change)]
    ensures !r.Done? ==> h.metadata == old(h.metadata)
    ensures h.Quiet() && !r.Done? && Load(h.yaml).Some? && id in old(h.metadata) ==> h.Faulted()
  {
    r := h.Reload();
    if r.Done? {
      r := Store.Update(h, id, change);
    }
  }

  method FinishUpdate(h: Host, id: Id, change: Store.Change, t: Transaction, ghost pre: State, ghost goal: Goal)
    returns (r: Result)
    requires h.Valid() && h.journal == Some(t) && t.after.Some? && t.state.YamlWritten?
    modifies h`schedule, h`yaml, h`trace, h`journal, h`history, h`live, h`metadata
    ensures h.Valid()
    ensures r.Done? ==> h.history == old(h.history)
    ensures h.history in {old(h.history), Withdrawn(old(h.history), t.createdAt)}
    ensures old(RunsBounded(h.Now())) && Harmless(change) ==> RunsBounded(h.Now())
    ensures h.Quiet() && old(Opened(pre, h.Now(), t, goal))
              && id in pre.metadata && goal.metadata == pre.metadata[id := Store.Applied(pre.metadata[id], change)] ==>
              AllOrNothing(pre, h.Now(), r, goal) && (!r.Done? ==> h.Faulted()) && (r.RaisedLate? ==> h.FaultedTwice())
    ensures h.Pending() <= old(h.Pending())
  {
    r := ReloadAndUpdate(h, id, change);
    if r.Raised? {
      r := RollbackAndReload(h, t, pre, goal);
      return;
    }
    if r.Done? {
      r := CompleteTransaction(h);
    }
  }

  // ----- the edits ----------------------------------------------------------------------

  function Toggle(enabled: bool): Operation {
    if enabled then Enable else Disable
  }

  method SetInitialState(h: Host, id: Id, enabled: bool) returns (r: Result)
    requires h.Valid()
    modifies h
    ensures Orderly(h)
    ensures old(h.journal).Some? ==> Blocked(h, r)
    ensures old(RunsBounded(h.Now())) ==> RunsBounded(h.Now())
    ensures h.Quiet() && old(h.journal == None) ==>
              Performed(old(h.Now()), h.Now(), r,
                        EditGoal(old(h.Now()), Toggle(enabled), id, SetEnabled(enabled), None), old(SettingOf(h)), h.Pending())
  {
    r := EditAutomation(h, Toggle(enabled), id, SetEnabled(enabled), None);
  }

  /** What a refused call owes its caller: an exception, and nothing changed. */
  twostate predicate Refused(h: Host, r: Result)
    reads h
  {
    r == Raised && h.Now() == old(h.Now()) && h.trace == old(h.trace)
  }

  /** The entry exists, was created here, and (where the operation asks) is not a one-shot. */
  predicate Owned(s: State, id: Id, repeating: bool) {
    id in s.metadata && s.metadata[id].createdByHomeIntent && (repeating ==> !s.metadata[id].once)
  }

  predicate Scheduled(s: State, id: Id) {
    id in s.metadata && s.metadata[id].once && s.metadata[id].scheduledFor.Some?
  }

  method RescheduleAutomation(h: Host, id: Id, stamp: Stamp, at: string, template: string, texts: Texts)
    returns (r: Result)
    requires h.Valid()
    modifies h
    ensures Orderly(h)
    ensures old(h.journal).Some? ==> Blocked(h, r)
    ensures old(RunsBounded(h.Now())) ==> RunsBounded(h.Now())
    ensures old(!Scheduled(h.Now(), id)) ==> Refused(h, r)
    ensures old(Scheduled(h.Now(), id) && h.Quiet() && h.journal == None) ==>
              Performed(old(h.Now()), h.Now(), r,
                        EditGoal(old(h.Now()), Reschedule, id, MoveSchedule(at, template, texts),
                                 Some(Store.Change(scheduledFor := Some(stamp)))),
                        old(SettingOf(h)), h.Pending())
  {
    if id !in h.metadata || !h.metadata[id].once || h.metadata[id].scheduledFor == None {
      return Raised;
    }
    r := EditAutomation(h, Reschedule, id, MoveSchedule(at, template, texts),
                       Some(Store.Change(scheduledFor := Some(stamp))));
  }

  method SetMaxRunsTo(h: Host, id: Id, maxRuns: int) returns (r: Result)
    requires h.Valid()
    modifies h
    ensures Orderly(h)
    ensures old(h.journal).Some? ==> Blocked(h, r)
    ensures old(RunsBounded(h.Now())) ==> RunsBounded(h.Now())
    ensures !(2 <= maxRuns <= 10) || old(!Owned(h.Now(), id, true)) ==> Refused(h, r)
    ensures 2 <= maxRuns <= 10 && old(Owned(h.Now(), id, true) && h.Quiet() && h.journal == None) ==>
              Performed(old(h.Now()), h.Now(), r,
                        EditGoal(old(h.Now()), SetMaxRuns, id, SetBound(id, maxRuns),
                                 Some(Store.Change(maxRuns := Some(Some(maxRuns)), runCount := Some(0)))),
                        old(SettingOf(h)), h.Pending())
  {
    if !(2 <= maxRuns <= 10) {
      return Raised;
    }
    if id !in h.metadata || !h.metadata[id].createdByHomeIntent || h.metadata[id].once {
      return Raised;
    }
    r := EditAutomation(h, SetMaxRuns, id, SetBound(id, maxRuns),
                       Some(Store.Change(maxRuns := Some(Some(maxRuns)), runCount := Some(0))));
  }

  method ReplaceAutomationActions(h: Host, id: Id, newActions: seq<Value>, sourceText: string) returns (r: Result)
    requires h.Valid()
    modifies h
    ensures Orderly(h)
    ensures old(h.journal).Some? ==> Blocked(h, r)
    ensures old(RunsBounded(h.Now())) ==> RunsBounded(h.Now())
    ensures newActions == [] || old(!Owned(h.Now(), id, false)) ==> Refused(h, r)
    ensures newActions != [] && old(Owned(h.Now(), id, false) && h.Quiet() && h.journal == None) ==>
              Performed(old(h.Now()), h.Now(), r,
                        EditGoal(old(h.Now()), ReplaceActions, id, ReplaceUserActions(newActions),
                                 Some(Store.Change(sourceText := Some(sourceText)))),
                        old(SettingOf(h)), h.Pending())
  {
    if newActions == [] {
      return Raised;
    }
    if id !in h.metadata || !h.metadata[id].createdByHomeIntent {
      return Raised;
    }
    r := EditAutomation(h, ReplaceActions, id, ReplaceUserActions(newActions),
                       Some(Store.Change(sourceText := Some(sourceText))));
  }

  predicate Replaceable(section: string, values: seq<Value>) {
    section in {"triggers", "conditions"} && (section == "triggers" ==> values != [])
  }

  function SectionOperation(section: string): Operation {
    if section == "triggers" then ReplaceTriggers else ReplaceConditions
  }

  method ReplaceAutomationSection(h: Host, id: Id, section: string, values: seq<Value>, sourceText: string)
    returns (r: Result)
    requires h.Valid()
    modifies h
    ensures Orderly(h)
    ensures old(h.journal).Some? ==> Blocked(h, r)
    ensures old(RunsBounded(h.Now())) ==> RunsBounded(h.Now())
    ensures !Replaceable(section, values) || old(!Owned(h.Now(), id, true)) ==> Refused(h, r)
    ensures Replaceable(section, values) && old(Owned(h.Now(), id, true) && h.Quiet() && h.journal == None) ==>
              Performed(old(h.Now()), h.Now(), r,
                        EditGoal(old(h.Now()), SectionOperation(section), id, ReplaceSection(section, values),
                                 Some(Store.Change(sourceText := Some(sourceText)))),
                        old(SettingOf(h)), h.Pending())
  {
    if !Replaceable(section, values) {
      return Raised;
    }
    if id !in h.metadata || !h.metadata[id].createdByHomeIntent || h.metadata[id].once {
      return Raised;
    }
    r := EditAutomation(h, SectionOperation(section), id, ReplaceSection(section, values),
                       Some(Store.Change(sourceText := Some(sourceText))));
  }

  // ----- counting runs -------------------------------------------------------------------

  /** The entry with one more run recorded. */
  function Counted(entry: Entry): Entry {
    entry.(runCount := entry.runCount + 1, version := entry.version + 1)
  }

  /** The locked half of recording a run: counts it, or reports that the limit is reached. */
  method CountRun(h: Host, id: Id) returns (r: Result, deleteNow: bool)
    requires h.Valid()
    modifies h`schedule, h`yaml, h`trace, h`metadata
    ensures Orderly(h) && h.OnlyEnvironment()
    ensures r != RaisedLate
    ensures old(RunsBounded(h.Now())) ==> RunsBounded(h.Now())
    ensures r.Done? ==> id in old(h.metadata) && old(h.metadata)[id].maxRuns.Some?
    ensures r.Done? ==>
              var entry := old(h.metadata)[id];
              && (deleteNow <==> entry.runCount + 1 >= entry.maxRuns.value)
              && h.metadata == if deleteNow then old(h.metadata)
                               else old(h.metadata)[id := Counted(entry)]
    ensures r != Done ==> h.metadata == old(h.metadata)
    ensures r != Done && old(id in h.metadata && h.metadata[id].maxRuns.Some?) ==> h.Faulted()
    ensures old(id !in h.metadata || h.metadata[id].maxRuns == None) ==> Refused(h, r)
  {
    deleteNow := false;
    if id !in h.metadata || h.metadata[id].maxRuns == None {
      return Raised, false;
    }
    var entry := h.metadata[id];
    var nextCount := entry.runCount + 1;
    if nextCount >= entry.maxRuns.value {
      return Done, true;
    }
    r := Store.Update(h, id, Store.Change(runCount := Some(nextCount)));
  }

  /** Counts a run and deletes the automation when that was the last one. */
  method RecordRun(h: Host, id: Id) returns (r: Result, deleted: bool)
    requires h.Valid()
    modifies h
    ensures Orderly(h)
    ensures old(RunsBounded(h.Now())) ==> RunsBounded(h.Now())
    ensures old(id !in h.metadata || h.metadata[id].maxRuns == None) ==> Refused(h, r)
    ensures h.Quiet() && old(h.journal == None && id in h.metadata && h.metadata[id].maxRuns.Some?) ==>
              var entry := old(h.metadata)[id];
              if entry.runCount + 1 >= entry.maxRuns.value
              then && Performed(old(h.Now()), h.Now(), r, DeleteGoal(old(h.Now()), id), old(SettingOf(h)), h.Pending())
                   && (r.Done? ==> deleted)
              else && h.Now() == old(h.Now()).(metadata := h.metadata)
                   && h.metadata == (if r.Done?
                                     then old(h.metadata)[id := Counted(entry)]
                                     else old(h.metadata))
                   && !deleted && (!r.Done? ==> h.Faulted())
    ensures h.Quiet() && old(h.journal.Some? && id in h.metadata && h.metadata[id].maxRuns.Some?) ==>
              var entry := old(h.metadata)[id];
              if entry.runCount + 1 >= entry.maxRuns.value then Blocked(h, r)
              else && h.Now() == old(h.Now()).(metadata := h.metadata)
                   && h.metadata == (if r.Done? then old(h.metadata)[id := Counted(entry)] else old(h.metadata))
  {
    deleted := false;
    var deleteNow :- CountRun(h, id);
    if deleteNow {
      ghost var start, setting := h.Now(), SettingOf(h);
      r := Delete(h, id);
      deleted := true;
      if h.Quiet() && old(h.journal) == None {
        assert start == old(h.Now());
        PerformedFromEarlier(start, h.Now(), r, DeleteGoal(start, id), setting, old(h.Pending()), h.Pending());
        assert setting.(pending := old(h.Pending())) == old(SettingOf(h));
      }
    } else {
      r := Done;
    }
  }

  // ----- expiring missed one-shots ---------------------------------------------------------

  /** The one-shots whose due time has passed. */
  function ExpiredIds(metadata: Metadata, due: Stamp -> bool): set<Id> {
    set id | id in metadata && metadata[id].once && metadata[id].scheduledFor.Some? && due(metadata[id].scheduledFor.value)
  }

  function OutsideOf(ids: set<Id>): Automation -> bool {
    a => !(Get(a, "id").Str? && Get(a, "id").s in ids)
  }

  /** The transaction an expiry needs, if any expired automation is still in the file. */
  function ExpireGoal(s: State, due: Stamp -> bool): Option<Goal> {
    match Load(s.yaml)
    case None => None
    case Some(automations) =>
      var expired := ExpiredIds(s.metadata, due);
      var present := expired * Ids(automations);
      if present == {} then None
      else Some(Goal(Operation.Expire, Sorting.Join(Sorting.Sorted(present), ","),
                     Filter(automations, OutsideOf(expired)), s.metadata - expired, {}))
  }

  predicate IsDue(metadata: Metadata, id: Id, due: Stamp -> bool) {
    id in metadata && metadata[id].once && metadata[id].scheduledFor.Some? && due(metadata[id].scheduledFor.value)
  }

  /** A transaction is needed exactly when a due one-shot is in the file; it removes the due ones and their entries, and nothing else. */
  lemma ExpiryExactly(s: State, due: Stamp -> bool)
    ensures forall id :: id in ExpiredIds(s.metadata, due) <==> IsDue(s.metadata, id, due)
    ensures
      var goal := ExpireGoal(s, due);
      && (goal.Some? <==> Load(s.yaml).Some? && exists a, id :: a in Load(s.yaml).value && HasId(a, id) && IsDue(s.metadata, id, due))
      && (goal.Some? ==>
            var expired := ExpiredIds(s.metadata, due);
            && goal.value.operation.Expire? && goal.value.metadata == s.metadata - expired
            && goal.value.automations == Filter(Load(s.yaml).value, OutsideOf(expired))
            && forall a :: OutsideOf(expired)(a) <==> forall id :: HasId(a, id) ==> !IsDue(s.metadata, id, due))
  {
    var expired := ExpiredIds(s.metadata, due);
    forall a
      ensures OutsideOf(expired)(a) <==> forall id :: HasId(a, id) ==> !IsDue(s.metadata, id, due)
    {
      assert Get(a, "id").Str? ==> HasId(a, Get(a, "id").s);
    }
    if Load(s.yaml).Some? {
      var present := expired * Ids(Load(s.yaml).value);
      assert present != {} ==> exists id :: id in present;
      assert forall id :: id in present <==> IsDue(s.metadata, id, due) && exists a :: a in Load(s.yaml).value && HasId(a, id);
    }
  }

  /**
   Without an expired automation in the file, only metadata entries of expired
   automations go, all of them unless an access fails.
   */
  predicate ExpireOutcome(pre: State, post: State, r: Result, expired: set<Id>, goal: Option<Goal>, setting: Setting, pending: nat)
    requires setting.limit >= 1
  {
    match goal
    case None =>
      && post == pre.(metadata := post.metadata) && PartlyForgotten(pre.metadata, post.metadata, expired)
      && (r.Done? ==> post.metadata == pre.metadata - expired)
    case Some(_) => Performed(pre, post, r, goal, setting, pending)
  }

  predicate ExpirePerformed(pre: State, post: State, r: Result, due: Stamp -> bool, setting: Setting, pending: nat)
    requires setting.limit >= 1
  {
    ExpireOutcome(pre, post, r, ExpiredIds(pre.metadata, due), ExpireGoal(pre, due), setting, pending)
  }

  method CleanupExpired(h: Host, due: Stamp -> bool) returns (r: Result, expired: set<Id>)
    requires h.Valid()
    modifies h
    ensures Orderly(h)
    ensures old(RunsBounded(h.Now())) ==> RunsBounded(h.Now())
    ensures r.Done? ==> expired == old(ExpiredIds(h.metadata, due)) && h.metadata == old(h.metadata) - expired
    ensures h.Quiet() && old(h.journal == None) ==>
              ExpirePerformed(old(h.Now()), h.Now(), r, due, old(SettingOf(h)), h.Pending())
    ensures h.Quiet() && old(h.journal).Some? ==>
              ExpireOutcome(old(h.Now()), h.Now(), r, old(ExpiredIds(h.metadata, due)), None, old(SettingOf(h)), h.Pending())
  {
    ghost var goal := ExpireGoal(h.Now(), due);
    expired := {};
    var snapshot;
    r, snapshot := h.ReadSnapshot();
    if r.Done? {
      expired := ExpiredIds(h.metadata, due);
      r := Expire(h, expired, due, snapshot, goal, old(h.Pending()));
    }
  }

  method Expire(h: Host, expired: set<Id>, ghost due: Stamp -> bool, snapshot: Snapshot, ghost goal: Option<Goal>, ghost earlier: nat)
    returns (r: Result)
    requires h.Valid()
    requires !h.trace.replayed ==> Load(FileOf(snapshot.digest)) == Some(snapshot.automations)
    requires h.trace.author.Found? ==> snapshot.digest == DigestOf(h.yaml)
    requires expired == ExpiredIds(h.metadata, due) && earlier >= h.Pending()
    requires Ready(h, snapshot) ==> goal == ExpireGoal(h.Now(), due)
    modifies h
    ensures Orderly(h)
    ensures old(RunsBounded(h.Now())) ==> RunsBounded(h.Now())
    ensures r.Done? ==> h.metadata == old(h.metadata) - expired
    ensures old(Ready(h, snapshot)) ==>
              ExpireOutcome(old(h.Now()), h.Now(), r, expired, goal, old(SettingOf(h)).(pending := earlier), h.Pending())
    ensures h.Quiet() && old(h.journal).Some? ==>
              ExpireOutcome(old(h.Now()), h.Now(), r, expired, None, old(SettingOf(h)), h.Pending())
  {
    if expired == {} {
      assert h.metadata - expired == h.metadata;
      return Done;
    }
    if expired * Ids(snapshot.automations) == {} {
      r := ForgetAll(h, expired);
    } else {
      r := ExpirePresent(h, expired, due, snapshot, earlier);
    }
  }

  method ExpirePresent(h: Host, expired: set<Id>, ghost due: Stamp -> bool, snapshot: Snapshot, ghost earlier: nat)
    returns (r: Result)
    requires h.Valid()
    requires !h.trace.replayed ==> Load(FileOf(snapshot.digest)) == Some(snapshot.automations)
    requires h.trace.author.Found? ==> snapshot.digest == DigestOf(h.yaml)
    requires earlier >= h.Pending() && expired == ExpiredIds(h.metadata, due) && expired * Ids(snapshot.automations) != {}
    modifies h
    ensures Orderly(h)
    ensures old(h.journal).Some? ==> Blocked(h, r)
    ensures old(RunsBounded(h.Now())) ==> RunsBounded(h.Now())
    ensures r.Done? ==> h.metadata == old(h.metadata) - expired
    ensures old(Ready(h, snapshot)) ==>
              Performed(old(h.Now()), h.Now(), r, ExpireGoal(old(h.Now()), due), old(SettingOf(h)).(pending := earlier), h.Pending())
  {
    var remaining := Filter(snapshot.automations, OutsideOf(expired));
    var joined := Sorting.Join(Sorting.Sorted(expired * Ids(snapshot.automations)), ",");
    ghost var goal := Goal(Operation.Expire, joined, remaining, h.metadata - expired, {});
    assert old(Ready(h, snapshot)) ==> ExpireGoal(old(h.Now()), due) == Some(goal);
    var t :- BeginTransaction(h, Operation.Expire, joined, snapshot, remaining, true, goal);
    r := FinishExpire(h, expired, t, old(h.Now()), goal);
  }

  /** Deletes metadata entries one by one, in any order. */
  method ForgetAll(h: Host, ids: set<Id>) returns (r: Result)
    requires h.Valid()
    modifies h`schedule, h`yaml, h`trace, h`metadata
    ensures h.Valid() && h.OnlyEnvironment() && r != RaisedLate
    ensures r == Done ==> h.metadata == old(h.metadata) - ids
    ensures PartlyForgotten(old(h.metadata), h.metadata, ids)
    ensures old(WithinBounds(h.metadata)) ==> WithinBounds(h.metadata)
    ensures r != Done ==> h.Faulted()
  {
    var rest := ids;
    while rest != {}
      invariant h.Valid() && h.OnlyEnvironment() && rest <= ids
      invariant h.metadata == old(h.metadata) - (ids - rest)
      decreases rest
    {
      var id :| id in rest;
      :- Store.Delete(h, id);
      rest := rest - {id};
    }
    return Done;
  }

  method FinishExpire(h: Host, expired: set<Id>, t: Transaction, ghost pre: State, ghost goal: Goal)
    returns (r: Result)
    requires h.Valid() && h.journal == Some(t) && t.after.Some? && t.state.YamlWritten?
    modifies h`schedule, h`yaml, h`trace, h`journal, h`history, h`live, h`metadata
    ensures h.Valid()
    ensures r.Done? ==> h.history == old(h.history) && h.metadata == old(h.metadata) - expired
    ensures h.history in {old(h.history), Withdrawn(old(h.history), t.createdAt)}
    ensures old(RunsBounded(h.Now())) ==> RunsBounded(h.Now())
    ensures h.Quiet() && old(Opened(pre, h.Now(), t, goal))
              && goal.metadata == pre.metadata - expired && goal.operation == Operation.Expire ==>
              AllOrNothing(pre, h.Now(), r, goal) && (!r.Done? ==> h.Faulted()) && (r.RaisedLate? ==> h.FaultedTwice())
    ensures h.Pending() <= old(h.Pending())
  {
    r := ReloadOrRollback(h, t, pre, goal);
    if r.IsFailure() {
      return;
    }
    // A failure from here on leaves the journal to recovery.
    :- ForgetAll(h, expired);
    r := CompleteTransaction(h);
  }

  // ----- undoing the last change --------------------------------------------------------------

  function UndoGoal(s: State): Option<Goal> {
    if s.history == [] || Load(s.yaml) == None then None
    else
      var latest := s.history[|s.history| - 1];
      Some(Goal(Rollback, latest.automationId, latest.automations, latest.metadata, {}))
  }

  /**
   Like any transaction, except that the undo entry is consumed after the
   journal is cleared: when that last step fails, the change is undone but its
   entry is still there.
   */
  predicate UndoPerformed(pre: State, post: State, r: Result, goal: Option<Goal>, setting: Setting, pending: nat) {
    match goal
    case None => post == pre && r != Done
    case Some(goal) =>
      if r.Done? then Committed(post, goal) && post.history == Popped(pre.history)
      else && pending < setting.pending && post.history == pre.history
           && (|| (AllOrNothing(pre, post, r, goal) && (r.RaisedLate? ==> pending + 2 <= setting.pending))
               || ((r.RaisedLate? || r.Crashed?) && Committed(post, goal)))
  }

  /** The accesses of an undo before it consumes its entry. */
  const UNDO_ACCESSES := 10

  /**
   Undoes the last change. A single failure leaves all or nothing, with one
   exception: exactly when it falls on the last access, which consumes the
   undo entry, the change is undone, its entry still there, and the call raises.
   */
  method RollbackLastChange(h: Host) returns (r: Result)
    requires h.Valid()
    modifies h
    ensures Orderly(h)
    ensures old(h.journal).Some? ==> Blocked(h, r)
    ensures old(RunsBounded(h.Now())) ==> RunsBounded(h.Now())
    ensures h.Quiet() && old(h.journal == None) ==>
              UndoPerformed(old(h.Now()), h.Now(), r, UndoGoal(old(h.Now())), old(SettingOf(h)), h.Pending())
    ensures h.Quiet() && old(h.journal == None && UndoGoal(h.Now()).Some?) ==>
              && (r.RaisedLate? && h.Pending() + 1 == old(h.Pending()) <==> FailsAfter(old(h.schedule), UNDO_ACCESSES))
              && (FailsAfter(old(h.schedule), UNDO_ACCESSES) ==>
                    Committed(h.Now(), UndoGoal(old(h.Now())).value) && h.history == old(h.history))
  {
    var latest := Peek(h);
    if latest == None {
      return Raised;
    }
    assert latest.value in h.history;
    :- RestoreEntry(h, latest.value);
    if h.Quiet() && old(h.journal == None && UndoGoal(h.Now()).Some?) {
      FailureAfterSmooth(old(h.schedule), UNDO_ACCESSES);
    }
    var popped;
    r, popped := Pop(h);
    if r.Raised? {
      r := RaisedLate;
    }
  }

  /** The transaction that puts the list and metadata of an undo entry back. */
  method RestoreEntry(h: Host, entry: HistoryEntry) returns (r: Result)
    requires h.Valid()
    modifies h
    ensures Orderly(h)
    ensures h.history == old(h.history)
    ensures old(h.journal).Some? ==> Blocked(h, r)
    ensures old(RunsBounded(h.Now())) && WithinBounds(entry.metadata) ==> RunsBounded(h.Now())
    ensures h.Quiet() && old(h.journal == None) ==>
              if old(Load(h.yaml)).Some?
              then && AllOrNothing(old(h.Now()), h.Now(), r,
                                   Goal(Rollback, entry.automationId, entry.automations, entry.metadata, {}))
                   && (!r.Done? ==> h.Faulted()) && (r.RaisedLate? ==> h.FaultedTwice())
              else h.Now() == old(h.Now()) && r != Done
    ensures h.Quiet() && old(h.journal == None && Load(h.yaml).Some?) ==> h.Took(r.Done?, UNDO_ACCESSES)
  {
    SmoothInStages(h.schedule, 3, 7);
    SmoothInStages(Later(h.schedule, 3), 4, 3);
    var snapshot :- h.ReadSnapshot();
    ghost var goal := Goal(Rollback, entry.automationId, entry.automations, entry.metadata, {});
    var t :- BeginTransaction(h, Rollback, entry.automationId, snapshot, entry.automations, false, goal);
    r := FinishUndo(h, entry.metadata, t, old(h.Now()), goal);
  }

  method FinishUndo(h: Host, metadata: Metadata, t: Transaction, ghost pre: State, ghost goal: Goal) returns (r: Result)
    requires h.Valid() && h.journal == Some(t) && t.after.Some? && t.state.YamlWritten? && t.operation == Rollback
    modifies h`schedule, h`yaml, h`trace, h`journal, h`history, h`live, h`metadata
    ensures h.Valid()
    ensures h.history == old(h.history)
    ensures old(RunsBounded(h.Now())) && WithinBounds(metadata) ==> RunsBounded(h.Now())
    ensures h.Quiet() && old(Opened(pre, h.Now(), t, goal)) && goal.metadata == metadata ==>
              AllOrNothing(pre, h.Now(), r, goal) && (!r.Done? ==> h.Faulted()) && (r.RaisedLate? ==> h.FaultedTwice())
    ensures h.Quiet() && old(Opened(pre, h.Now(), t, goal)) ==> h.Took(r.Done?, 3)
    ensures h.Pending() <= old(h.Pending())
  {
    SmoothInStages(h.schedule, 1, 2);
    SmoothInStages(Later(h.schedule, 1), 1, 1);
    r := h.Reload();
    if r.Done? {
      r := Store.Write(h, metadata);
    }
    if r.Raised? {
      r := RollbackAndReload(h, t, pre, goal);
      return;
    }
    if r.Done? {
      r := CompleteTransaction(h);
    }
  }

  /** A run in which just that access fails: the change is undone, its entry is still there, and the call raises. */
  method UndoneYetRaised(before: seq<Automation>, after: seq<Automation>) returns (h: Host, r: Result)
    ensures fresh(h) && h.Valid() && r == RaisedLate
    ensures h.yaml == Saved(before) && h.live == before && h.journal == None
    ensures |h.history| == 1 && h.history[0].automations == before
  {
    var entry := HistoryEntry(Operation.Create, "a", 0, before, map[]);
    var smooth := seq(UNDO_ACCESSES, _ => Decision(None, Proceed));
    h := new Host(10, true, false, Saved(after), [entry], map[], 1, smooth + [Decision(None, Fail)]);
    SmoothPrefix(smooth, Decision(None, Fail));
    assert UndoGoal(h.Now()).Some?;
    r := RollbackLastChange(h);
  }

  lemma {:induction false} SmoothPrefix(smooth: seq<Decision>, last: Decision)
    requires forall i :: 0 <= i < |smooth| ==> smooth[i].verdict.Proceed?
    ensures Smooth(smooth + [last], |smooth|) && Later(smooth + [last], |smooth|) == [last]
    decreases |smooth|
  {
    if smooth != [] {
      SmoothPrefix(smooth[1..], last);
      assert (smooth + [last])[1..] == smooth[1..] + [last];
    }
  }
}
