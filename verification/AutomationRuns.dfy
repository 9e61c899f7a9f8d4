/** Whole runs: any operations in any order, with crashes and restarts between them. */
module AutomationRuns {
  import opened Common
  import opened Config
  import opened AutomationEdits
  import opened AutomationExecutor
  import opened AutomationHistory
  import opened AutomationRecovery
  import opened TransactionHost
  import opened TransactionOutcome
  import Store = AutomationMetadataStore

  /** A change to one automation that keeps it. */
  datatype Editing =
    | Toggling(enabled: bool)
    | Rescheduling(stamp: Stamp, at: string, template: string)
    | Bounding(limit: int)
    | ReplacingActions(actions: seq<Value>, sourceText: string)
    | ReplacingSection(section: string, values: seq<Value>, sourceText: string)

  datatype Command =
    | Creating(id: Id, config: Automation, scheduledFor: Option<Stamp>, once: bool, maxRuns: Option<int>)
    | Duplicating(id: Id, newId: Id)
    | Deleting(id: Id)
    | Editing(id: Id, change: Editing)
    | RecordingRun(id: Id)
    // the locked half of recording a run; the deletion may follow after other commands
    | CountingRun(id: Id)
    | Expiring(due: Stamp -> bool)
    | Undoing
    // the integration starts anew, possibly because Home Assistant does
    | Restarting(boot: bool)

  function IntendedEdit(s: State, id: Id, change: Editing, texts: Texts): Option<Goal> {
    match change
    case Toggling(enabled) => EditGoal(s, Toggle(enabled), id, SetEnabled(enabled), None)
    case Rescheduling(stamp, at, template) =>
      if !Scheduled(s, id) then None
      else EditGoal(s, Reschedule, id, MoveSchedule(at, template, texts), Some(Store.Change(scheduledFor := Some(stamp))))
    case Bounding(limit) =>
      if !(2 <= limit <= 10) || !Owned(s, id, true) then None
      else EditGoal(s, SetMaxRuns, id, SetBound(id, limit),
                    Some(Store.Change(maxRuns := Some(Some(limit)), runCount := Some(0))))
    case ReplacingActions(actions, sourceText) =>
      if actions == [] || !Owned(s, id, false) then None
      else EditGoal(s, ReplaceActions, id, ReplaceUserActions(actions), Some(Store.Change(sourceText := Some(sourceText))))
    case ReplacingSection(section, values, sourceText) =>
      if !Replaceable(section, values) || !Owned(s, id, true) then None
      else EditGoal(s, SectionOperation(section), id, ReplaceSection(section, values),
                    Some(Store.Change(sourceText := Some(sourceText))))
  }

  /** What a command is meant to achieve in the YAML file; none when it is refused or leaves the file alone. */
  function Intended(s: State, command: Command, texts: Texts): Option<Goal> {
    match command
    case Creating(id, config, scheduledFor, once, maxRuns) =>
      CreateGoal(s, id, config, NewEntry(config, scheduledFor, once, maxRuns))
    case Duplicating(id, newId) => DuplicateGoal(s, id, newId)
    case Deleting(id) => DeleteGoal(s, id)
    case Editing(id, change) => IntendedEdit(s, id, change, texts)
    case RecordingRun(id) =>
      if id in s.metadata && s.metadata[id].maxRuns.Some? && s.metadata[id].runCount + 1 >= s.metadata[id].maxRuns.value
      then DeleteGoal(s, id) else None
    case CountingRun(_) => None
    case Expiring(due) => ExpireGoal(s, due)
    case Undoing => UndoGoal(s)
    case Restarting(_) => None
  }

  /** A created automation may run at least once. */
  predicate Sensible(command: Command) {
    command.Creating? && command.maxRuns.Some? ==> command.maxRuns.value >= 1
  }

  /** A startup: an open transaction is recovered first, if the bytes found are its own. */
  predicate Restarted(pre: State, post: State, r: Result, boot: bool, texts: Texts) {
    var start := if boot then pre.(live := Booted(pre.yaml)) else pre;
    match pre.journal
    case None => post == start.(metadata := post.metadata) && Settles(pre.yaml, pre.metadata, post.metadata, r, texts)
    case Some(t) =>
      match RecoveredFile(pre.yaml, t)
      case None => post == start && r != Done
      case Some(file) =>
        && post.history in {pre.history, Withdrawn(pre.history, t.createdAt)}
        && if post.journal == None
           then && post.yaml == file && Settles(file, pre.metadata, post.metadata, r, texts)
                && (r.Done? && boot ==> InSync(post))
           else && r != Done && post.journal == pre.journal && post.yaml in {pre.yaml, file}
                && post.metadata == pre.metadata
  }

  /** A command that was not meant to change the file has not: it counts a run, drops or repairs metadata, or changes nothing. */
  predicate Spared(pre: State, post: State, r: Result, command: Command, texts: Texts) {
    match command
    case RecordingRun(id) =>
      if r.Done? then
        && id in pre.metadata && pre.metadata[id].maxRuns.Some?
        && post == pre.(metadata := pre.metadata[id := Counted(pre.metadata[id])])
      else post == pre
    case CountingRun(id) =>
      if r.Done? then
        && id in pre.metadata && pre.metadata[id].maxRuns.Some?
        && var entry := pre.metadata[id];
           post == if entry.runCount + 1 >= entry.maxRuns.value then pre else pre.(metadata := pre.metadata[id := Counted(entry)])
      else post == pre
    case Expiring(due) =>
      var expired := ExpiredIds(pre.metadata, due);
      && post == pre.(metadata := post.metadata) && PartlyForgotten(pre.metadata, post.metadata, expired)
      && (r.Done? ==> post.metadata == pre.metadata - expired)
    case Restarting(boot) => Restarted(pre, post, r, boot, texts)
    case _ => post == pre && r != Done
  }

  /** A command that started without an open transaction and met no external editor. */
  predicate Ran(pre: State, post: State, r: Result, command: Command, goal: Option<Goal>, setting: Setting, pending: nat, texts: Texts)
    requires setting.limit >= 1
  {
    match goal
    case None => Spared(pre, post, r, command, texts)
    case Some(_) =>
      if command.Undoing? then UndoPerformed(pre, post, r, goal, setting, pending)
      else Performed(pre, post, r, goal, setting, pending)
  }

  /** Startup can only fail by a fault: the file parses, and an open transaction recognises it. */
  predicate Startable(s: State) {
    Load(s.yaml).Some? && (s.journal.Some? ==> RecoveredFile(s.yaml, s.journal.value).Some?)
  }

  /** Startup: recovery, then reconciliation; an exception ends it early. */
  method Startup(h: Host, boot: bool, texts: Texts) returns (r: Result)
    requires h.Valid()
    modifies h
    ensures h.Valid() && h.Pending() <= old(h.Pending())
    ensures |h.history| <= |old(h.history)|
    ensures old(RunsBounded(h.Now())) ==> RunsBounded(h.Now())
    ensures h.Quiet() ==> Restarted(old(h.Now()), h.Now(), r, boot, texts)
    ensures h.Quiet() && !r.Done? && old(Startable(h.Now())) ==> h.Faulted()
  {
    if boot {
      h.Boot();
    }
    ghost var start := h.Now();
    var recovered;
    r, recovered := RecoverIncompleteTransaction(h);
    ghost var recovery, settled := r, h.Now();
    if r.Done? {
      var orphans;
      r, orphans := ReconcileState(h, texts);
    }
    if h.Quiet() {
      StartupRestarts(old(h.Now()), start, settled, h.Now(), recovery, recovered, r, h.historyAvailable, boot, texts);
    }
  }

  /** Recovery and then reconciliation are a startup. */
  lemma StartupRestarts(pre: State, start: State, settled: State, post: State, recovery: Result, recovered: bool, r: Result,
                        historyAvailable: bool, boot: bool, texts: Texts)
    requires start == if boot then pre.(live := Booted(pre.yaml)) else pre
    requires if start.journal.Some? then Taken(start, settled, recovery, recovered, historyAvailable)
             else recovery.Done? && !recovered && settled == start
    requires if recovery.Done?
             then post == settled.(metadata := post.metadata) && Settles(settled.yaml, settled.metadata, post.metadata, r, texts)
             else post == settled && r == recovery
    ensures Restarted(pre, post, r, boot, texts)
  {
  }

  method ExecuteEdit(h: Host, id: Id, change: Editing, texts: Texts) returns (r: Result)
    requires h.Valid()
    modifies h
    ensures Orderly(h)
    ensures old(RunsBounded(h.Now())) ==> RunsBounded(h.Now())
    ensures old(h.journal).Some? ==> Blocked(h, r)
    ensures h.Quiet() && old(h.journal) == None ==>
              Performed(old(h.Now()), h.Now(), r, IntendedEdit(old(h.Now()), id, change, texts), old(SettingOf(h)), h.Pending())
  {
    match change
    case Toggling(enabled) => r := SetInitialState(h, id, enabled);
    case Rescheduling(stamp, at, template) => r := RescheduleAutomation(h, id, stamp, at, template, texts);
    case Bounding(limit) => r := SetMaxRunsTo(h, id, limit);
    case ReplacingActions(actions, sourceText) => r := ReplaceAutomationActions(h, id, actions, sourceText);
    case ReplacingSection(section, values, sourceText) =>
      r := ReplaceAutomationSection(h, id, section, values, sourceText);
  }

  /** Where a run stands between two commands. */
  datatype Moment = Moment(state: State, setting: Setting)

  function MomentOf(h: Host): Moment
    reads h
  {
    Moment(h.Now(), SettingOf(h))
  }

  /**
   A command that met no external editor: over an open transaction everything
   but a restart leaves journal, file, history and live configuration alone,
   and a restart from which recovery is possible fails only by a fault.
   */
  predicate Leads(before: Moment, after: Moment, r: Result, command: Command, texts: Texts) {
    && before.setting.limit >= 1 && after.setting.limit == before.setting.limit
    && after.setting.available == before.setting.available && after.setting.pending <= before.setting.pending
    && (if before.state.journal == None
        then Ran(before.state, after.state, r, command, Intended(before.state, command, texts), before.setting,
                 after.setting.pending, texts)
        else Spared(before.state, after.state, r, command, texts))
    && (command.Restarting? && !r.Done? && Startable(before.state) ==> after.setting.pending < before.setting.pending)
  }

  /** The `i`-th command of a run led on. */
  predicate Links(moments: seq<Moment>, results: seq<Result>, commands: seq<Command>, texts: Texts, i: nat)
    requires i < |results| == |commands| < |moments|
  {
    Leads(moments[i], moments[i + 1], results[i], commands[i], texts)
  }

  /** A run of these commands, with their results. */
  predicate Chain(moments: seq<Moment>, results: seq<Result>, commands: seq<Command>, texts: Texts) {
    && |results| == |commands| && |moments| == |commands| + 1
    && forall i :: 0 <= i < |commands| ==> Links(moments, results, commands, texts, i)
  }

  lemma ChainGoesOn(moments: seq<Moment>, results: seq<Result>, commands: seq<Command>, moment: Moment, r: Result,
                    command: Command, texts: Texts)
    requires Chain(moments, results, commands, texts)
    requires Leads(moments[|commands|], moment, r, command, texts)
    ensures Chain(moments + [moment], results + [r], commands + [command], texts)
  {
    forall i | 0 <= i < |commands|
      ensures Links(moments + [moment], results + [r], commands + [command], texts, i)
    {
      assert Links(moments, results, commands, texts, i);
    }
  }

  method ExecuteDirect(h: Host, command: Command, texts: Texts) returns (r: Result)
    requires h.Valid() && (command.Creating? || command.Duplicating? || command.Deleting? || command.Editing?)
    modifies h
    ensures Orderly(h)
    ensures old(RunsBounded(h.Now())) && Sensible(command) ==> RunsBounded(h.Now())
    ensures old(h.journal).Some? ==> Blocked(h, r)
    ensures h.Quiet() && old(h.journal) == None ==>
              Performed(old(h.Now()), h.Now(), r, Intended(old(h.Now()), command, texts), old(SettingOf(h)), h.Pending())
  {
    match command
    case Creating(id, config, scheduledFor, once, maxRuns) => r := AutomationExecutor.Create(h, id, config, scheduledFor, once, maxRuns);
    case Duplicating(id, newId) => r := Duplicate(h, id, newId);
    case Deleting(id) => r := AutomationExecutor.Delete(h, id);
    case Editing(id, change) => r := ExecuteEdit(h, id, change, texts);
  }

  /** What any command keeps, and that it leads to the next moment. */
  twostate predicate Executed(h: Host, r: Result, command: Command, texts: Texts)
    reads h
  {
    && h.Valid() && h.Pending() <= old(h.Pending())
    && (|h.history| <= |old(h.history)| || |h.history| <= h.limit)
    && (old(RunsBounded(h.Now())) && Sensible(command) ==> RunsBounded(h.Now()))
    && (h.Quiet() ==> Leads(old(MomentOf(h)), MomentOf(h), r, command, texts))
  }

  method ExecuteRecording(h: Host, id: Id, texts: Texts) returns (r: Result)
    requires h.Valid()
    modifies h
    ensures Orderly(h) && Executed(h, r, RecordingRun(id), texts)
  {
    var deleted;
    r, deleted := RecordRun(h, id);
  }

  method ExecuteCounting(h: Host, id: Id, texts: Texts) returns (r: Result)
    requires h.Valid()
    modifies h
    ensures Orderly(h) && Executed(h, r, CountingRun(id), texts)
  {
    var deleteNow;
    r, deleteNow := CountRun(h, id);
  }

  method ExecuteExpiring(h: Host, due: Stamp -> bool, texts: Texts) returns (r: Result)
    requires h.Valid()
    modifies h
    ensures Orderly(h) && Executed(h, r, Expiring(due), texts)
  {
    var expired;
    r, expired := CleanupExpired(h, due);
  }

  method ExecuteUndoing(h: Host, texts: Texts) returns (r: Result)
    requires h.Valid()
    modifies h
    ensures Orderly(h) && Executed(h, r, Undoing, texts)
  {
    r := RollbackLastChange(h);
  }

  /** One command, whatever it is and whatever happens to it. */
  method Execute(h: Host, command: Command, texts: Texts) returns (r: Result)
    requires h.Valid()
    modifies h
    ensures !command.Restarting? ==> Orderly(h)
    ensures Executed(h, r, command, texts)
  {
    match command
    case RecordingRun(id) => r := ExecuteRecording(h, id, texts);
    case CountingRun(id) => r := ExecuteCounting(h, id, texts);
    case Expiring(due) => r := ExecuteExpiring(h, due, texts);
    case Undoing => r := ExecuteUndoing(h, texts);
    case Restarting(boot) => r := Startup(h, boot, texts);
    case _ => r := ExecuteDirect(h, command, texts);
  }

  // ----- crash atomicity ---------------------------------------------------------------

  /** Between a command and the first completed startup after it. */
  predicate Recoverable(pre: State, now: State, goal: Option<Goal>, committed: bool) {
    if now.journal.Some? then !committed && goal.Some? && Interrupted(pre, now, goal.value)
    else if committed then goal.Some? && now.yaml == Saved(goal.value.automations)
    else || Load(now.yaml) == Load(pre.yaml)
         || (goal.Some? && KeptOnRecovery(goal.value.operation) && now.yaml == Saved(goal.value.automations))
  }

  /** The command got as far as clearing its journal. */
  predicate HasCommitted(left: State, goal: Option<Goal>) {
    goal.Some? && left.journal == None && left.yaml == Saved(goal.value.automations)
  }

  lemma RanIsRecoverable(pre: State, post: State, r: Result, command: Command, goal: Option<Goal>, setting: Setting, pending: nat,
                         texts: Texts)
    requires setting.limit >= 1 && Ran(pre, post, r, command, goal, setting, pending, texts)
    requires pre.journal == None
    ensures
      var committed := HasCommitted(post, goal);
      && Recoverable(pre, post, goal, committed)
      && (committed ==> r.Done? || command.Undoing? || Load(pre.yaml) == Some(goal.value.automations))
      && (r.Done? && goal.Some? ==> committed)
      && (goal.Some? ==> LeavesMetadata(pre.metadata, post.metadata, goal.value))
  {
  }

  /** Under that condition an interrupted transaction is always recognised, and stays recoverable. */
  lemma InterruptedIsStartable(pre: State, now: State, goal: Goal)
    requires Interrupted(pre, now, goal) && Resumable(pre, goal)
    ensures
      var t := now.journal.value;
      var file := RecoveredFile(now.yaml, t);
      && Load(now.yaml).Some?
      && file.Some?
      && (Load(file.value) == Load(pre.yaml) || (KeptOnRecovery(goal.operation) && file.value == Saved(goal.automations)))
      && file.value in {pre.yaml, Saved(goal.automations), Saved(t.beforeAutomations)}
  {
  }

  /** The metadata is on its way from what the command left to what a startup makes of that. */
  predicate OnItsWay(left: Metadata, now: State, texts: Texts) {
    if now.journal.Some? then now.metadata == left
    else Load(now.yaml).Some? && Reconciled(Load(now.yaml).value, now.metadata, texts) == Reconciled(Load(now.yaml).value, left, texts)
  }

  /** The command was interrupted, and is neither a deletion nor an expiry. */
  predicate TakesBack(left: State) {
    left.journal.Some? && left.journal.value.operation !in {Operation.Delete, Operation.Expire}
  }

  /** Only what is taken back changes the file the command left. */
  predicate FileOnItsWay(pre: State, left: State, now: State) {
    && (now.journal.Some? ==> now.journal == left.journal)
    && if TakesBack(left) then now.journal == None ==> Load(now.yaml) == Load(pre.yaml) else now.yaml == left.yaml
  }

  /** A state from which the next startup goes on. */
  predicate Resuming(pre: State, left: State, now: State, goal: Option<Goal>, texts: Texts) {
    && Recoverable(pre, now, goal, HasCommitted(left, goal)) && OnItsWay(left.metadata, now, texts)
    && FileOnItsWay(pre, left, now)
  }

  lemma RestartKeepsFile(pre: State, left: State, now: State, next: State, r: Result, boot: bool, goal: Option<Goal>, texts: Texts)
    requires FileOnItsWay(pre, left, now) && Restarted(now, next, r, boot, texts)
    requires now.journal.Some? ==> goal.Some? && Interrupted(pre, now, goal.value) && Resumable(pre, goal.value)
    ensures FileOnItsWay(pre, left, next)
  {
    if now.journal.Some? {
      InterruptedIsStartable(pre, now, goal.value);
    }
  }

  lemma SettledOnItsWay(file: File, left: Metadata, before: Metadata, after: Metadata, r: Result, texts: Texts)
    requires Load(file).Some? && Settles(file, before, after, r, texts)
    requires Reconciled(Load(file).value, before, texts) == Reconciled(Load(file).value, left, texts)
    ensures Reconciled(Load(file).value, after, texts) == Reconciled(Load(file).value, left, texts)
    ensures r.Done? ==> after == Reconciled(Load(file).value, left, texts)
  {
    ReconciliationResumes(Load(file).value, before, after, texts);
  }

  lemma ResumingIsStartable(pre: State, left: State, now: State, goal: Option<Goal>, texts: Texts)
    requires Load(pre.yaml).Some? && (goal.Some? ==> Resumable(pre, goal.value)) && Resuming(pre, left, now, goal, texts)
    ensures Startable(now)
  {
    if now.journal.Some? {
      InterruptedIsStartable(pre, now, goal.value);
    }
  }

  /** Every startup leads to such a state again, and a completed one to the end. */
  lemma RestartGoesOn(pre: State, left: State, now: State, next: State, r: Result, boot: bool, goal: Option<Goal>, texts: Texts)
    requires Load(pre.yaml).Some? && (goal.Some? ==> Resumable(pre, goal.value))
    requires Resuming(pre, left, now, goal, texts) && Restarted(now, next, r, boot, texts)
    ensures Resuming(pre, left, next, goal, texts)
    ensures r.Done? ==>
              && next.journal == None && Load(next.yaml).Some?
              && next.metadata == Reconciled(Load(next.yaml).value, left.metadata, texts)
              && (boot ==> InSync(next))
  {
    var file := now.yaml;
    if now.journal.Some? {
      InterruptedIsStartable(pre, now, goal.value);
      file := RecoveredFile(now.yaml, now.journal.value).value;
    }
    if next.journal == None {
      SettledOnItsWay(file, left.metadata, now.metadata, next.metadata, r, texts);
    }
    RestartKeepsFile(pre, left, now, next, r, boot, goal, texts);
  }

  /**
   What is found once a startup after the command has completed: an empty
   journal, no metadata that disagrees with the file, and exactly the old list
   or exactly the intended one: the old one after an interruption, except that a
   deletion or expiry ends with the list it left in the file; and without an
   interruption the list that was left, which is the intended one if the command
   committed. The metadata is what startup makes of the old or the new metadata,
   which may belong to the other list.
   */
  predicate Recovered(pre: State, left: State, r: Result, final: State, command: Command, goal: Option<Goal>, texts: Texts) {
    && final.journal == None && Load(final.yaml).Some?
    && EntriesAgree(Load(final.yaml).value, final.metadata, texts)
    && final.metadata == Reconciled(Load(final.yaml).value, left.metadata, texts)
    && (goal.Some? ==> LeavesMetadata(pre.metadata, left.metadata, goal.value))
    && (r.Done? && goal.Some? ==> HasCommitted(left, goal))
    && Load(final.yaml) == Load(if TakesBack(left) then pre.yaml else left.yaml)
    && if HasCommitted(left, goal)
       then && Load(final.yaml) == Some(goal.value.automations)
            && (r.Done? || command.Undoing? || Load(pre.yaml) == Some(goal.value.automations))
       else || Load(final.yaml) == Load(pre.yaml)
            || (goal.Some? && goal.value.operation in {Operation.Delete, Operation.Expire}
                && Load(final.yaml) == Some(goal.value.automations))
  }

  /** A command without an open transaction, and any startups after it, some of which may be cut off. */
  ghost predicate Recovery(moments: seq<Moment>, results: seq<Result>, command: Command, restarts: seq<Command>, texts: Texts) {
    && Chain(moments, results, [command] + restarts, texts)
    && (forall c :: c in restarts ==> c.Restarting?)
    && moments[0].state.journal == None && Load(moments[0].state.yaml).Some?
    && var goal := Intended(moments[0].state, command, texts);
       goal.Some? ==> Resumable(moments[0].state, goal.value)
  }

  lemma CommandIsRecoverable(moments: seq<Moment>, results: seq<Result>, command: Command, restarts: seq<Command>, texts: Texts)
    requires Recovery(moments, results, command, restarts, texts)
    ensures
      var pre, left, goal := moments[0].state, moments[1].state, Intended(moments[0].state, command, texts);
      && Resuming(pre, left, left, goal, texts)
      && (HasCommitted(left, goal) ==> results[0].Done? || command.Undoing? || Load(pre.yaml) == Some(goal.value.automations))
      && (results[0].Done? && goal.Some? ==> HasCommitted(left, goal))
      && (goal.Some? ==> LeavesMetadata(pre.metadata, left.metadata, goal.value))
  {
    assert Links(moments, results, [command] + restarts, texts, 0);
    RanIsRecoverable(moments[0].state, moments[1].state, results[0], command, Intended(moments[0].state, command, texts),
                     moments[0].setting, moments[1].setting.pending, texts);
  }

  /** A run in which only startups follow the first command, which left a state to go on from. */
  predicate Restarts(pre: State, left: State, goal: Option<Goal>, moments: seq<Moment>, results: seq<Result>,
                     commands: seq<Command>, texts: Texts)
  {
    && Load(pre.yaml).Some? && (goal.Some? ==> Resumable(pre, goal.value))
    && Chain(moments, results, commands, texts) && commands != []
    && (forall i :: 1 <= i < |commands| ==> commands[i].Restarting?)
    && Resuming(pre, left, moments[1].state, goal, texts)
  }

  lemma NextRestart(pre: State, left: State, goal: Option<Goal>, moments: seq<Moment>, results: seq<Result>,
                    commands: seq<Command>, n: nat, texts: Texts)
    requires Restarts(pre, left, goal, moments, results, commands, texts) && 1 <= n < |commands|
    requires Resuming(pre, left, moments[n].state, goal, texts)
    ensures
      var next := moments[n + 1].state;
      && Resuming(pre, left, next, goal, texts)
      && (results[n].Done? ==>
            && next.journal == None && Load(next.yaml).Some?
            && next.metadata == Reconciled(Load(next.yaml).value, left.metadata, texts)
            && (commands[n].boot ==> InSync(next)))
  {
    assert Links(moments, results, commands, texts, n);
    RestartGoesOn(pre, left, moments[n].state, moments[n + 1].state, results[n], commands[n].boot, goal, texts);
  }

  lemma {:induction false} RestartsGoOn(pre: State, left: State, goal: Option<Goal>, moments: seq<Moment>, results: seq<Result>,
                                        commands: seq<Command>, n: nat, texts: Texts)
    requires Restarts(pre, left, goal, moments, results, commands, texts) && 1 <= n <= |commands|
    ensures Resuming(pre, left, moments[n].state, goal, texts)
  {
    if n > 1 {
      RestartsGoOn(pre, left, goal, moments, results, commands, n - 1, texts);
      NextRestart(pre, left, goal, moments, results, commands, n - 1, texts);
    }
  }

  /** The next startup fails only by a fault. */
  lemma RecoveryIsStartable(moments: seq<Moment>, results: seq<Result>, command: Command, restarts: seq<Command>, texts: Texts)
    requires Recovery(moments, results, command, restarts, texts)
    ensures Startable(moments[|restarts| + 1].state)
  {
    CommandIsRecoverable(moments, results, command, restarts, texts);
    RestartsGoOn(moments[0].state, moments[1].state, Intended(moments[0].state, command, texts), moments, results,
                 [command] + restarts, |restarts| + 1, texts);
    ResumingIsStartable(moments[0].state, moments[1].state, moments[|restarts| + 1].state,
                        Intended(moments[0].state, command, texts), texts);
  }

  lemma RecoveryExtends(moments: seq<Moment>, results: seq<Result>, command: Command, restarts: seq<Command>,
                        moment: Moment, r: Result, boot: bool, texts: Texts)
    requires Recovery(moments, results, command, restarts, texts)
    requires Leads(moments[|restarts| + 1], moment, r, Restarting(boot), texts)
    ensures Recovery(moments + [moment], results + [r], command, restarts + [Restarting(boot)], texts)
  {
    ChainGoesOn(moments, results, [command] + restarts, moment, r, Restarting(boot), texts);
    assert [command] + restarts + [Restarting(boot)] == [command] + (restarts + [Restarting(boot)]);
  }

  /**
   Crash atomicity: whatever failed and however often it crashed, once a
   startup completes the command has happened or it has not.
   */
  lemma CrashIsAtomic(moments: seq<Moment>, results: seq<Result>, command: Command, restarts: seq<Command>, texts: Texts)
    requires Recovery(moments, results, command, restarts, texts)
    requires restarts != [] && results[|restarts|].Done?
    ensures
      var pre, left, final := moments[0].state, moments[1].state, moments[|restarts| + 1].state;
      && Recovered(pre, left, results[0], final, command, Intended(pre, command, texts), texts)
      && (restarts[|restarts| - 1].boot ==> InSync(final))
  {
    var n, commands := |restarts|, [command] + restarts;
    var pre, left, goal := moments[0].state, moments[1].state, Intended(moments[0].state, command, texts);
    CommandIsRecoverable(moments, results, command, restarts, texts);
    RestartsGoOn(pre, left, goal, moments, results, commands, n, texts);
    NextRestart(pre, left, goal, moments, results, commands, n, texts);
    ReconciledIsFixedPoint(Load(moments[n + 1].state.yaml).value, moments[1].state.metadata, texts);
  }

  /**
   What an interruption comes to, command by command: a deletion, an expiry or a
   last run is kept as far as it got into the file, so one that was written
   ends with the intended list; any other command is taken back.
   */
  lemma InterruptionIsDecided(moments: seq<Moment>, results: seq<Result>, command: Command, restarts: seq<Command>, texts: Texts)
    requires Recovery(moments, results, command, restarts, texts) && moments[1].state.journal.Some?
    requires restarts != [] && results[|restarts|].Done?
    ensures
      var pre, left, final := moments[0].state, moments[1].state, moments[|restarts| + 1].state;
      var goal := Intended(pre, command, texts);
      && goal.Some? && left.yaml in {pre.yaml, Saved(goal.value.automations), Saved(Load(pre.yaml).value)}
      && Load(final.yaml) == Load(if command.Deleting? || command.Expiring? || command.RecordingRun? then left.yaml else pre.yaml)
  {
    CommandIsRecoverable(moments, results, command, restarts, texts);
    CrashIsAtomic(moments, results, command, restarts, texts);
    IntendedOperation(moments[0].state, command, texts);
  }

  lemma IntendedOperation(s: State, command: Command, texts: Texts)
    requires Intended(s, command, texts).Some?
    ensures Intended(s, command, texts).value.operation in {Operation.Delete, Operation.Expire} <==>
            command.Deleting? || command.Expiring? || command.RecordingRun?
  {
  }

  /**
   Such a recovery always comes about: runs any command under any failures and
   crashes, then starts up until a startup completes, crashing as often as the
   schedule says.
   */
  method RunUntilRecovered(h: Host, command: Command, texts: Texts)
    returns (results: seq<Result>, restarts: seq<Command>, ghost moments: seq<Moment>)
    requires h.Valid() && h.Quiet() && h.journal == None && Load(h.yaml).Some?
    requires Intended(h.Now(), command, texts).Some? ==>
               Resumable(h.Now(), Intended(h.Now(), command, texts).value)
    modifies h
    ensures h.Valid() && Recovery(moments, results, command, restarts, texts)
    ensures moments[0] == old(MomentOf(h)) && moments[|restarts| + 1] == MomentOf(h)
    ensures restarts != [] && results[|restarts|].Done?
    ensures InSync(h.Now())
    ensures Recovered(old(h.Now()), moments[1].state, results[0], h.Now(), command, Intended(old(h.Now()), command, texts), texts)
  {
    var r;
    r, moments := Begin(h, command, texts);
    results, restarts, r := [r], [], Crashed;
    while r != Done
      invariant h.Valid() && h.Quiet() && Recovery(moments, results, command, restarts, texts)
      invariant moments[0] == old(MomentOf(h)) && moments[|restarts| + 1] == MomentOf(h)
      invariant r.Done? ==> restarts != [] && results[|restarts|].Done? && restarts[|restarts| - 1].boot
      decreases h.Pending(), if r.Done? then 0 else 1
    {
      RecoveryIsStartable(moments, results, command, restarts, texts);
      r := RestartOnce(h, texts);
      RecoveryExtends(moments, results, command, restarts, MomentOf(h), r, true, texts);
      results, restarts, moments := results + [r], restarts + [Restarting(true)], moments + [MomentOf(h)];
    }
    CrashIsAtomic(moments, results, command, restarts, texts);
  }

  method Begin(h: Host, command: Command, texts: Texts) returns (r: Result, ghost moments: seq<Moment>)
    requires h.Valid() && h.Quiet() && h.journal == None && Load(h.yaml).Some?
    requires Intended(h.Now(), command, texts).Some? ==>
               Resumable(h.Now(), Intended(h.Now(), command, texts).value)
    modifies h
    ensures h.Valid() && moments == [old(MomentOf(h)), MomentOf(h)] && Recovery(moments, [r], command, [], texts)
  {
    moments := [MomentOf(h)];
    r := Execute(h, command, texts);
    moments := moments + [MomentOf(h)];
    assert [command] + [] == [command];
  }

  method RestartOnce(h: Host, texts: Texts) returns (r: Result)
    requires h.Valid() && h.Quiet()
    modifies h
    ensures h.Valid() && Leads(old(MomentOf(h)), MomentOf(h), r, Restarting(true), texts)
    ensures h.Pending() <= old(h.Pending()) && (r.Done? || old(!Startable(h.Now())) || h.Faulted())
  {
    r := Execute(h, Restarting(true), texts);
  }

  // ----- any run at all ----------------------------------------------------------------

  /**
   Any commands in any order, restarts included, under any failures, crashes
   and external edits: as long as external editors never bring back bytes the
   file has had, no update is lost but by coincidence, and none at all if they
   never write bytes a transaction was about to write. Bounded automations stay
   within their limit, and the undo stack within its own. Without external
   edits, every command leads from one moment to the next.
   */
  method RunAll(h: Host, commands: seq<Command>, texts: Texts) returns (results: seq<Result>, ghost moments: seq<Moment>)
    requires h.Valid()
    modifies h
    ensures h.Valid()
    ensures !h.trace.replayed ==> forall o :: o in h.trace.overwrites ==> Entitled(o) || h.trace.Coincides(o)
    ensures !h.trace.replayed && h.trace.edits !! h.trace.intended ==> forall o :: o in h.trace.overwrites ==> Entitled(o)
    ensures |h.history| <= |old(h.history)| || |h.history| <= h.limit
    ensures old(RunsBounded(h.Now())) && (forall c :: c in commands ==> Sensible(c)) ==> RunsBounded(h.Now())
    ensures |results| == |commands| && |moments| == |commands| + 1
    ensures moments[0] == old(MomentOf(h)) && moments[|commands|] == MomentOf(h)
    ensures h.Quiet() ==> Chain(moments, results, commands, texts)
  {
    results, moments := [], [MomentOf(h)];
    for i := 0 to |commands|
      invariant h.Valid() && |results| == i && |moments| == i + 1
      invariant |h.history| <= |old(h.history)| || |h.history| <= h.limit
      invariant old(RunsBounded(h.Now())) && (forall c :: c in commands ==> Sensible(c)) ==> RunsBounded(h.Now())
      invariant moments[0] == old(MomentOf(h)) && moments[i] == MomentOf(h)
      invariant h.Quiet() ==> Chain(moments, results, commands[..i], texts)
    {
      var r := Execute(h, commands[i], texts);
      if h.Quiet() {
        ChainGoesOn(moments, results, commands[..i], MomentOf(h), r, commands[i], texts);
      }
      assert commands[..i + 1] == commands[..i] + [commands[i]];
      results, moments := results + [r], moments + [MomentOf(h)];
    }
    assert commands[..|commands|] == commands;
  }

  // ----- undo is a stack ----------------------------------------------------------------

  /** The entry `depth` below the top restores this list and metadata. */
  predicate Remembers(history: seq<HistoryEntry>, depth: nat, automations: seq<Automation>, metadata: Metadata) {
    0 < depth <= |history|
    && history[|history| - depth].automations == automations
    && history[|history| - depth].metadata == metadata
  }

  lemma PushRemembers(history: seq<HistoryEntry>, entry: HistoryEntry, limit: nat, depth: nat,
                      automations: seq<Automation>, metadata: Metadata)
    requires limit >= 1 && depth < limit
    requires if depth == 0 then entry.automations == automations && entry.metadata == metadata
             else Remembers(history, depth, automations, metadata)
    ensures Remembers(Pushed(history, entry, limit), depth + 1, automations, metadata)
  {
    var all, pushed := history + [entry], Pushed(history, entry, limit);
    KeepLastIsSuffix(all, limit);
    assert pushed == all[|all| - |pushed|..];
    assert pushed[|pushed| - (depth + 1)] == all[|all| - (depth + 1)];
  }

  /** No transaction is open, and `depth` undos lead back to this list and metadata. */
  predicate LeadsBack(s: State, depth: nat, automations: seq<Automation>, metadata: Metadata) {
    && s.journal == None && Load(s.yaml).Some?
    && if depth == 0 then Load(s.yaml).value == automations && s.metadata == metadata
       else Remembers(s.history, depth, automations, metadata)
  }

  /** A successful command leaves a parsable file, and its undo entry on top when it changed the file. */
  lemma RanRemembers(pre: State, post: State, command: Command, goal: Option<Goal>, setting: Setting, pending: nat,
                     depth: nat, automations: seq<Automation>, metadata: Metadata, texts: Texts)
    requires setting.limit >= 1 && setting.available && Ran(pre, post, Done, command, goal, setting, pending, texts)
    requires !command.Undoing? && !command.Restarting? && LeadsBack(pre, depth, automations, metadata)
    requires goal.Some? ==> depth < setting.limit
    ensures goal.Some? ==> LeadsBack(post, depth + 1, automations, metadata)
    ensures goal == None ==> post.journal == None && post.yaml == pre.yaml && post.history == pre.history
    ensures goal == None && depth > 0 ==> LeadsBack(post, depth, automations, metadata)
  {
    if goal.Some? {
      var entry := UndoEntry(pre, goal.value, setting.createdAt);
      PushRemembers(pre.history, entry, setting.limit, depth, automations, metadata);
    }
  }

  /** An undo that succeeds leads one step back; it fails only by a fault. */
  lemma UndoLeadsBack(pre: State, post: State, r: Result, setting: Setting, pending: nat,
                      depth: nat, automations: seq<Automation>, metadata: Metadata, texts: Texts)
    requires setting.limit >= 1 && Ran(pre, post, r, Undoing, UndoGoal(pre), setting, pending, texts)
    requires depth > 0 && LeadsBack(pre, depth, automations, metadata)
    ensures if r.Done? then LeadsBack(post, depth - 1, automations, metadata) else pending < setting.pending
  {
  }

  /** The mark says whether the `i`-th command was meant to change the file. */
  predicate Meant(marks: seq<bool>, moments: seq<Moment>, commands: seq<Command>, texts: Texts, i: nat)
    requires i < |marks| == |commands| < |moments|
  {
    marks[i] == Intended(moments[i].state, commands[i], texts).Some?
  }

  predicate Marked(marks: seq<bool>, moments: seq<Moment>, commands: seq<Command>, texts: Texts) {
    |marks| == |commands| < |moments| && forall i :: 0 <= i < |marks| ==> Meant(marks, moments, commands, texts, i)
  }

  /** How many of the first `n` commands were meant to change the file. */
  function Changes(marks: seq<bool>, n: nat): nat
    requires n <= |marks|
  {
    if n == 0 then 0 else Changes(marks, n - 1) + if marks[n - 1] then 1 else 0
  }

  /** The `k`-th command is the first that was. */
  predicate FirstChange(marks: seq<bool>, k: nat) {
    k < |marks| && marks[k] && forall i :: 0 <= i < k ==> !marks[i]
  }

  /** Commands that all succeeded, none of them an undo or a restart, from a state without an open transaction. */
  predicate Succeeded(moments: seq<Moment>, results: seq<Result>, commands: seq<Command>, marks: seq<bool>, texts: Texts) {
    && Chain(moments, results, commands, texts) && Marked(marks, moments, commands, texts)
    && (forall i :: 0 <= i < |commands| ==> results[i] == Done && !commands[i].Undoing? && !commands[i].Restarting?)
    && moments[0].state.journal == None && Load(moments[0].state.yaml).Some? && moments[0].setting.available
  }

  lemma {:induction false} SettingIsKept(moments: seq<Moment>, results: seq<Result>, commands: seq<Command>, texts: Texts, n: nat)
    requires Chain(moments, results, commands, texts) && n <= |commands|
    ensures moments[n].setting.limit == moments[0].setting.limit && moments[n].setting.available == moments[0].setting.available
    ensures moments[n].setting.pending <= moments[0].setting.pending
  {
    if n > 0 {
      SettingIsKept(moments, results, commands, texts, n - 1);
      assert Links(moments, results, commands, texts, n - 1);
    }
  }

  /** One step of such a run. */
  lemma StepLeadsBack(moments: seq<Moment>, results: seq<Result>, commands: seq<Command>, marks: seq<bool>, texts: Texts, n: nat,
                      depth: nat, automations: seq<Automation>, metadata: Metadata)
    requires Succeeded(moments, results, commands, marks, texts) && n < |commands|
    requires LeadsBack(moments[n].state, depth, automations, metadata)
    requires marks[n] ==> depth < moments[0].setting.limit
    ensures
      var next := moments[n + 1].state;
      if marks[n] then LeadsBack(next, depth + 1, automations, metadata)
      else && next.journal == None && next.yaml == moments[n].state.yaml
           && (depth > 0 ==> LeadsBack(next, depth, automations, metadata))
  {
    var before, after, command := moments[n], moments[n + 1], commands[n];
    SettingIsKept(moments, results, commands, texts, n);
    assert Links(moments, results, commands, texts, n) && Meant(marks, moments, commands, texts, n);
    RanRemembers(before.state, after.state, command, Intended(before.state, command, texts), before.setting, after.setting.pending,
                 depth, automations, metadata, texts);
  }

  lemma UndoneLeadsBack(before: Moment, after: Moment, r: Result, depth: nat, automations: seq<Automation>, metadata: Metadata,
                        texts: Texts)
    requires Leads(before, after, r, Undoing, texts)
    requires depth > 0 && LeadsBack(before.state, depth, automations, metadata)
    ensures if r.Done? then LeadsBack(after.state, depth - 1, automations, metadata)
            else after.setting.pending < before.setting.pending
  {
    UndoLeadsBack(before.state, after.state, r, before.setting, after.setting.pending, depth, automations, metadata, texts);
  }

  lemma {:induction false} NothingChanged(moments: seq<Moment>, results: seq<Result>, commands: seq<Command>, marks: seq<bool>,
                                          texts: Texts, k: nat, n: nat)
    requires Succeeded(moments, results, commands, marks, texts) && FirstChange(marks, k) && n <= k
    ensures moments[n].state.journal == None && moments[n].state.yaml == moments[0].state.yaml
    ensures Changes(marks, n) == 0
  {
    if n > 0 {
      var pre := moments[n - 1].state;
      NothingChanged(moments, results, commands, marks, texts, k, n - 1);
      StepLeadsBack(moments, results, commands, marks, texts, n - 1, 0, Load(pre.yaml).value, pre.metadata);
    }
  }

  /** The history leads back to the state before the first change, as long as it can hold all changes. */
  lemma {:induction false} ChangesLeadBack(moments: seq<Moment>, results: seq<Result>, commands: seq<Command>, marks: seq<bool>,
                                           texts: Texts, k: nat, n: nat)
    requires Succeeded(moments, results, commands, marks, texts) && FirstChange(marks, k)
    requires k <= n <= |commands| && Changes(marks, n) <= moments[0].setting.limit
    ensures LeadsBack(moments[n].state, Changes(marks, n), Load(moments[0].state.yaml).value, moments[k].state.metadata)
    ensures n > k ==> Changes(marks, n) > 0
  {
    if n == k {
      NothingChanged(moments, results, commands, marks, texts, k, k);
    } else {
      ChangesLeadBack(moments, results, commands, marks, texts, k, n - 1);
      StepLeadsBack(moments, results, commands, marks, texts, n - 1, Changes(marks, n - 1), Load(moments[0].state.yaml).value,
                    moments[k].state.metadata);
    }
  }

  function Undos(n: nat): seq<Command> {
    seq(n, _ => Undoing)
  }

  lemma {:induction false} UndosLeadBack(moments: seq<Moment>, results: seq<Result>, depth: nat, automations: seq<Automation>,
                                         metadata: Metadata, texts: Texts, n: nat)
    requires Chain(moments, results, Undos(|results|), texts) && n <= |results| <= depth
    requires forall i :: 0 <= i < n ==> results[i] == Done
    requires LeadsBack(moments[0].state, depth, automations, metadata)
    ensures LeadsBack(moments[n].state, depth - n, automations, metadata)
  {
    if n > 0 {
      UndosLeadBack(moments, results, depth, automations, metadata, texts, n - 1);
      assert Links(moments, results, Undos(|results|), texts, n - 1);
      UndoneLeadsBack(moments[n - 1], moments[n], Done, depth - (n - 1), automations, metadata, texts);
    }
  }

  /**
   Undo is a stack: after commands that all succeeded, as many undos that
   succeed restore the list from before the first command and the metadata from
   before the first change, as long as the history holds all changes. Runs that
   were only counted make no difference to that.
   */
  lemma UndoIsAStack(moments: seq<Moment>, results: seq<Result>, commands: seq<Command>, marks: seq<bool>, k: nat,
                     later: seq<Moment>, undone: seq<Result>, texts: Texts)
    requires Succeeded(moments, results, commands, marks, texts) && FirstChange(marks, k)
    requires |undone| == Changes(marks, |commands|) <= moments[0].setting.limit
    requires Chain(later, undone, Undos(|undone|), texts) && later[0] == moments[|commands|]
    requires forall i :: 0 <= i < |undone| ==> undone[i] == Done
    ensures
      var final := later[|undone|].state;
      Load(final.yaml) == Load(moments[0].state.yaml) && final.metadata == moments[k].state.metadata
  {
    var depth := |undone|;
    ChangesLeadBack(moments, results, commands, marks, texts, k, |commands|);
    UndosLeadBack(later, undone, depth, Load(moments[0].state.yaml).value, moments[k].state.metadata, texts, depth);
  }

  /** Undos that meet no fault all succeed. */
  lemma UndosSucceed(moments: seq<Moment>, results: seq<Result>, depth: nat, automations: seq<Automation>, metadata: Metadata,
                     texts: Texts)
    requires Chain(moments, results, Undos(|results|), texts) && 0 < |results| <= depth
    requires forall i :: 0 <= i < |results| - 1 ==> results[i] == Done
    requires LeadsBack(moments[0].state, depth, automations, metadata) && moments[0].setting.pending == 0
    ensures results[|results| - 1] == Done
  {
    var n := |results| - 1;
    UndosLeadBack(moments, results, depth, automations, metadata, texts, n);
    SettingIsKept(moments, results, Undos(|results|), texts, n);
    assert Links(moments, results, Undos(|results|), texts, n);
    UndoneLeadsBack(moments[n], moments[n + 1], results[n], depth - n, automations, metadata, texts);
  }

  /** The results of commands that were run until one failed. */
  predicate UntilFailure(results: seq<Result>, commands: seq<Command>) {
    && |results| <= |commands|
    && (forall i :: 0 <= i < |results| - 1 ==> results[i] == Done)
    && (|results| < |commands| ==> results != [] && results[|results| - 1] != Done)
  }

  method RunWhileDone(h: Host, commands: seq<Command>, texts: Texts) returns (results: seq<Result>, moments: seq<Moment>)
    requires h.Valid() && h.Quiet()
    modifies h
    ensures h.Valid()
    ensures UntilFailure(results, commands) && Chain(moments, results, commands[..|results|], texts)
    ensures moments[0] == old(MomentOf(h)) && moments[|results|] == MomentOf(h)
  {
    results, moments := [], [MomentOf(h)];
    while |results| < |commands| && (results == [] || results[|results| - 1] == Done)
      invariant h.Valid() && |results| <= |commands| && Chain(moments, results, commands[..|results|], texts)
      invariant moments[0] == old(MomentOf(h)) && moments[|results|] == MomentOf(h)
      invariant forall i :: 0 <= i < |results| - 1 ==> results[i] == Done
      decreases |commands| - |results|
    {
      var command := commands[|results|];
      var r := Execute(h, command, texts);
      ChainGoesOn(moments, results, commands[..|results|], MomentOf(h), r, command, texts);
      assert commands[..|results|] + [command] == commands[..|results| + 1];
      results, moments := results + [r], moments + [MomentOf(h)];
    }
  }

  function MarksOf(moments: seq<Moment>, commands: seq<Command>, texts: Texts): (marks: seq<bool>)
    requires |commands| < |moments|
    ensures Marked(marks, moments, commands, texts)
  {
    seq(|commands|, i requires 0 <= i < |commands| < |moments| => Intended(moments[i].state, commands[i], texts).Some?)
  }

  /** All commands succeeded and left no fault to meet, and the history holds all changes, the first of which was the `k`-th. */
  predicate Restorable(moments: seq<Moment>, results: seq<Result>, commands: seq<Command>, marks: seq<bool>, texts: Texts, k: nat) {
    && Succeeded(moments, results, commands, marks, texts) && FirstChange(marks, k)
    && Changes(marks, |commands|) <= moments[0].setting.limit && moments[|commands|].setting.pending == 0
  }

  lemma UndosRestore(moments: seq<Moment>, results: seq<Result>, commands: seq<Command>, marks: seq<bool>, k: nat,
                     later: seq<Moment>, undone: seq<Result>, texts: Texts)
    requires Restorable(moments, results, commands, marks, texts, k)
    requires Chain(later, undone, Undos(|undone|), texts) && later[0] == moments[|commands|]
    requires UntilFailure(undone, Undos(Changes(marks, |commands|)))
    ensures
      var final := later[|undone|].state;
      Load(final.yaml) == Load(moments[0].state.yaml) && final.metadata == moments[k].state.metadata
  {
    var depth := Changes(marks, |commands|);
    ChangesLeadBack(moments, results, commands, marks, texts, k, |commands|);
    UndosSucceed(later, undone, depth, Load(moments[0].state.yaml).value, moments[k].state.metadata, texts);
    UndoIsAStack(moments, results, commands, marks, k, later, undone, texts);
  }

  /**
   Runs commands and undoes every one that was meant to change the file.
   Without faults none of the undos fails, so the beginning is restored.
   */
  method UndoEverything(h: Host, commands: seq<Command>, texts: Texts)
    returns (results: seq<Result>, moments: seq<Moment>, marks: seq<bool>, undone: seq<Result>, later: seq<Moment>)
    requires h.Valid() && h.Quiet()
    modifies h
    ensures UntilFailure(results, commands) && Chain(moments, results, commands[..|results|], texts)
    ensures Marked(marks, moments, commands[..|results|], texts)
    ensures UntilFailure(undone, Undos(Changes(marks, |results|))) && Chain(later, undone, Undos(|undone|), texts)
    ensures moments[0] == old(MomentOf(h)) && later[0] == moments[|results|] && later[|undone|] == MomentOf(h)
    ensures forall k: nat :: Restorable(moments, results, commands, marks, texts, k) ==>
              Load(h.yaml) == old(Load(h.yaml)) && h.metadata == moments[k].state.metadata
  {
    results, moments := RunWhileDone(h, commands, texts);
    marks := MarksOf(moments, commands[..|results|], texts);
    var undos := Undos(Changes(marks, |results|));
    undone, later := RunWhileDone(h, undos, texts);
    assert undos[..|undone|] == Undos(|undone|);
    forall k: nat | Restorable(moments, results, commands, marks, texts, k)
      ensures Load(h.yaml) == old(Load(h.yaml)) && h.metadata == moments[k].state.metadata
    {
      UndosRestore(moments, results, commands, marks, k, later, undone, texts);
    }
  }

  // ----- bounded automations ---------------------------------------------------------------

  /** An automation in the file whose entry limits its runs. */
  predicate Bounded(s: State, id: Id) {
    Load(s.yaml).Some? && Present(Load(s.yaml).value, id) && id in s.metadata && s.metadata[id].maxRuns.Some?
  }

  /** Undisturbed, a recorded run counts one up, or deletes the automation when it was the last. */
  method RecordUndisturbed(h: Host, id: Id) returns (deleted: bool)
    requires h.Valid() && h.Quiet() && h.journal == None && h.Pending() == 0 && Bounded(h.Now(), id)
    modifies h
    ensures h.Valid() && h.journal == None && h.Pending() == 0
    ensures
      var entry := old(h.metadata[id]);
      && deleted == (entry.runCount + 1 >= entry.maxRuns.value)
      && (!deleted ==> h.yaml == old(h.yaml)
                       && h.metadata == old(h.metadata)[id := Counted(entry)])
      && (deleted ==> h.metadata == old(h.metadata) - {id}
                      && h.yaml == Saved(Filter(old(Load(h.yaml)).value, OtherThan(id))) && h.live == Load(h.yaml).value)
  {
    ghost var goal := DeleteGoal(h.Now(), id);
    assert goal.Some? && goal.value.metadata == h.metadata - {id};
    var r;
    r, deleted := RecordRun(h, id);
    assert r.Done?;
  }

  /** Starting from zero, the automation survives every recorded run before its limit and goes with the last. */
  method RecordUntilDeleted(h: Host, id: Id) returns (survived: nat)
    requires h.Valid() && h.Quiet() && h.journal == None && h.Pending() == 0 && Bounded(h.Now(), id)
    requires h.metadata[id].maxRuns.value >= 1 && h.metadata[id].runCount == 0
    modifies h
    ensures survived == old(h.metadata)[id].maxRuns.value - 1
    ensures Load(h.yaml) == Some(Filter(old(Load(h.yaml)).value, OtherThan(id))) && h.live == Load(h.yaml).value
    ensures h.metadata == old(h.metadata) - {id}
  {
    survived := 0;
    ghost var limit, start := h.metadata[id].maxRuns.value, h.metadata[id];
    var deleted := RecordUndisturbed(h, id);
    while !deleted
      invariant h.Valid() && h.journal == None && h.Pending() == 0 && survived < limit
      invariant !deleted ==>
                  && h.yaml == old(h.yaml) && survived + 1 < limit
                  && h.metadata == old(h.metadata)[id := start.(runCount := survived + 1, version := start.version + survived + 1)]
      invariant deleted ==>
                  && survived == limit - 1 && h.metadata == old(h.metadata) - {id}
                  && h.yaml == Saved(Filter(old(Load(h.yaml)).value, OtherThan(id))) && h.live == Load(h.yaml).value
      decreases limit - survived, !deleted
    {
      survived := survived + 1;
      deleted := RecordUndisturbed(h, id);
    }
  }
}
