/**
 The write-ahead protocol every mutating operation goes through: journal the
 intention, replace the file if it is unchanged, journal the write, push an
 undo entry; and the way back when a later step fails.
 */
module TransactionProtocol {
  import opened Common
  import opened Config
  import opened TransactionHost
  import opened TransactionOutcome
  import opened AutomationHistory

  /** The snapshot is what the file holds, nobody interferes, and no transaction is open. */
  ghost predicate Ready(h: Host, snapshot: Snapshot)
    reads h
  {
    && h.Quiet() && h.journal == None
    && Load(h.yaml) == Some(snapshot.automations) && snapshot.digest == DigestOf(h.yaml)
  }

  /** `t` is the record of carrying out `goal`. */
  predicate For(t: Transaction, goal: Goal) {
    t.operation == goal.operation && t.afterAutomations == goal.automations
  }

  /** Journals the transaction, replaces the file if it is unchanged, and journals that it did. */
  method WriteUnderJournal(h: Host, prepared: Transaction, ghost goal: Goal) returns (r: Result, written: Transaction)
    requires h.Valid() && h.journal == None
    requires prepared.state.Prepared? && prepared.createdAt < h.clock
    requires prepared.after == Some(DigestOf(Saved(prepared.afterAutomations)))
    requires !h.trace.replayed ==> Load(FileOf(prepared.before)) == Some(prepared.beforeAutomations)
    requires h.trace.author.Found? ==> prepared.before == DigestOf(h.yaml)
    modifies h`schedule, h`yaml, h`trace, h`journal
    ensures h.Valid()
    ensures r.Done? ==>
              && h.journal == Some(written)
              && written == prepared.(after := written.after, state := YamlWritten) && written.after.Some?
    ensures r != RaisedLate
    ensures old(Ready(h, Snapshot(prepared.beforeAutomations, prepared.before))) && For(prepared, goal) ==>
              if r.Done? then Opened(old(h.Now()), h.Now(), written, goal)
              else AllOrNothing(old(h.Now()), h.Now(), r, goal) && h.Faulted()
    ensures old(Ready(h, Snapshot(prepared.beforeAutomations, prepared.before))) ==> h.Took(r.Done?, 4)
    ensures h.Pending() <= old(h.Pending())
  {
    SmoothInStages(h.schedule, 1, 3);
    SmoothInStages(Later(h.schedule, 1), 2, 1);
    written := prepared;
    :- h.WriteJournal(prepared);
    var w := h.WriteContentIfUnchanged(prepared.afterAutomations, prepared.before, Some(prepared.beforeAutomations));
    if !w.Written? {
      if w.WriteCrashed? {
        return Crashed, written;
      }
      var current :- h.FileDigest();
      // Without a YAML write the prepared record has nothing to recover; any
      // other record is kept for startup recovery.
      if current == prepared.before || w == Conflict(false) {
        :- h.ClearJournal();
      }
      return Raised, written;
    }
    written := prepared.(after := Some(w.after), state := YamlWritten);
    :- h.WriteJournal(written);
    return Done, written;
  }

  /** Appends the undo entry of a written transaction; if that fails, takes the transaction back. */
  method RecordHistory(h: Host, t: Transaction, entry: HistoryEntry, ghost pre: State, ghost goal: Goal)
    returns (r: Result)
    requires h.Valid() && h.journal == Some(t) && t.state.YamlWritten?
    requires entry.createdAt == t.createdAt
    requires forall e :: e in h.history ==> e.createdAt < t.createdAt
    modifies h`schedule, h`yaml, h`trace, h`journal, h`history
    ensures h.Valid()
    ensures r != RaisedLate
    ensures r == Done ==> h.journal == Some(t) && h.history == Pushed(old(h.history), entry, h.limit)
    ensures r != Done ==> h.history == old(h.history)
    ensures old(RunsBounded(h.Now())) && WithinBounds(entry.metadata) ==> RunsBounded(h.Now())
    ensures h.Quiet() && old(Opened(pre, h.Now(), t, goal)) ==>
              if r.Done? then Opened(pre, h.Now(), t, goal)
              else AllOrNothing(pre, h.Now(), r, goal) && h.Faulted()
    ensures h.Pending() <= old(h.Pending())
  {
    r := Append(h, entry);
    if r.Done? {
      forall e | e in h.history
        ensures e in old(h.history) || e == entry
      {
        PushedHolds(old(h.history), entry, h.limit, e);
      }
    }
    if r.Raised? {
      :- RollbackTransaction(h, t);
      return Raised;
    }
  }

  method BeginTransaction(h: Host, operation: Operation, automationId: Id, snapshot: Snapshot,
                          updated: seq<Automation>, recordHistory: bool, ghost goal: Goal)
    returns (r: Result, transaction: Transaction)
    requires h.Valid()
    requires !h.trace.replayed ==> Load(FileOf(snapshot.digest)) == Some(snapshot.automations)
    requires h.trace.author.Found? ==> snapshot.digest == DigestOf(h.yaml)
    modifies h`schedule, h`yaml, h`trace, h`journal, h`history, h`clock
    ensures h.Valid()
    ensures old(h.journal).Some? ==> r == Raised && h.Now() == old(h.Now()) && h.trace == old(h.trace)
    ensures r.Done? ==>
              && h.journal == Some(transaction) && transaction.after.Some? && transaction.state.YamlWritten?
              && transaction.createdAt == old(h.clock) && transaction.operation == operation
              && h.history == (if recordHistory && h.historyAvailable
                               then Pushed(old(h.history),
                                           HistoryEntry(operation, automationId, old(h.clock), snapshot.automations, h.metadata),
                                           h.limit)
                               else old(h.history))
    ensures !r.Done? ==> h.history == old(h.history) && r != RaisedLate
    ensures old(RunsBounded(h.Now())) ==> RunsBounded(h.Now())
    ensures old(Ready(h, snapshot)) && goal.operation == operation && goal.automations == updated ==>
              if r.Done? then Opened(old(h.Now()), h.Now(), transaction, goal)
              else AllOrNothing(old(h.Now()), h.Now(), r, goal) && h.Faulted()
    ensures old(Ready(h, snapshot)) && !recordHistory ==> h.Took(r.Done?, 4)
    ensures h.Pending() <= old(h.Pending())
  {
    transaction := Transaction(operation, automationId, h.clock, snapshot.digest,
                               Some(DigestOf(Saved(updated))), snapshot.automations, updated, Prepared);
    if h.journal.Some? {
      return Raised, transaction;
    }
    var createdAt := h.Tick();
    var metadata := h.metadata;
    r, transaction := WriteUnderJournal(h, transaction, goal);
    if r.Done? && recordHistory && h.historyAvailable {
      var entry := HistoryEntry(operation, automationId, createdAt, snapshot.automations, metadata);
      r := RecordHistory(h, transaction, entry, old(h.Now()), goal);
    }
  }

  method RollbackTransaction(h: Host, t: Transaction) returns (r: Result)
    requires h.Valid() && h.journal == Some(t)
    requires t.state.YamlWritten? || Some(t.before) != t.after
    modifies h`schedule, h`yaml, h`trace, h`journal, h`history
    ensures h.Valid()
    ensures h.Pending() <= old(h.Pending())
    ensures h.journal == None || h.journal == old(h.journal)
    ensures r.Done? || r.RaisedLate? ==> h.journal == None
    ensures h.history in {old(h.history), Withdrawn(old(h.history), t.createdAt)}
    ensures t.operation == Rollback ==> h.history == old(h.history)
    ensures old(RunsBounded(h.Now())) ==> RunsBounded(h.Now())
    ensures h.Quiet() && old(Some(DigestOf(h.yaml))) == t.after ==>
              var back := Saved(t.beforeAutomations);
              && (r != Done ==> h.Faulted())
              && (h.journal == None ==> h.yaml == back)
              && h.yaml in {old(h.yaml), back}
              && (r.Raised? ==> h.journal == old(h.journal) && h.history == old(h.history))
    ensures h.Quiet() && t.after.Some? && old(Some(DigestOf(h.yaml))) != t.after ==>
              h.Now() == old(h.Now()) && (r.Raised? || r.Crashed?)
    ensures r.Done? && t.after.Some? ==>
              h.history == if t.operation != Rollback && h.historyAvailable
                           then Withdrawn(old(h.history), t.createdAt) else old(h.history)
    ensures r.RaisedLate? ==>
              t.operation != Rollback && h.historyAvailable && old(h.history) != []
              && old(h.history)[|old(h.history)| - 1].createdAt == t.createdAt
  {
    if t.after == None {
      r := h.ClearJournal();
      return;
    }
    var w := h.WriteContentIfUnchanged(t.beforeAutomations, t.after.value, None);
    if !w.Written? {
      return if w.WriteCrashed? then Crashed else Raised;
    }
    :- h.ClearJournal();
    if t.operation != Rollback && h.historyAvailable {
      r := PopIfCreatedAt(h, t.createdAt);
      if r.Raised? {
        return RaisedLate;
      }
      return;
    }
    return Done;
  }

  method CompleteTransaction(h: Host) returns (r: Result)
    requires h.Valid()
    modifies h`schedule, h`yaml, h`trace, h`journal
    ensures h.Valid() && h.OnlyEnvironment()
    ensures r == Done ==> h.journal == None
    ensures r != Done ==> h.journal == old(h.journal) && h.Faulted()
    ensures r != RaisedLate
    ensures h.Took(r.Done?, 1)
  {
    r := h.ClearJournal();
  }

  // ----- the steps after the write, shared by the operations ---------------------

  /** Reloads; if that fails, nothing but the file and the undo stack needs taking back. */
  method ReloadOrRollback(h: Host, t: Transaction, ghost pre: State, ghost goal: Goal) returns (r: Result)
    requires h.Valid() && h.journal == Some(t) && t.after.Some? && t.state.YamlWritten?
    modifies h`schedule, h`yaml, h`trace, h`journal, h`history, h`live
    ensures h.Valid()
    ensures r.Done? ==> h.journal == Some(t) && h.history == old(h.history)
    ensures h.history in {old(h.history), Withdrawn(old(h.history), t.createdAt)}
    ensures t.operation == Rollback ==> h.history == old(h.history)
    ensures old(RunsBounded(h.Now())) ==> RunsBounded(h.Now())
    ensures h.Quiet() && old(Opened(pre, h.Now(), t, goal)) ==>
              if r.Done? then Reloaded(pre, h.Now(), t, goal)
              else AllOrNothing(pre, h.Now(), r, goal) && h.Faulted() && (r.RaisedLate? ==> h.FaultedTwice())
    ensures h.Pending() <= old(h.Pending())
  {
    r := h.Reload();
    if r.Raised? {
      :- RollbackTransaction(h, t);
      return Raised;
    }
  }

  /** Takes a written transaction back after a later step failed, and reloads the old file. */
  method RollbackAndReload(h: Host, t: Transaction, ghost pre: State, ghost goal: Goal) returns (r: Result)
    requires h.Valid() && h.journal == Some(t) && t.after.Some? && t.state.YamlWritten?
    modifies h`schedule, h`yaml, h`trace, h`journal, h`history, h`live
    ensures h.Valid()
    ensures r != Done
    ensures h.history in {old(h.history), Withdrawn(old(h.history), t.createdAt)}
    ensures t.operation == Rollback ==> h.history == old(h.history)
    ensures old(RunsBounded(h.Now())) ==> RunsBounded(h.Now())
    ensures h.Quiet() && old(UnderWay(pre, h.Now(), t, goal) && h.metadata == pre.metadata) ==>
              AllOrNothing(pre, h.Now(), r, goal) && (r.RaisedLate? ==> h.Faulted())
    ensures h.Pending() <= old(h.Pending())
  {
    r := RollbackTransaction(h, t);
    if r.IsFailure() {
      return;
    }
    r := h.Reload();
    r := match r case Done => Raised case Raised => RaisedLate case other => other;
  }
}
