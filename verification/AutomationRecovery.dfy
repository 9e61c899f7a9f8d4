/** Startup: finishing or taking back an interrupted transaction, then repairing metadata. */
module AutomationRecovery {
  import opened Common
  import opened Config
  import opened AutomationEdits
  import opened AutomationHistory
  import opened TransactionHost
  import opened TransactionOutcome
  import opened TransactionProtocol
  import Sorting
  import Store = AutomationMetadataStore

  // ----- recovery ------------------------------------------------------------------

  /** Interrupted deletions are completed; everything else is taken back. */
  predicate KeptOnRecovery(operation: Operation) {
    operation in {Operation.Delete, Operation.Expire}
  }

  /** The file recovery ends with, if the bytes it finds belong to the transaction. */
  function RecoveredFile(found: File, t: Transaction): Option<File> {
    if DigestOf(found) == t.before then Some(found)
    else if t.after == Some(DigestOf(found)) then
      Some(if KeptOnRecovery(t.operation) then found else Saved(t.beforeAutomations))
    else None
  }

  /** What becomes of an open transaction: it is settled if the bytes found are its own, and else left as it is. */
  predicate Taken(pre: State, post: State, r: Result, recovered: bool, historyAvailable: bool)
    requires pre.journal.Some?
  {
    var t := pre.journal.value;
    match RecoveredFile(pre.yaml, t)
    case None => post == pre && (r.Raised? || r.Crashed?)
    case Some(file) =>
      && post.metadata == pre.metadata && post.history in {pre.history, Withdrawn(pre.history, t.createdAt)}
      && (if post.journal == None then post.yaml == file else post.journal == pre.journal && post.yaml in {pre.yaml, file})
      && (r.Done? ==> recovered == (DigestOf(pre.yaml) != t.before))
      && (r.Done? ==>
            post.history == if !recovered || KeptOnRecovery(t.operation) || t.operation.Rollback? || !historyAvailable
                            then pre.history else Withdrawn(pre.history, t.createdAt))
      && (r.Done? ==> post.journal == None && if recovered then Load(file) == Some(post.live) else post.live == pre.live)
  }

  method RecoverIncompleteTransaction(h: Host) returns (r: Result, recovered: bool)
    requires h.Valid()
    modifies h
    ensures h.Valid() && h.metadata == old(h.metadata)
    ensures |h.history| <= |old(h.history)|
    ensures old(RunsBounded(h.Now())) ==> RunsBounded(h.Now())
    ensures h.Pending() <= old(h.Pending())
    ensures old(h.journal) == None ==> r.Done? && !recovered && h.Now() == old(h.Now())
    ensures r.Done? ==> h.journal == None
    ensures h.Quiet() && old(h.journal).Some? ==> Taken(old(h.Now()), h.Now(), r, recovered, h.historyAvailable)
    ensures h.Quiet() && old(h.journal.Some? && Load(h.yaml).Some? && RecoveredFile(h.yaml, h.journal.value).Some?) ==>
              r.Done? || h.Faulted()
  {
    recovered := false;
    if h.journal == None {
      return Done, false;
    }
    var t := h.journal.value;
    var current :- h.FileDigest();
    if current == t.before {
      r := h.ClearJournal();
      return;
    }
    if t.after == Some(current) {
      r := SettleOwnBytes(h, t);
      recovered := r.Done?;
      return;
    }
    return Raised, false;
  }

  /** The file has the transaction's own bytes: they are kept or taken back, and reloaded. */
  method SettleOwnBytes(h: Host, t: Transaction) returns (r: Result)
    requires h.Valid() && h.journal == Some(t) && t.after == Some(DigestOf(h.yaml)) && t.before != DigestOf(h.yaml)
    modifies h`schedule, h`yaml, h`trace, h`journal, h`history, h`live
    ensures h.Valid()
    ensures |h.history| <= |old(h.history)|
    ensures old(RunsBounded(h.Now())) ==> RunsBounded(h.Now())
    ensures h.Pending() <= old(h.Pending())
    ensures r.Done? ==> h.journal == None
    ensures h.Quiet() ==> Taken(old(h.Now()), h.Now(), r, r.Done?, h.historyAvailable)
    ensures h.Quiet() && old(Load(h.yaml).Some?) ==> r.Done? || h.Faulted()
  {
    if KeptOnRecovery(t.operation) {
      :- h.ClearJournal();
    } else {
      :- RollbackTransaction(h, t);
    }
    r := h.Reload();
  }

  /**
   A completed recovery, operation by operation: a file without the
   transaction's bytes stays as it was found; an interrupted deletion or expiry
   keeps them, with its undo entry; any other operation is taken back with it.
   */
  lemma RecoveryByOperation(pre: State, post: State, recovered: bool, historyAvailable: bool)
    requires pre.journal.Some? && Taken(pre, post, Done, recovered, historyAvailable)
    ensures
      var t, found := pre.journal.value, DigestOf(pre.yaml);
      if found == t.before then !recovered && post == pre.(journal := None)
      else
        && recovered && t.after == Some(found)
        && post.journal == None && post.metadata == pre.metadata && Load(post.yaml) == Some(post.live)
        && if t.operation == Operation.Delete || t.operation == Operation.Expire
           then post.yaml == pre.yaml && post.history == pre.history
           else post.yaml == Saved(t.beforeAutomations)
                && post.history == if t.operation == Rollback || !historyAvailable then pre.history else Withdrawn(pre.history, t.createdAt)
  {
  }

  /**
   The condition on the original file under which every interruption can be
   recovered from: its bytes are canonical, or the transaction changes nothing.
   */
  predicate Resumable(pre: State, goal: Goal) {
    Canonical(pre.yaml) || Load(pre.yaml) == Some(goal.automations)
  }

  /**
   A crash inside a rollback, after the old list was written back and before
   the journal was cleared, can be recovered from exactly under that condition.
   */
  lemma RollbackCanBeResumed(t: Transaction, pre: State, goal: Goal)
    requires Describes(t, pre, goal)
    ensures
      var rewritten := Saved(t.beforeAutomations);
      && (RecoveredFile(rewritten, t).Some? <==> Resumable(pre, goal))
      && (RecoveredFile(rewritten, t).Some? ==> RecoveredFile(rewritten, t) == Some(rewritten))
  {
  }

  /** A hand-formatted file is such a case: the interrupted rollback of a creation in it is never recovered. */
  lemma HandFormattedFileGetsStuck(text: string, created: Automation)
    ensures
      var original := Bytes(Foreign(text, []));
      var t := Transaction(Operation.Create, "a", 0, DigestOf(original), Some(DigestOf(Saved([created]))),
                           [], [created], YamlWritten);
      && RecoveredFile(original, t) == Some(original)
      && RecoveredFile(Saved([created]), t) == Some(Saved([]))
      && RecoveredFile(Saved([]), t) == None
  {
    assert |[created]| == 1;
  }

  /**
   Recovery replaces what it finds exactly when these are the bytes of an
   interrupted transaction other than a deletion or expiry, whoever wrote them.
   */
  lemma RecoveryReplacesOwnBytesOnly(t: Transaction, pre: State, goal: Goal, found: File)
    requires Describes(t, pre, goal)
    ensures
      var recovered := RecoveredFile(found, t);
      recovered.Some? && recovered.value != found <==>
        && found == Saved(goal.automations) && found != pre.yaml
        && goal.operation !in {Operation.Delete, Operation.Expire} && t.beforeAutomations != goal.automations
  {
  }

  /**
   So an edit is lost that writes exactly the bytes a transaction is about to
   write, between its snapshot and its own write, when the process dies before
   the journal record is cleared: recovery takes the edit for its own.
   */
  lemma CoincidingEditIsLost(a: Automation, b: Automation)
    ensures
      var t := Transaction(Operation.Create, "b", 0, DigestOf(Saved([a])), Some(DigestOf(Saved([a, b]))), [a], [a, b], Prepared);
      var edit := Saved([a, b]);
      && DigestOf(edit) != t.before
      && RecoveredFile(edit, t) == Some(Saved([a])) && Load(Saved([a])) != Load(edit)
  {
    assert |[a]| != |[a, b]|;
  }

  // ----- reconciliation ----------------------------------------------------------------

  /** What reconciliation would change in one entry. */
  function Repair(automations: seq<Automation>, id: Id, entry: Entry, texts: Texts): Option<Store.Change> {
    var due := ScheduledForFromYaml(automations, id, entry.scheduledFor, texts);
    var limit := MaxRunsFromYaml(automations, id);
    var moved := due.Some? && due != entry.scheduledFor;
    if !moved && limit == entry.maxRuns then None
    else
      Some(Store.Change(
        scheduledFor := if moved then due else None,
        maxRuns := if limit != entry.maxRuns then Some(limit) else None,
        runCount := if limit != entry.maxRuns then Some(0) else None))
  }

  function Repaired(automations: seq<Automation>, id: Id, entry: Entry, texts: Texts): Entry {
    match Repair(automations, id, entry, texts)
    case None => entry
    case Some(change) => Store.Applied(entry, change)
  }

  /** The metadata reconciliation settles on. */
  function Reconciled(automations: seq<Automation>, metadata: Metadata, texts: Texts): Metadata {
    map id | id in metadata && id in Ids(automations) :: Repaired(automations, id, metadata[id], texts)
  }

  /** The entry says what the file says. */
  predicate Agrees(automations: seq<Automation>, id: Id, entry: Entry, texts: Texts) {
    var due := ScheduledForFromYaml(automations, id, entry.scheduledFor, texts);
    && entry.maxRuns == MaxRunsFromYaml(automations, id)
    && (due.Some? ==> entry.scheduledFor == due)
  }

  /** Every entry is backed by the file and says what the file says. */
  predicate EntriesAgree(automations: seq<Automation>, metadata: Metadata, texts: Texts) {
    metadata.Keys <= Ids(automations) && forall id :: id in metadata ==> Agrees(automations, id, metadata[id], texts)
  }

  lemma RepairAgrees(automations: seq<Automation>, id: Id, entry: Entry, texts: Texts)
    ensures Agrees(automations, id, Repaired(automations, id, entry, texts), texts)
    ensures Agrees(automations, id, entry, texts) <==> Repair(automations, id, entry, texts) == None
  {
  }

  /** A repair takes over what the file says; a changed limit restarts the count, and nothing else is touched. */
  lemma RepairTakesOver(automations: seq<Automation>, id: Id, entry: Entry, texts: Texts)
    ensures
      var repaired := Repaired(automations, id, entry, texts);
      var due, limit := ScheduledForFromYaml(automations, id, entry.scheduledFor, texts), MaxRunsFromYaml(automations, id);
      && repaired.maxRuns == limit && repaired.scheduledFor == (if due.Some? then due else entry.scheduledFor)
      && repaired.runCount == (if limit == entry.maxRuns then entry.runCount else 0)
      && repaired.version == (if Agrees(automations, id, entry, texts) then entry.version else entry.version + 1)
      && repaired.sourceText == entry.sourceText && repaired.once == entry.once
      && repaired.createdByHomeIntent == entry.createdByHomeIntent
  {
  }

  /** Reconciliation repairs to a fixed point: every entry is backed by the file, and nothing is left to repair. */
  lemma ReconciledIsFixedPoint(automations: seq<Automation>, metadata: Metadata, texts: Texts)
    ensures
      var settled := Reconciled(automations, metadata, texts);
      && settled.Keys == metadata.Keys * Ids(automations)
      && (forall id :: id in settled ==> Agrees(automations, id, settled[id], texts))
      && Reconciled(automations, settled, texts) == settled
  {
    var settled := Reconciled(automations, metadata, texts);
    forall id | id in settled
      ensures Agrees(automations, id, settled[id], texts)
      ensures Repaired(automations, id, settled[id], texts) == settled[id]
    {
      RepairAgrees(automations, id, metadata[id], texts);
      RepairAgrees(automations, id, settled[id], texts);
    }
  }

  /** Metadata part-way through a reconciliation: some orphans dropped, some entries repaired. */
  function Progress(automations: seq<Automation>, from: Metadata, dropped: set<Id>, repaired: set<Id>, texts: Texts): Metadata {
    map id | id in from && id !in dropped ::
      if id in repaired then Repaired(automations, id, from[id], texts) else from[id]
  }

  predicate PartlyReconciled(automations: seq<Automation>, from: Metadata, now: Metadata, texts: Texts) {
    && now.Keys <= from.Keys
    && (forall id :: id in from && id in Ids(automations) ==> id in now)
    && (forall id :: id in now ==> now[id] in {from[id], Repaired(automations, id, from[id], texts)})
  }

  lemma ProgressIsPartial(automations: seq<Automation>, from: Metadata, dropped: set<Id>, repaired: set<Id>, texts: Texts)
    requires dropped !! Ids(automations)
    ensures PartlyReconciled(automations, from, Progress(automations, from, dropped, repaired, texts), texts)
    ensures dropped == from.Keys - Ids(automations) && repaired == from.Keys * Ids(automations) ==>
              Progress(automations, from, dropped, repaired, texts) == Reconciled(automations, from, texts)
  {
  }

  /** However far a run got before it was cut off, the next run settles on the same metadata. */
  lemma ReconciliationResumes(automations: seq<Automation>, from: Metadata, now: Metadata, texts: Texts)
    requires PartlyReconciled(automations, from, now, texts)
    ensures Reconciled(automations, now, texts) == Reconciled(automations, from, texts)
  {
    forall id | id in now && id in Ids(automations)
      ensures Repaired(automations, id, now[id], texts) == Repaired(automations, id, from[id], texts)
    {
      RepairAgrees(automations, id, from[id], texts);
      RepairAgrees(automations, id, Repaired(automations, id, from[id], texts), texts);
    }
  }

  /** A limit read from the file restarts the count, so no stage of a repair exceeds a limit. */
  lemma ProgressKeepsBounds(automations: seq<Automation>, from: Metadata, dropped: set<Id>, repaired: set<Id>, texts: Texts)
    ensures WithinBounds(from) ==> WithinBounds(Progress(automations, from, dropped, repaired, texts))
  {
  }

  /** A startup repairs the metadata as far as it gets; a completed one repairs all of it. */
  predicate Settles(file: File, before: Metadata, after: Metadata, r: Result, texts: Texts) {
    match Load(file)
    case None => after == before && r != Done
    case Some(automations) =>
      && PartlyReconciled(automations, before, after, texts)
      && (r.Done? ==> after == Reconciled(automations, before, texts))
  }

  method ReconcileState(h: Host, texts: Texts) returns (r: Result, orphans: seq<Id>)
    requires h.Valid()
    modifies h`schedule, h`yaml, h`trace, h`metadata
    ensures h.Valid() && r != RaisedLate
    ensures h.Pending() <= old(h.Pending())
    ensures old(WithinBounds(h.metadata)) ==> WithinBounds(h.metadata)
    ensures h.Quiet() ==> h.yaml == old(h.yaml) && Settles(h.yaml, old(h.metadata), h.metadata, r, texts)
    ensures h.Quiet() && r.Done? ==> orphans == Sorting.Sorted(old(h.metadata).Keys - Ids(Load(h.yaml).value))
    ensures h.Quiet() && !r.Done? && Load(h.yaml).Some? ==> h.Faulted()
  {
    orphans := [];
    var snapshot;
    r, snapshot := h.ReadSnapshot();
    if r.Done? {
      r, orphans := Reconcile(h, snapshot.automations, texts);
    }
  }

  method Reconcile(h: Host, automations: seq<Automation>, texts: Texts) returns (r: Result, orphans: seq<Id>)
    requires h.Valid()
    modifies h`schedule, h`yaml, h`trace, h`metadata
    ensures h.Valid() && h.OnlyEnvironment() && r != RaisedLate
    ensures old(WithinBounds(h.metadata)) ==> WithinBounds(h.metadata)
    ensures PartlyReconciled(automations, old(h.metadata), h.metadata, texts)
    ensures r.Done? ==>
              && h.metadata == Reconciled(automations, old(h.metadata), texts)
              && orphans == Sorting.Sorted(old(h.metadata).Keys - Ids(automations))
    ensures !r.Done? ==> h.Faulted()
  {
    var metadata := h.metadata;
    orphans := Sorting.Sorted(metadata.Keys - Ids(automations));
    ghost var dropped, repaired: set<Id> := {}, {};
    r, dropped := DropOrphans(h, orphans, metadata.Keys - Ids(automations), automations, texts);
    if r.Done? {
      r, repaired := RepairKnown(h, metadata, dropped, automations, texts);
    }
    ProgressIsPartial(automations, metadata, dropped, repaired, texts);
    ProgressKeepsBounds(automations, metadata, dropped, repaired, texts);
  }

  method DropOrphans(h: Host, orphans: seq<Id>, ghost targets: set<Id>, automations: seq<Automation>, texts: Texts)
    returns (r: Result, ghost dropped: set<Id>)
    requires h.Valid() && orphans == Sorting.Sorted(targets)
    modifies h`schedule, h`yaml, h`trace, h`metadata
    ensures h.Valid() && h.OnlyEnvironment() && r != RaisedLate
    ensures h.metadata == Progress(automations, old(h.metadata), dropped, {}, texts)
    ensures dropped <= targets && (r.Done? ==> dropped == targets)
    ensures !r.Done? ==> h.Faulted()
  {
    Sorting.SortedLists(targets);
    dropped := {};
    for i := 0 to |orphans|
      invariant h.Valid() && h.OnlyEnvironment()
      invariant h.metadata == Progress(automations, old(h.metadata), dropped, {}, texts)
      invariant forall id :: id in dropped <==> id in orphans[..i]
    {
      r := Store.Delete(h, orphans[i]);
      if r.IsFailure() {
        return;
      }
      DropOne(automations, old(h.metadata), dropped, orphans[i], texts);
      dropped := dropped + {orphans[i]};
    }
    r := Done;
  }

  lemma DropOne(automations: seq<Automation>, from: Metadata, dropped: set<Id>, id: Id, texts: Texts)
    ensures Progress(automations, from, dropped, {}, texts) - {id} == Progress(automations, from, dropped + {id}, {}, texts)
  {
  }

  lemma RepairNext(automations: seq<Automation>, from: Metadata, dropped: set<Id>, repaired: set<Id>, id: Id, texts: Texts)
    requires id in from && id !in dropped
    ensures Progress(automations, from, dropped, repaired, texts)[id := Repaired(automations, id, from[id], texts)]
            == Progress(automations, from, dropped, repaired + {id}, texts)
  {
  }

  method RepairKnown(h: Host, metadata: Metadata, ghost dropped: set<Id>, automations: seq<Automation>, texts: Texts)
    returns (r: Result, ghost repaired: set<Id>)
    requires h.Valid() && h.metadata == Progress(automations, metadata, dropped, {}, texts)
    requires dropped == metadata.Keys - Ids(automations)
    modifies h`schedule, h`yaml, h`trace, h`metadata
    ensures h.Valid() && h.OnlyEnvironment() && r != RaisedLate
    ensures h.metadata == Progress(automations, metadata, dropped, repaired, texts)
    ensures r.Done? ==> repaired == metadata.Keys * Ids(automations)
    ensures !r.Done? ==> h.Faulted()
  {
    var known := Sorting.Sorted(metadata.Keys * Ids(automations));
    Sorting.SortedLists(metadata.Keys * Ids(automations));
    r, repaired := RepairEach(h, known, metadata, dropped, automations, texts);
  }

  method RepairEach(h: Host, known: seq<Id>, metadata: Metadata, ghost dropped: set<Id>,
                     automations: seq<Automation>, texts: Texts)
    returns (r: Result, ghost repaired: set<Id>)
    requires h.Valid() && h.metadata == Progress(automations, metadata, dropped, {}, texts)
    requires forall id :: id in known ==> id in metadata && id !in dropped
    requires forall i, j :: 0 <= i < j < |known| ==> known[i] != known[j]
    modifies h`schedule, h`yaml, h`trace, h`metadata
    ensures h.Valid() && h.OnlyEnvironment() && r != RaisedLate
    ensures h.metadata == Progress(automations, metadata, dropped, repaired, texts)
    ensures r.Done? ==> forall id :: id in repaired <==> id in known
    ensures !r.Done? ==> h.Faulted()
  {
    repaired := {};
    for i := 0 to |known|
      invariant h.Valid() && h.OnlyEnvironment()
      invariant h.metadata == Progress(automations, metadata, dropped, repaired, texts)
      invariant forall id :: id in repaired <==> id in known[..i]
    {
      var id := known[i];
      r := RepairOne(h, id, metadata[id], automations, texts);
      if r.IsFailure() {
        return;
      }
      RepairNext(automations, metadata, dropped, repaired, id, texts);
      repaired := repaired + {id};
    }
    r := Done;
  }

  method RepairOne(h: Host, id: Id, entry: Entry, automations: seq<Automation>, texts: Texts) returns (r: Result)
    requires h.Valid() && id in h.metadata && h.metadata[id] == entry
    modifies h`schedule, h`yaml, h`trace, h`metadata
    ensures h.Valid() && h.OnlyEnvironment() && r != RaisedLate
    ensures r.Done? ==> h.metadata == old(h.metadata)[id := Repaired(automations, id, entry, texts)]
    ensures !r.Done? ==> h.metadata == old(h.metadata) && h.Faulted()
  {
    r := h.AssignCategory();
    if r.IsFailure() {
      return;
    }
    var change := Repair(automations, id, entry, texts);
    if change.Some? {
      :- Store.Update(h, id, change.value);
    }
    return Done;
  }
}
