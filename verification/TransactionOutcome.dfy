/** What a transaction may leave behind, as relations between the states before and after it. */
module TransactionOutcome {
  import opened Common
  import opened Config
  import opened TransactionHost
  import opened AutomationHistory

  /** Home Assistant runs exactly what the file says. */
  predicate InSync(s: State) {
    Load(s.yaml) == Some(s.live)
  }

  /**
   What an operation is meant to achieve. Undoing a creation also drops the
   metadata entry of the new id; no other operation drops anything.
   */
  datatype Goal = Goal(
    operation: Operation,
    automationId: Id,
    automations: seq<Automation>,
    metadata: Metadata,
    dropped: set<Id>)

  /** The journal record of a transaction from `pre` to `after`. */
  predicate Describes(t: Transaction, pre: State, goal: Goal) {
    && t.operation == goal.operation
    && t.before == DigestOf(pre.yaml)
    && Load(pre.yaml) == Some(t.beforeAutomations)
    && t.afterAutomations == goal.automations
    && t.after == Some(DigestOf(Saved(goal.automations)))
  }

  /** A transaction was left open: its journal record is there for recovery. */
  predicate Interrupted(pre: State, post: State, goal: Goal) {
    && post.journal.Some?
    && Describes(post.journal.value, pre, goal)
    && post.yaml in {pre.yaml, Saved(goal.automations), Saved(post.journal.value.beforeAutomations)}
  }

  /** The transaction is under way: the file is written and the journal says so. */
  predicate UnderWay(pre: State, post: State, t: Transaction, goal: Goal) {
    && post.journal == Some(t)
    && Describes(t, pre, goal)
    && t.state.YamlWritten?
    && post.yaml == Saved(goal.automations)
  }

  /** Nothing has happened beyond the write. */
  predicate Opened(pre: State, post: State, t: Transaction, goal: Goal) {
    UnderWay(pre, post, t, goal) && post.metadata == pre.metadata && post.live == pre.live
  }

  /** Home Assistant runs the new file as well; only metadata is missing. */
  predicate Reloaded(pre: State, post: State, t: Transaction, goal: Goal) {
    UnderWay(pre, post, t, goal) && post.metadata == pre.metadata && post.live == goal.automations
  }

  /** The file parses as before and the journal is gone, whatever became of the rest. */
  predicate Settled(pre: State, post: State) {
    post.journal == None && Load(post.yaml) == Load(pre.yaml)
  }

  /** Parsed file, live configuration and metadata are as before, and no journal is left. */
  predicate Restored(pre: State, post: State, goal: Goal) {
    && Settled(pre, post)
    && post.metadata in {pre.metadata, pre.metadata - goal.dropped}
    && (InSync(pre) ==> post.live == pre.live)
  }

  /** Parsed file, live configuration and metadata are in the new state, and no journal is left. */
  predicate Committed(post: State, goal: Goal) {
    && post.journal == None
    && post.yaml == Saved(goal.automations)
    && post.live == goal.automations
    && post.metadata == goal.metadata
  }

  /** Some of these entries are gone, and no other entry has changed. */
  predicate PartlyForgotten(before: Metadata, after: Metadata, ids: set<Id>) {
    && before.Keys - ids <= after.Keys <= before.Keys
    && forall id :: id in after ==> after[id] == before[id]
  }

  /** However an operation ends, it leaves the old metadata or the new; an expiry may be part-way between them. */
  predicate LeavesMetadata(before: Metadata, after: Metadata, goal: Goal) {
    || after in {before, goal.metadata, before - goal.dropped}
    || (goal.operation.Expire? && PartlyForgotten(before, after, before.Keys - goal.metadata.Keys))
  }

  /**
   All or nothing: a normal return means everything is new, an exception means
   everything is old or the journal still tells recovery what to do. A crash
   leaves the file old or new, and never half a transaction without a journal.
   */
  predicate AllOrNothing(pre: State, post: State, r: Result, goal: Goal) {
    && LeavesMetadata(pre.metadata, post.metadata, goal)
    && match r
       case Done => Committed(post, goal)
       case Raised => Restored(pre, post, goal) || Interrupted(pre, post, goal)
       case RaisedLate => Settled(pre, post)
       case Crashed => Settled(pre, post) || Interrupted(pre, post, goal)
  }

  /** The entry a transaction pushes: the list and metadata it started from. */
  function UndoEntry(pre: State, goal: Goal, createdAt: nat): HistoryEntry
    requires Load(pre.yaml).Some?
  {
    HistoryEntry(goal.operation, goal.automationId, createdAt, Load(pre.yaml).value, pre.metadata)
  }

  /** The circumstances an operation starts in: its undo entry's stamp and place, and the faults that may come. */
  datatype Setting = Setting(available: bool, createdAt: nat, limit: nat, pending: nat)

  /**
   The outcome of a journalled operation that started without an open
   transaction and met no external editor. An operation without a goal
   refuses and changes nothing; one with a goal fails only when an access
   fails, and a success also leaves its undo entry. While only one access
   fails, compensation succeeds: everything is old, or the journal is left.
   */
  predicate Performed(pre: State, post: State, r: Result, goal: Option<Goal>, setting: Setting, pending: nat)
    requires setting.limit >= 1
  {
    match goal
    case None => post == pre && r != Done && r != RaisedLate
    case Some(goal) =>
      && AllOrNothing(pre, post, r, goal)
      && (!r.Done? ==> pending < setting.pending)
      && (r.RaisedLate? ==> pending + 2 <= setting.pending)
      && (r.Done? && Load(pre.yaml).Some? ==>
            post.history == if setting.available
                            then Pushed(pre.history, UndoEntry(pre, goal, setting.createdAt), setting.limit)
                            else pre.history)
  }

  /** An outcome also stands when it is measured from an earlier, otherwise equal, start. */
  lemma PerformedFromEarlier(pre: State, post: State, r: Result, goal: Option<Goal>, setting: Setting, earlier: nat, pending: nat)
    requires setting.limit >= 1 && Performed(pre, post, r, goal, setting, pending)
    requires earlier >= setting.pending
    ensures Performed(pre, post, r, goal, setting.(pending := earlier), pending)
  {
  }

  /** A single failure is compensated: everything is new, or everything is old, or the journal tells recovery. */
  lemma SingleFailureIsCompensated(pre: State, post: State, r: Result, goal: Goal, setting: Setting, pending: nat)
    requires setting.limit >= 1 && Performed(pre, post, r, Some(goal), setting, pending)
    requires pending + 1 >= setting.pending && r != Crashed
    ensures if r.Done? then Committed(post, goal) else r.Raised? && (Restored(pre, post, goal) || Interrupted(pre, post, goal))
  {
  }

  // ----- bounded automations ---------------------------------------------------

  /** A bounded automation has not used up its runs. */
  predicate WithinBounds(metadata: Metadata) {
    forall id :: id in metadata && metadata[id].maxRuns.Some? ==>
      0 <= metadata[id].runCount < metadata[id].maxRuns.value
  }

  /** The current metadata and every snapshot on the undo stack are within bounds. */
  predicate RunsBounded(s: State) {
    WithinBounds(s.metadata) && forall e :: e in s.history ==> WithinBounds(e.metadata)
  }
}
