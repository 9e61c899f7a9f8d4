# HomeIntent: verified models of its stateful core

HomeIntent is a Home Assistant integration. It turns spoken German sentences
into automations, writes them to `automations.yaml`, keeps what it knows about
them in files of its own, and speaks up when something in the house needs
attention. This project models the parts of it that have to stay right while
writes fail, processes die, timers fire and people press buttons, and proves
what they keep.

## The parts

**Automation transactions.** HomeIntent is a small write-ahead-log database
over five pieces of state: the YAML list, a single-slot journal, a bounded undo
stack, a metadata map, and Home Assistant's live configuration, which a reload
copies from the YAML. `TransactionHost` holds these pieces and a schedule. Each
access to a file, a service or a registry takes one decision from the schedule:
an external editor may just have rewritten the YAML, and the access may
succeed, raise, or find that the process has died. Methods are proved for every
schedule, so for every failure, crash and interleaving with external editors.
`TransactionProtocol` is the journalled write and its compensating paths,
`AutomationExecutor` the operations built on it, `AutomationRecovery` what
happens at startup, and `AutomationRuns` the theorems about whole runs. A
method's result says how it ended: `Done`, `Raised`, `RaisedLate` (an exception
after the journal was cleared) or `Crashed`. `TransactionOutcome` defines "all
or nothing" for each of them. `Config` models configuration trees and the
rewriting that duplication does; `AutomationEdits` the edits and what is read
back from an edited file.

**Conditions.** `ConditionTokenizer`, `ConditionParser` and `ConditionGrammar`
model the boolean layer of spoken conditions. The loops with a cursor are
proved against a deterministic reading of token lists, that reading against the
grammar E := A (OR A)*, A := N (AND N)*, N := NOT N, ( E ) or TEXT, and printing
against parsing, down to the characters of a sentence. `ConditionTruth` shows
that a tree is true exactly when the formula behind it is.

**Attention.** `AttentionStore` is the bounded memory of deliveries, dismissals
and mutes with its stored document, and `AttentionRecency` says which keys such
a memory still knows; `AttentionPolicy` is the decision how often a recipient is
interrupted, and the sliding-window limit over whole runs. `AttentionDecisions`
tells each answer exactly from what was dismissed and recorded before it.
`AttentionLimits` shows for which budgets and how many recipients the limit
holds, and `AttentionOverlap` what is left of it when deliveries overlap.

**Effects, reservations and claims.** `EffectMonitor` models timers that race
observations, `ExecutionCoordinator` the reservation of write targets, and
`AgentClaims` the claims on the actions proactive events propose, cut into
steps where the original releases its lock or waits.

**Grounding.** `Grounding` models how a spoken subject selects devices and how
a set of devices is compressed into a target that denotes exactly this set when
it is resolved again.

`Common` and `Sorting` hold what several of these share.

## Where code and promise differ

- A rollback writes the old list back in HomeIntent's own format. If the file
  was formatted by hand, a crash between that write and the clearing of the
  journal leaves bytes that recovery takes for a foreign change.
  `RollbackCanBeResumed` gives the exact condition, `HandFormattedFileGetsStuck`
  an example, and `CrashIsAtomic` assumes the condition.
- Recovery does not take back an interrupted deletion or expiry, so after a
  crash these may turn out completed (`CrashIsAtomic`, `InterruptionIsDecided`).
- Recovery takes back the list but not the metadata. After a crash the old list
  may stand beside the new metadata: an interrupted replacement of actions keeps
  the new source text, and an interrupted undo may leave the newer list with the
  older metadata, where an automation has no entry. Startup then repairs limits,
  due times and orphans only; `CrashIsAtomic` says exactly from which metadata.
- All or nothing holds while one access fails (`SingleFailureIsCompensated`).
  When a second one fails during the compensation, the journal may already be
  cleared and metadata or live configuration keep the new state; the result
  `RaisedLate` stands for this, and the contracts tie it to two failures.
- An undo that fails while popping the history has already cleared its journal:
  a single failure, after which the change is undone, its entry still there, and
  the call raises. `RollbackLastChange` says that exactly the failure of that
  access has this effect, and `UndoneYetRaised` is such a run. A failed change on
  a full history has also lost the oldest entry, so undo is stated for runs that
  succeed.
- Duplicating compares the value under `action` of every mapping with two names,
  which raises when it is a list or mapping. `DuplicableExactly` says when an
  automation can be duplicated; one with its actions under `action` cannot
  (`ActionListCannotBeDuplicated`).
- Recovery tells its own writes by their bytes. An editor who writes exactly the
  bytes a transaction is about to write loses the edit when that transaction is
  then taken back, at the latest by recovery after a crash
  (`CoincidingEditIsLost`, `RecoveryReplacesOwnBytesOnly`); no other edit is lost
  while editors do not bring back bytes the file has had (`RunAll`).
- The limit of the attention policy holds in every chronological run if and only
  if the budget is at most 32, the length of the remembered history, and the
  recipients at most 64, as many as the store remembers
  (`BudgetIsKeptExactlyWhenStoreSuffices`); otherwise a burst is delivered in full
  (`LimitIsBroken`). The shipped configuration never sets a budget and stays at
  the default of 4 (`proactive_runtime.py:123`).
- The engine decides, awaits the delivery without a lock and then records it
  under the time of the decision. With k overlapping deliveries the limit is the
  budget and k (`OverlapIsBounded`), and that many are reached (`OverlapIsUsed`).
- Replacing the actions doubles a record-run call that stands at the front with
  a `delay` key, and the limit is no longer derived (`DelayedCallLosesBound`);
  `UserActionsKeepBound` gives the exact condition.
- A delivery ends by storing its own copy of the event without the lock. A
  question that is answered meanwhile is open again, and pressed again it is
  carried out twice (`PressDuringDeliveryRunsTwice`, `DeliveryReopens`); one that
  is ignored meanwhile may stand beside a newer one of the same key
  (`IgnoredDuringDeliveryRivals`). `RunAgent` says that nothing worse happens, and
  neither of these without an answer during the delivery.

## Assumptions

- Writing a list and parsing it again gives the list back; a digest determines
  the bytes; a single file is replaced atomically, and a failed write leaves it
  as it was. The digest check and the replacement happen in one step.
- Stamps of transactions differ, and identifiers made at random are new.
- External editors are arbitrary. No lost update is stated for editors that
  neither bring back bytes the file has had nor write bytes a transaction was
  about to write; if only the first holds, just the coincidences of the second
  are excepted. The other executor theorems about outcomes are stated without
  editors, and with them every operation still keeps the invariants, the open
  transaction, the history limit and the bounds.

## Model

| member | source | states |
|---|---|---|
| `TransactionHost.Host.constructor` | custom_components/homeintent/automation_executor.py:140-157 | A new host has no open transaction and no recorded overwrite, and the live configuration is what the file parses to; a journal left by an earlier process arises in the model as the state a crashed operation leaves. |
| `TransactionHost.Host.FileDigest` | custom_components/homeintent/automation_executor.py:1313-1320 | The digest identifies the bytes the file has at that moment; it fails only by a scheduled fault. |
| `TransactionHost.Host.ReadSnapshot` | custom_components/homeintent/automation_executor.py:1256-1268 | The list read is the list the digested bytes parse to, although external editors may write between the two accesses. |
| `TransactionHost.Host.WriteContentIfUnchanged` | custom_components/homeintent/automation_executor.py:1287-1311 | Compare-and-replace: the file is replaced only while it has the expected bytes, and a conflict found before writing replaces nothing. Undisturbed, the file is new exactly when a replacement was recorded, also when the look afterwards fails; each recorded one names the bytes it discarded. |
| `TransactionHost.Host.WriteJournal` | custom_components/homeintent/automation_transaction.py:44-48 | The single journal slot takes the new record; failing leaves the old one. |
| `TransactionHost.Host.ClearJournal` | custom_components/homeintent/automation_transaction.py:60-64 | Clearing empties the slot or leaves it as it was. |
| `TransactionHost.Host.Reload` | custom_components/homeintent/automation_executor.py:643-647 | A reload copies the parsed file to the live configuration; a failed one leaves the live configuration alone. |
| `TransactionHost.Host.AssignCategory` | custom_components/homeintent/automation_executor.py:262-314 | Creating and assigning the category, taken as one step, changes none of the five pieces of state, whether it succeeds or not. |
| `AutomationHistory.Append` | custom_components/homeintent/automation_history.py:49-71 | The stack becomes the newest `limit` entries with the new one on top; a failed write changes nothing. |
| `AutomationHistory.Pop` | custom_components/homeintent/automation_history.py:73-81 | Removes and returns exactly the newest entry, or reports that there is none. |
| `AutomationHistory.PopIfCreatedAt` | custom_components/homeintent/automation_history.py:87-90 | Takes back exactly the newest entry, and only when it carries the given stamp. |
| `AutomationHistory.PopAfterPush` | custom_components/homeintent/automation_history.py:49-81 | Append then pop gives back the stack if and only if it was not full; a full stack has lost exactly its oldest entry. |
| `AutomationHistory.OnlyOwnIsWithdrawn` | custom_components/homeintent/automation_history.py:83-90 | Stamps grow, so withdrawing a transaction takes back its own entry and, when that is not on top, nothing. |
| `AutomationMetadataStore.Save` | custom_components/homeintent/automation_metadata_store.py:92-101 | The entry of one id is replaced, no other entry changes, a failed write changes nothing. |
| `AutomationMetadataStore.Delete` | custom_components/homeintent/automation_metadata_store.py:113-121 | The entry of one id is gone, no other entry changes, a failed write changes nothing. |
| `AutomationMetadataStore.Update` | custom_components/homeintent/automation_metadata_store.py:123-133 | Only the named fields of one entry change; an unknown id is refused without a change. |
| `TransactionProtocol.WriteUnderJournal` | custom_components/homeintent/automation_executor.py:199-223 | Journal, replace, journal: on success the file is new and the journal says so; a failure before the write leaves the old file and no journal; anything else leaves a journal record recovery understands. |
| `TransactionProtocol.RecordHistory` | custom_components/homeintent/automation_executor.py:224-238 | A history that cannot be appended takes the whole transaction back. |
| `TransactionProtocol.BeginTransaction` | custom_components/homeintent/automation_executor.py:162-239 | While a journal record exists the call raises and changes nothing at all; otherwise the transaction is opened with its undo entry pushed, or everything is old, or the journal is left for recovery. |
| `TransactionProtocol.RollbackTransaction` | custom_components/homeintent/automation_executor.py:241-257 | Puts the old list back only over the bytes the transaction itself wrote, then clears the journal, then withdraws its own undo entry; over other bytes it raises and changes nothing. |
| `TransactionProtocol.ReloadOrRollback` | custom_components/homeintent/automation_executor.py:642-646 | A failed reload takes the transaction back and raises; it ends in an exception after the journal was cleared only when two accesses failed. |
| `TransactionProtocol.RollbackAndReload` | custom_components/homeintent/automation_executor.py:868-884 | The compensating path: raises with the old list in the file and the live configuration, or leaves the journal, unless a further access fails. |
| `TransactionOutcome.SingleFailureIsCompensated` | custom_components/homeintent/automation_executor.py:866-884 | While only one access fails and the process lives, a journalled operation ends with everything new, or raises with everything old or the journal left. |
| `AutomationExecutor.Create` | custom_components/homeintent/automation_executor.py:316-402 | All or nothing: returns with file, live configuration, metadata and undo entry in the new state, or raises with all in the old state or the journal left; it fails only when an access failed, and leaves a compensation incomplete only when two did. After a return the list is the old one followed by exactly one automation, which has the configuration and, unless that names one, the given id; no other entry has changed, and the new one has the given due time and limit and no runs. Over an open transaction it fails, and only external editors may have changed anything. |
| `AutomationExecutor.Duplicate` | custom_components/homeintent/automation_executor.py:404-444 | All or nothing: the list is the old one followed by the rewritten copy under the new id, whose entry has the due time and limit of its source and no runs, and nothing else has changed. Refused without a change is exactly what does not exist, was not created here or does not come through the rewriting. |
| `AutomationExecutor.Delete` | custom_components/homeintent/automation_executor.py:489-560 | All or nothing for removing exactly the automations with the id together with their metadata entry; an unknown id is refused without a change. |
| `AutomationExecutor.DeletionExactly` | custom_components/homeintent/automation_executor.py:489-545 | A deletion is meant exactly when the file has an automation with the id; it keeps the others in order and removes just that entry. |
| `AutomationExecutor.EditAutomation` | custom_components/homeintent/automation_executor.py:620-648 | The common body of all edits: all or nothing for the edited list together with the metadata change. |
| `AutomationExecutor.EditExactly` | custom_components/homeintent/automation_executor.py:620-648 | An edit is meant exactly when the automation exists, no edit of it is refused and its entry exists where one is changed; it then edits the automations with the id where they stand, changes the named fields of their entry, moves it one version on, and nothing else. |
| `AutomationExecutor.SetInitialState` | custom_components/homeintent/automation_executor.py:582-648 | All or nothing for enabling or disabling every automation with the id. |
| `AutomationExecutor.RescheduleAutomation` | custom_components/homeintent/automation_executor.py:721-799 | Refused without a change unless the entry is a scheduled one-shot; else all or nothing for time trigger, date guard and the stored due time. |
| `AutomationExecutor.SetMaxRunsTo` | custom_components/homeintent/automation_executor.py:823-886 | Refused without a change outside 2..10 and for foreign or one-shot entries; else all or nothing for the record-run action and the restarted count. |
| `AutomationExecutor.ReplaceAutomationActions` | custom_components/homeintent/automation_executor.py:888-948 | All or nothing for the new actions; lifecycle calls survive. |
| `AutomationExecutor.ReplaceAutomationSection` | custom_components/homeintent/automation_executor.py:950-1008 | All or nothing for new triggers or conditions; other sections and an empty trigger list are refused without a change. |
| `AutomationExecutor.CountRun` | custom_components/homeintent/automation_executor.py:801-815 | One run is counted, or reported as the last one without being counted; unbounded and unknown ids are refused. |
| `AutomationExecutor.RecordRun` | custom_components/homeintent/automation_executor.py:801-821 | A run below the limit only raises the count by one; the run that reaches the limit deletes the automation, all or nothing; counting and deleting follow each other without another operation in between. |
| `AutomationExecutor.RemainingIsShorter` | custom_components/homeintent/automation_executor.py:489-560 | A present automation does not survive the deletion filter, so deletion always changes the list. |
| `AutomationExecutor.CleanupExpired` | custom_components/homeintent/automation_executor.py:1010-1073 | All or nothing for removing every due one-shot from the file; without one in the file, only metadata entries of due one-shots go, all of them unless an access fails. |
| `AutomationExecutor.ExpiryExactly` | custom_components/homeintent/automation_executor.py:1024-1054 | Expired are exactly the one-shots whose due time has passed; a transaction is needed exactly when one of them is in the file, and then keeps every other automation and entry. |
| `AutomationExecutor.ForgetAll` | custom_components/homeintent/automation_executor.py:1069-1070 | The metadata entries of the given ids are removed and no others, as far as the accesses succeed. |
| `AutomationExecutor.RollbackLastChange` | custom_components/homeintent/automation_executor.py:1146-1181 | All or nothing for the list and metadata of the newest undo entry, which is popped on success. With a single failure the call raises after clearing its journal if and only if that failure falls on the access that pops the entry, and then the change is undone and the entry still there. |
| `AutomationExecutor.UndoneYetRaised` | custom_components/homeintent/automation_executor.py:1175-1181 | A run with that one failure: the old list is back in file and live configuration, the journal is empty, the entry is still on the stack, and the call raised. |
| `AutomationEdits.EditAll` | custom_components/homeintent/automation_executor.py:620-648 | The append loop returns the list with exactly the automations of that id edited in place and the order kept, and says whether there was one; an edit that refuses refuses the whole list. |
| `AutomationEdits.FindAfterEdit` | custom_components/homeintent/automation_executor.py:620-648 | Looking an id up after an edit finds the edited automation for the edited id and the unchanged one for any other. |
| `AutomationEdits.EnabledIsSet` | custom_components/homeintent/automation_executor.py:624-632 | Enabling or disabling sets the initial state and leaves every other key alone. |
| `AutomationEdits.BoundIsSet` | custom_components/homeintent/automation_executor.py:838-858 | A limit is set by one record-run call behind the other actions, which keep their order; it carries the id and the limit and is the only one left, and only the actions change. |
| `AutomationEdits.ActionsAreReplaced` | custom_components/homeintent/automation_executor.py:902-922 | The new actions stand between a leading delay and the lifecycle calls of the old ones; no other old action is left, and only the actions change. |
| `AutomationEdits.SectionIsReplaced` | custom_components/homeintent/automation_executor.py:972-982 | The section is the new list, or is gone when conditions become empty, and no other key changes. |
| `AutomationEdits.MovedExactlyWhenUnique` | custom_components/homeintent/automation_executor.py:742-767 | Moving a schedule is refused exactly when there is not one time trigger and one date guard. |
| `AutomationEdits.ScheduleIsMoved` | custom_components/homeintent/automation_executor.py:742-774 | Otherwise exactly this trigger and this guard are replaced where they stand, and no other key changes. |
| `AutomationEdits.BoundReadsBack` | custom_components/homeintent/automation_executor.py:823-886 | The limit written by the set-max-runs edit is the limit read back from the file, and other automations keep theirs. |
| `AutomationEdits.UserActionsKeepBound` | custom_components/homeintent/automation_executor.py:888-948 | Replacing the user actions keeps the limit the file states if and only if the new actions state none where there was none, and where there was one record no runs themselves and do not find the stating call at the front with a `delay` key; the limits of other automations never change. |
| `AutomationEdits.DelayedCallLosesBound` | custom_components/homeintent/automation_executor.py:905-918 | A record-run call at the front that has a `delay` key is doubled, and the limit it states is no longer derived. |
| `AutomationEdits.ScheduleReadsBack` | custom_components/homeintent/automation_executor.py:721-799 | The due time written by rescheduling is the due time derived from the file afterwards. |
| `AutomationEdits.BoundExactly` | custom_components/homeintent/automation_executor.py:1226-1244 | A limit is derived exactly from an only record-run call with data that states a whole number from 2 to 10. |
| `AutomationEdits.DueExactly` | custom_components/homeintent/automation_executor.py:1184-1224 | A due time is derived from an only time trigger and an only date guard, in the zone of the value before. |
| `AutomationEdits.NothingDue` | custom_components/homeintent/automation_executor.py:1184-1224 | Without either of them none is derived. |
| `Config.DuplicateDiffersOnlyInReferences` | custom_components/homeintent/automation_executor.py:424-437 | Where the rewriting comes through, at every path the copy equals the source, except `data.automation_id` of delete and record-run nodes whose data is a mapping, which names the new id. |
| `Config.WalkComesThroughExactly` | custom_components/homeintent/automation_executor.py:424-435 | The rewriting comes through if and only if no mapping it visits has a list or mapping under `action`; the replaced `automation_id` itself is not visited as it was. |
| `Config.DuplicableExactly` | custom_components/homeintent/automation_executor.py:420-437 | An automation can be duplicated if and only if neither it nor a mapping visited in it outside id and alias has a list or mapping under `action`. |
| `Config.ActionListCannotBeDuplicated` | custom_components/homeintent/automation_executor.py:424-429 | An automation with its actions under the key `action` cannot be duplicated. |
| `Config.DuplicateFollowsSource` | custom_components/homeintent/automation_executor.py:404-444 | A stored duplicate equals its source at every path except the id, the alias and those lifecycle references. |
| `Config.DuplicateIsNamed` | custom_components/homeintent/automation_executor.py:418-420 | The duplicate is named after its source, or after the id of a source without a name. |
| `Config.RewrittenChild` | custom_components/homeintent/automation_executor.py:424-437 | One step into the rewritten tree finds the rewritten child; the shape of mappings and lists is kept. |
| `AutomationRecovery.RecoverIncompleteTransaction` | custom_components/homeintent/automation_executor.py:1075-1105 | Recovery ends with an empty journal and the old file, keeps an interrupted deletion or expiry, and leaves everything as it is over foreign bytes; crashing inside it leaves journal and file recoverable. |
| `AutomationRecovery.RecoveryByOperation` | custom_components/homeintent/automation_executor.py:1084-1105 | A completed recovery, operation by operation: over the bytes from before only the journal is cleared; over its own bytes a deletion or expiry leaves file and history as found, and any other operation leaves the old list and withdraws its undo entry. |
| `AutomationRecovery.RollbackCanBeResumed` | custom_components/homeintent/automation_executor.py:1090-1102 | A crash between writing the old list back and clearing the journal can be recovered from if and only if the original bytes were canonical or the transaction changed nothing. |
| `AutomationRecovery.HandFormattedFileGetsStuck` | custom_components/homeintent/automation_executor.py:1103-1105 | A concrete hand-formatted file for which that interrupted rollback is never recognised again. |
| `AutomationRecovery.RecoveryReplacesOwnBytesOnly` | custom_components/homeintent/automation_executor.py:1084-1102 | Recovery replaces what it finds if and only if that is what an interrupted transaction, other than a deletion or expiry, was to write, and the file began with other bytes and another list; whoever wrote it. |
| `AutomationRecovery.CoincidingEditIsLost` | custom_components/homeintent/automation_executor.py:1084-1102 | An edit that writes exactly the bytes an interrupted creation was to write is taken back by recovery. |
| `AutomationRecovery.RepairAgrees` | custom_components/homeintent/automation_executor.py:1123-1143 | A repaired entry agrees with the file, and an entry needs no repair exactly when it agrees. |
| `AutomationRecovery.RepairTakesOver` | custom_components/homeintent/automation_executor.py:1128-1143 | A repaired entry takes over the limit and due time of the file; a changed limit restarts the count, any change moves the version on, and nothing else is touched. |
| `AutomationRecovery.ReconciledIsFixedPoint` | custom_components/homeintent/automation_executor.py:1107-1144 | After reconciliation every entry is backed by the file, its limit equals the derived limit and its due time the derived due time; a second reconciliation changes nothing. |
| `AutomationRecovery.ReconciliationResumes` | custom_components/homeintent/automation_executor.py:1107-1144 | However far a reconciliation got before it was cut off, the next one settles on the same metadata. |
| `AutomationRecovery.ProgressKeepsBounds` | custom_components/homeintent/automation_executor.py:1135-1137 | No stage of a reconciliation lets a count reach its limit. |
| `AutomationRecovery.ReconcileState` | custom_components/homeintent/automation_executor.py:1107-1144 | The loops reach exactly the reconciled metadata and report exactly the orphans in order, or stop part-way only by a fault. |
| `AutomationRuns.Startup` | custom_components/homeintent/automation_executor.py:1075-1144 | Recovery then reconciliation, possibly after Home Assistant has loaded the file: an open transaction is settled if the bytes are its own, the metadata is repaired as far as the startup gets and wholly if it completes, and on a parsable file it fails only by a fault. |
| `AutomationRuns.Execute` | custom_components/homeintent/automation_executor.py:316-1181 | Any operation keeps the invariants and the history limit, and without editors leads from one moment to the next: without an open transaction to the all-or-nothing outcome of its intention, over an open one to an unchanged file, journal, history and live configuration, unless it is a startup. |
| `AutomationRuns.RanIsRecoverable` | custom_components/homeintent/automation_executor.py:162-257 | Whatever a command leaves behind is either committed, the old list, or a journal record with bytes recovery recognises, and its metadata is the old or the new, or an expiry part-way between. |
| `AutomationRuns.InterruptedIsStartable` | custom_components/homeintent/automation_executor.py:1084-1102 | On a resumable file every interrupted transaction is recognised, and recovery leads to the old list or a completed deletion. |
| `AutomationRuns.CrashIsAtomic` | custom_components/homeintent/automation_executor.py:162-257 | Crash atomicity of every chain of a command, startups that may be cut off, and a completed one: an empty journal, metadata that agrees with the file entry by entry and is what startup makes of the old or the new metadata, and exactly the old or the intended list: the old one after an interruption, unless it is a deletion or expiry, and otherwise what the command left in the file, which is the intended list if it was committed. |
| `AutomationRuns.InterruptionIsDecided` | custom_components/homeintent/automation_executor.py:1084-1105 | Command by command, once one was interrupted with its journal open: a deletion, an expiry or a last run ends with the list it left in the file, so with the intended one if it was written, and every other command with the old list. |
| `AutomationRuns.RecoveryIsStartable` | custom_components/homeintent/automation_executor.py:1075-1144 | At every moment of such a chain the next startup can fail only by a fault. |
| `AutomationRuns.RunUntilRecovered` | custom_components/homeintent/automation_executor.py:162-257 | A completed recovery always comes about: any command under any failures and crashes, followed by startups until one completes, is such a chain, and ends recovered with the live configuration in step with the file. |
| `AutomationRuns.RunAll` | custom_components/homeintent/automation_executor.py:1256-1311 | In any run with failures, crashes and external editors that never bring earlier bytes back, every overwritten content was parsed by the same operation or written by HomeIntent, or both an editor and a transaction wrote it; if editors never write what a transaction was about to write, no update is lost. Undisturbed, every command leads from one moment of the run to the next; bounded entries stay within their limit and the history within its own. |
| `AutomationRuns.PushRemembers` | custom_components/homeintent/automation_history.py:49-71 | An append keeps every remembered state that is not pushed out of the bounded stack, one place deeper. |
| `AutomationRuns.RanRemembers` | custom_components/homeintent/automation_executor.py:162-239 | A successful change keeps the beginning of the run one place deeper on the stack; a mere count leaves the stack alone. |
| `AutomationRuns.UndoIsAStack` | custom_components/homeintent/automation_executor.py:1146-1181 | Undo is a stack: after any chain of commands that succeeded, as many undos that succeed restore the first list and the metadata from before the first change, if the history holds all changes; counted and expired runs in between make no difference. |
| `AutomationRuns.UndosSucceed` | custom_components/homeintent/automation_executor.py:1146-1181 | As long as the history leads back, an undo fails only by a fault. |
| `AutomationRuns.UndoEverything` | custom_components/homeintent/automation_executor.py:1146-1181 | Runs commands until one fails and undoes every one that was meant to change the file; when all succeeded and meet no more faults, list and metadata are those from before the first change. |
| `AutomationRuns.RecordUntilDeleted` | custom_components/homeintent/automation_executor.py:801-821 | From zero, an automation with limit n survives n-1 recorded runs and is deleted, with its entry, by the next. |
| `ConditionGrammar.ReadExprDerives` | custom_components/homeintent/automation_condition_parser.py:257-270 | Whatever the reader accepts is a derivation of exactly the tokens it consumed. |
| `ConditionGrammar.ExprIsRead` | custom_components/homeintent/automation_condition_parser.py:257-316 | Every derivation is read back, whatever follows that cannot continue it. |
| `ConditionGrammar.Unambiguous` | custom_components/homeintent/automation_condition_parser.py:257-316 | No token list has two derivations under NOT before AND before OR. |
| `ConditionGrammar.ExactLanguage` | custom_components/homeintent/automation_condition_parser.py:241-316 | A tree is returned if and only if the whole list has a derivation whose leaves parse within the depth limit, and it is the tree of that only derivation. |
| `ConditionGrammar.PrintParseRoundTrip` | custom_components/homeintent/automation_condition_parser.py:241-316 | Parsing the minimally parenthesised print of any formula returns exactly its tree, including nested nodes of the same operator, or nothing when a leaf fails or the depth is exceeded. |
| `ConditionGrammar.PrintIsShortest` | custom_components/homeintent/automation_condition_parser.py:241-316 | No derivation of the same formula has fewer tokens than its print. |
| `ConditionParser.TokenCursor.Advance` | custom_components/homeintent/automation_condition_parser.py:173-176 | Returns the next token and consumes it; past the end it stays at the end. |
| `ConditionParser.ParseOr` | custom_components/homeintent/automation_condition_parser.py:257-270 | The loop returns the tree of the longest OR list the tokens start with and leaves the cursor behind it, or refuses. |
| `ConditionParser.ParseAnd` | custom_components/homeintent/automation_condition_parser.py:272-285 | The same for AND lists. |
| `ConditionParser.ParseNot` | custom_components/homeintent/automation_condition_parser.py:287-295 | The same for negations, which nest. |
| `ConditionParser.ParseAtom` | custom_components/homeintent/automation_condition_parser.py:297-316 | The same for parentheses and leaves; stray or unbalanced tokens are refused. |
| `ConditionParser.Parse` | custom_components/homeintent/automation_condition_parser.py:241-253 | The whole parser returns what the exact language assigns to the list: leftover tokens and excessive depth are refused. |
| `ConditionParser.OrOperandsUnroll` | custom_components/homeintent/automation_condition_parser.py:257-270 | The operand list the OR loop builds is the one of the recursive derivation. |
| `ConditionTokenizer.Tokenize` | custom_components/homeintent/automation_condition_parser.py:134-159 | The scanning loop cuts a sentence into structural tokens and the trimmed text between them. |
| `ConditionTokenizer.MatchesExactly` | custom_components/homeintent/automation_condition_parser.py:88-88 | Structural tokens are exactly the parentheses and the words und, oder and nicht, in either case and with a word boundary on both sides. |
| `ConditionTokenizer.ReasonIsNoConjunction` | custom_components/homeintent/automation_condition_parser.py:84-88 | The und in Grund is no structural word. |
| `ConditionTokenizer.NoMatchInside` | custom_components/homeintent/automation_condition_parser.py:88-88 | Word boundaries keep structural words from being found inside a word that stands between blanks and holds no structural word of its own. |
| `ConditionTokenizer.StripBlanks` | custom_components/homeintent/automation_condition_parser.py:141-156 | Trimming removes the blank before and the blank behind a clean leaf and nothing else. |
| `ConditionTokenizer.SeenIsCut` | custom_components/homeintent/automation_condition_parser.py:134-159 | A text in which tokens stand apart is cut into exactly these tokens. |
| `ConditionTokenizer.SentenceRoundTrip` | custom_components/homeintent/automation_condition_parser.py:134-316 | From formula to sentence and back: tokenizing and parsing the spelled-out print of a formula returns exactly its tree. |
| `ConditionTruth.AcceptedIsTrue` | custom_components/homeintent/automation_condition_parser.py:241-316 | Meaning is preserved: an accepted token list has one derivation, and its tree is true of exactly the situations its formula is true of, with NOT before AND before OR and parentheses before all. |
| `ConditionTruth.SentenceIsTrue` | custom_components/homeintent/automation_condition_parser.py:134-316 | The tree understood from a sentence is true of exactly the situations the formula behind it is true of. |
| `ConditionTruth.DepthExactly` | custom_components/homeintent/nlu/condition_model.py:108-115 | The depth that is limited is the greatest number of nodes one below the other. |
| `AttentionStore.AttentionStateStore.RecordDelivery` | custom_components/homeintent/attention_policy.py:60-71 | The recipient moves to the newest place with the last 32 deliveries, the key likewise, and only the oldest recipients and keys beyond the bounds are evicted. |
| `AttentionStore.AttentionStateStore.Dismiss` | custom_components/homeintent/attention_policy.py:73-81 | The dismissal becomes the newest; beyond 512 the oldest goes. |
| `AttentionStore.AttentionStateStore.Mute` | custom_components/homeintent/attention_policy.py:83-89 | The mute becomes the newest; beyond 128 the oldest goes. |
| `AttentionStore.AttentionStateStore.Unmute` | custom_components/homeintent/attention_policy.py:91-92 | Removes exactly that mute and says whether there was one. |
| `AttentionStore.AttentionStateStore.FromDocument` | custom_components/homeintent/attention_policy.py:164-196 | Any document, however malformed, is read into a store within all bounds, dropping what cannot be read. |
| `AttentionStore.Loaded` | custom_components/homeintent/attention_policy.py:164-196 | Whatever the document, the loaded state has no duplicate keys and meets every size bound and the per-recipient bound. |
| `AttentionStore.ReadableIsFound` | custom_components/homeintent/attention_policy.py:180-190 | The last readable stamp under a key is the one that is read, whatever else the mapping holds. |
| `AttentionStore.UnreadableIsSkipped` | custom_components/homeintent/attention_policy.py:180-190 | A key without a readable stamp is not read. |
| `AttentionStore.PersistenceRoundTrip` | custom_components/homeintent/attention_policy.py:151-196 | Storing and loading any bounded state with timezone-aware stamps gives it back, eviction order included. |
| `AttentionStore.EvictOldest` | custom_components/homeintent/attention_policy.py:66-67 | The eviction loop keeps exactly the newest entries. |
| `AttentionPolicy.BudgetBeyondHistory` | custom_components/homeintent/attention_policy.py:228-234 | A budget above 32 limits nothing, because the store never holds enough deliveries to exhaust it. |
| `AttentionPolicy.BudgetIsKept` | custom_components/homeintent/attention_policy.py:205-245 | Sliding-window limit: in every chronological run with at most 64 recipients, no closed interval of the window length holds more ordinary decisions to deliver than the budget, if that is at most 32. |
| `AttentionPolicy.DecisionsAreRecorded` | custom_components/homeintent/attention_policy.py:236-245 | The ordinary deliveries recorded for a recipient in an interval are as many as were decided. |
| `AttentionLimits.LimitIsBroken` | custom_components/homeintent/attention_policy.py:60-71 | Otherwise a burst of questions at one moment breaks the limit: with a budget above 32 because the store forgets their times, with more than 64 recipients because others crowd the one who is asked out of the store. |
| `AttentionLimits.BudgetIsKeptExactlyWhenStoreSuffices` | custom_components/homeintent/attention_policy.py:205-245 | The limit holds of every chronological run with at most n recipients if and only if the budget is not positive, or at most 32 with n at most 64. |
| `AttentionLimits.CrowdCoversAll` | custom_components/homeintent/attention_policy.py:66-67 | Once 64 others got something, the store knows no delivery to anyone else. |
| `AttentionOverlap.OverlapIsBounded` | custom_components/homeintent/proactive_engine.py:508-565 | When at most k other deliveries are recorded between a decision and its record, which carries the time of the decision, no closed interval of the window length holds more ordinary decisions to deliver than the budget and k, if these are at most 32 and the recipients at most 64. |
| `AttentionOverlap.OverlapIsUsed` | custom_components/homeintent/proactive_engine.py:508-565 | That many are reached, by questions to one recipient at one moment. |
| `AttentionOverlap.ForgettingNearlyHarmless` | custom_components/homeintent/attention_policy.py:60-67 | Of times that are out of order by at most k places, forgetting all but the last hides none from a count that stays k below what is kept. |
| `AttentionOverlap.WithoutOverlap` | custom_components/homeintent/attention_policy.py:205-245 | Without overlap such a run is the ordinary run of its steps. |
| `AttentionPolicy.ForgettingIsHarmless` | custom_components/homeintent/attention_policy.py:60-67 | Counting recent deliveries in the truncated history is exact up to its length. |
| `AttentionPolicy.RoomInWindow` | custom_components/homeintent/attention_policy.py:228-245 | An ordinary delivery is decided only while the window around it holds fewer than the budget. |
| `AttentionPolicy.DeliveryFits` | custom_components/homeintent/attention_policy.py:216-245 | Recording a decided delivery never overfills any window of any recipient. |
| `AttentionPolicy.DeliveryIsRemembered` | custom_components/homeintent/attention_policy.py:60-71 | With at most 64 recipients the store keeps the last 32 deliveries of each, whoever else is notified. |
| `AttentionPolicy.AtMostTheKeys` | custom_components/homeintent/attention_policy.py:66-67 | Entries with distinct keys are no more than the keys, so 64 recipients are never evicted. |
| `AttentionDecisions.RunPolicy` | custom_components/homeintent/attention_policy.py:205-245 | The run of the store over deliveries, flushes, dismissals, mutes and restarts: its memory is that of the run; with at most 64 recipients each message gets exactly the answer that what was dismissed and recorded before demands; the log holds exactly the deliveries decided, in order and as often; and up to a budget of 32 the decisions keep the sliding-window limit. |
| `AttentionDecisions.DecisionIsExact` | custom_components/homeintent/attention_policy.py:205-245 | Each answer if and only if: bypass for urgent messages; otherwise suppress when a dismissal under the key is in force or the subject was recorded within the grouping window; otherwise, for messages below important, defer when the budget was used within its window, and group when no answer is needed and the last delivery is within the grouping window; deliver in every other case. |
| `AttentionDecisions.FirstMessageIsDelivered` | custom_components/homeintent/attention_policy.py:245-245 | The first message of all is delivered if there is a budget for it. |
| `AttentionDecisions.SecondMessageIsGrouped` | custom_components/homeintent/attention_policy.py:235-244 | A second one on another subject, in time, is grouped with it. |
| `AttentionRecency.RecentExactly` | custom_components/homeintent/attention_policy.py:60-81 | A key is known exactly while fewer than the limit of other keys were entered since its last entry, and then with the value of that entry. |
| `AttentionPolicy.DismissalSuppresses` | custom_components/homeintent/attention_policy.py:73-81 | A dismissed occurrence is suppressed until the dismissal ends, unless it is urgent. |
| `AttentionPolicy.RepetitionIsSuppressed` | custom_components/homeintent/attention_policy.py:225-227 | What was just recorded is not reported again within the grouping window, whoever is asked for, unless it is urgent. |
| `AttentionPolicy.DeferralIsJustified` | custom_components/homeintent/attention_policy.py:228-234 | A message is put off only when the recipient was really sent the whole budget within the window. |
| `AttentionPolicy.MuteIsTakenBack` | custom_components/homeintent/attention_policy.py:83-95 | A mute is found until it is taken back, and taking one back touches no other. |
| `AttentionPolicy.MutesAreApart` | custom_components/homeintent/attention_policy.py:248-249 | Mutes of different users or kinds have different keys, for user ids without a zero character. |
| `EffectMonitor.EffectMonitor.Register` | custom_components/homeintent/effect_monitor.py:62-116 | Each entity gets a new pending effect with the advised deadline, at most the limit, and its previous one is replaced; a repeated entity keeps the last; a time without zone is refused. |
| `EffectMonitor.EffectMonitor.Observe` | custom_components/homeintent/effect_monitor.py:118-128 | Ends exactly the pending effects of that entity that expected the observed state. |
| `EffectMonitor.EffectMonitor.ExpireAfter` | custom_components/homeintent/effect_monitor.py:143-156 | A timer that wakes up reports and ends its effect if that is still pending and does nothing otherwise. |
| `EffectMonitor.EffectMonitor.Close` | custom_components/homeintent/effect_monitor.py:134-141 | Ends every pending effect and changes no other end. |
| `EffectMonitor.EffectMonitor.Discard` | custom_components/homeintent/effect_monitor.py:158-162 | Drops exactly one effect and its timer. |
| `EffectMonitor.OnePerEntity` | custom_components/homeintent/effect_monitor.py:100-110 | No entity has two pending effects. |
| `EffectMonitor.NextRegistration` | custom_components/homeintent/effect_monitor.py:91-115 | Registering entities one by one has the effect of registering the whole list. |
| `EffectMonitor.WatchedExactly` | custom_components/homeintent/effect_monitor.py:165-176 | The watched services and the states they are expected to lead to. |
| `EffectMonitor.AdviceIsClamped` | custom_components/homeintent/effect_monitor.py:76-84 | An advised time is used as it is between 100 milliseconds and the limit, and kept within these otherwise. |
| `EffectMonitor.ObservedOrExpired` | custom_components/homeintent/effect_monitor.py:62-160 | A run of a watched call, an observation and the timer: the effect ends as observed exactly if the expected state of the called entity was observed before, and is reported otherwise. |
| `EffectMonitor.EndsAreFinal` | custom_components/homeintent/effect_monitor.py:118-162 | Whatever happens after a moment of a run, an effect that had ended by then keeps its end. |
| `EffectMonitor.RunMonitor` | custom_components/homeintent/effect_monitor.py:62-162 | Any interleaving leaves exactly the effects, ends and reports that its steps determine; ends are final, the handler runs exactly once for each expired effect and never for an observed, replaced or closed one, and after closing nothing is pending. |
| `ExecutionCoordinator.Targets` | custom_components/homeintent/execution_coordinator.py:53-60 | Every entity the plan writes, each once. |
| `ExecutionCoordinator.WrittenExactly` | custom_components/homeintent/execution_coordinator.py:53-60 | An entity is a target exactly if some step of the plan writes it. |
| `ExecutionCoordinator.OthersExactly` | custom_components/homeintent/execution_coordinator.py:35-35 | Only other runs that own a target stand in the way of a run. |
| `ExecutionCoordinator.OwnIsFree` | custom_components/homeintent/execution_coordinator.py:30-50 | A run is granted again what it holds, and what it released stands in nobody's way. |
| `ExecutionCoordinator.ExecutionCoordinator.Acquire` | custom_components/homeintent/execution_coordinator.py:30-40 | Either the run owns all targets in addition to its own, or nothing changes and the answer names exactly the other owners in order. |
| `ExecutionCoordinator.ExecutionCoordinator.Release` | custom_components/homeintent/execution_coordinator.py:46-50 | Frees exactly the targets of that run. |
| `ExecutionCoordinator.HoldingsAreDisjoint` | custom_components/homeintent/execution_coordinator.py:30-50 | Runs that hold something hold different things. |
| `ExecutionCoordinator.GrantIsExclusive` | custom_components/homeintent/execution_coordinator.py:34-40 | What another run is granted does not overlap what a run holds. |
| `ExecutionCoordinator.GrantIsKept` | custom_components/homeintent/execution_coordinator.py:30-50 | A run owns all targets of a granted call until it releases them, whatever others ask for meanwhile. |
| `ExecutionCoordinator.RunReservations` | custom_components/homeintent/execution_coordinator.py:30-50 | Over any interleaving of calls the owners are those the calls determine, each call is granted exactly when no other run owns a target and is else told all of these in order, and grants that were not released in between have disjoint targets for different runs. |
| `AgentClaims.AgentRuntime.Signal` | custom_components/homeintent/agent_runtime.py:112-172 | An event is created only when no live or recent one has its key, and the existing one is returned otherwise; ask and auto without an action are refused. |
| `AgentClaims.AgentRuntime.FindDuplicate` | custom_components/homeintent/agent_runtime.py:586-602 | The search finds an event that answers the signal if and only if there is one. |
| `AgentClaims.UnansweredExactly` | custom_components/homeintent/agent_runtime.py:586-602 | A signal is answered exactly by an event of its key that is live, or that ended otherwise than by expiry and less than the cooldown ago. |
| `AgentClaims.AgentRuntime.ContinueSignal` | custom_components/homeintent/agent_runtime.py:174-239 | The situation is over, or the automatic action was carried out, or the event is asked about; at most one execution, and none of another event. |
| `AgentClaims.AutomaticRuns` | custom_components/homeintent/agent_runtime.py:181-239 | A run from the start: an automatic event is carried out before its delivery exactly if that is allowed and works. |
| `AgentClaims.AttemptDecidesQuestion` | custom_components/homeintent/agent_runtime.py:181-239 | After its delivery an event with an action can be claimed exactly if it asked from the beginning, or is automatic and was not carried out. |
| `AgentClaims.AgentRuntime.FinishDelivery` | custom_components/homeintent/agent_runtime.py:572-584 | The delivered copy replaces the stored event, whatever became of it meanwhile, and keeps it resolved when its action was carried out. |
| `AgentClaims.AgentRuntime.Press` | custom_components/homeintent/agent_runtime.py:242-325 | A press, also during the delivery, claims if and only if it confirms a stored event that is active, notified or snoozed, asks, has an action, has not expired and does not expect another device; no coroutine of an earlier claim is replaced; expiry, ignoring and snoozing start nothing. |
| `AgentClaims.PutAsideOrPutOff` | custom_components/homeintent/agent_runtime.py:285-306 | An ignored question can never be claimed again; a snoozed one is stored as such once its reminder exists, and can still be claimed until it expires. |
| `AgentClaims.LatePressExpires` | custom_components/homeintent/agent_runtime.py:276-284 | Any expected press from the expiry on stores the event as expired, and it can never be claimed again. |
| `AgentClaims.AgentRuntime.Reply` | custom_components/homeintent/agent_runtime.py:327-370 | A spoken answer is for an event if and only if this is the only stored one that asks, is notified, was delivered as speech and has not expired; it is then no longer being delivered and is used up, a yes claims its action and a no starts nothing. Otherwise nothing changes. |
| `AgentClaims.SpokenAnswerCounts` | custom_components/homeintent/agent_runtime.py:327-370 | A run from the start: a question is signalled, delivered and answered by a word. Delivered as speech and before its expiry, a yes carries its action out exactly once and a no never; otherwise, so from the expiry on, the word changes nothing. |
| `AgentClaims.AgentRuntime.ExecuteClaimed` | custom_components/homeintent/agent_runtime.py:442-479 | The claimed action is carried out once by each claim, and not when the situation is over or the plan invalid. |
| `AgentClaims.PerformedExactly` | custom_components/homeintent/agent_runtime.py:442-493 | When the situation is over or no action is stored the event is resolved, with an invalid plan denied, and nothing carried out; otherwise the action is carried out once if the call succeeds, and the result is still to be stored. No other event or count changes. |
| `AgentClaims.AgentRuntime.StoreResult` | custom_components/homeintent/agent_runtime.py:480-493 | The result of the call decides the final state. |
| `AgentClaims.SavedIsConsistent` | custom_components/homeintent/agent_runtime.py:314-321 | Storing an event with its coroutines keeps every other event, coroutine and execution count coherent. |
| `AgentClaims.OneLivePerKey` | custom_components/homeintent/agent_runtime.py:149-172 | No key has two live events but those a delivery made live again. |
| `AgentClaims.CarriedOutAtMost` | custom_components/homeintent/agent_runtime.py:314-325 | In a consistent state no action was carried out more than once, or twice if its event was claimed while its delivery was outstanding. |
| `AgentClaims.RunAgent` | custom_components/homeintent/agent_runtime.py:242-370 | However presses, spoken answers, signals, deliveries and executions interleave, the runtime is in the state the steps determine; no proposed action is carried out more than twice, and twice only if its event was claimed during its delivery; and no key has two live events but those a delivery made live again. |
| `AgentClaims.DeliveryReopens` | custom_components/homeintent/agent_runtime.py:572-584 | Whatever was stored meanwhile, after a delivery the event can be claimed if and only if the copy that was delivered still asks, is unexpired and the device is expected. |
| `AgentClaims.PressDuringDeliveryRunsTwice` | custom_components/homeintent/agent_runtime.py:242-325 | A run from the start in which a question is pressed once during its delivery and once after it, and its action carried out twice. |
| `AgentClaims.IgnoredDuringDeliveryRivals` | custom_components/homeintent/agent_runtime.py:242-325 | A run in which a question is ignored during its delivery, and afterwards stands live beside a newer event of the same key. |
| `AgentClaims.QuestionIsDelivered` | custom_components/homeintent/agent_runtime.py:149-239 | Signalling a question leads to that delivery. |
| `Grounding.FirstFitting` | custom_components/homeintent/automation_grounding.py:320-338 | A description that is found is one of those tried and resolves to exactly the wanted set; if none is found, none of them does. |
| `Grounding.FittingComesFirst` | custom_components/homeintent/automation_grounding.py:320-338 | No description tried before the found one resolves to exactly the wanted set. |
| `Grounding.TargetDenotesCandidates` | custom_components/homeintent/automation_grounding.py:301-344 | Resolving the compressed target again yields exactly the candidates, for every non-empty candidate list from entities with distinct ids. |
| `Grounding.OrderIsIrrelevant` | custom_components/homeintent/automation_grounding.py:301-344 | The target does not depend on the order of candidates or entities. |
| `Grounding.ListedOnlyWhenNeeded` | custom_components/homeintent/automation_grounding.py:315-344 | Devices are listed only when no class-level target of any kind denotes exactly them. |
| `Grounding.UnspokenAreaOnlyWhenNeeded` | custom_components/homeintent/automation_grounding.py:326-330 | A room nobody spoke of is part of the target only when no target without a room would do. |
| `Grounding.SpokenAreaIsKept` | custom_components/homeintent/automation_grounding.py:301-344 | A room that was spoken of is part of the target whenever a target with it would do. |
| `Grounding.SelectedAreMeant` | custom_components/homeintent/automation_grounding.py:462-484 | The selected candidates are exactly the entities of the class, room, name and state domain the subject describes. |
| `Grounding.StatesFitExactly` | custom_components/homeintent/automation_grounding.py:364-371 | Which devices a spoken state can be of. |
| `Grounding.EffectiveExactly` | custom_components/homeintent/automation_grounding.py:430-478 | What a subject without a noun is taken for: any motion detector for a motion, the temperature for degrees, and otherwise nothing when it is no name. |
| `Grounding.RefusedAtOnce` | custom_components/homeintent/automation_grounding.py:420-478 | What is refused before any device is looked for, case by case. |
| `Grounding.FoundExactly` | custom_components/homeintent/automation_grounding.py:480-511 | The wanted devices decide: not applicable, not found and the question each if and only if no named one is meant, none is wanted, or several are and not any will do; the question is about all of them and the event watches all of them. |
| `Grounding.ResolvedMeansExactly` | custom_components/homeintent/automation_grounding.py:420-511 | A resolved event watches exactly the entities its subject means and its target denotes just these; several only for an any-reference or a generic window, door or motion detector. |
| `Grounding.NumericExactlyWhenMeasurable` | custom_components/homeintent/automation_grounding.py:546-610 | A numeric trigger is built if and only if all devices share one domain in which the number, unit, half and direction have a meaning, and it carries that meaning and the spoken threshold. |
| `Grounding.ProjectedAsSaid` | custom_components/homeintent/automation_grounding.py:546-610 | A trigger that is built fires as it was said: a numeric one on exactly the measured values the spoken comparison is true of, a bare number meaning just this value; a state one on the spoken state; with the spoken direction and duration. A state without a direction is always built. |
| `Grounding.ResolvedAsSaid` | custom_components/homeintent/automation_grounding.py:420-610 | So does every resolved event, and its target keeps a room that was spoken of, and leaves one out that was not, wherever a target so formed denotes the devices. |
| `Grounding.AmbiguityIsReal` | custom_components/homeintent/automation_grounding.py:494-510 | A question is asked only about several entities the subject means, and never for an any-reference. |
| `Grounding.ChoiceIsUnique` | custom_components/homeintent/automation_grounding.py:621-643 | A chosen candidate is one of the candidates and the only one that fits the answer. |
| `Grounding.ChosenExactly` | custom_components/homeintent/automation_grounding.py:621-643 | A choice is made if and only if there is a word and either one candidate alone carries the name or one alone has all the words. |
| `Grounding.ChoiceDenotesDevice` | custom_components/homeintent/automation_grounding.py:613-643 | A clarified event watches exactly the chosen device, and fires as it was said. |

## Left out

- YAML, JSON, hashing, file and registry libraries: contents are typed values, the category assignment and the removal of registry entries are single steps that may fail.
- Unreadable journal, history and metadata files, and malformed entries in them: entries are typed, and reading these three files does not fail.
- The text of the date guard and of stored timestamps: `Texts` stands for formatting and recognising them, with the recognition of what was formatted as a hypothesis where a round trip needs it. The literal template built while rescheduling does not have balanced braces, so nothing is claimed about its characters.
- Automation sections that are not lists, aliases that are not text, and the older section names of legacy configurations.
- A duplication that raises while rewriting leaves nothing behind, because it works on a copy. Duplication rewrites nested dictionaries in place on that copy; the model works on tree values, so aliasing inside the copy is not captured.
- `async_pause_automation_until`, `async_list_automations` and the runtime information: they add a time trigger or only read.
- A removed registry entry whose removal failed: the model takes removal and reload as one reload step.
- AutomationRuns.UndoIsAStack: stated for successful commands without external editors, because a rollback clears the journal before it withdraws the undo entry.
- AutomationRuns.CrashIsAtomic: the file must be canonical or the change empty, which RollbackCanBeResumed shows to be necessary; external editors are excluded.
- The grammar of leaves: leaf parsing is any partial function from text to trees.
- ConditionTokenizer.SentenceRoundTrip: stated from the tokenizer on, after the "und" of time windows has been masked (`automation_condition_parser.py:101-116`); letter case is folded for ASCII only, and the character classes are parameters that fix only the blank and six letters.
- `mutes()`, muting as a filter of decisions, and groups of pending items in the attention store: groups are not stored and the number of their recipients is not bounded.
- AttentionDecisions.DecisionIsExact: stated for at most 64 recipients, as many as the store remembers; for dismissals and subjects it holds of any number of keys.
- Reasons attached to attention decisions and to grounding results.
- AttentionDecisions.RunPolicy: deciding and recording are one step of the store in this run; `AttentionOverlap` separates them on values, without the store.
- AttentionPolicy.BudgetIsKept: assumes the policy enabled and a clock that does not run backwards.
- Effect timers have no clock: a timer may fire at any moment, which covers every race; that it does not fire before its deadline is left to the event loop. The action observer is not modelled.
- `async_recheck` and `async_recover`, which deliver an event again.
- AutomationExecutor.RecordRun: as one operation it lets no other act between counting a run and deleting the automation, although the source (`automation_executor.py:801-821`) releases the lock there; in whole runs, counting and deleting are also commands of their own and others may come between them.
- AutomationExecutor.Duplicate: the source reads automation and entry before it takes the lock; as one operation the model lets no other act in between, and in whole runs a creation may take any configuration, so one read earlier as well.
- AutomationRuns.RunAll: with external editors at work, what a command does to the state is not tied to its intention.
- Validation of the data of an agent signal other than the missing action, and the text of notifications.
- An exception while the reminder of a snoozed event is created changes nothing and is modelled as such.
- Reading the subject words of an event clause, presence events, and the wording of questions: grounding starts from the subject reading.
- Grounding.OrderIsIrrelevant: resolved entities are compared as sets, so a candidate list that repeats an entity is treated like one that does not.
- Candidates of a question are listed in the order of the entities, not by their friendly names.
- Execution policy, communication routing, dialog and planning layers: mostly case analysis on single calls.
