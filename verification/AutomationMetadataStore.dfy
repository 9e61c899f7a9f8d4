/** The metadata sidecar: one entry per automation that HomeIntent created. */
module AutomationMetadataStore {
  import opened Common
  import opened Config
  import opened TransactionHost

  /** The fields `async_update` is told to overwrite; every other field of the entry stays. */
  datatype Change = Change(
    scheduledFor: Option<Stamp> := None,
    maxRuns: Option<Option<int>> := None,
    runCount: Option<int> := None,
    sourceText: Option<string> := None)

  /** The entry after a change; every caller also moves it one version further. */
  function Applied(entry: Entry, change: Change): (r: Entry)
    ensures r.version == entry.version + 1
  {
    entry.(
      version := entry.version + 1,
      scheduledFor := if change.scheduledFor.Some? then change.scheduledFor else entry.scheduledFor,
      maxRuns := if change.maxRuns.Some? then change.maxRuns.value else entry.maxRuns,
      runCount := if change.runCount.Some? then change.runCount.value else entry.runCount,
      sourceText := if change.sourceText.Some? then change.sourceText.value else entry.sourceText)
  }

  /** Writes the whole sidecar file, atomically. */
  method Write(h: Host, entries: Metadata) returns (r: Result)
    requires h.Valid()
    modifies h`schedule, h`yaml, h`trace, h`metadata
    ensures h.Valid() && h.OnlyEnvironment()
    ensures r == Done ==> h.metadata == entries
    ensures r != Done ==> h.metadata == old(h.metadata) && h.Faulted()
    ensures r != RaisedLate
    ensures h.Took(r.Done?, 1)
  {
    r := h.Await();
    if r.IsFailure() {
      return;
    }
    h.metadata := entries;
    return Done;
  }

  method Save(h: Host, id: Id, entry: Entry) returns (r: Result)
    requires h.Valid()
    modifies h`schedule, h`yaml, h`trace, h`metadata
    ensures h.Valid() && h.OnlyEnvironment()
    ensures r == Done ==> h.metadata == old(h.metadata)[id := entry]
    ensures r != Done ==> h.metadata == old(h.metadata) && h.Faulted()
    ensures r != RaisedLate
  {
    r := Write(h, h.metadata[id := entry]);
  }

  method Delete(h: Host, id: Id) returns (r: Result)
    requires h.Valid()
    modifies h`schedule, h`yaml, h`trace, h`metadata
    ensures h.Valid() && h.OnlyEnvironment()
    ensures r == Done ==> h.metadata == old(h.metadata) - {id}
    ensures r != Done ==> h.metadata == old(h.metadata) && h.Faulted()
    ensures r != RaisedLate
  {
    var entries := h.metadata;
    if id !in entries {
      return Done;
    }
    r := Write(h, entries - {id});
  }

  method Update(h: Host, id: Id, change: Change) returns (r: Result)
    requires h.Valid()
    modifies h`schedule, h`yaml, h`trace, h`metadata
    ensures h.Valid() && h.OnlyEnvironment()
    ensures r == Done ==>
              id in old(h.metadata) && h.metadata == old(h.metadata)[id := Applied(old(h.metadata)[id], change)]
    ensures r != Done ==> h.metadata == old(h.metadata)
    ensures r != Done && id in old(h.metadata) ==> h.Faulted()
    ensures r != RaisedLate
  {
    var entries := h.metadata;
    if id !in entries {
      return Raised;
    }
    r := Write(h, entries[id := Applied(entries[id], change)]);
  }
}
