/** The bounded undo stack kept beside the automations. */
module AutomationHistory {
  import opened Common
  import opened TransactionHost

  /** The stack after an append: the newest `limit` entries. */
  function Pushed(history: seq<HistoryEntry>, entry: HistoryEntry, limit: nat): (r: seq<HistoryEntry>)
    requires limit >= 1
    ensures 1 <= |r| <= limit && r[|r| - 1] == entry
  {
    KeepLastIsSuffix(history + [entry], limit);
    KeepLast(history + [entry], limit)
  }

  lemma PushedHolds(history: seq<HistoryEntry>, entry: HistoryEntry, limit: nat, e: HistoryEntry)
    requires limit >= 1 && e in Pushed(history, entry, limit)
    ensures e in history || e == entry
  {
    KeepLastIsSuffix(history + [entry], limit);
  }

  /** The stack without its newest entry. */
  function Popped(history: seq<HistoryEntry>): seq<HistoryEntry> {
    if history == [] then [] else history[..|history| - 1]
  }

  /** The stack once the entry stamped `createdAt` is taken back, if it is the newest. */
  function Withdrawn(history: seq<HistoryEntry>, createdAt: nat): seq<HistoryEntry> {
    if history != [] && history[|history| - 1].createdAt == createdAt then Popped(history) else history
  }

  /** Append followed by pop is the identity unless the stack was full; then the oldest entry is gone. */
  lemma PopAfterPush(history: seq<HistoryEntry>, entry: HistoryEntry, limit: nat)
    requires limit >= 1
    ensures Popped(Pushed(history, entry, limit)) == KeepLast(history, limit - 1)
    ensures Popped(Pushed(history, entry, limit)) == history <==> |history| < limit
  {
    KeepLastIsSuffix(history + [entry], limit);
    KeepLastIsSuffix(history, limit - 1);
  }

  /** Only a transaction's own entry is withdrawn: stamps grow, so without it on top the stack stays as it is. */
  lemma OnlyOwnIsWithdrawn(history: seq<HistoryEntry>, entry: HistoryEntry, limit: nat)
    requires limit >= 1 && forall e :: e in history ==> e.createdAt < entry.createdAt
    ensures Withdrawn(history, entry.createdAt) == history
    ensures Withdrawn(Pushed(history, entry, limit), entry.createdAt) == KeepLast(history, limit - 1)
  {
    assert history != [] ==> history[|history| - 1] in history;
    PopAfterPush(history, entry, limit);
  }

  method Append(h: Host, entry: HistoryEntry) returns (r: Result)
    requires h.Valid() && entry.createdAt < h.clock
    modifies h`schedule, h`yaml, h`trace, h`history
    ensures h.Valid() && h.OnlyEnvironment()
    ensures r == Done ==> h.history == Pushed(old(h.history), entry, h.limit)
    ensures r != Done ==> h.history == old(h.history) && h.Faulted()
    ensures r != RaisedLate
  {
    var entries := h.history + [entry];
    :- h.Await();
    KeepLastIsSuffix(entries, h.limit);
    h.history := KeepLast(entries, h.limit);
    return Done;
  }

  method Peek(h: Host) returns (latest: Option<HistoryEntry>)
    ensures latest == if h.history == [] then None else Some(h.history[|h.history| - 1])
  {
    latest := if h.history == [] then None else Some(h.history[|h.history| - 1]);
  }

  method Pop(h: Host) returns (r: Result, popped: Option<HistoryEntry>)
    requires h.Valid()
    modifies h`schedule, h`yaml, h`trace, h`history
    ensures h.Valid() && h.OnlyEnvironment()
    ensures r == Done ==>
              && h.history == Popped(old(h.history))
              && (old(h.history) == [] <==> popped == None)
              && (popped.Some? ==> old(h.history) == h.history + [popped.value])
    ensures r != Done ==> h.history == old(h.history) && h.Faulted()
    ensures old(h.history) != [] ==> (r.Raised? <==> FailsAfter(old(h.schedule), 0))
    ensures r != Done ==> h.Pending() + 1 == old(h.Pending())
    ensures r != RaisedLate
  {
    popped := None;
    if h.history == [] {
      return Done, None;
    }
    var n := |h.history| - 1;
    var last := h.history[n];
    :- h.Await();
    h.history := h.history[..n];
    return Done, Some(last);
  }

  method PopIfCreatedAt(h: Host, createdAt: nat) returns (r: Result)
    requires h.Valid()
    modifies h`schedule, h`yaml, h`trace, h`history
    ensures h.Valid() && h.OnlyEnvironment()
    ensures r == Done ==> h.history == Withdrawn(old(h.history), createdAt)
    ensures r != Done ==>
              && h.history == old(h.history) && h.Faulted()
              && h.history != [] && h.history[|h.history| - 1].createdAt == createdAt
    ensures r != RaisedLate
  {
    var latest := Peek(h);
    if latest.Some? && latest.value.createdAt == createdAt {
      var _ :- Pop(h);
    }
    return Done;
  }
}
