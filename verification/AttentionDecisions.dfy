/** What is decided about a message, told from what was recorded and dismissed before it. */
module AttentionDecisions {
  import opened Common
  import opened AttentionStore
  import opened AttentionRecency
  import opened AttentionPolicy

  // ----- what a run entered into the store ----------------------------------------------

  /** The dismissals of a run, each with its end. */
  function Dismissals(events: seq<Event>): seq<Slot<Stamp>> {
    if events == [] then []
    else
      var last := events[|events| - 1];
      Dismissals(events[..|events| - 1]) + if last.step.Dismissing? then [Slot(last.step.key, last.step.until)] else []
  }

  /** The keys a run recorded, each with the moment. */
  function Subjects(events: seq<Event>, outcomes: seq<Option<Outcome>>): seq<Slot<Stamp>>
    requires |events| == |outcomes|
  {
    if events == [] then []
    else
      var n := |events| - 1;
      Subjects(events[..n], outcomes[..n]) +
      match events[n].step
      case Asking(q) => if outcomes[n] in {Some(Deliver), Some(Bypass)} then [Slot(q.dedupeKey, events[n].at)] else []
      case Flushing(recipient) => [Slot("group:" + recipient, events[n].at)]
      case _ => []
  }

  lemma OneMoreEntry<V>(entries: seq<Slot<V>>, slot: Slot<V>, limit: nat)
    ensures Filled(entries + [slot], limit) == KeepLast(Renewed(Filled(entries, limit), slot.key, slot.value), limit)
  {
    assert (entries + [slot])[..|entries|] == entries;
  }

  /** The store holds what these entries leave of dismissals and subjects. */
  predicate Holds(m: Memory, dismissals: seq<Slot<Stamp>>, subjects: seq<Slot<Stamp>>) {
    && m.dismissedUntil == Filled(dismissals, MAX_TRACKED_KEYS)
    && m.keyLast == Filled(subjects, MAX_TRACKED_KEYS)
  }

  lemma StepHolds(config: Config, m: Memory, e: Event, dismissals: seq<Slot<Stamp>>, subjects: seq<Slot<Stamp>>)
    requires Holds(m, dismissals, subjects)
    ensures
      var outcome := Decided(config, m, e);
      Holds(Stepped(config, m, e),
            dismissals + (if e.step.Dismissing? then [Slot(e.step.key, e.step.until)] else []),
            subjects + match e.step
                       case Asking(q) => if outcome in {Some(Deliver), Some(Bypass)} then [Slot(q.dedupeKey, e.at)] else []
                       case Flushing(recipient) => [Slot("group:" + recipient, e.at)]
                       case _ => [])
  {
    assert dismissals + [] == dismissals && subjects + [] == subjects;
    match e.step
    case Asking(q) => OneMoreEntry(subjects, Slot(q.dedupeKey, e.at), MAX_TRACKED_KEYS);
    case Flushing(recipient) => OneMoreEntry(subjects, Slot("group:" + recipient, e.at), MAX_TRACKED_KEYS);
    case Dismissing(key, until) => OneMoreEntry(dismissals, Slot(key, until), MAX_TRACKED_KEYS);
    case _ =>
  }

  lemma {:induction false} RunHolds(config: Config, events: seq<Event>)
    ensures Holds(MemoryAfter(config, events), Dismissals(events), Subjects(events, Outcomes(config, events)))
  {
    if events != [] {
      var n := |events| - 1;
      RunHolds(config, events[..n]);
      assert Outcomes(config, events)[..n] == Outcomes(config, events[..n]);
      StepHolds(config, MemoryAfter(config, events[..n]), events[n], Dismissals(events[..n]),
                Subjects(events[..n], Outcomes(config, events[..n])));
    }
  }

  /** What a run keeps about its memory and its log, whatever the budget. */
  ghost predicate Followed(m: Memory, log: seq<Sent>, now: Stamp, recipients: set<string>) {
    Bounded(m) && Remembered(m, log) && Keys(m.deliveries) <= recipients && InOrder(log, now)
  }

  lemma SendingIsFollowed(m: Memory, log: seq<Sent>, sent: Sent, dedupeKey: string, recipients: set<string>)
    requires Followed(m, log, sent.at, recipients) && sent.recipient in recipients && |recipients| <= MAX_RECIPIENTS
    ensures Followed(Delivered(m, sent.recipient, dedupeKey, sent.at), log + [sent], sent.at, recipients)
  {
    DeliveryIsRemembered(m, log, sent, dedupeKey, recipients);
    DeliveredIsBounded(m, sent.recipient, dedupeKey, sent.at);
  }

  lemma QuietStepIsFollowed(m: Memory, log: seq<Sent>, now: Stamp, next: Memory, recipients: set<string>)
    requires Followed(m, log, now, recipients) && Bounded(next) && next.deliveries == m.deliveries
    ensures Followed(next, log, now, recipients)
  {
    forall recipient
      ensures History(next, recipient) == KeepLast(TimesOf(log, recipient), MAX_DELIVERIES_PER_RECIPIENT)
    {
      assert History(m, recipient) == KeepLast(TimesOf(log, recipient), MAX_DELIVERIES_PER_RECIPIENT);
    }
  }

  lemma StepIsFollowed(config: Config, m: Memory, log: seq<Sent>, e: Event, recipients: set<string>)
    requires Followed(m, log, e.at, recipients) && Concerns(e.step, recipients) && |recipients| <= MAX_RECIPIENTS
    ensures Followed(Stepped(config, m, e), Logged(log, Sending(e, Decided(config, m, e))), e.at, recipients)
  {
    match e.step
    case Asking(q) =>
      var outcome := Decide(config, m, q, e.at);
      if IsSending(outcome) {
        SendingIsFollowed(m, log, SentAs(q, outcome, e.at), q.dedupeKey, recipients);
      }
    case Flushing(recipient) => SendingIsFollowed(m, log, Sent(recipient, e.at, false), "group:" + recipient, recipients);
    case Dismissing(key, until) =>
      DismissedIsBounded(m, key, until);
      QuietStepIsFollowed(m, log, e.at, Dismissed(m, key, until), recipients);
    case Muting(userId, kind) =>
      MutedIsBounded(m, userId, kind, e.at);
      QuietStepIsFollowed(m, log, e.at, Muted(m, userId, kind, e.at), recipients);
    case Unmuting(userId, kind) =>
      MutedIsBounded(m, userId, kind, e.at);
      QuietStepIsFollowed(m, log, e.at, Unmuted(m, userId, kind), recipients);
    case Restarting =>
  }

  lemma {:induction false} RunIsFollowed(config: Config, events: seq<Event>, recipients: set<string>, now: Stamp)
    requires Regular(events, recipients, MAX_RECIPIENTS) && forall e :: e in events ==> e.at <= now
    ensures Followed(MemoryAfter(config, events), Recorded(events, Outcomes(config, events)), now, recipients)
    decreases |events|
  {
    if events != [] {
      var before, last := events[..|events| - 1], events[|events| - 1];
      assert last in events;
      RunIsFollowed(config, before, recipients, last.at);
      assert Outcomes(config, events)[..|events| - 1] == Outcomes(config, before);
      StepIsFollowed(config, MemoryAfter(config, before), Recorded(before, Outcomes(config, before)), last, recipients);
    }
  }

  // ----- the decision ---------------------------------------------------------------------

  /** The last dismissal under the key still runs, and has not been evicted by that of other keys. */
  predicate InForce(dismissals: seq<Slot<Stamp>>, key: string, now: Stamp) {
    exists i :: 0 <= i < |dismissals| && Recent(dismissals, key, MAX_TRACKED_KEYS, i) && now < dismissals[i].value
  }

  /** The subject was recorded within this time, and has not been evicted by others since. */
  predicate Reported(subjects: seq<Slot<Stamp>>, key: string, now: Stamp, window: nat) {
    exists i :: 0 <= i < |subjects| && Recent(subjects, key, MAX_TRACKED_KEYS, i) && now - subjects[i].value < window
  }

  /** The recipient got the whole budget within the window, which the history is long enough to tell. */
  predicate UsedUp(config: Config, times: seq<Stamp>, now: Stamp) {
    config.budget <= MAX_DELIVERIES_PER_RECIPIENT && CountSince(times, now - config.budgetWindow) >= config.budget
  }

  predicate JustSent(times: seq<Stamp>, now: Stamp, window: nat) {
    times != [] && now - times[|times| - 1] < window
  }

  /** One sentence for each answer, on what was dismissed and recorded before. */
  predicate Rightly(config: Config, outcome: Outcome, q: Request, now: Stamp, dismissals: seq<Slot<Stamp>>,
                    subjects: seq<Slot<Stamp>>, times: seq<Stamp>)
  {
    var limited := config.enabled && q.priority !in {Urgent, Critical};
    var occurrence := if q.occurrence == None || q.occurrence == Some("") then q.dedupeKey else q.occurrence.value;
    var silenced := InForce(dismissals, occurrence, now) || Reported(subjects, q.dedupeKey, now, config.groupWindow);
    var minor, usedUp := q.priority in {Info, Suggestion}, UsedUp(config, times, now);
    && (outcome == Bypass <==> q.priority in {Urgent, Critical})
    && (outcome == Suppress <==> limited && silenced)
    && (outcome == Defer <==> limited && !silenced && minor && usedUp)
    && (outcome == Group <==>
          limited && !silenced && minor && !usedUp && !q.requiresResponse && JustSent(times, now, config.groupWindow))
  }

  lemma EntriesAreFound(m: Memory, dismissals: seq<Slot<Stamp>>, subjects: seq<Slot<Stamp>>, key: string, subject: string, now: Stamp,
                        window: nat)
    requires Holds(m, dismissals, subjects)
    ensures
      var dismissed, last := Lookup(m.dismissedUntil, key), Lookup(m.keyLast, subject);
      && (InForce(dismissals, key, now) <==> dismissed.Some? && now < dismissed.value)
      && (Reported(subjects, subject, now, window) <==> last.Some? && now - last.value < window)
  {
    RecentExactly(dismissals, MAX_TRACKED_KEYS, key);
    RecentExactly(subjects, MAX_TRACKED_KEYS, subject);
  }

  lemma HistoryTells(config: Config, history: seq<Stamp>, times: seq<Stamp>, now: Stamp)
    requires history == KeepLast(times, MAX_DELIVERIES_PER_RECIPIENT) && Sorted(times)
    ensures UsedUp(config, times, now) <==> CountSince(history, now - config.budgetWindow) >= config.budget
    ensures JustSent(times, now, config.groupWindow) <==> history != [] && now - history[|history| - 1] < config.groupWindow
  {
    ForgettingIsHarmless(times, MAX_DELIVERIES_PER_RECIPIENT, now - config.budgetWindow);
    CountIsBounded(history, now - config.budgetWindow);
    KeepLastIsSuffix(times, MAX_DELIVERIES_PER_RECIPIENT);
  }

  /** The policy's answer, on a memory that holds what was entered and recorded. */
  lemma DecidedRightly(config: Config, m: Memory, q: Request, now: Stamp, dismissals: seq<Slot<Stamp>>, subjects: seq<Slot<Stamp>>,
                       times: seq<Stamp>)
    requires Holds(m, dismissals, subjects)
    requires History(m, q.recipient) == KeepLast(times, MAX_DELIVERIES_PER_RECIPIENT) && Sorted(times)
    ensures Rightly(config, Decide(config, m, q, now), q, now, dismissals, subjects, times)
  {
    EntriesAreFound(m, dismissals, subjects, DismissalKey(q), q.dedupeKey, now, config.groupWindow);
    HistoryTells(config, History(m, q.recipient), times, now);
  }

  /**
   The decision exactly: an urgent message bypasses the policy; a dismissed or
   just recorded subject is suppressed; a minor message beyond the budget is put
   off, and within it grouped with one just sent when it needs no answer; and
   everything else is delivered.
   */
  lemma DecisionIsExact(config: Config, events: seq<Event>, recipients: set<string>, q: Request, now: Stamp)
    requires Regular(events, recipients, MAX_RECIPIENTS) && forall e :: e in events ==> e.at <= now
    ensures
      var outcomes := Outcomes(config, events);
      Rightly(config, Decide(config, MemoryAfter(config, events), q, now), q, now,
              Dismissals(events), Subjects(events, outcomes), TimesOf(Recorded(events, outcomes), q.recipient))
  {
    var m, outcomes := MemoryAfter(config, events), Outcomes(config, events);
    var log := Recorded(events, outcomes);
    RunHolds(config, events);
    RunIsFollowed(config, events, recipients, now);
    TimesInOrder(log, q.recipient, now);
    assert History(m, q.recipient) == KeepLast(TimesOf(log, q.recipient), MAX_DELIVERIES_PER_RECIPIENT);
    DecidedRightly(config, m, q, now, Dismissals(events), Subjects(events, outcomes), TimesOf(log, q.recipient));
  }

  /** So the first message of all gets through, if there is a budget for it. */
  lemma FirstMessageIsDelivered(config: Config, q: Request, now: Stamp)
    requires q.priority !in {Urgent, Critical} && (config.enabled ==> config.budget >= 1)
    ensures Decide(config, MemoryAfter(config, []), q, now) == Deliver
  {
    DecisionIsExact(config, [], {}, q, now);
    assert !InForce([], DismissalKey(q), now) && !Reported([], q.dedupeKey, now, config.groupWindow);
  }

  /** What one delivered message leaves. */
  lemma AfterFirstMessage(config: Config, first: Request, at: Stamp)
    requires first.priority !in {Urgent, Critical} && config.enabled && config.budget >= 1
    ensures
      var events := [Event(at, Asking(first))];
      var outcomes := Outcomes(config, events);
      && Dismissals(events) == [] && Subjects(events, outcomes) == [Slot(first.dedupeKey, at)]
      && TimesOf(Recorded(events, outcomes), first.recipient) == [at]
  {
    var e := Event(at, Asking(first));
    FirstMessageIsDelivered(config, first, at);
    NextRecorded(config, [], e);
    assert [] + [e] == [e] && [e][..0] == [];
    var outcomes := Outcomes(config, [e]);
    assert outcomes == [Some(Deliver)] && outcomes[..0] == [];
    assert [SentAs(first, Deliver, at)][..0] == [];
  }

  /** And a second one, on another subject and in time, is grouped with it. */
  lemma SecondMessageIsGrouped(config: Config, first: Request, at: Stamp, q: Request, now: Stamp)
    requires config.enabled && config.budget >= 2 && at <= now && now - at < config.groupWindow
    requires first.priority !in {Urgent, Critical} && q.priority in {Info, Suggestion} && !q.requiresResponse
    requires q.recipient == first.recipient && q.dedupeKey != first.dedupeKey
    ensures Decide(config, MemoryAfter(config, [Event(at, Asking(first))]), q, now) == Group
  {
    AfterFirstMessage(config, first, at);
    DecisionIsExact(config, [Event(at, Asking(first))], {first.recipient}, q, now);
    GroupedRightly(config, Decide(config, MemoryAfter(config, [Event(at, Asking(first))]), q, now), q, now, first.dedupeKey, at);
  }

  lemma GroupedRightly(config: Config, outcome: Outcome, q: Request, now: Stamp, subject: string, at: Stamp)
    requires Rightly(config, outcome, q, now, [], [Slot(subject, at)], [at])
    requires config.enabled && config.budget >= 2 && now - at < config.groupWindow
    requires q.priority in {Info, Suggestion} && !q.requiresResponse && q.dedupeKey != subject
    ensures outcome == Group
  {
    CountIsBounded([at], now - config.budgetWindow);
    assert [Slot(subject, at)][0].key == subject;
    assert !Reported([Slot(subject, at)], q.dedupeKey, now, config.groupWindow);
    assert !UsedUp(config, [at], now) && JustSent([at], now, config.groupWindow);
  }

  // ----- whole runs -----------------------------------------------------------------------

  /** The `i`-th answer is the right one on what was recorded before. */
  predicate AnswersRightly(config: Config, events: seq<Event>, outcomes: seq<Option<Outcome>>, i: nat)
    requires i < |events| == |outcomes|
  {
    if events[i].step.Asking? then
      && outcomes[i].Some?
      && var q := events[i].step.request;
         Rightly(config, outcomes[i].value, q, events[i].at, Dismissals(events[..i]), Subjects(events[..i], outcomes[..i]),
                 TimesOf(Recorded(events[..i], outcomes[..i]), q.recipient))
    else outcomes[i] == None
  }

  lemma AnsweredRightly(config: Config, events: seq<Event>, recipients: set<string>, i: nat)
    requires Regular(events, recipients, MAX_RECIPIENTS) && i < |events|
    ensures AnswersRightly(config, events, Outcomes(config, events), i)
  {
    OutcomeAt(config, events, i);
    OutcomesUpTo(config, events, i);
    if events[i].step.Asking? {
      assert forall e :: e in events[..i] ==> e in events && e.at <= events[i].at;
      DecisionIsExact(config, events[..i], recipients, events[i].step.request, events[i].at);
    }
  }

  /**
   The sliding-window limit: whatever is asked, flushed, dismissed or muted,
   and however often the state is stored and read back, each message gets the
   right answer on what was recorded by then, the log holds exactly the
   deliveries decided, and no closed interval of the window's length holds
   more ordinary decisions to deliver than the budget.
   */
  method RunPolicy(config: Config, events: seq<Event>, clock: Clock, ghost recipients: set<string>)
    returns (store: AttentionStateStore, log: seq<Sent>, outcomes: seq<Option<Outcome>>)
    requires clock.Faithful()
    ensures fresh(store) && store.Valid() && store.Contents() == MemoryAfter(config, events)
    ensures |outcomes| == |events| && log == Recorded(events, outcomes)
    ensures Regular(events, recipients, MAX_RECIPIENTS) ==>
              forall i :: 0 <= i < |events| ==> AnswersRightly(config, events, outcomes, i)
    ensures config.enabled && config.budget <= MAX_DELIVERIES_PER_RECIPIENT && Regular(events, recipients, MAX_RECIPIENTS) ==>
              KeepsBudget(config, events, outcomes)
  {
    store, log, outcomes := Replay(config, events, clock);
    if Regular(events, recipients, MAX_RECIPIENTS) {
      forall i | 0 <= i < |events|
        ensures AnswersRightly(config, events, outcomes, i)
      {
        AnsweredRightly(config, events, recipients, i);
      }
      if config.enabled && config.budget <= MAX_DELIVERIES_PER_RECIPIENT {
        BudgetIsKept(config, events, recipients);
      }
    }
  }
}
