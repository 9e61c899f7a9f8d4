/**
 Deliveries that overlap: a message is decided, handed to the channels, and
 recorded under the time of the decision once it is delivered. Others may be
 recorded meanwhile.
 */
module AttentionOverlap {
  import opened Common
  import opened AttentionStore
  import opened AttentionPolicy
  import opened AttentionLimits

  // ----- runs ------------------------------------------------------------------------------

  /** A step in the order of recording; its decision was taken when the first `seen` steps were recorded. */
  datatype Turn = Turn(event: Event, seen: nat)

  /** The steps, what is remembered before each and at the end, and the decisions. */
  datatype Run = Run(turns: seq<Turn>, memories: seq<Memory>, outcomes: seq<Option<Outcome>>)

  /** Decided on what had been recorded by then, and applied to what is recorded now. */
  predicate Took(config: Config, run: Run, i: nat)
    requires i < |run.turns| && i + 1 < |run.memories| && i < |run.outcomes| && run.turns[i].seen <= i
  {
    var turn := run.turns[i];
    && run.outcomes[i] == Decided(config, run.memories[turn.seen], turn.event)
    && run.memories[i + 1] == Applied(run.memories[i], turn.event, run.outcomes[i])
  }

  predicate Possible(config: Config, run: Run) {
    && |run.memories| == |run.turns| + 1 && |run.outcomes| == |run.turns| && run.memories[0] == NOTHING
    && (forall i :: 0 <= i < |run.turns| ==> run.turns[i].seen <= i)
    && (forall i :: 0 <= i < |run.turns| ==> Took(config, run, i))
  }

  function EventsOf(turns: seq<Turn>): (events: seq<Event>)
    ensures |events| == |turns|
  {
    seq(|turns|, i requires 0 <= i < |turns| => turns[i].event)
  }

  /** Every order of decisions and records is a run. */
  lemma {:induction false} RunExists(config: Config, turns: seq<Turn>) returns (run: Run)
    requires forall i :: 0 <= i < |turns| ==> turns[i].seen <= i
    ensures run.turns == turns && Possible(config, run)
    decreases |turns|
  {
    if turns == [] {
      run := Run([], [NOTHING], []);
    } else {
      var n := |turns| - 1;
      var before := RunExists(config, turns[..n]);
      var outcome := Decided(config, before.memories[turns[n].seen], turns[n].event);
      run := Run(turns, before.memories + [Applied(before.memories[n], turns[n].event, outcome)], before.outcomes + [outcome]);
      forall i | 0 <= i < |turns|
        ensures Took(config, run, i)
      {
        assert i < n ==> Took(config, before, i);
      }
    }
  }

  /** Up to here the run is the ordinary one of these events. */
  predicate Ordinary(config: Config, run: Run, events: seq<Event>)
    requires |events| < |run.memories| && |events| <= |run.outcomes|
  {
    run.memories[|events|] == MemoryAfter(config, events) && run.outcomes[..|events|] == Outcomes(config, events)
  }

  lemma OrdinaryGoesOn(config: Config, run: Run, events: seq<Event>, e: Event)
    requires Possible(config, run) && |events| < |run.turns| && run.turns[|events|] == Turn(e, |events|)
    requires Ordinary(config, run, events)
    ensures Ordinary(config, run, events + [e])
  {
    var n := |events|;
    assert Took(config, run, n);
    NextRecorded(config, events, e);
    assert run.outcomes[..n + 1] == run.outcomes[..n] + [run.outcomes[n]];
  }

  /** A run in which every decision sees all earlier steps is the ordinary one. */
  lemma {:induction false} WithoutOverlap(config: Config, run: Run, n: nat)
    requires Possible(config, run) && n <= |run.turns| && forall i :: 0 <= i < |run.turns| ==> run.turns[i].seen == i
    ensures Ordinary(config, run, EventsOf(run.turns)[..n])
  {
    if n > 0 {
      WithoutOverlap(config, run, n - 1);
      OrdinaryGoesOn(config, run, EventsOf(run.turns)[..n - 1], run.turns[n - 1].event);
      assert EventsOf(run.turns)[..n] == EventsOf(run.turns)[..n - 1] + [run.turns[n - 1].event];
    }
  }

  /** The deliveries the first `n` steps recorded. */
  function LogOf(run: Run, n: nat): seq<Sent>
    requires n <= |run.turns| == |run.outcomes|
  {
    Recorded(EventsOf(run.turns)[..n], run.outcomes[..n])
  }

  function SendingOf(run: Run, n: nat): Option<Sent>
    requires n < |run.turns| == |run.outcomes|
  {
    Sending(run.turns[n].event, run.outcomes[n])
  }

  lemma LogNext(run: Run, n: nat)
    requires n < |run.turns| == |run.outcomes|
    ensures LogOf(run, n + 1) == Logged(LogOf(run, n), SendingOf(run, n))
  {
    var events := EventsOf(run.turns);
    assert events[..n + 1][..n] == events[..n] && run.outcomes[..n + 1][..n] == run.outcomes[..n];
  }

  /**
   At most `k` other steps are recorded between a decision and its own record,
   and a decision is not earlier than those whose records it sees.
   */
  predicate Overlapping(turns: seq<Turn>, k: nat) {
    && (forall i :: 0 <= i < |turns| ==> turns[i].seen <= i <= turns[i].seen + k)
    && (forall i, j :: 0 <= i < j < |turns| && i < turns[j].seen ==> turns[i].event.at <= turns[j].event.at)
  }

  predicate Involves(turns: seq<Turn>, recipients: set<string>) {
    |recipients| <= MAX_RECIPIENTS && forall i :: 0 <= i < |turns| ==> Concerns(turns[i].event.step, recipients)
  }

  // ----- times are nearly in order ------------------------------------------------------------

  /** Entries more than `k` places apart are in order. */
  predicate NearlySorted(times: seq<Stamp>, k: nat) {
    forall p, q :: 0 <= p && p + k < q < |times| ==> times[p] <= times[q]
  }

  lemma TimesNext(log: seq<Sent>, sent: Option<Sent>, recipient: string)
    ensures TimesOf(Logged(log, sent), recipient) ==
            TimesOf(log, recipient) + if sent.Some? && sent.value.recipient == recipient then [sent.value.at] else []
  {
    if sent.Some? {
      assert (log + [sent.value])[..|log|] == log;
    }
  }

  /** These are the times of these steps, in order. */
  predicate Located(turns: seq<Turn>, origins: seq<nat>, times: seq<Stamp>, n: nat)
    requires n <= |turns|
  {
    && |origins| == |times|
    && (forall p :: 0 <= p < |origins| ==> origins[p] < n && turns[origins[p]].event.at == times[p])
    && (forall p, q :: 0 <= p < q < |origins| ==> origins[p] < origins[q])
  }

  lemma SentWhenDecided(e: Event, outcome: Option<Outcome>)
    ensures Sending(e, outcome).Some? ==> Sending(e, outcome).value.at == e.at
  {
  }

  lemma LocatedNext(turns: seq<Turn>, origins: seq<nat>, times: seq<Stamp>, n: nat)
    requires n < |turns| && Located(turns, origins, times, n)
    ensures Located(turns, origins + [n], times + [turns[n].event.at], n + 1)
    ensures Located(turns, origins + [], times + [], n + 1)
  {
    assert origins + [] == origins && times + [] == times;
  }

  /** The `n`-th step recorded a delivery to the recipient. */
  predicate Recording(run: Run, recipient: string, n: nat)
    requires n < |run.turns| == |run.outcomes|
  {
    SendingOf(run, n).Some? && SendingOf(run, n).value.recipient == recipient
  }

  lemma TimesAfter(run: Run, recipient: string, n: nat)
    requires n < |run.turns| == |run.outcomes|
    ensures
      TimesOf(LogOf(run, n + 1), recipient) ==
        TimesOf(LogOf(run, n), recipient) + (if Recording(run, recipient, n) then [run.turns[n].event.at] else [])
  {
    LogNext(run, n);
    TimesNext(LogOf(run, n), SendingOf(run, n), recipient);
    SentWhenDecided(run.turns[n].event, run.outcomes[n]);
  }

  /** The steps that recorded the deliveries to the recipient. */
  lemma {:induction false} Origins(run: Run, recipient: string, n: nat) returns (origins: seq<nat>)
    requires n <= |run.turns| == |run.outcomes|
    ensures Located(run.turns, origins, TimesOf(LogOf(run, n), recipient), n)
  {
    origins := [];
    if n > 0 {
      var times := TimesOf(LogOf(run, n - 1), recipient);
      origins := Origins(run, recipient, n - 1);
      TimesAfter(run, recipient, n - 1);
      LocatedNext(run.turns, origins, times, n - 1);
      origins := origins + if Recording(run, recipient, n - 1) then [n - 1] else [];
    }
  }

  lemma {:induction false} Spread(origins: seq<nat>, p: nat, q: nat)
    requires p <= q < |origins|
    requires forall i, j :: 0 <= i < j < |origins| ==> origins[i] < origins[j]
    ensures origins[q] - origins[p] >= q - p
    decreases q
  {
    if p < q {
      Spread(origins, p, q - 1);
    }
  }

  lemma TimesNearlySorted(run: Run, k: nat, recipient: string, n: nat)
    requires n <= |run.turns| == |run.outcomes| && Overlapping(run.turns, k)
    ensures NearlySorted(TimesOf(LogOf(run, n), recipient), k)
  {
    var times := TimesOf(LogOf(run, n), recipient);
    var origins := Origins(run, recipient, n);
    forall p, q | 0 <= p && p + k < q < |times|
      ensures times[p] <= times[q]
    {
      Spread(origins, p, q);
      var i, j := origins[p], origins[q];
      assert j <= run.turns[j].seen + k;
    }
  }

  lemma {:induction false} CountOfConcat(times: seq<Stamp>, more: seq<Stamp>, since: Stamp)
    ensures CountSince(times + more, since) == CountSince(times, since) + CountSince(more, since)
  {
    if more == [] {
      assert times + more == times;
    } else {
      var n := |more| - 1;
      CountOfConcat(times, more[..n], since);
      assert (times + more)[..|times + more| - 1] == times + more[..n];
    }
  }

  lemma {:induction false} AllSince(times: seq<Stamp>, since: Stamp)
    requires forall i :: 0 <= i < |times| ==> times[i] >= since
    ensures CountSince(times, since) == |times|
  {
    if times != [] {
      AllSince(times[..|times| - 1], since);
    }
  }

  /** If one of the dropped times counts, so do all kept ones but the first `k`. */
  lemma LaterOnesCount(dropped: seq<Stamp>, kept: seq<Stamp>, k: nat, since: Stamp, p: nat)
    requires NearlySorted(dropped + kept, k) && p < |dropped| && dropped[p] >= since && k <= |kept|
    ensures CountSince(kept, since) + k >= |kept|
  {
    var times, head, tail := dropped + kept, kept[..k], kept[k..];
    forall i | 0 <= i < |tail|
      ensures tail[i] >= since
    {
      assert tail[i] == times[|dropped| + k + i] && times[p] <= times[|dropped| + k + i];
    }
    AllSince(tail, since);
    CountOfConcat(head, tail, since);
    assert kept == head + tail;
  }

  /** Of nearly sorted times, forgetting all but the last hides none from a count that stays `k` below their number. */
  lemma ForgettingNearlyHarmless(times: seq<Stamp>, limit: nat, k: nat, since: Stamp)
    requires NearlySorted(times, k)
    ensures
      var kept := CountSince(KeepLast(times, limit), since);
      kept == CountSince(times, since) || kept + k >= limit
  {
    KeepLastIsSuffix(times, limit);
    if |times| > limit && k < limit {
      var cut := |times| - limit;
      var dropped, kept := times[..cut], times[cut..];
      assert times == dropped + kept;
      CountOfConcat(dropped, kept, since);
      if p :| 0 <= p < cut && dropped[p] >= since {
        LaterOnesCount(dropped, kept, k, since, p);
      } else {
        NoneSince(dropped, since);
      }
    }
  }

  // ----- the limit with overlap -----------------------------------------------------------------

  /** So many steps add at most so many deliveries to any window. */
  lemma {:induction false} WindowGrows(config: Config, run: Run, seen: nat, n: nat, recipient: string, from: Stamp)
    requires seen <= n <= |run.turns| == |run.outcomes|
    ensures InWindow(LogOf(run, n), recipient, from, config) <= InWindow(LogOf(run, seen), recipient, from, config) + (n - seen)
  {
    if seen < n {
      WindowGrows(config, run, seen, n - 1, recipient, from);
      LogNext(run, n - 1);
      LoggedWithin(LogOf(run, n - 1), SendingOf(run, n - 1), recipient, from, from + config.budgetWindow);
    }
  }

  /** The store still knows the last deliveries of a run. */
  ghost predicate Kept(m: Memory, log: seq<Sent>, recipients: set<string>) {
    Bounded(m) && Remembered(m, log) && Keys(m.deliveries) <= recipients
  }

  lemma AppliedIsKept(m: Memory, log: seq<Sent>, e: Event, outcome: Option<Outcome>, recipients: set<string>)
    requires Kept(m, log, recipients) && |recipients| <= MAX_RECIPIENTS && Concerns(e.step, recipients)
    ensures Kept(Applied(m, e, outcome), Logged(log, Sending(e, outcome)), recipients)
  {
    match e.step
    case Asking(q) =>
      if outcome.Some? && IsSending(outcome.value) {
        DeliveryIsRemembered(m, log, SentAs(q, outcome.value, e.at), q.dedupeKey, recipients);
        DeliveredIsBounded(m, q.recipient, q.dedupeKey, e.at);
      }
    case Flushing(recipient) =>
      DeliveryIsRemembered(m, log, Sent(recipient, e.at, false), "group:" + recipient, recipients);
      DeliveredIsBounded(m, recipient, "group:" + recipient, e.at);
    case Dismissing(key, until) => DismissedIsBounded(m, key, until);
    case Muting(userId, kind) => MutedIsBounded(m, userId, kind, e.at);
    case Unmuting(userId, kind) => MutedIsBounded(m, userId, kind, e.at);
    case Restarting =>
  }

  lemma {:induction false} RunIsKept(config: Config, run: Run, recipients: set<string>, n: nat)
    requires Possible(config, run) && Involves(run.turns, recipients) && n <= |run.turns|
    ensures Kept(run.memories[n], LogOf(run, n), recipients)
  {
    if n > 0 {
      RunIsKept(config, run, recipients, n - 1);
      LogNext(run, n - 1);
      assert Took(config, run, n - 1);
      AppliedIsKept(run.memories[n - 1], LogOf(run, n - 1), run.turns[n - 1].event, run.outcomes[n - 1], recipients);
    }
  }

  /** A count on what is remembered misses nothing while it stays `k` below what can be remembered. */
  lemma CountIsSeen(config: Config, run: Run, k: nat, recipients: set<string>, n: nat, recipient: string, since: Stamp)
    requires Possible(config, run) && Overlapping(run.turns, k) && Involves(run.turns, recipients) && n <= |run.turns|
    ensures
      var seen := CountSince(History(run.memories[n], recipient), since);
      seen + k < MAX_DELIVERIES_PER_RECIPIENT ==> seen == CountSince(TimesOf(LogOf(run, n), recipient), since)
  {
    var times := TimesOf(LogOf(run, n), recipient);
    RunIsKept(config, run, recipients, n);
    assert History(run.memories[n], recipient) == KeepLast(times, MAX_DELIVERIES_PER_RECIPIENT);
    TimesNearlySorted(run, k, recipient, n);
    ForgettingNearlyHarmless(times, MAX_DELIVERIES_PER_RECIPIENT, k, since);
  }

  /** A delivery that takes from the budget was only decided while the steps it saw left room in the window. */
  lemma RoomWasSeen(config: Config, run: Run, k: nat, recipients: set<string>, i: nat, recipient: string, from: Stamp)
    requires config.enabled && config.budget + k <= MAX_DELIVERIES_PER_RECIPIENT
    requires Possible(config, run) && Overlapping(run.turns, k) && Involves(run.turns, recipients) && i < |run.turns|
    requires TakesFromBudget(SendingOf(run, i), recipient, from, from + config.budgetWindow)
    ensures InWindow(LogOf(run, run.turns[i].seen), recipient, from, config) < config.budget
  {
    var e, seen := run.turns[i].event, run.turns[i].seen;
    assert Took(config, run, i);
    OrdinaryDecisionsTakeFromBudget(e, run.outcomes[i], recipient, from, from + config.budgetWindow);
    DeliveryIsBelowBudget(config, run.memories[seen], e.step.request, e.at);
    CountIsSeen(config, run, k, recipients, seen, recipient, e.at - config.budgetWindow);
    RoomInLog(config, LogOf(run, seen), recipient, e.at, from);
  }

  lemma {:induction false} LogWithinBudget(config: Config, run: Run, k: nat, recipients: set<string>, n: nat,
                                           recipient: string, from: Stamp)
    requires config.enabled && config.budget + k <= MAX_DELIVERIES_PER_RECIPIENT
    requires Possible(config, run) && Overlapping(run.turns, k) && Involves(run.turns, recipients) && n <= |run.turns|
    ensures InWindow(LogOf(run, n), recipient, from, config) <= Allowance(config) + k
  {
    if n > 0 {
      LogWithinBudget(config, run, k, recipients, n - 1, recipient, from);
      LogNext(run, n - 1);
      LoggedWithin(LogOf(run, n - 1), SendingOf(run, n - 1), recipient, from, from + config.budgetWindow);
      if TakesFromBudget(SendingOf(run, n - 1), recipient, from, from + config.budgetWindow) {
        RoomWasSeen(config, run, k, recipients, n - 1, recipient, from);
        WindowGrows(config, run, run.turns[n - 1].seen, n - 1, recipient, from);
      }
    }
  }

  /**
   With at most `k` overlapping deliveries, no window holds more than the
   budget and `k` ordinary decisions to deliver, as long as the store
   remembers that many deliveries.
   */
  lemma OverlapIsBounded(config: Config, run: Run, k: nat, recipients: set<string>, recipient: string, from: Stamp)
    requires config.enabled && config.budget + k <= MAX_DELIVERIES_PER_RECIPIENT
    requires Possible(config, run) && Overlapping(run.turns, k) && Involves(run.turns, recipients)
    ensures DecisionsInWindow(EventsOf(run.turns), run.outcomes, recipient, from, config) <= Allowance(config) + k
  {
    var events, n := EventsOf(run.turns), |run.turns|;
    assert events[..n] == events && run.outcomes[..n] == run.outcomes;
    LogWithinBudget(config, run, k, recipients, n, recipient, from);
    DecisionsAreRecorded(events, run.outcomes, recipient, from, from + config.budgetWindow);
  }

  // ----- and no less -------------------------------------------------------------------------------

  /** What the `n`-th question sees. */
  function Seen(n: nat, k: nat): nat {
    if n < k then 0 else n - k
  }

  /** What is remembered once the first `n` questions are delivered. */
  function HurryMemory(n: nat): Memory {
    if n == 0 then NOTHING else Applied(HurryMemory(n - 1), Question(n - 1), Some(Deliver))
  }

  /** Questions each of which is decided while the `k` before it are still being delivered. */
  function Hurry(n: nat, k: nat): Run {
    Run(seq(n, i requires 0 <= i < n => Turn(Question(i), Seen(i, k))),
        seq(n + 1, i requires 0 <= i <= n => HurryMemory(i)),
        seq(n, i requires 0 <= i < n => Some(Deliver)))
  }

  lemma HurryOverlaps(n: nat, k: nat)
    ensures Overlapping(Hurry(n, k).turns, k) && Involves(Hurry(n, k).turns, {"r"})
  {
  }

  /** After `n` questions, that many deliveries and subjects are known. */
  ghost predicate Hurried(m: Memory, n: nat) {
    Unasked(m, n) && |History(m, "r")| <= n
  }

  lemma HurryGoesOn(m: Memory, n: nat)
    requires Hurried(m, n)
    ensures Hurried(Applied(m, Question(n), Some(Deliver)), n + 1)
  {
    LaterKeysDiffer(n);
    UnaskedAfter(m, "r", Key(n), n, n + 1);
    var history := KeepLast(History(m, "r") + [0], MAX_DELIVERIES_PER_RECIPIENT);
    KeepLastIsSuffix(History(m, "r") + [0], MAX_DELIVERIES_PER_RECIPIENT);
    NewestIsKept(m.deliveries, "r", history, MAX_RECIPIENTS);
  }

  lemma HurriedIsDelivered(config: Config, m: Memory, seen: nat, n: nat)
    requires config.enabled && Hurried(m, seen) && seen < config.budget && seen <= n
    ensures Decided(config, m, Question(n)) == Some(Deliver)
  {
    CountIsBounded(History(m, "r"), 0 - config.budgetWindow);
  }

  lemma {:induction false} MemoryIsHurried(n: nat)
    ensures Hurried(HurryMemory(n), n)
  {
    if n > 0 {
      MemoryIsHurried(n - 1);
      HurryGoesOn(HurryMemory(n - 1), n - 1);
    }
  }

  lemma SeenIsDelivered(config: Config, seen: nat, n: nat)
    requires config.enabled && seen < config.budget && seen <= n
    ensures Decided(config, HurryMemory(seen), Question(n)) == Some(Deliver)
  {
    MemoryIsHurried(seen);
    HurriedIsDelivered(config, HurryMemory(seen), seen, n);
  }

  lemma HurryTook(config: Config, n: nat, k: nat, i: nat)
    requires i < n && Decided(config, HurryMemory(Seen(i, k)), Question(i)) == Some(Deliver)
    ensures Took(config, Hurry(n, k), i)
  {
  }

  lemma HurryIsPossible(config: Config, n: nat, k: nat)
    requires config.enabled && n <= config.budget + k && config.budget >= 1
    ensures Possible(config, Hurry(n, k))
  {
    forall i | 0 <= i < n
      ensures Took(config, Hurry(n, k), i)
    {
      SeenIsDelivered(config, Seen(i, k), i);
      HurryTook(config, n, k, i);
    }
  }

  lemma {:induction false} QuestionsCount(config: Config, events: seq<Event>, outcomes: seq<Option<Outcome>>)
    requires |events| == |outcomes|
    requires forall i :: 0 <= i < |events| ==> DeliversOrdinary(events[i], outcomes[i], "r", 0, config.budgetWindow)
    ensures DecisionsInWindow(events, outcomes, "r", 0, config) == |events|
  {
    if events != [] {
      var n := |events| - 1;
      QuestionsCount(config, events[..n], outcomes[..n]);
    }
  }

  /** The bound is reached, by questions to one recipient at one moment. */
  lemma OverlapIsUsed(config: Config, k: nat)
    requires config.enabled && config.budget >= 1
    ensures
      var run := Hurry(config.budget + k, k);
      && Possible(config, run) && Overlapping(run.turns, k) && Involves(run.turns, {"r"})
      && DecisionsInWindow(EventsOf(run.turns), run.outcomes, "r", 0, config) == config.budget + k
  {
    var run := Hurry(config.budget + k, k);
    HurryOverlaps(config.budget + k, k);
    HurryIsPossible(config, config.budget + k, k);
    QuestionsCount(config, EventsOf(run.turns), run.outcomes);
  }
}
