/** How often a recipient may be interrupted: a sliding-window budget over the remembered deliveries. */
module AttentionPolicy {
  import opened Common
  import opened AttentionStore

  datatype Priority = Info | Suggestion | Important | Urgent | Critical {
    function Level(): nat {
      match this
      case Info => 1
      case Suggestion => 2
      case Important => 3
      case Urgent => 4
      case Critical => 5
    }
  }

  datatype Outcome = Deliver | Suppress | Defer | Group | Bypass

  /** Windows are lengths of time in the unit of `Stamp`. */
  datatype Config = Config(enabled: bool, budget: int, budgetWindow: nat, groupWindow: nat)

  datatype Request = Request(
    recipient: string,
    dedupeKey: string,
    priority: Priority,
    requiresResponse: bool,
    occurrence: Option<string>)

  function CountSince(times: seq<Stamp>, since: Stamp): nat {
    if times == [] then 0
    else CountSince(times[..|times| - 1], since) + if times[|times| - 1] >= since then 1 else 0
  }

  /** The key a dismissal is filed under: this occurrence, or the subject when it has no name. */
  function DismissalKey(q: Request): string {
    if q.occurrence.Some? && q.occurrence.value != "" then q.occurrence.value else q.dedupeKey
  }

  function Decide(config: Config, m: Memory, q: Request, now: Stamp): Outcome {
    if q.priority.Level() >= Urgent.Level() then Bypass
    else if !config.enabled then Deliver
    else
      var dismissed, lastKey := Lookup(m.dismissedUntil, DismissalKey(q)), Lookup(m.keyLast, q.dedupeKey);
      if dismissed.Some? && now < dismissed.value then Suppress
      else if lastKey.Some? && now - lastKey.value < config.groupWindow then Suppress
      else
        var history := History(m, q.recipient);
        if CountSince(history, now - config.budgetWindow) >= config.budget then
          if q.priority.Level() >= Important.Level() then Deliver else Defer
        else if !q.requiresResponse && q.priority.Level() <= Suggestion.Level()
             && history != [] && now - history[|history| - 1] < config.groupWindow then Group
        else Deliver
  }

  /** Beyond what the history can hold, a budget limits nothing. */
  lemma BudgetBeyondHistory(config: Config, m: Memory, q: Request, now: Stamp)
    requires Bounded(m) && config.budget > MAX_DELIVERIES_PER_RECIPIENT
    ensures Decide(config, m, q, now) != Defer
  {
    HistoryIsShort(m.deliveries, q.recipient);
    CountIsBounded(History(m, q.recipient), now - config.budgetWindow);
  }

  lemma {:induction false} HistoryIsShort(d: Ordered<seq<Stamp>>, recipient: string)
    requires forall s :: s in d ==> |s.value| <= MAX_DELIVERIES_PER_RECIPIENT
    ensures
      var history := Lookup(d, recipient);
      history.Some? ==> |history.value| <= MAX_DELIVERIES_PER_RECIPIENT
  {
    if d != [] {
      assert d[|d| - 1] in d;
      HistoryIsShort(d[..|d| - 1], recipient);
    }
  }

  lemma CountIsBounded(times: seq<Stamp>, since: Stamp)
    ensures CountSince(times, since) <= |times|
  {
  }

  // ----- what was sent -----------------------------------------------------------------

  /** A recorded delivery; `limited` when it was an ordinary one the budget is there to limit. */
  datatype Sent = Sent(recipient: string, at: Stamp, limited: bool)

  function TimesOf(log: seq<Sent>, recipient: string): seq<Stamp> {
    if log == [] then []
    else
      var last := log[|log| - 1];
      TimesOf(log[..|log| - 1], recipient) + if last.recipient == recipient then [last.at] else []
  }

  /** How many limited deliveries a recipient got in a closed interval. */
  function LimitedWithin(log: seq<Sent>, recipient: string, from: Stamp, until: Stamp): nat {
    if log == [] then 0
    else
      var last := log[|log| - 1];
      LimitedWithin(log[..|log| - 1], recipient, from, until)
      + if last.recipient == recipient && last.limited && from <= last.at <= until then 1 else 0
  }

  predicate Sorted(times: seq<Stamp>) {
    forall i, j :: 0 <= i < j < |times| ==> times[i] <= times[j]
  }

  lemma {:induction false} LimitedWereRecorded(log: seq<Sent>, recipient: string, from: Stamp, until: Stamp)
    ensures LimitedWithin(log, recipient, from, until) <= CountSince(TimesOf(log, recipient), from)
  {
    if log != [] {
      var init, last := log[..|log| - 1], log[|log| - 1];
      LimitedWereRecorded(init, recipient, from, until);
      var times := TimesOf(init, recipient);
      assert times + [] == times && (times + [last.at])[..|times|] == times;
    }
  }

  lemma {:induction false} NoneSince(times: seq<Stamp>, since: Stamp)
    requires forall i :: 0 <= i < |times| ==> times[i] < since
    ensures CountSince(times, since) == 0
  {
    if times != [] {
      NoneSince(times[..|times| - 1], since);
    }
  }

  lemma KeptInit(times: seq<Stamp>, limit: nat)
    requires times != [] && limit > 0
    ensures
      var n, kept := |times| - 1, KeepLast(times, limit);
      && kept != [] && kept[..|kept| - 1] == KeepLast(times[..n], limit - 1) && kept[|kept| - 1] == times[n]
      && forall i :: 0 <= i < |kept| ==> kept[i] in times
  {
    KeepLastIsSuffix(times, limit);
    KeepLastIsSuffix(times[..|times| - 1], limit - 1);
  }

  /** Forgetting the oldest deliveries does not change a count that stays below the limit. */
  lemma {:induction false} ForgettingIsHarmless(times: seq<Stamp>, limit: nat, since: Stamp)
    requires Sorted(times)
    ensures
      var all := CountSince(times, since);
      CountSince(KeepLast(times, limit), since) == if all <= limit then all else limit
    decreases |times|
  {
    if times == [] || limit == 0 {
      KeepLastIsSuffix(times, limit);
    } else {
      KeptInit(times, limit);
      if times[|times| - 1] >= since {
        ForgettingIsHarmless(times[..|times| - 1], limit - 1, since);
      } else {
        assert forall i :: 0 <= i < |times| ==> times[i] <= times[|times| - 1];
        assert forall t :: t in times ==> t < since;
        NoneSince(times, since);
        NoneSince(KeepLast(times, limit), since);
      }
    }
  }

  lemma {:induction false} CountAntitone(times: seq<Stamp>, since: Stamp, later: Stamp)
    requires since <= later
    ensures CountSince(times, later) <= CountSince(times, since)
  {
    if times != [] {
      CountAntitone(times[..|times| - 1], since, later);
    }
  }

  function Allowance(config: Config): nat {
    if config.budget > 0 then config.budget else 0
  }

  /** How many limited deliveries a recipient got in the window that starts at `from`. */
  function InWindow(log: seq<Sent>, recipient: string, from: Stamp, config: Config): nat {
    LimitedWithin(log, recipient, from, from + config.budgetWindow)
  }

  lemma InWindowNext(log: seq<Sent>, sent: Sent, recipient: string, from: Stamp, config: Config)
    ensures InWindow(log + [sent], recipient, from, config) ==
            InWindow(log, recipient, from, config)
            + (if sent.recipient == recipient && sent.limited && from <= sent.at <= from + config.budgetWindow then 1 else 0)
  {
    assert (log + [sent])[..|log|] == log;
  }

  /** Every closed interval of the window's length holds at most the budget. */
  ghost predicate WithinBudget(log: seq<Sent>, recipient: string, config: Config) {
    forall from :: InWindow(log, recipient, from, config) <= Allowance(config)
  }

  /** The store still holds the last deliveries to everyone. */
  ghost predicate Remembered(m: Memory, log: seq<Sent>) {
    forall recipient :: History(m, recipient) == KeepLast(TimesOf(log, recipient), MAX_DELIVERIES_PER_RECIPIENT)
  }

  /** Recorded in order, and not later than `now`. */
  predicate InOrder(log: seq<Sent>, now: Stamp) {
    forall i, j :: 0 <= i <= j < |log| ==> log[i].at <= log[j].at <= now
  }

  lemma {:induction false} TimesInOrder(log: seq<Sent>, recipient: string, now: Stamp)
    requires InOrder(log, now)
    ensures Sorted(TimesOf(log, recipient))
    ensures forall t :: t in TimesOf(log, recipient) ==> t <= now
  {
    if log != [] {
      var init, last := log[..|log| - 1], log[|log| - 1];
      assert InOrder(init, last.at);
      TimesInOrder(init, recipient, last.at);
      var times := TimesOf(init, recipient);
      forall i | 0 <= i < |times|
        ensures times[i] <= last.at
      {
        assert times[i] in times;
      }
    }
  }

  /** The heart of the limit: an ordinary delivery is only decided while the window has room. */
  lemma {:induction false} DeliveryFits(config: Config, m: Memory, log: seq<Sent>, q: Request, now: Stamp, recipient: string)
    requires config.enabled && config.budget <= MAX_DELIVERIES_PER_RECIPIENT
    requires Remembered(m, log) && InOrder(log, now) && WithinBudget(log, recipient, config)
    requires Decide(config, m, q, now) == Deliver
    ensures WithinBudget(log + [Sent(q.recipient, now, q.priority.Level() < Important.Level())], recipient, config)
  {
    var sent := Sent(q.recipient, now, q.priority.Level() < Important.Level());
    forall from
      ensures InWindow(log + [sent], recipient, from, config) <= Allowance(config)
    {
      InWindowNext(log, sent, recipient, from, config);
      if recipient == q.recipient && sent.limited && from <= now <= from + config.budgetWindow {
        RoomInWindow(config, m, log, q, now, from);
      }
    }
  }

  lemma DeliveryIsBelowBudget(config: Config, m: Memory, q: Request, now: Stamp)
    requires config.enabled && Decide(config, m, q, now) == Deliver && q.priority.Level() < Important.Level()
    ensures CountSince(History(m, q.recipient), now - config.budgetWindow) < config.budget
  {
  }

  lemma RoomInLog(config: Config, log: seq<Sent>, recipient: string, now: Stamp, from: Stamp)
    requires CountSince(TimesOf(log, recipient), now - config.budgetWindow) < config.budget
    requires from <= now <= from + config.budgetWindow
    ensures InWindow(log, recipient, from, config) < config.budget
  {
    CountAntitone(TimesOf(log, recipient), now - config.budgetWindow, from);
    LimitedWereRecorded(log, recipient, from, from + config.budgetWindow);
  }

  lemma {:induction false} RoomInWindow(config: Config, m: Memory, log: seq<Sent>, q: Request, now: Stamp, from: Stamp)
    requires config.enabled && config.budget <= MAX_DELIVERIES_PER_RECIPIENT
    requires Remembered(m, log) && InOrder(log, now)
    requires Decide(config, m, q, now) == Deliver && q.priority.Level() < Important.Level()
    requires from <= now <= from + config.budgetWindow
    ensures InWindow(log, q.recipient, from, config) < config.budget
  {
    var times := TimesOf(log, q.recipient);
    DeliveryIsBelowBudget(config, m, q, now);
    TimesInOrder(log, q.recipient, now);
    ForgettingIsHarmless(times, MAX_DELIVERIES_PER_RECIPIENT, now - config.budgetWindow);
    assert History(m, q.recipient) == KeepLast(times, MAX_DELIVERIES_PER_RECIPIENT);
    RoomInLog(config, log, q.recipient, now, from);
  }

  /** A delivery the budget does not limit uses none of it up. */
  lemma {:induction false} OthersFit(config: Config, log: seq<Sent>, sent: Sent, recipient: string)
    requires WithinBudget(log, recipient, config) && !sent.limited
    ensures WithinBudget(log + [sent], recipient, config)
  {
    forall from
      ensures InWindow(log + [sent], recipient, from, config) <= Allowance(config)
    {
      InWindowNext(log, sent, recipient, from, config);
    }
  }

  // ----- the store keeps up ------------------------------------------------------------

  lemma {:induction false} LookupWithout<V>(d: Ordered<V>, key: string, other: string)
    ensures Lookup(Without(d, key), other) == if other == key then None else Lookup(d, other)
  {
    if d != [] {
      var init, last := d[..|d| - 1], d[|d| - 1];
      LookupWithout(init, key, other);
      var rest := Without(init, key);
      assert (rest + [last])[..|rest|] == rest;
    }
  }

  lemma {:induction false} LookupRenewed<V>(d: Ordered<V>, key: string, value: V, other: string)
    ensures Lookup(Renewed(d, key, value), other) == if other == key then Some(value) else Lookup(d, other)
  {
    LookupWithout(d, key, other);
    var rest := Without(d, key);
    assert (rest + [Slot(key, value)])[..|rest|] == rest;
  }

  function Keys<V(==)>(d: Ordered<V>): set<string> {
    set s | s in d :: s.key
  }

  /** No more entries than there are keys. */
  lemma {:induction false} AtMostTheKeys<V>(d: Ordered<V>, keys: set<string>)
    requires Unique(d) && Keys(d) <= keys
    ensures |d| <= |keys|
    decreases |d|
  {
    if d != [] {
      var init, last := d[..|d| - 1], d[|d| - 1];
      assert last in d;
      forall key | key in Keys(init)
        ensures key in keys - {last.key}
      {
        var i :| 0 <= i < |init| && init[i].key == key;
        assert d[i] in d;
      }
      AtMostTheKeys(init, keys - {last.key});
    }
  }

  /** The newest entry survives any eviction. */
  lemma NewestIsKept<V>(d: Ordered<V>, key: string, value: V, limit: nat)
    requires limit >= 1
    ensures Lookup(KeepLast(Renewed(d, key, value), limit), key) == Some(value)
  {
    KeepLastIsSuffix(Renewed(d, key, value), limit);
  }

  /** A dismissed occurrence stays quiet until the dismissal ends, unless it is urgent. */
  lemma DismissalSuppresses(config: Config, m: Memory, q: Request, until: Stamp, now: Stamp)
    requires config.enabled && now < until
    ensures
      var outcome := Decide(config, Dismissed(m, DismissalKey(q), until), q, now);
      outcome == if q.priority.Level() >= Urgent.Level() then Bypass else Suppress
  {
    NewestIsKept(m.dismissedUntil, DismissalKey(q), until, MAX_TRACKED_KEYS);
  }

  /** What was just delivered, to whomever, is not reported again within the grouping window. */
  lemma RepetitionIsSuppressed(config: Config, m: Memory, recipient: string, at: Stamp, q: Request, now: Stamp)
    requires config.enabled && q.priority.Level() < Urgent.Level() && now - at < config.groupWindow
    ensures Decide(config, Delivered(m, recipient, q.dedupeKey, at), q, now) == Suppress
  {
    NewestIsKept(m.keyLast, q.dedupeKey, at, MAX_TRACKED_KEYS);
  }

  /** A message is put off only when the recipient really got the whole budget within the window. */
  lemma DeferralIsJustified(config: Config, m: Memory, log: seq<Sent>, q: Request, now: Stamp)
    requires Remembered(m, log) && InOrder(log, now) && Decide(config, m, q, now) == Defer
    ensures CountSince(TimesOf(log, q.recipient), now - config.budgetWindow) >= config.budget
    ensures q.priority.Level() < Important.Level()
  {
    var times, since := TimesOf(log, q.recipient), now - config.budgetWindow;
    TimesInOrder(log, q.recipient, now);
    ForgettingIsHarmless(times, MAX_DELIVERIES_PER_RECIPIENT, since);
    assert History(m, q.recipient) == KeepLast(times, MAX_DELIVERIES_PER_RECIPIENT);
  }

  /** A confirmed mute is found until it is taken back, and taking it back touches no other. */
  lemma MuteIsTakenBack(m: Memory, userId: string, kind: string, at: Stamp, otherUser: string, otherKind: string)
    ensures IsMuted(Muted(m, userId, kind, at), userId, kind)
    ensures !IsMuted(Unmuted(m, userId, kind), userId, kind)
    ensures MuteKey(otherUser, otherKind) != MuteKey(userId, kind) ==>
              IsMuted(Unmuted(m, userId, kind), otherUser, otherKind) == IsMuted(m, otherUser, otherKind)
  {
    NewestIsKept(m.mutes, MuteKey(userId, kind), at, MAX_MUTES);
    LookupWithout(m.mutes, MuteKey(userId, kind), MuteKey(userId, kind));
    LookupWithout(m.mutes, MuteKey(userId, kind), MuteKey(otherUser, otherKind));
  }

  lemma ZeroEndsUser(userId: string, kind: string)
    requires '\0' !in userId
    ensures var key := MuteKey(userId, kind); |key| > |userId| && forall j :: 0 <= j <= |userId| ==> (key[j] == '\0' <==> j == |userId|)
  {
    forall j | 0 <= j < |userId|
      ensures MuteKey(userId, kind)[j] != '\0'
    {
      assert MuteKey(userId, kind)[j] == userId[j] && userId[j] in userId;
    }
  }

  /** Mutes of different users or kinds are kept apart, as long as user ids hold no zero character. */
  lemma MutesAreApart(userId: string, kind: string, otherUser: string, otherKind: string)
    requires '\0' !in userId && '\0' !in otherUser
    ensures MuteKey(userId, kind) == MuteKey(otherUser, otherKind) <==> userId == otherUser && kind == otherKind
  {
    var key, other := MuteKey(userId, kind), MuteKey(otherUser, otherKind);
    ZeroEndsUser(userId, kind);
    ZeroEndsUser(otherUser, otherKind);
    if key == other {
      assert other[|userId|] == '\0' && key[|otherUser|] == '\0';
      assert key[..|userId|] == userId && other[..|otherUser|] == otherUser;
      assert key[|userId| + 1..] == kind && other[|otherUser| + 1..] == otherKind;
    }
  }

  /** A further delivery is remembered, and nobody else's are forgotten. */
  lemma {:induction false} DeliveryIsRemembered(m: Memory, log: seq<Sent>, sent: Sent, dedupeKey: string, recipients: set<string>)
    requires Bounded(m) && Remembered(m, log)
    requires Keys(m.deliveries) <= recipients && sent.recipient in recipients && |recipients| <= MAX_RECIPIENTS
    ensures
      var next := Delivered(m, sent.recipient, dedupeKey, sent.at);
      Remembered(next, log + [sent]) && Keys(next.deliveries) <= recipients
  {
    var history := KeepLast(History(m, sent.recipient) + [sent.at], MAX_DELIVERIES_PER_RECIPIENT);
    var renewed := Renewed(m.deliveries, sent.recipient, history);
    WithoutDrops(m.deliveries, sent.recipient);
    assert Keys(renewed) <= recipients;
    AtMostTheKeys(renewed, recipients);
    var next := Delivered(m, sent.recipient, dedupeKey, sent.at);
    assert next.deliveries == renewed;
    forall recipient
      ensures History(next, recipient) == KeepLast(TimesOf(log + [sent], recipient), MAX_DELIVERIES_PER_RECIPIENT)
    {
      HistoryAfter(m, next, log, sent, recipient);
    }
  }

  lemma HistoryAfter(m: Memory, next: Memory, log: seq<Sent>, sent: Sent, recipient: string)
    requires Remembered(m, log)
    requires
      var history := KeepLast(History(m, sent.recipient) + [sent.at], MAX_DELIVERIES_PER_RECIPIENT);
      next.deliveries == Renewed(m.deliveries, sent.recipient, history)
    ensures History(next, recipient) == KeepLast(TimesOf(log + [sent], recipient), MAX_DELIVERIES_PER_RECIPIENT)
  {
    var history := KeepLast(History(m, sent.recipient) + [sent.at], MAX_DELIVERIES_PER_RECIPIENT);
    LookupRenewed(m.deliveries, sent.recipient, history, recipient);
    assert (log + [sent])[..|log|] == log;
    var times := TimesOf(log, recipient);
    assert History(m, recipient) == KeepLast(times, MAX_DELIVERIES_PER_RECIPIENT);
    if recipient == sent.recipient {
      KeepLastTwice(times, sent.at, MAX_DELIVERIES_PER_RECIPIENT);
    } else {
      assert times + [] == times;
    }
  }

  lemma KeepLastTwice<T>(entries: seq<T>, entry: T, limit: nat)
    requires limit >= 1
    ensures KeepLast(KeepLast(entries, limit) + [entry], limit) == KeepLast(entries + [entry], limit)
  {
    KeepLastIsSuffix(entries, limit);
    KeepLastIsSuffix(KeepLast(entries, limit) + [entry], limit);
    KeepLastIsSuffix(entries + [entry], limit);
  }

  // ----- whole runs -----------------------------------------------------------------------

  datatype Step =
    | Asking(request: Request)
    | Flushing(recipient: string)
    | Dismissing(key: string, until: Stamp)
    | Muting(userId: string, kind: string)
    | Unmuting(userId: string, kind: string)
    | Restarting

  /** Steps with the moments they happen at; the clock never runs backwards. */
  datatype Event = Event(at: Stamp, step: Step)

  predicate Chronological(events: seq<Event>) {
    forall i, j :: 0 <= i < j < |events| ==> events[i].at <= events[j].at
  }

  predicate Concerns(step: Step, recipients: set<string>) {
    && (step.Asking? ==> step.request.recipient in recipients)
    && (step.Flushing? ==> step.recipient in recipients)
  }

  // What a run comes to, step by step from the beginning.

  function SentAs(q: Request, outcome: Outcome, now: Stamp): Sent {
    Sent(q.recipient, now, outcome.Deliver? && q.priority.Level() < Important.Level())
  }

  predicate IsSending(outcome: Outcome) {
    outcome.Deliver? || outcome.Bypass?
  }

  /** The decision a step asks for, if it asks for one. */
  function Decided(config: Config, m: Memory, e: Event): Option<Outcome> {
    match e.step
    case Asking(q) => Some(Decide(config, m, q, e.at))
    case _ => None
  }

  /** What is remembered after one more step with this decision. */
  function Applied(m: Memory, e: Event, outcome: Option<Outcome>): Memory {
    match e.step
    case Asking(q) => if outcome.Some? && IsSending(outcome.value) then Delivered(m, q.recipient, q.dedupeKey, e.at) else m
    case Flushing(recipient) => Delivered(m, recipient, "group:" + recipient, e.at)
    case Dismissing(key, until) => Dismissed(m, key, until)
    case Muting(userId, kind) => Muted(m, userId, kind, e.at)
    case Unmuting(userId, kind) => Unmuted(m, userId, kind)
    case Restarting => m
  }

  /** The decision is taken on what is remembered, and what it leads to is recorded at once. */
  function Stepped(config: Config, m: Memory, e: Event): Memory {
    Applied(m, e, Decided(config, m, e))
  }

  function MemoryAfter(config: Config, events: seq<Event>): Memory {
    if events == [] then NOTHING
    else Stepped(config, MemoryAfter(config, events[..|events| - 1]), events[|events| - 1])
  }

  function Outcomes(config: Config, events: seq<Event>): (r: seq<Option<Outcome>>)
    ensures |r| == |events|
  {
    if events == [] then []
    else
      var before, last := events[..|events| - 1], events[|events| - 1];
      Outcomes(config, before) + [Decided(config, MemoryAfter(config, before), last)]
  }

  /** The delivery a step records, if it records one. */
  function Sending(e: Event, outcome: Option<Outcome>): Option<Sent> {
    match e.step
    case Asking(q) => if outcome.Some? && IsSending(outcome.value) then Some(SentAs(q, outcome.value, e.at)) else None
    case Flushing(recipient) => Some(Sent(recipient, e.at, false))
    case _ => None
  }

  function Logged(log: seq<Sent>, sent: Option<Sent>): seq<Sent> {
    match sent
    case Some(delivery) => log + [delivery]
    case None => log
  }

  /** The deliveries of a run, in order and each as often as it was decided. */
  function Recorded(events: seq<Event>, outcomes: seq<Option<Outcome>>): seq<Sent>
    requires |events| == |outcomes|
  {
    if events == [] then []
    else
      var n := |events| - 1;
      Logged(Recorded(events[..n], outcomes[..n]), Sending(events[n], outcomes[n]))
  }

  /** The step decided that an ordinary message goes to this recipient, within this interval. */
  predicate DeliversOrdinary(e: Event, outcome: Option<Outcome>, recipient: string, from: Stamp, until: Stamp) {
    && e.step.Asking? && outcome == Some(Deliver)
    && e.step.request.recipient == recipient && e.step.request.priority.Level() < Important.Level()
    && from <= e.at <= until
  }

  /** How many such decisions a run took. */
  function OrdinaryDecisions(events: seq<Event>, outcomes: seq<Option<Outcome>>, recipient: string, from: Stamp, until: Stamp): nat
    requires |events| == |outcomes|
  {
    if events == [] then 0
    else
      var n := |events| - 1;
      OrdinaryDecisions(events[..n], outcomes[..n], recipient, from, until)
      + if DeliversOrdinary(events[n], outcomes[n], recipient, from, until) then 1 else 0
  }

  function DecisionsInWindow(events: seq<Event>, outcomes: seq<Option<Outcome>>, recipient: string, from: Stamp, config: Config): nat
    requires |events| == |outcomes|
  {
    OrdinaryDecisions(events, outcomes, recipient, from, from + config.budgetWindow)
  }

  /** Every closed interval of the window's length holds at most the budget of decisions. */
  ghost predicate KeepsBudget(config: Config, events: seq<Event>, outcomes: seq<Option<Outcome>>)
    requires |events| == |outcomes|
  {
    forall recipient, from :: DecisionsInWindow(events, outcomes, recipient, from, config) <= Allowance(config)
  }

  /** The delivery, if there is one, takes from the recipient's budget within this interval. */
  predicate TakesFromBudget(sent: Option<Sent>, recipient: string, from: Stamp, until: Stamp) {
    sent.Some? && sent.value.recipient == recipient && sent.value.limited && from <= sent.value.at <= until
  }

  lemma LoggedWithin(log: seq<Sent>, sent: Option<Sent>, recipient: string, from: Stamp, until: Stamp)
    ensures
      LimitedWithin(Logged(log, sent), recipient, from, until) == LimitedWithin(log, recipient, from, until)
        + if TakesFromBudget(sent, recipient, from, until) then 1 else 0
  {
    if sent.Some? {
      assert (log + [sent.value])[..|log|] == log;
    }
  }

  lemma OrdinaryDecisionsTakeFromBudget(e: Event, outcome: Option<Outcome>, recipient: string, from: Stamp, until: Stamp)
    ensures DeliversOrdinary(e, outcome, recipient, from, until) <==>
            TakesFromBudget(Sending(e, outcome), recipient, from, until)
  {
  }

  lemma {:induction false} DecisionsAreRecorded(events: seq<Event>, outcomes: seq<Option<Outcome>>, recipient: string, from: Stamp, until: Stamp)
    requires |events| == |outcomes|
    ensures OrdinaryDecisions(events, outcomes, recipient, from, until)
            == LimitedWithin(Recorded(events, outcomes), recipient, from, until)
  {
    if events != [] {
      var n := |events| - 1;
      DecisionsAreRecorded(events[..n], outcomes[..n], recipient, from, until);
      OrdinaryDecisionsTakeFromBudget(events[n], outcomes[n], recipient, from, until);
      LoggedWithin(Recorded(events[..n], outcomes[..n]), Sending(events[n], outcomes[n]), recipient, from, until);
    }
  }

  /** A run with at most `n` recipients and a chronological clock. */
  predicate Regular(events: seq<Event>, recipients: set<string>, n: nat) {
    Chronological(events) && |recipients| <= n && forall e :: e in events ==> Concerns(e.step, recipients)
  }

  /** What a run keeps about its memory and its log. */
  ghost predicate Tracked(m: Memory, log: seq<Sent>, now: Stamp, config: Config, recipients: set<string>) {
    && Bounded(m) && Remembered(m, log) && Keys(m.deliveries) <= recipients
    && InOrder(log, now)
    && forall recipient :: WithinBudget(log, recipient, config)
  }

  lemma {:induction false} RunIsTracked(config: Config, events: seq<Event>, recipients: set<string>, now: Stamp)
    requires config.enabled && config.budget <= MAX_DELIVERIES_PER_RECIPIENT && Regular(events, recipients, MAX_RECIPIENTS)
    requires forall e :: e in events ==> e.at <= now
    ensures Tracked(MemoryAfter(config, events), Recorded(events, Outcomes(config, events)), now, config, recipients)
    decreases |events|
  {
    if events != [] {
      var before, last := events[..|events| - 1], events[|events| - 1];
      assert last in events;
      RunIsTracked(config, before, recipients, last.at);
      assert Outcomes(config, events)[..|events| - 1] == Outcomes(config, before);
      StepIsTracked(config, MemoryAfter(config, before), Recorded(before, Outcomes(config, before)), last, recipients);
    }
  }

  lemma AskingIsTracked(config: Config, m: Memory, log: seq<Sent>, q: Request, now: Stamp, recipients: set<string>)
    requires config.enabled && config.budget <= MAX_DELIVERIES_PER_RECIPIENT && |recipients| <= MAX_RECIPIENTS
    requires Tracked(m, log, now, config, recipients) && q.recipient in recipients
    ensures
      var outcome := Decide(config, m, q, now);
      IsSending(outcome) ==>
        Tracked(Delivered(m, q.recipient, q.dedupeKey, now), log + [SentAs(q, outcome, now)], now, config, recipients)
  {
    var outcome := Decide(config, m, q, now);
    if IsSending(outcome) {
      var sent := SentAs(q, outcome, now);
      forall recipient
        ensures WithinBudget(log + [sent], recipient, config)
      {
        if sent.limited {
          DeliveryFits(config, m, log, q, now, recipient);
        } else {
          OthersFit(config, log, sent, recipient);
        }
      }
      DeliveryIsRemembered(m, log, sent, q.dedupeKey, recipients);
      DeliveredIsBounded(m, q.recipient, q.dedupeKey, now);
    }
  }

  lemma FlushingIsTracked(config: Config, m: Memory, log: seq<Sent>, recipient: string, now: Stamp, recipients: set<string>)
    requires Tracked(m, log, now, config, recipients) && recipient in recipients && |recipients| <= MAX_RECIPIENTS
    ensures
      Tracked(Delivered(m, recipient, "group:" + recipient, now), log + [Sent(recipient, now, false)], now, config, recipients)
  {
    var sent := Sent(recipient, now, false);
    forall other
      ensures WithinBudget(log + [sent], other, config)
    {
      OthersFit(config, log, sent, other);
    }
    DeliveryIsRemembered(m, log, sent, "group:" + recipient, recipients);
    DeliveredIsBounded(m, recipient, "group:" + recipient, now);
  }

  lemma StepIsTracked(config: Config, m: Memory, log: seq<Sent>, e: Event, recipients: set<string>)
    requires config.enabled && config.budget <= MAX_DELIVERIES_PER_RECIPIENT && |recipients| <= MAX_RECIPIENTS
    requires Tracked(m, log, e.at, config, recipients) && Concerns(e.step, recipients)
    ensures Tracked(Stepped(config, m, e), Logged(log, Sending(e, Decided(config, m, e))), e.at, config, recipients)
  {
    match e.step
    case Asking(q) => AskingIsTracked(config, m, log, q, e.at, recipients);
    case Flushing(recipient) => FlushingIsTracked(config, m, log, recipient, e.at, recipients);
    case Dismissing(key, until) => DismissedIsBounded(m, key, until);
    case Muting(userId, kind) => MutedIsBounded(m, userId, kind, e.at);
    case Unmuting(userId, kind) => MutedIsBounded(m, userId, kind, e.at);
    case Restarting =>
  }

  lemma RunWithinBudget(config: Config, events: seq<Event>, recipients: set<string>, recipient: string)
    requires config.enabled && config.budget <= MAX_DELIVERIES_PER_RECIPIENT && Regular(events, recipients, MAX_RECIPIENTS)
    ensures WithinBudget(Recorded(events, Outcomes(config, events)), recipient, config)
  {
    var now := if events == [] then 0 else events[|events| - 1].at;
    RunIsTracked(config, events, recipients, now);
  }

  lemma WindowWithinBudget(config: Config, events: seq<Event>, outcomes: seq<Option<Outcome>>, recipient: string, from: Stamp)
    requires |events| == |outcomes| && WithinBudget(Recorded(events, outcomes), recipient, config)
    ensures DecisionsInWindow(events, outcomes, recipient, from, config) <= Allowance(config)
  {
    DecisionsAreRecorded(events, outcomes, recipient, from, from + config.budgetWindow);
    assert InWindow(Recorded(events, outcomes), recipient, from, config) <= Allowance(config);
  }

  /** The sliding-window limit of a budget the history can hold. */
  lemma BudgetIsKept(config: Config, events: seq<Event>, recipients: set<string>)
    requires config.enabled && config.budget <= MAX_DELIVERIES_PER_RECIPIENT && Regular(events, recipients, MAX_RECIPIENTS)
    ensures KeepsBudget(config, events, Outcomes(config, events))
  {
    var outcomes := Outcomes(config, events);
    forall recipient, from
      ensures DecisionsInWindow(events, outcomes, recipient, from, config) <= Allowance(config)
    {
      RunWithinBudget(config, events, recipients, recipient);
      WindowWithinBudget(config, events, outcomes, recipient, from);
    }
  }

  // ----- the store in a run ---------------------------------------------------------------------

  lemma NothingReplayed(config: Config)
    ensures MemoryAfter(config, []) == NOTHING && Outcomes(config, []) == [] && Recorded([], []) == []
  {
  }

  method Replay(config: Config, events: seq<Event>, clock: Clock)
    returns (store: AttentionStateStore, log: seq<Sent>, outcomes: seq<Option<Outcome>>)
    requires clock.Faithful()
    ensures fresh(store) && store.Valid() && store.Contents() == MemoryAfter(config, events)
    ensures outcomes == Outcomes(config, events) && log == Recorded(events, outcomes)
  {
    store := new AttentionStateStore();
    log, outcomes := [], [];
    NothingReplayed(config);
    for i := 0 to |events|
      invariant fresh(store) && store.Valid() && store.Contents() == MemoryAfter(config, events[..i])
      invariant outcomes == Outcomes(config, events[..i]) && log == Recorded(events[..i], outcomes)
    {
      assert events[..i + 1] == events[..i] + [events[i]];
      store, log, outcomes := ReplayNext(config, events[..i], events[i], clock, store, log, outcomes);
    }
    assert events[..|events|] == events;
  }

  method ReplayNext(config: Config, events: seq<Event>, e: Event, clock: Clock,
                    reached: AttentionStateStore, sofar: seq<Sent>, decided: seq<Option<Outcome>>)
    returns (store: AttentionStateStore, log: seq<Sent>, outcomes: seq<Option<Outcome>>)
    requires clock.Faithful() && reached.Valid() && reached.Contents() == MemoryAfter(config, events)
    requires decided == Outcomes(config, events) && sofar == Recorded(events, decided)
    modifies reached
    ensures store.Valid() && (store == reached || fresh(store)) && store.Contents() == MemoryAfter(config, events + [e])
    ensures outcomes == Outcomes(config, events + [e]) && log == Recorded(events + [e], outcomes)
  {
    var sent, outcome;
    store, sent, outcome := Advance(reached, e, config, clock);
    log, outcomes := Logged(sofar, sent), decided + [outcome];
    NextRecorded(config, events, e);
  }

  lemma NextRecorded(config: Config, events: seq<Event>, e: Event)
    ensures
      var more, outcome := events + [e], Decided(config, MemoryAfter(config, events), e);
      && MemoryAfter(config, more) == Stepped(config, MemoryAfter(config, events), e)
      && Outcomes(config, more) == Outcomes(config, events) + [outcome]
      && Recorded(more, Outcomes(config, more)) == Logged(Recorded(events, Outcomes(config, events)), Sending(e, outcome))
  {
    var more := events + [e];
    assert more[..|events|] == events;
    assert Outcomes(config, more)[..|events|] == Outcomes(config, events);
  }

  lemma LastOutcome(config: Config, events: seq<Event>)
    requires events != []
    ensures
      var n := |events| - 1;
      && Outcomes(config, events)[..n] == Outcomes(config, events[..n])
      && Outcomes(config, events)[n] == Decided(config, MemoryAfter(config, events[..n]), events[n])
  {
  }

  lemma {:induction false} OutcomesUpTo(config: Config, events: seq<Event>, i: nat)
    requires i <= |events|
    ensures Outcomes(config, events)[..i] == Outcomes(config, events[..i])
    decreases |events| - i
  {
    if i == |events| {
      assert events[..i] == events;
    } else {
      OutcomesUpTo(config, events, i + 1);
      LastOutcome(config, events[..i + 1]);
      assert events[..i + 1][..i] == events[..i];
      assert Outcomes(config, events)[..i + 1][..i] == Outcomes(config, events)[..i];
    }
  }

  lemma OutcomeAt(config: Config, events: seq<Event>, i: nat)
    requires i < |events|
    ensures Outcomes(config, events)[i] == Decided(config, MemoryAfter(config, events[..i]), events[i])
  {
    OutcomesUpTo(config, events, i + 1);
    LastOutcome(config, events[..i + 1]);
    assert events[..i + 1][..i] == events[..i];
    assert Outcomes(config, events)[i] == Outcomes(config, events)[..i + 1][i];
  }

  /** One step on the store. */
  method Advance(before: AttentionStateStore, e: Event, config: Config, clock: Clock)
    returns (store: AttentionStateStore, sent: Option<Sent>, outcome: Option<Outcome>)
    requires before.Valid() && clock.Faithful()
    modifies before
    ensures store.Valid() && (store == before || fresh(store))
    ensures store.Contents() == Stepped(config, old(before.Contents()), e)
    ensures outcome == Decided(config, old(before.Contents()), e)
    ensures sent == Sending(e, outcome)
  {
    store, sent, outcome := before, None, None;
    match e.step
    case Asking(q) =>
      var decision := Decide(config, store.Contents(), q, e.at);
      outcome := Some(decision);
      if decision.Deliver? || decision.Bypass? {
        store.RecordDelivery(q.recipient, q.dedupeKey, e.at);
        sent := Some(SentAs(q, decision, e.at));
      }
    case Flushing(recipient) =>
      store.RecordDelivery(recipient, "group:" + recipient, e.at);
      sent := Some(Sent(recipient, e.at, false));
    case Dismissing(key, until) => store.Dismiss(key, until);
    case Muting(userId, kind) => store.Mute(userId, kind, e.at);
    case Unmuting(userId, kind) => var _ := store.Unmute(userId, kind);
    case Restarting => store := Restart(store, clock);
  }

  /** Storing the state and reading it back into a new store. */
  method Restart(before: AttentionStateStore, clock: Clock) returns (store: AttentionStateStore)
    requires before.Valid() && clock.Faithful()
    ensures fresh(store) && store.Valid() && store.Contents() == before.Contents()
  {
    PersistenceRoundTrip(before.Contents(), clock);
    store := new AttentionStateStore.FromDocument(ToDocument(before.Contents(), clock), clock);
  }
}
