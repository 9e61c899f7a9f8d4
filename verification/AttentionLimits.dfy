/** How far the sliding-window limit reaches: which budgets, and how many recipients. */
module AttentionLimits {
  import opened Common
  import opened AttentionStore
  import opened AttentionPolicy

  // ----- a run of questions -----------------------------------------------------------

  function Key(n: nat): string {
    seq(n, _ => 'x')
  }

  /** Another recipient than the one who is asked. */
  function Other(n: nat): string {
    "o" + Key(n)
  }

  /** A question about a subject of its own. */
  function Question(n: nat): Event {
    Event(0, Asking(Request("r", Key(n), Info, true, None)))
  }

  /** One more of the others gets something. */
  function Flush(crowd: nat): Event {
    Event(0, Flushing(Other(crowd)))
  }

  function Crowd(n: nat): set<string> {
    if n == 0 then {} else Crowd(n - 1) + {Other(n - 1)}
  }

  lemma {:induction false} CrowdCounts(n: nat)
    ensures |Crowd(n)| == n && (forall name :: name in Crowd(n) ==> |name| <= n && name != "r")
  {
    if n > 0 {
      CrowdCounts(n - 1);
      assert |Other(n - 1)| == n && Other(n - 1)[0] == 'o';
      assert Other(n - 1) !in Crowd(n - 1);
    }
  }

  /** At the one moment, and concerning one of these. */
  predicate Fits(e: Event, names: set<string>) {
    e.at == 0 && Concerns(e.step, names)
  }

  predicate AtOnce(events: seq<Event>, names: set<string>) {
    forall e :: e in events ==> Fits(e, names)
  }

  lemma {:induction false} OtherInCrowd(i: nat, crowd: nat)
    requires i < crowd
    ensures Other(i) in Crowd(crowd)
  {
    if i < crowd - 1 {
      OtherInCrowd(i, crowd - 1);
    }
  }

  lemma AtOnceGoesOn(events: seq<Event>, names: set<string>, e: Event)
    requires AtOnce(events, names) && Fits(e, names)
    ensures AtOnce(events + [e], names)
  {
  }

  lemma AtOnceIsRegular(events: seq<Event>, crowd: nat, limit: nat)
    requires AtOnce(events, {"r"} + Crowd(crowd)) && crowd < limit
    ensures Regular(events, {"r"} + Crowd(crowd), limit)
  {
    CrowdCounts(crowd);
    assert forall i :: 0 <= i < |events| ==> events[i] in events;
    assert forall e :: e in events ==> Fits(e, {"r"} + Crowd(crowd));
    assert |{"r"} + Crowd(crowd)| <= crowd + 1;
  }

  // ----- what the store knows meanwhile ------------------------------------------------

  lemma {:induction false} LookupNone<V>(d: Ordered<V>, key: string)
    ensures Lookup(d, key) == None <==> forall s :: s in d ==> s.key != key
  {
    if d != [] {
      var n := |d| - 1;
      LookupNone(d[..n], key);
      assert d[n] in d;
      forall s | s in d
        ensures s == d[n] || s in d[..n]
      {
      }
    }
  }

  /** Entering a key makes no other key known. */
  lemma OtherKeysStayUnknown<V>(d: Ordered<V>, entered: string, value: V, limit: nat, key: string)
    requires key != entered && Lookup(d, key) == None
    ensures Lookup(KeepLast(Renewed(d, entered, value), limit), key) == None
  {
    var renewed := Renewed(d, entered, value);
    LookupRenewed(d, entered, value, key);
    LookupNone(renewed, key);
    KeepLastIsSuffix(renewed, limit);
    LookupNone(KeepLast(renewed, limit), key);
  }

  /** Nothing was dismissed, and no subject from the `n`-th on is known. */
  ghost predicate Unasked(m: Memory, n: nat) {
    m.dismissedUntil == [] && Bounded(m) && forall j: nat :: n <= j ==> Lookup(m.keyLast, Key(j)) == None
  }

  lemma UnaskedAfter(m: Memory, recipient: string, dedupeKey: string, n: nat, next: nat)
    requires Unasked(m, n) && n <= next && forall j: nat :: next <= j ==> Key(j) != dedupeKey
    ensures Unasked(Delivered(m, recipient, dedupeKey, 0), next)
  {
    DeliveredIsBounded(m, recipient, dedupeKey, 0);
    forall j: nat | next <= j
      ensures Lookup(Delivered(m, recipient, dedupeKey, 0).keyLast, Key(j)) == None
    {
      OtherKeysStayUnknown(m.keyLast, dedupeKey, 0, MAX_TRACKED_KEYS, Key(j));
    }
  }

  /** The last to get something were these others, in this order. */
  predicate EndsWithCrowd(d: Ordered<seq<Stamp>>, crowd: nat) {
    crowd <= |d| && forall i :: 0 <= i < crowd ==> d[|d| - crowd + i].key == Other(i)
  }

  lemma {:induction false} WithoutKeepsEnd<V>(d: Ordered<V>, end: Ordered<V>, key: string)
    requires forall s :: s in end ==> s.key != key
    ensures Without(d + end, key) == Without(d, key) + end
  {
    if end == [] {
      assert d + end == d && Without(d, key) + end == Without(d, key);
    } else {
      var n := |end| - 1;
      WithoutKeepsEnd(d, end[..n], key);
      assert (d + end)[..|d + end| - 1] == d + end[..n];
      assert end[n] in end;
      assert Without(d, key) + end[..n] + [end[n]] == Without(d, key) + end;
    }
  }

  lemma NextOtherIsNew(d: Ordered<seq<Stamp>>, crowd: nat)
    requires EndsWithCrowd(d, crowd)
    ensures forall s :: s in d[|d| - crowd..] ==> s.key != Other(crowd)
  {
    var end := d[|d| - crowd..];
    forall s | s in end
      ensures s.key != Other(crowd)
    {
      var i :| 0 <= i < crowd && end[i] == s;
      assert s.key == Other(i) && |Other(i)| != |Other(crowd)|;
    }
  }

  lemma EndIsKept(rest: Ordered<seq<Stamp>>, crowd: nat, value: seq<Stamp>)
    requires crowd < MAX_RECIPIENTS && EndsWithCrowd(rest, crowd)
    ensures EndsWithCrowd(KeepLast(rest + [Slot(Other(crowd), value)], MAX_RECIPIENTS), crowd + 1)
  {
    KeepLastIsSuffix(rest + [Slot(Other(crowd), value)], MAX_RECIPIENTS);
  }

  lemma CrowdGrows(d: Ordered<seq<Stamp>>, crowd: nat, value: seq<Stamp>)
    requires crowd < MAX_RECIPIENTS && EndsWithCrowd(d, crowd)
    ensures EndsWithCrowd(KeepLast(Renewed(d, Other(crowd), value), MAX_RECIPIENTS), crowd + 1)
  {
    var n := |d| - crowd;
    assert d == d[..n] + d[n..];
    NextOtherIsNew(d, crowd);
    WithoutKeepsEnd(d[..n], d[n..], Other(crowd));
    EndIsKept(Without(d, Other(crowd)), crowd, value);
  }

  /** A full crowd leaves no room for anyone else. */
  lemma CrowdCoversAll(d: Ordered<seq<Stamp>>)
    requires |d| <= MAX_RECIPIENTS && EndsWithCrowd(d, MAX_RECIPIENTS)
    ensures Lookup(d, "r") == None
  {
    forall s | s in d
      ensures s.key != "r"
    {
      var i :| 0 <= i < |d| && d[i] == s;
      assert d[|d| - MAX_RECIPIENTS + i].key == Other(i) && Other(i)[0] == 'o';
    }
    LookupNone(d, "r");
  }

  lemma OneMoreDecision(events: seq<Event>, outcomes: seq<Option<Outcome>>, e: Event, outcome: Option<Outcome>,
                        recipient: string, from: Stamp, until: Stamp)
    requires |events| == |outcomes|
    ensures OrdinaryDecisions(events + [e], outcomes + [outcome], recipient, from, until)
            == OrdinaryDecisions(events, outcomes, recipient, from, until)
               + if DeliversOrdinary(e, outcome, recipient, from, until) then 1 else 0
  {
    assert (events + [e])[..|events|] == events && (outcomes + [outcome])[..|events|] == outcomes;
  }

  lemma DecisionsNext(config: Config, events: seq<Event>, e: Event, recipient: string, from: Stamp, until: Stamp)
    ensures OrdinaryDecisions(events + [e], Outcomes(config, events + [e]), recipient, from, until)
            == OrdinaryDecisions(events, Outcomes(config, events), recipient, from, until)
               + if DeliversOrdinary(e, Decided(config, MemoryAfter(config, events), e), recipient, from, until) then 1 else 0
  {
    NextRecorded(config, events, e);
    OneMoreDecision(events, Outcomes(config, events), e, Decided(config, MemoryAfter(config, events), e), recipient, from, until);
  }

  /** How many questions were delivered so far. */
  function Answered(config: Config, events: seq<Event>): nat {
    OrdinaryDecisions(events, Outcomes(config, events), "r", 0, config.budgetWindow)
  }

  lemma FlushIsRemembered(config: Config, m: Memory, n: nat, crowd: nat)
    requires Unasked(m, n) && crowd < MAX_RECIPIENTS && EndsWithCrowd(m.deliveries, crowd)
    ensures
      var next := Stepped(config, m, Flush(crowd));
      Unasked(next, n) && EndsWithCrowd(next.deliveries, crowd + 1) && Decided(config, m, Flush(crowd)) == None
  {
    GroupKeyIsNoSubject(Other(crowd));
    UnaskedAfter(m, Other(crowd), "group:" + Other(crowd), n, n);
    CrowdGrows(m.deliveries, crowd, KeepLast(History(m, Other(crowd)) + [0], MAX_DELIVERIES_PER_RECIPIENT));
  }

  /** `n` questions were asked and all of them delivered, and since then `crowd` others got something. */
  ghost predicate Reached(config: Config, events: seq<Event>, n: nat, crowd: nat) {
    && Unasked(MemoryAfter(config, events), n) && EndsWithCrowd(MemoryAfter(config, events).deliveries, crowd)
    && Answered(config, events) == n
  }

  lemma FlushCrowdsOut(config: Config, events: seq<Event>, n: nat, crowd: nat)
    requires Reached(config, events, n, crowd) && crowd < MAX_RECIPIENTS
    ensures Reached(config, events + [Flush(crowd)], n, crowd + 1)
  {
    FlushIsRemembered(config, MemoryAfter(config, events), n, crowd);
    NextRecorded(config, events, Flush(crowd));
    DecisionsNext(config, events, Flush(crowd), "r", 0, config.budgetWindow);
  }

  /** A burst so far, which concerns only these. */
  ghost predicate Staged(config: Config, events: seq<Event>, n: nat, crowd: nat, names: set<string>) {
    Reached(config, events, n, crowd) && AtOnce(events, names)
  }

  lemma FlushNext(config: Config, events: seq<Event>, n: nat, crowd: nat, names: set<string>) returns (more: seq<Event>)
    requires Staged(config, events, n, crowd, names) && crowd < MAX_RECIPIENTS && Other(crowd) in names
    ensures Staged(config, more, n, crowd + 1, names)
  {
    FlushCrowdsOut(config, events, n, crowd);
    AtOnceGoesOn(events, names, Flush(crowd));
    more := events + [Flush(crowd)];
  }

  lemma GroupKeyIsNoSubject(recipient: string)
    ensures forall j: nat :: Key(j) != "group:" + recipient
  {
    assert ("group:" + recipient)[0] == 'g';
    forall j: nat
      ensures Key(j) != "group:" + recipient
    {
      if j > 0 {
        assert Key(j)[0] == 'x';
      }
    }
  }

  /** The budget exceeds the remembered history, or the others crowd the recipient out of it. */
  predicate Overwhelms(config: Config, crowd: nat) {
    config.budget > MAX_DELIVERIES_PER_RECIPIENT || (config.budget >= 1 && crowd == MAX_RECIPIENTS)
  }

  lemma NextIsDelivered(config: Config, m: Memory, n: nat, crowd: nat)
    requires config.enabled && Overwhelms(config, crowd) && Unasked(m, n) && EndsWithCrowd(m.deliveries, crowd)
    ensures Decide(config, m, Request("r", Key(n), Info, true, None), 0) == Deliver
  {
    HistoryIsShort(m.deliveries, "r");
    CountIsBounded(History(m, "r"), 0 - config.budgetWindow);
    if crowd == MAX_RECIPIENTS {
      CrowdCoversAll(m.deliveries);
    }
  }

  lemma LaterKeysDiffer(n: nat)
    ensures forall j: nat :: n + 1 <= j ==> Key(j) != Key(n)
  {
    forall j: nat | n + 1 <= j
      ensures Key(j) != Key(n)
    {
      assert |Key(j)| == j && |Key(n)| == n;
    }
  }

  lemma QuestionIsRemembered(config: Config, m: Memory, n: nat, crowd: nat)
    requires config.enabled && Overwhelms(config, crowd) && Unasked(m, n) && EndsWithCrowd(m.deliveries, crowd)
    ensures Decided(config, m, Question(n)) == Some(Deliver) && Unasked(Stepped(config, m, Question(n)), n + 1)
  {
    NextIsDelivered(config, m, n, crowd);
    LaterKeysDiffer(n);
    UnaskedAfter(m, "r", Key(n), n, n + 1);
  }

  lemma QuestionIsDelivered(config: Config, events: seq<Event>, n: nat, crowd: nat)
    requires config.enabled && Overwhelms(config, crowd) && Reached(config, events, n, crowd)
    ensures Reached(config, events + [Question(n)], n + 1, 0)
  {
    QuestionIsRemembered(config, MemoryAfter(config, events), n, crowd);
    NextRecorded(config, events, Question(n));
    DecisionsNext(config, events, Question(n), "r", 0, config.budgetWindow);
  }

  lemma NothingAsked(config: Config, names: set<string>)
    ensures Staged(config, [], 0, 0, names)
  {
  }

  lemma QuestionNext(config: Config, events: seq<Event>, n: nat, crowd: nat, names: set<string>) returns (more: seq<Event>)
    requires config.enabled && Overwhelms(config, crowd) && Staged(config, events, n, crowd, names) && "r" in names
    ensures Staged(config, more, n + 1, 0, names)
  {
    QuestionIsDelivered(config, events, n, crowd);
    AtOnceGoesOn(events, names, Question(n));
    more := events + [Question(n)];
  }

  /** `n` questions to one recipient, each after the others have got something, and then so many others get something. */
  lemma {:induction false} Burst(config: Config, n: nat, flushed: nat, crowd: nat, names: set<string>) returns (events: seq<Event>)
    requires config.enabled && Overwhelms(config, crowd) && flushed <= crowd <= MAX_RECIPIENTS
    requires "r" in names && forall i :: 0 <= i < crowd ==> Other(i) in names
    ensures Staged(config, events, n, flushed, names)
    decreases n, flushed
  {
    if flushed > 0 {
      var before := Burst(config, n, flushed - 1, crowd, names);
      events := FlushNext(config, before, n, flushed - 1, names);
    } else if n > 0 {
      var before := Burst(config, n - 1, crowd, crowd, names);
      events := QuestionNext(config, before, n - 1, crowd, names);
    } else {
      events := [];
      NothingAsked(config, names);
    }
  }

  // ----- where the limit ends --------------------------------------------------------------

  lemma OverfullWindow(config: Config, events: seq<Event>, outcomes: seq<Option<Outcome>>, recipient: string, from: Stamp)
    requires |events| == |outcomes| && DecisionsInWindow(events, outcomes, recipient, from, config) > Allowance(config)
    ensures !KeepsBudget(config, events, outcomes)
  {
  }

  /** Without a budget no ordinary message is ever delivered. */
  lemma {:induction false} NothingIsDelivered(config: Config, events: seq<Event>, recipient: string, from: Stamp, until: Stamp)
    requires config.enabled && config.budget <= 0
    ensures OrdinaryDecisions(events, Outcomes(config, events), recipient, from, until) == 0
  {
    if events != [] {
      var before, last := events[..|events| - 1], events[|events| - 1];
      NothingIsDelivered(config, before, recipient, from, until);
      DecisionsNext(config, before, last, recipient, from, until);
      assert before + [last] == events;
    }
  }

  /** The budget and the number of recipients fit what the store remembers. */
  predicate FitsStore(config: Config, n: nat) {
    config.budget <= 0 || (config.budget <= MAX_DELIVERIES_PER_RECIPIENT && n <= MAX_RECIPIENTS)
  }

  lemma FittingBudgetIsKept(config: Config, events: seq<Event>, recipients: set<string>, n: nat)
    requires config.enabled && FitsStore(config, n) && Regular(events, recipients, n)
    ensures KeepsBudget(config, events, Outcomes(config, events))
  {
    if config.budget <= 0 {
      forall recipient, from
        ensures DecisionsInWindow(events, Outcomes(config, events), recipient, from, config) <= Allowance(config)
      {
        NothingIsDelivered(config, events, recipient, from, from + config.budgetWindow);
      }
    } else {
      BudgetIsKept(config, events, recipients);
    }
  }

  /** Otherwise one question more than the budget, all at one moment, overfills the window. */
  lemma LimitIsBroken(config: Config, n: nat) returns (events: seq<Event>, recipients: set<string>)
    requires config.enabled && n >= 1 && !FitsStore(config, n)
    ensures Regular(events, recipients, n) && !KeepsBudget(config, events, Outcomes(config, events))
  {
    var crowd := if config.budget > MAX_DELIVERIES_PER_RECIPIENT then 0 else MAX_RECIPIENTS;
    recipients := {"r"} + Crowd(crowd);
    forall i | 0 <= i < crowd
      ensures Other(i) in recipients
    {
      OtherInCrowd(i, crowd);
    }
    events := Burst(config, config.budget + 1, 0, crowd, recipients);
    AtOnceIsRegular(events, crowd, n);
    OverfullWindow(config, events, Outcomes(config, events), "r", 0);
  }

  /** The limit holds of every run with at most `n` recipients if and only if these and the budget fit the store. */
  lemma BudgetIsKeptExactlyWhenStoreSuffices(config: Config, n: nat)
    requires config.enabled && n >= 1
    ensures FitsStore(config, n) <==>
            forall events, recipients :: Regular(events, recipients, n) ==> KeepsBudget(config, events, Outcomes(config, events))
  {
    if FitsStore(config, n) {
      forall events, recipients | Regular(events, recipients, n)
        ensures KeepsBudget(config, events, Outcomes(config, events))
      {
        FittingBudgetIsKept(config, events, recipients, n);
      }
    } else {
      var events, recipients := LimitIsBroken(config, n);
    }
  }
}
