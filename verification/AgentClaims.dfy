/**
 Proactive events and the claims on their proposed actions. Button presses,
 voice replies, signals and executions interleave wherever the original
 releases its lock or waits.
 */
module AgentClaims {
  import opened Common

  type EventId = string
  type Stamp = int
  type Plan = string

  datatype Mode = Inform | Ask | Auto

  datatype EventState = Active | Notified | Acknowledged | Snoozed | Resolved | Expired | Denied | Failed

  datatype Event = Event(
    id: EventId,
    dedupeKey: string,
    mode: Mode,
    state: EventState,
    updatedAt: Stamp,
    expiresAt: Stamp,
    proposedAction: Option<Plan>,
    notificationDevices: seq<string>,
    deliveredChannels: seq<string>)
  {
    /** Still waiting for an answer. */
    predicate Live() {
      state in {Active, Notified, Snoozed}
    }

    function In(next: EventState, now: Stamp): Event {
      this.(state := next, updatedAt := now)
    }
  }

  /** How a service call ended. */
  datatype CallOutcome = Executed | RefusedByPolicy | CallFailed

  /** A coroutine that brings an event to its recipients, with its own copy of the event. */
  datatype Delivery =
    | Created(event: Event)                          // stored by a signal, not yet delivered
    | Delivering(event: Event)                       // handed to the notification channels

  /** A coroutine that carries out an answer, with its own copy of the event. */
  datatype Claim =
    | Claimed(event: Event)                          // answered with yes, not yet executed
    | Called(event: Event, outcome: CallOutcome)     // executed, result not yet stored

  datatype Operation = Confirm | Ignore | Snooze

  type Events = map<EventId, Event>

  /** A signal finds this event instead of creating another. */
  predicate Duplicates(event: Event, dedupeKey: string, now: Stamp, cooldown: nat) {
    event.dedupeKey == dedupeKey && event.state != Expired && (event.Live() || (cooldown != 0 && now - event.updatedAt < cooldown))
  }

  predicate Rivals(events: Events, i: EventId, j: EventId) {
    i in events && j in events && events[i].Live() && events[j].Live() && events[i].dedupeKey == events[j].dedupeKey
  }

  /** No stored event answers a signal with this key. */
  predicate Unanswered(events: Events, dedupeKey: string, now: Stamp, cooldown: nat) {
    forall id :: id in events ==> !Duplicates(events[id], dedupeKey, now, cooldown)
  }

  /** The policy lets the action of an automatic event be carried out without asking. */
  predicate Attempts(event: Event, allowed: bool) {
    event.mode.Auto? && event.proposedAction.Some? && allowed
  }

  /** What is delivered: an automatic event that was not carried out becomes a question. */
  function AfterAttempt(event: Event, allowed: bool, executed: bool): Event {
    if !event.mode.Auto? || event.proposedAction == None then event
    else if !allowed then event.(mode := Ask)
    else if executed then event.(state := Resolved)
    else event.(state := Active, mode := Ask)
  }

  /** The stored event once its delivery is over: the coroutine's own copy, whatever was stored meanwhile. */
  function AfterDelivery(copy: Event, channels: seq<string>, now: Stamp): Event {
    copy.In(if copy.state == Resolved then Resolved else Notified, now).(deliveredChannels := channels)
  }

  predicate ExpectedDevice(event: Event, device: Option<string>) {
    event.notificationDevices == [] || device == None || device.value in event.notificationDevices
  }

  /** The press is a valid answer to an open question. */
  predicate MayClaim(events: Events, id: EventId, device: Option<string>, operation: Operation, now: Stamp) {
    && id in events && events[id].Live() && ExpectedDevice(events[id], device) && now < events[id].expiresAt
    && operation.Confirm? && events[id].mode.Ask? && events[id].proposedAction.Some?
  }

  /** A press that claims nothing: the event expires, is put aside, or stays as it was. */
  function AfterPress(events: Events, id: EventId, device: Option<string>, operation: Operation, reminderCreated: bool,
                      now: Stamp): Events
  {
    if id !in events || !events[id].Live() || !ExpectedDevice(events[id], device) then events
    else if events[id].expiresAt <= now then events[id := events[id].In(Expired, now)]
    else if operation.Ignore? then events[id := events[id].In(Acknowledged, now)]
    else if operation.Snooze? && reminderCreated then events[id := events[id].In(Snoozed, now)]
    else events
  }

  predicate IsOpenQuestion(event: Event, now: Stamp) {
    event.mode.Ask? && event.state == Notified && "tts" in event.deliveredChannels && now < event.expiresAt
  }

  function OpenQuestions(events: Events, now: Stamp): set<EventId> {
    set id | id in events && IsOpenQuestion(events[id], now)
  }

  /** The only stored event that asks, was delivered as speech, waits for an answer and has not expired. */
  predicate OnlyOpen(events: Events, id: EventId, now: Stamp) {
    && id in events
    && forall other :: other in events ==>
         (other == id <==>
            && events[other].mode == Ask && events[other].state == Notified
            && "tts" in events[other].deliveredChannels && now < events[other].expiresAt)
  }

  lemma OnlyOpenExactly(events: Events, id: EventId, now: Stamp)
    ensures OpenQuestions(events, now) == {id} <==> OnlyOpen(events, id, now)
  {
    assert OpenQuestions(events, now) == {id} ==> id in OpenQuestions(events, now);
    forall other | other in events
      ensures other in OpenQuestions(events, now) <==>
                && events[other].mode == Ask && events[other].state == Notified
                && "tts" in events[other].deliveredChannels && now < events[other].expiresAt
    {
    }
  }

  lemma OnlyMember(ids: set<EventId>, id: EventId)
    requires |ids| == 1 && id in ids
    ensures ids == {id}
  {
    assert |ids - {id}| == 0;
  }

  /** The state a service call leaves its event in. */
  function Final(outcome: CallOutcome): EventState {
    match outcome
    case Executed => Resolved
    case RefusedByPolicy => Denied
    case CallFailed => Failed
  }

  // ----- the world -------------------------------------------------------------------------

  function At<V>(m: map<EventId, V>, id: EventId): Option<V> {
    if id in m then Some(m[id]) else None
  }

  function With<V>(m: map<EventId, V>, id: EventId, value: Option<V>): map<EventId, V> {
    match value
    case Some(v) => m[id := v]
    case None => m - {id}
  }

  /**
   The stored events and the coroutines working on them. A claim made while the
   delivery of its event is outstanding is kept apart from one made after it.
   */
  datatype World = World(
    events: Events,
    deliveries: map<EventId, Delivery>,
    early: map<EventId, Claim>,
    late: map<EventId, Claim>,
    // how often the proposed action of each event was carried out
    executions: multiset<EventId>,
    // the events that were claimed while their delivery was outstanding
    hurried: set<EventId>,
    // the events that a delivery made live again
    reopened: set<EventId>)
  {
    /** This is stored for the event, and these coroutines go on with it. */
    function Saved(event: Event, delivery: Option<Delivery>, first: Option<Claim>, second: Option<Claim>, executed: nat,
                   hurrying: bool): World
    {
      World(events[event.id := event],
            With(deliveries, event.id, delivery), With(early, event.id, first), With(late, event.id, second),
            executions[event.id := executions[event.id] + executed],
            if hurrying then hurried + {event.id} else hurried,
            if event.id in events && !events[event.id].Live() && event.Live() then reopened + {event.id} else reopened)
    }

    /** Only the stored event changes. */
    function Stored(event: Event): World {
      Saved(event, At(deliveries, event.id), At(early, event.id), At(late, event.id), 0, false)
    }

    /** The delivery goes on like this, or ends. */
    function Delivered(event: Event, delivery: Option<Delivery>, executed: nat): World {
      Saved(event, delivery, At(early, event.id), At(late, event.id), executed, false)
    }

    /** The question is used up and its action claimed. */
    function Taken(event: Event): World {
      if event.id in deliveries
      then Saved(event, At(deliveries, event.id), Some(Claimed(event)), At(late, event.id), 0, true)
      else Saved(event, None, At(early, event.id), Some(Claimed(event)), 0, false)
    }

    function ClaimOf(id: EventId, hurrying: bool): Option<Claim> {
      if hurrying then At(early, id) else At(late, id)
    }

    /** The claim goes on like this, or ends. */
    function Claiming(event: Event, hurrying: bool, claim: Option<Claim>, executed: nat): World {
      if hurrying then Saved(event, At(deliveries, event.id), claim, At(late, event.id), executed, false)
      else Saved(event, At(deliveries, event.id), At(early, event.id), claim, executed, false)
    }
  }

  // ----- what holds at every moment ------------------------------------------------------

  /** The coroutine works on the same event. */
  predicate Own(event: Event, copy: Event) {
    copy.id == event.id && copy.dedupeKey == event.dedupeKey
  }

  function Pending(claim: Option<Claim>): nat {
    if claim.Some? && claim.value.Claimed? then 1 else 0
  }

  /** How often the action was or will be carried out at most. */
  function Granted(first: Option<Claim>, second: Option<Claim>, executions: nat): nat {
    executions + Pending(first) + Pending(second)
  }

  /** The claims belong to the event, and an early one to an event that was hurried. */
  predicate OwnClaims(event: Event, first: Option<Claim>, second: Option<Claim>, hurried: bool) {
    && (first.Some? ==> Own(event, first.value.event) && first.value.event.mode.Ask? && hurried)
    && (second.Some? ==> Own(event, second.value.event))
  }

  /** Once delivered, a question that was never hurried is carried out at most once, and any at most twice. */
  predicate Settled(event: Event, first: Option<Claim>, second: Option<Claim>, executions: nat, hurried: bool) {
    var allowed := if hurried then 1 else 0;
    if event.Live() then second == None && Granted(first, second, executions) <= allowed
    else Granted(first, second, executions) <= allowed + 1
  }

  /** Before that, it is carried out at most once, and only if it was hurried or allowed to carry itself out. */
  predicate Underway(event: Event, delivery: Delivery, first: Option<Claim>, second: Option<Claim>, executions: nat, hurried: bool) {
    var copy := delivery.event;
    && Own(event, copy) && second == None && event.state != Notified && copy.state in {Active, Resolved}
    && (delivery.Created? ==> copy.state == Active && copy.mode == event.mode)
    && if event.mode.Ask?
       then && copy.state == Active && Granted(first, second, executions) <= (if hurried then 1 else 0)
            && (event.Live() ==> !hurried)
       else !hurried && executions == if copy.state == Resolved then 1 else 0
  }

  /** What the stored event, the coroutines working on it and the executions so far have to do with each other. */
  predicate Coherent(event: Event, delivery: Option<Delivery>, first: Option<Claim>, second: Option<Claim>, executions: nat,
                     hurried: bool)
  {
    && OwnClaims(event, first, second, hurried)
    && match delivery
       case None => Settled(event, first, second, executions, hurried)
       case Some(d) => Underway(event, d, first, second, executions, hurried)
  }

  ghost predicate CoherentAt(w: World, id: EventId)
    requires id in w.events
  {
    w.events[id].id == id && Coherent(w.events[id], At(w.deliveries, id), At(w.early, id), At(w.late, id), w.executions[id], id in w.hurried)
  }

  ghost predicate Consistent(w: World) {
    && w.deliveries.Keys <= w.events.Keys && w.early.Keys <= w.events.Keys && w.late.Keys <= w.events.Keys
    && w.hurried <= w.events.Keys && (forall id :: id in w.executions ==> id in w.events)
    && (forall id :: id in w.events ==> CoherentAt(w, id))
  }

  /** `liveOf` names the live event of each key, but for those made live again. */
  ghost predicate Unrivalled(w: World, liveOf: map<string, EventId>) {
    forall id :: id in w.events && w.events[id].Live() && id !in w.reopened ==>
      w.events[id].dedupeKey in liveOf && liveOf[w.events[id].dedupeKey] == id
  }

  ghost predicate Sound(w: World, liveOf: map<string, EventId>) {
    Consistent(w) && Unrivalled(w, liveOf)
  }

  /** So no key has two live events. */
  lemma OneLivePerKey(w: World, liveOf: map<string, EventId>, i: EventId, j: EventId)
    requires Unrivalled(w, liveOf)
    requires Rivals(w.events, i, j) && i !in w.reopened && j !in w.reopened
    ensures i == j
  {
    assert liveOf[w.events[i].dedupeKey] == i;
  }

  /** Storing an event with its coroutines keeps every other one as it was. */
  lemma OthersAreKept(w: World, event: Event, delivery: Option<Delivery>, first: Option<Claim>, second: Option<Claim>,
                      executed: nat, hurrying: bool, id: EventId)
    requires id in w.events && id != event.id && CoherentAt(w, id)
    ensures CoherentAt(w.Saved(event, delivery, first, second, executed, hurrying), id)
  {
    var next := w.Saved(event, delivery, first, second, executed, hurrying);
    assert At(next.deliveries, id) == At(w.deliveries, id) && At(next.early, id) == At(w.early, id) && At(next.late, id) == At(w.late, id);
  }

  lemma SavedIsCoherent(w: World, event: Event, delivery: Option<Delivery>, first: Option<Claim>, second: Option<Claim>,
                        executed: nat, hurrying: bool)
    requires Coherent(event, delivery, first, second, w.executions[event.id] + executed, hurrying || event.id in w.hurried)
    ensures CoherentAt(w.Saved(event, delivery, first, second, executed, hurrying), event.id)
  {
    var next := w.Saved(event, delivery, first, second, executed, hurrying);
    assert At(next.deliveries, event.id) == delivery && At(next.early, event.id) == first && At(next.late, event.id) == second;
  }

  lemma SavedIsConsistent(w: World, event: Event, delivery: Option<Delivery>, first: Option<Claim>, second: Option<Claim>,
                          executed: nat, hurrying: bool)
    requires Consistent(w)
    requires Coherent(event, delivery, first, second, w.executions[event.id] + executed, hurrying || event.id in w.hurried)
    ensures Consistent(w.Saved(event, delivery, first, second, executed, hurrying))
  {
    var next := w.Saved(event, delivery, first, second, executed, hurrying);
    SavedIsCoherent(w, event, delivery, first, second, executed, hurrying);
    forall id | id in next.events
      ensures CoherentAt(next, id)
    {
      if id != event.id {
        OthersAreKept(w, event, delivery, first, second, executed, hurrying, id);
      }
    }
  }

  lemma SavedIsUnrivalled(w: World, liveOf: map<string, EventId>, event: Event, delivery: Option<Delivery>, first: Option<Claim>,
                          second: Option<Claim>, executed: nat, hurrying: bool)
    requires Unrivalled(w, liveOf) && event.id in w.events && event.dedupeKey == w.events[event.id].dedupeKey
    ensures Unrivalled(w.Saved(event, delivery, first, second, executed, hurrying), liveOf)
  {
  }

  lemma SavedIsSound(w: World, liveOf: map<string, EventId>, event: Event, delivery: Option<Delivery>, first: Option<Claim>,
                     second: Option<Claim>, executed: nat, hurrying: bool)
    requires Sound(w, liveOf) && event.id in w.events && event.dedupeKey == w.events[event.id].dedupeKey
    requires Coherent(event, delivery, first, second, w.executions[event.id] + executed, hurrying || event.id in w.hurried)
    ensures Sound(w.Saved(event, delivery, first, second, executed, hurrying), liveOf)
  {
    SavedIsConsistent(w, event, delivery, first, second, executed, hurrying);
    SavedIsUnrivalled(w, liveOf, event, delivery, first, second, executed, hurrying);
  }

  class AgentRuntime {
    var events: Events
    var deliveries: map<EventId, Delivery>
    var early: map<EventId, Claim>
    var late: map<EventId, Claim>
    var executions: multiset<EventId>
    // What the proofs remember: the claims made too early, the events made live again, and the live event of each key.
    var hurried: set<EventId>
    var reopened: set<EventId>
    ghost var liveOf: map<string, EventId>

    function Now(): World
      reads this
    {
      World(events, deliveries, early, late, executions, hurried, reopened)
    }

    ghost predicate Valid()
      reads this
    {
      Sound(Now(), liveOf)
    }

    constructor ()
      ensures Valid() && Now() == Nothing()
    {
      events, deliveries, early, late, executions := map[], map[], map[], map[], multiset{};
      hurried, reopened, liveOf := {}, {}, map[];
    }

    method Become(next: World)
      modifies `events, `deliveries, `early, `late, `executions, `hurried, `reopened
      ensures Now() == next
    {
      events, deliveries, early, late, executions, hurried, reopened :=
        next.events, next.deliveries, next.early, next.late, next.executions, next.hurried, next.reopened;
    }

    /** Stores an event, and says which coroutines go on with it. */
    method Save(event: Event, delivery: Option<Delivery>, first: Option<Claim>, second: Option<Claim>, executed: nat,
                hurrying: bool)
      requires Valid() && event.id in events && event.dedupeKey == events[event.id].dedupeKey
      requires Coherent(event, delivery, first, second, executions[event.id] + executed, hurrying || event.id in hurried)
      modifies `events, `deliveries, `early, `late, `executions, `hurried, `reopened
      ensures Valid() && Now() == old(Now()).Saved(event, delivery, first, second, executed, hurrying)
    {
      SavedIsSound(Now(), liveOf, event, delivery, first, second, executed, hurrying);
      Become(Now().Saved(event, delivery, first, second, executed, hurrying));
    }

    method FindDuplicate(dedupeKey: string, now: Stamp, cooldown: nat) returns (found: Option<Event>)
      requires Valid()
      ensures found.Some? ==>
                found.value.id in events && events[found.value.id] == found.value && Duplicates(found.value, dedupeKey, now, cooldown)
      ensures found == None ==> Unanswered(events, dedupeKey, now, cooldown)
    {
      var rest := events.Keys;
      while rest != {}
        invariant rest <= events.Keys
        invariant forall id :: id in events.Keys - rest ==> !Duplicates(events[id], dedupeKey, now, cooldown)
        decreases |rest|
      {
        var id :| id in rest;
        if Duplicates(events[id], dedupeKey, now, cooldown) {
          return Some(events[id]);
        }
        rest := rest - {id};
      }
      return None;
    }

    /** Creates an event unless a live or recent one has the same key; `id` is new. */
    method Signal(id: EventId, dedupeKey: string, mode: Mode, action: Option<Plan>, devices: seq<string>,
                  now: Stamp, lifetime: nat, cooldown: nat)
      returns (ok: bool, event: Option<Event>)
      requires Valid() && id !in events
      modifies this
      ensures Valid() && ok == event.Some? == (mode.Inform? || action.Some?)
      ensures !ok ==> Now() == old(Now())
      ensures ok && event.value.id != id ==>
                && event.value.id in old(events) && old(events)[event.value.id] == event.value
                && Duplicates(event.value, dedupeKey, now, cooldown) && Now() == old(Now())
      ensures ok && event.value.id == id ==>
                && Unanswered(old(events), dedupeKey, now, cooldown)
                && event.value == Event(id, dedupeKey, mode, Active, now, now + lifetime, action, devices, [])
                && Now() == Signalled(old(Now()), event.value)
    {
      ok, event := mode.Inform? || action.Some?, None;
      if !ok {
        return;
      }
      event := FindDuplicate(dedupeKey, now, cooldown);
      if event.Some? {
        return;
      }
      var created := Event(id, dedupeKey, mode, Active, now, now + lifetime, action, devices, []);
      SignalledIsSound(Now(), liveOf, created);
      Become(Signalled(Now(), created));
      liveOf := liveOf[dedupeKey := id];
      event := Some(created);
    }

    /**
     A signal goes on after storing its event: the situation may be over; an
     automatic action is carried out when the policy allows it and asked for
     otherwise. Then the event is handed to the channels.
     */
    method ContinueSignal(id: EventId, matches: bool, allowed: bool, executed: bool, now: Stamp)
      requires Valid() && id in deliveries && deliveries[id].Created?
      modifies this
      ensures Valid()
      ensures
        var event := old(deliveries[id]).event;
        Now() ==
          if !matches then old(Now()).Delivered(event.In(Resolved, now), None, 0)
          else old(Now()).Delivered(old(events[id]), Some(Delivering(AfterAttempt(event, allowed, executed))),
                                    if Attempts(event, allowed) && executed then 1 else 0)
    {
      assert CoherentAt(Now(), id);
      var event := deliveries[id].event;
      if !matches {
        Save(event.In(Resolved, now), None, At(early, id), At(late, id), 0, false);
        return;
      }
      var carriedOut := Attempts(event, allowed) && executed;
      Save(events[id], Some(Delivering(AfterAttempt(event, allowed, executed))), At(early, id), At(late, id),
           if carriedOut then 1 else 0, false);
    }

    /** The delivery is over; the coroutine's own copy of the event replaces the stored one. */
    method FinishDelivery(id: EventId, channels: seq<string>, now: Stamp)
      requires Valid() && id in deliveries && deliveries[id].Delivering?
      modifies this
      ensures Valid()
      ensures Now() == old(Now()).Delivered(AfterDelivery(old(deliveries[id]).event, channels, now), None, 0)
    {
      assert CoherentAt(Now(), id);
      Save(AfterDelivery(deliveries[id].event, channels, now), None, At(early, id), At(late, id), 0, false);
    }

    /** A button of the notification was pressed. */
    method Press(id: EventId, device: Option<string>, operation: Operation, reminderCreated: bool, now: Stamp)
      returns (claimed: bool)
      requires Valid()
      modifies this
      ensures Valid()
      ensures claimed == MayClaim(old(events), id, device, operation, now)
      ensures claimed <==>
                && id in old(events)
                && var event := old(events)[id];
                   && event.state in {Active, Notified, Snoozed} && event.mode == Ask && event.proposedAction != None
                   && operation == Confirm && now < event.expiresAt
                   && (event.notificationDevices == [] || device == None || device.value in event.notificationDevices)
      ensures claimed ==> Now() == old(Now()).Taken(old(events)[id].In(Acknowledged, now))
      ensures claimed ==> id !in (if id in old(deliveries) then old(early) else old(late))
      ensures !claimed ==> Now() == old(Now()).(events := AfterPress(old(events), id, device, operation, reminderCreated, now))
    {
      claimed := false;
      if id !in events || !events[id].Live() {
        return;
      }
      assert CoherentAt(Now(), id);
      var current := events[id];
      if !ExpectedDevice(current, device) {
        return;
      }
      if current.expiresAt <= now {
        PutAside(current.In(Expired, now));
        return;
      }
      match operation
      case Ignore => PutAside(current.In(Acknowledged, now));
      case Snooze =>
        if reminderCreated {
          PutAside(current.In(Snoozed, now));
        }
      case Confirm =>
        if current.mode.Ask? && current.proposedAction.Some? {
          claimed := true;
          Take(current.In(Acknowledged, now));
        }
    }

    /** Stores an answer that starts nothing. */
    method PutAside(event: Event)
      requires Valid() && event.id in events && events[event.id].Live() && event.state != Notified
      requires event.dedupeKey == events[event.id].dedupeKey && event.mode == events[event.id].mode
      modifies this
      ensures Valid() && Now() == old(Now()).(events := old(events)[event.id := event])
    {
      assert CoherentAt(Now(), event.id);
      StoredAlone(Now(), event);
      Save(event, At(deliveries, event.id), At(early, event.id), At(late, event.id), 0, false);
    }

    /** Stores the claim before anything physical happens, so that a second answer finds the event taken. */
    method Take(event: Event)
      requires Valid() && event.id in events && events[event.id].Live() && events[event.id].mode.Ask?
      requires event == events[event.id].In(Acknowledged, event.updatedAt)
      modifies this
      ensures Valid() && Now() == old(Now()).Taken(event)
      ensures event.id !in (if event.id in old(deliveries) then old(early) else old(late))
    {
      assert CoherentAt(Now(), event.id);
      if event.id in deliveries {
        Save(event, At(deliveries, event.id), Some(Claimed(event)), At(late, event.id), 0, true);
      } else {
        Save(event, None, At(early, event.id), Some(Claimed(event)), 0, false);
      }
    }

    /** The open questions a spoken answer could mean. */
    method Candidates(now: Stamp) returns (open: set<EventId>)
      ensures open == OpenQuestions(events, now)
    {
      open := {};
      var rest := events.Keys;
      while rest != {}
        invariant rest <= events.Keys
        invariant open == OpenQuestions(events, now) - rest
        decreases |rest|
      {
        var id :| id in rest;
        rest := rest - {id};
        if IsOpenQuestion(events[id], now) {
          open := open + {id};
        }
      }
    }

    /** A spoken yes or no counts only when exactly one question is open; either answer uses the question up. */
    method Reply(yes: bool, now: Stamp) returns (answered: Option<EventId>)
      requires Valid()
      modifies this
      ensures Valid()
      ensures forall id :: answered == Some(id) <==> OnlyOpen(old(events), id, now)
      ensures answered == None ==> |OpenQuestions(old(events), now)| != 1 && Now() == old(Now())
      ensures answered.Some? ==>
                && OpenQuestions(old(events), now) == {answered.value}
                && answered.value !in old(deliveries) && answered.value !in old(late)
                && var event := old(events)[answered.value].In(Acknowledged, now);
                   Now() == if yes then old(Now()).Taken(event) else old(Now()).(events := old(events)[answered.value := event])
    {
      var open := Candidates(now);
      forall id
        ensures open == {id} <==> OnlyOpen(events, id, now)
      {
        OnlyOpenExactly(events, id, now);
      }
      if |open| != 1 {
        return None;
      }
      var id :| id in open;
      OnlyMember(open, id);
      assert CoherentAt(Now(), id);
      if yes {
        Take(events[id].In(Acknowledged, now));
      } else {
        PutAside(events[id].In(Acknowledged, now));
      }
      answered := Some(id);
    }

    /** The claimed action, unless the situation is over or the plan is no longer valid, is carried out. */
    method ExecuteClaimed(id: EventId, hurrying: bool, matches: bool, valid: bool, outcome: CallOutcome, now: Stamp)
      requires Valid() && Awaited(Now(), id, hurrying)
      modifies this
      ensures Valid() && Now() == Performed(old(Now()), id, hurrying, matches, valid, outcome, now)
    {
      var event := (if hurrying then early[id] else late[id]).event;
      if event.proposedAction == None || !matches {
        EndClaim(id, hurrying, Resolved, now);
      } else if !valid {
        EndClaim(id, hurrying, Denied, now);
      } else {
        assert CoherentAt(Now(), id);
        Replace(events[id], hurrying, Some(Called(event, outcome)), if outcome.Executed? then 1 else 0);
      }
    }

    method StoreResult(id: EventId, hurrying: bool, now: Stamp)
      requires Valid() && Answering(Now(), id, hurrying)
      modifies this
      ensures Valid()
      ensures
        var claim := old(Now()).ClaimOf(id, hurrying).value;
        Now() == old(Now()).Claiming(claim.event.In(Final(claim.outcome), now), hurrying, None, 0)
      ensures
        match old(Now()).ClaimOf(id, hurrying).value.outcome
        case Executed => events[id].state == Resolved
        case RefusedByPolicy => events[id].state == Denied
        case CallFailed => events[id].state == Failed
    {
      assert CoherentAt(Now(), id);
      EndClaim(id, hurrying, Final((if hurrying then early[id] else late[id]).outcome), now);
    }

    /** The claim ends and leaves its event in this state. */
    method EndClaim(id: EventId, hurrying: bool, state: EventState, now: Stamp)
      requires Valid() && Now().ClaimOf(id, hurrying).Some? && state in {Resolved, Denied, Failed}
      modifies this
      ensures Valid()
      ensures Now() == old(Now()).Claiming(old(Now()).ClaimOf(id, hurrying).value.event.In(state, now), hurrying, None, 0)
    {
      assert CoherentAt(Now(), id);
      Replace((if hurrying then early[id] else late[id]).event.In(state, now), hurrying, None, 0);
    }

    /** The claim goes on like this, or ends. */
    method Replace(event: Event, hurrying: bool, claim: Option<Claim>, executed: nat)
      requires Valid() && event.id in events && event.dedupeKey == events[event.id].dedupeKey
      requires var first, second := if hurrying then claim else At(early, event.id), if hurrying then At(late, event.id) else claim;
               Coherent(event, At(deliveries, event.id), first, second, executions[event.id] + executed, event.id in hurried)
      modifies this
      ensures Valid() && Now() == old(Now()).Claiming(event, hurrying, claim, executed)
    {
      if hurrying {
        Save(event, At(deliveries, event.id), claim, At(late, event.id), executed, false);
      } else {
        Save(event, At(deliveries, event.id), At(early, event.id), claim, executed, false);
      }
    }
  }

  function Nothing(): World {
    World(map[], map[], map[], map[], multiset{}, {}, {})
  }

  function Signalled(w: World, event: Event): World {
    w.Saved(event, Some(Created(event)), None, None, 0, false)
  }

  lemma SignalledIsSound(w: World, liveOf: map<string, EventId>, event: Event)
    requires Sound(w, liveOf) && event.id !in w.events && event.state == Active
    requires forall id :: id in w.events && w.events[id].Live() ==> w.events[id].dedupeKey != event.dedupeKey
    ensures Sound(Signalled(w, event), liveOf[event.dedupeKey := event.id])
  {
    assert w.executions[event.id] == 0;
    SavedIsConsistent(w, event, Some(Created(event)), None, None, 0, false);
    SignalledIsUnrivalled(w, liveOf, event);
  }

  lemma SignalledIsUnrivalled(w: World, liveOf: map<string, EventId>, event: Event)
    requires Unrivalled(w, liveOf) && event.id !in w.events
    requires forall id :: id in w.events && w.events[id].Live() ==> w.events[id].dedupeKey != event.dedupeKey
    ensures Unrivalled(Signalled(w, event), liveOf[event.dedupeKey := event.id])
  {
  }

  /** Storing a live event as it was in everything else changes nothing else. */
  lemma StoredAlone(w: World, event: Event)
    requires event.id in w.events && w.events[event.id].Live()
    ensures w.Stored(event) == w.(events := w.events[event.id := event])
  {
  }

  /** A claim waits to be carried out. */
  predicate Awaited(w: World, id: EventId, hurrying: bool) {
    w.ClaimOf(id, hurrying).Some? && w.ClaimOf(id, hurrying).value.Claimed?
  }

  /** A claim waits for its result to be stored. */
  predicate Answering(w: World, id: EventId, hurrying: bool) {
    w.ClaimOf(id, hurrying).Some? && w.ClaimOf(id, hurrying).value.Called?
  }

  /** What carrying out a claim makes of the world. */
  function Performed(w: World, id: EventId, hurrying: bool, matches: bool, valid: bool, outcome: CallOutcome, now: Stamp): World
    requires Awaited(w, id, hurrying) && id in w.events
  {
    var event := w.ClaimOf(id, hurrying).value.event;
    if event.proposedAction == None || !matches then w.Claiming(event.In(Resolved, now), hurrying, None, 0)
    else if !valid then w.Claiming(event.In(Denied, now), hurrying, None, 0)
    else w.Claiming(w.events[id], hurrying, Some(Called(event, outcome)), if outcome.Executed? then 1 else 0)
  }

  /**
   A claim without a situation or an action resolves its event, and one without
   a valid plan denies it; any other is carried out once if the call succeeds,
   and goes on to store the result. No other event or count changes.
   */
  lemma PerformedExactly(w: World, id: EventId, hurrying: bool, matches: bool, valid: bool, outcome: CallOutcome, now: Stamp)
    requires Awaited(w, id, hurrying) && id in w.events
    requires w.ClaimOf(id, hurrying).value.event.id == id && w.events[id].id == id
    ensures
      var next, claim := Performed(w, id, hurrying, matches, valid, outcome, now), w.ClaimOf(id, hurrying).value;
      var ended := claim.event.proposedAction == None || !matches || !valid;
      && next.events - {id} == w.events - {id} && next.deliveries == w.deliveries && next.ClaimOf(id, !hurrying) == w.ClaimOf(id, !hurrying)
      && (forall other :: next.executions[other] == w.executions[other] + if other == id && !ended && outcome == Executed then 1 else 0)
      && (ended ==> next.ClaimOf(id, hurrying) == None
                    && next.events[id].state == if claim.event.proposedAction == None || !matches then Resolved else Denied)
      && (!ended ==> next.ClaimOf(id, hurrying) == Some(Called(claim.event, outcome)) && next.events[id] == w.events[id])
  {
  }

  // ----- whole runs -----------------------------------------------------------------------

  /** One atomic stretch of some coroutine, with what it finds in the world around it. */
  datatype Step =
    | Signalling(id: EventId, dedupeKey: string, mode: Mode, action: Option<Plan>, devices: seq<string>, lifetime: nat, cooldown: nat)
    | Continuing(id: EventId, matches: bool, allowed: bool, executed: bool)
    | Delivered(id: EventId, channels: seq<string>)
    | Pressing(id: EventId, device: Option<string>, operation: Operation, reminderCreated: bool)
    | Replying(yes: bool)
    | Executing(id: EventId, hurrying: bool, matches: bool, valid: bool, outcome: CallOutcome)
    | Storing(id: EventId, hurrying: bool)

  /** The step can happen: its coroutine waits there, and new identifiers are new. */
  predicate Enabled(w: World, step: Step) {
    match step
    case Signalling(id, _, _, _, _, _, _) => id !in w.events
    case Continuing(id, _, _, _) => id in w.events && id in w.deliveries && w.deliveries[id].Created?
    case Delivered(id, _) => id in w.deliveries && w.deliveries[id].Delivering?
    case Executing(id, hurrying, _, _, _) => id in w.events && Awaited(w, id, hurrying)
    case Storing(id, hurrying) => Answering(w, id, hurrying)
    case _ => true
  }

  /** What a step makes of the world. */
  ghost function Stepped(w: World, step: Step, now: Stamp): World
    requires Enabled(w, step)
  {
    match step
    case Signalling(id, key, mode, action, devices, lifetime, cooldown) =>
      if !(mode.Inform? || action.Some?) || !Unanswered(w.events, key, now, cooldown) then w
      else Signalled(w, Event(id, key, mode, Active, now, now + lifetime, action, devices, []))
    case Continuing(id, matches, allowed, executed) =>
      var event := w.deliveries[id].event;
      if !matches then w.Delivered(event.In(Resolved, now), None, 0)
      else w.Delivered(w.events[id], Some(Delivering(AfterAttempt(event, allowed, executed))),
                       if Attempts(event, allowed) && executed then 1 else 0)
    case Delivered(id, channels) => w.Delivered(AfterDelivery(w.deliveries[id].event, channels, now), None, 0)
    case Pressing(id, device, operation, reminderCreated) =>
      if MayClaim(w.events, id, device, operation, now) then w.Taken(w.events[id].In(Acknowledged, now))
      else w.(events := AfterPress(w.events, id, device, operation, reminderCreated, now))
    case Replying(yes) =>
      var open := OpenQuestions(w.events, now);
      if |open| != 1 then w
      else
        var id :| id in open;
        var event := w.events[id].In(Acknowledged, now);
        if yes then w.Taken(event) else w.(events := w.events[id := event])
    case Executing(id, hurrying, matches, valid, outcome) => Performed(w, id, hurrying, matches, valid, outcome, now)
    case Storing(id, hurrying) =>
      var claim := w.ClaimOf(id, hurrying).value;
      w.Claiming(claim.event.In(Final(claim.outcome), now), hurrying, None, 0)
  }

  /** Steps that cannot happen are passed over. */
  ghost function Next(w: World, step: Step, now: Stamp): World {
    if Enabled(w, step) then Stepped(w, step, now) else w
  }

  /** The world after a run. */
  ghost function After(steps: seq<(Step, Stamp)>): World {
    if steps == [] then Nothing()
    else Next(After(steps[..|steps| - 1]), steps[|steps| - 1].0, steps[|steps| - 1].1)
  }

  lemma AfterNext(steps: seq<(Step, Stamp)>, step: Step, now: Stamp)
    ensures After(steps + [(step, now)]) == Next(After(steps), step, now)
  {
    assert (steps + [(step, now)])[..|steps|] == steps;
  }

  /** A button or a spoken answer. */
  method Answer(r: AgentRuntime, step: Step, now: Stamp)
    requires r.Valid() && Enabled(r.Now(), step) && (step.Pressing? || step.Replying?)
    modifies r
    ensures r.Valid() && r.Now() == Stepped(old(r.Now()), step, now)
  {
    match step
    case Pressing(id, device, operation, reminderCreated) => var _ := r.Press(id, device, operation, reminderCreated, now);
    case Replying(yes) => var _ := r.Reply(yes, now);
  }

  /** A coroutine goes on where it waited. */
  method Resume(r: AgentRuntime, step: Step, now: Stamp)
    requires r.Valid() && Enabled(r.Now(), step)
    requires step.Continuing? || step.Delivered? || step.Executing? || step.Storing?
    modifies r
    ensures r.Valid() && r.Now() == Stepped(old(r.Now()), step, now)
  {
    match step
    case Continuing(id, matches, allowed, executed) => r.ContinueSignal(id, matches, allowed, executed, now);
    case Delivered(id, channels) => r.FinishDelivery(id, channels, now);
    case Executing(id, hurrying, matches, valid, outcome) => r.ExecuteClaimed(id, hurrying, matches, valid, outcome, now);
    case Storing(id, hurrying) => r.StoreResult(id, hurrying, now);
  }

  method Perform(r: AgentRuntime, step: Step, now: Stamp)
    requires r.Valid() && Enabled(r.Now(), step)
    modifies r
    ensures r.Valid() && r.Now() == Stepped(old(r.Now()), step, now)
  {
    match step
    case Signalling(id, dedupeKey, mode, action, devices, lifetime, cooldown) =>
      var _, _ := r.Signal(id, dedupeKey, mode, action, devices, now, lifetime, cooldown);
    case Pressing(_, _, _, _) => Answer(r, step, now);
    case Replying(_) => Answer(r, step, now);
    case _ => Resume(r, step, now);
  }

  /**
   Claims: however presses, spoken answers, signals, deliveries and executions
   interleave, no proposed action is carried out more than twice, and twice only
   if its event was claimed while its delivery was outstanding; and no key has
   two live events but those a delivery made live again.
   */
  method RunAgent(steps: seq<(Step, Stamp)>) returns (r: AgentRuntime)
    ensures fresh(r) && r.Valid() && r.Now() == After(steps)
    ensures forall id :: r.executions[id] <= (if id in r.hurried then 2 else 1)
    ensures forall i, j :: Rivals(r.events, i, j) && i !in r.reopened && j !in r.reopened ==> i == j
  {
    r := new AgentRuntime();
    for k := 0 to |steps|
      invariant fresh(r) && r.Valid() && r.Now() == After(steps[..k])
    {
      AfterNext(steps[..k], steps[k].0, steps[k].1);
      assert steps[..k + 1] == steps[..k] + [steps[k]];
      if Enabled(r.Now(), steps[k].0) {
        Perform(r, steps[k].0, steps[k].1);
      }
    }
    assert steps[..|steps|] == steps;
    CarriedOutAtMost(r.Now());
    forall i, j | Rivals(r.events, i, j) && i !in r.reopened && j !in r.reopened
      ensures i == j
    {
      OneLivePerKey(r.Now(), r.liveOf, i, j);
    }
  }

  lemma CarriedOutAtMost(w: World)
    requires Consistent(w)
    ensures forall id :: w.executions[id] <= (if id in w.hurried then 2 else 1)
  {
    forall id
      ensures w.executions[id] <= (if id in w.hurried then 2 else 1)
    {
      if id in w.executions {
        assert CoherentAt(w, id);
      }
    }
  }

  // ----- what the answers come to ---------------------------------------------------------

  /** A signal is answered exactly by an event of its key that is live, or that ended less than the cooldown ago without expiring. */
  lemma UnansweredExactly(events: Events, dedupeKey: string, now: Stamp, cooldown: nat)
    ensures Unanswered(events, dedupeKey, now, cooldown) <==>
            forall id :: id in events && events[id].dedupeKey == dedupeKey ==>
              && events[id].state !in {Active, Notified, Snoozed}
              && (events[id].state == Expired || now >= events[id].updatedAt + cooldown || cooldown == 0)
  {
    assert forall id :: id in events ==>
        (!Duplicates(events[id], dedupeKey, now, cooldown) <==>
           (events[id].dedupeKey == dedupeKey ==>
              && events[id].state !in {Active, Notified, Snoozed}
              && (events[id].state == Expired || now >= events[id].updatedAt + cooldown || cooldown == 0)));
  }

  /** An ignored question is gone; a snoozed one is put off, if there is a reminder for it, and can still be claimed in time. */
  lemma PutAsideOrPutOff(events: Events, id: EventId, device: Option<string>, reminderCreated: bool, now: Stamp, later: Stamp)
    requires now <= later && MayClaim(events, id, device, Confirm, later)
    ensures
      var ignored := AfterPress(events, id, device, Ignore, reminderCreated, now);
      ignored - {id} == events - {id} && forall t :: !MayClaim(ignored, id, device, Confirm, t)
    ensures
      var snoozed := AfterPress(events, id, device, Snooze, reminderCreated, now);
      && snoozed - {id} == events - {id} && MayClaim(snoozed, id, device, Confirm, later)
      && (reminderCreated ==> snoozed[id].state == Snoozed && snoozed[id].updatedAt == now)
  {
  }

  /** Any press after its end finds an event expired, and nothing about it can be claimed again. */
  lemma LatePressExpires(events: Events, id: EventId, device: Option<string>, operation: Operation, reminderCreated: bool, now: Stamp)
    requires id in events && events[id].Live() && ExpectedDevice(events[id], device) && events[id].expiresAt <= now
    ensures
      var expired := AfterPress(events, id, device, operation, reminderCreated, now);
      && expired - {id} == events - {id} && expired[id] == events[id].In(Expired, now)
      && forall t :: !MayClaim(expired, id, device, Confirm, t)
  {
  }

  /** A delivered event. */
  function Waiting(delivered: Event): World {
    Nothing().(events := map[delivered.id := delivered])
  }

  lemma DeliveryEnds(question: Event, channels: seq<string>, at: Stamp)
    requires question.state.Active?
    ensures Next(BeingDelivered(question), Delivered(question.id, channels), at) == Waiting(AfterDelivery(question, channels, at))
  {
    var next := Next(BeingDelivered(question), Delivered(question.id, channels), at);
    assert next == BeingDelivered(question).Delivered(AfterDelivery(question, channels, at), None, 0);
    assert next.executions == multiset{} && next.deliveries == map[] && next.early == map[] && next.late == map[];
  }

  lemma OneIsOpen(event: Event, now: Stamp)
    ensures
      var heard := event.mode.Ask? && event.state == Notified && "tts" in event.deliveredChannels && now < event.expiresAt;
      OpenQuestions(Waiting(event).events, now) == if heard then {event.id} else {}
  {
  }

  /** A question on its own is answered by a word, or the word is not for it. */
  lemma AloneAnswered(event: Event, yes: bool, now: Stamp)
    requires event.mode.Ask? && event.state == Notified
    ensures
      var w, taken := Waiting(event), event.In(Acknowledged, now);
      Next(w, Replying(yes), now) ==
        if "tts" !in event.deliveredChannels || event.expiresAt <= now then w
        else if yes then w.Taken(taken) else Waiting(taken)
  {
    OneIsOpen(event, now);
    var open := OpenQuestions(Waiting(event).events, now);
    assert "tts" in event.deliveredChannels && now < event.expiresAt ==> |open| == 1 && forall id :: id in open <==> id == event.id;
  }

  /** Carrying out what was claimed, if anything was. */
  lemma AloneExecuted(event: Event, taken: Event, now: Stamp)
    requires taken == event.In(Acknowledged, now) && event.proposedAction.Some?
    ensures Next(Waiting(event).Taken(taken), Executing(event.id, false, true, true, Executed), now).executions[event.id] == 1
    ensures Next(Waiting(event), Executing(event.id, false, true, true, Executed), now) == Waiting(event)
    ensures Next(Waiting(taken), Executing(event.id, false, true, true, Executed), now) == Waiting(taken)
  {
    var w := Waiting(event).Taken(taken);
    assert w.late == map[event.id := Claimed(taken)] && w.events == map[event.id := taken] && w.executions[event.id] == 0;
    assert Next(w, Executing(event.id, false, true, true, Executed), now)
        == w.Claiming(taken, false, Some(Called(taken, Executed)), 1);
  }

  /**
   A run from the start: a question is signalled, delivered over these channels
   and answered by a spoken word. A yes carries its action out, once, exactly if
   the question was spoken and has not expired; otherwise, or by a no, nothing
   is carried out, and from its expiry on the word changes nothing at all.
   */
  lemma SpokenAnswerCounts(question: Event, lifetime: nat, channels: seq<string>, at: Stamp, yes: bool, now: Stamp)
    requires Asks(question, lifetime)
    ensures
      var id := question.id;
      var delivered := Asking(question, lifetime) + [(Delivered(id, channels), at)];
      var answered := delivered + [(Replying(yes), now)];
      var carriedOut := answered + [(Executing(id, false, true, true, Executed), now)];
      var heard := "tts" in channels && now < question.expiresAt;
      && (heard ==> After(answered).events == map[id := AfterDelivery(question, channels, at).In(Acknowledged, now)])
      && (!heard ==> After(answered) == After(delivered))
      && After(carriedOut).executions[id] == (if heard && yes then 1 else 0)
  {
    var id, event := question.id, AfterDelivery(question, channels, at);
    var delivered := Asking(question, lifetime) + [(Delivered(id, channels), at)];
    var answered := delivered + [(Replying(yes), now)];
    QuestionIsDelivered(question, lifetime);
    AfterNext(Asking(question, lifetime), Delivered(id, channels), at);
    DeliveryEnds(question, channels, at);
    AfterNext(delivered, Replying(yes), now);
    AloneAnswered(event, yes, now);
    AfterNext(answered, Executing(id, false, true, true, Executed), now);
    AloneExecuted(event, event.In(Acknowledged, now), now);
  }

  /** What becomes of an attempt decides whether the delivered event still asks: exactly if it did before, or was not carried out. */
  lemma AttemptDecidesQuestion(event: Event, allowed: bool, executed: bool, channels: seq<string>, device: Option<string>,
                               now: Stamp, later: Stamp)
    requires event.state == Active && event.proposedAction.Some? && ExpectedDevice(event, device) && later < event.expiresAt
    ensures MayClaim(map[event.id := AfterDelivery(AfterAttempt(event, allowed, executed), channels, now)], event.id, device, Confirm, later)
            <==> event.mode.Ask? || (event.mode.Auto? && !(allowed && executed))
  {
  }

  /** A run from the start: an automatic event is carried out before it is delivered exactly if that is allowed and works. */
  lemma AutomaticRuns(event: Event, lifetime: nat, allowed: bool, executed: bool)
    requires event.mode.Auto? && event.state.Active? && event.proposedAction.Some? && event.deliveredChannels == []
    requires event.expiresAt == event.updatedAt + lifetime
    ensures
      var steps := [(Signalling(event.id, event.dedupeKey, Auto, event.proposedAction, event.notificationDevices, lifetime, 0),
                     event.updatedAt)] + [(Continuing(event.id, true, allowed, executed), event.updatedAt)];
      After(steps).executions[event.id] == if allowed && executed then 1 else 0
  {
    var signal := Signalling(event.id, event.dedupeKey, Auto, event.proposedAction, event.notificationDevices, lifetime, 0);
    AfterNext([], signal, event.updatedAt);
    assert [] + [(signal, event.updatedAt)] == [(signal, event.updatedAt)];
    AfterNext([(signal, event.updatedAt)], Continuing(event.id, true, allowed, executed), event.updatedAt);
    assert After([(signal, event.updatedAt)]) == Signalled(Nothing(), event);
  }

  // ----- why haste is counted ---------------------------------------------------------------

  /**
   A delivery ends with its own copy of the event. Whatever was stored
   meanwhile, exactly a copy that still asks can be claimed again.
   */
  lemma DeliveryReopens(events: Events, copy: Event, channels: seq<string>, device: Option<string>, now: Stamp, later: Stamp)
    ensures
      MayClaim(events[copy.id := AfterDelivery(copy, channels, now)], copy.id, device, Confirm, later) <==>
        && copy.state != Resolved && copy.mode.Ask? && copy.proposedAction.Some?
        && ExpectedDevice(copy, device) && later < copy.expiresAt
  {
  }

  /** A question is being delivered, and nothing else is going on. */
  function BeingDelivered(question: Event): World {
    Nothing().(events := map[question.id := question], deliveries := map[question.id := Delivering(question)])
  }

  /** A question as it is signalled. */
  predicate Asks(question: Event, lifetime: nat) {
    && question.mode.Ask? && question.state.Active? && question.proposedAction.Some? && question.deliveredChannels == []
    && question.expiresAt == question.updatedAt + lifetime
  }

  /** The steps that lead to its delivery. */
  function Asking(question: Event, lifetime: nat): seq<(Step, Stamp)> {
    [(Signalling(question.id, question.dedupeKey, Ask, question.proposedAction, question.notificationDevices, lifetime, 0),
      question.updatedAt),
     (Continuing(question.id, true, false, false), question.updatedAt)]
  }

  lemma QuestionIsDelivered(question: Event, lifetime: nat)
    requires Asks(question, lifetime)
    ensures After(Asking(question, lifetime)) == BeingDelivered(question)
  {
    var steps := Asking(question, lifetime);
    AfterNext([], steps[0].0, steps[0].1);
    assert [] + [steps[0]] == [steps[0]] && [steps[0]] + [steps[1]] == steps;
    var created := Nothing().(events := map[question.id := question], deliveries := map[question.id := Created(question)]);
    assert After([steps[0]]) == created;
    AfterNext([steps[0]], steps[1].0, steps[1].1);
    assert At(created.early, question.id) == None && At(created.late, question.id) == None;
    assert Next(created, steps[1].0, steps[1].1) == BeingDelivered(question);
  }

  /** Pressed during the delivery, the question is carried out and stored as resolved. */
  lemma HasteResolves(question: Event, device: Option<string>, now: Stamp)
    requires question.mode.Ask? && question.state.Active? && question.proposedAction.Some?
    requires ExpectedDevice(question, device) && now < question.expiresAt
    ensures
      var id, w := question.id, BeingDelivered(question);
      var resolved := Next(Next(Next(w, Pressing(id, device, Confirm, false), now), Executing(id, true, true, true, Executed), now),
                           Storing(id, true), now);
      && resolved.events == map[id := question.In(Resolved, now)] && resolved.deliveries == w.deliveries
      && resolved.early == map[] && resolved.late == map[] && resolved.executions[id] == 1 && resolved.hurried == {id}
  {
    var id, w, taken := question.id, BeingDelivered(question), question.In(Acknowledged, now);
    var pressed := Next(w, Pressing(id, device, Confirm, false), now);
    assert pressed == w.Taken(taken) && pressed.early == map[id := Claimed(taken)] && pressed.events == map[id := taken];
    assert pressed.deliveries == w.deliveries && pressed.late == map[] && pressed.executions[id] == 0;
    var called := Next(pressed, Executing(id, true, true, true, Executed), now);
    assert called.early == map[id := Called(taken, Executed)] && called.events == map[id := taken] && called.executions[id] == 1;
    assert called.deliveries == w.deliveries && called.late == map[];
    var resolved := Next(called, Storing(id, true), now);
    assert resolved.events == map[id := question.In(Resolved, now)];
  }

  /** The delivery brings the question back. */
  lemma QuestionComesBack(w: World, question: Event, channels: seq<string>, now: Stamp)
    requires w.deliveries == map[question.id := Delivering(question)] && w.early == map[] && w.late == map[]
    requires question.state.Active? && question.id in w.events && !w.events[question.id].Live()
    ensures
      var id := question.id;
      var open := Next(w, Delivered(id, channels), now);
      && open.events == w.events[id := AfterDelivery(question, channels, now)] && open.deliveries == map[] && open.late == map[]
      && open.executions[id] == w.executions[id] && open.hurried == w.hurried && id in open.reopened
  {
    assert Next(w, Delivered(question.id, channels), now) == w.Delivered(AfterDelivery(question, channels, now), None, 0);
  }

  /** Another press carries it out again. */
  lemma ReopenedRunsAgain(open: World, id: EventId, device: Option<string>, now: Stamp)
    requires MayClaim(open.events, id, device, Confirm, now) && open.events[id].id == id
    requires open.deliveries == map[] && open.late == map[]
    ensures
      var again := Next(Next(open, Pressing(id, device, Confirm, false), now), Executing(id, false, true, true, Executed), now);
      again.executions[id] == open.executions[id] + 1 && again.hurried == open.hurried
  {
    var taken := open.events[id].In(Acknowledged, now);
    var pressed := Next(open, Pressing(id, device, Confirm, false), now);
    assert pressed == open.Taken(taken) && pressed.late == map[id := Claimed(taken)] && pressed.events[id] == taken;
    assert pressed.executions[id] == open.executions[id];
    var again := Next(pressed, Executing(id, false, true, true, Executed), now);
    assert again == pressed.Claiming(pressed.events[id], false, Some(Called(taken, Executed)), 1);
  }

  /** Pressed once during its delivery and once after it, a question is carried out twice. */
  lemma PressDuringDeliveryRunsTwice(question: Event, lifetime: nat, device: Option<string>, channels: seq<string>,
                                     now: Stamp, later: Stamp)
    requires Asks(question, lifetime) && ExpectedDevice(question, device) && now <= later < question.expiresAt
    ensures
      var id, pressing := question.id, Pressing(question.id, device, Confirm, false);
      var steps := Asking(question, lifetime)
                   + [(pressing, now)] + [(Executing(id, true, true, true, Executed), now)] + [(Storing(id, true), now)]
                   + [(Delivered(id, channels), later)] + [(pressing, later)] + [(Executing(id, false, true, true, Executed), later)];
      After(steps).executions[id] == 2 && id in After(steps).hurried
  {
    var id, pressing := question.id, Pressing(question.id, device, Confirm, false);
    var s0 := Asking(question, lifetime);
    var s1 := s0 + [(pressing, now)];
    var s2 := s1 + [(Executing(id, true, true, true, Executed), now)];
    var s3 := s2 + [(Storing(id, true), now)];
    var s4 := s3 + [(Delivered(id, channels), later)];
    var s5 := s4 + [(pressing, later)];
    QuestionIsDelivered(question, lifetime);
    AfterNext(s0, pressing, now);
    AfterNext(s1, Executing(id, true, true, true, Executed), now);
    AfterNext(s2, Storing(id, true), now);
    AfterNext(s3, Delivered(id, channels), later);
    AfterNext(s4, pressing, later);
    AfterNext(s5, Executing(id, false, true, true, Executed), later);
    HasteResolves(question, device, now);
    QuestionComesBack(After(s3), question, channels, later);
    DeliveryReopens(map[], question, channels, device, later, later);
    ReopenedRunsAgain(After(s4), id, device, later);
  }

  /** The world in which the question was ignored and a newer event of its key signalled. */
  lemma NewerEventAppears(question: Event, newer: Event, device: Option<string>, lifetime: nat, now: Stamp)
    requires question.mode.Ask? && question.state.Active? && ExpectedDevice(question, device) && now < question.expiresAt
    requires newer == Event(newer.id, question.dedupeKey, Inform, Active, now, now + lifetime, None, [], []) && newer.id != question.id
    ensures
      var ignored := Next(BeingDelivered(question), Pressing(question.id, device, Ignore, false), now);
      var signalled := Next(ignored, Signalling(newer.id, newer.dedupeKey, Inform, None, [], lifetime, 0), now);
      && signalled.events == map[question.id := question.In(Acknowledged, now), newer.id := newer]
      && question.id in signalled.deliveries && signalled.deliveries[question.id] == Delivering(question)
  {
    var ignored := Next(BeingDelivered(question), Pressing(question.id, device, Ignore, false), now);
    assert ignored.events == map[question.id := question.In(Acknowledged, now)];
    assert Next(ignored, Signalling(newer.id, newer.dedupeKey, Inform, None, [], lifetime, 0), now) == Signalled(ignored, newer);
  }

  /** Ignored during its delivery, a question stands beside a newer one of the same key afterwards. */
  lemma IgnoredDuringDeliveryRivals(question: Event, lifetime: nat, newer: Event, device: Option<string>, channels: seq<string>,
                                    now: Stamp)
    requires Asks(question, lifetime) && ExpectedDevice(question, device) && now < question.expiresAt
    requires newer == Event(newer.id, question.dedupeKey, Inform, Active, now, now + lifetime, None, [], []) && newer.id != question.id
    ensures
      var id := question.id;
      var steps := Asking(question, lifetime) + [(Pressing(id, device, Ignore, false), now)]
                   + [(Signalling(newer.id, newer.dedupeKey, Inform, None, [], lifetime, 0), now)] + [(Delivered(id, channels), now)];
      Rivals(After(steps).events, id, newer.id) && id in After(steps).reopened
  {
    var id := question.id;
    var s0 := Asking(question, lifetime);
    var s1 := s0 + [(Pressing(id, device, Ignore, false), now)];
    var s2 := s1 + [(Signalling(newer.id, newer.dedupeKey, Inform, None, [], lifetime, 0), now)];
    QuestionIsDelivered(question, lifetime);
    AfterNext(s0, Pressing(id, device, Ignore, false), now);
    AfterNext(s1, Signalling(newer.id, newer.dedupeKey, Inform, None, [], lifetime, 0), now);
    AfterNext(s2, Delivered(id, channels), now);
    NewerEventAppears(question, newer, device, lifetime, now);
    QuestionRivals(After(s2), question, newer, channels, now);
  }

  lemma QuestionRivals(w: World, question: Event, newer: Event, channels: seq<string>, now: Stamp)
    requires question.state.Active? && newer.Live() && newer.dedupeKey == question.dedupeKey && newer.id != question.id
    requires w.events == map[question.id := question.In(Acknowledged, now), newer.id := newer]
    requires question.id in w.deliveries && w.deliveries[question.id] == Delivering(question)
    ensures
      var back := Next(w, Delivered(question.id, channels), now);
      Rivals(back.events, question.id, newer.id) && question.id in back.reopened
  {
  }
}
