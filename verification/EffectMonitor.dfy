/**
 Timers that watch for the effect of a service call, racing observations,
 replacements and shutdown.
 */
module EffectMonitor {
  import opened Common

  type EffectId = nat
  type Stamp = int

  /** All times are in milliseconds. */
  const SHORTEST_TIMEOUT := 100

  datatype Effect = Effect(id: EffectId, entityId: string, expectedState: string, registeredAt: Stamp, deadline: Stamp)

  /** What became of an effect. */
  datatype Fate = Pending | Observed | Replaced | Expired | Closed

  datatype Task = Task(effect: Effect)

  type PendingEffects = map<EffectId, Effect>

  function ExpectedState(service: string): Option<string> {
    match service
    case "turn_on" => Some("on")
    case "turn_off" => Some("off")
    case "open_cover" => Some("open")
    case "open_valve" => Some("open")
    case "close_cover" => Some("closed")
    case "close_valve" => Some("closed")
    case "lock" => Some("locked")
    case "unlock" => Some("unlocked")
    case "alarm_disarm" => Some("disarmed")
    case _ => None
  }

  datatype Setup = Setup(timeout: nat, limit: nat, normalize: string -> string)

  /** The limit is at least the usual timeout. */
  function Configured(timeout: nat, absoluteMaxTimeout: nat, normalize: string -> string): Setup {
    Setup(timeout, if timeout >= absoluteMaxTimeout then timeout else absoluteMaxTimeout, normalize)
  }

  function EffectiveTimeout(timeout: nat, limit: nat, advised: Option<int>): (t: nat)
    ensures timeout <= limit ==> t <= limit
  {
    match advised
    case None => timeout
    case Some(advice) =>
      var longer := if advice >= SHORTEST_TIMEOUT then advice else SHORTEST_TIMEOUT;
      if longer <= limit then longer else limit
  }

  /** An advised time is kept between the shortest and the limit. */
  lemma AdviceIsClamped(timeout: nat, limit: nat, advised: Option<int>)
    ensures
      var t := EffectiveTimeout(timeout, limit, advised);
      match advised
      case None => t == timeout
      case Some(advice) => t <= limit && (t < advice ==> t == limit) && (t > advice ==> t == if limit < 100 then limit else 100)
  {
  }

  /** The services that are watched, and what each is expected to lead to. */
  lemma WatchedExactly(service: string, state: string)
    ensures ExpectedState(service) == Some(state) <==>
              || (state == "on" && service == "turn_on") || (state == "off" && service == "turn_off")
              || (state == "open" && service in {"open_cover", "open_valve"})
              || (state == "closed" && service in {"close_cover", "close_valve"})
              || (state == "locked" && service == "lock") || (state == "unlocked" && service == "unlock")
              || (state == "disarmed" && service == "alarm_disarm")
  {
  }

  /** `latest` names the newest effect of each entity, and nothing older is pending. */
  predicate OnlyLatest(pending: PendingEffects, latest: map<string, EffectId>) {
    forall id :: id in pending ==> pending[id].entityId in latest && latest[pending[id].entityId] == id
  }

  /** So no entity has two pending effects. */
  lemma OnePerEntity(pending: PendingEffects, latest: map<string, EffectId>, i: EffectId, j: EffectId)
    requires OnlyLatest(pending, latest)
    requires i in pending && j in pending && pending[i].entityId == pending[j].entityId
    ensures i == j
  {
    assert latest[pending[i].entityId] == i;
  }

  /** Exactly the effects without an end are pending. */
  ghost predicate Accounted(pending: PendingEffects, registered: seq<Effect>, fates: seq<Fate>) {
    && |fates| == |registered|
    && (forall id: nat :: id in pending <==> id < |fates| && fates[id] == Pending)
    && (forall id :: id in pending ==> id < |registered| && pending[id] == registered[id])
  }

  /** Effects are numbered as registered and wait no longer than the limit. */
  predicate Timely(registered: seq<Effect>, limit: nat) {
    forall id :: 0 <= id < |registered| ==>
      registered[id].id == id && registered[id].registeredAt <= registered[id].deadline <= registered[id].registeredAt + limit
  }

  /** Only expired effects were reported, each of them once. */
  predicate Reported(reports: seq<Effect>, registered: seq<Effect>, fates: seq<Fate>)
    requires |fates| == |registered|
  {
    && (forall k :: 0 <= k < |reports| ==>
          reports[k].id < |registered| && registered[reports[k].id] == reports[k] && fates[reports[k].id] == Expired)
    && (forall i, j :: 0 <= i < j < |reports| ==> reports[i].id != reports[j].id)
  }

  /** An effect that has ended keeps its end. */
  predicate Final(before: seq<Fate>, after: seq<Fate>) {
    |before| <= |after| && forall id :: 0 <= id < |before| && before[id] != Pending ==> after[id] == before[id]
  }

  /** The pending effects of an entity are replaced. */
  function Superseded(fates: seq<Fate>, registered: seq<Effect>, entityId: string): (r: seq<Fate>)
    requires |fates| == |registered|
    ensures |r| == |fates|
  {
    seq(|fates|, id requires 0 <= id < |fates| =>
      if fates[id] == Pending && registered[id].entityId == entityId then Replaced else fates[id])
  }

  /** What registering effects for these entities makes of the fates; a repeated entity keeps its last effect. */
  function AfterRegistering(fates: seq<Fate>, registered: seq<Effect>, entityIds: seq<string>): (r: seq<Fate>)
    requires |fates| == |registered|
    ensures |r| == |fates| + |entityIds|
  {
    seq(|fates|, id requires 0 <= id < |fates| =>
      if fates[id] == Pending && registered[id].entityId in entityIds then Replaced else fates[id])
    + seq(|entityIds|, k requires 0 <= k < |entityIds| => if entityIds[k] in entityIds[k + 1..] then Replaced else Pending)
  }

  function EffectsOf(registered: seq<Effect>, entityIds: seq<string>, expected: string, now: Stamp, wait: nat): (r: seq<Effect>)
    ensures |r| == |entityIds|
  {
    seq(|entityIds|, k requires 0 <= k < |entityIds| => Effect(|registered| + k, entityIds[k], expected, now, now + wait))
  }

  lemma NextEffect(registered: seq<Effect>, entityIds: seq<string>, next: string, expected: string, now: Stamp, wait: nat)
    ensures EffectsOf(registered, entityIds + [next], expected, now, wait)
            == EffectsOf(registered, entityIds, expected, now, wait)
               + [Effect(|registered| + |entityIds|, next, expected, now, now + wait)]
  {
  }

  lemma NextRegistration(fates: seq<Fate>, registered: seq<Effect>, effects: seq<Effect>, entityIds: seq<string>, next: string)
    requires |fates| == |registered| && |effects| == |entityIds|
    requires forall k :: 0 <= k < |effects| ==> effects[k].entityId == entityIds[k]
    ensures Superseded(AfterRegistering(fates, registered, entityIds), registered + effects, next) + [Pending]
            == AfterRegistering(fates, registered, entityIds + [next])
  {
    forall k | 0 <= k < |entityIds|
      ensures entityIds[k] in (entityIds + [next])[k + 1..] <==> entityIds[k] in entityIds[k + 1..] || entityIds[k] == next
    {
      assert (entityIds + [next])[k + 1..] == entityIds[k + 1..] + [next];
    }
  }

  predicate Expects(effect: Effect, entityId: string, state: string, normalize: string -> string) {
    effect.entityId == entityId && normalize(effect.expectedState) == normalize(state)
  }

  function AfterObserving(fates: seq<Fate>, registered: seq<Effect>, entityId: string, state: string,
                          normalize: string -> string): (r: seq<Fate>)
    requires |fates| == |registered|
    ensures |r| == |fates|
  {
    seq(|fates|, id requires 0 <= id < |fates| =>
      if fates[id] == Pending && Expects(registered[id], entityId, state, normalize) then Observed else fates[id])
  }

  function AfterClosing(fates: seq<Fate>): (r: seq<Fate>)
    ensures |r| == |fates|
  {
    seq(|fates|, id requires 0 <= id < |fates| => if fates[id] == Pending then Closed else fates[id])
  }

  /** The pending effects an observation is the end of. */
  function Awaiting(pending: PendingEffects, entityId: string, state: string, normalize: string -> string): set<EffectId> {
    set id | id in pending && Expects(pending[id], entityId, state, normalize)
  }

  /** Exactly these effects were marked as observed. */
  predicate Marks(before: seq<Fate>, after: seq<Fate>, marked: set<EffectId>) {
    |after| == |before| && forall id :: 0 <= id < |before| ==> after[id] == if id in marked then Observed else before[id]
  }

  lemma AllObserved(pending: PendingEffects, registered: seq<Effect>, before: seq<Fate>, after: seq<Fate>, open: set<EffectId>,
                    entityId: string, state: string, normalize: string -> string)
    requires Accounted(pending, registered, before) && Marks(before, after, open)
    requires open == Awaiting(pending, entityId, state, normalize)
    ensures after == AfterObserving(before, registered, entityId, state, normalize)
    ensures open == {} <==> after == before
    ensures Final(before, after)
  {
    if open != {} {
      var id :| id in open;
      assert after[id] != before[id];
    }
  }

  lemma NextIsAccounted(pending: PendingEffects, latest: map<string, EffectId>, registered: seq<Effect>, fates: seq<Fate>, effect: Effect)
    requires Accounted(pending, registered, fates) && OnlyLatest(pending, latest) && effect.id == |registered|
    requires forall id :: id in pending ==> pending[id].entityId != effect.entityId
    ensures Accounted(pending[effect.id := effect], registered + [effect], fates + [Pending])
    ensures OnlyLatest(pending[effect.id := effect], latest[effect.entityId := effect.id])
  {
  }

  class EffectMonitor {
    const timeout: nat
    const absoluteMaxTimeout: nat
    const normalize: string -> string

    var pending: PendingEffects
    var tasks: map<EffectId, Task>
    var handled: bool
    // Every effect ever registered, under its identifier.
    var registered: seq<Effect>
    // The calls made to the expiry handler.
    var reports: seq<Effect>
    // What became of the effects so far.
    ghost var fates: seq<Fate>
    // The newest effect of each entity.
    ghost var latest: map<string, EffectId>

    /** At every moment between two atomic steps. */
    ghost predicate Valid()
      reads this
    {
      && timeout <= absoluteMaxTimeout
      && tasks.Keys == pending.Keys
      && OnlyLatest(pending, latest)
      && Accounted(pending, registered, fates)
      && Timely(registered, absoluteMaxTimeout)
      && Reported(reports, registered, fates)
    }

    ghost function Now(): Ledger
      reads this
    {
      Ledger(registered, fates, reports)
    }

    function Configuration(): Setup {
      Setup(timeout, absoluteMaxTimeout, normalize)
    }

    /** Ends are final, and neither registrations nor reports are taken back. */
    twostate predicate Onward()
      reads this
    {
      Final(old(fates), fates) && old(registered) <= registered && old(reports) <= reports
    }

    constructor (timeout: nat, absoluteMaxTimeout: nat, normalize: string -> string)
      ensures Valid() && registered == [] && reports == []
      ensures Configuration() == Configured(timeout, absoluteMaxTimeout, normalize)
    {
      this.timeout := timeout;
      this.absoluteMaxTimeout := if timeout >= absoluteMaxTimeout then timeout else absoluteMaxTimeout;
      this.normalize := normalize;
      pending, tasks, handled, registered, reports := map[], map[], false, [], [];
      fates, latest := [], map[];
    }

    method SetExpiredHandler(installed: bool)
      requires Valid()
      modifies `handled
      ensures Valid() && handled == installed
    {
      handled := installed;
    }

    /** Drops one pending effect and cancels its timer. */
    method Discard(id: EffectId, ghost fate: Fate)
      requires id in pending && id < |fates|
      modifies `pending, `tasks, `fates
      ensures pending == old(pending) - {id} && tasks == old(tasks) - {id} && fates == old(fates)[id := fate]
    {
      pending := pending - {id};
      tasks := tasks - {id};
      fates := fates[id := fate];
    }

    /** Drops the pending effect of an entity, if it has one. */
    method DiscardPrevious(entityId: string)
      requires Valid()
      modifies `pending, `tasks, `fates
      ensures Valid() && Final(old(fates), fates) && |fates| == |old(fates)|
      ensures forall id :: id in pending ==> pending[id].entityId != entityId
      ensures fates == Superseded(old(fates), registered, entityId)
    {
      if exists id :: id in pending && pending[id].entityId == entityId {
        var previous :| previous in pending && pending[previous].entityId == entityId;
        assert latest[entityId] == previous;
        Discard(previous, Replaced);
      }
    }

    /** Registers one effect in place of the pending one of the same entity, if any. */
    method RegisterOne(entityId: string, expected: string, now: Stamp, effectiveTimeout: nat) returns (effect: Effect)
      requires Valid() && effectiveTimeout <= absoluteMaxTimeout
      modifies `pending, `tasks, `fates, `latest, `registered
      ensures Valid() && Onward()
      ensures effect == Effect(|old(registered)|, entityId, expected, now, now + effectiveTimeout)
      ensures registered == old(registered) + [effect]
      ensures fates == Superseded(old(fates), old(registered), entityId) + [Pending]
    {
      effect := Effect(|registered|, entityId, expected, now, now + effectiveTimeout);
      DiscardPrevious(entityId);
      NextIsAccounted(pending, latest, registered, fates, effect);
      registered := registered + [effect];
      pending := pending[effect.id := effect];
      tasks := tasks[effect.id := Task(effect)];
      fates, latest := fates + [Pending], latest[entityId := effect.id];
    }

    /** Registers the effects of an accepted service call; a time without a zone is refused. */
    method Register(service: string, entityIds: seq<string>, now: Stamp, aware: bool, advised: Option<int>)
      returns (ok: bool, effects: seq<Effect>)
      requires Valid()
      modifies `pending, `tasks, `fates, `latest, `registered
      ensures Valid() && Onward() && ok == aware
      ensures
        if aware && ExpectedState(service).Some? then
          && effects == EffectsOf(old(registered), entityIds, ExpectedState(service).value, now,
                                  EffectiveTimeout(timeout, absoluteMaxTimeout, advised))
          && registered == old(registered) + effects
          && fates == AfterRegistering(old(fates), old(registered), entityIds)
        else effects == [] && registered == old(registered) && fates == old(fates)
    {
      ok, effects := aware, [];
      var expected := ExpectedState(service);
      if !aware || expected == None {
        return;
      }
      effects := RegisterEach(entityIds, expected.value, now, EffectiveTimeout(timeout, absoluteMaxTimeout, advised));
    }

    method RegisterEach(entityIds: seq<string>, expected: string, now: Stamp, wait: nat) returns (effects: seq<Effect>)
      requires Valid() && wait <= absoluteMaxTimeout
      modifies `pending, `tasks, `fates, `latest, `registered
      ensures Valid() && Onward()
      ensures effects == EffectsOf(old(registered), entityIds, expected, now, wait)
      ensures registered == old(registered) + effects
      ensures fates == AfterRegistering(old(fates), old(registered), entityIds)
    {
      effects := [];
      for i := 0 to |entityIds|
        invariant Valid() && Onward() && registered == old(registered) + effects
        invariant effects == EffectsOf(old(registered), entityIds[..i], expected, now, wait)
        invariant fates == AfterRegistering(old(fates), old(registered), entityIds[..i])
      {
        assert entityIds[..i + 1] == entityIds[..i] + [entityIds[i]];
        NextRegistration(old(fates), old(registered), effects, entityIds[..i], entityIds[i]);
        NextEffect(old(registered), entityIds[..i], entityIds[i], expected, now, wait);
        var effect := RegisterOne(entityIds[i], expected, now, wait);
        effects := effects + [effect];
      }
      assert entityIds[..|entityIds|] == entityIds;
    }

    /** Drops the effects that were observed, one by one. */
    method DiscardObserved(open: set<EffectId>)
      requires open <= pending.Keys && forall id :: id in open ==> id < |fates|
      modifies `pending, `tasks, `fates
      ensures pending == old(pending) - open && tasks == old(tasks) - open && Marks(old(fates), fates, open)
    {
      var rest := open;
      while rest != {}
        invariant rest <= open && Marks(old(fates), fates, open - rest)
        invariant pending == old(pending) - (open - rest) && tasks == old(tasks) - (open - rest)
      {
        var id :| id in rest;
        assert id in pending;
        rest := rest - {id};
        Discard(id, Observed);
      }
      assert open - rest == open;
    }

    /** An observed state ends the effect it was expected for. */
    method Observe(entityId: string, state: string) returns (matched: bool)
      requires Valid()
      modifies `pending, `tasks, `fates
      ensures Valid() && Onward()
      ensures fates == AfterObserving(old(fates), registered, entityId, state, normalize)
      ensures matched == (fates != old(fates))
    {
      var open := Awaiting(pending, entityId, state, normalize);
      matched := open != {};
      DiscardObserved(open);
      AllObserved(old(pending), registered, old(fates), fates, open, entityId, state, normalize);
    }

    /**
     A timer that wakes up. Its task may have been cancelled too late, or its
     effect dropped since: then it finds nothing pending and does nothing.
     */
    method ExpireAfter(effect: Effect)
      requires Valid() && effect in registered
      modifies `pending, `tasks, `fates, `reports
      ensures Valid() && Onward()
      ensures
        if old(fates)[effect.id] == Pending
        then fates == old(fates)[effect.id := Expired] && reports == (if handled then old(reports) + [effect] else old(reports))
        else fates == old(fates) && reports == old(reports)
    {
      if effect.id !in pending {
        return;
      }
      pending := pending - {effect.id};
      tasks := tasks - {effect.id};
      fates := fates[effect.id := Expired];
      if handled {
        reports := reports + [effect];
      }
    }

    method Close()
      requires Valid()
      modifies `pending, `tasks, `fates
      ensures Valid() && Onward() && pending == map[]
      ensures fates == AfterClosing(old(fates))
    {
      tasks := map[];
      pending := map[];
      fates := AfterClosing(fates);
    }
  }

  // ----- whole runs -----------------------------------------------------------------------

  /** One atomic step. A timer may fire whenever it likes, even after it was cancelled, even twice. */
  datatype Step =
    | Registering(service: string, entityIds: seq<string>, now: Stamp, aware: bool, advised: Option<int>)
    | Observing(entityId: string, state: string)
    | Firing(id: EffectId)
    | Closing

  /** What has been registered, what became of it, and what was reported. */
  datatype Ledger = Ledger(registered: seq<Effect>, fates: seq<Fate>, reports: seq<Effect>)

  /** What a step makes of the ledger, with a handler installed. */
  ghost function Stepped(setup: Setup, l: Ledger, step: Step): (r: Ledger)
    requires |l.fates| == |l.registered|
    ensures |r.fates| == |r.registered|
  {
    match step
    case Registering(service, entityIds, now, aware, advised) =>
      var expected := ExpectedState(service);
      if !aware || expected == None then l
      else
        var wait := EffectiveTimeout(setup.timeout, setup.limit, advised);
        l.(registered := l.registered + EffectsOf(l.registered, entityIds, expected.value, now, wait),
           fates := AfterRegistering(l.fates, l.registered, entityIds))
    case Observing(entityId, state) => l.(fates := AfterObserving(l.fates, l.registered, entityId, state, setup.normalize))
    case Firing(id) =>
      if id < |l.registered| && l.fates[id] == Pending
      then l.(fates := l.fates[id := Expired], reports := l.reports + [l.registered[id]])
      else l
    case Closing => l.(fates := AfterClosing(l.fates))
  }

  ghost function After(setup: Setup, steps: seq<Step>): (r: Ledger)
    ensures |r.fates| == |r.registered|
  {
    if steps == [] then Ledger([], [], [])
    else Stepped(setup, After(setup, steps[..|steps| - 1]), steps[|steps| - 1])
  }

  /** Every expired effect was reported. */
  predicate AllReported(reports: seq<Effect>, registered: seq<Effect>, fates: seq<Fate>)
    requires |fates| == |registered|
  {
    forall id :: 0 <= id < |fates| && fates[id] == Expired ==> registered[id] in reports
  }

  method Perform(m: EffectMonitor, step: Step)
    requires m.Valid() && m.handled && AllReported(m.reports, m.registered, m.fates)
    modifies m
    ensures m.Valid() && m.Onward() && m.handled && AllReported(m.reports, m.registered, m.fates)
    ensures m.Now() == Stepped(m.Configuration(), old(m.Now()), step)
  {
    match step
    case Registering(service, entityIds, now, aware, advised) => var _, _ := m.Register(service, entityIds, now, aware, advised);
    case Observing(entityId, state) => var _ := m.Observe(entityId, state);
    case Firing(id) =>
      if id < |m.registered| {
        m.ExpireAfter(m.registered[id]);
      }
    case Closing => m.Close();
  }

  /**
   A run from the start: a watched call, a state that is observed, and the
   timer. The effect ends as observed exactly if it is the expected state of the
   called entity; otherwise the timer ends it, and reports it.
   */
  lemma ObservedOrExpired(setup: Setup, service: string, entityId: string, now: Stamp, advised: Option<int>, observed: string, state: string)
    requires ExpectedState(service).Some?
    ensures
      var expected := ExpectedState(service).value;
      var effect := Effect(0, entityId, expected, now, now + EffectiveTimeout(setup.timeout, setup.limit, advised));
      var matched := observed == entityId && setup.normalize(state) == setup.normalize(expected);
      After(setup, [Registering(service, [entityId], now, true, advised), Observing(observed, state), Firing(0)])
        == Ledger([effect], [if matched then Observed else Expired], if matched then [] else [effect])
  {
    var registering, observing := Registering(service, [entityId], now, true, advised), Observing(observed, state);
    var steps := [registering, observing, Firing(0)];
    assert steps[..2] == [registering, observing] && [registering, observing][..1] == [registering];
    assert [registering][..0] == [];
    var effect := Effect(0, entityId, ExpectedState(service).value, now, now + EffectiveTimeout(setup.timeout, setup.limit, advised));
    assert After(setup, [registering]) == Ledger([effect], [Pending], []);
    var matched := Expects(effect, observed, state, setup.normalize);
    assert After(setup, [registering, observing]) == Ledger([effect], [if matched then Observed else Pending], []);
  }

  lemma StepKeepsEnds(setup: Setup, l: Ledger, step: Step)
    requires |l.fates| == |l.registered|
    ensures Final(l.fates, Stepped(setup, l, step).fates)
    ensures step.Closing? ==> forall id :: 0 <= id < |l.fates| ==> Stepped(setup, l, step).fates[id] != Pending
  {
  }

  /** An effect ends at most once, and its end never changes. */
  lemma {:induction false} EndsAreFinal(setup: Setup, steps: seq<Step>, i: nat)
    requires i <= |steps|
    ensures Final(After(setup, steps[..i]).fates, After(setup, steps).fates)
    decreases |steps|
  {
    if i == |steps| {
      assert steps[..i] == steps;
    } else {
      var n := |steps| - 1;
      assert steps[..n][..i] == steps[..i];
      EndsAreFinal(setup, steps[..n], i);
      StepKeepsEnds(setup, After(setup, steps[..n]), steps[n]);
    }
  }

  /**
   Any interleaving of registrations, observations, timers and shutdowns: an
   effect ends at most once and its end never changes. The handler runs once
   for each effect that expired and never for one that was observed, replaced
   or closed.
   */
  method RunMonitor(timeout: nat, absoluteMaxTimeout: nat, normalize: string -> string, steps: seq<Step>)
    returns (m: EffectMonitor)
    ensures fresh(m) && m.Valid()
    ensures
      var setup := Configured(timeout, absoluteMaxTimeout, normalize);
      && m.Now() == After(setup, steps)
      && forall i :: 0 <= i <= |steps| ==> Final(After(setup, steps[..i]).fates, m.fates)
    ensures forall e :: e in m.reports <==> e in m.registered && m.fates[e.id] == Expired
    ensures forall i, j :: 0 <= i < j < |m.reports| ==> m.reports[i] != m.reports[j]
    ensures steps != [] && steps[|steps| - 1].Closing? ==> forall id :: 0 <= id < |m.fates| ==> m.fates[id] != Pending
  {
    ghost var setup := Configured(timeout, absoluteMaxTimeout, normalize);
    m := Run(timeout, absoluteMaxTimeout, normalize, steps);
    forall i | 0 <= i <= |steps|
      ensures Final(After(setup, steps[..i]).fates, m.fates)
    {
      EndsAreFinal(setup, steps, i);
    }
    if steps != [] {
      StepKeepsEnds(setup, After(setup, steps[..|steps| - 1]), steps[|steps| - 1]);
    }
  }

  method Run(timeout: nat, absoluteMaxTimeout: nat, normalize: string -> string, steps: seq<Step>)
    returns (m: EffectMonitor)
    ensures fresh(m) && m.Valid() && AllReported(m.reports, m.registered, m.fates)
    ensures m.Now() == After(Configured(timeout, absoluteMaxTimeout, normalize), steps)
  {
    m := new EffectMonitor(timeout, absoluteMaxTimeout, normalize);
    m.SetExpiredHandler(true);
    for i := 0 to |steps|
      invariant fresh(m) && m.Valid() && m.handled && AllReported(m.reports, m.registered, m.fates)
      invariant m.Configuration() == Configured(timeout, absoluteMaxTimeout, normalize)
      invariant m.Now() == After(m.Configuration(), steps[..i])
    {
      assert steps[..i + 1][..i] == steps[..i];
      Perform(m, steps[i]);
    }
    assert steps[..|steps|] == steps;
  }
}
