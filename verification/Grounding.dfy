/**
 Which devices an event is about: finding the candidates of a spoken subject,
 and compressing them into a target that a later resolution turns back into
 exactly these devices.
 */
module Grounding {
  import opened Common
  import opened Sorting

  /** A snapshot of one entity; `names` are its normalised name and aliases. */
  datatype Entity = Entity(
    id: string,
    domain: string,
    deviceClass: Option<string>,
    areaId: Option<string>,
    names: seq<string>,
    unit: Option<string>)

  datatype Constraints = Constraints(domain: Option<string>, deviceClass: Option<string>, areaId: Option<string>)

  datatype Target = Target(
    domain: Option<string>,
    deviceClass: Option<string>,
    areaId: Option<string>,
    entityId: Option<string>,
    entityIds: seq<string>)
  {
    /** The target names no device; it describes a class. */
    predicate ClassLevel() {
      entityId == None && entityIds == []
    }
  }

  predicate DistinctIds(entities: seq<Entity>) {
    forall e, f :: e in entities && f in entities && e.id == f.id ==> e == f
  }

  function IdsOf(entities: set<Entity>): set<string> {
    set e | e in entities :: e.id
  }

  function Elements(entities: seq<Entity>): set<Entity> {
    set e | e in entities
  }

  predicate Satisfies(e: Entity, c: Constraints) {
    && (c.domain.Some? ==> e.domain == c.domain.value)
    && (c.areaId.Some? ==> e.areaId == c.areaId)
    && (c.deviceClass.Some? ==> e.deviceClass == c.deviceClass)
  }

  /** Every entity that satisfies all constraints. */
  function Candidates(entities: seq<Entity>, c: Constraints): set<Entity> {
    set e | e in entities && Satisfies(e, c)
  }

  /** What a target stands for when it is resolved again. */
  function Denoted(t: Target, entities: seq<Entity>): set<Entity> {
    if t.entityId.Some? then set e | e in entities && e.id == t.entityId.value
    else if t.entityIds != [] then set e | e in entities && e.id in t.entityIds
    else Candidates(entities, Constraints(t.domain, t.deviceClass, t.areaId))
  }

  // ----- compression --------------------------------------------------------------------

  function DomainOf(e: Entity): string { e.domain }

  function DeviceClassOf(e: Entity): Option<string> { e.deviceClass }

  function AreaOf(e: Entity): Option<string> { e.areaId }

  /** The one value all entities have in common. */
  function Shared<T(==)>(entities: seq<Entity>, attribute: Entity -> T): Option<T> {
    if entities != [] && forall e :: e in entities ==> attribute(e) == attribute(entities[0])
    then Some(attribute(entities[0])) else None
  }

  /** A shared value that is absent constrains nothing. */
  function Flat(shared: Option<Option<string>>): Option<string> {
    match shared
    case Some(value) => value
    case None => None
  }

  /** The class-level descriptions, in the order they are tried. */
  function Descriptions(domain: string, candidates: seq<Entity>, areaSpoken: bool): seq<Constraints> {
    var deviceClass, area := Flat(Shared(candidates, DeviceClassOf)), Flat(Shared(candidates, AreaOf));
    var first, second := if areaSpoken then area else None, if areaSpoken then None else area;
    [Constraints(Some(domain), deviceClass, first), Constraints(Some(domain), deviceClass, second),
     Constraints(Some(domain), None, first), Constraints(Some(domain), None, second)]
  }

  function FirstFitting(descriptions: seq<Constraints>, entities: seq<Entity>, wanted: set<string>): (c: Option<Constraints>)
    ensures c.Some? ==> c.value in descriptions && IdsOf(Candidates(entities, c.value)) == wanted
    ensures c == None ==> forall d :: d in descriptions ==> IdsOf(Candidates(entities, d)) != wanted
  {
    if descriptions == [] then None
    else if IdsOf(Candidates(entities, descriptions[0])) == wanted then Some(descriptions[0])
    else FirstFitting(descriptions[1..], entities, wanted)
  }

  /** No earlier description fits. */
  lemma {:induction false} FittingComesFirst(descriptions: seq<Constraints>, entities: seq<Entity>, wanted: set<string>)
    returns (k: nat)
    requires FirstFitting(descriptions, entities, wanted).Some?
    ensures k < |descriptions| && FirstFitting(descriptions, entities, wanted) == Some(descriptions[k])
    ensures IdsOf(Candidates(entities, descriptions[k])) == wanted
    ensures forall j :: 0 <= j < k ==> IdsOf(Candidates(entities, descriptions[j])) != wanted
  {
    if IdsOf(Candidates(entities, descriptions[0])) == wanted {
      return 0;
    } else {
      k := FittingComesFirst(descriptions[1..], entities, wanted);
      k := k + 1;
    }
  }

  /** The narrowest target that still stands for exactly these candidates. */
  function TargetFor(candidates: seq<Entity>, entities: seq<Entity>, areaSpoken: bool): Target {
    var wanted, domain := IdsOf(Elements(candidates)), Shared(candidates, DomainOf);
    var fitting :=
      match domain
      case Some(d) => FirstFitting(Descriptions(d, candidates, areaSpoken), entities, wanted)
      case None => None;
    match fitting
    case Some(c) => Target(c.domain, c.deviceClass, c.areaId, None, [])
    case None =>
      if |candidates| == 1 then
        var e := candidates[0];
        Target(Some(e.domain), e.deviceClass, e.areaId, Some(e.id), [])
      else Target(domain, None, None, None, Sorted(wanted))
  }

  /** The ids of known entities determine them. */
  lemma SameIdsSameEntities(some: set<Entity>, others: set<Entity>, entities: seq<Entity>)
    requires DistinctIds(entities) && some <= Elements(entities) && others <= Elements(entities)
    requires IdsOf(some) == IdsOf(others)
    ensures some == others
  {
    forall e | e in some + others
      ensures e in some && e in others
    {
      assert e.id in IdsOf(some) && e.id in IdsOf(others);
    }
  }

  /** The meaning is preserved: resolving the target again yields exactly the candidates. */
  lemma TargetDenotesCandidates(candidates: seq<Entity>, entities: seq<Entity>, areaSpoken: bool)
    requires candidates != [] && DistinctIds(entities) && Elements(candidates) <= Elements(entities)
    ensures Denoted(TargetFor(candidates, entities, areaSpoken), entities) == Elements(candidates)
  {
    var t, wanted := TargetFor(candidates, entities, areaSpoken), IdsOf(Elements(candidates));
    var denoted := Denoted(t, entities);
    assert candidates[0] in Elements(candidates) && candidates[0].id in wanted;
    assert IdsOf(denoted) == wanted by {
      SortedLists(wanted);
      if !t.ClassLevel() {
        forall id | id in wanted
          ensures id in IdsOf(denoted)
        {
          var e :| e in Elements(candidates) && e.id == id;
          assert e in denoted;
        }
      }
    }
    SameIdsSameEntities(denoted, Elements(candidates), entities);
  }

  predicate SameMembers(entities: seq<Entity>, others: seq<Entity>) {
    (forall e :: e in entities ==> e in others) && (forall e :: e in others ==> e in entities)
  }

  lemma SharedByMembers<T>(entities: seq<Entity>, others: seq<Entity>, attribute: Entity -> T)
    requires SameMembers(entities, others)
    ensures Shared(entities, attribute) == Shared(others, attribute)
  {
    if entities != [] {
      assert entities[0] in others;
    }
    if others != [] {
      assert others[0] in entities;
    }
  }

  lemma {:induction false} SameFitting(descriptions: seq<Constraints>, entities: seq<Entity>, shuffled: seq<Entity>, wanted: set<string>)
    requires SameMembers(entities, shuffled)
    ensures FirstFitting(descriptions, entities, wanted) == FirstFitting(descriptions, shuffled, wanted)
  {
    if descriptions != [] {
      assert Candidates(entities, descriptions[0]) == Candidates(shuffled, descriptions[0]);
      SameFitting(descriptions[1..], entities, shuffled, wanted);
    }
  }

  /** Neither the order of the candidates nor that of the entities matters. */
  lemma OrderIsIrrelevant(candidates: seq<Entity>, others: seq<Entity>, entities: seq<Entity>, shuffled: seq<Entity>, areaSpoken: bool)
    requires |candidates| == |others| && SameMembers(candidates, others) && SameMembers(entities, shuffled)
    ensures TargetFor(candidates, entities, areaSpoken) == TargetFor(others, shuffled, areaSpoken)
  {
    SharedByMembers(candidates, others, DomainOf);
    SharedByMembers(candidates, others, DeviceClassOf);
    SharedByMembers(candidates, others, AreaOf);
    assert Elements(candidates) == Elements(others);
    var domain := Shared(candidates, DomainOf);
    if domain.Some? {
      SameFitting(Descriptions(domain.value, candidates, areaSpoken), entities, shuffled, IdsOf(Elements(candidates)));
    }
    if |candidates| == 1 {
      assert candidates[0] in others;
    }
  }

  /** A class-level description of some candidates constrains nothing they do not share. */
  lemma DescriptionIsTried(candidates: seq<Entity>, entities: seq<Entity>, areaSpoken: bool, c: Constraints)
    requires candidates != [] && c.domain.Some? && Candidates(entities, c) == Elements(candidates)
    ensures Shared(candidates, DomainOf) == c.domain
    ensures c in Descriptions(c.domain.value, candidates, areaSpoken)
  {
    assert forall e :: e in candidates ==> e in Candidates(entities, c);
    assert candidates[0] in candidates;
    assert c.deviceClass.Some? ==> Shared(candidates, DeviceClassOf) == Some(c.deviceClass);
    assert c.areaId.Some? ==> Shared(candidates, AreaOf) == Some(c.areaId);
  }

  /** Devices are only listed by name when no class-level target of any kind stands for exactly them. */
  lemma ListedOnlyWhenNeeded(candidates: seq<Entity>, entities: seq<Entity>, areaSpoken: bool, t: Target)
    requires candidates != [] && t.ClassLevel() && t.domain.Some? && Denoted(t, entities) == Elements(candidates)
    ensures TargetFor(candidates, entities, areaSpoken).ClassLevel()
  {
    DescriptionIsTried(candidates, entities, areaSpoken, Constraints(t.domain, t.deviceClass, t.areaId));
  }

  /** A room nobody spoke of is only part of the target when no target without it would do. */
  lemma UnspokenAreaOnlyWhenNeeded(candidates: seq<Entity>, entities: seq<Entity>, t: Target)
    requires candidates != [] && DistinctIds(entities) && Elements(candidates) <= Elements(entities)
    requires t.ClassLevel() && t.domain.Some? && t.areaId == None && Denoted(t, entities) == Elements(candidates)
    ensures TargetFor(candidates, entities, false).areaId == None
  {
    DescriptionIsTried(candidates, entities, false, Constraints(t.domain, t.deviceClass, None));
    // the narrower description without a room fits as well, and is tried first
    var deviceClass := Flat(Shared(candidates, DeviceClassOf));
    var first := Constraints(t.domain, deviceClass, None);
    assert Candidates(entities, first) == Elements(candidates) by {
      forall e | e in Candidates(entities, first)
        ensures e in Elements(candidates)
      {
        assert t.deviceClass.Some? ==> Shared(candidates, DeviceClassOf) == Some(t.deviceClass);
        assert e in Candidates(entities, Constraints(t.domain, t.deviceClass, None));
      }
    }
    assert Descriptions(t.domain.value, candidates, false)[0] == first;
  }

  /** A room that was spoken of is part of the target whenever a target with it would do. */
  lemma SpokenAreaIsKept(candidates: seq<Entity>, entities: seq<Entity>, t: Target)
    requires candidates != [] && DistinctIds(entities) && Elements(candidates) <= Elements(entities)
    requires t.ClassLevel() && t.domain.Some? && t.areaId.Some? && Denoted(t, entities) == Elements(candidates)
    ensures TargetFor(candidates, entities, true).areaId == t.areaId
  {
    DescriptionIsTried(candidates, entities, true, Constraints(t.domain, t.deviceClass, t.areaId));
    assert forall e :: e in candidates ==> e in Elements(candidates) && e.areaId == t.areaId;
    assert candidates[0] in candidates && Shared(candidates, AreaOf) == Some(t.areaId);
    var deviceClass := Flat(Shared(candidates, DeviceClassOf));
    var first := Constraints(t.domain, deviceClass, t.areaId);
    assert Candidates(entities, first) == Elements(candidates) by {
      forall e | e in Candidates(entities, first)
        ensures e in Elements(candidates)
      {
        assert t.deviceClass.Some? ==> Shared(candidates, DeviceClassOf) == Some(t.deviceClass);
        assert e in Candidates(entities, Constraints(t.domain, t.deviceClass, t.areaId));
      }
    }
    assert Descriptions(t.domain.value, candidates, true)[0] == first;
  }

  // ----- grounding an event ---------------------------------------------------------------

  datatype Quantifier = Definite | Any | All | Bare

  datatype Noun = Noun(domain: string, deviceClass: Option<string>)

  /** The subject noun phrase as it was read. */
  datatype Subject = Subject(
    noun: Option<Noun>,
    areaId: Option<string>,
    unknownLocation: bool,
    modifiers: seq<string>,
    quantifier: Quantifier,
    implicit: bool)

  datatype SemanticState = Open | Closed | On | Off | OtherState

  datatype Unit = Percent | Degree | NoUnit

  datatype Comparator = Above | Below | AtLeast | AtMost | Equal

  datatype Direction = Up | Down

  /** What an event clause says, apart from its subject. */
  datatype Roles = Roles(
    unsupported: bool,
    value: Option<real>,
    unit: Option<Unit>,
    comparator: Option<Comparator>,
    half: bool,
    state: Option<SemanticState>,
    motion: bool,
    direction: Option<Direction>,
    forSeconds: Option<nat>)

  datatype Measurement = CoverPosition | LightBrightness | FanPercentage

  datatype Trigger =
    | StateTrigger(target: Target, state: SemanticState, forSeconds: Option<nat>)
    | NumericTrigger(target: Target, comparator: Comparator, threshold: real, measurement: Option<Measurement>,
                     direction: Option<Direction>, forSeconds: Option<nat>)

  datatype Refusal =
    | NotBuildable | Aggregate | DirectionWithoutPosition | MixedDomains | UnitMismatch
    | NoNumericProperty | HalfWithoutCover | BareNumber | OutOfRange

  datatype Grounded =
    | Resolved(trigger: Trigger, devices: seq<Entity>)
    | Ambiguous(candidates: seq<Entity>)
    | NotFound
    | MissingSubject
    | Unsupported(reason: Refusal)
    | NotApplicable

  const MOTION_DETECTOR := Noun("binary_sensor", Some("motion"))
  const TEMPERATURE := Noun("sensor", Some("temperature"))
  const GENERIC_CLASSES := {Some("window"), Some("door"), Some("motion")}
  const OPENING_CLASSES := {Some("window"), Some("door"), Some("garage_door"), Some("opening")}

  predicate StateFits(e: Entity, state: SemanticState) {
    match e.domain
    case "binary_sensor" => !state.OtherState? && (state in {Open, Closed} <==> e.deviceClass in OPENING_CLASSES)
    case "cover" => state in {Open, Closed}
    case "light" => state in {On, Off}
    case "switch" => state in {On, Off}
    case "fan" => state in {On, Off}
    case "media_player" => state in {On, Off}
    case "climate" => state in {On, Off}
    case "input_boolean" => state in {On, Off}
    case _ => false
  }

  predicate Contains(text: string, part: string) {
    exists i :: 0 <= i <= |text| && part <= text[i..]
  }

  predicate MatchesModifiers(e: Entity, modifiers: seq<string>) {
    forall m :: m in modifiers ==> exists name :: name in e.names && Contains(name, m)
  }

  predicate InArea(e: Entity, areaId: Option<string>) {
    areaId.Some? ==> e.areaId == areaId
  }

  /** The entity is of the class the noun names, in the room, and carries the other words in its name. */
  predicate IsMeant(e: Entity, subject: Subject) {
    match subject.noun
    case Some(noun) =>
      && e.domain == noun.domain && (noun.deviceClass.Some? ==> e.deviceClass == noun.deviceClass)
      && InArea(e, subject.areaId) && MatchesModifiers(e, subject.modifiers)
    case None =>
      Join(subject.modifiers, " ") != "" && Join(subject.modifiers, " ") in e.names
      && InArea(e, subject.areaId)
  }

  function ClassCandidates(subject: Subject, noun: Noun, entities: seq<Entity>): seq<Entity> {
    Filter(entities, (e: Entity) =>
      && e.domain == noun.domain && (noun.deviceClass.Some? ==> e.deviceClass == noun.deviceClass) && InArea(e, subject.areaId))
  }

  function NamedCandidates(subject: Subject, entities: seq<Entity>): seq<Entity> {
    var spoken := Join(subject.modifiers, " ");
    if spoken == "" then [] else Filter(entities, (e: Entity) => spoken in e.names && InArea(e, subject.areaId))
  }

  /** Motion without a noun means any motion detector; a bare temperature means the temperature sensor. */
  function Completed(subject: Subject, roles: Roles): Subject {
    if roles.motion && subject.noun == None then
      subject.(noun := Some(MOTION_DETECTOR), quantifier := Any, implicit := false,
               modifiers := Filter(subject.modifiers, (m: string) => m !in {"bewegung", "eine"}))
    else subject
  }

  /** A room alone is not a measurable subject. */
  function Measured(subject: Subject, roles: Roles): Subject {
    if subject.noun == None && subject.modifiers == [] && roles.value.Some? then subject.(implicit := true) else subject
  }

  function Named(subject: Subject, roles: Roles): Option<Subject> {
    if subject.noun.Some? || !subject.implicit then Some(subject)
    else if roles.value.Some? && roles.unit == Some(Degree) then
      Some(subject.(noun := Some(TEMPERATURE), quantifier := Definite, implicit := false))
    else None
  }

  function GroundEvent(roles: Roles, subject: Subject, entities: seq<Entity>): Grounded {
    if roles.unsupported then Unsupported(NotBuildable)
    else if roles.value == None && roles.state == None then NotApplicable
    else
      var completed := Completed(subject, roles);
      if completed.unknownLocation then NotFound
      else if completed.quantifier.All? then Unsupported(Aggregate)
      else
        match Named(Measured(completed, roles), roles)
        case None => MissingSubject
        case Some(named) => GroundSubject(roles, named, entities)
  }

  /** The devices a complete subject stands for. */
  function Selected(roles: Roles, subject: Subject, entities: seq<Entity>): seq<Entity> {
    var candidates :=
      match subject.noun
      case Some(noun) => Filter(ClassCandidates(subject, noun, entities), (e: Entity) => MatchesModifiers(e, subject.modifiers))
      case None => NamedCandidates(subject, entities);
    if roles.state.Some? && roles.value == None
    then Filter(candidates, (e: Entity) => StateFits(e, roles.state.value)) else candidates
  }

  /** A definite reference to a generic window, door or motion detector watches all of them. */
  predicate GenericAny(roles: Roles, subject: Subject) {
    roles.value == None && subject.noun.Some? && subject.noun.value.deviceClass in GENERIC_CLASSES && subject.modifiers == []
  }

  function GroundSubject(roles: Roles, subject: Subject, entities: seq<Entity>): Grounded
    requires roles.value.Some? || roles.state.Some?
  {
    if subject.noun == None && NamedCandidates(subject, entities) == [] then NotApplicable
    else
      var candidates := Selected(roles, subject, entities);
      if candidates == [] then NotFound
      else if |candidates| > 1 && !subject.quantifier.Any? && !GenericAny(roles, subject) then Ambiguous(candidates)
      else Project(roles, subject, candidates, entities)
  }

  function PercentProperty(domain: string): Option<Measurement> {
    match domain
    case "cover" => Some(CoverPosition)
    case "light" => Some(LightBrightness)
    case "fan" => Some(FanPercentage)
    case _ => None
  }

  predicate SensorUnitFits(e: Entity, unit: Unit) {
    match unit
    case NoUnit => true
    case Degree => e.unit in {Some("°C"), Some("°F"), Some("K")}
    case Percent => e.unit == Some("%")
  }

  /** Why a numeric condition on these devices cannot be built, if it cannot. */
  function NumericRefusal(roles: Roles, candidates: seq<Entity>): Option<Refusal>
    requires roles.value.Some? && candidates != []
  {
    var domain, unit := Shared(candidates, DomainOf), if roles.unit.Some? then roles.unit.value else NoUnit;
    if domain == None then Some(MixedDomains)
    else if domain.value == "sensor" then
      if roles.half || exists e :: e in candidates && !SensorUnitFits(e, unit) then Some(UnitMismatch)
      else if roles.direction.Some? then Some(DirectionWithoutPosition)
      else None
    else
      var measurement := PercentProperty(domain.value);
      if measurement == None || unit.Degree? then Some(NoNumericProperty)
      else if roles.half && !measurement.value.CoverPosition? then Some(HalfWithoutCover)
      else if unit.NoUnit? && !measurement.value.CoverPosition? then Some(BareNumber)
      else if !(0.0 <= roles.value.value <= 100.0) then Some(OutOfRange)
      else if roles.direction.Some? && !measurement.value.CoverPosition? then Some(DirectionWithoutPosition)
      else None
  }

  function Project(roles: Roles, subject: Subject, candidates: seq<Entity>, entities: seq<Entity>): Grounded
    requires candidates != [] && (roles.value.Some? || roles.state.Some?)
  {
    var target := TargetFor(candidates, entities, subject.areaId.Some? || !subject.quantifier.Any?);
    match roles.value
    case None =>
      if roles.direction.Some? then Unsupported(DirectionWithoutPosition)
      else Resolved(StateTrigger(target, roles.state.value, roles.forSeconds), candidates)
    case Some(value) =>
      match NumericRefusal(roles, candidates)
      case Some(reason) => Unsupported(reason)
      case None =>
        var comparator := if roles.comparator.Some? then roles.comparator.value else Equal;
        Resolved(NumericTrigger(target, comparator, value, PercentProperty(candidates[0].domain), roles.direction, roles.forSeconds),
                 candidates)
  }

  /** The one chosen candidate of an ambiguous event. */
  function RestrictTo(roles: Roles, subject: Subject, chosen: Entity, entities: seq<Entity>): Grounded
    requires roles.value.Some? || roles.state.Some?
  {
    Project(roles, subject, [chosen], entities)
  }

  // ----- the words these definitions use ----------------------------------------------------

  lemma ContainsExactly(text: string, part: string)
    ensures Contains(text, part) <==> exists before: string, after: string :: text == before + part + after
  {
    if Contains(text, part) {
      var i :| 0 <= i <= |text| && part <= text[i..];
      SplitsAt(text, part, i);
    }
    forall before: string, after: string | text == before + part + after
      ensures Contains(text, part)
    {
      assert text[|before|..] == part + after;
    }
  }

  /** These two stand apart from what is between them. */
  predicate Apart(before: string, after: string) {
    (before == "" || before[|before| - 1] == ' ') && (after == "" || after[0] == ' ')
  }

  /** A word between blanks, or at an end of the text, stands on its own. */
  lemma WholeWordBetween(before: string, word: string, after: string)
    requires Apart(before, after)
    ensures WholeWord(before + word + after, word)
  {
    var text, i := before + word + after, |before|;
    assert text[i..] == word + after;
    assert i > 0 ==> text[i - 1] == before[i - 1];
    assert i + |word| < |text| ==> text[i + |word|] == after[0];
  }

  /** And any that does stands there. */
  lemma WholeWordSplits(text: string, word: string) returns (before: string, after: string)
    requires WholeWord(text, word)
    ensures text == before + word + after && Apart(before, after)
  {
    var i :| 0 <= i <= |text| && word <= text[i..]
             && (i > 0 ==> text[i - 1] == ' ') && (i + |word| < |text| ==> text[i + |word|] == ' ');
    SplitsAt(text, word, i);
    before, after := text[..i], text[i + |word|..];
  }

  lemma SplitsAt(text: string, part: string, i: nat)
    requires i <= |text| && part <= text[i..]
    ensures i + |part| <= |text| && text == text[..i] + part + text[i + |part|..]
  {
    assert text[i..][..|part|] == part;
  }

  /** Openings and covers can be open or closed, what is switched on or off; a sensor of an opening is an opening. */
  lemma StatesFitExactly(e: Entity, state: SemanticState)
    ensures
      var opening := e.deviceClass in {Some("window"), Some("door"), Some("garage_door"), Some("opening")};
      var sensor := e.domain == "binary_sensor";
      StateFits(e, state) <==>
        || (state in {Open, Closed} && (e.domain == "cover" || (sensor && opening)))
        || (state in {On, Off} && (e.domain in {"light", "switch", "fan", "media_player", "climate", "input_boolean"} || (sensor && !opening)))
  {
  }

  // ----- what grounding promises ------------------------------------------------------------

  lemma {:induction false} FilterSelects<T(!new)>(xs: seq<T>, keep: T -> bool)
    ensures forall x :: x in Filter(xs, keep) <==> x in xs && keep(x)
  {
    if xs != [] {
      FilterSelects(xs[1..], keep);
    }
  }

  /** The subject, whatever grounding made of it on the way. */
  function Effective(roles: Roles, subject: Subject): Option<Subject> {
    Named(Measured(Completed(subject, roles), roles), roles)
  }

  /** What is selected: the entities that are meant, in the domain of the state when only a state was spoken. */
  predicate Wanted(e: Entity, roles: Roles, subject: Subject) {
    IsMeant(e, subject) && (roles.state.Some? && roles.value == None ==> StateFits(e, roles.state.value))
  }

  function WantedBy(roles: Roles, subject: Subject): Entity -> bool {
    (e: Entity) => Wanted(e, roles, subject)
  }

  function MeantBy(subject: Subject): Entity -> bool {
    (e: Entity) => IsMeant(e, subject)
  }

  lemma NamedAreMeant(subject: Subject, entities: seq<Entity>)
    requires subject.noun == None
    ensures NamedCandidates(subject, entities) == Filter(entities, MeantBy(subject))
  {
    var spoken := Join(subject.modifiers, " ");
    var named := (e: Entity) => spoken in e.names && InArea(e, subject.areaId);
    if spoken == "" {
      FilterNone(entities, MeantBy(subject));
    } else {
      FilterBoth(entities, named, named, MeantBy(subject));
      FilterBoth(entities, named, named, named);
    }
  }

  /** The entities that are wanted, all of them, each as often as it is known and in that order. */
  lemma SelectedAreWanted(roles: Roles, subject: Subject, entities: seq<Entity>)
    ensures Selected(roles, subject, entities) == Filter(entities, WantedBy(roles, subject))
  {
    var meant := MeantBy(subject);
    match subject.noun {
      case Some(noun) =>
        FilterBoth(entities, (e: Entity) =>
          && e.domain == noun.domain && (noun.deviceClass.Some? ==> e.deviceClass == noun.deviceClass) && InArea(e, subject.areaId),
          (e: Entity) => MatchesModifiers(e, subject.modifiers), meant);
      case None => NamedAreMeant(subject, entities);
    }
    if roles.state.Some? && roles.value == None {
      FilterBoth(entities, meant, (e: Entity) => StateFits(e, roles.state.value), WantedBy(roles, subject));
    } else {
      FilterBoth(entities, meant, meant, WantedBy(roles, subject));
      FilterBoth(entities, meant, meant, meant);
    }
  }

  lemma SelectedAreMeant(roles: Roles, subject: Subject, entities: seq<Entity>)
    ensures forall e :: e in Selected(roles, subject, entities) <==>
              e in entities && IsMeant(e, subject) && (roles.state.Some? && roles.value == None ==> StateFits(e, roles.state.value))
  {
    SelectedAreWanted(roles, subject, entities);
    FilterSelects(entities, WantedBy(roles, subject));
  }

  /**
   Grounding never guesses. A resolved event watches exactly the entities its
   subject means, all of them, and its target denotes just these; there are
   several only for an "any" reference or a generic opening or motion detector.
   */
  lemma ResolvedMeansExactly(roles: Roles, subject: Subject, entities: seq<Entity>)
    requires DistinctIds(entities)
    requires GroundEvent(roles, subject, entities).Resolved?
    ensures
      var grounded := GroundEvent(roles, subject, entities);
      var effective := Effective(roles, subject);
      && effective.Some?
      && grounded.devices != []
      && Denoted(grounded.trigger.target, entities) == Elements(grounded.devices)
      && (forall e :: e in grounded.devices <==>
            e in entities && IsMeant(e, effective.value)
            && (grounded.trigger.StateTrigger? ==> StateFits(e, grounded.trigger.state)))
      && (|grounded.devices| > 1 ==> effective.value.quantifier.Any? || GenericAny(roles, effective.value))
  {
    var effective := Effective(roles, subject).value;
    SelectedAreMeant(roles, effective, entities);
    var devices := Selected(roles, effective, entities);
    TargetDenotesCandidates(devices, entities, effective.areaId.Some? || !effective.quantifier.Any?);
  }

  /** What the subject is taken for: itself, any motion detector, the temperature, or nothing that can be measured. */
  lemma EffectiveExactly(roles: Roles, subject: Subject)
    ensures
      var effective, without := Effective(roles, subject), subject.noun == None;
      var bare := without && (subject.implicit || (subject.modifiers == [] && roles.value.Some?));
      && (!without || (!roles.motion && !bare) ==> effective == Some(subject))
      && (without && roles.motion ==>
            effective == Some(subject.(noun := Some(Noun("binary_sensor", Some("motion"))), quantifier := Any, implicit := false,
                                       modifiers := Filter(subject.modifiers, (m: string) => m !in {"bewegung", "eine"}))))
      && (bare && !roles.motion ==>
            if roles.value.Some? && roles.unit == Some(Degree)
            then effective == Some(subject.(noun := Some(Noun("sensor", Some("temperature"))), quantifier := Definite, implicit := false))
            else effective == None)
  {
  }

  /** What is refused before any device is looked for. */
  lemma RefusedAtOnce(roles: Roles, subject: Subject, entities: seq<Entity>)
    ensures
      var grounded := GroundEvent(roles, subject, entities);
      var motion := roles.motion && subject.noun == None;
      if roles.unsupported then grounded == Unsupported(NotBuildable)
      else if roles.value == None && roles.state == None then grounded == NotApplicable
      else if subject.unknownLocation then grounded == NotFound
      else if subject.quantifier.All? && !motion then grounded == Unsupported(Aggregate)
      else Effective(roles, subject) == None ==> grounded == MissingSubject
  {
  }

  /** The subject goes on to the devices, as this. */
  predicate Searched(roles: Roles, subject: Subject, effective: Subject) {
    && !roles.unsupported && (roles.value.Some? || roles.state.Some?) && !subject.unknownLocation
    && (subject.quantifier.All? ==> roles.motion && subject.noun == None)
    && Effective(roles, subject) == Some(effective)
  }

  lemma WantedDecide(roles: Roles, subject: Subject, entities: seq<Entity>)
    requires roles.value.Some? || roles.state.Some?
    ensures
      var grounded, wanted := GroundSubject(roles, subject, entities), Filter(entities, WantedBy(roles, subject));
      var unnamed := subject.noun == None && Filter(entities, MeantBy(subject)) == [];
      && (grounded == NotApplicable <==> unnamed)
      && (grounded == NotFound <==> wanted == [] && !unnamed)
      && (!unnamed && |wanted| > 1 && !subject.quantifier.Any? && !GenericAny(roles, subject) <==> grounded.Ambiguous?)
      && (grounded.Ambiguous? ==> grounded.candidates == wanted)
      && (grounded.Resolved? ==> grounded.devices == wanted)
  {
    SelectedAreWanted(roles, subject, entities);
    if subject.noun == None {
      NamedAreMeant(subject, entities);
    }
  }

  /** Without anything meant, nothing is wanted. */
  lemma WantedAreMeant(roles: Roles, subject: Subject, entities: seq<Entity>)
    requires Filter(entities, MeantBy(subject)) == []
    ensures Filter(entities, WantedBy(roles, subject)) == []
  {
    NoneSelected(entities, MeantBy(subject));
    NoneSelected(entities, WantedBy(roles, subject));
  }

  /**
   Otherwise the number of wanted devices decides: none, and it is not for us
   or nothing was found; several, and a question is asked unless any will do.
   */
  lemma FoundExactly(roles: Roles, subject: Subject, effective: Subject, entities: seq<Entity>)
    requires Searched(roles, subject, effective)
    ensures
      var grounded, wanted := GroundEvent(roles, subject, entities), WantedBy(roles, effective);
      var unnamed := effective.noun == None && forall i :: 0 <= i < |entities| ==> !MeantBy(effective)(entities[i]);
      var none := forall i :: 0 <= i < |entities| ==> !wanted(entities[i]);
      && (grounded == NotApplicable <==> unnamed)
      && (grounded == NotFound <==> none && !unnamed)
      && (grounded.Ambiguous? <==>
            && !effective.quantifier.Any? && !GenericAny(roles, effective)
            && exists i: nat, j: nat :: SelectsBoth(entities, wanted, i, j))
      && (grounded.Ambiguous? ==> grounded.candidates == Filter(entities, wanted))
      && (grounded.Resolved? ==> grounded.devices == Filter(entities, wanted))
  {
    assert GroundEvent(roles, subject, entities) == GroundSubject(roles, effective, entities);
    WantedDecide(roles, effective, entities);
    NoneSelected(entities, WantedBy(roles, effective));
    NoneSelected(entities, MeantBy(effective));
    SeveralSelected(entities, WantedBy(roles, effective));
    if Filter(entities, MeantBy(effective)) == [] {
      WantedAreMeant(roles, effective, entities);
    }
  }

  /** A question is only asked about several real candidates. */
  lemma AmbiguityIsReal(roles: Roles, subject: Subject, entities: seq<Entity>)
    requires GroundEvent(roles, subject, entities).Ambiguous?
    ensures
      var candidates := GroundEvent(roles, subject, entities).candidates;
      var effective := Effective(roles, subject);
      && |candidates| > 1 && effective.Some? && !effective.value.quantifier.Any?
      && forall e :: e in candidates ==> e in entities && IsMeant(e, effective.value)
  {
    SelectedAreMeant(roles, Effective(roles, subject).value, entities);
  }

  /** The devices a percentage is a property of. */
  function MeasuredOn(property: Measurement): string {
    match property
    case CoverPosition => "cover"
    case LightBrightness => "light"
    case FanPercentage => "fan"
  }

  /** What a spoken number means is decided by the one domain of the devices, and only some combinations mean anything. */
  predicate Measurable(roles: Roles, devices: seq<Entity>, measurement: Option<Measurement>) {
    var unit := if roles.unit.Some? then roles.unit.value else NoUnit;
    && roles.value.Some?
    && (forall e, f :: e in devices && f in devices ==> e.domain == f.domain)
    && match measurement
       case None =>
         && (forall e :: e in devices ==>
               && e.domain == "sensor" && (unit.Degree? ==> e.unit in {Some("°C"), Some("°F"), Some("K")})
               && (unit.Percent? ==> e.unit == Some("%")))
         && !roles.half && roles.direction == None
       case Some(property) =>
         && (forall e :: e in devices ==> e.domain == MeasuredOn(property))
         && 0.0 <= roles.value.value <= 100.0 && !unit.Degree?
         && (property.CoverPosition? || (unit.Percent? && !roles.half && roles.direction == None))
  }

  /** A numeric trigger is built if and only if the number has a meaning for the devices, and then with that meaning. */
  lemma NumericExactlyWhenMeasurable(roles: Roles, subject: Subject, candidates: seq<Entity>, entities: seq<Entity>)
    requires candidates != [] && roles.value.Some?
    ensures
      var grounded := Project(roles, subject, candidates, entities);
      && (grounded.Resolved? <==> exists measurement :: Measurable(roles, candidates, measurement))
      && (grounded.Resolved? ==>
            grounded.trigger.NumericTrigger? && grounded.trigger.threshold == roles.value.value
            && Measurable(roles, candidates, grounded.trigger.measurement))
  {
    var first := candidates[0];
    assert first in candidates;
    var grounded := Project(roles, subject, candidates, entities);
    forall measurement | Measurable(roles, candidates, measurement)
      ensures grounded.Resolved?
    {
      assert Shared(candidates, DomainOf) == Some(first.domain);
    }
    if grounded.Resolved? {
      assert Shared(candidates, DomainOf) == Some(first.domain);
      assert forall e :: e in candidates ==> DomainOf(e) == first.domain;
      assert Measurable(roles, candidates, PercentProperty(first.domain));
    }
  }

  /** A measured value stands in this relation to a threshold. */
  predicate Compares(comparator: Comparator, measured: real, threshold: real) {
    match comparator
    case Above => measured > threshold
    case Below => measured < threshold
    case AtLeast => measured >= threshold
    case AtMost => measured <= threshold
    case Equal => measured == threshold
  }

  /** What was said is true of a measured value; a bare number means just this value. */
  predicate SaidOf(roles: Roles, measured: real)
    requires roles.value.Some?
  {
    if roles.comparator.Some? then Compares(roles.comparator.value, measured, roles.value.value) else measured == roles.value.value
  }

  /** The trigger fires as it was said: on just the values or the state, in the direction and after the time. */
  ghost predicate AsSaid(trigger: Trigger, roles: Roles) {
    && trigger.forSeconds == roles.forSeconds
    && match trigger
       case StateTrigger(_, state, _) => roles.value == None && roles.state == Some(state) && roles.direction == None
       case NumericTrigger(_, comparator, threshold, _, direction, _) =>
         && roles.value.Some? && direction == roles.direction
         && forall measured :: Compares(comparator, measured, threshold) <==> SaidOf(roles, measured)
  }

  /** A trigger that is built means what was said, and a state without a direction is always built. */
  lemma ProjectedAsSaid(roles: Roles, subject: Subject, candidates: seq<Entity>, entities: seq<Entity>)
    requires candidates != [] && (roles.value.Some? || roles.state.Some?)
    ensures
      var grounded := Project(roles, subject, candidates, entities);
      && (grounded.Resolved? ==> AsSaid(grounded.trigger, roles) && grounded.devices == candidates)
      && (roles.value == None ==> (grounded.Resolved? <==> roles.direction == None))
  {
    var grounded := Project(roles, subject, candidates, entities);
    if grounded.Resolved? && grounded.trigger.NumericTrigger? {
      forall measured
        ensures Compares(grounded.trigger.comparator, measured, grounded.trigger.threshold) <==> SaidOf(roles, measured)
      {
      }
    }
  }

  /** A resolved event means what was said, and names the room as it was spoken of: it is kept, or left out, wherever that will do. */
  lemma ResolvedAsSaid(roles: Roles, subject: Subject, entities: seq<Entity>)
    requires DistinctIds(entities) && GroundEvent(roles, subject, entities).Resolved?
    ensures
      var grounded := GroundEvent(roles, subject, entities);
      var effective := Effective(roles, subject).value;
      && AsSaid(grounded.trigger, roles)
      && forall t: Target :: t.ClassLevel() && t.domain.Some? && Denoted(t, entities) == Elements(grounded.devices) ==>
           if effective.areaId == None && effective.quantifier.Any?
           then t.areaId == None ==> grounded.trigger.target.areaId == None
           else t.areaId.Some? ==> grounded.trigger.target.areaId == t.areaId
  {
    var effective := Effective(roles, subject).value;
    var devices := Selected(roles, effective, entities);
    SelectedAreMeant(roles, effective, entities);
    ProjectedAsSaid(roles, effective, devices, entities);
    forall t: Target | t.ClassLevel() && t.domain.Some? && Denoted(t, entities) == Elements(devices)
      ensures t.areaId == None ==> TargetFor(devices, entities, false).areaId == None
      ensures t.areaId.Some? ==> TargetFor(devices, entities, true).areaId == t.areaId
    {
      if t.areaId == None {
        UnspokenAreaOnlyWhenNeeded(devices, entities, t);
      } else {
        SpokenAreaIsKept(devices, entities, t);
      }
    }
  }

  // ----- answering the question -------------------------------------------------------------

  /** The word stands in the text on its own. */
  predicate WholeWord(text: string, word: string) {
    exists i :: 0 <= i <= |text| && word <= text[i..]
                && (i > 0 ==> text[i - 1] == ' ') && (i + |word| < |text| ==> text[i + |word|] == ' ')
  }

  predicate HasAllWords(e: Entity, words: seq<string>) {
    forall word :: word in words ==> exists name :: name in e.names && WholeWord(name, word)
  }

  function NamedBy(words: seq<string>): Entity -> bool {
    (e: Entity) => Join(words, " ") in e.names
  }

  function WordedBy(words: seq<string>): Entity -> bool {
    (e: Entity) => HasAllWords(e, words)
  }

  /** "the left one": the only candidate of that name, or else the only one with all the words in its name. */
  function ChooseCandidate(words: seq<string>, candidates: seq<Entity>): Option<Entity> {
    if words == [] then None
    else
      var exact := Filter(candidates, NamedBy(words));
      if |exact| == 1 then Some(exact[0])
      else
        var matching := Filter(candidates, WordedBy(words));
        if |matching| == 1 then Some(matching[0]) else None
  }

  /** A choice is made exactly when one candidate alone carries the name, or else one alone has all the words. */
  lemma ChosenExactly(words: seq<string>, candidates: seq<Entity>)
    ensures ChooseCandidate(words, candidates).Some? <==>
              && words != []
              && (|| (exists i: nat :: SelectsOnly(candidates, NamedBy(words), i))
                  || (exists i: nat :: SelectsOnly(candidates, WordedBy(words), i)))
  {
    OneSelected(candidates, NamedBy(words));
    OneSelected(candidates, WordedBy(words));
  }

  /** The choice is one of the candidates, and no other fits the same way. */
  lemma ChoiceIsUnique(words: seq<string>, candidates: seq<Entity>)
    requires ChooseCandidate(words, candidates).Some?
    ensures
      var chosen := ChooseCandidate(words, candidates).value;
      && chosen in candidates
      && (|| (forall e :: e in candidates && Join(words, " ") in e.names <==> e == chosen)
          || (forall e :: e in candidates && HasAllWords(e, words) <==> e == chosen))
  {
    FilterSelects(candidates, NamedBy(words));
    FilterSelects(candidates, WordedBy(words));
  }

  /** Restricted to a known device, an event watches just this one, as was said. */
  lemma RestrictedDenotes(roles: Roles, subject: Subject, chosen: Entity, entities: seq<Entity>)
    requires DistinctIds(entities) && chosen in entities && (roles.value.Some? || roles.state.Some?)
    ensures
      var grounded := RestrictTo(roles, subject, chosen, entities);
      grounded.Resolved? ==>
        && grounded.devices == [chosen] && Denoted(grounded.trigger.target, entities) == {chosen}
        && AsSaid(grounded.trigger, roles)
  {
    TargetDenotesCandidates([chosen], entities, subject.areaId.Some? || !subject.quantifier.Any?);
    ProjectedAsSaid(roles, subject, [chosen], entities);
    assert Elements([chosen]) == {chosen};
  }

  /** An ambiguous event, once answered, watches exactly the chosen device, which is one its subject means. */
  lemma ChoiceDenotesDevice(roles: Roles, subject: Subject, words: seq<string>, entities: seq<Entity>)
    requires DistinctIds(entities) && GroundEvent(roles, subject, entities).Ambiguous?
    requires ChooseCandidate(words, GroundEvent(roles, subject, entities).candidates).Some?
    ensures
      var chosen := ChooseCandidate(words, GroundEvent(roles, subject, entities).candidates).value;
      var effective := Effective(roles, subject);
      && effective.Some? && IsMeant(chosen, effective.value)
      && var grounded := RestrictTo(roles, effective.value, chosen, entities);
         grounded.Resolved? ==>
           && grounded.devices == [chosen] && Denoted(grounded.trigger.target, entities) == {chosen}
           && AsSaid(grounded.trigger, roles)
  {
    var candidates := GroundEvent(roles, subject, entities).candidates;
    var chosen := ChooseCandidate(words, candidates).value;
    ChoiceIsUnique(words, candidates);
    AmbiguityIsReal(roles, subject, entities);
    RestrictedDenotes(roles, Effective(roles, subject).value, chosen, entities);
  }
}
