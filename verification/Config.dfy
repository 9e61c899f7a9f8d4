/**
 Automation configurations as nested trees, and the rewriting that a
 duplicate of an automation goes through.

 A configuration is what YAML yields: a mapping from keys to scalars, lists
 and further mappings.
 */
module Config {
  import opened Common

  type Id = string

  datatype Value =
    | Null
    | Bool(b: bool)
    | Int(i: int)
    | Str(s: string)
    | List(items: seq<Value>)
    | Obj(fields: map<string, Value>)

  type Automation = map<string, Value>

  /** `automation.get(key)`: a missing key reads as null. */
  function Get(fields: map<string, Value>, key: string): Value {
    if key in fields then fields[key] else Null
  }

  predicate HasId(automation: Automation, id: Id) {
    Get(automation, "id") == Str(id)
  }

  /** The string ids present in an automation list. */
  function Ids(automations: seq<Automation>): (ids: set<Id>)
    ensures forall id :: id in ids <==> exists a :: a in automations && HasId(a, id)
  {
    var ids := set a | a in automations && Get(a, "id").Str? :: Get(a, "id").s;
    assert forall id, a :: a in automations && HasId(a, id) ==> id in ids;
    ids
  }

  const DELETE_ACTION := "homeintent.delete_automation"
  const RECORD_RUN_ACTION := "homeintent.record_automation_run"

  /** A node that calls one of the two lifecycle services. */
  predicate IsLifecycleCall(v: Value) {
    v.Obj? && Get(v.fields, "action") in {Str(DELETE_ACTION), Str(RECORD_RUN_ACTION)}
  }

  /** A lifecycle call whose `data` is a mapping: the only nodes a duplicate rewrites. */
  predicate NamesAutomation(v: Value) {
    IsLifecycleCall(v) && Get(v.fields, "data").Obj?
  }

  /**
   What the in-place walk of `replace_lifecycle_id` makes of a copied tree, if
   it comes through.
   */
  function ReplaceLifecycleId(v: Value, newId: Id): (r: Value)
    ensures v.Obj? ==> r.Obj?
    decreases v
  {
    match v
    case Obj(fields) =>
      Obj(map key | key in fields ::
        var child := ReplaceLifecycleId(fields[key], newId);
        if key == "data" && NamesAutomation(v)
        then Obj(child.fields["automation_id" := Str(newId)])
        else child)
    case List(items) =>
      List(seq(|items|, i requires 0 <= i < |items| => ReplaceLifecycleId(items[i], newId)))
    case _ => v
  }

  /** Membership in a set of strings is undefined for lists and mappings: asking raises. */
  predicate Hashable(v: Value) {
    !v.List? && !v.Obj?
  }

  /**
   The walk comes through: wherever it looks at a mapping's action, it finds
   something hashable. In the data of a lifecycle call (`filled`) the reference
   has just been replaced, so what was below it is not looked at.
   */
  predicate Walkable(v: Value, filled: bool)
    decreases v
  {
    match v
    case Obj(fields) =>
      && Hashable(Get(fields, "action"))
      && forall key | key in fields && !(filled && key == "automation_id") ::
           Walkable(fields[key], key == "data" && NamesAutomation(v))
    case List(items) => forall i | 0 <= i < |items| :: Walkable(items[i], false)
    case _ => true
  }

  // ----- what the rewriting preserves, stated by paths ---------------------

  datatype Step = Key(key: string) | Index(index: nat)
  type Path = seq<Step>

  /** The node one step below `v`, if there is one. */
  function Child(v: Value, step: Step): Option<Value> {
    match step
    case Key(key) => if v.Obj? && key in v.fields then Some(v.fields[key]) else None
    case Index(i) => if v.List? && i < |v.items| then Some(v.items[i]) else None
  }

  /** The node that a path leads to, independently of any traversal order. */
  function At(v: Value, path: Path): Option<Value>
    decreases |path|
  {
    if path == [] then Some(v)
    else
      match Child(v, path[0])
      case None => None
      case Some(child) => At(child, path[1..])
  }

  /** A node without its children: a scalar itself, or the bare kind of a container. */
  function Head(v: Value): Value {
    match v
    case List(_) => List([])
    case Obj(_) => Obj(map[])
    case _ => v
  }

  /** What the rewriting may do to a path: keep it, point it to the new id, or cut it off below such an id. */
  datatype Fate = Kept | Reference | Cut

  /** Follows `path` from `v` and reports the first lifecycle reference met on the way. */
  function FateOf(v: Value, path: Path): Fate
    decreases |path|
  {
    if |path| >= 2 && path[0] == Key("data") && path[1] == Key("automation_id") && NamesAutomation(v) then
      if |path| == 2 then Reference else Cut
    else if path == [] then Kept
    else
      match Child(v, path[0])
      case None => Kept
      case Some(child) => FateOf(child, path[1..])
  }

  /** The walk looks at the mapping a path leads to: the path is not at or below a replaced reference. */
  predicate Visits(v: Value, path: Path) {
    FateOf(v, path) == Kept && At(v, path).Some? && At(v, path).value.Obj?
  }

  /** The path does not start with a reference that was already replaced. */
  predicate Clear(filled: bool, path: Path) {
    filled ==> path == [] || path[0] != Key("automation_id")
  }

  lemma {:induction false} WalkableEverywhere(v: Value, filled: bool, path: Path)
    requires Walkable(v, filled) && Visits(v, path) && Clear(filled, path)
    ensures Hashable(Get(At(v, path).value.fields, "action"))
    decreases |path|
  {
    if path != [] {
      var child := Child(v, path[0]).value;
      WalkableEverywhere(child, path[0] == Key("data") && NamesAutomation(v), path[1..]);
    }
  }

  /** Where a walk that does not come through gets stuck. */
  lemma {:induction false} StuckPath(v: Value, filled: bool) returns (path: Path)
    requires !Walkable(v, filled)
    ensures Visits(v, path) && Clear(filled, path) && !Hashable(Get(At(v, path).value.fields, "action"))
    decreases v
  {
    path := [];
    match v
    case Obj(fields) =>
      if Hashable(Get(fields, "action")) {
        var key :| key in fields && !(filled && key == "automation_id")
                   && !Walkable(fields[key], key == "data" && NamesAutomation(v));
        var below := StuckPath(fields[key], key == "data" && NamesAutomation(v));
        path := [Key(key)] + below;
        assert path[1..] == below;
      }
    case List(items) =>
      var i :| 0 <= i < |items| && !Walkable(items[i], false);
      var below := StuckPath(items[i], false);
      path := [Index(i)] + below;
      assert path[1..] == below;
  }

  /** The rewriting succeeds if and only if no mapping it visits has a list or mapping as its action. */
  lemma WalkComesThroughExactly(v: Value)
    ensures Walkable(v, false) <==> forall path :: Visits(v, path) ==> Hashable(Get(At(v, path).value.fields, "action"))
  {
    if Walkable(v, false) {
      forall path | Visits(v, path)
        ensures Hashable(Get(At(v, path).value.fields, "action"))
      {
        WalkableEverywhere(v, false, path);
      }
    } else {
      var path := StuckPath(v, false);
    }
  }

  /**
   A duplicate equals its source at every path, except that each lifecycle
   reference names the new id and whatever hung below an old reference is gone.
   */
  lemma {:induction false} DuplicateDiffersOnlyInReferences(v: Value, newId: Id, path: Path)
    ensures
      var copy := At(ReplaceLifecycleId(v, newId), path);
      match FateOf(v, path)
      case Reference => copy == Some(Str(newId))
      case Cut => copy == None
      case Kept =>
        match At(v, path)
        case None => copy == None
        case Some(node) => copy.Some? && Head(copy.value) == Head(node)
    decreases |path|
  {
    if path != [] {
      var step, rest := path[0], path[1..];
      RewrittenChild(v, newId, step);
      var child := Child(v, step);
      if child.Some? {
        DuplicateDiffersOnlyInReferences(child.value, newId, rest);
        if step == Key("data") && NamesAutomation(v) && rest != [] {
          OverriddenData(ReplaceLifecycleId(child.value, newId), newId, rest);
        }
      }
    }
  }

  /** One step into the copy leads to the copy of the child, with the new id filled in below lifecycle calls. */
  lemma RewrittenChild(v: Value, newId: Id, step: Step)
    ensures
      var copy := Child(ReplaceLifecycleId(v, newId), step);
      match Child(v, step)
      case None => copy == None
      case Some(child) =>
        var rewritten := ReplaceLifecycleId(child, newId);
        copy == Some(if step == Key("data") && NamesAutomation(v)
                     then Obj(rewritten.fields["automation_id" := Str(newId)])
                     else rewritten)
  {
  }

  lemma OverriddenData(data: Value, newId: Id, rest: Path)
    requires data.Obj? && rest != []
    ensures
      At(Obj(data.fields["automation_id" := Str(newId)]), rest) ==
        if rest[0] != Key("automation_id") then At(data, rest)
        else if |rest| == 1 then Some(Str(newId))
        else None
  {
    var data' := Obj(data.fields["automation_id" := Str(newId)]);
    if rest[0] == Key("automation_id") {
      assert At(data', rest) == At(Str(newId), rest[1..]);
    } else {
      assert Child(data', rest[0]) == Child(data, rest[0]);
    }
  }

  // ----- the duplicate of a whole automation -------------------------------

  /** The copy before its references are rewritten: no id, and a new alias. */
  function Copied(source: Automation, automationId: Id): Automation {
    var alias := match Get(source, "alias")
                 case Str(s) => if s != "" then s else automationId
                 case _ => automationId;
    (source - {"id"})["alias" := Str("Kopie von " + alias)]
  }

  /** The configuration handed to creation, with fresh lifecycle references; none when the rewriting raises. */
  function DuplicateConfig(source: Automation, automationId: Id, newId: Id): (config: Option<Automation>)
    ensures config.Some? ==> "id" !in config.value
  {
    var plain := Obj(Copied(source, automationId));
    if Walkable(plain, false) then Some(ReplaceLifecycleId(plain, newId).fields) else None
  }

  /** The duplicate is named after its source, or after the source's id when that has no name. */
  lemma DuplicateIsNamed(source: Automation, automationId: Id, newId: Id)
    requires DuplicateConfig(source, automationId, newId).Some?
    ensures
      var named := exists alias :: alias != "" && Get(source, "alias") == Str(alias);
      Get(DuplicateConfig(source, automationId, newId).value, "alias")
        == Str("Kopie von " + if named then Get(source, "alias").s else automationId)
  {
    var plain := Obj(Copied(source, automationId));
    assert Get(source, "alias").Str? ==> Get(source, "alias") == Str(Get(source, "alias").s);
    RewrittenChild(plain, newId, Key("alias"));
  }

  /** The stored automation: the id first, then the configuration, which wins on a clash. */
  function WithId(id: Id, config: Automation): Automation {
    map["id" := Str(id)] + config
  }

  lemma CopiedFollows(source: Automation, automationId: Id, path: Path)
    requires path != [] && path[0] !in {Key("id"), Key("alias")}
    ensures At(Obj(Copied(source, automationId)), path) == At(Obj(source), path)
    ensures FateOf(Obj(Copied(source, automationId)), path) == FateOf(Obj(source), path)
  {
    var plain := Obj(Copied(source, automationId));
    assert Child(plain, path[0]) == Child(Obj(source), path[0]);
    assert Get(plain.fields, "action") == Get(source, "action");
    assert Get(plain.fields, "data") == Get(source, "data");
  }

  /**
   An automation can be duplicated if and only if neither it nor any mapping
   the walk visits in it, outside id and alias, has a list or mapping as its action.
   */
  lemma DuplicableExactly(source: Automation, automationId: Id, newId: Id)
    ensures DuplicateConfig(source, automationId, newId).Some? <==>
              && Hashable(Get(source, "action"))
              && forall path :: path != [] && path[0] !in {Key("id"), Key("alias")} && Visits(Obj(source), path) ==>
                   Hashable(Get(At(Obj(source), path).value.fields, "action"))
  {
    var plain := Obj(Copied(source, automationId));
    WalkComesThroughExactly(plain);
    assert Get(plain.fields, "action") == Get(source, "action");
    assert Visits(plain, []) && At(plain, []) == Some(plain);
    forall path | path != []
      ensures path[0] in {Key("id"), Key("alias")} ==> !Visits(plain, path)
      ensures path[0] !in {Key("id"), Key("alias")} ==>
                (Visits(plain, path) <==> Visits(Obj(source), path)) && At(plain, path) == At(Obj(source), path)
    {
      if path[0] in {Key("id"), Key("alias")} {
        assert Child(plain, path[0]).Some? ==> Child(plain, path[0]).value.Str?;
        assert At(plain, path).Some? ==> At(plain, path).value.Str?;
      } else {
        CopiedFollows(source, automationId, path);
      }
    }
  }

  /** The older spelling of an automation's actions, a list under `action`, is such a case. */
  lemma ActionListCannotBeDuplicated(actions: seq<Value>, newId: Id)
    ensures DuplicateConfig(map["id" := Str("a"), "action" := List(actions)], "a", newId) == None
  {
    var source := map["id" := Str("a"), "action" := List(actions)];
    assert Get(Copied(source, "a"), "action") == List(actions);
  }

  /** Outside its id and alias, the stored duplicate follows the source path by path. */
  lemma DuplicateFollowsSource(source: Automation, automationId: Id, newId: Id, path: Path)
    requires path != [] && path[0] !in {Key("id"), Key("alias")}
    requires DuplicateConfig(source, automationId, newId).Some?
    ensures
      var stored := WithId(newId, DuplicateConfig(source, automationId, newId).value);
      var copy := At(Obj(stored), path);
      && HasId(stored, newId)
      && match FateOf(Obj(source), path)
         case Reference => copy == Some(Str(newId))
         case Cut => copy == None
         case Kept =>
           match At(Obj(source), path)
           case None => copy == None
           case Some(node) => copy.Some? && Head(copy.value) == Head(node)
  {
    var stored := WithId(newId, DuplicateConfig(source, automationId, newId).value);
    var plain := Obj(Copied(source, automationId));
    CopiedFollows(source, automationId, path);
    DuplicateDiffersOnlyInReferences(plain, newId, path);
    assert Child(Obj(stored), path[0]) == Child(ReplaceLifecycleId(plain, newId), path[0]);
  }
}
