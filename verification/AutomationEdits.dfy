/**
 The list edits that operations compute before they open a transaction, and
 the values that reconciliation reads back from the edited lists.
 */
module AutomationEdits {
  import opened Common
  import opened Config
  import opened TransactionHost

  /** What the date and text libraries decide; left open on purpose. */
  datatype Texts = Texts(
    // the template mentions the current date
    mentionsDate: string -> bool,
    // the date literal a template compares the current date with
    guardDate: string -> Option<string>,
    // reading a date and a time of day as one point in time
    moment: (string, Value) -> Option<Stamp>)

  /** A section of an automation as a list; anything but a list holds no mappings. */
  function Section(automation: Automation, section: string): seq<Value> {
    match Get(automation, section)
    case List(items) => items
    case _ => []
  }

  predicate IsCallOf(action: string, v: Value) {
    v.Obj? && Get(v.fields, "action") == Str(action)
  }

  predicate IsRecordRun(v: Value) {
    IsCallOf(RECORD_RUN_ACTION, v)
  }

  predicate IsOtherAction(v: Value) {
    !IsRecordRun(v)
  }

  predicate IsTimeTrigger(v: Value) {
    v.Obj? && Get(v.fields, "trigger") == Str("time")
  }

  predicate IsTemplate(v: Value) {
    v.Obj? && Get(v.fields, "condition") == Str("template")
  }

  function TemplateText(v: Value): string
    requires IsTemplate(v)
  {
    match Get(v.fields, "value_template")
    case Str(s) => s
    case _ => ""
  }

  function MentionsDate(texts: Texts): Value -> bool {
    v => IsTemplate(v) && texts.mentionsDate(TemplateText(v))
  }

  function HasGuardDate(texts: Texts): Value -> bool {
    v => IsTemplate(v) && texts.guardDate(TemplateText(v)).Some?
  }

  // ----- edits of one automation: none when the edit is refused ----------------

  type Edit = Automation -> Option<Automation>

  function SetEnabled(enabled: bool): Edit {
    a => Some(a["initial_state" := Bool(enabled)])
  }

  function RecordRunCall(id: Id, maxRuns: int): Value {
    Obj(map["action" := Str(RECORD_RUN_ACTION),
            "data" := Obj(map["automation_id" := Str(id), "max_runs" := Int(maxRuns)])])
  }

  function SetBound(id: Id, maxRuns: int): Edit {
    a => Some(a["actions" := List(Filter(Section(a, "actions"), IsOtherAction) + [RecordRunCall(id, maxRuns)])])
  }

  /** A leading delay is kept in front of the new actions. */
  function DelayOf(actions: seq<Value>): seq<Value> {
    if actions != [] && actions[0].Obj? && "delay" in actions[0].fields then actions[..1] else []
  }

  /** A leading delay and the lifecycle calls stay around the new actions. */
  function ReplaceUserActions(newActions: seq<Value>): Edit {
    a =>
      var existing := Section(a, "actions");
      Some(a["actions" := List(DelayOf(existing) + newActions + Filter(existing, IsLifecycleCall))])
  }

  function ReplaceSection(section: string, values: seq<Value>): Edit {
    (a: Automation) => Some(if section == "conditions" && values == [] then a - {section} else a[section := List(values)])
  }

  function TimeTrigger(at: string): (v: Value)
    ensures IsTimeTrigger(v) && Get(v.fields, "at") == Str(at)
  {
    Obj(map["trigger" := Str("time"), "at" := Str(at)])
  }

  function DateGuard(template: string): (v: Value)
    ensures IsTemplate(v) && TemplateText(v) == template
  {
    Obj(map["condition" := Str("template"), "value_template" := Str(template)])
  }

  function WithSchedule(automation: Automation, triggers: seq<Value>, conditions: seq<Value>): (r: Automation)
    ensures Section(r, "triggers") == triggers && Section(r, "conditions") == conditions
  {
    automation["triggers" := List(triggers)]["conditions" := List(conditions)]
  }

  /** Moves the one time trigger and the one date guard; refuses when either is not unique. */
  function MoveSchedule(at: string, template: string, texts: Texts): Edit {
    a =>
      var triggers, conditions := Section(a, "triggers"), Section(a, "conditions");
      var time := OnlyIndex(triggers, IsTimeTrigger);
      var guard := OnlyIndex(conditions, MentionsDate(texts));
      if time == None || guard == None then None
      else Some(WithSchedule(a, triggers[time.value := TimeTrigger(at)], conditions[guard.value := DateGuard(template)]))
  }

  // ----- what each edit changes ----------------------------------------------------

  /** Outside these keys the automation is as it was. */
  predicate ChangesOnly(a: Automation, b: Automation, keys: set<string>) {
    b - keys == a - keys
  }

  lemma EnabledIsSet(a: Automation, enabled: bool)
    ensures
      var b := SetEnabled(enabled)(a);
      b.Some? && ChangesOnly(a, b.value, {"initial_state"}) && Get(b.value, "initial_state") == Bool(enabled)
  {
  }

  /** Behind actions that record no runs, one that does is the only one. */
  lemma OnlyRecordRun(kept: seq<Value>, call: Value)
    requires (forall v :: v in kept ==> !IsRecordRun(v)) && IsRecordRun(call)
    ensures Filter(kept + [call], IsOtherAction) == kept && Filter(kept + [call], IsRecordRun) == [call]
  {
    FilterAppend(kept, [call], IsOtherAction);
    FilterAppend(kept, [call], IsRecordRun);
    FilterAll(kept, IsOtherAction);
    FilterNone([call], IsOtherAction);
    FilterNone(kept, IsRecordRun);
    FilterAll([call], IsRecordRun);
  }

  lemma SetActions(a: Automation, id: Id, maxRuns: int)
    ensures
      var b := SetBound(id, maxRuns)(a);
      && b.Some? && ChangesOnly(a, b.value, {"actions"})
      && Section(b.value, "actions") == Filter(Section(a, "actions"), IsOtherAction) + [RecordRunCall(id, maxRuns)]
  {
  }

  /** One call to record a run, with this id and limit, takes the place of all others behind the other actions. */
  lemma BoundIsSet(a: Automation, id: Id, maxRuns: int)
    ensures
      var b := SetBound(id, maxRuns)(a);
      && b.Some? && ChangesOnly(a, b.value, {"actions"})
      && var before, after := Section(a, "actions"), Section(b.value, "actions");
         && Filter(after, IsOtherAction) == Filter(before, IsOtherAction)
         && after != [] && Filter(after, IsRecordRun) == [after[|after| - 1]]
         && Get(after[|after| - 1].fields, "data") == Obj(map["automation_id" := Str(id), "max_runs" := Int(maxRuns)])
  {
    SetActions(a, id, maxRuns);
    OnlyRecordRun(Filter(Section(a, "actions"), IsOtherAction), RecordRunCall(id, maxRuns));
  }

  /** The new actions stand between a leading delay and the lifecycle calls, and no other old action is left. */
  lemma ActionsAreReplaced(a: Automation, newActions: seq<Value>)
    ensures
      var b := ReplaceUserActions(newActions)(a);
      && b.Some? && ChangesOnly(a, b.value, {"actions"})
      && var before, after := Section(a, "actions"), Section(b.value, "actions");
         var lead := |after| - |newActions| - |Filter(before, IsLifecycleCall)|;
         && lead == (if before != [] && before[0].Obj? && "delay" in before[0].fields then 1 else 0)
         && after[..lead] == before[..lead] && after[lead..][..|newActions|] == newActions
         && after[lead..][|newActions|..] == Filter(before, IsLifecycleCall)
  {
    var before := Section(a, "actions");
    var after := DelayOf(before) + newActions + Filter(before, IsLifecycleCall);
    assert ReplaceUserActions(newActions)(a).value["actions"] == List(after);
    assert after[|DelayOf(before)|..] == newActions + Filter(before, IsLifecycleCall);
  }

  lemma SectionIsReplaced(a: Automation, section: string, values: seq<Value>)
    ensures
      var b := ReplaceSection(section, values)(a);
      && b.Some? && ChangesOnly(a, b.value, {section}) && Section(b.value, section) == values
      && (section in b.value <==> section != "conditions" || values != [])
  {
  }

  /** Exactly the candidates are replaced, each where it stood. */
  predicate ReplacesOnly(before: seq<Value>, after: seq<Value>, p: Value -> bool, replacement: Value) {
    |after| == |before| && forall i :: 0 <= i < |before| ==> after[i] == if p(before[i]) then replacement else before[i]
  }

  lemma {:induction false} OnlyOneIsReplaced(before: seq<Value>, p: Value -> bool, i: nat, replacement: Value)
    requires OnlyIndex(before, p) == Some(i)
    ensures ReplacesOnly(before, before[i := replacement], p, replacement)
  {
    if p(before[0]) {
      assert forall v :: v in before[1..] ==> v !in Filter(before[1..], p);
      assert forall k :: 1 <= k < |before| ==> before[k] in before[1..];
    } else {
      OnlyOneIsReplaced(before[1..], p, i - 1, replacement);
      assert before[i := replacement][1..] == before[1..][i - 1 := replacement];
      assert forall k :: 1 <= k < |before| ==> before[k] == before[1..][k - 1];
    }
  }

  /** Moving a schedule is refused exactly when its trigger or its guard is not unique. */
  lemma MovedExactlyWhenUnique(a: Automation, at: string, template: string, texts: Texts)
    ensures MoveSchedule(at, template, texts)(a).Some? <==>
              && |Filter(Section(a, "triggers"), IsTimeTrigger)| == 1
              && |Filter(Section(a, "conditions"), MentionsDate(texts))| == 1
  {
    assert OnlyIndex(Section(a, "triggers"), IsTimeTrigger).Some? <==> |Filter(Section(a, "triggers"), IsTimeTrigger)| == 1;
  }

  /** Otherwise just these two are replaced. */
  lemma ScheduleIsMoved(a: Automation, at: string, template: string, texts: Texts)
    requires MoveSchedule(at, template, texts)(a).Some?
    ensures
      var b := MoveSchedule(at, template, texts)(a).value;
      && ChangesOnly(a, b, {"triggers", "conditions"})
      && ReplacesOnly(Section(a, "triggers"), Section(b, "triggers"), IsTimeTrigger,
                      Obj(map["trigger" := Str("time"), "at" := Str(at)]))
      && ReplacesOnly(Section(a, "conditions"), Section(b, "conditions"), MentionsDate(texts),
                      Obj(map["condition" := Str("template"), "value_template" := Str(template)]))
  {
    var triggers, conditions := Section(a, "triggers"), Section(a, "conditions");
    var time, guard := OnlyIndex(triggers, IsTimeTrigger).value, OnlyIndex(conditions, MentionsDate(texts)).value;
    OnlyOneIsReplaced(triggers, IsTimeTrigger, time, TimeTrigger(at));
    OnlyOneIsReplaced(conditions, MentionsDate(texts), guard, DateGuard(template));
    ScheduleChangesOnly(a, triggers[time := TimeTrigger(at)], conditions[guard := DateGuard(template)]);
  }

  lemma ScheduleChangesOnly(a: Automation, triggers: seq<Value>, conditions: seq<Value>)
    ensures ChangesOnly(a, WithSchedule(a, triggers, conditions), {"triggers", "conditions"})
  {
  }

  // ----- edits of a list --------------------------------------------------------------

  /** The list with every automation of that id edited; none as soon as one edit is refused. */
  function EditMatching(automations: seq<Automation>, id: Id, edit: Edit): (r: Option<seq<Automation>>)
    ensures r.Some? ==> |r.value| == |automations|
  {
    if automations == [] then Some([])
    else
      var init, last := automations[..|automations| - 1], automations[|automations| - 1];
      match EditMatching(init, id, edit)
      case None => None
      case Some(edited) =>
        if !HasId(last, id) then Some(edited + [last])
        else
          match edit(last)
          case None => None
          case Some(replacement) => Some(edited + [replacement])
  }

  /** Every automation of that id is edited where it stands, and no other has changed. */
  predicate EditsInPlace(before: seq<Automation>, after: seq<Automation>, id: Id, edit: Edit) {
    && |after| == |before|
    && forall i :: 0 <= i < |before| ==> if HasId(before[i], id) then edit(before[i]) == Some(after[i]) else after[i] == before[i]
  }

  lemma {:induction false} EditMatchingExactly(automations: seq<Automation>, id: Id, edit: Edit)
    ensures
      var updated := EditMatching(automations, id, edit);
      && (updated.Some? <==> forall a :: a in automations && HasId(a, id) ==> edit(a).Some?)
      && (updated.Some? ==> EditsInPlace(automations, updated.value, id, edit))
  {
    if automations != [] {
      var n := |automations| - 1;
      EditMatchingExactly(automations[..n], id, edit);
      assert forall a :: a in automations <==> a in automations[..n] || a == automations[n];
    }
  }

  predicate Present(automations: seq<Automation>, id: Id) {
    exists a :: a in automations && HasId(a, id)
  }

  /** The append loop every edit runs through the snapshot. */
  method EditAll(automations: seq<Automation>, id: Id, edit: Edit)
    returns (found: bool, updated: Option<seq<Automation>>)
    ensures updated == EditMatching(automations, id, edit)
    ensures updated.Some? ==> (found <==> Present(automations, id))
  {
    found := false;
    var result: seq<Automation> := [];
    for i := 0 to |automations|
      invariant EditMatching(automations[..i], id, edit) == Some(result)
      invariant found <==> Present(automations[..i], id)
    {
      var automation := automations[i];
      assert automations[..i + 1][..i] == automations[..i];
      assert automations[..i + 1] == automations[..i] + [automation];
      if !HasId(automation, id) {
        result := result + [automation];
        continue;
      }
      found := true;
      match edit(automation)
      case None =>
        EditRefused(automations, id, edit, i + 1);
        return true, None;
      case Some(replacement) =>
        result := result + [replacement];
    }
    assert automations[..|automations|] == automations;
    return found, Some(result);
  }

  lemma EditRefused(automations: seq<Automation>, id: Id, edit: Edit, n: nat)
    requires n <= |automations| && EditMatching(automations[..n], id, edit) == None
    ensures EditMatching(automations, id, edit) == None
    decreases |automations| - n
  {
    if n == |automations| {
      assert automations[..n] == automations;
    } else {
      assert automations[..n + 1][..n] == automations[..n];
      EditRefused(automations, id, edit, n + 1);
    }
  }

  // ----- what reconciliation reads back ------------------------------------------

  /** The first automation with that id. */
  function Find(automations: seq<Automation>, id: Id): (r: Option<Automation>)
    ensures r.Some? <==> Present(automations, id)
    ensures r.Some? ==> r.value in automations && HasId(r.value, id)
  {
    if automations == [] then None
    else if HasId(automations[0], id) then Some(automations[0])
    else Find(automations[1..], id)
  }

  predicate CarriesData(v: Value) {
    IsRecordRun(v) && Get(v.fields, "data").Obj?
  }

  /** The limit the only one of these calls states, from 2 to 10. */
  function LimitIn(calls: seq<Value>): Option<int> {
    if |calls| != 1 || !CarriesData(calls[0]) then None
    else
      match Get(Get(calls[0].fields, "data").fields, "max_runs")
      case Int(n) => if 2 <= n <= 10 then Some(n) else None
      case _ => None
  }

  /** The run limit one automation spells out. */
  function BoundOf(automation: Automation): Option<int> {
    LimitIn(Filter(Section(automation, "actions"), CarriesData))
  }

  function MaxRunsFromYaml(automations: seq<Automation>, id: Id): Option<int> {
    match Find(automations, id)
    case None => None
    case Some(automation) => BoundOf(automation)
  }

  /** The due time one automation spells out, in the zone of the value it replaces. */
  function DueTimeOf(automation: Automation, previous: Stamp, texts: Texts): Option<Stamp> {
    var times := Filter(Section(automation, "triggers"), IsTimeTrigger);
    var guards := Filter(Section(automation, "conditions"), HasGuardDate(texts));
    if |times| != 1 || |guards| != 1 || times[0] !in times || guards[0] !in guards then None
    else
      match texts.moment(texts.guardDate(TemplateText(guards[0])).value, Get(times[0].fields, "at"))
      case None => None
      case Some(stamp) => Some(if previous.zone.Some? then stamp.(zone := previous.zone) else stamp)
  }

  function ScheduledForFromYaml(automations: seq<Automation>, id: Id, previous: Option<Stamp>, texts: Texts)
    : Option<Stamp>
  {
    if previous == None then None
    else
      match Find(automations, id)
      case None => None
      case Some(automation) => DueTimeOf(automation, previous.value, texts)
  }

  /** The limit is read exactly off an only record-run call with data, from 2 to 10. */
  lemma BoundExactly(automation: Automation, n: int)
    ensures
      var actions := Section(automation, "actions");
      BoundOf(automation) == Some(n) <==>
        && 2 <= n <= 10
        && exists i: nat :: SelectsOnly(actions, CarriesData, i) && Get(Get(actions[i].fields, "data").fields, "max_runs") == Int(n)
  {
    OnlySelected(Section(automation, "actions"), CarriesData);
  }

  /** What is selected alone is the element in its place. */
  lemma OnlySelected(values: seq<Value>, p: Value -> bool)
    ensures |Filter(values, p)| == 1 <==> exists i: nat :: SelectsOnly(values, p, i)
    ensures forall i: nat :: SelectsOnly(values, p, i) ==> Filter(values, p) == [values[i]]
  {
    OneSelected(values, p);
    forall i: nat | SelectsOnly(values, p, i)
      ensures Filter(values, p) == [values[i]]
    {
      var only := Filter(values, p);
      assert only[0] in only && values[i] in values;
    }
  }

  /** The due time is read exactly off an only time trigger and an only date guard, if they make a moment. */
  lemma DueExactly(automation: Automation, previous: Stamp, texts: Texts, i: nat, j: nat)
    requires SelectsOnly(Section(automation, "triggers"), IsTimeTrigger, i)
    requires SelectsOnly(Section(automation, "conditions"), HasGuardDate(texts), j)
    ensures
      var time, guard := Section(automation, "triggers")[i], Section(automation, "conditions")[j];
      DueTimeOf(automation, previous, texts) ==
        match texts.moment(texts.guardDate(TemplateText(guard)).value, Get(time.fields, "at"))
        case None => None
        case Some(stamp) => Some(if previous.zone.Some? then stamp.(zone := previous.zone) else stamp)
  {
    OnlySelected(Section(automation, "triggers"), IsTimeTrigger);
    OnlySelected(Section(automation, "conditions"), HasGuardDate(texts));
    UniqueDueTime(automation, Section(automation, "triggers")[i], Section(automation, "conditions")[j], previous, texts);
  }

  /** Without these there is none. */
  lemma NothingDue(automation: Automation, previous: Stamp, texts: Texts)
    requires (forall i: nat :: !SelectsOnly(Section(automation, "triggers"), IsTimeTrigger, i))
             || (forall j: nat :: !SelectsOnly(Section(automation, "conditions"), HasGuardDate(texts), j))
    ensures DueTimeOf(automation, previous, texts) == None
  {
    OnlySelected(Section(automation, "triggers"), IsTimeTrigger);
    OnlySelected(Section(automation, "conditions"), HasGuardDate(texts));
  }

  // ----- edits and read-back agree -------------------------------------------------

  /** The edit accepts every automation and leaves its id alone. */
  ghost predicate KeepsId(edit: Edit) {
    forall a :: edit(a).Some? && Get(edit(a).value, "id") == Get(a, "id")
  }

  /** Editing keeps ids apart: other automations are found unedited, the edited one is found edited. */
  lemma {:induction false} FindAfterEdit(automations: seq<Automation>, id: Id, edit: Edit, other: Id)
    requires KeepsId(edit)
    ensures
      var updated := EditMatching(automations, id, edit);
      var found := Find(automations, other);
      && updated.Some?
      && Find(updated.value, other) == if other == id && found.Some? then edit(found.value) else found
  {
    if automations != [] {
      var n := |automations| - 1;
      var init, last := automations[..n], automations[n];
      FindAfterEdit(init, id, edit, other);
      FindAppend(init, last, other);
      assert automations == init + [last];
      var edited := EditMatching(init, id, edit).value;
      assert edit(last).Some?;
      FindAppend(edited, if HasId(last, id) then edit(last).value else last, other);
    }
  }

  lemma FindAppend(automations: seq<Automation>, last: Automation, id: Id)
    ensures Find(automations + [last], id) ==
            if Find(automations, id).Some? then Find(automations, id)
            else if HasId(last, id) then Some(last) else None
  {
    if automations == [] {
      assert automations + [last] == [last];
    } else {
      assert (automations + [last])[1..] == automations[1..] + [last];
      FindAppend(automations[1..], last, id);
    }
  }

  /** A limit that was set is the limit reconciliation derives, and no other automation's limit moves. */
  lemma BoundReadsBack(automations: seq<Automation>, id: Id, maxRuns: int, other: Id)
    requires 2 <= maxRuns <= 10 && Present(automations, id)
    ensures
      var updated := EditMatching(automations, id, SetBound(id, maxRuns));
      && updated.Some?
      && MaxRunsFromYaml(updated.value, other) ==
         if other == id then Some(maxRuns) else MaxRunsFromYaml(automations, other)
  {
    FindAfterEdit(automations, id, SetBound(id, maxRuns), other);
    BoundOfEdited(Find(automations, id).value, id, maxRuns);
  }

  lemma RecordRunCallStates(id: Id, maxRuns: int)
    requires 2 <= maxRuns <= 10
    ensures CarriesData(RecordRunCall(id, maxRuns)) && LimitIn([RecordRunCall(id, maxRuns)]) == Some(maxRuns)
  {
  }

  lemma OnlyCallLeft(kept: seq<Value>, call: Value)
    requires (forall v :: v in kept ==> !CarriesData(v)) && CarriesData(call)
    ensures Filter(kept + [call], CarriesData) == [call]
  {
    FilterAppend(kept, [call], CarriesData);
    FilterNone(kept, CarriesData);
    FilterAll([call], CarriesData);
  }

  lemma BoundOfEdited(automation: Automation, id: Id, maxRuns: int)
    requires 2 <= maxRuns <= 10
    ensures BoundOf(SetBound(id, maxRuns)(automation).value) == Some(maxRuns)
  {
    var kept := Filter(Section(automation, "actions"), IsOtherAction);
    RecordRunCallStates(id, maxRuns);
    OnlyCallLeft(kept, RecordRunCall(id, maxRuns));
    assert SetBound(id, maxRuns)(automation).value["actions"] == List(kept + [RecordRunCall(id, maxRuns)]);
  }

  /**
   New actions keep the limit of these ones: they do not state one where there
   was none, and where there was one they record no runs, and the call that
   states it is not kept a second time as a leading delay.
   */
  predicate KeepsLimit(existing: seq<Value>, newActions: seq<Value>) {
    var calls, added := Filter(existing, CarriesData), Filter(newActions, CarriesData);
    if calls == [] then LimitIn(added) == None
    else LimitIn(calls) == None || (added == [] && (DelayOf(existing) == [] || !CarriesData(existing[0])))
  }

  /** Replacing the user actions keeps the derived limit exactly under that condition, and never moves another automation's. */
  lemma UserActionsKeepBound(automations: seq<Automation>, id: Id, newActions: seq<Value>, other: Id)
    ensures
      var updated := EditMatching(automations, id, ReplaceUserActions(newActions));
      && updated.Some?
      && (MaxRunsFromYaml(updated.value, other) == MaxRunsFromYaml(automations, other) <==>
            (other == id && Present(automations, id) ==> KeepsLimit(Section(Find(automations, id).value, "actions"), newActions)))
  {
    FindAfterEdit(automations, id, ReplaceUserActions(newActions), other);
    if other == id && Present(automations, id) {
      BoundOfReplaced(Find(automations, id).value, newActions);
    }
  }

  /** More calls before these keep their limit only if these state none, or there are no more. */
  lemma LimitWithMore(more: seq<Value>, calls: seq<Value>)
    requires forall v :: v in more + calls ==> CarriesData(v)
    ensures LimitIn(more + calls) == LimitIn(calls) <==>
            if calls == [] then LimitIn(more) == None else LimitIn(calls) == None || more == []
  {
    if calls == [] {
      assert more + calls == more;
    } else if more == [] {
      assert more + calls == calls;
    }
  }

  lemma BoundOfReplaced(automation: Automation, newActions: seq<Value>)
    ensures BoundOf(ReplaceUserActions(newActions)(automation).value) == BoundOf(automation) <==>
            KeepsLimit(Section(automation, "actions"), newActions)
  {
    var existing := Section(automation, "actions");
    var edited := ReplaceUserActions(newActions)(automation).value;
    assert edited["actions"] == List(DelayOf(existing) + newActions + Filter(existing, IsLifecycleCall));
    CallsAfter(existing, newActions);
    LimitWithMore(Filter(DelayOf(existing), CarriesData) + Filter(newActions, CarriesData), Filter(existing, CarriesData));
    DelayedCallIsKept(existing);
  }

  lemma DelayedCallIsKept(existing: seq<Value>)
    ensures Filter(existing, CarriesData) == [] ==> Filter(DelayOf(existing), CarriesData) == []
    ensures Filter(DelayOf(existing), CarriesData) == [] <==> DelayOf(existing) == [] || !CarriesData(existing[0])
  {
    if DelayOf(existing) != [] && CarriesData(existing[0]) {
      assert existing[0] in Filter(existing, CarriesData);
    }
  }

  lemma CallsAfter(existing: seq<Value>, newActions: seq<Value>)
    ensures Filter(DelayOf(existing) + newActions + Filter(existing, IsLifecycleCall), CarriesData) ==
            Filter(DelayOf(existing), CarriesData) + Filter(newActions, CarriesData) + Filter(existing, CarriesData)
    ensures Filter(DelayOf(existing), CarriesData) == if DelayOf(existing) != [] && CarriesData(existing[0]) then existing[..1] else []
  {
    FilterAppend(DelayOf(existing) + newActions, Filter(existing, IsLifecycleCall), CarriesData);
    FilterAppend(DelayOf(existing), newActions, CarriesData);
    FilterTwice(existing, IsLifecycleCall, CarriesData);
  }

  /** A record-run call that leads the actions and has a delay is doubled, and the limit it states is lost. */
  lemma DelayedCallLosesBound(limit: int, newAction: Value)
    requires 2 <= limit <= 10 && !CarriesData(newAction)
    ensures
      var call := Obj(map["action" := Str(RECORD_RUN_ACTION), "data" := Obj(map["max_runs" := Int(limit)]), "delay" := Str("1")]);
      var automation := map["id" := Str("a"), "actions" := List([call])];
      && BoundOf(automation) == Some(limit)
      && BoundOf(ReplaceUserActions([newAction])(automation).value) == None
  {
    var call := Obj(map["action" := Str(RECORD_RUN_ACTION), "data" := Obj(map["max_runs" := Int(limit)]), "delay" := Str("1")]);
    var automation := map["id" := Str("a"), "actions" := List([call])];
    assert Section(automation, "actions") == [call] && CarriesData(call);
    FilterAll([call], CarriesData);
    BoundOfReplaced(automation, [newAction]);
    CallsAfter([call], [newAction]);
  }

  /**
   A schedule that was moved is the due time reconciliation derives, in the
   zone of the value it replaces, when the text library recognises the guard
   that was written and recognises no other date guard.
   */
  lemma ScheduleReadsBack(automation: Automation, at: string, template: string, texts: Texts, date: string, previous: Stamp)
    requires MoveSchedule(at, template, texts)(automation).Some?
    requires texts.guardDate(template) == Some(date)
    requires forall text :: texts.guardDate(text).Some? ==> texts.mentionsDate(text)
    ensures
      DueTimeOf(MoveSchedule(at, template, texts)(automation).value, previous, texts) ==
        match texts.moment(date, Str(at))
        case None => None
        case Some(stamp) => Some(if previous.zone.Some? then stamp.(zone := previous.zone) else stamp)
  {
    var triggers, conditions := Section(automation, "triggers"), Section(automation, "conditions");
    var time := OnlyIndex(triggers, IsTimeTrigger).value;
    var guard := OnlyIndex(conditions, MentionsDate(texts)).value;
    MovedFilters(triggers, conditions, time, guard, at, template, texts);
    var moved := WithSchedule(automation, triggers[time := TimeTrigger(at)], conditions[guard := DateGuard(template)]);
    assert MoveSchedule(at, template, texts)(automation) == Some(moved);
    UniqueDueTime(moved, TimeTrigger(at), DateGuard(template), previous, texts);
  }

  lemma MovedFilters(triggers: seq<Value>, conditions: seq<Value>, time: nat, guard: nat, at: string, template: string, texts: Texts)
    requires OnlyIndex(triggers, IsTimeTrigger) == Some(time)
    requires OnlyIndex(conditions, MentionsDate(texts)) == Some(guard)
    requires texts.guardDate(template).Some?
    requires forall text :: texts.guardDate(text).Some? ==> texts.mentionsDate(text)
    ensures Filter(triggers[time := TimeTrigger(at)], IsTimeTrigger) == [TimeTrigger(at)]
    ensures Filter(conditions[guard := DateGuard(template)], HasGuardDate(texts)) == [DateGuard(template)]
  {
    ReplaceOnly(triggers, IsTimeTrigger, IsTimeTrigger, time, TimeTrigger(at));
    forall v | HasGuardDate(texts)(v)
      ensures MentionsDate(texts)(v)
    {
      assert texts.guardDate(TemplateText(v)).Some?;
    }
    ReplaceOnly(conditions, MentionsDate(texts), HasGuardDate(texts), guard, DateGuard(template));
  }

  lemma UniqueDueTime(automation: Automation, trigger: Value, guard: Value, previous: Stamp, texts: Texts)
    requires Filter(Section(automation, "triggers"), IsTimeTrigger) == [trigger]
    requires Filter(Section(automation, "conditions"), HasGuardDate(texts)) == [guard]
    requires IsTimeTrigger(trigger) && HasGuardDate(texts)(guard)
    ensures
      DueTimeOf(automation, previous, texts) ==
        match texts.moment(texts.guardDate(TemplateText(guard)).value, Get(trigger.fields, "at"))
        case None => None
        case Some(stamp) => Some(if previous.zone.Some? then stamp.(zone := previous.zone) else stamp)
  {
  }
}
