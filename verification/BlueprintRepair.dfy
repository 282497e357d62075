/** The blueprint repair of scripts/smoke_neoeats_real_llm.py, over all steps. */
module BlueprintRepair {
  import opened BlueprintSteps
  import opened Options
  import opened Strings

  // ---------- all steps ----------

  function Views(show: Printer, entries: seq<Entry>): (views: seq<View>)
    ensures |views| == |entries|
  {
    seq(|entries|, i requires 0 <= i < |entries| =>
      if entries[i].Dict? then ViewOf(show, entries[i].step, i) else View("", "", Other))
  }

  function FixEntry(show: Printer, entry: Entry, view: View): Entry {
    if entry.Dict? then Dict(Fix(show, entry.step, view)) else entry
  }

  function FixAll(show: Printer, entries: seq<Entry>, views: seq<View>): (fixed: seq<Entry>)
    requires |entries| == |views|
    ensures |fixed| == |entries|
  {
    seq(|entries|, i requires 0 <= i < |entries| => FixEntry(show, entries[i], views[i]))
  }

  predicate EntryFlag(show: Printer, entry: Entry, view: View) {
    entry.Dict? && Flag(show, entry.step, view)
  }

  predicate AnyFlag(show: Printer, entries: seq<Entry>, views: seq<View>)
    requires |entries| == |views|
  {
    exists i | 0 <= i < |entries| :: EntryFlag(show, entries[i], views[i])
  }

  /** The last step with the role, or -1. */
  function Last(views: seq<View>, role: Role): (i: int)
    ensures -1 <= i < |views|
    ensures i >= 0 ==> views[i].role == role
  {
    if views == [] then -1
    else if views[|views| - 1].role == role then |views| - 1
    else Last(views[..|views| - 1], role)
  }

  function IdOf(views: seq<View>, role: Role): string {
    if Last(views, role) < 0 then "" else views[Last(views, role)].id
  }

  predicate AllRoles(views: seq<View>) {
    IdOf(views, Normalize) != "" && IdOf(views, Generate) != "" && IdOf(views, Validate) != ""
  }

  // ---------- the inputs each role needs ----------

  function From(source: string): Json {
    Obj(map["from" := Str(source)])
  }

  function FromOr(source: string, default: Json): Json {
    Obj(map["from" := Str(source), "default" := default])
  }

  function AddMissing(inputs: Fields, name: string, value: Json): Fields {
    if name in inputs then inputs else inputs[name := value]
  }

  function Ingredients(inputs: Fields): Json {
    if && "pantry" in inputs && inputs["pantry"].Obj? && "from" in inputs["pantry"].fields
       && Truthy(inputs["pantry"].fields["from"])
    then inputs["pantry"]
    else FromOr("payload.ingredients", List([]))
  }

  function FillInputs(role: Role, inputs: Fields, normalizeId: string, generateId: string): Fields {
    match role
    case Normalize =>
      var withIngredients := AddMissing(inputs, "ingredients", Ingredients(inputs));
      var withUser := AddMissing(withIngredients, "user_id", From("user_id"));
      AddMissing(withUser, "constraints", FromOr("payload.constraints", Obj(map[])))
    case Generate =>
      AddMissing(inputs, "normalized", From(normalizeId + ".normalized"))
    case Validate =>
      var withRecipe := AddMissing(inputs, "recipe", From(generateId + ".recipe"));
      AddMissing(withRecipe, "constraints", FromOr(normalizeId + ".normalized.constraints", Obj(map[])))
    case Other => inputs
  }

  /** An input the role needs is missing. */
  predicate Lacks(role: Role, inputs: Fields) {
    match role
    case Normalize => "ingredients" !in inputs || "user_id" !in inputs || "constraints" !in inputs
    case Generate => "normalized" !in inputs
    case Validate => "recipe" !in inputs || "constraints" !in inputs
    case Other => false
  }

  lemma FillKeepsInputs(role: Role, inputs: Fields, normalizeId: string, generateId: string)
    ensures var filled := FillInputs(role, inputs, normalizeId, generateId);
      forall name | name in inputs :: name in filled && filled[name] == inputs[name]
  {
  }

  lemma FilledLacksNothing(role: Role, inputs: Fields, normalizeId: string, generateId: string)
    ensures !Lacks(role, FillInputs(role, inputs, normalizeId, generateId))
  {
  }

  lemma FillKeepsAllIffNothingLacks(role: Role, inputs: Fields, normalizeId: string, generateId: string)
    ensures FillInputs(role, inputs, normalizeId, generateId) == inputs <==> !Lacks(role, inputs)
  {
    FilledLacksNothing(role, inputs, normalizeId, generateId);
  }

  function InputsOf(step: Step): Fields {
    if Get(step.inputs).Obj? then Get(step.inputs).fields else map[]
  }

  function FillStep(step: Step, role: Role, normalizeId: string, generateId: string): Step {
    step.(inputs := Some(Obj(FillInputs(role, InputsOf(step), normalizeId, generateId))))
  }

  // ---------- the table of steps by id ----------

  type Table = map<string, Step>

  const MISSING := Step(None, None, None, None, map[])

  function Lookup(table: Table, id: string): Step {
    if id in table then table[id] else MISSING
  }

  /** Steps without a usable id are left out, and of several with one id the last is taken. */
  function IndexSteps(show: Printer, entries: seq<Entry>): Table {
    if entries == [] then map[]
    else
      var table, last := IndexSteps(show, entries[..|entries| - 1]), entries[|entries| - 1];
      if last.Dict? && Strip(Text(show, Get(last.step.id))) != ""
      then table[Printed(show, Get(last.step.id)) := last.step]
      else table
  }

  function FillOne(table: Table, id: string, role: Role, normalizeId: string, generateId: string): Table {
    table[id := FillStep(Lookup(table, id), role, normalizeId, generateId)]
  }

  function FillTable(table: Table, normalizeId: string, generateId: string, validateId: string): Table {
    var normalized := FillOne(table, normalizeId, Normalize, normalizeId, generateId);
    var generated := FillOne(normalized, generateId, Generate, normalizeId, generateId);
    FillOne(generated, validateId, Validate, normalizeId, generateId)
  }

  predicate TableLacks(table: Table, normalizeId: string, generateId: string, validateId: string) {
    var normalized := FillOne(table, normalizeId, Normalize, normalizeId, generateId);
    var generated := FillOne(normalized, generateId, Generate, normalizeId, generateId);
    || Lacks(Normalize, InputsOf(Lookup(table, normalizeId)))
    || Lacks(Generate, InputsOf(Lookup(normalized, generateId)))
    || Lacks(Validate, InputsOf(Lookup(generated, validateId)))
  }

  function RebuildEntry(show: Printer, entry: Entry, table: Table): Entry {
    if entry.Dict? && Printed(show, Get(entry.step.id)) in table
    then Dict(table[Printed(show, Get(entry.step.id))])
    else entry
  }

  function Rebuild(show: Printer, entries: seq<Entry>, table: Table): (rebuilt: seq<Entry>)
    ensures |rebuilt| == |entries|
  {
    seq(|entries|, i requires 0 <= i < |entries| => RebuildEntry(show, entries[i], table))
  }

  // ---------- the whole repair ----------

  function ViewsOf(show: Printer, blueprint: Blueprint): (views: seq<View>)
    ensures blueprint.steps.Listed? ==> |views| == |blueprint.steps.entries|
  {
    if blueprint.steps.Listed? then Views(show, blueprint.steps.entries) else []
  }

  function FixVersion(show: Printer, version: Option<Json>): Option<Json> {
    if Text(show, Get(version)) != "v1" then Some(Str("v1")) else version
  }

  function RepairSteps(show: Printer, entries: seq<Entry>, views: seq<View>): seq<Entry>
    requires |entries| == |views|
  {
    var fixed := FixAll(show, entries, views);
    if AllRoles(views)
    then Rebuild(show, fixed,
                 FillTable(IndexSteps(show, fixed), IdOf(views, Normalize), IdOf(views, Generate),
                           IdOf(views, Validate)))
    else fixed
  }

  predicate StepsFlag(show: Printer, entries: seq<Entry>, views: seq<View>)
    requires |entries| == |views|
  {
    || AnyFlag(show, entries, views)
    || (AllRoles(views) &&
        TableLacks(IndexSteps(show, FixAll(show, entries, views)), IdOf(views, Normalize), IdOf(views, Generate),
                   IdOf(views, Validate)))
  }

  /** What the repair returns for a blueprint whose steps are seen so. */
  function Repaired(show: Printer, blueprint: Blueprint, views: seq<View>): (Blueprint, bool)
    requires blueprint.steps.Listed? ==> |views| == |blueprint.steps.entries|
  {
    var version := FixVersion(show, blueprint.version);
    var changed := Text(show, Get(blueprint.version)) != "v1";
    if blueprint.steps.NotAList? then (blueprint.(version := version), changed)
    else (blueprint.(version := version, steps := Listed(RepairSteps(show, blueprint.steps.entries, views))),
          changed || StepsFlag(show, blueprint.steps.entries, views))
  }

  // ---------- the function itself ----------

  /** The first loop over the steps. */
  method FixSteps(show: Printer, entries: seq<Entry>)
    returns (steps: seq<Entry>, changed: bool, normalizeId: string, generateId: string, validateId: string)
    ensures var views := Views(show, entries);
      && steps == FixAll(show, entries, views) && changed == AnyFlag(show, entries, views)
      && normalizeId == IdOf(views, Normalize) && generateId == IdOf(views, Generate)
      && validateId == IdOf(views, Validate)
  {
    ghost var views := Views(show, entries);
    steps, changed, normalizeId, generateId, validateId := [], false, "", "", "";
    for index := 0 to |entries|
      invariant steps == FixAll(show, entries[..index], views[..index])
      invariant changed == AnyFlag(show, entries[..index], views[..index])
      invariant normalizeId == IdOf(views[..index], Normalize)
      invariant generateId == IdOf(views[..index], Generate)
      invariant validateId == IdOf(views[..index], Validate)
    {
      var entry, flagged, role, id := FixOne(show, entries[index], index);
      OneMoreStep(show, entries, views, index);
      OneMoreRole(views, index, Normalize);
      OneMoreRole(views, index, Generate);
      OneMoreRole(views, index, Validate);
      steps, changed := steps + [entry], changed || flagged;
      match role {
        case Normalize => normalizeId := id;
        case Generate => generateId := id;
        case Validate => validateId := id;
        case Other =>
      }
    }
    assert entries[..|entries|] == entries && views[..|entries|] == views;
  }

  lemma OneMoreStep(show: Printer, entries: seq<Entry>, views: seq<View>, i: nat)
    requires i < |entries| == |views|
    ensures FixAll(show, entries[..i + 1], views[..i + 1])
            == FixAll(show, entries[..i], views[..i]) + [FixEntry(show, entries[i], views[i])]
    ensures AnyFlag(show, entries[..i + 1], views[..i + 1])
            <==> AnyFlag(show, entries[..i], views[..i]) || EntryFlag(show, entries[i], views[i])
  {
    assert views[..i + 1][..i] == views[..i];
    assert entries[..i + 1][..i] == entries[..i];
    assert forall k | 0 <= k < i :: entries[..i + 1][k] == entries[..i][k] && views[..i + 1][k] == views[..i][k];
    assert entries[..i + 1][i] == entries[i] && views[..i + 1][i] == views[i];
  }

  lemma OneMoreRole(views: seq<View>, i: nat, role: Role)
    requires i < |views|
    ensures IdOf(views[..i + 1], role) == if views[i].role == role then views[i].id else IdOf(views[..i], role)
  {
    assert views[..i + 1][..i] == views[..i];
  }

  /** The body of the first loop. */
  method FixOne(show: Printer, entry: Entry, index: nat) returns (fixed: Entry, changed: bool, role: Role, id: string)
    ensures var view := if entry.Dict? then ViewOf(show, entry.step, index) else View("", "", Other);
      fixed == FixEntry(show, entry, view) && changed == EntryFlag(show, entry, view) && role == view.role
          && id == view.id
  {
    if entry.NotADict? {
      return entry, false, Other, "";
    }
    var step := entry.step;
    id := StepId(show, Get(step.id), index);
    var block := BlockName(show, Get(step.block), Get(step.blockType));
    changed := false;
    if Text(show, Get(step.id)) != id {
      step := step.(id := Some(Str(id)));
      changed := true;
    }
    if Text(show, Get(step.block)) != block {
      step := step.(block := Some(Str(block)));
      changed := true;
    }
    if !Get(step.inputs).Obj? {
      step := step.(inputs := Some(Obj(map[])));
      changed := true;
    }
    role := RoleOf(block, id);
    if !role.Other? {
      step := step.(block := Some(Str(BlockOf(role))));
    }
    fixed := Dict(step);
  }

  /** The loop that lists the steps by id. */
  method IndexById(show: Printer, entries: seq<Entry>) returns (table: Table)
    ensures table == IndexSteps(show, entries)
  {
    table := map[];
    for i := 0 to |entries|
      invariant table == IndexSteps(show, entries[..i])
    {
      assert entries[..i + 1][..i] == entries[..i];
      if entries[i].Dict? && Strip(Text(show, Get(entries[i].step.id))) != "" {
        table := table[Printed(show, Get(entries[i].step.id)) := entries[i].step];
      }
    }
    assert entries[..|entries|] == entries;
  }

  /** The repair; a blueprint that is not a dictionary comes back empty. */
  method Repair(show: Printer, blueprint: Option<Blueprint>) returns (repaired: Blueprint, changed: bool)
    ensures blueprint.None? ==> repaired == Blueprint(None, NotAList(None), map[]) && !changed
    ensures blueprint.Some? ==> (repaired, changed) == Repaired(show, blueprint.value, ViewsOf(show, blueprint.value))
  {
    if blueprint.None? {
      return Blueprint(None, NotAList(None), map[]), false;
    }
    repaired, changed := blueprint.value, false;
    if Text(show, Get(repaired.version)) != "v1" {
      repaired := repaired.(version := Some(Str("v1")));
      changed := true;
    }
    if repaired.steps.NotAList? {
      return;
    }
    var steps, fixedSome, normalizeId, generateId, validateId := FixSteps(show, repaired.steps.entries);
    changed := changed || fixedSome;
    if normalizeId != "" && generateId != "" && validateId != "" {
      var table := IndexById(show, steps);
      changed := changed || TableLacks(table, normalizeId, generateId, validateId);
      steps := Rebuild(show, steps, FillTable(table, normalizeId, generateId, validateId));
    }
    repaired := repaired.(steps := Listed(steps));
  }
}
