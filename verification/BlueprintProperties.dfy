/** The blueprint repair as a whole: what is kept, what is reported. */
module BlueprintProperties {
  import opened BlueprintGeneral
  import opened BlueprintRepair
  import opened BlueprintSteps
  import opened BlueprintStepwise
  import opened Options
  import opened Strings

  // ---------- what a repair keeps ----------

  /** Non-dictionaries stay, other fields stay, and inputs that were there keep their values. */
  predicate Kept(before: Entry, after: Entry) {
    if before.NotADict? then after == before
    else
      && after.Dict? && after.step.others == before.step.others && after.step.blockType == before.step.blockType
      && Within(InputsOf(before.step), InputsOf(after.step))
  }

  lemma RepairedEntryIsKept(show: Printer, entries: seq<Entry>, views: seq<View>, i: nat)
    requires |entries| == |views| && i < |entries|
    ensures Kept(entries[i], FillEntry(FixAll(show, entries, views), views, i))
  {
    if entries[i].Dict? {
      FixKeepsInputs(show, entries[i].step, views[i]);
      FillKeepsInputs(views[i].role, InputsOf(entries[i].step), IdOf(views, Normalize), IdOf(views, Generate));
    }
  }

  lemma SeparateStepsAreKept(show: Printer, entries: seq<Entry>, views: seq<View>)
    requires Fitting(show, entries, views) && Separate(entries, views)
    ensures forall i | 0 <= i < |entries| :: Kept(entries[i], RepairSteps(show, entries, views)[i])
  {
    RepairIsStepwise(show, entries, views);
    forall i | 0 <= i < |entries|
      ensures Kept(entries[i], FillAll(FixAll(show, entries, views), views)[i])
    {
      RepairedEntryIsKept(show, entries, views, i);
    }
  }

  /** A step stays a step, and what is no dictionary stays what it is. */
  predicate SameKind(before: Entry, after: Entry) {
    (before.Dict? <==> after.Dict?) && (before.NotADict? ==> after == before)
  }

  /**
   The number of the steps and what is no dictionary always stay; and unless ids are shared or a
   role's id is blank, so does everything in the steps but ids, blocks and new inputs.
   */
  lemma RepairKeepsSteps(show: Printer, entries: seq<Entry>, views: seq<View>)
    requires Fitting(show, entries, views)
    ensures |RepairSteps(show, entries, views)| == |entries|
    ensures forall i | 0 <= i < |entries| :: SameKind(entries[i], RepairSteps(show, entries, views)[i])
    ensures Separate(entries, views) ==>
        forall i | 0 <= i < |entries| :: Kept(entries[i], RepairSteps(show, entries, views)[i])
  {
    forall i | 0 <= i < |entries|
      ensures SameKind(entries[i], RepairSteps(show, entries, views)[i])
    {
      RepairIsByHeirs(show, entries, views, i);
    }
    if Separate(entries, views) {
      SeparateStepsAreKept(show, entries, views);
    }
  }

  /** The step in place of this one has its other fields, its type and, with those of the roles, its inputs. */
  predicate PassedOn(views: seq<View>, before: Step, heir: Step, id: string) {
    && heir.others == before.others && heir.blockType == before.blockType
    && Within(InputsOf(before), InputsOf(Fill(views, heir, id)))
  }

  predicate EntryPassedOn(entries: seq<Entry>, views: seq<View>, i: nat)
    requires i < |entries| == |views|
  {
    entries[i].Dict? && Replaced(views, views[i].id) ==>
      PassedOn(views, entries[i].step, Heir(entries, views, views[i].id), views[i].id)
  }

  lemma EntryIsKeptIff(show: Printer, entries: seq<Entry>, views: seq<View>, i: nat)
    requires Fitting(show, entries, views) && i < |entries|
    ensures Kept(entries[i], RepairSteps(show, entries, views)[i]) <==> EntryPassedOn(entries, views, i)
  {
    RepairIsByHeirs(show, entries, views, i);
    if entries[i].Dict? {
      var id, fixed := views[i].id, FixAll(show, entries, views);
      FixKeepsInputs(show, entries[i].step, views[i]);
      HeirsOfFixedSteps(show, entries, views, id);
      FillDependsOnInputs(views, Heir(fixed, views, id), Heir(entries, views, id), id);
      FilledForGrows(Heir(fixed, views, id), id, IdOf(views, Normalize), IdOf(views, Generate), IdOf(views, Validate));
    }
  }

  /** For all blueprints: every step keeps what it had exactly when whatever takes its place has that too. */
  lemma StepsAreKeptIff(show: Printer, entries: seq<Entry>, views: seq<View>)
    requires Fitting(show, entries, views)
    ensures |RepairSteps(show, entries, views)| == |entries|
    ensures (forall i | 0 <= i < |entries| :: Kept(entries[i], RepairSteps(show, entries, views)[i]))
            <==> forall i | 0 <= i < |entries| :: EntryPassedOn(entries, views, i)
  {
    forall i | 0 <= i < |entries|
      ensures Kept(entries[i], RepairSteps(show, entries, views)[i]) <==> EntryPassedOn(entries, views, i)
    {
      EntryIsKeptIff(show, entries, views, i);
    }
  }

  /** The step has the id and the block of a role. */
  predicate Plays(show: Printer, entry: Entry, role: Role, id: string) {
    && entry.Dict? && entry.step.block == Some(Str(BlockOf(role)))
    && Truthy(Get(entry.step.id)) && Printed(show, Get(entry.step.id)) == id
  }

  /** The step filled for a role: its id, its block, and the inputs it had with those of the role. */
  lemma FilledRoleEntry(show: Printer, entry: Entry, view: View, normalizeId: string, generateId: string)
    requires entry.Dict? && Fits(show, entry.step, view) && !view.role.Other?
    ensures var after := FillStep(Fix(show, entry.step, view), view.role, normalizeId, generateId);
      Plays(show, Dict(after), view.role, view.id)
          && InputsOf(after) == FillInputs(view.role, InputsOf(entry.step), normalizeId, generateId)
  {
    FixTwice(show, entry.step, view);
    FixKeepsInputs(show, entry.step, view);
  }

  lemma FilledAt(show: Printer, entries: seq<Entry>, views: seq<View>, i: nat)
    requires |entries| == |views| && i < |entries| && entries[i].Dict? && IsFilled(views, i)
    ensures FillAll(FixAll(show, entries, views), views)[i]
            == Dict(FillStep(Fix(show, entries[i].step, views[i]), views[i].role, IdOf(views, Normalize),
                             IdOf(views, Generate)))
  {
    assert FixAll(show, entries, views)[i] == Dict(Fix(show, entries[i].step, views[i]));
  }

  lemma RoleStep(show: Printer, entries: seq<Entry>, views: seq<View>, role: Role)
    requires Fitting(show, entries, views) && Separate(entries, views) && AllRoles(views) && !role.Other?
    ensures var i, repaired := Last(views, role), RepairSteps(show, entries, views);
      && i >= 0 && entries[i].Dict? && Plays(show, repaired[i], role, views[i].id)
      && InputsOf(repaired[i].step)
          == FillInputs(role, InputsOf(entries[i].step), IdOf(views, Normalize), IdOf(views, Generate))
  {
    var i := Last(views, role);
    assert EntryFits(show, entries[i], views[i]);
    FilledRoleEntry(show, entries[i], views[i], IdOf(views, Normalize), IdOf(views, Generate));
    FilledAt(show, entries, views, i);
    RepairIsStepwise(show, entries, views);
  }

  /** The input is there: as it was, or else with this value. */
  predicate Holds(before: Fields, after: Fields, name: string, value: Json) {
    name in after && after[name] == if name in before then before[name] else value
  }

  lemma FilledInputsHold(inputs: Fields, n: string, g: string)
    ensures Holds(inputs, FillInputs(Generate, inputs, n, g), "normalized", From(n + ".normalized"))
    ensures Holds(inputs, FillInputs(Validate, inputs, n, g), "recipe", From(g + ".recipe"))
    ensures Holds(inputs, FillInputs(Validate, inputs, n, g), "constraints",
                  FromOr(n + ".normalized.constraints", Obj(map[])))
  {
  }

  /** A step of the blueprint has the input, and what was added for it names the step `target`, which plays `role`. */
  predicate Refers(show: Printer, before: Entry, repaired: seq<Entry>, source: int, name: string, value: Json,
                   target: int, role: Role, id: string) {
    && 0 <= source < |repaired| && 0 <= target < |repaired| && before.Dict? && repaired[source].Dict?
    && Holds(InputsOf(before.step), InputsOf(repaired[source].step), name, value)
    && Plays(show, repaired[target], role, id)
  }

  /**
   When all roles are there, what the repair adds to the generating and the validating step names
   the ids of steps that the repaired blueprint has, and these have the blocks of their roles.
   */
  lemma AddedReferencesNameStepsThatExist(show: Printer, entries: seq<Entry>, views: seq<View>)
    requires Fitting(show, entries, views) && Separate(entries, views) && AllRoles(views)
    ensures var repaired := RepairSteps(show, entries, views);
            var n, g, v := Last(views, Normalize), Last(views, Generate), Last(views, Validate);
      && n >= 0 && g >= 0 && v >= 0
      && Refers(show, entries[g], repaired, g, "normalized", From(views[n].id + ".normalized"), n, Normalize,
                views[n].id)
      && Refers(show, entries[v], repaired, v, "recipe", From(views[g].id + ".recipe"), g, Generate, views[g].id)
      && Refers(show, entries[v], repaired, v, "constraints",
                FromOr(views[n].id + ".normalized.constraints", Obj(map[])), n, Normalize, views[n].id)
  {
    RoleStep(show, entries, views, Normalize);
    RoleStep(show, entries, views, Generate);
    RoleStep(show, entries, views, Validate);
    FilledInputsHold(InputsOf(entries[Last(views, Generate)].step), IdOf(views, Normalize), IdOf(views, Generate));
    FilledInputsHold(InputsOf(entries[Last(views, Validate)].step), IdOf(views, Normalize), IdOf(views, Generate));
  }

  /** The entry is a step with this id. */
  predicate Bears(show: Printer, entry: Entry, id: string) {
    entry.Dict? && Truthy(Get(entry.step.id)) && Printed(show, Get(entry.step.id)) == id
  }

  /** Each step bears its id after the repair, except where the blank id of a role got lost. */
  lemma RepairedIdIs(show: Printer, entries: seq<Entry>, views: seq<View>, i: nat, id: string)
    requires Fitting(show, entries, views) && AllRoles(views) && i < |entries|
    ensures Bears(show, RepairSteps(show, entries, views)[i], id) <==>
              entries[i].Dict? && views[i].id == id && (Strip(id) != "" || !IsRoleId(views, id))
  {
    var fixed := FixAll(show, entries, views);
    RepairIsByHeirs(show, entries, views, i);
    FixedStepsCarryIds(show, entries, views);
    assert CarriesId(show, fixed[i], views[i]);
    if entries[i].Dict? && Replaced(views, views[i].id) {
      var own, n, g, v := views[i].id, IdOf(views, Normalize), IdOf(views, Generate), IdOf(views, Validate);
      FilledForGrows(Heir(fixed, views, own), own, n, g, v);
      if Strip(own) != "" {
        HeirIsTheLast(fixed, views, i);
        var j := LastWith(fixed, views, own);
        assert CarriesId(show, fixed[j], views[j]);
      }
    }
  }

  /** For all blueprints: a step bears a role's id after the repair exactly when that is not blank. */
  lemma RoleIdsSurviveIffNamed(show: Printer, entries: seq<Entry>, views: seq<View>, role: Role)
    requires Fitting(show, entries, views) && AllRoles(views) && !role.Other?
    ensures (exists i | 0 <= i < |entries| :: Bears(show, RepairSteps(show, entries, views)[i], IdOf(views, role)))
            <==> Strip(IdOf(views, role)) != ""
  {
    var id, last := IdOf(views, role), Last(views, role);
    assert EntryFits(show, entries[last], views[last]);
    RepairedIdIs(show, entries, views, last, id);
    forall i | 0 <= i < |entries|
      ensures Bears(show, RepairSteps(show, entries, views)[i], id) ==> Strip(id) != ""
    {
      RepairedIdIs(show, entries, views, i, id);
    }
  }

  /** Filling for a role leaves every input alone that is not one of the role's. */
  lemma OtherInputsStay(step: Step, role: Role, n: string, g: string, name: string)
    requires role.Normalize? ==> name != "ingredients" && name != "user_id" && name != "constraints"
    requires role.Generate? ==> name != "normalized"
    requires role.Validate? ==> name != "recipe" && name != "constraints"
    ensures var before, after := InputsOf(step), InputsOf(FillStep(step, role, n, g));
      (name in after <==> name in before) && (name in before ==> after[name] == before[name])
  {
  }

  lemma NamesDiffer()
    ensures "normalized" != "ingredients" && "normalized" != "user_id" && "normalized" != "constraints"
        && "normalized" != "recipe"
    ensures "recipe" != "ingredients" && "recipe" != "user_id" && "recipe" != "constraints"
        && "constraints" != "normalized"
  {
    assert |"normalized"| == 10 && |"ingredients"| == 11 && |"user_id"| == 7 && |"constraints"| == 11
        && |"recipe"| == 6;
  }

  lemma NormalizedHolds(step: Step, n: string, g: string, v: string)
    ensures Holds(InputsOf(step), InputsOf(FilledFor(step, g, n, g, v)), "normalized", From(n + ".normalized"))
  {
    NamesDiffer();
    var normalized := if g == n then FillStep(step, Normalize, n, g) else step;
    var generated := FillStep(normalized, Generate, n, g);
    OtherInputsStay(step, Normalize, n, g, "normalized");
    FilledInputsHold(InputsOf(normalized), n, g);
    OtherInputsStay(generated, Validate, n, g, "normalized");
  }

  lemma RecipeHolds(step: Step, n: string, g: string, v: string)
    ensures Holds(InputsOf(step), InputsOf(FilledFor(step, v, n, g, v)), "recipe", From(g + ".recipe"))
  {
    NamesDiffer();
    var normalized := if v == n then FillStep(step, Normalize, n, g) else step;
    var generated := if v == g then FillStep(normalized, Generate, n, g) else normalized;
    OtherInputsStay(step, Normalize, n, g, "recipe");
    OtherInputsStay(normalized, Generate, n, g, "recipe");
    FilledInputsHold(InputsOf(generated), n, g);
  }

  lemma ConstraintsHold(step: Step, n: string, g: string, v: string)
    requires v != n
    ensures Holds(InputsOf(step), InputsOf(FilledFor(step, v, n, g, v)), "constraints",
                  FromOr(n + ".normalized.constraints", Obj(map[])))
  {
    NamesDiffer();
    var generated := if v == g then FillStep(step, Generate, n, g) else step;
    OtherInputsStay(step, Generate, n, g, "constraints");
    FilledInputsHold(InputsOf(generated), n, g);
  }

  /**
   For all blueprints with all roles: a step with the id of the generating or the validating role
   has that role's inputs, the last step's of that id or else the added references to the ids of
   the other roles. Only an id that normalizes and validates gets its constraints from the payload.
   */
  lemma StepsReferToRoleIds(show: Printer, entries: seq<Entry>, views: seq<View>, i: nat)
    requires Fitting(show, entries, views) && AllRoles(views) && i < |entries| && entries[i].Dict?
    ensures var n, g, v := IdOf(views, Normalize), IdOf(views, Generate), IdOf(views, Validate);
            var repaired := RepairSteps(show, entries, views)[i];
            var id, before := views[i].id, InputsOf(Heir(entries, views, views[i].id));
      && repaired.Dict?
      && (id == g ==> Holds(before, InputsOf(repaired.step), "normalized", From(n + ".normalized")))
      && (id == v ==> Holds(before, InputsOf(repaired.step), "recipe", From(g + ".recipe")))
      && (id == v && v != n ==>
            Holds(before, InputsOf(repaired.step), "constraints", FromOr(n + ".normalized.constraints", Obj(map[]))))
  {
    var id, fixed := views[i].id, FixAll(show, entries, views);
    RepairIsByHeirs(show, entries, views, i);
    HeirsOfFixedSteps(show, entries, views, id);
    var heir, n, g, v := Heir(fixed, views, id), IdOf(views, Normalize), IdOf(views, Generate), IdOf(views, Validate);
    NormalizedHolds(heir, n, g, v);
    RecipeHolds(heir, n, g, v);
    if v != n {
      ConstraintsHold(heir, n, g, v);
    }
  }

  // ---------- what the repair reports ----------

  /**
   The blueprint comes back as it was exactly when the repair reports no change, no step's role gave
   it another block, and, if all three roles are there, steps that share an id are equal. So a silent
   change is always such a block or such a step, and every report is true.
   */
  lemma UnchangedIffReportedAndNotOverwritten(show: Printer, blueprint: Blueprint)
    ensures var views := ViewsOf(show, blueprint);
            var (repaired, changed) := Repaired(show, blueprint, views);
      repaired == blueprint <==>
      !changed && (blueprint.steps.Listed? ==>
        !AnyOverwritten(blueprint.steps.entries, views) && (AllRoles(views) ==> Agree(blueprint.steps.entries, views)))
  {
    if blueprint.steps.Listed? {
      TheViewsFit(show, blueprint.steps.entries);
      ViewsAreFaithful(show, blueprint.steps.entries);
      StepsStayIff(show, blueprint.steps.entries, ViewsOf(show, blueprint));
    }
  }

  lemma MixIsABlockOfItsOwn()
    ensures CanonicalBlockName("mix") == "mix"
  {
    PlainNamesStay("mix");
  }

  lemma NormalizeNamesItsRole()
    ensures RoleOf("mix", "normalize") == Normalize
  {
    PlainNamesStay("normalize");
  }

  lemma SilentView(show: Printer, step: Step)
    requires step.id == Some(Str("normalize")) && step.block == Some(Str("mix"))
    ensures ViewOf(show, step, 0) == View("normalize", "mix", Normalize)
  {
    MixIsABlockOfItsOwn();
    NormalizeNamesItsRole();
  }

  lemma OneStepIsNotAllRoles(view: View)
    ensures !AllRoles([view])
  {
    var role := if view.role.Normalize? then Generate else Normalize;
    assert Last([view], role) == Last([], role);
  }

  lemma SilentStep(show: Printer, step: Step, view: View)
    requires view == View("normalize", "mix", Normalize)
    requires step == Step(Some(Str("normalize")), Some(Str("mix")), None, Some(Obj(map[])), map[])
    ensures !StepsFlag(show, [Dict(step)], [view]) && AnyOverwritten([Dict(step)], [view])
  {
    OneStepIsNotAllRoles(view);
    assert !Flag(show, step, view);
    assert |NORMALIZE| != |"mix"|;
    assert EntryOverwritten([Dict(step)][0], [view][0]);
  }

  lemma OverwritingIsSilent(show: Printer, step: Step, blueprint: Blueprint)
    requires blueprint == Blueprint(Some(Str("v1")), Listed([Dict(step)]), map[])
    requires var views := [ViewOf(show, step, 0)];
      !StepsFlag(show, [Dict(step)], views) && AnyOverwritten([Dict(step)], views)
    ensures var (repaired, changed) := Repaired(show, blueprint, ViewsOf(show, blueprint));
      repaired != blueprint && !changed
  {
    assert ViewsOf(show, blueprint) == [ViewOf(show, step, 0)];
    UnchangedIffReportedAndNotOverwritten(show, blueprint);
  }

  /** A step called "normalize" with a block of its own is overwritten and nothing is reported. */
  lemma ChangeCanBeSilent(show: Printer)
    ensures var step := Step(Some(Str("normalize")), Some(Str("mix")), None, Some(Obj(map[])), map[]);
            var blueprint := Blueprint(Some(Str("v1")), Listed([Dict(step)]), map[]);
            var (repaired, changed) := Repaired(show, blueprint, ViewsOf(show, blueprint));
      repaired != blueprint && !changed
  {
    var step := Step(Some(Str("normalize")), Some(Str("mix")), None, Some(Obj(map[])), map[]);
    SilentView(show, step);
    SilentStep(show, step, ViewOf(show, step, 0));
    OverwritingIsSilent(show, step, Blueprint(Some(Str("v1")), Listed([Dict(step)]), map[]));
  }
}
