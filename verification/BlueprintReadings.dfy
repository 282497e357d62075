/**
 What the repair reads and writes in the words of the blueprint itself: the values that count as
 missing, the default ids, the names of blocks, and the inputs of the three steps.
 */
module BlueprintReadings {
  import opened BlueprintRepair
  import opened BlueprintSteps
  import opened Options
  import opened Strings

  // ---------- values and ids ----------

  /** Python's falsy values. */
  ghost predicate Falsy(value: Json) {
    || value == Null || value == Bool(false) || value == Num(0.0)
    || value == Str("") || value == List([]) || value == Obj(map[])
  }

  lemma TruthyIffNotFalsy(value: Json)
    ensures Truthy(value) <==> !Falsy(value)
  {
  }

  lemma TextIs(show: Printer, value: Json)
    ensures Falsy(value) ==> Text(show, value) == ""
    ensures value.Str? ==> Text(show, value) == value.text
    ensures !Falsy(value) && !value.Str? ==> Text(show, value) == show(value)
  {
  }

  ghost predicate AllDigits(s: string) {
    forall i | 0 <= i < |s| :: '0' <= s[i] <= '9'
  }

  ghost function NumberOf(digits: string): int {
    if digits == "" then 0
    else 10 * NumberOf(digits[..|digits| - 1]) + digits[|digits| - 1] as int - '0' as int
  }

  /** The decimal digits of a number, without a leading zero. */
  lemma {:induction false} DecimalReadsBack(n: nat)
    ensures var digits := Decimal(n);
      && AllDigits(digits) && NumberOf(digits) == n
      && |digits| >= 1 && (|digits| > 1 ==> digits[0] != '0')
      && (n > 0 ==> digits[0] != '0')
  {
    if n < 10 {
      assert NumberOf(Decimal(n)[..0]) == 0;
    } else {
      DecimalReadsBack(n / 10);
      DecimalReadsBack(n % 10);
      assert Decimal(n)[..|Decimal(n)| - 1] == Decimal(n / 10);
    }
  }

  /** A step without a usable id is named after its place. */
  lemma IdIsItsOwnOrThePlace(show: Printer, step: Step, index: nat)
    ensures var id := ViewOf(show, step, index).id;
      && (!Falsy(Get(step.id)) ==> id == Text(show, Get(step.id)))
      && (Falsy(Get(step.id)) ==>
            && |id| > 5 && id[..5] == "step_"
            && AllDigits(id[5..]) && NumberOf(id[5..]) == index && (|id| > 6 ==> id[5] != '0'))
  {
    DecimalReadsBack(index);
    var id := "step_" + Decimal(index);
    assert id[..5] == "step_" && id[5..] == Decimal(index);
  }

  // ---------- names and roles ----------

  lemma AliasesAre(lowered: string)
    ensures Alias(lowered) == Normalize <==>
      lowered in {"neoeats.input.normalize", "normalize_input", "normalize_inventory", "normalize_pantry"}
    ensures Alias(lowered) == Generate <==>
      lowered in {"neoeats.recipe.generate", "generate_recipe", "recipe_generate"}
    ensures Alias(lowered) == Validate <==>
      lowered in {"neoeats.recipe.validate", "validate_recipe", "recipe_validate"}
  {
    BlocksAreTheirOwnAlias(Generate);
    BlocksAreTheirOwnAlias(Validate);
  }

  /** The name of a block is one of the three that it is another name of, or else the text itself. */
  lemma NameIsOneOfThree(show: Printer, block: Json, blockType: Json)
    ensures var text := Strip(Text(show, if Falsy(block) then blockType else block));
            var role, name := Alias(Lower(text)), BlockName(show, block, blockType);
      && (role == Normalize ==> name == "neoeats.input.normalize")
      && (role == Generate ==> name == "neoeats.recipe.generate")
      && (role == Validate ==> name == "neoeats.recipe.validate")
      && (role == Other ==> name == text)
  {
  }

  /** The lower-case text has the word in it. */
  ghost predicate Mentions(text: string, word: string) {
    exists i: nat :: StandsAt(Lower(text), word, i)
  }

  /** The first role that the block or the id names. */
  lemma RoleIsTheFirstNamed(block: string, id: string)
    ensures var normalizes := block == "neoeats.input.normalize" || Mentions(id, "normalize");
            var generates := block == "neoeats.recipe.generate" || Mentions(id, "generate");
            var validates := block == "neoeats.recipe.validate" || Mentions(id, "validate");
      && (RoleOf(block, id) == Normalize <==> normalizes)
      && (RoleOf(block, id) == Generate <==> generates && !normalizes)
      && (RoleOf(block, id) == Validate <==> validates && !generates && !normalizes)
  {
    ContainsIffItStandsSomewhere(Lower(id), "normalize");
    ContainsIffItStandsSomewhere(Lower(id), "generate");
    ContainsIffItStandsSomewhere(Lower(id), "validate");
  }

  // ---------- what is written to a step ----------

  /** The first loop writes the id, the block and the inputs where they are not as they should be. */
  lemma FixWrites(show: Printer, step: Step, index: nat)
    ensures var view := ViewOf(show, step, index);
            var fixed := Fix(show, step, view);
      && fixed.blockType == step.blockType && fixed.others == step.others
      && fixed.id == (if Text(show, Get(step.id)) == view.id then step.id else Some(Str(view.id)))
      && (view.role == Normalize ==> fixed.block == Some(Str("neoeats.input.normalize")))
      && (view.role == Generate ==> fixed.block == Some(Str("neoeats.recipe.generate")))
      && (view.role == Validate ==> fixed.block == Some(Str("neoeats.recipe.validate")))
      && (view.role == Other && Text(show, Get(step.block)) == view.name ==> fixed.block == step.block)
      && (view.role == Other && Text(show, Get(step.block)) != view.name ==> fixed.block == Some(Str(view.name)))
      && (step.inputs.Some? && step.inputs.value.Obj? ==> fixed.inputs == step.inputs)
      && (step.inputs.None? || !step.inputs.value.Obj? ==> fixed.inputs == Some(Obj(map[])))
  {
  }

  /** The input is there: as it was, or else with a value that only refers to `source`. */
  ghost predicate HoldsReference(before: Fields, after: Fields, name: string, source: string) {
    && name in after
    && if name in before then after[name] == before[name]
       else after[name].Obj? && after[name].fields.Keys == {"from"} && after[name].fields["from"] == Str(source)
  }

  /** The same for a reference with a default. */
  ghost predicate HoldsReferenceOr(before: Fields, after: Fields, name: string, source: string, default: Json) {
    && name in after
    && if name in before then after[name] == before[name]
       else
         && after[name].Obj? && after[name].fields.Keys == {"default", "from"}
         && after[name].fields["from"] == Str(source) && after[name].fields["default"] == default
  }

  /** The pantry says where it comes from. */
  ghost predicate HasPantry(inputs: Fields) {
    && "pantry" in inputs && inputs["pantry"].Obj?
    && "from" in inputs["pantry"].fields && !Falsy(inputs["pantry"].fields["from"])
  }

  /** `after` has the inputs of `before` and those of these names. */
  ghost predicate GrowsBy(before: Fields, after: Fields, names: set<string>) {
    after.Keys == before.Keys + names && forall name | name in before :: after[name] == before[name]
  }

  lemma NormalizingStepGets(before: Fields, normalizeId: string, generateId: string)
    ensures var after := FillInputs(Normalize, before, normalizeId, generateId);
      && GrowsBy(before, after, {"ingredients", "user_id", "constraints"})
      && HoldsReference(before, after, "user_id", "user_id")
      && HoldsReferenceOr(before, after, "constraints", "payload.constraints", Obj(map[]))
      && (HasPantry(before) && "ingredients" !in before ==> after["ingredients"] == before["pantry"])
      && (!HasPantry(before) ==> HoldsReferenceOr(before, after, "ingredients", "payload.ingredients", List([])))
  {
  }

  lemma GeneratingStepGets(before: Fields, normalizeId: string, generateId: string)
    ensures var after := FillInputs(Generate, before, normalizeId, generateId);
      && GrowsBy(before, after, {"normalized"})
      && HoldsReference(before, after, "normalized", normalizeId + ".normalized")
  {
  }

  lemma ValidatingStepGets(before: Fields, normalizeId: string, generateId: string)
    ensures var after := FillInputs(Validate, before, normalizeId, generateId);
      && GrowsBy(before, after, {"recipe", "constraints"})
      && HoldsReference(before, after, "recipe", generateId + ".recipe")
      && HoldsReferenceOr(before, after, "constraints", normalizeId + ".normalized.constraints", Obj(map[]))
  {
  }

  /** Filling writes the inputs only, for the three ids of the roles. */
  lemma FillStepWrites(step: Step, role: Role, normalizeId: string, generateId: string)
    ensures var filled := FillStep(step, role, normalizeId, generateId);
      && filled.id == step.id && filled.block == step.block && filled.blockType == step.blockType
      && filled.others == step.others && filled.inputs.Some? && filled.inputs.value.Obj?
      && filled.inputs.value.fields == FillInputs(
           role, if step.inputs.Some? && step.inputs.value.Obj? then step.inputs.value.fields else map[],
           normalizeId, generateId)
  {
  }

  // ---------- what is written to the blueprint ----------

  /** The last step of a role gives the role's id. */
  lemma {:induction false} LastIsTheLast(views: seq<View>, role: Role)
    ensures var last := Last(views, role);
      && (last < 0 ==> forall i | 0 <= i < |views| :: views[i].role != role)
      && (last >= 0 ==> views[last].role == role && IdOf(views, role) == views[last].id
                        && forall i | last < i < |views| :: views[i].role != role)
  {
    if views != [] && views[|views| - 1].role != role {
      LastIsTheLast(views[..|views| - 1], role);
    }
  }

  /** The version reads v1 afterwards, and steps that are not a list stay as they are. */
  lemma RepairWritesTheVersion(show: Printer, blueprint: Blueprint)
    ensures var (repaired, changed) := Repaired(show, blueprint, ViewsOf(show, blueprint));
            var isV1 := Text(show, Get(blueprint.version)) == "v1";
      && repaired.version == (if isV1 then blueprint.version else Some(Str("v1")))
      && repaired.others == blueprint.others
      && (blueprint.steps.NotAList? ==> repaired.steps == blueprint.steps && changed == !isV1)
      && (blueprint.steps.Listed? ==> repaired.steps.Listed? && (!isV1 ==> changed))
  {
  }
}
