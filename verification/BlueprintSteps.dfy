/** One step of a blueprint in the repair of scripts/smoke_neoeats_real_llm.py. */
module BlueprintSteps {
  import opened Options
  import opened Strings

  datatype Json =
    | Null
    | Bool(truth: bool)
    | Num(number: real)
    | Str(text: string)
    | List(items: seq<Json>)
    | Obj(fields: map<string, Json>)

  type Fields = map<string, Json>

  /** A step that is a dictionary: the fields the repair looks at, which may be missing, and all others. */
  datatype Step = Step(id: Option<Json>, block: Option<Json>, blockType: Option<Json>, inputs: Option<Json>,
                       others: Fields)

  datatype Entry = Dict(step: Step) | NotADict(value: Json)

  datatype Steps = Listed(entries: seq<Entry>) | NotAList(value: Option<Json>)

  datatype Blueprint = Blueprint(version: Option<Json>, steps: Steps, others: Fields)

  function Get(field: Option<Json>): Json {
    if field.Some? then field.value else Null
  }

  /** How `str` prints a value that is not a string. */
  type Printer = Json -> string

  predicate Truthy(value: Json) {
    match value
    case Null => false
    case Bool(truth) => truth
    case Num(number) => number != 0.0
    case Str(text) => text != ""
    case List(items) => items != []
    case Obj(fields) => fields != map[]
  }

  /** `str(value)`. */
  function Printed(show: Printer, value: Json): string {
    if value.Str? then value.text else show(value)
  }

  /** `str(value or "")`. */
  function Text(show: Printer, value: Json): string {
    if Truthy(value) then Printed(show, value) else ""
  }

  function Decimal(n: nat): string {
    if n < 10 then [('0' as int + n) as char] else Decimal(n / 10) + Decimal(n % 10)
  }

  // ---------- block names and roles ----------

  const NORMALIZE := "neoeats.input.normalize"
  const GENERATE := "neoeats.recipe.generate"
  const VALIDATE := "neoeats.recipe.validate"

  datatype Role = Normalize | Generate | Validate | Other

  function BlockOf(role: Role): string {
    match role
    case Normalize => NORMALIZE
    case Generate => GENERATE
    case Validate => VALIDATE
    case Other => ""
  }

  /** The role whose block goes by this lower-case name. */
  function Alias(lowered: string): Role {
    if lowered in {NORMALIZE, "normalize_input", "normalize_inventory", "normalize_pantry"} then Normalize
    else if lowered in {GENERATE, "generate_recipe", "recipe_generate"} then Generate
    else if lowered in {VALIDATE, "validate_recipe", "recipe_validate"} then Validate
    else Other
  }

  function CanonicalBlockName(text: string): string {
    var block := Strip(text);
    var role := Alias(Lower(block));
    if role.Other? then block else BlockOf(role)
  }

  /** No character of the name would be changed by `strip` or `lower`. */
  predicate Plain(name: string) {
    forall i | 0 <= i < |name| :: !Blank(name[i]) && LowerChar(name[i]) == name[i]
  }

  lemma PlainNamesStay(name: string)
    requires Plain(name)
    ensures Strip(name) == name && Lower(name) == name
  {
    assert StripLeft(name) == name;
    assert StripRight(name) == name;
  }

  lemma BlocksArePlain(role: Role)
    ensures Plain(BlockOf(role))
  {
  }

  lemma BlocksAreTheirOwnAlias(role: Role)
    ensures Alias(BlockOf(role)) == role
  {
    assert GENERATE[8] == 'r' && NORMALIZE[8] == 'i' && VALIDATE[15] == 'v' && GENERATE[15] == 'g';
    assert |"normalize_input"| == 15 && |"normalize_inventory"| == 19 && |"normalize_pantry"| == 16;
    assert |"generate_recipe"| == 15 && |"recipe_generate"| == 15;
    assert |"validate_recipe"| == 15 && |"recipe_validate"| == 15;
  }

  lemma CanonicalIsIdempotent(text: string)
    ensures CanonicalBlockName(CanonicalBlockName(text)) == CanonicalBlockName(text)
  {
    var role := Alias(Lower(Strip(text)));
    if role.Other? {
      StripIsIdempotent(text);
    } else {
      BlockIsCanonical(role);
    }
  }

  lemma BlockIsCanonical(role: Role)
    ensures CanonicalBlockName(BlockOf(role)) == BlockOf(role)
  {
    BlocksArePlain(role);
    PlainNamesStay(BlockOf(role));
    BlocksAreTheirOwnAlias(role);
  }

  lemma CanonicalIsEmptyIffBlank(text: string)
    ensures CanonicalBlockName(text) == "" <==> Strip(text) == ""
  {
    BlocksAreTheirOwnAlias(Other);
    assert Lower("") == "";
  }

  function RoleOf(block: string, id: string): Role {
    if block == NORMALIZE || Contains(Lower(id), "normalize") then Normalize
    else if block == GENERATE || Contains(Lower(id), "generate") then Generate
    else if block == VALIDATE || Contains(Lower(id), "validate") then Validate
    else Other
  }

  /** A step that got its role's block keeps the role. */
  lemma RoleIsKept(block: string, id: string)
    ensures var role := RoleOf(block, id); !role.Other? ==> RoleOf(BlockOf(role), id) == role
  {
    assert |NORMALIZE| == 23 && NORMALIZE[8] == 'i' && GENERATE[8] == 'r' && VALIDATE[8] == 'r';
    assert GENERATE[15] == 'g' && VALIDATE[15] == 'v';
  }

  // ---------- one step of the first loop ----------

  /** What the first loop reads off a step: its id, its canonical block name and its role. */
  datatype View = View(id: string, name: string, role: Role)

  function StepId(show: Printer, id: Json, index: nat): string {
    if Truthy(id) then Printed(show, id) else "step_" + Decimal(index)
  }

  function BlockName(show: Printer, block: Json, blockType: Json): string {
    CanonicalBlockName(Text(show, if Truthy(block) then block else blockType))
  }

  function ViewOf(show: Printer, step: Step, index: nat): View {
    var id, name := StepId(show, Get(step.id), index), BlockName(show, Get(step.block), Get(step.blockType));
    View(id, name, RoleOf(name, id))
  }

  /** What the first loop makes of a step. */
  function Fix(show: Printer, step: Step, view: View): Step {
    step.(id := if Text(show, Get(step.id)) != view.id then Some(Str(view.id)) else step.id,
          block := if !view.role.Other? then Some(Str(BlockOf(view.role)))
                   else if Text(show, Get(step.block)) != view.name then Some(Str(view.name)) else step.block,
          inputs := if Get(step.inputs).Obj? then step.inputs else Some(Obj(map[])))
  }

  /** Whether the first loop reports the step as changed. */
  predicate Flag(show: Printer, step: Step, view: View) {
    || Text(show, Get(step.id)) != view.id
    || Text(show, Get(step.block)) != view.name
    || !Get(step.inputs).Obj?
  }

  /** The role gives the step another block; the loop does not report that. */
  predicate Overwritten(step: Step, view: View) {
    !view.role.Other? && step.block != Some(Str(BlockOf(view.role)))
  }

  /** What is used of a view below. */
  predicate Fits(show: Printer, step: Step, view: View) {
    && (if Truthy(Get(step.id)) then view.id == Printed(show, Get(step.id)) else view.id != "")
    && (!view.role.Other? && Text(show, Get(step.block)) == BlockOf(view.role) ==> view.name == BlockOf(view.role))
  }

  lemma BlocksAreNotEmpty(role: Role)
    ensures BlockOf(role) == "" <==> role.Other?
  {
  }

  lemma NameOfItsOwnName(show: Printer, block: Json, blockType: Json, name: string)
    requires Text(show, block) == name != "" && CanonicalBlockName(name) == name
    ensures BlockName(show, block, blockType) == name
  {
  }

  lemma ViewsFit(show: Printer, step: Step, index: nat)
    ensures Fits(show, step, ViewOf(show, step, index))
  {
    var view := ViewOf(show, step, index);
    assert "step_" + Decimal(index) != "";
    if !view.role.Other? && Text(show, Get(step.block)) == BlockOf(view.role) {
      BlocksAreNotEmpty(view.role);
      BlockIsCanonical(view.role);
      NameOfItsOwnName(show, Get(step.block), Get(step.blockType), BlockOf(view.role));
    }
  }

  lemma FixKeepsUnlessFlaggedOrOverwritten(show: Printer, step: Step, view: View)
    requires Fits(show, step, view)
    ensures Fix(show, step, view) == step <==> !Flag(show, step, view) && !Overwritten(step, view)
  {
    BlocksAreNotEmpty(view.role);
  }

  /** How a fixed step is seen. */
  function Settled(view: View): View {
    view.(name := if view.role.Other? then view.name else BlockOf(view.role))
  }

  lemma FixTwice(show: Printer, step: Step, view: View)
    requires Fits(show, step, view)
    ensures var again := Fix(show, step, view);
      && Truthy(Get(again.id)) && Printed(show, Get(again.id)) == view.id
      && Text(show, Get(again.block)) == Settled(view).name
      && Fix(show, again, Settled(view)) == again && !Flag(show, again, Settled(view))
  {
    BlocksAreNotEmpty(view.role);
  }

  lemma NameOfABlock(show: Printer, block: Json, blockType: Json)
    requires Text(show, block) != ""
    ensures BlockName(show, block, blockType) == "" <==> Strip(Text(show, block)) == ""
  {
    CanonicalIsEmptyIffBlank(Text(show, block));
  }

  lemma NameOfAType(show: Printer, blockType: Json)
    ensures BlockName(show, Str(""), blockType) == "" <==> Strip(Text(show, blockType)) == ""
  {
    CanonicalIsEmptyIffBlank(Text(show, blockType));
  }

  lemma NameIsCanonical(show: Printer, block: Json, blockType: Json)
    ensures var name := BlockName(show, block, blockType); CanonicalBlockName(name) == name
  {
    CanonicalIsIdempotent(Text(show, if Truthy(block) then block else blockType));
  }

  /** A blank block that is not empty is emptied, so that a second repair reads `block_type` instead. */
  predicate Hides(show: Printer, block: Json, blockType: Json) {
    Text(show, block) != "" && Strip(Text(show, block)) == "" && Strip(Text(show, blockType)) != ""
  }

  lemma NameOfAFixedBlock(show: Printer, block: Json, blockType: Json, name: string)
    requires name == BlockName(show, block, blockType)
    ensures BlockName(show, if Text(show, block) != name then Str(name) else block, blockType) == name <==>
        !Hides(show, block, blockType)
  {
    if name != "" {
      NamedBlockHidesNothing(show, block, blockType);
      NamedBlockStays(show, block, blockType, if Text(show, block) != name then Str(name) else block, name);
    } else {
      NamelessBlockStaysIff(show, block, blockType);
    }
  }

  lemma NamedBlockStays(show: Printer, block: Json, blockType: Json, fixed: Json, name: string)
    requires name == BlockName(show, block, blockType) != "" && Text(show, fixed) == name
    ensures BlockName(show, fixed, blockType) == name
  {
    NameIsCanonical(show, block, blockType);
    NameOfItsOwnName(show, fixed, blockType, name);
  }

  lemma NamedBlockHidesNothing(show: Printer, block: Json, blockType: Json)
    requires BlockName(show, block, blockType) != ""
    ensures !Hides(show, block, blockType)
  {
    if Text(show, block) != "" {
      NameOfABlock(show, block, blockType);
    }
  }

  lemma NamelessBlockStaysIff(show: Printer, block: Json, blockType: Json)
    requires BlockName(show, block, blockType) == ""
    ensures BlockName(show, if Text(show, block) != "" then Str("") else block, blockType) == "" <==>
        !Hides(show, block, blockType)
  {
    if Text(show, block) != "" {
      NameOfABlock(show, block, blockType);
      NameOfAType(show, blockType);
    }
  }

  lemma RoleFixedStepIsSettled(show: Printer, step: Step, index: nat, again: Step)
    requires var view := ViewOf(show, step, index);
      !view.role.Other? && again.block == Fix(show, step, view).block && again.id == Fix(show, step, view).id
    ensures ViewOf(show, again, index) == Settled(ViewOf(show, step, index))
  {
    var view := ViewOf(show, step, index);
    ViewsFit(show, step, index);
    FixTwice(show, step, view);
    RoleIsKept(view.name, view.id);
    BlockIsCanonical(view.role);
    BlocksAreNotEmpty(view.role);
    NameOfItsOwnName(show, Get(again.block), Get(again.blockType), BlockOf(view.role));
  }

  /** This shows only when the id does not give the step a role. */
  predicate HidesItsType(show: Printer, step: Step, view: View) {
    view.role.Other? && Hides(show, Get(step.block), Get(step.blockType))
  }

  /** A fixed step is seen as it was, but for its block, exactly when no type was hidden. */
  lemma FixedStepIsSettledIff(show: Printer, step: Step, index: nat, again: Step)
    requires var fixed := Fix(show, step, ViewOf(show, step, index));
      again.id == fixed.id && again.block == fixed.block && again.blockType == step.blockType
    ensures var view := ViewOf(show, step, index);
      ViewOf(show, again, index) == Settled(view) <==> !HidesItsType(show, step, view)
    ensures var view := ViewOf(show, step, index);
      HidesItsType(show, step, view) ==> Flag(show, again, ViewOf(show, again, index))
  {
    var view := ViewOf(show, step, index);
    if view.role.Other? {
      ViewsFit(show, step, index);
      FixTwice(show, step, view);
      NameOfAFixedBlock(show, Get(step.block), Get(step.blockType), view.name);
      assert StepId(show, Get(again.id), index) == view.id;
    } else {
      RoleFixedStepIsSettled(show, step, index, again);
    }
  }
}
