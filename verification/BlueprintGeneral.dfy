/** The blueprint repair for all blueprints, also those in which steps share an id or a role's id is blank. */
module BlueprintGeneral {
  import opened BlueprintRepair
  import opened BlueprintSteps
  import opened BlueprintStepwise
  import opened Options
  import opened Strings

  // ---------- the table, id by id ----------

  predicate HasId(entry: Entry, view: View, id: string) {
    entry.Dict? && view.id == id
  }

  /** The last step with the id, or -1. */
  function LastWith(entries: seq<Entry>, views: seq<View>, id: string): (i: int)
    requires |entries| == |views|
    ensures -1 <= i < |entries|
    ensures i >= 0 ==> HasId(entries[i], views[i], id)
  {
    var n := |entries| - 1;
    if entries == [] then -1
    else if HasId(entries[n], views[n], id) then n
    else LastWith(entries[..n], views[..n], id)
  }

  lemma {:induction false} LastWithFinds(entries: seq<Entry>, views: seq<View>, id: string, i: nat)
    requires |entries| == |views| && i < |entries| && HasId(entries[i], views[i], id)
    ensures LastWith(entries, views, id) >= i
  {
    var n := |entries| - 1;
    if i < n {
      LastWithFinds(entries[..n], views[..n], id, i);
    }
  }

  lemma {:induction false} TableHoldsTheLast(show: Printer, entries: seq<Entry>, views: seq<View>, id: string)
    requires CarryIds(show, entries, views)
    ensures var table, last := IndexSteps(show, entries), LastWith(entries, views, id);
      && (id in table <==> Strip(id) != "" && last >= 0)
      && (id in table ==> table[id] == entries[last].step)
  {
    if entries != [] {
      var n := |entries| - 1;
      assert CarriesId(show, entries[n], views[n]);
      assert forall k | 0 <= k < n :: entries[..n][k] == entries[k] && views[..n][k] == views[k];
      TableHoldsTheLast(show, entries[..n], views[..n], id);
    }
  }

  /** A step with the inputs of every role that its id was found for. */
  function FilledFor(step: Step, id: string, n: string, g: string, v: string): Step {
    var normalized := if id == n then FillStep(step, Normalize, n, g) else step;
    var generated := if id == g then FillStep(normalized, Generate, n, g) else normalized;
    if id == v then FillStep(generated, Validate, n, g) else generated
  }

  lemma FilledTableHolds(table: Table, n: string, g: string, v: string, id: string)
    ensures id in FillTable(table, n, g, v) <==> id in table || id in {n, g, v}
    ensures id in FillTable(table, n, g, v) ==>
        FillTable(table, n, g, v)[id] == FilledFor(Lookup(table, id), id, n, g, v)
  {
  }

  predicate IsRoleId(views: seq<View>, id: string) {
    id == IdOf(views, Normalize) || id == IdOf(views, Generate) || id == IdOf(views, Validate)
  }

  function Fill(views: seq<View>, step: Step, id: string): Step {
    FilledFor(step, id, IdOf(views, Normalize), IdOf(views, Generate), IdOf(views, Validate))
  }

  /** The step that stands for an id: the last one with it, and an empty one for a blank id. */
  function Heir(entries: seq<Entry>, views: seq<View>, id: string): Step
    requires |entries| == |views|
  {
    if Strip(id) == "" || LastWith(entries, views, id) < 0 then MISSING
    else entries[LastWith(entries, views, id)].step
  }

  /** A step is replaced unless its id is blank and no role's. */
  predicate Replaced(views: seq<View>, id: string) {
    AllRoles(views) && (Strip(id) != "" || IsRoleId(views, id))
  }

  /** What becomes of each step once all are fixed, for all blueprints. */
  function Outcome(fixed: seq<Entry>, views: seq<View>, i: nat): Entry
    requires i < |fixed| == |views|
  {
    if fixed[i].Dict? && Replaced(views, views[i].id)
    then Dict(Fill(views, Heir(fixed, views, views[i].id), views[i].id))
    else fixed[i]
  }

  /** With all roles, every step becomes the last one with its id, filled for the roles of that id. */
  lemma RepairIsByHeirs(show: Printer, entries: seq<Entry>, views: seq<View>, i: nat)
    requires Fitting(show, entries, views) && i < |entries|
    ensures RepairSteps(show, entries, views)[i] == Outcome(FixAll(show, entries, views), views, i)
  {
    var fixed := FixAll(show, entries, views);
    if AllRoles(views) && fixed[i].Dict? {
      FixedStepsCarryIds(show, entries, views);
      assert CarriesId(show, fixed[i], views[i]);
      var id := views[i].id;
      TableHoldsTheLast(show, fixed, views, id);
      LastWithFinds(fixed, views, id, i);
      FilledTableHolds(IndexSteps(show, fixed), IdOf(views, Normalize), IdOf(views, Generate), IdOf(views, Validate),
                       id);
    }
  }

  // ---------- when filling changes nothing ----------

  /** Every input of the first is an input of the second, with its value. */
  predicate Within(a: Fields, b: Fields) {
    forall name | name in a :: name in b && b[name] == a[name]
  }

  lemma WithinBothWays(a: Fields, b: Fields)
    requires Within(a, b) && Within(b, a)
    ensures a == b
  {
  }

  lemma FillGrows(step: Step, role: Role, n: string, g: string)
    ensures Within(InputsOf(step), InputsOf(FillStep(step, role, n, g)))
    ensures Get(step.inputs).Obj? ==> (FillStep(step, role, n, g) == step <==> !Lacks(role, InputsOf(step)))
  {
    FillKeepsInputs(role, InputsOf(step), n, g);
    FillKeepsAllIffNothingLacks(role, InputsOf(step), n, g);
  }

  /** Nothing is missing from a step for the roles of its id, each after the ones before. */
  predicate Complete(step: Step, id: string, n: string, g: string, v: string) {
    var normalized := if id == n then FillStep(step, Normalize, n, g) else step;
    var generated := if id == g then FillStep(normalized, Generate, n, g) else normalized;
    && (id == n ==> !Lacks(Normalize, InputsOf(step)))
    && (id == g ==> !Lacks(Generate, InputsOf(normalized)))
    && (id == v ==> !Lacks(Validate, InputsOf(generated)))
  }

  lemma FilledForGrows(step: Step, id: string, n: string, g: string, v: string)
    ensures Within(InputsOf(step), InputsOf(FilledFor(step, id, n, g, v)))
    ensures var after := FilledFor(step, id, n, g, v); after == step.(inputs := after.inputs)
  {
    var normalized := if id == n then FillStep(step, Normalize, n, g) else step;
    var generated := if id == g then FillStep(normalized, Generate, n, g) else normalized;
    FillGrows(step, Normalize, n, g);
    FillGrows(normalized, Generate, n, g);
    FillGrows(generated, Validate, n, g);
  }

  /** A chain of fills that comes back to where it started did nothing at any point. */
  lemma FilledForKeepsIff(step: Step, id: string, n: string, g: string, v: string)
    requires Get(step.inputs).Obj?
    ensures FilledFor(step, id, n, g, v) == step <==> Complete(step, id, n, g, v)
  {
    var normalized := if id == n then FillStep(step, Normalize, n, g) else step;
    var generated := if id == g then FillStep(normalized, Generate, n, g) else normalized;
    var validated := FilledFor(step, id, n, g, v);
    FillGrows(step, Normalize, n, g);
    FillGrows(normalized, Generate, n, g);
    FillGrows(generated, Validate, n, g);
    if validated == step {
      WithinBothWays(InputsOf(step), InputsOf(normalized));
      WithinBothWays(InputsOf(step), InputsOf(generated));
    }
  }

  lemma TableLacksUnlessComplete(table: Table, n: string, g: string, v: string)
    ensures TableLacks(table, n, g, v) <==>
              !(Complete(Lookup(table, n), n, n, g, v) && Complete(Lookup(table, g), g, n, g, v)
                  && Complete(Lookup(table, v), v, n, g, v))
  {
  }

  // ---------- when the steps come back as they were ----------

  predicate EntryOverwritten(entry: Entry, view: View) {
    entry.Dict? && Overwritten(entry.step, view)
  }

  predicate AnyOverwritten(entries: seq<Entry>, views: seq<View>)
    requires |entries| == |views|
  {
    exists i | 0 <= i < |entries| :: EntryOverwritten(entries[i], views[i])
  }

  lemma FixedEntryKeepsIff(show: Printer, entry: Entry, view: View)
    requires EntryFits(show, entry, view)
    ensures FixEntry(show, entry, view) == entry <==> !EntryFlag(show, entry, view) && !EntryOverwritten(entry, view)
  {
    if entry.Dict? {
      FixKeepsUnlessFlaggedOrOverwritten(show, entry.step, view);
    }
  }

  /** A blank id is the step's own, and equal steps with ids are seen alike wherever they stand. */
  ghost predicate Faithful(entries: seq<Entry>, views: seq<View>) {
    && |entries| == |views|
    && (forall i | 0 <= i < |entries| && entries[i].Dict? && Strip(views[i].id) == "" ::
        Truthy(Get(entries[i].step.id)))
    && (forall i, j | 0 <= i < |entries| && 0 <= j < |entries| && entries[i].Dict? && entries[i] == entries[j] ::
          Truthy(Get(entries[i].step.id)) ==> views[i] == views[j])
  }

  lemma DigitsAreNotBlank(n: nat)
    ensures Decimal(n) != "" && !Blank(Decimal(n)[|Decimal(n)| - 1])
  {
  }

  lemma {:induction false} TextEndIsKept(s: string)
    requires s != "" && !Blank(s[|s| - 1])
    ensures Strip(s) != ""
  {
    if Blank(s[0]) {
      TextEndIsKept(s[1..]);
    }
  }

  lemma DefaultIdIsNotBlank(n: nat)
    ensures Strip("step_" + Decimal(n)) != ""
  {
    DigitsAreNotBlank(n);
    TextEndIsKept("step_" + Decimal(n));
  }

  lemma ViewsAreFaithful(show: Printer, entries: seq<Entry>)
    ensures Faithful(entries, Views(show, entries))
  {
    forall i | 0 <= i < |entries|
      ensures Strip("step_" + Decimal(i)) != ""
    {
      DefaultIdIsNotBlank(i);
    }
  }

  /** Steps that share an id, if it is not blank, are equal. */
  predicate Agree(entries: seq<Entry>, views: seq<View>)
    requires |entries| == |views|
  {
    forall i, j | 0 <= i < j < |entries| && entries[i].Dict? && entries[j].Dict? ::
      views[i].id == views[j].id && Strip(views[i].id) != "" ==> entries[i] == entries[j]
  }

  lemma FixKeepsInputs(show: Printer, step: Step, view: View)
    ensures InputsOf(Fix(show, step, view)) == InputsOf(step)
  {
  }

  /** A role's id in the table belongs to a step, and is not blank. */
  lemma RoleHasAnHeir(entries: seq<Entry>, views: seq<View>, role: Role)
    requires |entries| == |views| && !role.Other? && IdOf(views, role) != "" && Strip(IdOf(views, role)) != ""
    requires forall i | 0 <= i < |entries| && !entries[i].Dict? :: views[i].role.Other?
    ensures LastWith(entries, views, IdOf(views, role)) >= 0
  {
    LastWithFinds(entries, views, IdOf(views, role), Last(views, role));
  }

  lemma LookupIsHeir(show: Printer, entries: seq<Entry>, views: seq<View>, id: string)
    requires CarryIds(show, entries, views)
    ensures Lookup(IndexSteps(show, entries), id) == Heir(entries, views, id)
  {
    TableHoldsTheLast(show, entries, views, id);
  }

  predicate IsComplete(views: seq<View>, step: Step, id: string) {
    Complete(step, id, IdOf(views, Normalize), IdOf(views, Generate), IdOf(views, Validate))
  }

  /** The step that stands for the role's id lacks no input of the roles with that id. */
  predicate HeirIsComplete(entries: seq<Entry>, views: seq<View>, role: Role)
    requires |entries| == |views|
  {
    IsComplete(views, Heir(entries, views, IdOf(views, role)), IdOf(views, role))
  }

  predicate HeirsAreComplete(entries: seq<Entry>, views: seq<View>)
    requires |entries| == |views|
  {
    && HeirIsComplete(entries, views, Normalize)
    && HeirIsComplete(entries, views, Generate)
    && HeirIsComplete(entries, views, Validate)
  }

  lemma FlagSaysWhetherHeirsAreComplete(show: Printer, entries: seq<Entry>, views: seq<View>)
    requires Fitting(show, entries, views)
    ensures StepsFlag(show, entries, views) <==>
              AnyFlag(show, entries, views)
                  || (AllRoles(views) && !HeirsAreComplete(FixAll(show, entries, views), views))
  {
    var fixed := FixAll(show, entries, views);
    FixedStepsCarryIds(show, entries, views);
    LookupIsHeir(show, fixed, views, IdOf(views, Normalize));
    LookupIsHeir(show, fixed, views, IdOf(views, Generate));
    LookupIsHeir(show, fixed, views, IdOf(views, Validate));
    TableLacksUnlessComplete(IndexSteps(show, fixed), IdOf(views, Normalize), IdOf(views, Generate),
                             IdOf(views, Validate));
  }

  /** A blank id has no heir, and an empty step lacks every role's inputs. */
  lemma CompleteHeirsAreNamed(entries: seq<Entry>, views: seq<View>)
    requires |entries| == |views| && HeirsAreComplete(entries, views)
    ensures RolesAreNamed(views)
  {
  }

  lemma {:induction false} HeirIsTheLast(entries: seq<Entry>, views: seq<View>, i: nat)
    requires |entries| == |views| && i < |entries| && entries[i].Dict? && Strip(views[i].id) != ""
    ensures var j := LastWith(entries, views, views[i].id);
      j >= i && entries[j].Dict? && views[j].id == views[i].id && Heir(entries, views, views[i].id) == entries[j].step
  {
    LastWithFinds(entries, views, views[i].id, i);
  }

  /** Complete heirs among agreeing steps with object inputs: nothing is replaced by anything else. */
  lemma OutcomeKeeps(fixed: seq<Entry>, views: seq<View>, i: nat)
    requires |fixed| == |views| && i < |fixed| && Agree(fixed, views)
    requires AllRoles(views) ==> HeirsAreComplete(fixed, views)
    requires forall k | 0 <= k < |fixed| && fixed[k].Dict? :: Get(fixed[k].step.inputs).Obj?
    ensures Outcome(fixed, views, i) == fixed[i]
  {
    if fixed[i].Dict? && Replaced(views, views[i].id) {
      CompleteHeirsAreNamed(fixed, views);
      HeirIsTheLast(fixed, views, i);
      var j := LastWith(fixed, views, views[i].id);
      assert fixed[j] == fixed[i];
      HeirsOfOtherIdsAreComplete(fixed, views, views[i].id);
      FilledForKeepsIff(fixed[j].step, views[i].id, IdOf(views, Normalize), IdOf(views, Generate),
                        IdOf(views, Validate));
    }
  }

  /** An id of no role asks for nothing. */
  lemma HeirsOfOtherIdsAreComplete(entries: seq<Entry>, views: seq<View>, id: string)
    requires |entries| == |views| && HeirsAreComplete(entries, views)
    ensures IsComplete(views, Heir(entries, views, id), id)
  {
  }

  /** If what became of the last step with an id is the step before fixing, fixing and filling did nothing to it. */
  lemma LastStays(show: Printer, before: Step, view: View, views: seq<View>)
    requires Fits(show, before, view)
    requires Fill(views, Fix(show, before, view), view.id) == before
    ensures Fix(show, before, view) == before && IsComplete(views, before, view.id)
    ensures Truthy(Get(before.id))
  {
    var fixed, n, g, v := Fix(show, before, view), IdOf(views, Normalize), IdOf(views, Generate), IdOf(views, Validate);
    FixTwice(show, before, view);
    FilledForGrows(fixed, view.id, n, g, v);
    assert Get(fixed.inputs).Obj?;
    FilledInputsAreObjects(fixed, view.id, n, g, v);
    FilledForKeepsIff(fixed, view.id, n, g, v);
  }

  lemma FilledInputsAreObjects(step: Step, id: string, n: string, g: string, v: string)
    requires Get(step.inputs).Obj?
    ensures Get(FilledFor(step, id, n, g, v).inputs).Obj?
  {
  }

  // ---------- fixing and filling, one after the other ----------

  lemma {:induction false} LastWithIgnoresFixing(show: Printer, entries: seq<Entry>, views: seq<View>, id: string)
    requires |entries| == |views|
    ensures LastWith(FixAll(show, entries, views), views, id) == LastWith(entries, views, id)
  {
    if entries != [] {
      var n := |entries| - 1;
      assert FixAll(show, entries, views)[..n] == FixAll(show, entries[..n], views[..n]);
      LastWithIgnoresFixing(show, entries[..n], views[..n], id);
    }
  }

  lemma FillDependsOnInputs(views: seq<View>, a: Step, b: Step, id: string)
    requires InputsOf(a) == InputsOf(b)
    ensures InputsOf(Fill(views, a, id)) == InputsOf(Fill(views, b, id))
    ensures IsComplete(views, a, id) == IsComplete(views, b, id)
  {
  }

  lemma HeirsOfFixedSteps(show: Printer, entries: seq<Entry>, views: seq<View>, id: string)
    requires |entries| == |views|
    ensures InputsOf(Heir(FixAll(show, entries, views), views, id)) == InputsOf(Heir(entries, views, id))
    ensures Heir(FixAll(show, entries, views), views, id).others == Heir(entries, views, id).others
    ensures Heir(FixAll(show, entries, views), views, id).blockType == Heir(entries, views, id).blockType
  {
    LastWithIgnoresFixing(show, entries, views, id);
    var j := LastWith(entries, views, id);
    if j >= 0 {
      FixKeepsInputs(show, entries[j].step, views[j]);
    }
  }

  // ---------- the two directions ----------

  lemma StepsStayIf(show: Printer, entries: seq<Entry>, views: seq<View>)
    requires Fitting(show, entries, views)
    requires !StepsFlag(show, entries, views) && !AnyOverwritten(entries, views)
        && (AllRoles(views) ==> Agree(entries, views))
    ensures RepairSteps(show, entries, views) == entries
  {
    var fixed := FixAll(show, entries, views);
    FlagSaysWhetherHeirsAreComplete(show, entries, views);
    forall i | 0 <= i < |entries|
      ensures fixed[i] == entries[i]
    {
      assert EntryFits(show, entries[i], views[i]);
      FixedEntryKeepsIff(show, entries[i], views[i]);
    }
    assert fixed == entries;
    if AllRoles(views) {
      forall i | 0 <= i < |entries|
        ensures RepairSteps(show, entries, views)[i] == entries[i]
      {
        RepairIsByHeirs(show, entries, views, i);
        OutcomeKeeps(fixed, views, i);
      }
    }
  }

  /** When the repair returns the same steps, the role steps have names: a nameless one would lose its id. */
  lemma SameStepsAreNamed(show: Printer, entries: seq<Entry>, views: seq<View>)
    requires Fitting(show, entries, views) && Faithful(entries, views) && AllRoles(views)
    requires RepairSteps(show, entries, views) == entries
    ensures RolesAreNamed(views)
  {
    if !RolesAreNamed(views) {
      var role: Role :| !role.Other? && Strip(IdOf(views, role)) == "";
      BlankIdLosesTheStep(show, entries, views, role);
    }
  }

  /** When the repair returns the same steps, the last step with each id was neither fixed nor filled. */
  lemma SameLastStep(show: Printer, entries: seq<Entry>, views: seq<View>, j: nat)
    requires Fitting(show, entries, views) && AllRoles(views) && RepairSteps(show, entries, views) == entries
    requires j < |entries| && entries[j].Dict? && Strip(views[j].id) != "" && j == LastWith(entries, views, views[j].id)
    ensures Fix(show, entries[j].step, views[j]) == entries[j].step && Truthy(Get(entries[j].step.id))
    ensures IsComplete(views, entries[j].step, views[j].id)
  {
    var fixed := FixAll(show, entries, views);
    assert EntryFits(show, entries[j], views[j]);
    RepairIsByHeirs(show, entries, views, j);
    LastWithIgnoresFixing(show, entries, views, views[j].id);
    LastStays(show, entries[j].step, views[j], views);
  }

  /** When the repair returns the same steps, each is the last one with its id. */
  lemma SameAsTheLast(show: Printer, entries: seq<Entry>, views: seq<View>, i: nat)
    requires Fitting(show, entries, views) && AllRoles(views) && RepairSteps(show, entries, views) == entries
    requires i < |entries| && entries[i].Dict? && Strip(views[i].id) != ""
    ensures var j := LastWith(entries, views, views[i].id);
      j >= 0 && views[j].id == views[i].id && entries[j] == entries[i]
  {
    HeirIsTheLast(entries, views, i);
    RepairIsByHeirs(show, entries, views, i);
    RepairIsByHeirs(show, entries, views, LastWith(entries, views, views[i].id));
  }

  /** A blank id that is no role's keeps its fixed step. */
  lemma SameBlankStepIsFixed(show: Printer, entries: seq<Entry>, views: seq<View>, i: nat)
    requires Fitting(show, entries, views) && AllRoles(views) && RolesAreNamed(views)
    requires RepairSteps(show, entries, views) == entries && i < |entries|
    requires !entries[i].Dict? || Strip(views[i].id) == ""
    ensures FixEntry(show, entries[i], views[i]) == entries[i]
  {
    RepairIsByHeirs(show, entries, views, i);
  }

  /** When the repair returns the same steps, each step was left alone by the first loop. */
  lemma SameStepIsFixed(show: Printer, entries: seq<Entry>, views: seq<View>, i: nat)
    requires Fitting(show, entries, views) && Faithful(entries, views)
    requires AllRoles(views) && RolesAreNamed(views) && RepairSteps(show, entries, views) == entries && i < |entries|
    ensures FixEntry(show, entries[i], views[i]) == entries[i]
    ensures entries[i].Dict? && Strip(views[i].id) != "" ==> Heir(entries, views, views[i].id) == entries[i].step
  {
    if entries[i].Dict? && Strip(views[i].id) != "" {
      SameAsTheLast(show, entries, views, i);
      SameLastStep(show, entries, views, LastWith(entries, views, views[i].id));
    } else {
      SameBlankStepIsFixed(show, entries, views, i);
    }
  }

  lemma StepsStayOnlyIf(show: Printer, entries: seq<Entry>, views: seq<View>)
    requires Fitting(show, entries, views) && Faithful(entries, views) && AllRoles(views)
    requires RepairSteps(show, entries, views) == entries
    ensures !StepsFlag(show, entries, views) && !AnyOverwritten(entries, views) && Agree(entries, views)
  {
    SameStepsAreNamed(show, entries, views);
    forall i | 0 <= i < |entries|
      ensures FixEntry(show, entries[i], views[i]) == entries[i]
      ensures !EntryFlag(show, entries[i], views[i]) && !EntryOverwritten(entries[i], views[i])
      ensures entries[i].Dict? && Strip(views[i].id) != "" ==> Heir(entries, views, views[i].id) == entries[i].step
    {
      assert EntryFits(show, entries[i], views[i]);
      SameStepIsFixed(show, entries, views, i);
      FixedEntryKeepsIff(show, entries[i], views[i]);
    }
    assert FixAll(show, entries, views) == entries;
    FlagSaysWhetherHeirsAreComplete(show, entries, views);
    SameHeirsAreComplete(show, entries, views);
  }

  lemma SameHeirsAreComplete(show: Printer, entries: seq<Entry>, views: seq<View>)
    requires Fitting(show, entries, views) && AllRoles(views) && RolesAreNamed(views)
    requires RepairSteps(show, entries, views) == entries
    ensures HeirsAreComplete(entries, views)
  {
    RoleHeirIsComplete(show, entries, views, Normalize);
    RoleHeirIsComplete(show, entries, views, Generate);
    RoleHeirIsComplete(show, entries, views, Validate);
  }

  lemma RoleHeirIsComplete(show: Printer, entries: seq<Entry>, views: seq<View>, role: Role)
    requires Fitting(show, entries, views) && AllRoles(views) && RolesAreNamed(views) && !role.Other?
    requires RepairSteps(show, entries, views) == entries
    ensures HeirIsComplete(entries, views, role)
  {
    var i := Last(views, role);
    assert EntryFits(show, entries[i], views[i]);
    HeirIsTheLast(entries, views, i);
    SameLastStep(show, entries, views, LastWith(entries, views, views[i].id));
  }

  /** The steps come back as they were exactly when nothing is reported or overwritten and steps with one id agree. */
  lemma StepsStayIff(show: Printer, entries: seq<Entry>, views: seq<View>)
    requires Fitting(show, entries, views) && Faithful(entries, views)
    ensures RepairSteps(show, entries, views) == entries <==>
              !StepsFlag(show, entries, views) && !AnyOverwritten(entries, views)
                  && (AllRoles(views) ==> Agree(entries, views))
  {
    if RepairSteps(show, entries, views) == entries {
      if AllRoles(views) {
        StepsStayOnlyIf(show, entries, views);
      } else {
        forall i | 0 <= i < |entries|
          ensures !EntryFlag(show, entries[i], views[i]) && !EntryOverwritten(entries[i], views[i])
        {
          assert EntryFits(show, entries[i], views[i]);
          FixedEntryKeepsIff(show, entries[i], views[i]);
        }
      }
    } else if !StepsFlag(show, entries, views) && !AnyOverwritten(entries, views)
        && (AllRoles(views) ==> Agree(entries, views)) {
      StepsStayIf(show, entries, views);
    }
  }
}
