/** What the blueprint repair does to each step, although it works through a table of steps by id. */
module BlueprintStepwise {
  import opened BlueprintRepair
  import opened BlueprintSteps
  import opened Options
  import opened Strings

  // ---------- steps with distinct ids, one by one ----------

  /** No two steps have one id. */
  predicate DistinctIds(entries: seq<Entry>, views: seq<View>)
    requires |entries| == |views|
  {
    forall i, j | 0 <= i < j < |entries| && entries[i].Dict? && entries[j].Dict? :: views[i].id != views[j].id
  }

  /** No step that is filled for its role has an id of nothing but white space. */
  predicate RolesAreNamed(views: seq<View>) {
    && Strip(IdOf(views, Normalize)) != ""
    && Strip(IdOf(views, Generate)) != ""
    && Strip(IdOf(views, Validate)) != ""
  }

  predicate CarriesId(show: Printer, entry: Entry, view: View) {
    if entry.Dict? then Truthy(Get(entry.step.id)) && Printed(show, Get(entry.step.id)) == view.id else view.role.Other?
  }

  /** Every step has the id it is seen with. */
  predicate CarryIds(show: Printer, entries: seq<Entry>, views: seq<View>) {
    |entries| == |views| && forall i | 0 <= i < |entries| :: CarriesId(show, entries[i], views[i])
  }

  predicate EntryFits(show: Printer, entry: Entry, view: View) {
    if entry.Dict? then Fits(show, entry.step, view) else view.role.Other?
  }

  predicate Fitting(show: Printer, entries: seq<Entry>, views: seq<View>) {
    |entries| == |views| && forall i | 0 <= i < |entries| :: EntryFits(show, entries[i], views[i])
  }

  lemma TheViewsFit(show: Printer, entries: seq<Entry>)
    ensures Fitting(show, entries, Views(show, entries))
  {
    forall i | 0 <= i < |entries| && entries[i].Dict? {
      ViewsFit(show, entries[i].step, i);
    }
  }

  lemma FixedStepsCarryIds(show: Printer, entries: seq<Entry>, views: seq<View>)
    requires Fitting(show, entries, views)
    ensures CarryIds(show, FixAll(show, entries, views), views)
    ensures DistinctIds(entries, views) ==> DistinctIds(FixAll(show, entries, views), views)
  {
    forall i | 0 <= i < |entries|
      ensures CarriesId(show, FixEntry(show, entries[i], views[i]), views[i])
    {
      assert EntryFits(show, entries[i], views[i]);
      if entries[i].Dict? {
        FixTwice(show, entries[i].step, views[i]);
      }
    }
  }

  lemma {:induction false} TableHasNoBlankId(show: Printer, entries: seq<Entry>, id: string)
    requires forall i | 0 <= i < |entries| && entries[i].Dict? :: Truthy(Get(entries[i].step.id))
    requires id in IndexSteps(show, entries)
    ensures Strip(id) != ""
  {
    var n := |entries| - 1;
    if id in IndexSteps(show, entries[..n]) {
      TableHasNoBlankId(show, entries[..n], id);
    }
  }

  lemma {:induction false} EachIdIsInTheTable(show: Printer, entries: seq<Entry>, views: seq<View>, i: nat)
    requires CarryIds(show, entries, views)
    requires i < |entries| && entries[i].Dict? && Strip(views[i].id) != ""
    ensures views[i].id in IndexSteps(show, entries)
  {
    var n := |entries| - 1;
    assert CarriesId(show, entries[i], views[i]);
    if i < n {
      assert forall k | 0 <= k < n :: entries[..n][k] == entries[k] && views[..n][k] == views[k];
      EachIdIsInTheTable(show, entries[..n], views[..n], i);
    }
  }

  lemma {:induction false} EachStepIsInTheTable(show: Printer, entries: seq<Entry>, views: seq<View>, i: nat)
    requires CarryIds(show, entries, views) && DistinctIds(entries, views)
    requires i < |entries| && entries[i].Dict? && Strip(views[i].id) != ""
    ensures var table := IndexSteps(show, entries); views[i].id in table && table[views[i].id] == entries[i].step
  {
    var n := |entries| - 1;
    assert CarriesId(show, entries[n], views[n]);
    assert CarriesId(show, entries[i], views[i]);
    if i < n {
      assert forall k | 0 <= k < n :: entries[..n][k] == entries[k] && views[..n][k] == views[k];
      EachStepIsInTheTable(show, entries[..n], views[..n], i);
    }
  }

  /** The step is the one that its role's inputs are added to. */
  predicate IsFilled(views: seq<View>, i: nat)
    requires i < |views|
  {
    AllRoles(views) && !views[i].role.Other? && i == Last(views, views[i].role)
  }

  /** What the second half of the repair should make of one step. */
  function FillEntry(entries: seq<Entry>, views: seq<View>, i: nat): Entry
    requires i < |entries| == |views|
  {
    if entries[i].Dict? && IsFilled(views, i)
    then Dict(FillStep(entries[i].step, views[i].role, IdOf(views, Normalize), IdOf(views, Generate)))
    else entries[i]
  }

  function FillAll(entries: seq<Entry>, views: seq<View>): (filled: seq<Entry>)
    requires |entries| == |views|
    ensures |filled| == |entries|
  {
    seq(|entries|, i requires 0 <= i < |entries| => FillEntry(entries, views, i))
  }

  /** All that the second half needs: three roles, three names, no id twice. */
  predicate Fillable(show: Printer, entries: seq<Entry>, views: seq<View>) {
    CarryIds(show, entries, views) && DistinctIds(entries, views) && AllRoles(views) && RolesAreNamed(views)
  }

  /** The step with the role that is filled is a dictionary and in the table. */
  lemma RoleStepIsInTheTable(show: Printer, entries: seq<Entry>, views: seq<View>, role: Role)
    requires Fillable(show, entries, views) && !role.Other?
    ensures var i, table := Last(views, role), IndexSteps(show, entries);
      i >= 0 && entries[i].Dict? && views[i].id == IdOf(views, role)
          && Lookup(table, IdOf(views, role)) == entries[i].step
  {
    var i := Last(views, role);
    assert i >= 0;
    assert CarriesId(show, entries[i], views[i]);
    EachStepIsInTheTable(show, entries, views, i);
  }

  lemma RoleIdsDiffer(show: Printer, entries: seq<Entry>, views: seq<View>, a: Role, b: Role)
    requires Fillable(show, entries, views) && !a.Other? && !b.Other? && a != b
    ensures IdOf(views, a) != IdOf(views, b)
  {
    RoleStepIsInTheTable(show, entries, views, a);
    RoleStepIsInTheTable(show, entries, views, b);
  }

  predicate ThreeIds(n: string, g: string, v: string) {
    n != g && g != v && n != v
  }

  lemma RoleIdsAreThree(show: Printer, entries: seq<Entry>, views: seq<View>)
    requires Fillable(show, entries, views)
    ensures ThreeIds(IdOf(views, Normalize), IdOf(views, Generate), IdOf(views, Validate))
  {
    RoleIdsDiffer(show, entries, views, Normalize, Generate);
    RoleIdsDiffer(show, entries, views, Generate, Validate);
    RoleIdsDiffer(show, entries, views, Normalize, Validate);
  }

  /** Three different entries are filled independently. */
  lemma FilledTable(table: Table, n: string, g: string, v: string, id: string)
    requires ThreeIds(n, g, v)
    ensures id in FillTable(table, n, g, v) <==> id in table || id in {n, g, v}
    ensures id in FillTable(table, n, g, v) ==>
              FillTable(table, n, g, v)[id] ==
              if id == n then FillStep(Lookup(table, n), Normalize, n, g)
              else if id == g then FillStep(Lookup(table, g), Generate, n, g)
              else if id == v then FillStep(Lookup(table, v), Validate, n, g)
              else table[id]
  {
  }

  lemma FilledTableLacks(table: Table, n: string, g: string, v: string)
    requires ThreeIds(n, g, v)
    ensures TableLacks(table, n, g, v) <==>
              Lacks(Normalize, InputsOf(Lookup(table, n))) || Lacks(Generate, InputsOf(Lookup(table, g)))
              || Lacks(Validate, InputsOf(Lookup(table, v)))
  {
  }

  lemma OnlyOneStepHasTheId(show: Printer, entries: seq<Entry>, views: seq<View>, role: Role, i: nat)
    requires Fillable(show, entries, views) && !role.Other? && i < |entries| && entries[i].Dict?
    ensures views[i].id == IdOf(views, role) <==> i == Last(views, role)
  {
    RoleStepIsInTheTable(show, entries, views, role);
  }

  lemma OnlyRoleStepsHaveTheirIds(show: Printer, entries: seq<Entry>, views: seq<View>, i: nat)
    requires Fillable(show, entries, views) && i < |entries| && entries[i].Dict?
    ensures views[i].id == IdOf(views, Normalize) <==> i == Last(views, Normalize)
    ensures views[i].id == IdOf(views, Generate) <==> i == Last(views, Generate)
    ensures views[i].id == IdOf(views, Validate) <==> i == Last(views, Validate)
  {
    OnlyOneStepHasTheId(show, entries, views, Normalize, i);
    OnlyOneStepHasTheId(show, entries, views, Generate, i);
    OnlyOneStepHasTheId(show, entries, views, Validate, i);
  }

  /** A step with a blank id is not in the table; any other is there as it is. */
  lemma TableHasTheStepIff(show: Printer, entries: seq<Entry>, views: seq<View>, i: nat)
    requires CarryIds(show, entries, views) && DistinctIds(entries, views)
    requires i < |entries| && entries[i].Dict?
    ensures var table := IndexSteps(show, entries);
      (views[i].id in table <==> Strip(views[i].id) != "")
          && (views[i].id in table ==> table[views[i].id] == entries[i].step)
  {
    assert forall k | 0 <= k < |entries| && entries[k].Dict? :: CarriesId(show, entries[k], views[k]);
    if views[i].id in IndexSteps(show, entries) {
      TableHasNoBlankId(show, entries, views[i].id);
    }
    if Strip(views[i].id) != "" {
      EachStepIsInTheTable(show, entries, views, i);
    }
  }

  lemma RoleEntryIsFilled(entries: seq<Entry>, views: seq<View>, i: nat, role: Role)
    requires |entries| == |views| && i < |entries| && entries[i].Dict?
    requires AllRoles(views) && !role.Other? && i == Last(views, role)
    ensures FillEntry(entries, views, i)
            == Dict(FillStep(entries[i].step, role, IdOf(views, Normalize), IdOf(views, Generate)))
  {
  }

  lemma OtherEntriesAreNotFilled(entries: seq<Entry>, views: seq<View>, i: nat)
    requires |entries| == |views| && i < |entries|
    requires i != Last(views, Normalize) && i != Last(views, Generate) && i != Last(views, Validate)
    ensures FillEntry(entries, views, i) == entries[i]
  {
  }

  /** What the filled table has for a step's id, if anything, is the step filled. */
  lemma TableEntryIsFilled(show: Printer, entries: seq<Entry>, views: seq<View>, i: nat, table: Table)
    requires Fillable(show, entries, views) && i < |entries| && entries[i].Dict? && table == IndexSteps(show, entries)
    ensures var n, g, v := IdOf(views, Normalize), IdOf(views, Generate), IdOf(views, Validate);
            var filled, id := FillTable(table, n, g, v), views[i].id;
      FillEntry(entries, views, i) == if id in filled then Dict(filled[id]) else entries[i]
  {
    var n, g, v, id := IdOf(views, Normalize), IdOf(views, Generate), IdOf(views, Validate), views[i].id;
    TableHasTheStepIff(show, entries, views, i);
    OnlyRoleStepsHaveTheirIds(show, entries, views, i);
    RoleIdsAreThree(show, entries, views);
    FilledTable(table, n, g, v, id);
    if id == n {
      RoleEntryIsFilled(entries, views, i, Normalize);
    } else if id == g {
      RoleEntryIsFilled(entries, views, i, Generate);
    } else if id == v {
      RoleEntryIsFilled(entries, views, i, Validate);
    } else {
      OtherEntriesAreNotFilled(entries, views, i);
    }
  }

  /** Rebuilding through the table fills each role's step and no other. */
  lemma RebuiltIsFilled(show: Printer, entries: seq<Entry>, views: seq<View>, i: nat)
    requires Fillable(show, entries, views) && i < |entries|
    ensures RebuildEntry(show, entries[i],
                         FillTable(IndexSteps(show, entries), IdOf(views, Normalize), IdOf(views, Generate),
                                   IdOf(views, Validate)))
            == FillEntry(entries, views, i)
  {
    assert CarriesId(show, entries[i], views[i]);
    if entries[i].Dict? {
      TableEntryIsFilled(show, entries, views, i, IndexSteps(show, entries));
    }
  }

  predicate LacksInput(entries: seq<Entry>, views: seq<View>, i: nat)
    requires i < |entries| == |views|
  {
    entries[i].Dict? && IsFilled(views, i) && Lacks(views[i].role, InputsOf(entries[i].step))
  }

  predicate AnyLacks(entries: seq<Entry>, views: seq<View>)
    requires |entries| == |views|
  {
    exists i | 0 <= i < |entries| :: LacksInput(entries, views, i)
  }

  /** The step filled for a role lacks an input exactly when its entry of the table does. */
  lemma RoleStepLacks(show: Printer, entries: seq<Entry>, views: seq<View>, role: Role)
    requires Fillable(show, entries, views) && !role.Other?
    ensures Last(views, role) >= 0
    ensures LacksInput(entries, views, Last(views, role)) <==>
        Lacks(role, InputsOf(Lookup(IndexSteps(show, entries), IdOf(views, role))))
  {
    RoleStepIsInTheTable(show, entries, views, role);
  }

  lemma TableLacksIffStepLacks(show: Printer, entries: seq<Entry>, views: seq<View>)
    requires Fillable(show, entries, views)
    ensures TableLacks(IndexSteps(show, entries), IdOf(views, Normalize), IdOf(views, Generate), IdOf(views, Validate))
            <==> AnyLacks(entries, views)
  {
    RoleIdsAreThree(show, entries, views);
    RoleStepLacks(show, entries, views, Normalize);
    RoleStepLacks(show, entries, views, Generate);
    RoleStepLacks(show, entries, views, Validate);
    FilledTableLacks(IndexSteps(show, entries), IdOf(views, Normalize), IdOf(views, Generate), IdOf(views, Validate));
  }

  // ---------- steps that share an id or have a blank one ----------

  /** When all roles are there, steps with the same id become one and the same step. */
  lemma StepsWithOneIdBecomeOne(show: Printer, entries: seq<Entry>, views: seq<View>, i: nat, j: nat)
    requires Fitting(show, entries, views) && AllRoles(views)
    requires i < |entries| && j < |entries| && entries[i].Dict? && entries[j].Dict?
    requires views[i].id == views[j].id && Strip(views[i].id) != ""
    ensures RepairSteps(show, entries, views)[i] == RepairSteps(show, entries, views)[j]
  {
    var fixed := FixAll(show, entries, views);
    FixedStepsCarryIds(show, entries, views);
    assert CarriesId(show, fixed[i], views[i]) && CarriesId(show, fixed[j], views[j]);
    EachIdIsInTheTable(show, fixed, views, i);
  }

  /** Filling the table for a blank id puts a step without an id there. */
  lemma BlankIdsAreFilledFromNothing(table: Table, n: string, g: string, v: string, id: string)
    requires id in {n, g, v} && id !in table
    ensures id in FillTable(table, n, g, v) && FillTable(table, n, g, v)[id].id == None
  {
  }

  /** A role's step whose id is blank is replaced by one that has lost its id, its block and all else. */
  lemma BlankIdLosesTheStep(show: Printer, entries: seq<Entry>, views: seq<View>, role: Role)
    requires Fitting(show, entries, views) && AllRoles(views) && !role.Other? && Strip(IdOf(views, role)) == ""
    ensures var i := Last(views, role);
      i >= 0 && RepairSteps(show, entries, views)[i].Dict? && RepairSteps(show, entries, views)[i].step.id == None
  {
    var i, fixed := Last(views, role), FixAll(show, entries, views);
    FixedStepsCarryIds(show, entries, views);
    assert forall k | 0 <= k < |fixed| :: CarriesId(show, fixed[k], views[k]);
    assert CarriesId(show, fixed[i], views[i]);
    var table := IndexSteps(show, fixed);
    if views[i].id in table {
      TableHasNoBlankId(show, fixed, views[i].id);
    }
    BlankIdsAreFilledFromNothing(table, IdOf(views, Normalize), IdOf(views, Generate), IdOf(views, Validate),
                                 views[i].id);
  }

  // ---------- the repair, step by step ----------

  /** What keeps the table from mixing up steps: if all roles are there, no shared and no blank ids. */
  predicate Separate(entries: seq<Entry>, views: seq<View>)
    requires |entries| == |views|
  {
    AllRoles(views) ==> DistinctIds(entries, views) && RolesAreNamed(views)
  }

  /** Step by step, the repair fixes every step and fills the one of each role. */
  lemma RepairIsStepwise(show: Printer, entries: seq<Entry>, views: seq<View>)
    requires Fitting(show, entries, views) && Separate(entries, views)
    ensures RepairSteps(show, entries, views) == FillAll(FixAll(show, entries, views), views)
    ensures StepsFlag(show, entries, views) <==>
        AnyFlag(show, entries, views) || AnyLacks(FixAll(show, entries, views), views)
  {
    var fixed := FixAll(show, entries, views);
    if AllRoles(views) {
      FixedStepsCarryIds(show, entries, views);
      TableLacksIffStepLacks(show, fixed, views);
      forall i | 0 <= i < |entries| {
        RebuiltIsFilled(show, fixed, views, i);
      }
    }
  }
}
