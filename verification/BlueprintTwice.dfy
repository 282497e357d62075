/** Repairing a blueprint twice, for all blueprints. */
module BlueprintTwice {
  import opened BlueprintGeneral
  import opened BlueprintRepair
  import opened BlueprintSteps
  import opened BlueprintStepwise
  import opened Options
  import opened Strings

  function SettledAll(views: seq<View>): (settled: seq<View>)
    ensures |settled| == |views|
  {
    seq(|views|, i requires 0 <= i < |views| => Settled(views[i]))
  }

  lemma {:induction false} SettledRolesStay(views: seq<View>, role: Role)
    ensures Last(SettledAll(views), role) == Last(views, role)
    ensures IdOf(SettledAll(views), role) == IdOf(views, role)
  {
    if views != [] {
      var n := |views| - 1;
      assert SettledAll(views)[..n] == SettledAll(views[..n]);
      SettledRolesStay(views[..n], role);
    }
  }

  predicate EntryHides(show: Printer, entry: Entry, view: View) {
    entry.Dict? && HidesItsType(show, entry.step, view)
  }

  predicate AnyHides(show: Printer, entries: seq<Entry>, views: seq<View>)
    requires |entries| == |views|
  {
    exists i | 0 <= i < |entries| :: EntryHides(show, entries[i], views[i])
  }

  // ---------- where a repaired step comes from ----------

  /** The entry that the first repair puts in place of entry `i`: the last one with its id, if there are all roles. */
  function Source(entries: seq<Entry>, views: seq<View>, i: nat): (j: nat)
    requires |entries| == |views| && i < |entries|
    ensures j < |entries|
  {
    if AllRoles(views) && entries[i].Dict? && Strip(views[i].id) != "" then
      LastWithFinds(entries, views, views[i].id, i);
      LastWith(entries, views, views[i].id)
    else i
  }

  /** How the entries are seen once every one is replaced by its source. */
  function Merged(entries: seq<Entry>, views: seq<View>): (merged: seq<View>)
    requires |entries| == |views|
    ensures |merged| == |entries|
  {
    seq(|entries|, i requires 0 <= i < |entries| => views[Source(entries, views, i)])
  }

  /** The step in place of another one is that step, fixed, and with inputs. */
  predicate IsFixOf(show: Printer, again: Entry, step: Step, view: View) {
    && again.Dict? && Get(again.step.inputs).Obj?
    && again.step == Fix(show, step, view).(inputs := again.step.inputs)
  }

  lemma FilledIsFix(show: Printer, views: seq<View>, step: Step, view: View, id: string)
    ensures IsFixOf(show, Dict(Fill(views, Fix(show, step, view), id)), step, view)
  {
    var n, g, v := IdOf(views, Normalize), IdOf(views, Generate), IdOf(views, Validate);
    FilledForGrows(Fix(show, step, view), id, n, g, v);
    FilledInputsAreObjects(Fix(show, step, view), id, n, g, v);
  }

  lemma RepairedFromSource(show: Printer, entries: seq<Entry>, views: seq<View>, i: nat)
    requires Fitting(show, entries, views) && (AllRoles(views) ==> RolesAreNamed(views))
    requires i < |entries| && entries[i].Dict?
    ensures var j := Source(entries, views, i);
      && entries[j].Dict? && views[j].id == views[i].id
      && IsFixOf(show, RepairSteps(show, entries, views)[i], entries[j].step, views[j])
  {
    RepairIsByHeirs(show, entries, views, i);
    if AllRoles(views) && Strip(views[i].id) != "" {
      LastWithIgnoresFixing(show, entries, views, views[i].id);
      var j := Source(entries, views, i);
      FilledIsFix(show, views, entries[j].step, views[j], views[i].id);
    }
  }

  lemma ViewIgnoresPlace(show: Printer, step: Step, i: nat, j: nat)
    requires Truthy(Get(step.id))
    ensures ViewOf(show, step, i) == ViewOf(show, step, j)
  {
  }

  predicate SourceHides(show: Printer, entries: seq<Entry>, views: seq<View>, i: nat)
    requires |entries| == |views| && i < |entries|
  {
    EntryHides(show, entries[Source(entries, views, i)], views[Source(entries, views, i)])
  }

  predicate AnySourceHides(show: Printer, entries: seq<Entry>, views: seq<View>)
    requires |entries| == |views|
  {
    exists i | 0 <= i < |entries| :: SourceHides(show, entries, views, i)
  }

  /** A repaired entry is seen as its source, settled, exactly when that hid no type; else it is changed again. */
  lemma SeenAsItsSourceIff(show: Printer, entries: seq<Entry>, i: nat)
    requires var views := Views(show, entries); i < |entries| && (AllRoles(views) ==> RolesAreNamed(views))
    ensures var views := Views(show, entries);
            var again := RepairSteps(show, entries, views);
      && (Views(show, again)[i] == Settled(views[Source(entries, views, i)]) <==> !SourceHides(show, entries, views, i))
      && (SourceHides(show, entries, views, i) ==> EntryFlag(show, again[i], Views(show, again)[i]))
  {
    var views := Views(show, entries);
    TheViewsFit(show, entries);
    RepairIsByHeirs(show, entries, views, i);
    if entries[i].Dict? {
      var j, again := Source(entries, views, i), RepairSteps(show, entries, views)[i].step;
      RepairedFromSource(show, entries, views, i);
      assert EntryFits(show, entries[j], views[j]);
      FixTwice(show, entries[j].step, views[j]);
      FixedStepIsSettledIff(show, entries[j].step, j, again);
      ViewIgnoresPlace(show, again, i, j);
    }
  }

  lemma SeenAsMerged(show: Printer, entries: seq<Entry>)
    requires var views := Views(show, entries);
      (AllRoles(views) ==> RolesAreNamed(views)) && !AnySourceHides(show, entries, views)
    ensures var views := Views(show, entries);
      Views(show, RepairSteps(show, entries, views)) == SettledAll(Merged(entries, views))
  {
    var views := Views(show, entries);
    forall i | 0 <= i < |entries|
      ensures Views(show, RepairSteps(show, entries, views))[i] == SettledAll(Merged(entries, views))[i]
    {
      assert !SourceHides(show, entries, views, i);
      SeenAsItsSourceIff(show, entries, i);
    }
  }

  // ---------- what the second repair finds ----------

  lemma FixIgnoresInputs(show: Printer, step: Step, again: Step, view: View)
    requires again == step.(inputs := again.inputs) && Get(again.inputs).Obj?
    requires Fix(show, step, view) == step && !Flag(show, step, view)
    ensures Fix(show, again, view) == again && !Flag(show, again, view)
  {
  }

  lemma RepairedEntryIsFixed(show: Printer, entries: seq<Entry>, views: seq<View>, i: nat)
    requires Fitting(show, entries, views) && (AllRoles(views) ==> RolesAreNamed(views)) && i < |entries|
    ensures var again, view := RepairSteps(show, entries, views)[i], Settled(views[Source(entries, views, i)]);
      FixEntry(show, again, view) == again && !EntryFlag(show, again, view)
  {
    RepairIsByHeirs(show, entries, views, i);
    if entries[i].Dict? {
      var j := Source(entries, views, i);
      RepairedFromSource(show, entries, views, i);
      assert EntryFits(show, entries[j], views[j]);
      FixTwice(show, entries[j].step, views[j]);
      FixIgnoresInputs(show, Fix(show, entries[j].step, views[j]), RepairSteps(show, entries, views)[i].step,
                       Settled(views[j]));
    }
  }

  /** The first loop of the second repair does nothing. */
  lemma RepairedStepsAreFixed(show: Printer, entries: seq<Entry>)
    requires var views := Views(show, entries);
      (AllRoles(views) ==> RolesAreNamed(views)) && !AnySourceHides(show, entries, views)
    ensures var views := Views(show, entries);
            var again, settled := RepairSteps(show, entries, views), SettledAll(Merged(entries, views));
      FixAll(show, again, settled) == again && !AnyFlag(show, again, settled) && !AnyOverwritten(again, settled)
  {
    var views := Views(show, entries);
    var again, settled := RepairSteps(show, entries, views), SettledAll(Merged(entries, views));
    TheViewsFit(show, entries);
    SeenAsMerged(show, entries);
    TheViewsFit(show, again);
    forall i | 0 <= i < |entries|
      ensures FixEntry(show, again[i], settled[i]) == again[i]
      ensures !EntryFlag(show, again[i], settled[i]) && !EntryOverwritten(again[i], settled[i])
    {
      RepairedEntryIsFixed(show, entries, views, i);
      assert EntryFits(show, again[i], settled[i]);
      FixedEntryKeepsIff(show, again[i], settled[i]);
    }
  }

  lemma SourceKeepsId(entries: seq<Entry>, views: seq<View>, i: nat)
    requires |entries| == |views| && i < |entries|
    ensures Merged(entries, views)[i].id == views[i].id
  {
  }

  /** Repaired steps with one id are equal, as far as the second repair looks at that. */
  lemma RepairedStepsAgree(show: Printer, entries: seq<Entry>)
    requires var views := Views(show, entries); AllRoles(views)
    ensures var views := Views(show, entries);
      Agree(RepairSteps(show, entries, views), SettledAll(Merged(entries, views)))
  {
    var views := Views(show, entries);
    var again, settled := RepairSteps(show, entries, views), SettledAll(Merged(entries, views));
    TheViewsFit(show, entries);
    forall i, j | 0 <= i < j < |again| && again[i].Dict? && again[j].Dict? && settled[i].id == settled[j].id
        && Strip(settled[i].id) != ""
      ensures again[i] == again[j]
    {
      SourceKeepsId(entries, views, i);
      SourceKeepsId(entries, views, j);
      RepairIsByHeirs(show, entries, views, i);
      RepairIsByHeirs(show, entries, views, j);
      StepsWithOneIdBecomeOne(show, entries, views, i, j);
    }
  }

  lemma RepairKeepsKinds(show: Printer, entries: seq<Entry>, views: seq<View>, i: nat)
    requires Fitting(show, entries, views) && i < |entries|
    ensures RepairSteps(show, entries, views)[i].Dict? <==> entries[i].Dict?
  {
    RepairIsByHeirs(show, entries, views, i);
  }

  // ---------- whether the second repair finds an input missing ----------

  /** The same kinds of entries with the same ids. */
  ghost predicate SameShape(a: seq<Entry>, va: seq<View>, b: seq<Entry>, vb: seq<View>) {
    && |a| == |va| == |b| == |vb|
    && forall i | 0 <= i < |a| :: (a[i].Dict? <==> b[i].Dict?) && va[i].id == vb[i].id
  }

  lemma {:induction false} LastWithByShape(a: seq<Entry>, va: seq<View>, b: seq<Entry>, vb: seq<View>, id: string)
    requires SameShape(a, va, b, vb)
    ensures LastWith(a, va, id) == LastWith(b, vb, id)
  {
    if a != [] {
      var n := |a| - 1;
      assert SameShape(a[..n], va[..n], b[..n], vb[..n]);
      LastWithByShape(a[..n], va[..n], b[..n], vb[..n], id);
    }
  }

  /** The step filled for the role the first time lacks nothing the second time. */
  predicate RoleStaysComplete(entries: seq<Entry>, views: seq<View>, role: Role)
    requires |entries| == |views|
  {
    var merged := Merged(entries, views);
    var id := IdOf(merged, role);
    IsComplete(merged, Fill(views, Heir(entries, views, id), id), id)
  }

  /**
   Replacing steps by the last one with their id may give a role to another step. If all roles are
   still there, the step that then stands for each must have what the role needs.
   */
  predicate RolesStayComplete(entries: seq<Entry>, views: seq<View>)
    requires |entries| == |views|
  {
    AllRoles(Merged(entries, views)) ==>
      && RoleStaysComplete(entries, views, Normalize)
      && RoleStaysComplete(entries, views, Generate)
      && RoleStaysComplete(entries, views, Validate)
  }

  lemma StepAfterRepair(show: Printer, entries: seq<Entry>, views: seq<View>, id: string)
    requires Fitting(show, entries, views) && AllRoles(views) && Strip(id) != "" && LastWith(entries, views, id) >= 0
    ensures var again := RepairSteps(show, entries, views)[LastWith(entries, views, id)];
      again.Dict? && again.step == Fill(views, Heir(FixAll(show, entries, views), views, id), id)
  {
    RepairIsByHeirs(show, entries, views, LastWith(entries, views, id));
  }

  /** What stands for an id after the first repair is what stood for it before, fixed and filled. */
  lemma HeirAfterRepair(show: Printer, entries: seq<Entry>, views: seq<View>, settled: seq<View>, id: string)
    requires Fitting(show, entries, views) && AllRoles(views) && RolesAreNamed(views)
    requires SameShape(RepairSteps(show, entries, views), settled, entries, views)
    ensures InputsOf(Heir(RepairSteps(show, entries, views), settled, id))
        == InputsOf(Fill(views, Heir(entries, views, id), id))
  {
    LastWithByShape(RepairSteps(show, entries, views), settled, entries, views, id);
    if LastWith(entries, views, id) >= 0 && Strip(id) != "" {
      StepAfterRepair(show, entries, views, id);
      HeirsOfFixedSteps(show, entries, views, id);
      FillDependsOnInputs(views, Heir(FixAll(show, entries, views), views, id), Heir(entries, views, id), id);
    } else {
      NonDictionariesHaveNoRole(show, entries, views);
      NobodyFillsNothing(entries, views, id);
    }
  }

  lemma NonDictionariesHaveNoRole(show: Printer, entries: seq<Entry>, views: seq<View>)
    requires Fitting(show, entries, views)
    ensures forall i | 0 <= i < |entries| && !entries[i].Dict? :: views[i].role.Other?
  {
    forall i | 0 <= i < |entries| && !entries[i].Dict?
      ensures views[i].role.Other?
    {
      assert EntryFits(show, entries[i], views[i]);
    }
  }

  /** An id that no step carries, or a blank one, is no role's. */
  lemma NobodyFillsNothing(entries: seq<Entry>, views: seq<View>, id: string)
    requires |entries| == |views| && AllRoles(views) && RolesAreNamed(views)
    requires forall i | 0 <= i < |entries| && !entries[i].Dict? :: views[i].role.Other?
    requires LastWith(entries, views, id) < 0 || Strip(id) == ""
    ensures Fill(views, Heir(entries, views, id), id) == MISSING
  {
    RoleHasAnHeir(entries, views, Normalize);
    RoleHasAnHeir(entries, views, Generate);
    RoleHasAnHeir(entries, views, Validate);
  }

  lemma RepairedShape(show: Printer, entries: seq<Entry>, views: seq<View>)
    requires Fitting(show, entries, views)
    ensures SameShape(RepairSteps(show, entries, views), SettledAll(Merged(entries, views)), entries, views)
  {
    forall i | 0 <= i < |entries|
      ensures RepairSteps(show, entries, views)[i].Dict? <==> entries[i].Dict?
      ensures SettledAll(Merged(entries, views))[i].id == views[i].id
    {
      RepairKeepsKinds(show, entries, views, i);
      SourceKeepsId(entries, views, i);
    }
  }

  lemma RoleIsCompleteAgainIff(show: Printer, entries: seq<Entry>, views: seq<View>, role: Role)
    requires Fitting(show, entries, views) && AllRoles(views) && RolesAreNamed(views)
    ensures HeirIsComplete(RepairSteps(show, entries, views), SettledAll(Merged(entries, views)), role)
            <==> RoleStaysComplete(entries, views, role)
  {
    var again, merged := RepairSteps(show, entries, views), Merged(entries, views);
    var settled, id := SettledAll(merged), IdOf(merged, role);
    RepairedShape(show, entries, views);
    SettledIdsStay(merged);
    SettledRolesStay(merged, role);
    HeirAfterRepair(show, entries, views, settled, id);
    FillDependsOnInputs(merged, Heir(again, settled, id), Fill(views, Heir(entries, views, id), id), id);
  }

  lemma SettledIdsStay(views: seq<View>)
    ensures IdOf(SettledAll(views), Normalize) == IdOf(views, Normalize)
    ensures IdOf(SettledAll(views), Generate) == IdOf(views, Generate)
    ensures IdOf(SettledAll(views), Validate) == IdOf(views, Validate)
    ensures AllRoles(SettledAll(views)) <==> AllRoles(views)
  {
    SettledRolesStay(views, Normalize);
    SettledRolesStay(views, Generate);
    SettledRolesStay(views, Validate);
  }

  // ---------- the condition ----------

  /** What the second repair needs to find nothing to do. */
  predicate Repeatable(show: Printer, entries: seq<Entry>, views: seq<View>)
    requires |entries| == |views|
  {
    && (AllRoles(views) ==> RolesAreNamed(views))
    && !AnySourceHides(show, entries, views)
    && RolesStayComplete(entries, views)
  }

  /** Without all roles nothing is replaced, so they are not all there the second time either. */
  lemma MissingRolesStayMissing(entries: seq<Entry>, views: seq<View>)
    requires |entries| == |views| && !AllRoles(views)
    ensures Merged(entries, views) == views
  {
  }

  lemma SecondFlagIff(show: Printer, entries: seq<Entry>)
    requires var views := Views(show, entries);
      (AllRoles(views) ==> RolesAreNamed(views)) && !AnySourceHides(show, entries, views)
    ensures var views := Views(show, entries);
            var again := RepairSteps(show, entries, views);
      StepsFlag(show, again, Views(show, again)) <==> !RolesStayComplete(entries, views)
  {
    var views := Views(show, entries);
    var again, merged := RepairSteps(show, entries, views), Merged(entries, views);
    TheViewsFit(show, entries);
    TheViewsFit(show, again);
    SeenAsMerged(show, entries);
    RepairedStepsAreFixed(show, entries);
    SettledIdsStay(merged);
    FlagSaysWhetherHeirsAreComplete(show, again, SettledAll(merged));
    if AllRoles(views) {
      RoleIsCompleteAgainIff(show, entries, views, Normalize);
      RoleIsCompleteAgainIff(show, entries, views, Generate);
      RoleIsCompleteAgainIff(show, entries, views, Validate);
    } else {
      MissingRolesStayMissing(entries, views);
    }
  }

  lemma RepeatableStaysTheSame(show: Printer, entries: seq<Entry>)
    requires Repeatable(show, entries, Views(show, entries))
    ensures var again := RepairSteps(show, entries, Views(show, entries));
      RepairSteps(show, again, Views(show, again)) == again && !StepsFlag(show, again, Views(show, again))
  {
    var views := Views(show, entries);
    var again, merged := RepairSteps(show, entries, views), Merged(entries, views);
    SecondFlagIff(show, entries);
    SeenAsMerged(show, entries);
    RepairedStepsAreFixed(show, entries);
    SettledIdsStay(merged);
    if AllRoles(views) {
      RepairedStepsAgree(show, entries);
    } else {
      MissingRolesStayMissing(entries, views);
    }
    TheViewsFit(show, again);
    StepsStayIf(show, again, SettledAll(merged));
  }

  /** A role's step that lost its blank id is given one the second time. */
  lemma LostIdIsReported(show: Printer, entries: seq<Entry>)
    requires var views := Views(show, entries); AllRoles(views) && !RolesAreNamed(views)
    ensures var again := RepairSteps(show, entries, Views(show, entries)); StepsFlag(show, again, Views(show, again))
  {
    var views := Views(show, entries);
    var again := RepairSteps(show, entries, views);
    TheViewsFit(show, entries);
    var role: Role :| !role.Other? && Strip(IdOf(views, role)) == "";
    BlankIdLosesTheStep(show, entries, views, role);
    var i := Last(views, role);
    assert "step_" + Decimal(i) != "";
    assert EntryFlag(show, again[i], Views(show, again)[i]);
  }

  lemma UnrepeatableReportsAChange(show: Printer, entries: seq<Entry>)
    requires !Repeatable(show, entries, Views(show, entries))
    ensures var again := RepairSteps(show, entries, Views(show, entries)); StepsFlag(show, again, Views(show, again))
  {
    var views := Views(show, entries);
    var again := RepairSteps(show, entries, views);
    if AllRoles(views) && !RolesAreNamed(views) {
      LostIdIsReported(show, entries);
    } else if i :| 0 <= i < |entries| && SourceHides(show, entries, views, i) {
      SeenAsItsSourceIff(show, entries, i);
      assert EntryFlag(show, again[i], Views(show, again)[i]);
    } else {
      SecondFlagIff(show, entries);
    }
  }

  /**
   A second repair returns the same blueprint and reports no change exactly when no step that is
   left hides a type behind a blank block and, if all three roles are there, no role's id is blank
   and no step that takes a role over from another one with its id lacks an input of that role.
   */
  lemma RepairIsIdempotentIff(show: Printer, blueprint: Blueprint)
    ensures var views := ViewsOf(show, blueprint);
            var again := Repaired(show, blueprint, views).0;
      Repaired(show, again, ViewsOf(show, again)) == (again, false) <==>
      (blueprint.steps.Listed? ==> Repeatable(show, blueprint.steps.entries, views))
  {
    if blueprint.steps.Listed? {
      var entries := blueprint.steps.entries;
      if Repeatable(show, entries, Views(show, entries)) {
        RepeatableStaysTheSame(show, entries);
      } else {
        UnrepeatableReportsAChange(show, entries);
      }
    }
  }

  // ---------- steps with distinct ids ----------

  lemma DistinctStepsStayPut(entries: seq<Entry>, views: seq<View>)
    requires |entries| == |views| && (AllRoles(views) ==> DistinctIds(entries, views))
    ensures forall i | 0 <= i < |entries| :: Source(entries, views, i) == i
    ensures Merged(entries, views) == views
  {
    forall i | 0 <= i < |entries|
      ensures Source(entries, views, i) == i
    {
      if Source(entries, views, i) != i {
        LastWithFinds(entries, views, views[i].id, i);
      }
    }
  }

  /** With ids of their own, what each role was filled for is what it has. */
  lemma DistinctRolesStayComplete(entries: seq<Entry>, views: seq<View>, role: Role)
    requires |entries| == |views| && DistinctIds(entries, views) && AllRoles(views) && !role.Other?
    requires forall i | 0 <= i < |entries| && !entries[i].Dict? :: views[i].role.Other?
    requires Merged(entries, views) == views
    ensures RoleStaysComplete(entries, views, role)
  {
    var n, g, v := IdOf(views, Normalize), IdOf(views, Generate), IdOf(views, Validate);
    assert n != g && g != v && n != v;
    var step := Heir(entries, views, IdOf(views, role));
    FilledLacksNothing(role, InputsOf(step), n, g);
  }

  /** For distinct ids: no step hides a type, and if all roles are there, none has a blank id. */
  lemma RepairOfDistinctIdsIsIdempotentIff(show: Printer, blueprint: Blueprint)
    requires var views := ViewsOf(show, blueprint);
      blueprint.steps.Listed? && AllRoles(views) ==> DistinctIds(blueprint.steps.entries, views)
    ensures var views := ViewsOf(show, blueprint);
            var again := Repaired(show, blueprint, views).0;
      Repaired(show, again, ViewsOf(show, again)) == (again, false) <==>
      (blueprint.steps.Listed? ==>
         !AnyHides(show, blueprint.steps.entries, views) && (AllRoles(views) ==> RolesAreNamed(views)))
  {
    RepairIsIdempotentIff(show, blueprint);
    if blueprint.steps.Listed? {
      DistinctIsRepeatableIff(show, blueprint.steps.entries);
    }
  }

  lemma DistinctIsRepeatableIff(show: Printer, entries: seq<Entry>)
    requires var views := Views(show, entries); AllRoles(views) ==> DistinctIds(entries, views)
    ensures var views := Views(show, entries);
      Repeatable(show, entries, views) <==>
          !AnyHides(show, entries, views) && (AllRoles(views) ==> RolesAreNamed(views))
  {
    var views := Views(show, entries);
    DistinctStepsStayPut(entries, views);
    forall i | 0 <= i < |entries|
      ensures SourceHides(show, entries, views, i) == EntryHides(show, entries[i], views[i])
    {
    }
    if AllRoles(views) {
      DistinctRolesStayComplete(entries, views, Normalize);
      DistinctRolesStayComplete(entries, views, Generate);
      DistinctRolesStayComplete(entries, views, Validate);
    }
  }

  // ---------- a blueprint that is not repeatable ----------

  lemma HidingView(show: Printer, step: Step)
    requires step.id == Some(Str("a")) && step.block == Some(Str(" "))
    ensures ViewOf(show, step, 0) == View("a", "", Other)
  {
    assert Strip(" ") == "";
    CanonicalIsEmptyIffBlank(" ");
    PlainNamesStay("a");
    assert !Contains("", "normalize") && !Contains("", "generate") && !Contains("", "validate");
  }

  /** The only step of a blueprint hides its type. */
  lemma OnlyStepHides(show: Printer, blueprint: Blueprint, entry: Entry)
    requires blueprint.steps == Listed([entry]) && EntryHides(show, entry, Views(show, [entry])[0])
    ensures var again := Repaired(show, blueprint, ViewsOf(show, blueprint)).0;
      Repaired(show, again, ViewsOf(show, again)) != (again, false)
  {
    var entries, views := blueprint.steps.entries, ViewsOf(show, blueprint);
    assert Source(entries, views, 0) == 0;
    assert SourceHides(show, entries, views, 0);
    RepairIsIdempotentIff(show, blueprint);
  }

  lemma BlankBlockHides(show: Printer, step: Step)
    requires step.id == Some(Str("a")) && step.block == Some(Str(" ")) && step.blockType == Some(Str("mix"))
    ensures EntryHides(show, Dict(step), View("a", "", Other))
  {
    PlainNamesStay("mix");
    assert Strip(" ") == "";
  }

  /** A step with a blank block and a `block_type` is repaired differently the second time. */
  lemma SecondRepairCanChange(show: Printer)
    ensures var step := Step(Some(Str("a")), Some(Str(" ")), Some(Str("mix")), Some(Obj(map[])), map[]);
            var blueprint := Blueprint(Some(Str("v1")), Listed([Dict(step)]), map[]);
            var again := Repaired(show, blueprint, ViewsOf(show, blueprint)).0;
      Repaired(show, again, ViewsOf(show, again)) != (again, false)
  {
    var step := Step(Some(Str("a")), Some(Str(" ")), Some(Str("mix")), Some(Obj(map[])), map[]);
    HidingView(show, step);
    BlankBlockHides(show, step);
    OnlyStepHides(show, Blueprint(Some(Str("v1")), Listed([Dict(step)]), map[]), Dict(step));
  }
}
