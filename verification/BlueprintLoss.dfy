/** A blueprint in which the repair loses a step without a report. */
module BlueprintLoss {
  import opened BlueprintGeneral
  import opened BlueprintProperties
  import opened BlueprintRepair
  import opened BlueprintSteps
  import opened BlueprintStepwise
  import opened Options
  import opened Strings

  lemma {:induction false} ContainsNeedsRoom(s: string, part: string)
    requires |part| > |s|
    ensures !Contains(s, part)
  {
    if s != "" {
      ContainsNeedsRoom(s[1..], part);
    }
  }

  /** A one-letter id gives no role. */
  lemma ShortIdsGiveNoRole(id: string)
    requires |id| == 1
    ensures !Contains(Lower(id), "normalize") && !Contains(Lower(id), "generate") && !Contains(Lower(id), "validate")
  {
    ContainsNeedsRoom(Lower(id), "normalize");
    ContainsNeedsRoom(Lower(id), "generate");
    ContainsNeedsRoom(Lower(id), "validate");
  }

  lemma RoleOfItsBlock(role: Role, id: string)
    requires |id| == 1 && !role.Other?
    ensures RoleOf(BlockOf(role), id) == role
  {
    ShortIdsGiveNoRole(id);
    assert |NORMALIZE| == 23 && NORMALIZE[8] == 'i' && GENERATE[8] == 'r' && VALIDATE[8] == 'r';
    assert GENERATE[15] == 'g' && VALIDATE[15] == 'v';
  }

  lemma SeenAs(show: Printer, step: Step, index: nat, view: View)
    requires step.id == Some(Str(view.id)) && view.id != ""
    requires BlockName(show, Get(step.block), Get(step.blockType)) == view.name
        && RoleOf(view.name, view.id) == view.role
    ensures ViewOf(show, step, index) == view
  {
  }

  lemma RoleStepIsSeen(show: Printer, step: Step, index: nat, id: string, role: Role)
    requires |id| == 1 && step.id == Some(Str(id)) && step.block == Some(Str(BlockOf(role))) && !role.Other?
    ensures ViewOf(show, step, index) == View(id, BlockOf(role), role)
  {
    BlocksAreNotEmpty(role);
    BlockIsCanonical(role);
    NameOfItsOwnName(show, Str(BlockOf(role)), Get(step.blockType), BlockOf(role));
    RoleOfItsBlock(role, id);
    SeenAs(show, step, index, View(id, BlockOf(role), role));
  }

  lemma LettersAreCanonical(block: string)
    requires block in {"a", "b"}
    ensures CanonicalBlockName(block) == block
  {
    PlainNamesStay(block);
    assert Alias(block).Other?;
  }

  lemma PlainStepIsSeen(show: Printer, step: Step, index: nat, id: string, block: string)
    requires |id| == 1 && step.id == Some(Str(id)) && step.block == Some(Str(block)) && block in {"a", "b"}
    ensures ViewOf(show, step, index) == View(id, block, Other)
  {
    LettersAreCanonical(block);
    NameOfItsOwnName(show, Str(block), Get(step.blockType), block);
    ShortIdsGiveNoRole(id);
    assert RoleOf(block, id).Other?;
    SeenAs(show, step, index, View(id, block, Other));
  }

  /** A step with all that its role needs. */
  function ReadyStep(id: string, role: Role): Step {
    Step(Some(Str(id)), Some(Str(BlockOf(role))), None,
         Some(Obj(map["ingredients" := Null, "user_id" := Null, "constraints" := Null, "normalized" := Null,
                      "recipe" := Null])), map[])
  }

  function PlainStep(block: string, title: string): Step {
    Step(Some(Str("x")), Some(Str(block)), None, Some(Obj(map[])), map["title" := Str(title)])
  }

  /** Three steps that lack nothing, and two steps with one id. */
  function TwoOfOneId(): (entries: seq<Entry>)
    ensures |entries| == 5
  {
    [Dict(ReadyStep("n", Normalize)), Dict(ReadyStep("g", Generate)), Dict(ReadyStep("v", Validate)),
     Dict(PlainStep("a", "first")), Dict(PlainStep("b", "second"))]
  }

  function SeenSo(i: nat): View
    requires i < 5
  {
    match i
    case 0 => View("n", NORMALIZE, Normalize)
    case 1 => View("g", GENERATE, Generate)
    case 2 => View("v", VALIDATE, Validate)
    case 3 => View("x", "a", Other)
    case _ => View("x", "b", Other)
  }

  lemma TheyAreSeenSo(show: Printer, i: nat)
    requires i < 5
    ensures Views(show, TwoOfOneId())[i] == SeenSo(i)
  {
    match i
    case 0 => RoleStepIsSeen(show, ReadyStep("n", Normalize), 0, "n", Normalize);
    case 1 => RoleStepIsSeen(show, ReadyStep("g", Generate), 1, "g", Generate);
    case 2 => RoleStepIsSeen(show, ReadyStep("v", Validate), 2, "v", Validate);
    case 3 => PlainStepIsSeen(show, PlainStep("a", "first"), 3, "x", "a");
    case _ => PlainStepIsSeen(show, PlainStep("b", "second"), 4, "x", "b");
  }

  lemma {:induction false} LastIs(views: seq<View>, role: Role, i: nat)
    requires i < |views| && views[i].role == role && forall k | i < k < |views| :: views[k].role != role
    ensures Last(views, role) == i && IdOf(views, role) == views[i].id
  {
    var n := |views| - 1;
    if i < n {
      LastIs(views[..n], role, i);
    }
  }

  lemma TheirRoles(views: seq<View>)
    requires |views| == 5 && forall i | 0 <= i < 5 :: views[i] == SeenSo(i)
    ensures IdOf(views, Normalize) == "n" && IdOf(views, Generate) == "g" && IdOf(views, Validate) == "v"
  {
    LastIs(views, Normalize, 0);
    LastIs(views, Generate, 1);
    LastIs(views, Validate, 2);
  }

  lemma {:induction false} LastWithIs(entries: seq<Entry>, views: seq<View>, id: string, i: nat)
    requires |entries| == |views| && i < |entries| && HasId(entries[i], views[i], id)
    requires forall k | i < k < |entries| :: views[k].id != id
    ensures LastWith(entries, views, id) == i
  {
    LastWithFinds(entries, views, id, i);
  }

  lemma LetterIsNotBlank(id: string)
    requires id in {"n", "g", "v", "x"}
    ensures Strip(id) != ""
  {
    PlainNamesStay(id);
  }

  /** Who stands for which id. */
  lemma TheirHeirs(entries: seq<Entry>, views: seq<View>)
    requires entries == TwoOfOneId() && |views| == 5 && forall i | 0 <= i < 5 :: views[i] == SeenSo(i)
    ensures Heir(entries, views, "n") == ReadyStep("n", Normalize)
    ensures Heir(entries, views, "g") == ReadyStep("g", Generate)
    ensures Heir(entries, views, "v") == ReadyStep("v", Validate)
    ensures Heir(entries, views, "x") == PlainStep("b", "second")
  {
    LetterIsNotBlank("n");
    LetterIsNotBlank("g");
    LetterIsNotBlank("v");
    LetterIsNotBlank("x");
    LastWithIs(entries, views, "n", 0);
    LastWithIs(entries, views, "g", 1);
    LastWithIs(entries, views, "v", 2);
    LastWithIs(entries, views, "x", 4);
  }

  lemma ReadyStepsAreComplete(step: Step, id: string, n: string, g: string, v: string)
    requires forall role: Role :: !Lacks(role, InputsOf(step))
    ensures Complete(step, id, n, g, v)
  {
    FillKeepsAllIffNothingLacks(Normalize, InputsOf(step), n, g);
    FillKeepsAllIffNothingLacks(Generate, InputsOf(step), n, g);
    FillKeepsAllIffNothingLacks(Validate, InputsOf(step), n, g);
  }

  lemma ReadyStepLacksNothing(id: string, role: Role, needed: Role)
    ensures !Lacks(needed, InputsOf(ReadyStep(id, role)))
  {
  }

  lemma NothingToFix(show: Printer, i: nat)
    requires i < 5
    ensures !EntryFlag(show, TwoOfOneId()[i], SeenSo(i)) && !EntryOverwritten(TwoOfOneId()[i], SeenSo(i))
  {
    BlocksAreNotEmpty(Normalize);
    BlocksAreNotEmpty(Generate);
    BlocksAreNotEmpty(Validate);
  }

  lemma NothingIsFixed(show: Printer, entries: seq<Entry>, views: seq<View>)
    requires entries == TwoOfOneId() && views == Views(show, entries) && forall i | 0 <= i < 5 :: views[i] == SeenSo(i)
    ensures FixAll(show, entries, views) == entries && !AnyFlag(show, entries, views) && !AnyOverwritten(entries, views)
  {
    TheViewsFit(show, entries);
    forall i | 0 <= i < 5
      ensures !EntryFlag(show, entries[i], views[i]) && !EntryOverwritten(entries[i], views[i])
      ensures FixEntry(show, entries[i], views[i]) == entries[i]
    {
      NothingToFix(show, i);
      assert EntryFits(show, entries[i], views[i]);
      FixedEntryKeepsIff(show, entries[i], views[i]);
    }
  }

  lemma ReadyStepIsComplete(id: string, role: Role, n: string, g: string, v: string)
    ensures Complete(ReadyStep(id, role), id, n, g, v)
  {
    forall needed: Role
      ensures !Lacks(needed, InputsOf(ReadyStep(id, role)))
    {
      ReadyStepLacksNothing(id, role, needed);
    }
    ReadyStepsAreComplete(ReadyStep(id, role), id, n, g, v);
  }

  lemma TheirHeirsAreComplete(entries: seq<Entry>, views: seq<View>)
    requires entries == TwoOfOneId() && |views| == 5 && forall i | 0 <= i < 5 :: views[i] == SeenSo(i)
    ensures HeirsAreComplete(entries, views)
  {
    TheirHeirs(entries, views);
    TheirRoles(views);
    ReadyStepIsComplete("n", Normalize, "n", "g", "v");
    ReadyStepIsComplete("g", Generate, "n", "g", "v");
    ReadyStepIsComplete("v", Validate, "n", "g", "v");
  }

  lemma NothingIsReported(show: Printer, entries: seq<Entry>, views: seq<View>)
    requires Fitting(show, entries, views) && HeirsAreComplete(entries, views)
    requires FixAll(show, entries, views) == entries && !AnyFlag(show, entries, views)
    ensures !StepsFlag(show, entries, views)
  {
    FlagSaysWhetherHeirsAreComplete(show, entries, views);
  }

  lemma TheTwoDiffer()
    ensures PlainStep("a", "first").others != PlainStep("b", "second").others
  {
    assert PlainStep("a", "first").others["title"] == Str("first");
    assert PlainStep("b", "second").others["title"] == Str("second");
    assert |"first"| != |"second"|;
  }

  lemma TheyDoNotAgree(entries: seq<Entry>, views: seq<View>)
    requires entries == TwoOfOneId() && |views| == 5 && forall i | 0 <= i < 5 :: views[i] == SeenSo(i)
    ensures !Agree(entries, views)
  {
    LetterIsNotBlank("x");
    TheTwoDiffer();
    assert entries[3] != entries[4] && views[3].id == "x" && views[4].id == "x";
  }

  lemma TheFirstIsNotPassedOn(entries: seq<Entry>, views: seq<View>)
    requires entries == TwoOfOneId() && |views| == 5 && forall i | 0 <= i < 5 :: views[i] == SeenSo(i)
    ensures AllRoles(views) && !EntryPassedOn(entries, views, 3)
  {
    TheirRoles(views);
    TheirHeirs(entries, views);
    LetterIsNotBlank("x");
    TheTwoDiffer();
    assert Heir(entries, views, views[3].id) == PlainStep("b", "second");
  }

  lemma VersionOneIsKept(show: Printer, blueprint: Blueprint, entries: seq<Entry>, views: seq<View>)
    requires blueprint.version == Some(Str("v1")) && blueprint.steps == Listed(entries) && |views| == |entries|
    ensures Repaired(show, blueprint, views)
            == (blueprint.(steps := Listed(RepairSteps(show, entries, views))), StepsFlag(show, entries, views))
  {
    assert Text(show, Str("v1")) == "v1";
  }

  /** Steps with one id that differ, among steps of which nothing is reported. */
  lemma DisagreementIsSilent(show: Printer, entries: seq<Entry>, views: seq<View>, i: nat)
    requires Fitting(show, entries, views) && Faithful(entries, views)
    requires !StepsFlag(show, entries, views) && AllRoles(views) && !Agree(entries, views)
    requires i < |entries| && !EntryPassedOn(entries, views, i)
    ensures RepairSteps(show, entries, views) != entries && !Kept(entries[i], RepairSteps(show, entries, views)[i])
  {
    EntryIsKeptIff(show, entries, views, i);
    StepsStayIff(show, entries, views);
  }

  /** The first of two steps with one id is replaced by the second, and nothing is reported. */
  lemma LossCanBeSilent(show: Printer, entries: seq<Entry>)
    requires entries == TwoOfOneId()
    ensures var blueprint := Blueprint(Some(Str("v1")), Listed(entries), map[]);
            var (repaired, changed) := Repaired(show, blueprint, ViewsOf(show, blueprint));
      !changed && repaired != blueprint && !Kept(entries[3], repaired.steps.entries[3])
  {
    var views := Views(show, entries);
    forall i | 0 <= i < 5
      ensures views[i] == SeenSo(i)
    {
      TheyAreSeenSo(show, i);
    }
    NothingIsFixed(show, entries, views);
    TheirHeirsAreComplete(entries, views);
    TheViewsFit(show, entries);
    NothingIsReported(show, entries, views);
    TheyDoNotAgree(entries, views);
    TheFirstIsNotPassedOn(entries, views);
    ViewsAreFaithful(show, entries);
    DisagreementIsSilent(show, entries, views, 3);
    VersionOneIsKept(show, Blueprint(Some(Str("v1")), Listed(entries), map[]), entries, views);
  }
}
