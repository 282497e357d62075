/** When the detections that merging leaves are pairwise distinct markers. */
module VisionDistinct {
  import opened Options
  import opened VisionDedupe
  import opened VisionMarkers

  function Scores(items: seq<Item>): (scores: seq<real>)
    ensures |scores| == |items|
  {
    seq(|items|, i requires 0 <= i < |items| => Score(items[i]))
  }

  /** No detection has a higher score than one that came two or more places before it. */
  predicate Settling(scores: seq<real>) {
    forall i, k | 0 <= i && i + 2 <= k < |scores| :: scores[k] <= scores[i]
  }

  // ---------- settling scores keep the representatives apart ----------

  lemma ReviewKeepsScore(item: Item, count: nat)
    ensures Score(Reviewed(item, count)) == Score(item)
  {
  }

  /** A representative has the score of the item it was copied from. */
  lemma RepScore(items: seq<Item>, c: nat)
    requires c < |Reps(items)|
    ensures c < |Leads(items)| && Leads(items)[c] < |items| && Score(Reps(items)[c]) == Score(items[Leads(items)[c]])
  {
    ClustersAreOk(items);
    assert ClusterOk(items, Owners(items), Reps(items)[c], Leads(items)[c], c);
  }

  lemma LeadsAreEarlier(items: seq<Item>)
    ensures |Leads(items)| == |Reps(items)|
    ensures forall c | 0 <= c < |Leads(items)| :: Leads(items)[c] < |items|
  {
    ClustersAreOk(items);
    forall c | 0 <= c < |Leads(items)|
      ensures Leads(items)[c] < |items|
    {
      RepScore(items, c);
    }
  }

  /** A lead that is the latest item was appended, or replaced a lead of lower score. */
  lemma WhoLeads(leads: seq<nat>, slot: nat, better: bool, n: nat, c: nat)
    requires slot <= |leads| && forall d | 0 <= d < |leads| :: leads[d] < n
    requires var after := if slot == |leads| then leads + [n] else if better then leads[slot := n] else leads;
      c < |after| && after[c] == n
    ensures c == slot && (slot == |leads| || better)
  {
  }

  /** An item that beats none of the representatives' scores cannot take one over. */
  lemma BeatsNoRep(before: seq<Item>, raw: Item, slot: nat)
    requires slot < |Reps(before)| && forall i | 0 <= i < |before| :: Score(raw) <= Score(before[i])
    ensures Score(Reviewed(raw, 1)) <= Score(Reps(before)[slot])
  {
    RepScore(before, slot);
    ReviewKeepsScore(raw, 1);
  }

  /** A detection that beats no earlier one can only lead a new cluster, the last one. */
  lemma LatestLead(items: seq<Item>, c: nat)
    requires items != [] && c < |Leads(items)| && Leads(items)[c] == |items| - 1
    requires forall i | 0 <= i < |items| - 1 :: Score(items[|items| - 1]) <= Score(items[i])
    ensures c == |Reps(items)| - 1
  {
    var n := |items| - 1;
    var before, raw := items[..n], items[n];
    var reps, leads, item := Reps(before), Leads(before), Reviewed(raw, 1);
    var slot := Slot(reps, item);
    var better := slot < |reps| && Score(item) > Score(reps[slot]);
    LeadsAreEarlier(before);
    WhoLeads(leads, slot, better, n, c);
    if better {
      BeatsNoRep(before, raw, slot);
    }
  }

  lemma ScoresSnoc(before: seq<Item>, raw: Item)
    ensures Scores(before + [raw]) == Scores(before) + [Score(raw)]
  {
  }

  /** With settling scores only the latest item can be beaten, and only if it beat nothing itself. */
  lemma OnlyTheLatestIsBeaten(scores: seq<real>, score: real, lead: nat)
    requires Settling(scores + [score]) && lead < |scores| && score > scores[lead]
    ensures lead == |scores| - 1
    ensures forall i | 0 <= i < lead :: scores[lead] <= scores[i]
  {
    var all := scores + [score];
    assert all[|scores|] == score && all[lead] == scores[lead];
    forall i | 0 <= i < lead
      ensures scores[lead] <= scores[i]
    {
      assert all[i] == scores[i];
    }
  }

  lemma BeatenLeadIsLatest(before: seq<Item>, raw: Item, lead: nat)
    requires Settling(Scores(before + [raw])) && lead < |before| && Score(raw) > Score(before[lead])
    ensures lead == |before| - 1
    ensures forall i | 0 <= i < lead :: Score(before[lead]) <= Score(before[i])
  {
    ScoresSnoc(before, raw);
    var scores := Scores(before);
    OnlyTheLatestIsBeaten(scores, Score(raw), lead);
    forall i | 0 <= i < lead
      ensures Score(before[lead]) <= Score(before[i])
    {
      assert scores[lead] <= scores[i];
    }
  }

  /** So only a cluster that is new, and thus the last, changes its lead. */
  lemma OnlyTheLastLeadChanges(before: seq<Item>, raw: Item, slot: nat)
    requires Settling(Scores(before + [raw]))
    requires slot < |Reps(before)| && Score(raw) > Score(Reps(before)[slot])
    ensures slot == |Reps(before)| - 1
  {
    RepScore(before, slot);
    BeatenLeadIsLatest(before, raw, Leads(before)[slot]);
    LatestLead(before, slot);
  }

  lemma {:induction false} SettlingKeepsRepsApart(items: seq<Item>)
    requires Settling(Scores(items))
    ensures NoTwoMatch(Reps(items))
  {
    if items != [] {
      var n := |items| - 1;
      var before, raw := items[..n], items[n];
      assert items == before + [raw];
      assert Scores(before) == Scores(items)[..n];
      SettlingKeepsRepsApart(before);
      var reps, item := Reps(before), Reviewed(raw, 1);
      var slot := Slot(reps, item);
      SlotIsFirstMatch(reps, item);
      if slot < |reps| {
        if Score(item) > Score(reps[slot]) {
          OnlyTheLastLeadChanges(before, raw, slot);
        }
        MergeKeepsApart(reps, item, slot);
      }
    }
  }

  /** Merging into a representative keeps all apart if it stays, or if it is the last. */
  lemma MergeKeepsApart(reps: seq<Item>, item: Item, slot: nat)
    requires NoTwoMatch(reps) && slot < |reps| && slot == Slot(reps, item)
    requires Score(item) <= Score(reps[slot]) || slot == |reps| - 1
    ensures NoTwoMatch(reps[slot := Merged(reps[slot], item)])
  {
    SlotIsFirstMatch(reps, item);
    var merged := reps[slot := Merged(reps[slot], item)];
    forall i, j | 0 <= i < j < |merged|
      ensures !SameMarker(merged[i], merged[j])
    {
      assert !SameMarker(reps[i], reps[j]);
    }
  }

  lemma ReviewKeepsApart(items: seq<Item>)
    ensures NoTwoMatch(Deduped(items)) <==> NoTwoMatch(Reps(items))
  {
    var reps, out := Reps(items), Deduped(items);
    forall i, j | 0 <= i < j < |reps|
      ensures SameMarker(out[i], out[j]) == SameMarker(reps[i], reps[j])
    {
    }
  }

  // ---------- other scores have a placement that does not ----------

  function Named(identity: string, x: real, score: real): Item {
    Item(identity, AtPoint(x), "", Finite(score), Missing, 1.0, "", None, None, None)
  }

  /** A name of its own for each place in the list. */
  function Stray(n: nat): string {
    seq(n + 1, _ => '.')
  }

  /** Item `i` at 0.0, the next at 0.2, item `k` between them, and everything else something else. */
  function Placed(scores: seq<real>, i: nat, k: nat): (items: seq<Item>)
    ensures |items| == |scores|
  {
    seq(|scores|, c requires 0 <= c < |scores| =>
      if c == i then Named("milk", 0.0, scores[c])
      else if c == i + 1 then Named("milk", 0.2, scores[c])
      else if c == k then Named("milk", 0.1, scores[c])
      else Named(Stray(c), 0.0, scores[c]))
  }

  lemma StraysDiffer(a: nat, b: nat)
    ensures Stray(a) == Stray(b) <==> a == b
    ensures Stray(a) != "milk"
  {
    assert |Stray(a)| == a + 1 && |Stray(b)| == b + 1;
    assert Stray(a)[0] == '.';
  }

  lemma PlacedHasTheScores(scores: seq<real>, i: nat, k: nat)
    requires forall c | 0 <= c < |scores| :: 0.0 <= scores[c] <= 1.0
    ensures Scores(Placed(scores, i, k)) == scores
  {
  }

  /** Nothing matches before item `k`, which is better than item `i` and near both it and the next. */
  ghost predicate Arranged(items: seq<Item>, i: nat, k: nat) {
    && i + 2 <= k < |items| && Score(items[k]) > Score(items[i])
    && items[i].identity == "milk" && items[i].place == AtPoint(0.0)
    && items[i + 1].identity == "milk" && items[i + 1].place == AtPoint(0.2)
    && items[k].identity == "milk" && items[k].place == AtPoint(0.1)
    && NoTwoMatch(items[..k])
    && (forall c | 0 <= c < |items| && c != i && c != i + 1 && c != k :: items[c].identity != "milk")
  }

  lemma PlacedApart(scores: seq<real>, i: nat, k: nat)
    requires i + 2 <= k < |scores|
    ensures NoTwoMatch(Placed(scores, i, k)[..k])
  {
    var items := Placed(scores, i, k)[..k];
    SamePlaceIsNotTransitive();
    forall a, b | 0 <= a < b < |items|
      ensures !SameMarker(items[a], items[b])
    {
      StraysDiffer(a, b);
      StraysDiffer(b, a);
    }
  }

  lemma PlacedIsArranged(scores: seq<real>, i: nat, k: nat)
    requires i + 2 <= k < |scores| && scores[i] < scores[k]
    requires forall c | 0 <= c < |scores| :: 0.0 <= scores[c] <= 1.0
    ensures Arranged(Placed(scores, i, k), i, k)
  {
    PlacedApart(scores, i, k);
    var items := Placed(scores, i, k);
    assert Score(items[k]) == scores[k] && Score(items[i]) == scores[i];
    forall c | 0 <= c < |items| && c != i && c != i + 1 && c != k
      ensures items[c].identity != "milk"
    {
      StraysDiffer(c, c);
    }
  }

  /** Representatives `i` and `i + 1` are the same marker. */
  ghost predicate Clash(reps: seq<Item>, i: nat) {
    && i + 1 < |reps|
    && reps[i].identity == "milk" && reps[i].place == AtPoint(0.1)
    && reps[i + 1].identity == "milk" && reps[i + 1].place == AtPoint(0.2)
  }

  lemma FirstMatchIsTheSlot(reps: seq<Item>, item: Item, i: nat)
    requires i < |reps| && SameMarker(reps[i], item) && forall c | 0 <= c < i :: !SameMarker(reps[c], item)
    ensures Slot(reps, item) == i
  {
    SlotIsFirstMatch(reps, item);
  }

  /** A better item at 0.1 takes over the representative at 0.0 and comes near the one at 0.2. */
  lemma TakeoverClashes(reps: seq<Item>, i: nat, raw: Item)
    requires i + 1 < |reps| && Slot(reps, Reviewed(raw, 1)) == i && Score(raw) > Score(reps[i])
    requires raw.identity == "milk" && raw.place == AtPoint(0.1)
    requires reps[i + 1].identity == "milk" && reps[i + 1].place == AtPoint(0.2)
    ensures Clash(PlaceItem(reps, raw), i)
  {
    ReviewKeepsScore(raw, 1);
  }

  /** Item `k` finds the representative of item `i`. */
  lemma MoveFindsItem(items: seq<Item>, reps: seq<Item>, i: nat, k: nat)
    requires Arranged(items, i, k) && |reps| == k && forall c | 0 <= c < k :: reps[c] == Reviewed(items[c], 1)
    ensures Slot(reps, Reviewed(items[k], 1)) == i
  {
    SamePlaceIsNotTransitive();
    FirstMatchIsTheSlot(reps, Reviewed(items[k], 1), i);
  }

  lemma MoveClashes(items: seq<Item>, i: nat, k: nat)
    requires Arranged(items, i, k)
    ensures Clash(PlaceItem(Reps(items[..k]), items[k]), i)
  {
    WithoutMatchesNothingMerges(items[..k]);
    MoveFindsItem(items, Reps(items[..k]), i, k);
    ReviewKeepsScore(items[i], 1);
    TakeoverClashes(Reps(items[..k]), i, items[k]);
  }

  /** A detection with another name leaves the two representatives where they are. */
  lemma OtherNamesKeepClash(reps: seq<Item>, i: nat, raw: Item)
    requires Clash(reps, i) && raw.identity != "milk"
    ensures Clash(PlaceItem(reps, raw), i)
  {
    var slot := Slot(reps, Reviewed(raw, 1));
    SlotIsFirstMatch(reps, Reviewed(raw, 1));
    assert slot != i && slot != i + 1;
  }

  lemma ClashSnoc(items: seq<Item>, i: nat, k: nat, n: nat)
    requires Arranged(items, i, k) && k < n < |items| && Clash(Reps(items[..n]), i)
    ensures Clash(Reps(items[..n + 1]), i)
  {
    OtherNamesKeepClash(Reps(items[..n]), i, items[n]);
    FoldSnoc(items, n);
  }

  lemma ClashStarts(items: seq<Item>, i: nat, k: nat)
    requires Arranged(items, i, k)
    ensures Clash(Reps(items[..k + 1]), i)
  {
    MoveClashes(items, i, k);
    FoldSnoc(items, k);
  }

  lemma {:induction false} ClashStays(items: seq<Item>, i: nat, k: nat, n: nat)
    requires Arranged(items, i, k) && k < n <= |items|
    ensures Clash(Reps(items[..n]), i)
  {
    if n == k + 1 {
      ClashStarts(items, i, k);
    } else {
      var m := n - 1;
      ClashStays(items, i, k, m);
      ClashSnoc(items, i, k, m);
      assert items[..m + 1] == items[..n];
    }
  }

  lemma ArrangedItemsClash(items: seq<Item>, i: nat, k: nat)
    requires Arranged(items, i, k)
    ensures !NoTwoMatch(Deduped(items))
  {
    ClashStays(items, i, k, |items|);
    assert items[..|items|] == items;
    SamePlaceIsNotTransitive();
    assert SameMarker(Reps(items)[i], Reps(items)[i + 1]);
    ReviewKeepsApart(items);
  }

  /** The outputs are pairwise distinct if no score tops one two or more places before it. */
  lemma SettlingOutputsAreDistinct(items: seq<Item>)
    requires Settling(Scores(items))
    ensures NoTwoMatch(Deduped(items))
  {
    SettlingKeepsRepsApart(items);
    ReviewKeepsApart(items);
  }

  /**
   The outputs are pairwise distinct for every placement of detections with these scores exactly
   when the scores settle: no other condition on the scores alone is enough.
   */
  lemma OutputsAreDistinctIffScoresSettle(scores: seq<real>)
    requires forall c | 0 <= c < |scores| :: 0.0 <= scores[c] <= 1.0
    ensures (forall items | Scores(items) == scores :: NoTwoMatch(Deduped(items))) <==> Settling(scores)
  {
    if Settling(scores) {
      forall items | Scores(items) == scores
        ensures NoTwoMatch(Deduped(items))
      {
        SettlingOutputsAreDistinct(items);
      }
    } else {
      var i, k :| 0 <= i && i + 2 <= k < |scores| && scores[k] > scores[i];
      PlacedHasTheScores(scores, i, k);
      PlacedIsArranged(scores, i, k);
      ArrangedItemsClash(Placed(scores, i, k), i, k);
    }
  }
}
