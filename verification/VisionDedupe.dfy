/** The greedy merging of detections by `_dedupe_vision_items_for_overlay`. */
module VisionDedupe {
  import opened Options
  import opened VisionMarkers

  datatype Trust = Review | Check | Trusted

  /**
   A detection. `identity` is the key made of its normalised name, brand and unit, `details`
   all the fields that merging never looks at.
   */
  datatype Item = Item(
    identity: string, place: Place, details: string,
    confidenceScore: Num, confidence: Num, quantity: real,
    dedupeKey: string, trust: Option<Trust>, reviewRequired: Option<bool>, duplicateCount: Option<nat>)

  /** A missing score falls back to the other field, an unusable one to 0.8. */
  function Score(item: Item): (score: real)
    ensures 0.0 <= score <= 1.0
  {
    var raw := if item.confidenceScore.Missing? then item.confidence else item.confidenceScore;
    if !raw.Finite? then 0.8
    else
      var score := if raw.value > 1.0 then raw.value / 100.0 else raw.value;
      Max(0.0, Min(1.0, score))
  }

  function TrustLevel(score: real): Trust {
    if score < 0.7 then Review else if score < 0.85 then Check else Trusted
  }

  /** `_vision_with_review_contract`. */
  function Reviewed(item: Item, count: nat): Item {
    item.(
      dedupeKey := if item.dedupeKey != "" then item.dedupeKey else item.identity,
      trust := Some(TrustLevel(Score(item))),
      reviewRequired := Some(Score(item) < 0.7),
      duplicateCount := if count > 1 then Some(count) else item.duplicateCount)
  }

  /** A usable score, as a fraction, from a fraction or a percentage. */
  ghost predicate ScoredFrom(reading: real, score: real) {
    && (reading <= 0.0 ==> score == 0.0)
    && (0.0 < reading <= 1.0 ==> score == reading)
    && (1.0 < reading <= 100.0 ==> 100.0 * score == reading)
    && (100.0 < reading ==> score == 1.0)
  }

  lemma ScoreHasItsReading(item: Item)
    ensures item.confidenceScore.Finite? ==> ScoredFrom(item.confidenceScore.value, Score(item))
    ensures item.confidenceScore.NotFinite? ==> Score(item) == 0.8
    ensures item.confidenceScore.Missing? && item.confidence.Finite? ==> ScoredFrom(item.confidence.value, Score(item))
    ensures item.confidenceScore.Missing? && !item.confidence.Finite? ==> Score(item) == 0.8
  {
  }

  /** What a review writes, and that it writes nothing else. */
  lemma ReviewWrites(item: Item, count: nat)
    ensures var r := Reviewed(item, count);
      && (r.trust == Some(Review) <==> Score(item) < 0.7)
      && (r.trust == Some(Check) <==> 0.7 <= Score(item) < 0.85)
      && (r.trust == Some(Trusted) <==> Score(item) >= 0.85)
      && r.reviewRequired == Some(r.trust == Some(Review))
      && (item.dedupeKey == "" ==> r.dedupeKey == item.identity)
      && (item.dedupeKey != "" ==> r.dedupeKey == item.dedupeKey)
      && (count <= 1 ==> r.duplicateCount == item.duplicateCount)
      && (count > 1 ==> r.duplicateCount == Some(count))
      && r.identity == item.identity && r.place == item.place && r.details == item.details
      && r.confidenceScore == item.confidenceScore && r.confidence == item.confidence && r.quantity == item.quantity
  {
  }

  predicate SameMarker(left: Item, right: Item) {
    left.identity == right.identity && SamePlace(left.place, right.place)
  }

  /** One marker: one identity, and boxes that share enough, close centres, or no place on either side. */
  lemma SameMarkerIff(left: Item, right: Item)
    ensures SameMarker(left, right) <==>
      && left.identity == right.identity
      && (|| (exists l, r ::
                VisionBox(left.place) == Some(l) && VisionBox(right.place) == Some(r) && Iou(l, r) >= 0.45)
          || (exists l, r ::
                && VisionCenter(left.place) == Some(l) && VisionCenter(right.place) == Some(r)
                && CentersAreClose(l, r))
          || (VisionCenter(left.place).None? && VisionCenter(right.place).None?))
  {
    SamePlaceIff(left.place, right.place);
  }

  lemma SameMarkerIsReflexiveAndSymmetric(left: Item, right: Item)
    ensures SameMarker(left, left)
    ensures SameMarker(left, right) == SameMarker(right, left)
  {
    SamePlaceIsReflexive(left.place);
    SamePlaceIsSymmetric(left.place, right.place);
  }

  // ---------- the fold ----------

  /** The first representative that matches, or the number of them when none does. */
  function Slot(reps: seq<Item>, item: Item): (slot: nat)
    ensures slot <= |reps|
  {
    if reps == [] || SameMarker(reps[0], item) then 0 else 1 + Slot(reps[1..], item)
  }

  lemma {:induction false} SlotIsFirstMatch(reps: seq<Item>, item: Item)
    ensures var slot := Slot(reps, item);
      && (slot < |reps| ==> SameMarker(reps[slot], item))
      && forall i | 0 <= i < slot :: !SameMarker(reps[i], item)
  {
    if reps != [] && !SameMarker(reps[0], item) {
      SlotIsFirstMatch(reps[1..], item);
      assert forall i | 0 < i < |reps| :: reps[i] == reps[1..][i - 1];
    }
  }

  /** The representatives before an item decide its cluster: the first that matches, or a new one. */
  ghost predicate JoinsTheFirstMatch(reps: seq<Item>, item: Item, owner: nat) {
    && owner <= |reps|
    && (owner < |reps| ==> SameMarker(reps[owner], item))
    && forall c | 0 <= c < owner :: !SameMarker(reps[c], item)
  }

  function Better(existing: Item, item: Item): Item {
    if Score(item) > Score(existing) then item else existing
  }

  function Merged(existing: Item, item: Item): Item {
    Better(existing, item).(quantity := Max(Max(existing.quantity, item.quantity), 1.0))
  }

  function PlaceItem(reps: seq<Item>, raw: Item): seq<Item> {
    var item := Reviewed(raw, 1);
    var slot := Slot(reps, item);
    if slot == |reps| then reps + [item] else reps[slot := Merged(reps[slot], item)]
  }

  /** The representatives after all items. */
  function Reps(items: seq<Item>): seq<Item> {
    if items == [] then [] else PlaceItem(Reps(items[..|items| - 1]), items[|items| - 1])
  }

  /** The cluster each item went to. */
  function Owners(items: seq<Item>): seq<nat> {
    if items == [] then []
    else
      var before := items[..|items| - 1];
      Owners(before) + [Slot(Reps(before), Reviewed(items[|items| - 1], 1))]
  }

  /** The item each representative was copied from. */
  function Leads(items: seq<Item>): seq<nat> {
    if items == [] then []
    else
      var n := |items| - 1;
      var reps, leads, item := Reps(items[..n]), Leads(items[..n]), Reviewed(items[n], 1);
      var slot := Slot(reps, item);
      if slot >= |leads| || slot == |reps| then leads + [n]
      else if Score(item) > Score(reps[slot]) then leads[slot := n] else leads
  }

  function Count(owners: seq<nat>, c: nat): nat {
    if owners == [] then 0
    else Count(owners[..|owners| - 1], c) + if owners[|owners| - 1] == c then 1 else 0
  }

  lemma {:induction false} OwnersAreAsMany(items: seq<Item>)
    ensures |Owners(items)| == |items|
  {
    if items != [] {
      OwnersAreAsMany(items[..|items| - 1]);
    }
  }

  /** Later items change nothing about the cluster of an earlier one. */
  lemma {:induction false} OwnerIsTheSlot(items: seq<Item>, n: nat)
    requires n < |items|
    ensures |Owners(items)| == |items|
    ensures Owners(items)[n] == Slot(Reps(items[..n]), Reviewed(items[n], 1))
  {
    var before := items[..|items| - 1];
    OwnersAreAsMany(before);
    if n < |before| {
      OwnerIsTheSlot(before, n);
      assert before[..n] == items[..n];
    }
  }

  lemma SlotJoinsTheFirstMatch(reps: seq<Item>, item: Item)
    ensures JoinsTheFirstMatch(reps, item, Slot(reps, Reviewed(item, 1)))
  {
    SlotIsFirstMatch(reps, Reviewed(item, 1));
  }

  lemma EachItemJoinsTheFirstMatch(items: seq<Item>, n: nat)
    requires n < |items|
    ensures |Owners(items)| == |items|
    ensures JoinsTheFirstMatch(Reps(items[..n]), items[n], Owners(items)[n])
  {
    OwnerIsTheSlot(items, n);
    SlotJoinsTheFirstMatch(Reps(items[..n]), items[n]);
  }

  function Deduped(items: seq<Item>): seq<Item> {
    var reps, owners := Reps(items), Owners(items);
    seq(|reps|, c requires 0 <= c < |reps| => Reviewed(reps[c], Count(owners, c)))
  }

  // ---------- what the clusters are ----------

  /** `lead` is the earliest member of maximal score, and the representative is its copy. */
  ghost predicate LeadOk(items: seq<Item>, owners: seq<nat>, rep: Item, lead: nat, c: nat)
    requires |owners| == |items|
  {
    && lead < |items| && owners[lead] == c
    && rep == Reviewed(items[lead], 1).(quantity := rep.quantity)
    && (forall i | 0 <= i < |items| && owners[i] == c :: items[i].identity == rep.identity)
    && (forall i | 0 <= i < |items| && owners[i] == c :: Score(items[i]) <= Score(items[lead]))
    && (forall i | 0 <= i < lead && owners[i] == c :: Score(items[i]) < Score(items[lead]))
  }

  /** A single member keeps its quantity; a merged one is the largest of 1 and all members. */
  ghost predicate QuantityOk(items: seq<Item>, owners: seq<nat>, quantity: real, lead: nat, c: nat)
    requires |owners| == |items|
  {
    if Count(owners, c) == 1 then lead < |items| && quantity == items[lead].quantity
    else
      && quantity >= 1.0
      && (forall i | 0 <= i < |items| && owners[i] == c :: items[i].quantity <= quantity)
      && (quantity == 1.0 || exists i | 0 <= i < |items| :: owners[i] == c && items[i].quantity == quantity)
  }

  ghost predicate ClusterOk(items: seq<Item>, owners: seq<nat>, rep: Item, lead: nat, c: nat)
    requires |owners| == |items|
  {
    LeadOk(items, owners, rep, lead, c) && QuantityOk(items, owners, rep.quantity, lead, c)
  }

  /** One of the first `n` items is in cluster `c`. */
  ghost predicate HasMember(owners: seq<nat>, n: nat, c: nat)
    requires n <= |owners|
  {
    exists j | 0 <= j < n :: owners[j] == c
  }

  /** Every item is in one cluster, and clusters are numbered by their first members. */
  ghost predicate IsPartition(owners: seq<nat>, clusters: nat) {
    && (forall i | 0 <= i < |owners| :: owners[i] < clusters)
    && (forall c: nat | c < clusters :: HasMember(owners, |owners|, c))
    && (forall i: nat, c: nat | i < |owners| && c < owners[i] :: HasMember(owners, i, c))
  }

  lemma CountSnoc(owners: seq<nat>, owner: nat, c: nat)
    ensures Count(owners + [owner], c) == Count(owners, c) + if owner == c then 1 else 0
  {
    assert (owners + [owner])[..|owners|] == owners;
  }

  lemma {:induction false} CountFindsMembers(owners: seq<nat>, c: nat, i: nat)
    requires i < |owners| && owners[i] == c
    ensures Count(owners, c) >= 1
    ensures forall j | 0 <= j < |owners| && j != i && owners[j] == c :: Count(owners, c) >= 2
  {
    var n := |owners| - 1;
    if i < n {
      CountFindsMembers(owners[..n], c, i);
    } else {
      forall j | 0 <= j < n && owners[j] == c
        ensures Count(owners[..n], c) >= 1
      {
        CountFindsMembers(owners[..n], c, j);
      }
    }
  }

  lemma {:induction false} CountIsZeroForNew(owners: seq<nat>, c: nat)
    requires forall i | 0 <= i < |owners| :: owners[i] != c
    ensures Count(owners, c) == 0
  {
    if owners != [] {
      CountIsZeroForNew(owners[..|owners| - 1], c);
    }
  }

  /** A cluster the new item did not join is as it was. */
  lemma ClusterFrame(items: seq<Item>, owners: seq<nat>, rep: Item, lead: nat, c: nat, raw: Item, slot: nat)
    requires |owners| == |items| && ClusterOk(items, owners, rep, lead, c) && slot != c
    ensures ClusterOk(items + [raw], owners + [slot], rep, lead, c)
  {
    CountSnoc(owners, slot, c);
    var grown, grownOwners := items + [raw], owners + [slot];
    assert forall i | 0 <= i < |items| :: grown[i] == items[i] && grownOwners[i] == owners[i];
    if Count(owners, c) != 1 && rep.quantity != 1.0 {
      var i :| 0 <= i < |items| && owners[i] == c && items[i].quantity == rep.quantity;
      assert grownOwners[i] == c && grown[i].quantity == rep.quantity;
    }
  }

  lemma NewClusterIsOk(items: seq<Item>, owners: seq<nat>, c: nat, raw: Item)
    requires |owners| == |items| && forall i | 0 <= i < |owners| :: owners[i] != c
    ensures ClusterOk(items + [raw], owners + [c], Reviewed(raw, 1), |items|, c)
  {
    CountSnoc(owners, c, c);
    CountIsZeroForNew(owners, c);
  }

  lemma MergedLeadIsOk(items: seq<Item>, owners: seq<nat>, rep: Item, lead: nat, c: nat, raw: Item)
    requires |owners| == |items| && LeadOk(items, owners, rep, lead, c)
    requires SameMarker(rep, Reviewed(raw, 1))
    ensures LeadOk(items + [raw], owners + [c], Merged(rep, Reviewed(raw, 1)),
                   if Score(Reviewed(raw, 1)) > Score(rep) then |items| else lead, c)
  {
    var grown, grownOwners := items + [raw], owners + [c];
    assert Score(rep) == Score(items[lead]) && Score(Reviewed(raw, 1)) == Score(raw);
    assert forall i | 0 <= i < |items| :: grown[i] == items[i] && grownOwners[i] == owners[i];
  }

  lemma MergedQuantityIsOk(items: seq<Item>, owners: seq<nat>, quantity: real, lead: nat, c: nat, raw: Item,
                           newLead: nat)
    requires |owners| == |items| && QuantityOk(items, owners, quantity, lead, c)
    requires lead < |items| && owners[lead] == c
    ensures QuantityOk(items + [raw], owners + [c], Max(Max(quantity, raw.quantity), 1.0), newLead, c)
  {
    var grown, grownOwners := items + [raw], owners + [c];
    var merged := Max(Max(quantity, raw.quantity), 1.0);
    CountSnoc(owners, c, c);
    CountFindsMembers(owners, c, lead);
    assert grown[|items|] == raw && grownOwners[|items|] == c;
    assert grown[lead] == items[lead] && grownOwners[lead] == c;
    forall i | 0 <= i < |grown| && grownOwners[i] == c
      ensures grown[i].quantity <= merged
    {
      if i < |items| {
        assert grown[i] == items[i] && owners[i] == c;
      }
    }
    if merged != 1.0 && merged == quantity && Count(owners, c) != 1 {
      var i :| 0 <= i < |items| && owners[i] == c && items[i].quantity == quantity;
      assert grownOwners[i] == c && grown[i].quantity == merged;
    }
  }

  lemma MergedClusterIsOk(items: seq<Item>, owners: seq<nat>, rep: Item, lead: nat, c: nat, raw: Item)
    requires |owners| == |items| && ClusterOk(items, owners, rep, lead, c)
    requires SameMarker(rep, Reviewed(raw, 1))
    ensures ClusterOk(items + [raw], owners + [c], Merged(rep, Reviewed(raw, 1)),
                      if Score(Reviewed(raw, 1)) > Score(rep) then |items| else lead, c)
  {
    MergedLeadIsOk(items, owners, rep, lead, c, raw);
    var newLead := if Score(Reviewed(raw, 1)) > Score(rep) then |items| else lead;
    MergedQuantityIsOk(items, owners, rep.quantity, lead, c, raw, newLead);
  }

  lemma MembersStay(owners: seq<nat>, slot: nat, n: nat, c: nat)
    requires n <= |owners| && HasMember(owners, n, c)
    ensures HasMember(owners + [slot], n, c) && HasMember(owners + [slot], |owners| + 1, c)
  {
    var j :| 0 <= j < n && owners[j] == c;
    assert (owners + [slot])[j] == c;
  }

  lemma PartitionGrows(owners: seq<nat>, clusters: nat, slot: nat)
    requires IsPartition(owners, clusters) && slot <= clusters
    ensures IsPartition(owners + [slot], if slot == clusters then clusters + 1 else clusters)
  {
    var grown := owners + [slot];
    assert grown[|owners|] == slot;
    assert HasMember(grown, |grown|, slot);
    forall c: nat | c < clusters
      ensures HasMember(grown, |owners|, c) && HasMember(grown, |grown|, c)
    {
      MembersStay(owners, slot, |owners|, c);
    }
    forall i: nat, c: nat | i < |grown| && c < grown[i]
      ensures HasMember(grown, i, c)
    {
      if i < |owners| {
        MembersStay(owners, slot, i, c);
      }
    }
  }

  /** The clusters of the fold, for every list of detections. */
  ghost predicate ClustersOk(items: seq<Item>, owners: seq<nat>, reps: seq<Item>, leads: seq<nat>) {
    && |owners| == |items| && |leads| == |reps|
    && IsPartition(owners, |reps|)
    && forall c | 0 <= c < |reps| :: ClusterOk(items, owners, reps[c], leads[c], c)
  }

  lemma NewClusterKeepsOk(items: seq<Item>, owners: seq<nat>, reps: seq<Item>, leads: seq<nat>, raw: Item)
    requires ClustersOk(items, owners, reps, leads)
    ensures ClustersOk(items + [raw], owners + [|reps|], reps + [Reviewed(raw, 1)], leads + [|items|])
  {
    var slot := |reps|;
    PartitionGrows(owners, |reps|, slot);
    forall c | 0 <= c < |reps|
      ensures ClusterOk(items + [raw], owners + [slot], reps[c], leads[c], c)
    {
      ClusterFrame(items, owners, reps[c], leads[c], c, raw, slot);
    }
    NewClusterIsOk(items, owners, slot, raw);
  }

  lemma MergeKeepsOk(items: seq<Item>, owners: seq<nat>, reps: seq<Item>, leads: seq<nat>, raw: Item, slot: nat)
    requires ClustersOk(items, owners, reps, leads)
    requires slot < |reps| && SameMarker(reps[slot], Reviewed(raw, 1))
    ensures ClustersOk(items + [raw], owners + [slot], reps[slot := Merged(reps[slot], Reviewed(raw, 1))],
                       if Score(Reviewed(raw, 1)) > Score(reps[slot]) then leads[slot := |items|] else leads)
  {
    PartitionGrows(owners, |reps|, slot);
    forall c | 0 <= c < |reps| && c != slot
      ensures ClusterOk(items + [raw], owners + [slot], reps[c], leads[c], c)
    {
      ClusterFrame(items, owners, reps[c], leads[c], c, raw, slot);
    }
    MergedClusterIsOk(items, owners, reps[slot], leads[slot], slot, raw);
  }

  lemma {:induction false} ClustersAreOk(items: seq<Item>)
    ensures ClustersOk(items, Owners(items), Reps(items), Leads(items))
  {
    if items != [] {
      var n := |items| - 1;
      var before, raw := items[..n], items[n];
      ClustersAreOk(before);
      assert items == before + [raw];
      var slot := Slot(Reps(before), Reviewed(raw, 1));
      SlotIsFirstMatch(Reps(before), Reviewed(raw, 1));
      if slot == |Reps(before)| {
        NewClusterKeepsOk(before, Owners(before), Reps(before), Leads(before), raw);
      } else {
        MergeKeepsOk(before, Owners(before), Reps(before), Leads(before), raw, slot);
      }
    }
  }

  // ---------- what the output is ----------

  function Sum(counts: seq<nat>): nat {
    if counts == [] then 0 else Sum(counts[..|counts| - 1]) + counts[|counts| - 1]
  }

  function Counts(owners: seq<nat>, clusters: nat): (counts: seq<nat>)
    ensures |counts| == clusters
    ensures forall c | 0 <= c < clusters :: counts[c] == Count(owners, c)
  {
    seq(clusters, c requires 0 <= c < clusters => Count(owners, c))
  }

  lemma {:induction false} SumOfZeros(counts: seq<nat>)
    requires forall c | 0 <= c < |counts| :: counts[c] == 0
    ensures Sum(counts) == 0
  {
    if counts != [] {
      SumOfZeros(counts[..|counts| - 1]);
    }
  }

  lemma {:induction false} SumAfterOneMore(counts: seq<nat>, c: nat)
    requires c < |counts|
    ensures Sum(counts[c := counts[c] + 1]) == Sum(counts) + 1
  {
    var n := |counts| - 1;
    var more := counts[c := counts[c] + 1];
    if c < n {
      assert more[..n] == counts[..n][c := counts[..n][c] + 1];
      SumAfterOneMore(counts[..n], c);
    } else {
      assert more[..n] == counts[..n];
    }
  }

  /** The cluster sizes of a partition add up to the number of items. */
  lemma {:induction false} CountsAddUp(owners: seq<nat>, clusters: nat)
    requires forall i | 0 <= i < |owners| :: owners[i] < clusters
    ensures Sum(Counts(owners, clusters)) == |owners|
  {
    if owners == [] {
      SumOfZeros(Counts(owners, clusters));
    } else {
      var n := |owners| - 1;
      CountsAddUp(owners[..n], clusters);
      var fewer := Counts(owners[..n], clusters);
      assert Counts(owners, clusters) == fewer[owners[n] := fewer[owners[n]] + 1];
      SumAfterOneMore(fewer, owners[n]);
    }
  }

  lemma ReviewTwice(item: Item, quantity: real, count: nat)
    ensures Reviewed(Reviewed(item, 1).(quantity := quantity), count) == Reviewed(item, count).(quantity := quantity)
  {
  }

  /** One output: its cluster's earliest best member, reviewed, with the merged quantity and the size. */
  ghost predicate OutputOk(items: seq<Item>, owners: seq<nat>, output: Item, lead: nat, c: nat)
    requires |owners| == |items|
  {
    && lead < |items|
    && output == Reviewed(items[lead], Count(owners, c)).(quantity := output.quantity)
    && LeadOk(items, owners, Reviewed(items[lead], 1), lead, c)
    && QuantityOk(items, owners, output.quantity, lead, c)
  }

  /** The output partitions the input: one item for each cluster, in the order of first members. */
  lemma OutputPartitionsTheInput(items: seq<Item>)
    ensures var out, owners, leads := Deduped(items), Owners(items), Leads(items);
      && |owners| == |items| && |leads| == |out|
      && IsPartition(owners, |out|)
      && Sum(Counts(owners, |out|)) == |items|
      && forall c | 0 <= c < |out| :: OutputOk(items, owners, out[c], leads[c], c)
  {
    ClustersAreOk(items);
    var reps, owners, leads := Reps(items), Owners(items), Leads(items);
    CountsAddUp(owners, |reps|);
    forall c | 0 <= c < |reps|
      ensures OutputOk(items, owners, Deduped(items)[c], leads[c], c)
    {
      assert ClusterOk(items, owners, reps[c], leads[c], c);
      ReviewTwice(items[leads[c]], reps[c].quantity, Count(owners, c));
    }
  }

  ghost predicate NoTwoMatch(items: seq<Item>) {
    forall i, j | 0 <= i < j < |items| :: !SameMarker(items[i], items[j])
  }

  lemma MatchIgnoresReview(left: Item, right: Item)
    ensures SameMarker(Reviewed(left, 1), Reviewed(right, 1)) == SameMarker(left, right)
  {
  }

  lemma {:induction false} WithoutMatchesNothingMerges(items: seq<Item>)
    requires NoTwoMatch(items)
    ensures |Reps(items)| == |items| && forall i | 0 <= i < |items| :: Reps(items)[i] == Reviewed(items[i], 1)
  {
    if items != [] {
      var n := |items| - 1;
      WithoutMatchesNothingMerges(items[..n]);
      SlotIsFirstMatch(Reps(items[..n]), Reviewed(items[n], 1));
      forall i | 0 <= i < n
        ensures !SameMarker(Reps(items[..n])[i], Reviewed(items[n], 1))
      {
        MatchIgnoresReview(items[i], items[n]);
      }
    }
  }

  lemma {:induction false} RepsAreNoMoreThanItems(items: seq<Item>)
    ensures |Reps(items)| <= |items|
  {
    if items != [] {
      RepsAreNoMoreThanItems(items[..|items| - 1]);
    }
  }

  lemma {:induction false} WithoutMergesNothingMatches(items: seq<Item>)
    requires |Reps(items)| == |items|
    ensures NoTwoMatch(items)
  {
    if items != [] {
      var n := |items| - 1;
      var before := items[..n];
      RepsAreNoMoreThanItems(before);
      WithoutMergesNothingMatches(before);
      SlotIsFirstMatch(Reps(before), Reviewed(items[n], 1));
      WithoutMatchesNothingMerges(before);
      forall i, j | 0 <= i < j < |items|
        ensures !SameMarker(items[i], items[j])
      {
        if j < n {
          assert !SameMarker(before[i], before[j]);
        } else {
          MatchIgnoresReview(items[i], items[n]);
          assert !SameMarker(Reps(before)[i], Reviewed(items[n], 1));
        }
      }
    }
  }

  /** Every detection survives exactly when no two of them are one marker. */
  lemma AllSurviveIffNoTwoMatch(items: seq<Item>)
    ensures |Deduped(items)| <= |items|
    ensures |Deduped(items)| == |items| <==> NoTwoMatch(items)
  {
    RepsAreNoMoreThanItems(items);
    if NoTwoMatch(items) {
      WithoutMatchesNothingMerges(items);
    } else if |Reps(items)| == |items| {
      WithoutMergesNothingMatches(items);
    }
  }

  function Sighting(x: real, score: real): Item {
    Item("milk||l", AtPoint(x), "", Finite(score), Missing, 1.0, "", None, None, None)
  }

  /** Two cartons that are apart, and a better sighting between them. */
  const BETWEEN := [Sighting(0.0, 0.5), Sighting(0.2, 0.5), Sighting(0.1, 0.9)]

  lemma RepsOfBetween()
    ensures Reps(BETWEEN) == [Merged(Reviewed(BETWEEN[0], 1), Reviewed(BETWEEN[2], 1)), Reviewed(BETWEEN[1], 1)]
  {
    SamePlaceIsNotTransitive();
    assert BETWEEN[..2][..1] == BETWEEN[..1] && BETWEEN[..1][..0] == [];
    assert Reps(BETWEEN[..1]) == [Reviewed(BETWEEN[0], 1)];
    assert Slot(Reps(BETWEEN[..1]), Reviewed(BETWEEN[1], 1)) == 1;
    assert Reps(BETWEEN[..2]) == [Reviewed(BETWEEN[0], 1), Reviewed(BETWEEN[1], 1)];
    assert Slot(Reps(BETWEEN[..2]), Reviewed(BETWEEN[2], 1)) == 0;
  }

  /** The outputs may match each other, because a representative can move; a second pass then merges more. */
  lemma OutputsCanMatch()
    ensures |Deduped(BETWEEN)| == 2 && SameMarker(Deduped(BETWEEN)[0], Deduped(BETWEEN)[1])
    ensures |Deduped(Deduped(BETWEEN))| < |Deduped(BETWEEN)|
  {
    RepsOfBetween();
    SamePlaceIsNotTransitive();
    AllSurviveIffNoTwoMatch(Deduped(BETWEEN));
  }

  // ---------- the loop ----------

  /** The inner loop: the first representative that matches. */
  method FindMatch(deduped: seq<Item>, item: Item) returns (matchIndex: Option<nat>)
    ensures matchIndex == if Slot(deduped, item) == |deduped| then None else Some(Slot(deduped, item))
  {
    SlotIsFirstMatch(deduped, item);
    for index := 0 to |deduped|
      invariant forall i | 0 <= i < index :: !SameMarker(deduped[i], item)
    {
      if SameMarker(deduped[index], item) {
        return Some(index);
      }
    }
    return None;
  }

  lemma FoldSnoc(items: seq<Item>, n: nat)
    requires n < |items|
    ensures Reps(items[..n + 1]) == PlaceItem(Reps(items[..n]), items[n])
    ensures Owners(items[..n + 1]) == Owners(items[..n]) + [Slot(Reps(items[..n]), Reviewed(items[n], 1))]
  {
    assert items[..n + 1][..n] == items[..n];
  }

  /** One more in the counts of a cluster, or a first one in the count of a new cluster. */
  function CountUp(counts: seq<nat>, slot: nat): seq<nat>
    requires slot <= |counts|
  {
    if slot == |counts| then counts + [1] else counts[slot := counts[slot] + 1]
  }

  /** One turn of the outer loop. */
  method DedupeOne(deduped: seq<Item>, duplicateCounts: seq<nat>, raw: Item)
    returns (deduped': seq<Item>, duplicateCounts': seq<nat>)
    requires |deduped| == |duplicateCounts|
    ensures deduped' == PlaceItem(deduped, raw)
    ensures duplicateCounts' == CountUp(duplicateCounts, Slot(deduped, Reviewed(raw, 1)))
  {
    var item := Reviewed(raw, 1);
    var matchIndex := FindMatch(deduped, item);
    if matchIndex.None? {
      deduped' := deduped + [item];
      duplicateCounts' := duplicateCounts + [1];
    } else {
      var m := matchIndex.value;
      duplicateCounts' := duplicateCounts[m := duplicateCounts[m] + 1];
      deduped' := deduped[m := Merged(deduped[m], item)];
    }
  }

  lemma PlaceItemSize(reps: seq<Item>, raw: Item)
    ensures |PlaceItem(reps, raw)| == if Slot(reps, Reviewed(raw, 1)) == |reps| then |reps| + 1 else |reps|
  {
  }

  lemma CountsFollowSlot(owners: seq<nat>, clusters: nat, slot: nat)
    requires slot <= clusters && forall i | 0 <= i < |owners| :: owners[i] < clusters
    ensures Counts(owners + [slot], if slot == clusters then clusters + 1 else clusters) ==
              CountUp(Counts(owners, clusters), slot)
  {
    CountsAfter(owners, clusters, slot);
  }

  lemma OwnersAreClusters(items: seq<Item>)
    ensures forall i | 0 <= i < |Owners(items)| :: Owners(items)[i] < |Reps(items)|
  {
    ClustersAreOk(items);
  }

  /** The counts after one more item are counted up at its slot. */
  lemma CountsFollow(items: seq<Item>, n: nat)
    requires n < |items|
    ensures var reps, slot := Reps(items[..n]), Slot(Reps(items[..n]), Reviewed(items[n], 1));
      Counts(Owners(items[..n + 1]), |Reps(items[..n + 1])|) == CountUp(Counts(Owners(items[..n]), |reps|), slot)
  {
    var before := items[..n];
    FoldSnoc(items, n);
    OwnersAreClusters(before);
    PlaceItemSize(Reps(before), items[n]);
    CountsFollowSlot(Owners(before), |Reps(before)|, Slot(Reps(before), Reviewed(items[n], 1)));
  }

  method Dedupe(items: seq<Item>) returns (result: seq<Item>)
    ensures result == Deduped(items)
  {
    var deduped: seq<Item>, duplicateCounts: seq<nat> := [], [];
    for n := 0 to |items|
      invariant deduped == Reps(items[..n])
      invariant duplicateCounts == Counts(Owners(items[..n]), |deduped|)
    {
      FoldSnoc(items, n);
      CountsFollow(items, n);
      deduped, duplicateCounts := DedupeOne(deduped, duplicateCounts, items[n]);
    }
    assert items[..|items|] == items;
    result := seq(|deduped|, c requires 0 <= c < |deduped| => Reviewed(deduped[c], duplicateCounts[c]));
  }

  lemma CountsAfter(owners: seq<nat>, clusters: nat, slot: nat)
    requires slot <= clusters && forall i | 0 <= i < |owners| :: owners[i] < clusters
    ensures slot < clusters ==>
      Counts(owners + [slot], clusters) == Counts(owners, clusters)[slot := Counts(owners, clusters)[slot] + 1]
    ensures slot == clusters ==> Counts(owners + [slot], clusters + 1) == Counts(owners, clusters) + [1]
  {
    forall c: nat
      ensures Count(owners + [slot], c) == Count(owners, c) + if slot == c then 1 else 0
    {
      CountSnoc(owners, slot, c);
    }
    CountIsZeroForNew(owners, clusters);
  }
}
