/** The merged key audit log of app/key_management.py. */
module AuditLog {
  import opened Options

  datatype RevocationRow = RevocationRow(keyLast4: Option<string>, reason: Option<string>, revokedBy: Option<string>,
                                         revokedAt: int)

  datatype RotationRow = RotationRow(oldKeyLast4: Option<string>, newKeyLast4: Option<string>,
                                     rotatedBy: Option<string>, rotatedAt: int)

  datatype Event =
    | Revocation(keyLast4: string, reason: string, actor: string, timestamp: int)
    | Rotation(oldKeyLast4: string, newKeyLast4: string, actor: string, timestamp: int)

  function OrEmpty(text: Option<string>): string {
    if text.Some? then text.value else ""
  }

  function FromRevocation(row: RevocationRow): Event {
    Revocation(OrEmpty(row.keyLast4), OrEmpty(row.reason), OrEmpty(row.revokedBy), row.revokedAt)
  }

  function FromRotation(row: RotationRow): Event {
    Rotation(OrEmpty(row.oldKeyLast4), OrEmpty(row.newKeyLast4), OrEmpty(row.rotatedBy), row.rotatedAt)
  }

  predicate Descending(events: seq<Event>) {
    forall i, j | 0 <= i < j < |events| :: events[i].timestamp >= events[j].timestamp
  }

  /** `list` shows the `n` newest of `all`, newest first; ties may go either way. */
  ghost predicate Newest(all: multiset<Event>, list: seq<Event>, n: nat) {
    && Descending(list)
    && multiset(list) <= all
    && |list| == n
    && forall omitted, shown | omitted in all - multiset(list) && shown in list :: omitted.timestamp <= shown.timestamp
  }

  /** How many rows SQLite returns for LIMIT: a negative limit is no limit. */
  function Fetched(total: nat, limit: int): nat {
    if limit < 0 || total <= limit then total else limit
  }

  /** How many entries Python's `events[:limit]` keeps: a negative limit drops that many from the end. */
  function Kept(total: nat, limit: int): nat {
    if limit >= 0 then Fetched(total, limit)
    else if total + limit < 0 then 0 else total + limit
  }

  /** A negative limit fetches everything and keeps all but that many; another one allows that many. */
  lemma LimitsAre(total: nat, limit: int)
    ensures limit < 0 ==> Fetched(total, limit) == total
    ensures 0 <= limit <= total ==> Fetched(total, limit) == limit == Kept(total, limit)
    ensures limit > total ==> Fetched(total, limit) == total == Kept(total, limit)
    ensures limit < 0 <= total + limit ==> Kept(total, limit) == total + limit
    ensures total + limit < 0 ==> Kept(total, limit) == 0
  {
  }

  // ---------- the stable sort ----------

  /** Places `e` after everything at least as new. */
  function Insert(sorted: seq<Event>, e: Event): seq<Event> {
    if sorted == [] then [e]
    else if sorted[|sorted| - 1].timestamp >= e.timestamp then sorted + [e]
    else Insert(sorted[..|sorted| - 1], e) + [sorted[|sorted| - 1]]
  }

  /** `sort(key=timestamp, reverse=True)`, which keeps ties in their order. */
  function Sort(events: seq<Event>): seq<Event> {
    if events == [] then [] else Insert(Sort(events[..|events| - 1]), events[|events| - 1])
  }

  lemma {:induction false} InsertPermutes(sorted: seq<Event>, e: Event)
    ensures multiset(Insert(sorted, e)) == multiset(sorted) + multiset{e}
  {
    if sorted != [] && sorted[|sorted| - 1].timestamp < e.timestamp {
      assert sorted == sorted[..|sorted| - 1] + [sorted[|sorted| - 1]];
      InsertPermutes(sorted[..|sorted| - 1], e);
    }
  }

  lemma {:induction false} SortPermutes(events: seq<Event>)
    ensures multiset(Sort(events)) == multiset(events)
    ensures |Sort(events)| == |events|
  {
    if events != [] {
      assert events == events[..|events| - 1] + [events[|events| - 1]];
      SortPermutes(events[..|events| - 1]);
      InsertPermutes(Sort(events[..|events| - 1]), events[|events| - 1]);
    }
    assert |multiset(Sort(events))| == |multiset(events)|;
  }

  /** No entry of the list is older than `t`. */
  predicate NoneOlder(events: seq<Event>, t: int) {
    forall i | 0 <= i < |events| :: events[i].timestamp >= t
  }

  lemma DescendingSnoc(events: seq<Event>, last: Event)
    requires Descending(events) && NoneOlder(events, last.timestamp)
    ensures Descending(events + [last])
  {
  }

  lemma {:induction false} InsertIsNoOlder(sorted: seq<Event>, e: Event, t: int)
    requires NoneOlder(sorted, t) && e.timestamp >= t
    ensures NoneOlder(Insert(sorted, e), t)
  {
    if sorted != [] {
      InsertIsNoOlder(sorted[..|sorted| - 1], e, t);
    }
  }

  lemma {:induction false} InsertIsDescending(sorted: seq<Event>, e: Event)
    requires Descending(sorted)
    ensures Descending(Insert(sorted, e))
  {
    if sorted != [] {
      var shorter, last := sorted[..|sorted| - 1], sorted[|sorted| - 1];
      if last.timestamp >= e.timestamp {
        DescendingSnoc(sorted, e);
      } else {
        InsertIsDescending(shorter, e);
        InsertIsNoOlder(shorter, e, last.timestamp);
        DescendingSnoc(Insert(shorter, e), last);
      }
    }
  }

  lemma {:induction false} SortIsDescending(events: seq<Event>)
    ensures Descending(Sort(events))
  {
    if events != [] {
      SortIsDescending(events[..|events| - 1]);
      InsertIsDescending(Sort(events[..|events| - 1]), events[|events| - 1]);
    }
  }

  /** The one event if it happened at `t`. */
  function IfAt(e: Event, t: int): seq<Event> {
    if e.timestamp == t then [e] else []
  }

  /** The events of one time. */
  function At(events: seq<Event>, t: int): seq<Event> {
    if events == [] then [] else At(events[..|events| - 1], t) + IfAt(events[|events| - 1], t)
  }

  lemma AtSnoc(events: seq<Event>, e: Event, t: int)
    ensures At(events + [e], t) == At(events, t) + IfAt(e, t)
  {
    assert (events + [e])[..|events|] == events;
  }

  /** Two events of different times can be listed either way round. */
  lemma DifferentTimesCommute(before: seq<Event>, a: Event, b: Event, t: int)
    requires a.timestamp != b.timestamp
    ensures before + IfAt(a, t) + IfAt(b, t) == before + IfAt(b, t) + IfAt(a, t)
  {
  }

  lemma {:induction false} InsertIsStable(sorted: seq<Event>, e: Event, t: int)
    ensures At(Insert(sorted, e), t) == At(sorted, t) + IfAt(e, t)
  {
    if sorted == [] {
      AtSnoc([], e, t);
    } else {
      var shorter, last := sorted[..|sorted| - 1], sorted[|sorted| - 1];
      if last.timestamp >= e.timestamp {
        AtSnoc(sorted, e, t);
      } else {
        InsertIsStable(shorter, e, t);
        AtSnoc(Insert(shorter, e), last, t);
        DifferentTimesCommute(At(shorter, t), e, last, t);
      }
    }
  }

  /** Events of one time keep the order in which they were listed. */
  lemma {:induction false} SortIsStable(events: seq<Event>, t: int)
    ensures At(Sort(events), t) == At(events, t)
  {
    if events != [] {
      SortIsStable(events[..|events| - 1], t);
      InsertIsStable(Sort(events[..|events| - 1]), events[|events| - 1], t);
    }
  }

  // ---------- merging two newest lists ----------

  lemma SubmultisetIsNoLarger(a: multiset<Event>, b: multiset<Event>)
    requires a <= b
    ensures |a| <= |b|
  {
    assert b == a + (b - a);
  }

  /** Everything newer than entry `i` of a descending list comes before it. */
  lemma NewerEntriesComeBefore(merged: seq<Event>, i: nat, newer: seq<Event>)
    requires Descending(merged) && i < |merged|
    requires multiset(newer) <= multiset(merged)
    requires forall e | e in newer :: e.timestamp > merged[i].timestamp
    ensures |newer| <= i
  {
    assert merged == merged[..i] + merged[i..];
    assert forall e | e in merged[i..] :: e.timestamp <= merged[i].timestamp;
    forall e | e in multiset(newer)
      ensures multiset(newer)[e] <= multiset(merged[..i])[e]
    {
      assert e in newer && e !in merged[i..];
      assert multiset(merged)[e] == multiset(merged[..i])[e] + multiset(merged[i..])[e];
    }
    assert multiset(newer) <= multiset(merged[..i]);
    SubmultisetIsNoLarger(multiset(newer), multiset(merged[..i]));
  }

  /** A table that had more events than it returned returned the limit. */
  lemma OmissionMeansFull(all: multiset<Event>, part: seq<Event>, limit: int, omitted: Event)
    requires multiset(part) <= all && |part| == Fetched(|all|, limit) && omitted in all - multiset(part)
    ensures limit >= 0 && |part| == limit
  {
    SubmultisetIsNoLarger(multiset{omitted}, all - multiset(part));
    assert |all| == |multiset(part)| + |all - multiset(part)|;
  }

  /** An event one table left out is no newer than anything the merged list keeps. */
  lemma OmittedIsNoNewer(all: multiset<Event>, part: seq<Event>, limit: int, merged: seq<Event>, omitted: Event, i: nat)
    requires Newest(all, part, Fetched(|all|, limit)) && omitted in all - multiset(part)
    requires Descending(merged) && multiset(part) <= multiset(merged)
    requires i < |merged| && (limit >= 0 ==> i < limit)
    ensures omitted.timestamp <= merged[i].timestamp
  {
    OmissionMeansFull(all, part, limit, omitted);
    if omitted.timestamp > merged[i].timestamp {
      assert forall e | e in part :: e.timestamp >= omitted.timestamp;
      NewerEntriesComeBefore(merged, i, part);
    }
  }

  lemma CutOffIsNoNewer(merged: seq<Event>, kept: nat, i: nat, omitted: Event)
    requires Descending(merged) && i < kept <= |merged| && omitted in merged[kept..]
    ensures omitted.timestamp <= merged[i].timestamp
  {
    var k :| 0 <= k < |merged[kept..]| && merged[kept..][k] == omitted;
    assert merged[kept + k] == omitted;
  }

  lemma OmittedSomewhere(left: multiset<Event>, right: multiset<Event>, a: seq<Event>, b: seq<Event>,
                         merged: seq<Event>, kept: nat, omitted: Event)
    requires multiset(a) <= left && multiset(b) <= right
    requires multiset(merged) == multiset(a) + multiset(b) && kept <= |merged|
    requires omitted in left + right - multiset(merged[..kept])
    ensures omitted in merged[kept..] || omitted in left - multiset(a) || omitted in right - multiset(b)
  {
    assert merged == merged[..kept] + merged[kept..];
    assert multiset(merged)[omitted] == multiset(merged[..kept])[omitted] + multiset(merged[kept..])[omitted];
  }

  /** Cutting the merged list loses nothing newer than what it keeps. */
  lemma OmittedByMergeIsNoNewer(left: multiset<Event>, right: multiset<Event>, a: seq<Event>, b: seq<Event>, limit: int,
                                merged: seq<Event>, kept: nat, omitted: Event, i: nat)
    requires Newest(left, a, Fetched(|left|, limit)) && Newest(right, b, Fetched(|right|, limit))
    requires Descending(merged) && multiset(merged) == multiset(a) + multiset(b)
    requires i < kept <= |merged| && (limit >= 0 ==> kept <= limit)
    requires omitted in left + right - multiset(merged[..kept])
    ensures omitted.timestamp <= merged[i].timestamp
  {
    OmittedSomewhere(left, right, a, b, merged, kept, omitted);
    if omitted in merged[kept..] {
      CutOffIsNoNewer(merged, kept, i, omitted);
    } else if omitted in left - multiset(a) {
      OmittedIsNoNewer(left, a, limit, merged, omitted, i);
    } else {
      OmittedIsNoNewer(right, b, limit, merged, omitted, i);
    }
  }

  lemma CutIsWithinBoth(left: multiset<Event>, right: multiset<Event>, a: seq<Event>, b: seq<Event>, merged: seq<Event>,
                        kept: nat)
    requires multiset(a) <= left && multiset(b) <= right
    requires multiset(merged) == multiset(a) + multiset(b) && kept <= |merged|
    ensures multiset(merged[..kept]) <= left + right
  {
    assert merged == merged[..kept] + merged[kept..];
    assert multiset(merged) == multiset(merged[..kept]) + multiset(merged[kept..]);
    assert multiset(merged[..kept]) <= multiset(merged);
  }

  /** Cutting both tables first and then their union keeps as many as cutting the union once. */
  lemma CutsAgree(left: nat, right: nat, limit: int)
    ensures Kept(Fetched(left, limit) + Fetched(right, limit), limit) == Kept(left + right, limit)
  {
  }

  /** The cut of the merged list keeps what the limit allows of all events, unless the limit is negative. */
  lemma CutIsFullIff(left: nat, right: nat, limit: int)
    ensures Kept(Fetched(left, limit) + Fetched(right, limit), limit) == Fetched(left + right, limit) <==>
              limit >= 0 || left + right == 0
  {
  }

  /** The newest of each table, sorted together and cut, are the newest of both tables. */
  lemma MergedNewest(left: multiset<Event>, right: multiset<Event>, a: seq<Event>, b: seq<Event>, limit: int,
                     merged: seq<Event>)
    requires Newest(left, a, Fetched(|left|, limit)) && Newest(right, b, Fetched(|right|, limit))
    requires Descending(merged) && multiset(merged) == multiset(a) + multiset(b) && |merged| == |a| + |b|
    ensures Newest(left + right, merged[..Kept(|merged|, limit)], Kept(|left| + |right|, limit))
  {
    var kept := Kept(|merged|, limit);
    CutIsWithinBoth(left, right, a, b, merged, kept);
    CutsAgree(|left|, |right|, limit);
    forall omitted, shown | omitted in left + right - multiset(merged[..kept]) && shown in merged[..kept]
      ensures omitted.timestamp <= shown.timestamp
    {
      var i :| 0 <= i < kept && merged[i] == shown;
      OmittedByMergeIsNoNewer(left, right, a, b, limit, merged, kept, omitted, i);
    }
  }

  /** The sorted events that the limit leaves. */
  function Shown(events: seq<Event>, limit: int): seq<Event> {
    SortPermutes(events);
    Sort(events)[..Kept(|events|, limit)]
  }

  /** What a log shows of both tables, and when that is all the limit allows. */
  lemma ShownAreNewest(left: multiset<Event>, right: multiset<Event>, a: seq<Event>, b: seq<Event>, limit: int)
    requires Newest(left, a, Fetched(|left|, limit)) && Newest(right, b, Fetched(|right|, limit))
    ensures Newest(left + right, Shown(a + b, limit), Kept(|left| + |right|, limit))
    ensures |Shown(a + b, limit)| == Fetched(|left| + |right|, limit) <==> limit >= 0 || |left| + |right| == 0
  {
    SortIsDescending(a + b);
    SortPermutes(a + b);
    MergedNewest(left, right, a, b, limit, Sort(a + b));
    CutsAgree(|left|, |right|, limit);
    CutIsFullIff(|left|, |right|, limit);
  }

  /** With limit -1 both tables return all they have, and the only event is cut off. */
  lemma NegativeLimitDropsTheOnlyEvent(e: Event)
    ensures Newest(multiset{e}, [e], Fetched(1, -1)) && Newest(multiset{}, [], Fetched(0, -1))
    ensures Shown([e] + [], -1) == [] && Fetched(1, -1) == 1
  {
    assert [e] + [] == [e];
    assert multiset([e]) == multiset{e};
  }

  // ---------- the two loops ----------

  function FromRevocations(rows: seq<RevocationRow>): seq<Event> {
    if rows == [] then [] else FromRevocations(rows[..|rows| - 1]) + [FromRevocation(rows[|rows| - 1])]
  }

  function FromRotations(rows: seq<RotationRow>): seq<Event> {
    if rows == [] then [] else FromRotations(rows[..|rows| - 1]) + [FromRotation(rows[|rows| - 1])]
  }

  /** The text is what the column holds, or empty. */
  ghost predicate Shows(text: string, column: Option<string>) {
    text == match column { case Some(value) => value case None => "" }
  }

  /** Each revocation is listed with what its row says, in the order of the rows. */
  lemma {:induction false} RevocationsAreListed(rows: seq<RevocationRow>)
    ensures |FromRevocations(rows)| == |rows|
    ensures forall i | 0 <= i < |rows| :: var e := FromRevocations(rows)[i];
      && e.Revocation? && Shows(e.keyLast4, rows[i].keyLast4) && Shows(e.reason, rows[i].reason)
      && Shows(e.actor, rows[i].revokedBy) && e.timestamp == rows[i].revokedAt
  {
    if rows != [] {
      RevocationsAreListed(rows[..|rows| - 1]);
    }
  }

  lemma {:induction false} RotationsAreListed(rows: seq<RotationRow>)
    ensures |FromRotations(rows)| == |rows|
    ensures forall i | 0 <= i < |rows| :: var e := FromRotations(rows)[i];
      && e.Rotation? && Shows(e.oldKeyLast4, rows[i].oldKeyLast4) && Shows(e.newKeyLast4, rows[i].newKeyLast4)
      && Shows(e.actor, rows[i].rotatedBy) && e.timestamp == rows[i].rotatedAt
  {
    if rows != [] {
      RotationsAreListed(rows[..|rows| - 1]);
    }
  }

  method AppendRevocations(before: seq<Event>, rows: seq<RevocationRow>) returns (events: seq<Event>)
    ensures events == before + FromRevocations(rows)
  {
    events := before;
    for i := 0 to |rows|
      invariant events == before + FromRevocations(rows[..i])
    {
      assert rows[..i + 1][..i] == rows[..i];
      events := events + [FromRevocation(rows[i])];
    }
    assert rows[..|rows|] == rows;
  }

  method AppendRotations(before: seq<Event>, rows: seq<RotationRow>) returns (events: seq<Event>)
    ensures events == before + FromRotations(rows)
  {
    events := before;
    for i := 0 to |rows|
      invariant events == before + FromRotations(rows[..i])
    {
      assert rows[..i + 1][..i] == rows[..i];
      events := events + [FromRotation(rows[i])];
    }
    assert rows[..|rows|] == rows;
  }

  method Combine(revocations: seq<RevocationRow>, rotations: seq<RotationRow>) returns (events: seq<Event>)
    ensures events == FromRevocations(revocations) + FromRotations(rotations)
  {
    events := AppendRevocations([], revocations);
    assert events == FromRevocations(revocations);
    events := AppendRotations(events, rotations);
  }

  /**
   The log of one user. The two row lists are what the queries returned; which of several rows of
   one time the database leaves out is up to it.
   */
  method GetKeyAuditLog(revocations: seq<RevocationRow>, rotations: seq<RotationRow>, limit: int,
                        ghost allRevocations: multiset<Event>, ghost allRotations: multiset<Event>)
    returns (log: seq<Event>)
    requires Newest(allRevocations, FromRevocations(revocations), Fetched(|allRevocations|, limit))
    requires Newest(allRotations, FromRotations(rotations), Fetched(|allRotations|, limit))
    ensures Newest(allRevocations + allRotations, log, Kept(|allRevocations| + |allRotations|, limit))
    ensures |log| == Fetched(|allRevocations| + |allRotations|, limit) <==>
              limit >= 0 || |allRevocations| + |allRotations| == 0
    ensures var total := |allRevocations| + |allRotations|;
      && (limit >= total ==> |log| == total)
      && (0 <= limit <= total ==> |log| == limit)
      && (limit < 0 <= total + limit ==> |log| == total + limit)
      && (total + limit < 0 ==> |log| == 0)
  {
    var events := Combine(revocations, rotations);
    ShownAreNewest(allRevocations, allRotations, FromRevocations(revocations), FromRotations(rotations), limit);
    log := Shown(events, limit);
  }
}
