/** The replay protection of app/agent_sandbox_worker.py, and the order of the checks of a job. */
module ReplayCache {
  import opened Options

  /** The last `n` entries. */
  function Last(log: seq<string>, n: nat): seq<string> {
    if |log| <= n then log else log[|log| - n..]
  }

  predicate Distinct(ids: seq<string>) {
    forall i, j | 0 <= i < j < |ids| :: ids[i] != ids[j]
  }

  /** Equal accepted ids are more than `capacity` places apart. */
  ghost predicate FarApart(accepted: seq<string>, capacity: nat) {
    forall i, j | 0 <= i < j < |accepted| && accepted[i] == accepted[j] :: j - i > capacity
  }

  lemma UnseenDiffersFromRecent(accepted: seq<string>, id: string, capacity: nat)
    requires id !in Last(accepted, capacity)
    ensures forall i | 0 <= i < |accepted| && |accepted| - i <= capacity :: accepted[i] != id
  {
    var recent := Last(accepted, capacity);
    forall i | 0 <= i < |accepted| && |accepted| - i <= capacity
      ensures accepted[i] != id
    {
      assert recent[i - (|accepted| - |recent|)] == accepted[i];
    }
  }

  lemma AcceptingUnseenKeepsFarApart(accepted: seq<string>, id: string, capacity: nat)
    requires FarApart(accepted, capacity) && id !in Last(accepted, capacity)
    ensures FarApart(accepted + [id], capacity)
  {
    UnseenDiffersFromRecent(accepted, id, capacity);
  }

  lemma LastSnoc(log: seq<string>, id: string, n: nat)
    ensures Last(log + [id], n) == Last(Last(log, n) + [id], n)
  {
  }

  lemma LastPop(log: seq<string>, last: seq<string>)
    requires 0 < |last| <= |log| && last == Last(log, |last|)
    ensures last[1..] == Last(log, |last| - 1)
  {
  }

  /** Far apart is the same as: any `capacity + 1` consecutive acceptances are of different ids. */
  lemma FarApartIffWindowsAreDistinct(accepted: seq<string>, capacity: nat)
    ensures FarApart(accepted, capacity) <==>
      forall start, end | 0 <= start <= end <= |accepted| && end - start <= capacity + 1 ::
          Distinct(accepted[start..end])
  {
    if forall start, end | 0 <= start <= end <= |accepted| && end - start <= capacity + 1 ::
        Distinct(accepted[start..end]) {
      forall i, j | 0 <= i < j < |accepted| && j - i <= capacity
        ensures accepted[i] != accepted[j]
      {
        var window := accepted[i..j + 1];
        assert Distinct(window);
        assert window[0] == accepted[i] && window[j - i] == accepted[j];
      }
    }
  }

  /** The id is among the `capacity` most recently accepted ones. */
  ghost predicate RecentlyAccepted(accepted: seq<string>, id: string, capacity: nat) {
    exists i | 0 <= i < |accepted| :: |accepted| - i <= capacity && accepted[i] == id
  }

  lemma LastHoldsTheRecent(accepted: seq<string>, id: string, capacity: nat)
    ensures id in Last(accepted, capacity) <==> RecentlyAccepted(accepted, id, capacity)
  {
    var recent := Last(accepted, capacity);
    if id in recent {
      var k :| 0 <= k < |recent| && recent[k] == id;
      assert accepted[|accepted| - |recent| + k] == id;
    }
    if !RecentlyAccepted(accepted, id, capacity) {
      assert forall k | 0 <= k < |recent| :: recent[k] == accepted[|accepted| - |recent| + k];
    } else {
      var i :| 0 <= i < |accepted| && |accepted| - i <= capacity && accepted[i] == id;
      assert recent[i - (|accepted| - |recent|)] == id;
    }
  }

  datatype Rejection = Replayed | NotAllowed | BadToken

  datatype Result = Refused(rejection: Rejection) | Executed(ok: bool)

  /** A queued call; the token is checked only when there is one. */
  datatype Job = Job(rpcId: Option<string>, tool: string, hasToken: bool, tokenValid: bool)

  function IdOf(job: Job): string {
    if job.rpcId.Some? then job.rpcId.value else "unknown"
  }

  /** The globals of the worker; `accepted` and `executed` record every id it took and ran, in order. */
  class Worker {
    const capacity: nat
    var seen: set<string>
    var order: seq<string>
    ghost var accepted: seq<string>
    ghost var executed: seq<nat>

    ghost predicate Valid()
      reads this
    {
      && order == Last(accepted, capacity)
      && (forall id :: id in seen <==> id in order)
      && FarApart(accepted, capacity)
      && (forall k | 0 <= k < |executed| :: executed[k] < |accepted|)
      && (forall k, l | 0 <= k < l < |executed| :: executed[k] < executed[l])
    }

    constructor (capacity: nat)
      ensures Valid() && this.capacity == capacity && accepted == [] && executed == []
    {
      this.capacity, seen, order, accepted, executed := capacity, {}, [], [], [];
    }

    /** Remembered ids are distinct and at most `capacity`. */
    lemma CacheIsBounded()
      requires Valid()
      ensures |order| <= capacity && Distinct(order)
    {
      forall i, j | 0 <= i < j < |order|
        ensures order[i] != order[j]
      {
        var offset := |accepted| - |order|;
        assert order[i] == accepted[offset + i] && order[j] == accepted[offset + j];
      }
    }

    /** The set holds what the list holds. */
    ghost predicate InStep(seen: set<string>, order: seq<string>) {
      Distinct(order) && forall id :: id in seen <==> id in order
    }

    lemma PopKeepsInStep(seen: set<string>, order: seq<string>)
      requires InStep(seen, order) && order != []
      ensures InStep(seen - {order[0]}, order[1..])
    {
      assert order == [order[0]] + order[1..];
    }

    /** Drops the oldest ids beyond capacity. */
    method EvictOldest()
      requires InStep(seen, order)
      modifies this`seen, this`order
      ensures InStep(seen, order) && order == Last(old(order), capacity)
    {
      while |order| > capacity
        invariant |order| <= |old(order)| && order == Last(old(order), |order|)
        invariant |order| >= capacity || order == old(order)
        invariant InStep(seen, order)
      {
        PopKeepsInStep(seen, order);
        LastPop(old(order), order);
        var oldest := order[0];
        order := order[1..];
        seen := seen - {oldest};
      }
    }

    /** True for an id among the last `capacity` accepted ones; any other id is accepted. */
    method TrackRpcId(id: string) returns (replay: bool)
      requires Valid()
      modifies this`seen, this`order, this`accepted
      ensures Valid()
      ensures replay <==> RecentlyAccepted(old(accepted), id, capacity)
      ensures accepted == old(accepted) + if replay then [] else [id]
    {
      LastHoldsTheRecent(accepted, id, capacity);
      if id in seen {
        assert accepted + [] == accepted;
        return true;
      }
      CacheIsBounded();
      AcceptingUnseenKeepsFarApart(accepted, id, capacity);
      LastSnoc(accepted, id, capacity);
      seen := seen + {id};
      order := order + [id];
      accepted := accepted + [id];
      EvictOldest();
      return false;
    }

    /** The checks in order: replay, allowlist, token; only then does the tool run. */
    method ProcessJob(job: Job, allowlist: set<string>, succeeds: bool) returns (result: Result)
      requires Valid()
      modifies this
      ensures Valid()
      ensures var id := if job.rpcId.Some? then job.rpcId.value else "unknown";
              var replayed := RecentlyAccepted(old(accepted), id, capacity);
        && (result == Refused(Replayed) <==> replayed)
        && (result == Refused(NotAllowed) <==> !replayed && job.tool !in allowlist)
        && (result == Refused(BadToken) <==> !replayed && job.tool in allowlist && job.hasToken && !job.tokenValid)
        && (result.Executed? <==> !replayed && job.tool in allowlist && (job.hasToken ==> job.tokenValid))
        && accepted == old(accepted) + if replayed then [] else [id]
      ensures result.Executed? ==> result.ok == succeeds
      ensures executed == old(executed) + if result.Executed? then [|old(accepted)|] else []
    {
      var id := IdOf(job);
      ghost var before := executed;
      var replay := TrackRpcId(id);
      if replay {
        assert executed + [] == executed;
        return Refused(Replayed);
      }
      if job.tool !in allowlist {
        assert executed + [] == executed;
        return Refused(NotAllowed);
      }
      if job.hasToken && !job.tokenValid {
        assert executed + [] == executed;
        return Refused(BadToken);
      }
      executed := executed + [|accepted| - 1];
      return Executed(succeeds);
    }

    /** Two executions for one id have at least `capacity` other acceptances in between. */
    lemma NoToolRunsTwiceWithinTheWindow(k: nat, l: nat)
      requires Valid() && k < l < |executed|
      requires accepted[executed[k]] == accepted[executed[l]]
      ensures executed[l] - executed[k] - 1 >= capacity
      ensures Distinct(accepted[executed[k]..executed[k] + capacity + 1])
    {
      FarApartIffWindowsAreDistinct(accepted, capacity);
    }
  }
}
