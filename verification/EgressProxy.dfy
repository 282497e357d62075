/** The rate limiter and the domain test of scripts/sandbox_egress_proxy.py. */
module EgressProxy {
  import opened Strings

  // ---------- sliding-window rate limiter ----------

  const WINDOW_SECONDS := 60.0

  /** The times that still count at time `now`. */
  function Recent(times: seq<real>, now: real): seq<real> {
    if times == [] then []
    else
      var last := times[|times| - 1];
      Recent(times[..|times| - 1], now) + if now - last < WINDOW_SECONDS then [last] else []
  }

  /** The limiter that never forgets: refuse when the window before `now` is full. */
  predicate FullHistoryRefuses(admitted: seq<real>, now: real, max: int) {
    |Recent(admitted, now)| >= max
  }

  lemma RecentSnoc(times: seq<real>, t: real, now: real)
    ensures Recent(times + [t], now) == Recent(times, now) + if now - t < WINDOW_SECONDS then [t] else []
  {
    assert (times + [t])[..|times|] == times;
  }

  /** What was pruned earlier would be pruned later too. */
  lemma {:induction false} PruningTwice(times: seq<real>, earlier: real, later: real)
    requires earlier <= later
    ensures Recent(Recent(times, earlier), later) == Recent(times, later)
  {
    if times != [] {
      var rest, last := times[..|times| - 1], times[|times| - 1];
      PruningTwice(rest, earlier, later);
      if earlier - last < WINDOW_SECONDS {
        RecentSnoc(Recent(rest, earlier), last, later);
      } else {
        assert Recent(rest, earlier) + [] == Recent(rest, earlier);
        assert Recent(rest, later) + [] == Recent(rest, later);
      }
    }
  }

  /** Each admission found fewer than `max` recent ones before it. */
  ghost predicate AdmittedInTurn(admitted: seq<real>, max: int) {
    forall i | 0 <= i < |admitted| :: |Recent(admitted[..i], admitted[i])| < max
  }

  lemma AdmittedSnoc(admitted: seq<real>, now: real, max: int)
    requires AdmittedInTurn(admitted, max) && !FullHistoryRefuses(admitted, now, max)
    ensures AdmittedInTurn(admitted + [now], max)
  {
    forall i | 0 <= i < |admitted + [now]|
      ensures |Recent((admitted + [now])[..i], (admitted + [now])[i])| < max
    {
      assert (admitted + [now])[..i] == admitted[..i];
      assert admitted[..|admitted|] == admitted;
    }
  }

  /** The admissions in the half-open minute that starts at `from`. */
  function Within(times: seq<real>, from: real): seq<real> {
    if times == [] then []
    else
      var last := times[|times| - 1];
      Within(times[..|times| - 1], from) + if from <= last < from + WINDOW_SECONDS then [last] else []
  }

  lemma {:induction false} WindowIsRecent(times: seq<real>, from: real, now: real)
    requires now < from + WINDOW_SECONDS
    ensures |Within(times, from)| <= |Recent(times, now)|
  {
    if times != [] {
      WindowIsRecent(times[..|times| - 1], from, now);
    }
  }

  /** No minute, wherever it starts, holds more than `max` admissions. */
  lemma {:induction false} AnyMinuteHasAtMostMax(admitted: seq<real>, max: int, from: real)
    requires AdmittedInTurn(admitted, max)
    ensures |Within(admitted, from)| <= if max < 0 then 0 else max
  {
    if admitted != [] {
      var n := |admitted| - 1;
      var rest, last := admitted[..n], admitted[n];
      assert forall i | 0 <= i < n :: rest[..i] == admitted[..i];
      AnyMinuteHasAtMostMax(rest, max, from);
      if from <= last < from + WINDOW_SECONDS {
        WindowIsRecent(rest, from, last);
      }
    }
  }

  /** From `time` on, what was pruned from the window makes no difference. */
  ghost predicate Pruned(window: seq<real>, history: seq<real>, time: real) {
    forall later | time <= later :: Recent(window, later) == Recent(history, later)
  }

  lemma PrunedByRecent(history: seq<real>, now: real)
    ensures Pruned(Recent(history, now), history, now)
  {
    forall later | now <= later
      ensures Recent(Recent(history, now), later) == Recent(history, later)
    {
      PruningTwice(history, now, later);
    }
  }

  ghost predicate SourceOk(window: seq<real>, history: seq<real>, max: int, time: real) {
    AdmittedInTurn(history, max) && Pruned(window, history, time)
  }

  lemma RefusalKeepsSource(history: seq<real>, max: int, now: real)
    requires AdmittedInTurn(history, max)
    ensures SourceOk(Recent(history, now), history, max, now)
  {
    PrunedByRecent(history, now);
  }

  lemma AdmissionKeepsSource(history: seq<real>, max: int, now: real)
    requires AdmittedInTurn(history, max) && !FullHistoryRefuses(history, now, max)
    ensures SourceOk(Recent(history, now) + [now], history + [now], max, now)
  {
    AdmittedSnoc(history, now, max);
    RecentSnoc(history, now, now);
    PrunedByRecent(history + [now], now);
  }

  /** The admissions of the last minute, by their places. */
  ghost function LastMinute(times: seq<real>, now: real): set<nat> {
    set i: nat | i < |times| && now - times[i] < 60.0
  }

  lemma {:induction false} RecentCountsTheLastMinute(times: seq<real>, now: real)
    ensures |Recent(times, now)| == |LastMinute(times, now)|
  {
    if times != [] {
      var n := |times| - 1;
      RecentCountsTheLastMinute(times[..n], now);
      var earlier, all := LastMinute(times[..n], now), LastMinute(times, now);
      assert forall i: nat | i < n :: times[..n][i] == times[i];
      if now - times[n] < 60.0 {
        assert all == earlier + {n};
      } else {
        assert all == earlier;
      }
    }
  }

  /** The admissions in the half-open minute from `from` on, by their places. */
  ghost function MinuteFrom(times: seq<real>, from: real): set<nat> {
    set i: nat | i < |times| && from <= times[i] < from + 60.0
  }

  lemma {:induction false} WithinCountsTheMinute(times: seq<real>, from: real)
    ensures |Within(times, from)| == |MinuteFrom(times, from)|
  {
    if times != [] {
      var n := |times| - 1;
      WithinCountsTheMinute(times[..n], from);
      var earlier, all := MinuteFrom(times[..n], from), MinuteFrom(times, from);
      assert forall i: nat | i < n :: times[..n][i] == times[i];
      if from <= times[n] < from + 60.0 {
        assert all == earlier + {n};
      } else {
        assert all == earlier;
      }
    }
  }

  /** All that was ever admitted from a source. */
  ghost function History(admitted: map<string, seq<real>>, source: string): seq<real> {
    if source in admitted then admitted[source] else []
  }

  /** Python's defaultdict: a source without entries has an empty window. */
  function Times(windows: map<string, seq<real>>, source: string): seq<real> {
    if source in windows then windows[source] else []
  }

  ghost predicate AllOk(windows: map<string, seq<real>>, admitted: map<string, seq<real>>, max: int, time: real) {
    forall source: string :: SourceOk(Times(windows, source), Times(admitted, source), max, time)
  }

  lemma UpdateKeepsAll(windows: map<string, seq<real>>, admitted: map<string, seq<real>>, max: int, time: real,
                       source: string, window: seq<real>, history: seq<real>, now: real)
    requires AllOk(windows, admitted, max, time) && time <= now
    requires SourceOk(window, history, max, now)
    ensures AllOk(windows[source := window], admitted[source := history], max, now)
  {
    var nextWindows, nextAdmitted := windows[source := window], admitted[source := history];
    forall other: string
      ensures SourceOk(Times(nextWindows, other), Times(nextAdmitted, other), max, now)
    {
      assert SourceOk(Times(windows, other), Times(admitted, other), max, time);
    }
  }

  lemma PruneAgrees(windows: map<string, seq<real>>, admitted: map<string, seq<real>>, max: int, time: real,
                    source: string, now: real)
    requires AllOk(windows, admitted, max, time) && time <= now
    ensures AdmittedInTurn(Times(admitted, source), max)
    ensures Recent(Times(windows, source), now) == Recent(Times(admitted, source), now)
  {
    assert SourceOk(Times(windows, source), Times(admitted, source), max, time);
  }

  /** The limiter as written; `admitted` and `clock` record all it ever let through, and when. */
  class RateLimiter {
    const max: int
    var windows: map<string, seq<real>>
    ghost var admitted: map<string, seq<real>>
    ghost var clock: real

    ghost predicate Valid()
      reads this
    {
      AllOk(windows, admitted, max, clock)
    }

    constructor (max: int, start: real)
      ensures Valid() && this.max == max && clock == start && admitted == map[]
    {
      this.max, windows, admitted, clock := max, map[], map[], start;
    }

    /** The list comprehension over a window. */
    method Prune(times: seq<real>, now: real) returns (kept: seq<real>)
      ensures kept == Recent(times, now)
    {
      kept := [];
      for i := 0 to |times|
        invariant kept == Recent(times[..i], now)
      {
        assert times[..i + 1][..i] == times[..i];
        if now - times[i] < WINDOW_SECONDS {
          kept := kept + [times[i]];
        } else {
          assert kept == kept + [];
        }
      }
      assert times[..|times|] == times;
    }

    /** It decides as the limiter with the full history of the source, and other sources never matter. */
    method IsRateLimited(source: string, now: real) returns (limited: bool)
      requires Valid() && clock <= now
      modifies this
      ensures Valid() && clock == now
      ensures limited <==> |LastMinute(History(old(admitted), source), now)| >= max
      ensures admitted == old(admitted)[source := History(old(admitted), source) + if limited then [] else [now]]
      ensures windows.Keys == old(windows).Keys + {source}
      ensures forall other | other in old(windows) && other != source :: windows[other] == old(windows)[other]
    {
      ghost var history := Times(admitted, source);
      PruneAgrees(windows, admitted, max, clock, source, now);
      RecentCountsTheLastMinute(history, now);
      var kept := Prune(Times(windows, source), now);
      limited := |kept| >= max;
      if limited {
        RefusalKeepsSource(history, max, now);
        UpdateKeepsAll(windows, admitted, max, clock, source, kept, history, now);
        assert history + [] == history;
        windows, admitted := windows[source := kept], admitted[source := history];
      } else {
        AdmissionKeepsSource(history, max, now);
        UpdateKeepsAll(windows, admitted, max, clock, source, kept + [now], history + [now], now);
        windows, admitted := windows[source := kept + [now]], admitted[source := history + [now]];
      }
      clock := now;
    }
  }

  /** In every valid state, the limiter has let at most `max` requests of a source through in any minute. */
  lemma LimiterBoundsEveryMinute(limiter: RateLimiter, source: string, from: real)
    requires limiter.Valid()
    ensures |MinuteFrom(History(limiter.admitted, source), from)| <= if limiter.max < 0 then 0 else limiter.max
  {
    WithinCountsTheMinute(History(limiter.admitted, source), from);
    PruneAgrees(limiter.windows, limiter.admitted, limiter.max, limiter.clock, source, limiter.clock);
    AnyMinuteHasAtMostMax(Times(limiter.admitted, source), limiter.max, from);
  }

  // ---------- domain allowlist ----------

  /** The dot-separated labels, in the order written. */
  function Labels(s: string): (labels: seq<string>)
    ensures labels != []
  {
    if s == "" then [""]
    else
      Attach(s[0], Labels(s[1..]))
  }

  /** A dot in front opens an empty label; any other character joins the first label. */
  function Attach(c: char, labels: seq<string>): seq<string>
    requires labels != []
  {
    if c == '.' then [""] + labels else [[c] + labels[0]] + labels[1..]
  }

  lemma AttachConcat(c: char, front: seq<string>, back: seq<string>)
    requires front != []
    ensures Attach(c, front + back) == Attach(c, front) + back
  {
  }

  function Join(labels: seq<string>): string
    requires labels != []
  {
    if |labels| == 1 then labels[0] else labels[0] + "." + Join(labels[1..])
  }

  lemma {:induction false} JoinLabels(s: string)
    ensures Join(Labels(s)) == s
  {
    if s != "" {
      var rest := Labels(s[1..]);
      JoinLabels(s[1..]);
      if s[0] == '.' {
        assert Labels(s)[1..] == rest;
        assert s == "." + s[1..];
      } else {
        assert s == [s[0]] + s[1..];
        if |rest| > 1 {
          assert Labels(s)[1..] == rest[1..];
        }
      }
    }
  }

  predicate HasNoDot(text: string) {
    forall i | 0 <= i < |text| :: text[i] != '.'
  }

  /** No dot is left in a label. */
  lemma {:induction false} LabelsHaveNoDots(s: string)
    ensures forall k | 0 <= k < |Labels(s)| :: HasNoDot(Labels(s)[k])
  {
    if s != "" {
      LabelsHaveNoDots(s[1..]);
    }
  }

  lemma {:induction false} JoinConcat(front: seq<string>, back: seq<string>)
    requires front != [] && back != []
    ensures Join(front + back) == Join(front) + "." + Join(back)
  {
    if |front| == 1 {
      assert (front + back)[1..] == back;
    } else {
      assert (front + back)[1..] == front[1..] + back;
      JoinConcat(front[1..], back);
    }
  }

  /** A text cut at a dot: the labels of the two sides, one after the other. */
  lemma {:induction false} LabelsAppend(front: string, back: string)
    requires back != "" && back[0] == '.'
    ensures Labels(front + back) == Labels(front) + Labels(back[1..])
  {
    if front == "" {
      assert front + back == back;
    } else {
      LabelsAppend(front[1..], back);
      assert (front + back)[1..] == front[1..] + back;
      AttachConcat(front[0], Labels(front[1..]), Labels(back[1..]));
    }
  }

  lemma LabelsConcat(front: string, back: string)
    ensures Labels(front + "." + back) == Labels(front) + Labels(back)
  {
    assert front + "." + back == front + ("." + back);
    assert ("." + back)[1..] == back;
    LabelsAppend(front, "." + back);
  }

  predicate IsTail(labels: seq<string>, tail: seq<string>) {
    |tail| <= |labels| && labels[|labels| - |tail|..] == tail
  }

  lemma TailStays(front: seq<string>, labels: seq<string>, tail: seq<string>)
    requires IsTail(labels, tail)
    ensures IsTail(front + labels, tail)
  {
    assert (front + labels)[|front| + |labels| - |tail|..] == labels[|labels| - |tail|..];
  }

  lemma TailOfTail(labels: seq<string>, middle: seq<string>, tail: seq<string>)
    requires IsTail(labels, middle) && IsTail(middle, tail)
    ensures IsTail(labels, tail)
  {
    TailStays(labels[..|labels| - |middle|], middle, tail);
    assert labels == labels[..|labels| - |middle|] + middle;
  }

  /** RFC 1034, section 3.1: `host` is `domain` itself or lies within it. */
  ghost predicate InDomain(host: string, domain: string) {
    IsTail(Labels(host), Labels(domain))
  }

  /** The test the proxy makes on one entry. */
  predicate MatchesEntry(host: string, allowed: string) {
    host == allowed || EndsWith(host, "." + allowed)
  }

  /** Comparing text from the right never cuts a label. */
  lemma MatchIffInDomain(host: string, allowed: string)
    ensures MatchesEntry(host, allowed) <==> InDomain(host, allowed)
  {
    if EndsWith(host, "." + allowed) {
      var front := host[..|host| - |allowed| - 1];
      assert host == front + "." + allowed;
      LabelsConcat(front, allowed);
    } else {
      InDomainMatches(host, allowed);
    }
  }

  lemma InDomainMatches(host: string, allowed: string)
    ensures InDomain(host, allowed) ==> MatchesEntry(host, allowed)
  {
    var hostLabels, allowedLabels := Labels(host), Labels(allowed);
    if InDomain(host, allowed) && |hostLabels| > |allowedLabels| {
      var front := hostLabels[..|hostLabels| - |allowedLabels|];
      assert hostLabels == front + allowedLabels;
      JoinConcat(front, allowedLabels);
      JoinLabels(host);
      JoinLabels(allowed);
      assert host == Join(front) + ("." + allowed);
      assert host[|host| - |"." + allowed|..] == "." + allowed;
    } else if InDomain(host, allowed) {
      assert hostLabels == allowedLabels;
      JoinLabels(host);
      JoinLabels(allowed);
    }
  }

  function Normalised(host: string): string {
    Strip(Lower(host))
  }

  method IsAllowed(host: string, allowlist: set<string>) returns (allowed: bool)
    ensures allowed <==> exists domain | domain in allowlist :: InDomain(Strip(Lower(host)), domain)
  {
    var name := Normalised(host);
    if name in allowlist {
      MatchIffInDomain(name, name);
      return true;
    }
    var rest := allowlist;
    while rest != {}
      invariant rest <= allowlist
      invariant forall domain | domain in allowlist - rest :: !InDomain(name, domain)
    {
      var domain :| domain in rest;
      MatchIffInDomain(name, domain);
      if EndsWith(name, "." + domain) {
        return true;
      }
      assert name != domain;
      rest := rest - {domain};
    }
    return false;
  }

  lemma SubdomainsAreInDomain(host: string, domain: string, prefix: string)
    requires InDomain(host, domain)
    ensures InDomain(prefix + "." + host, domain)
  {
    LabelsConcat(prefix, host);
    TailStays(Labels(prefix), Labels(host), Labels(domain));
  }

  /** Names with the same labels are the same. */
  lemma LabelsAreEnough(a: string, b: string)
    requires Labels(a) == Labels(b)
    ensures a == b
  {
    JoinLabels(a);
    JoinLabels(b);
  }

  lemma TailsOfEachOther(a: seq<string>, b: seq<string>)
    requires IsTail(a, b) && IsTail(b, a)
    ensures a == b
  {
  }

  /** Being within a domain is an order on names, so nested entries of an allowlist are redundant. */
  lemma InDomainIsTransitive(host: string, middle: string, domain: string)
    requires InDomain(host, middle) && InDomain(middle, domain)
    ensures InDomain(host, domain)
    ensures InDomain(middle, host) ==> host == middle
  {
    TailOfTail(Labels(host), Labels(middle), Labels(domain));
    if InDomain(middle, host) {
      TailsOfEachOther(Labels(host), Labels(middle));
      LabelsAreEnough(host, middle);
    }
  }
}
