/** Who has a job, which request creates it, and what the other requests are answered. */
module JobIdempotency {
  import opened Options
  import opened JobMachine
  import opened JobInvariant

  // ---------- one custodian ----------

  datatype Place = WithCreator(h: nat) | InQueue | InSchedule | WithWorker(w: nat)

  ghost predicate Has(s: State, place: Place, j: JobId) {
    match place
    case WithCreator(h) => h in s.handlers && s.handlers[h].jid == Some(j) && s.handlers[h].Keeps()
    case InQueue => s.queue[j] > 0
    case InSchedule => s.schedule[j] > 0
    case WithWorker(w) => s.Holds(w, j)
  }

  /**
   A job is with one party at a time: it is not queued while it executes inline, no two workers
   hold it, it sits in a queue once, and its execution is recorded as done once at most.
   */
  lemma EachJobHasOneCustodian(s: State, j: JobId, p: Place, q: Place)
    requires Reachable(s)
    ensures Has(s, p, j) && Has(s, q, j) ==> p == q
    ensures s.queue[j] + s.schedule[j] <= 1 && s.completed[j] <= 1
  {
    ReachableStatesAreOk(s);
    assert ViewOk(s.See(j));
    forall h | h in s.handlers && s.handlers[h].jid == Some(j)
      ensures HandlerOk(s, h)
      ensures forall k | k in s.handlers && s.handlers[k].jid == Some(j) :: k == h
    {
      assert HandlerOk(s, h);
      forall k | k in s.handlers && s.handlers[k].jid == Some(j) { JobsHaveOneCreator(s, h, k); }
    }
    forall w | s.Holds(w, j) ensures WorkerOk(s, w) { }
  }

  // ---------- idempotency ----------

  ghost predicate SameKey(s: State, h: nat, k: nat) {
    h in s.handlers && k in s.handlers && s.handlers[h].req.key.Some?
    && s.handlers[h].req.user == s.handlers[k].req.user && s.handlers[h].req.key == s.handlers[k].req.key
  }

  /** Among the requests with one user and key, one at most inserts a row and is counted. */
  lemma OneInsertPerKey(s: State, h: nat, k: nat)
    requires Reachable(s) && SameKey(s, h, k)
    ensures s.handlers[h].jid.Some? && s.handlers[k].jid.Some? ==> h == k
    ensures s.handlers[h].bumped && s.handlers[k].bumped ==> h == k
    ensures s.handlers[h].bumped ==> s.handlers[h].jid.Some?
  {
    ReachableRequestIsOk(s, h);
    ReachableRequestIsOk(s, k);
    if s.handlers[h].jid.Some? && s.handlers[k].jid.Some? {
      ReachableKeysAreUnique(s, s.handlers[h].jid.value, s.handlers[k].jid.value);
    }
  }

  /** The reply names a job: an earlier request's or the request's own. */
  ghost predicate NamesAJob(c: Handler) {
    c.pc.Replied? && (c.pc.reply.Existing? || c.pc.reply.Fresh?)
  }

  /** All successful replies for one user and key name the same job, the one the table holds. */
  lemma RepliesNameOneJob(s: State, h: nat, k: nat)
    requires Reachable(s) && SameKey(s, h, k) && NamesAJob(s.handlers[h]) && NamesAJob(s.handlers[k])
    ensures s.handlers[h].pc.reply.jid == s.handlers[k].pc.reply.jid
    ensures s.handlers[h].pc.reply.jid in s.rows
    ensures var row, req := s.rows[s.handlers[h].pc.reply.jid], s.handlers[h].req;
      req.key.Some? && row.user == req.user && row.key == req.key
  {
    ReachableRequestIsOk(s, h);
    ReachableRequestIsOk(s, k);
    ReachableKeysAreUnique(s, s.handlers[h].pc.reply.jid, s.handlers[k].pc.reply.jid);
  }

  /**
   A request that reached the table is answered 409 exactly when the row stored for its key has
   a digest, and another one.
   */
  lemma ConflictIffPayloadDiffers(s: State, h: nat, j: JobId)
    requires Reachable(s) && h in s.handlers
    requires j in s.rows && s.handlers[h].req.key.Some?
    requires s.rows[j].user == s.handlers[h].req.user && s.rows[j].key == s.handlers[h].req.key
    requires s.handlers[h].pc.Replied? && !s.handlers[h].pc.reply.Refused?
    ensures s.handlers[h].pc.reply.Conflict? <==>
              s.rows[j].hash != "" && s.rows[j].hash != s.handlers[h].req.hash
  {
    ReachableRequestIsOk(s, h);
    forall i | i in s.rows && Matches(s.rows[i], s.handlers[h].req.user, s.handlers[h].req.key)
      ensures i == j
    {
      ReachableKeysAreUnique(s, i, j);
    }
  }

  ghost function Counted(s: State, user: string): set<nat> {
    set h | h in s.handlers && s.handlers[h].bumped && s.handlers[h].req.user == user
  }

  /** A step counts the request exactly when it bumps the counter. */
  lemma StepMarksBump(s: State, h: nat, step: LocalStep)
    requires Inv(s) && Enabled(s, Step(h, step))
    ensures var c, d := s.handlers[h], ApplyStep(s, h, step).handlers[h];
      && d.req == c.req && d.bumped == (step.Bump? || c.bumped) && (step.Bump? ==> !c.bumped)
      && ApplyStep(s, h, step).handlers == s.handlers[h := d]
  {
    assert HandlerOk(s, h);
  }

  lemma StepCounts(s: State, h: nat, step: LocalStep, user: string)
    requires Inv(s) && Enabled(s, Step(h, step))
    ensures Counted(ApplyStep(s, h, step), user) ==
      Counted(s, user) + if step.Bump? && s.handlers[h].req.user == user then {h} else {}
    ensures step.Bump? ==> h !in Counted(s, user)
  {
    StepMarksBump(s, h, step);
    forall k
      ensures k in Counted(ApplyStep(s, h, step), user) <==>
                k in Counted(s, user) || (k == h && step.Bump? && s.handlers[h].req.user == user)
    {
    }
  }

  lemma OnlyStepsBump(s: State, e: Event)
    requires Enabled(s, e) && !e.Step?
    ensures Apply(s, e).usage == s.usage
  {
  }

  /** No other event sends a request past the counter. */
  lemma OnlyStepsCount(s: State, e: Event, user: string)
    requires Inv(s) && Enabled(s, e) && !e.Step?
    ensures Counted(Apply(s, e), user) == Counted(s, user)
    ensures Apply(s, e).Used(user) == s.Used(user)
  {
    OnlyStepsBump(s, e);
    forall h
      ensures h in Counted(Apply(s, e), user) <==> h in Counted(s, user)
    {
      if h in s.handlers {
        RequestFrame(s, e, h);
      } else if h in Apply(s, e).handlers {
        ArrivalIsNew(s, e, h);
      }
    }
  }

  lemma EventCountsUsage(s: State, e: Event, user: string)
    requires Inv(s) && Enabled(s, e)
    ensures Apply(s, e).Used(user) - s.Used(user) == |Counted(Apply(s, e), user)| - |Counted(s, user)|
  {
    if e.Step? {
      StepCounts(s, e.h, e.step, user);
    } else {
      OnlyStepsCount(s, e, user);
    }
  }

  /** A user's usage grows by the number of that user's requests that were counted. */
  lemma {:induction false} UsageCountsRequests(s: State, run: Run, user: string)
    requires Initial(s) && Possible(s, run)
    ensures After(s, run).Used(user) == s.Used(user) + |Counted(After(s, run), user)|
  {
    if run.Then? {
      UsageCountsRequests(s, run.before, user);
      RunKeepsInv(s, run.before);
      EventCountsUsage(After(s, run.before), run.event, user);
    } else {
      assert Counted(s, user) == {};
    }
  }

  // ---------- inline execution ----------

  /** The guarded UPDATE of `h` matched and `h` has not written an outcome yet. */
  ghost predicate RunsInline(s: State, h: nat, j: JobId) {
    h in s.handlers && s.handlers[h].jid == Some(j) && s.handlers[h].matched
    && (s.handlers[h].pc.Announcing? || s.handlers[h].pc.Executing?)
  }

  /** The run contains no step of `h`. */
  ghost predicate WithoutStepsOf(run: Run, h: nat) {
    run.Start? || (WithoutStepsOf(run.before, h) && !(run.event.Step? && run.event.h == h))
  }

  lemma OthersLeaveInlineRunAlone(s: State, e: Event, h: nat, j: JobId)
    requires Inv(s) && Enabled(s, e) && RunsInline(s, h, j) && !(e.Step? && e.h == h)
    ensures RunsInline(Apply(s, e), h, j)
  {
    RequestFrame(s, e, h);
  }

  lemma InlineJobIsRunning(s: State, h: nat, j: JobId)
    requires Inv(s) && RunsInline(s, h, j)
    ensures s.See(j).Is(Running)
  {
    assert HandlerOk(s, h);
  }

  /** Nothing but the executing request itself ends "running": no cancel, no worker, no other request. */
  lemma {:induction false} InlineRunIsProtected(s: State, run: Run, h: nat, j: JobId, user: string, admin: bool)
    requires Inv(s) && RunsInline(s, h, j)
    requires Possible(s, run) && WithoutStepsOf(run, h)
    ensures RunsInline(After(s, run), h, j) && After(s, run).See(j).Is(Running)
    ensures !MayCancel(After(s, run).See(j), user, admin)
  {
    if run.Then? {
      InlineRunIsProtected(s, run.before, h, j, user, admin);
      RunKeepsInv(s, run.before);
      OthersLeaveInlineRunAlone(After(s, run.before), run.event, h, j);
    }
    RunKeepsInv(s, run);
    InlineJobIsRunning(After(s, run), h, j);
  }

  /** A finished request pushed its job once if it reports "queued", and never if it reports an outcome. */
  lemma PushedExactlyWhenReportedQueued(s: State, h: nat)
    requires Reachable(s) && h in s.handlers && s.handlers[h].pc.Replied? && s.handlers[h].jid.Some?
    ensures s.handlers[h].pc.reply.Fresh? || s.faults > 0
    ensures s.handlers[h].pc.reply.Fresh? ==>
      s.handlers[h].pushes == if s.handlers[h].pc.reply.status == Queued then 1 else 0
  {
    ReachableRequestIsOk(s, h);
  }
}
