/** Every job that is waiting or running is with somebody. */
module JobCustody {
  import opened Options
  import opened JobMachine
  import opened JobInvariant
  import opened JobIdempotency

  ghost predicate InCustody(s: State, j: JobId) {
    exists place :: Has(s, place, j)
  }

  /** Created by a request of this run, and still to be executed or cancelled. */
  predicate Active(v: View) {
    v.row.Some? && v.row.value.creator.Some? && (v.Is(Queued) || v.Is(Running))
  }

  ghost predicate NoneLost(s: State) {
    s.losses == 0 ==> forall j | Active(s.See(j)) :: InCustody(s, j)
  }

  lemma LocalStepPassesJobOn(h: nat, c: Handler, v: View, step: LocalStep)
    requires LocalOk(h, c, v) && CanStep(c, step) && c.Keeps() && !LosesJob(c, step)
    ensures NextHandler(c, v, step).Keeps() || !NextView(c, v, step).Parked() || !Active(NextView(c, v, step))
  {
  }

  lemma WorkStepPassesJobOn(phase: Phase, v: View, step: WorkStep)
    requires WorkOk(phase, v) && CanWork(phase, v, step) && !WorkLoses(v, step)
    ensures NextPhase(phase, step).Some? || !WorkView(phase, v, step).Parked() || !Active(WorkView(phase, v, step))
  {
  }

  lemma ParkedElsewhere(s: State, j: JobId)
    requires !s.See(j).Parked()
    ensures InCustody(s, j)
  {
    if s.queue[j] > 0 {
      assert Has(s, InQueue, j);
    } else {
      assert Has(s, InSchedule, j);
    }
  }

  /** A step that neither touches the job nor moves its creator leaves it where it is. */
  lemma CustodyFrame(s: State, t: State, j: JobId)
    requires Untouched(s, t, j) && InCustody(s, j)
    requires forall h | h in s.handlers && s.handlers[h].jid == Some(j) && s.handlers[h].Keeps() ::
      h in t.handlers && t.handlers[h] == s.handlers[h]
    ensures InCustody(t, j)
  {
    var place :| Has(s, place, j);
    if place.WithWorker? {
      assert s.Holds(place.w, j) <==> t.Holds(place.w, j);
    }
    assert s.See(j) == t.See(j);
    assert Has(t, place, j);
  }

  lemma CreatorsStay(s: State, e: Event, j: JobId)
    requires Inv(s) && Enabled(s, e) && (e.Step? ==> s.handlers[e.h].jid != Some(j))
    ensures forall h | h in s.handlers && s.handlers[h].jid == Some(j) && s.handlers[h].Keeps() ::
      h in Apply(s, e).handlers && Apply(s, e).handlers[h] == s.handlers[h]
  {
    forall h | h in s.handlers && s.handlers[h].jid == Some(j) && s.handlers[h].Keeps()
      ensures h in Apply(s, e).handlers && Apply(s, e).handlers[h] == s.handlers[h]
    {
      RequestFrame(s, e, h);
    }
  }

  /** The creator's own step: it keeps the job, parks it, or ends it; later steps change nothing. */
  lemma OwnStepKeepsCustody(s: State, h: nat, step: LocalStep)
    requires Inv(s) && Enabled(s, Step(h, step)) && !LosesJob(s.handlers[h], step)
    requires s.handlers[h].Keeps() && Active(ApplyStep(s, h, step).See(s.handlers[h].jid.value))
    ensures InCustody(ApplyStep(s, h, step), s.handlers[h].jid.value)
  {
    var c, t := s.handlers[h], ApplyStep(s, h, step);
    var j := c.jid.value;
    assert HandlerOk(s, h) && ViewOk(s.See(j));
    LocalStepPassesJobOn(h, c, s.See(j), step);
    LocalStepKeepsOk(h, c, s.See(j), step);
    assert t.See(j) == NextView(c, s.See(j), step);
    if t.handlers[h].Keeps() {
      assert Has(t, WithCreator(h), j);
    } else {
      ParkedElsewhere(t, j);
    }
  }

  lemma LateStepKeepsCustody(s: State, h: nat, step: LocalStep, j: JobId)
    requires Inv(s) && Enabled(s, Step(h, step)) && !s.handlers[h].Keeps()
    requires s.handlers[h].jid == Some(j) && InCustody(s, j)
    ensures InCustody(ApplyStep(s, h, step), j)
  {
    var t := ApplyStep(s, h, step);
    assert HandlerOk(s, h);
    LateStepsWriteNothing(s.handlers[h], s.See(j), step);
    assert t.See(j) == s.See(j);
    forall k | k in s.handlers && s.handlers[k].jid == Some(j) { JobsHaveOneCreator(s, h, k); }
    assert forall w :: s.Holds(w, j) == t.Holds(w, j);
    CustodyFrame(s, t, j);
  }

  lemma StepKeepsCustody(s: State, h: nat, step: LocalStep, j: JobId)
    requires Inv(s) && Enabled(s, Step(h, step)) && InCustody(s, j) && !LosesJob(s.handlers[h], step)
    requires Active(ApplyStep(s, h, step).See(j))
    ensures InCustody(ApplyStep(s, h, step), j)
  {
    if s.handlers[h].jid != Some(j) {
      SteppedRequestIsOk(s, ApplyStep(s, h, step), h, step);
      CreatorsStay(s, Step(h, step), j);
      CustodyFrame(s, ApplyStep(s, h, step), j);
    } else if s.handlers[h].Keeps() {
      OwnStepKeepsCustody(s, h, step);
    } else {
      LateStepKeepsCustody(s, h, step, j);
    }
  }

  /** The worker's own step: it keeps the job, puts it back, or ends it. */
  lemma OwnWorkKeepsCustody(s: State, w: nat, work: WorkStep)
    requires Inv(s) && Enabled(s, Work(w, work)) && !WorkLoses(s.See(s.held[w].jid), work)
    requires Active(ApplyWork(s, w, work).See(s.held[w].jid))
    ensures InCustody(ApplyWork(s, w, work), s.held[w].jid)
  {
    var c, t := s.held[w], ApplyWork(s, w, work);
    assert WorkerOk(s, w) && ViewOk(s.See(c.jid));
    WorkStepPassesJobOn(c.phase, s.See(c.jid), work);
    WorkStepKeepsOk(c.phase, s.See(c.jid), work);
    assert t.See(c.jid) == WorkView(c.phase, s.See(c.jid), work);
    if NextPhase(c.phase, work).Some? {
      assert Has(t, WithWorker(w), c.jid);
    } else {
      ParkedElsewhere(t, c.jid);
    }
  }

  lemma WorkKeepsCustody(s: State, w: nat, work: WorkStep, j: JobId)
    requires Inv(s) && Enabled(s, Work(w, work)) && InCustody(s, j) && !WorkLoses(s.See(s.held[w].jid), work)
    requires Active(ApplyWork(s, w, work).See(j))
    ensures InCustody(ApplyWork(s, w, work), j)
  {
    if s.held[w].jid == j {
      OwnWorkKeepsCustody(s, w, work);
    } else {
      WorkedJobIsOk(s, ApplyWork(s, w, work), w, work);
      CreatorsStay(s, Work(w, work), j);
      CustodyFrame(s, ApplyWork(s, w, work), j);
    }
  }

  lemma TakeKeepsCustody(s: State, e: Event, j: JobId)
    requires Inv(s) && Enabled(s, e) && (e.Take? || e.TakeDue?) && InCustody(s, j)
    ensures InCustody(Apply(s, e), j)
  {
    var t := Apply(s, e);
    if e.jid == j {
      assert Has(t, WithWorker(e.w), j);
    } else {
      CreatorsStay(s, e, j);
      assert forall w :: s.Holds(w, j) == t.Holds(w, j);
      CustodyFrame(s, t, j);
    }
  }

  predicate TableStep(e: Event) {
    !e.Step? && !e.Work? && !e.Take? && !e.TakeDue?
  }

  lemma WritingCancelledMovesNothing(s: State, j: JobId)
    requires Inv(s) && s.cancelling.Some? && j in s.rows
    ensures var t := Apply(s, WriteCancelled);
      (t.See(j) == s.See(j) || t.See(j).Is(Cancelled)) && t.held == s.held
  {
  }

  /** The other steps leave the queues alone, and the rows too, but for a new one. */
  lemma EarlyStepsMoveNothing(s: State, e: Event)
    requires Enabled(s, e) && TableStep(e) && !e.WriteCancelled?
    ensures var t := Apply(s, e);
      && t.queue == s.queue && t.schedule == s.schedule && t.completed == s.completed && t.held == s.held
      && (t.rows == s.rows || (e.Insert? && t.rows == s.rows[e.jid := t.rows[e.jid]]))
  {
  }

  lemma TableStepsMoveNothing(s: State, e: Event, j: JobId)
    requires Inv(s) && Enabled(s, e) && TableStep(e) && j in s.rows
    ensures Apply(s, e).See(j) == s.See(j) || Apply(s, e).See(j).Is(Cancelled)
    ensures Apply(s, e).held == s.held
  {
    if e.WriteCancelled? {
      WritingCancelledMovesNothing(s, j);
    } else {
      EarlyStepsMoveNothing(s, e);
    }
  }

  lemma FreshJobIsWithItsCreator(s: State, e: Event, j: JobId)
    requires Inv(s) && Enabled(s, e) && TableStep(e) && j !in s.rows && j in Apply(s, e).rows
    ensures InCustody(Apply(s, e), j)
  {
    assert e.Insert?;
    assert Has(Apply(s, e), WithCreator(e.h), j);
  }

  lemma TableStepsKeepCustody(s: State, e: Event, j: JobId)
    requires Inv(s) && Enabled(s, e) && TableStep(e)
    requires Active(Apply(s, e).See(j)) && (Active(s.See(j)) ==> InCustody(s, j))
    ensures InCustody(Apply(s, e), j)
  {
    if j !in s.rows {
      FreshJobIsWithItsCreator(s, e, j);
    } else {
      TableStepsMoveNothing(s, e, j);
      CreatorsStay(s, e, j);
      CustodyFrame(s, Apply(s, e), j);
    }
  }

  /** Steps do not make a finished or cancelled job active, except a timeout, which its creator handles. */
  lemma ActiveJobsWereActive(s: State, e: Event, j: JobId)
    requires Inv(s) && Enabled(s, e) && (e.Step? || e.Work? || e.Take? || e.TakeDue?) && Active(Apply(s, e).See(j))
    ensures Active(s.See(j)) || InCustody(s, j)
  {
    if e.Step? && s.handlers[e.h].jid == Some(j) {
      assert HandlerOk(s, e.h);
      if s.handlers[e.h].Keeps() {
        assert Has(s, WithCreator(e.h), j);
      } else {
        LateStepsWriteNothing(s.handlers[e.h], s.See(j), e.step);
      }
    } else if e.Work? && s.held[e.w].jid == j {
      assert Has(s, WithWorker(e.w), j);
    }
  }

  lemma EventLosesNothing(s: State, e: Event)
    requires Inv(s) && Enabled(s, e) && NoneLost(s)
    ensures NoneLost(Apply(s, e))
  {
    var t := Apply(s, e);
    if t.losses == 0 {
      forall j | Active(t.See(j))
        ensures InCustody(t, j)
      {
        match e
        case Step(h, step) =>
          ActiveJobsWereActive(s, e, j);
          StepKeepsCustody(s, h, step, j);
        case Work(w, work) =>
          ActiveJobsWereActive(s, e, j);
          WorkKeepsCustody(s, w, work, j);
        case Take(_, _) =>
          ActiveJobsWereActive(s, e, j);
          TakeKeepsCustody(s, e, j);
        case TakeDue(_, _) =>
          ActiveJobsWereActive(s, e, j);
          TakeKeepsCustody(s, e, j);
        case _ => TableStepsKeepCustody(s, e, j);
      }
    }
  }

  lemma {:induction false} RunLosesNothing(s: State, run: Run)
    requires Initial(s) && Possible(s, run)
    ensures NoneLost(After(s, run))
  {
    if run.Then? {
      RunLosesNothing(s, run.before);
      RunKeepsInv(s, run.before);
      EventLosesNothing(After(s, run.before), run.event);
    }
  }

  /** Some request that created the job has neither pushed it nor replied. */
  ghost predicate CreatorGoesOn(s: State, j: JobId) {
    exists h :: h in s.handlers && s.handlers[h].jid == Some(j) && !s.handlers[h].pc.Pushed?
                && !s.handlers[h].pc.Replied?
  }

  ghost predicate WorkerHolds(s: State, j: JobId) {
    exists w :: w in s.held && s.held[w].jid == j
  }

  /**
   Without a fault around the queue, a dead worker or a delayed job popped early, every job created
   and still queued or running is with its creator, in a queue, in the schedule or with a worker.
   */
  lemma NoJobIsStranded(s: State, j: JobId)
    requires Reachable(s) && s.losses == 0
    requires j in s.rows && s.rows[j].creator.Some? && s.rows[j].status in {Queued, Running}
    ensures CreatorGoesOn(s, j) || s.queue[j] > 0 || s.schedule[j] > 0 || WorkerHolds(s, j)
  {
    var s0, run :| Initial(s0) && Possible(s0, run) && After(s0, run) == s;
    RunLosesNothing(s0, run);
    assert InCustody(s, j);
    var place :| Has(s, place, j);
    if place.WithCreator? {
      assert s.handlers[place.h].jid == Some(j);
    } else if place.WithWorker? {
      assert s.held[place.w].jid == j;
    }
  }
}
