/** When a cancelled job can still be overwritten. */
module JobCancellation {
  import opened Options
  import opened JobMachine
  import opened JobInvariant

  /** The request has an inline execution ahead of it or under way. */
  predicate InlineAhead(c: Handler) {
    c.plan.Inline() && (c.pc.Bumping? || c.pc.Bumped? || c.pc.Announcing? || c.pc.Executing?)
  }

  ghost predicate WillOverwrite(s: State, h: nat, j: JobId) {
    h in s.handlers && s.handlers[h].jid == Some(j) && InlineAhead(s.handlers[h])
  }

  /** A worker in this phase still writes the status without looking at it, if only after a fault. */
  predicate WritesBlindly(phase: Phase) {
    phase.Trusting? || phase.Working? || phase.PublishingDone?
  }

  ghost predicate WorkerWillOverwrite(s: State, w: nat, j: JobId) {
    s.Holds(w, j) && WritesBlindly(s.held[w].phase)
  }

  /** Neither the creating request nor a worker has an unguarded UPDATE of the job ahead. */
  ghost predicate NobodyOverwrites(s: State, j: JobId) {
    (forall h :: !WillOverwrite(s, h, j)) && (forall w :: !WorkerWillOverwrite(s, w, j))
  }

  lemma LateStepKeepsCancelled(h: nat, c: Handler, v: View, step: LocalStep)
    requires LocalOk(h, c, v) && CanStep(c, step) && v.Is(Cancelled) && !InlineAhead(c)
    ensures NextView(c, v, step).Is(Cancelled) && !InlineAhead(NextHandler(c, v, step))
  {
  }

  lemma WorkKeepsCancelled(phase: Phase, v: View, step: WorkStep)
    requires WorkOk(phase, v) && CanWork(phase, v, step) && v.Is(Cancelled) && !WritesBlindly(phase)
    ensures WorkView(phase, v, step).Is(Cancelled)
    ensures NextPhase(phase, step).Some? ==> !WritesBlindly(NextPhase(phase, step).value)
  {
  }

  lemma StepKeepsCancelled(s: State, h: nat, step: LocalStep, j: JobId)
    requires Inv(s) && Enabled(s, Step(h, step)) && s.See(j).Is(Cancelled) && NobodyOverwrites(s, j)
    ensures ApplyStep(s, h, step).See(j).Is(Cancelled)
    ensures NobodyOverwrites(ApplyStep(s, h, step), j)
  {
    var t := ApplyStep(s, h, step);
    assert HandlerOk(s, h) && !WillOverwrite(s, h, j);
    if s.handlers[h].jid == Some(j) {
      LateStepKeepsCancelled(h, s.handlers[h], s.See(j), step);
      assert t.See(j) == NextView(s.handlers[h], s.See(j), step);
    } else {
      assert t.See(j).row == s.See(j).row;
    }
    forall k
      ensures !WillOverwrite(t, k, j)
    {
      assert !WillOverwrite(s, k, j);
    }
    forall w
      ensures !WorkerWillOverwrite(t, w, j)
    {
      assert !WorkerWillOverwrite(s, w, j);
    }
  }

  lemma WorkerKeepsCancelled(s: State, w: nat, work: WorkStep, j: JobId)
    requires Inv(s) && Enabled(s, Work(w, work)) && s.See(j).Is(Cancelled)
    requires forall v :: !WorkerWillOverwrite(s, v, j)
    ensures ApplyWork(s, w, work).See(j).Is(Cancelled)
    ensures forall v :: !WorkerWillOverwrite(ApplyWork(s, w, work), v, j)
  {
    var t := ApplyWork(s, w, work);
    assert WorkerOk(s, w) && !WorkerWillOverwrite(s, w, j);
    if s.held[w].jid == j {
      WorkKeepsCancelled(s.held[w].phase, s.See(j), work);
      assert t.See(j) == WorkView(s.held[w].phase, s.See(j), work);
    } else {
      assert t.See(j).row == s.See(j).row;
    }
    forall v
      ensures !WorkerWillOverwrite(t, v, j)
    {
      assert !WorkerWillOverwrite(s, v, j);
    }
  }

  /** Only its own steps bring a request's inline execution closer. */
  lemma RequestsStayBehind(s: State, e: Event, j: JobId)
    requires Inv(s) && Enabled(s, e) && !e.Step? && j in s.rows && forall h :: !WillOverwrite(s, h, j)
    ensures forall h :: !WillOverwrite(Apply(s, e), h, j)
  {
    forall h
      ensures !WillOverwrite(Apply(s, e), h, j)
    {
      assert !WillOverwrite(s, h, j);
      if h in s.handlers {
        RequestFrame(s, e, h);
      } else if h in Apply(s, e).handlers {
        ArrivalIsNew(s, e, h);
      }
    }
  }

  lemma OthersWriteOnlyCancelled(s: State, e: Event, j: JobId)
    requires Inv(s) && Enabled(s, e) && !e.Step? && !e.Work? && s.See(j).Is(Cancelled)
    ensures Apply(s, e).See(j).Is(Cancelled)
  {
  }

  /** Other steps only add workers that have not claimed anything yet. */
  lemma WorkersStayBehind(s: State, e: Event, j: JobId)
    requires Enabled(s, e) && !e.Step? && !e.Work? && forall w :: !WorkerWillOverwrite(s, w, j)
    ensures forall w :: !WorkerWillOverwrite(Apply(s, e), w, j)
  {
    forall w
      ensures !WorkerWillOverwrite(Apply(s, e), w, j)
    {
      assert !WorkerWillOverwrite(s, w, j);
    }
  }

  lemma CancelledStays(s: State, e: Event, j: JobId)
    requires Inv(s) && Enabled(s, e) && s.See(j).Is(Cancelled) && NobodyOverwrites(s, j)
    ensures Apply(s, e).See(j).Is(Cancelled) && NobodyOverwrites(Apply(s, e), j)
  {
    match e
    case Step(h, step) => StepKeepsCancelled(s, h, step, j);
    case Work(w, work) =>
      RequestsStayBehind(s, e, j);
      WorkerKeepsCancelled(s, w, work, j);
    case _ =>
      RequestsStayBehind(s, e, j);
      WorkersStayBehind(s, e, j);
      OthersWriteOnlyCancelled(s, e, j);
  }

  lemma {:induction false} CancelledStaysForever(s: State, run: Run, j: JobId)
    requires Inv(s) && Possible(s, run) && s.See(j).Is(Cancelled) && NobodyOverwrites(s, j)
    ensures After(s, run).See(j).Is(Cancelled) && NobodyOverwrites(After(s, run), j)
  {
    if run.Then? {
      CancelledStaysForever(s, run.before, j);
      RunKeepsInv(s, run.before);
      CancelledStays(After(s, run.before), run.event, j);
    }
  }

  /** The run that takes `e` first. */
  function Prepend(e: Event, run: Run): Run {
    if run.Start? then Then(Start, e) else Then(Prepend(e, run.before), run.event)
  }

  lemma {:induction false} PrependIsPossible(s: State, e: Event, run: Run)
    requires Enabled(s, e) && Possible(Apply(s, e), run)
    ensures Possible(s, Prepend(e, run)) && After(s, Prepend(e, run)) == After(Apply(s, e), run)
  {
    if run.Start? {
      assert Possible(s, Start);
    } else {
      PrependIsPossible(s, e, run.before);
    }
  }

  function StepsToOutcome(pc: Pc): nat {
    match pc
    case Bumping => 3
    case Bumped => 2
    case Announcing => 1
    case _ => 0
  }

  /** The next step towards the outcome; a cancellation in the middle is written first. */
  function TowardsOutcome(s: State, h: nat): Event
    requires h in s.handlers
  {
    if s.cancelling.Some? then WriteCancelled
    else Step(h, match s.handlers[h].pc case Bumping => Bump case Bumped => Proceed case _ => Announce)
  }

  lemma InlineStepAhead(s: State, h: nat, j: JobId)
    requires Inv(s) && WillOverwrite(s, h, j) && (s.cancelling.Some? || !s.handlers[h].pc.Executing?)
    ensures Enabled(s, TowardsOutcome(s, h))
    ensures var t := Apply(s, TowardsOutcome(s, h));
      && WillOverwrite(t, h, j) && t.cancelling.None?
      && (if s.cancelling.Some? then t.handlers == s.handlers
          else StepsToOutcome(t.handlers[h].pc) < StepsToOutcome(s.handlers[h].pc))
  {
    assert HandlerOk(s, h);
  }

  /** The run in which the inline execution goes on and succeeds. */
  lemma {:induction false} InlineStepsOverwrite(s: State, h: nat, j: JobId) returns (run: Run)
    requires Inv(s) && WillOverwrite(s, h, j)
    ensures Possible(s, run) && After(s, run).See(j).Is(Done)
    decreases StepsToOutcome(s.handlers[h].pc), if s.cancelling.Some? then 1 else 0
  {
    assert HandlerOk(s, h);
    if s.cancelling.None? && s.handlers[h].pc.Executing? {
      run := Then(Start, Step(h, Execute(Success)));
      assert Possible(s, Start);
    } else {
      var e := TowardsOutcome(s, h);
      InlineStepAhead(s, h, j);
      EventKeepsInv(s, e);
      var rest := InlineStepsOverwrite(Apply(s, e), h, j);
      PrependIsPossible(s, e, rest);
      run := Prepend(e, rest);
    }
  }

  /** The step with which a worker writes its outcome, or comes to it. */
  function WorkerWrites(phase: Phase): WorkStep
    requires WritesBlindly(phase)
  {
    match phase case Trusting => StartBlindly case Working => Finish(true) case PublishingDone => PublishFault
  }

  lemma TrustingStarts(s: State, w: nat, j: JobId)
    requires Inv(s) && s.Holds(w, j) && s.held[w].phase.Trusting?
    ensures Enabled(s, Work(w, StartBlindly))
    ensures var t := Apply(s, Work(w, StartBlindly)); t.Holds(w, j) && t.held[w].phase.Working?
  {
    assert WorkerOk(s, w);
  }

  lemma WorkerWritesOutcome(s: State, w: nat, j: JobId)
    requires Inv(s) && WorkerWillOverwrite(s, w, j) && !s.held[w].phase.Trusting?
    ensures var e := Work(w, WorkerWrites(s.held[w].phase));
      Enabled(s, e) && Apply(s, e).See(j).Is(if s.held[w].phase.Working? then Done else Failed)
  {
    assert WorkerOk(s, w);
  }

  lemma OneEventRun(s: State, e: Event)
    requires Enabled(s, e)
    ensures Possible(s, Then(Start, e)) && After(s, Then(Start, e)) == Apply(s, e)
  {
    assert Possible(s, Start);
  }

  /** The run in which the worker writes its outcome: done, or failed when announcing it raises. */
  lemma WorkerOverwrites(s: State, w: nat, j: JobId) returns (run: Run)
    requires Inv(s) && WorkerWillOverwrite(s, w, j)
    ensures Possible(s, run)
    ensures After(s, run).See(j).Is(if s.held[w].phase.PublishingDone? then Failed else Done)
    decreases s.held[w].phase.Trusting?
  {
    if s.held[w].phase.Trusting? {
      TrustingStarts(s, w, j);
      var e := Work(w, StartBlindly);
      EventKeepsInv(s, e);
      var rest := WorkerOverwrites(Apply(s, e), w, j);
      PrependIsPossible(s, e, rest);
      run := Prepend(e, rest);
    } else {
      WorkerWritesOutcome(s, w, j);
      OneEventRun(s, Work(w, WorkerWrites(s.held[w].phase)));
      run := Then(Start, Work(w, WorkerWrites(s.held[w].phase)));
    }
  }

  ghost predicate StillCancelled(s: State, run: Run, j: JobId)
    requires Possible(s, run)
  {
    After(s, run).See(j).Is(Cancelled)
  }

  /**
   A cancelled job stays cancelled in every continuation exactly when its creating request has no
   inline execution ahead and no worker is executing it or announcing that it did: the UPDATEs after
   the guarded ones check nothing, and neither does the one of the cancellation itself.
   */
  lemma CancelStandsIffNobodyOverwrites(s: State, j: JobId)
    requires Reachable(s) && s.See(j).Is(Cancelled)
    ensures (forall run | Possible(s, run) :: StillCancelled(s, run, j)) <==> NobodyOverwrites(s, j)
  {
    ReachableStatesAreOk(s);
    if h :| WillOverwrite(s, h, j) {
      var run := InlineStepsOverwrite(s, h, j);
      assert !StillCancelled(s, run, j);
    } else if w :| WorkerWillOverwrite(s, w, j) {
      var run := WorkerOverwrites(s, w, j);
      assert !StillCancelled(s, run, j);
    } else {
      forall run | Possible(s, run)
        ensures StillCancelled(s, run, j)
      {
        CancelledStaysForever(s, run, j);
      }
    }
  }

  const EMPTY := State(map[], multiset{}, multiset{}, multiset{}, map[], map[], map[], None, 0, 0)

  /** A request inserts its row, which is cancelled while the usage counter is awaited. */
  function CancelledEarly(): Run {
    Then(Then(Inserted(Plan(true, false, true)), ReadForCancel("u", false, 1)), WriteCancelled)
  }

  function Inserted(plan: Plan): Run {
    Then(Then(Then(Start, Arrive(0, Request("u", None, "a"))), Look(0)), Insert(0, 1, plan))
  }

  /** What the run with one inserted row leaves behind. */
  ghost predicate IsInserted(s: State, plan: Plan) {
    && s.rows == map[1 := Row("u", None, "a", plan.delayed, Queued, Some(0))]
    && s.handlers == map[0 := Handler(Request("u", None, "a"), Bumping, Some(1), plan, false, false, 0)]
    && s.held == map[] && s.queue == multiset{} && s.schedule == multiset{} && s.cancelling.None?
  }

  lemma InsertHappens(plan: Plan)
    ensures Possible(EMPTY, Inserted(plan)) && IsInserted(After(EMPTY, Inserted(plan)), plan)
  {
    var looked := Inserted(plan).before;
    assert Possible(EMPTY, looked.before);
    assert Possible(EMPTY, looked);
    assert After(EMPTY, looked).handlers[0].pc == Waiting;
  }

  /** The first exception is real: a cancel during the await after the INSERT will be overwritten. */
  lemma CancelCanPrecedeInlineRun()
    ensures Possible(EMPTY, CancelledEarly())
    ensures After(EMPTY, CancelledEarly()).See(1).Is(Cancelled) && WillOverwrite(After(EMPTY, CancelledEarly()), 0, 1)
  {
    InsertHappens(Plan(true, false, true));
    var read := CancelledEarly().before;
    assert Possible(EMPTY, read);
    assert After(EMPTY, read).cancelling == Some(1);
  }

  /** The life of one job: pushed, read by a cancellation, claimed by a worker, cancelled, done. */
  function LateEvent(n: nat): Event {
    match n
    case 0 => Step(0, Bump)
    case 1 => Step(0, Proceed)
    case 2 => Step(0, Push)
    case 3 => ReadForCancel("u", false, 1)
    case 4 => Take(0, 1)
    case 5 => Work(0, Claim)
    case 6 => Work(0, Begin)
    case _ => WriteCancelled
  }

  datatype Stage = Stage(status: Status, pc: Pc, queued: nat, phase: Option<Phase>, cancelling: Option<JobId>)

  function StageAfter(n: nat): Stage {
    match n
    case 0 => Stage(Queued, Bumping, 0, None, None)
    case 1 => Stage(Queued, Bumped, 0, None, None)
    case 2 => Stage(Queued, Pushing, 0, None, None)
    case 3 => Stage(Queued, Pushed, 1, None, None)
    case 4 => Stage(Queued, Pushed, 1, None, Some(1))
    case 5 => Stage(Queued, Pushed, 0, Some(Holding), Some(1))
    case 6 => Stage(Running, Pushed, 0, Some(Claimed), Some(1))
    case 7 => Stage(Running, Pushed, 0, Some(Working), Some(1))
    case _ => Stage(Cancelled, Pushed, 0, Some(Working), None)
  }

  ghost predicate AtStage(s: State, stage: Stage) {
    && s.See(1).row == Some(Row("u", None, "a", false, stage.status, Some(0))) && s.queue[1] == stage.queued
    && s.handlers.Keys == {0} && s.handlers[0].jid == Some(1) && s.handlers[0].pc == stage.pc
    && s.handlers[0].plan == Plan(false, false, true)
    && s.held == (if stage.phase.Some? then map[0 := Custody(1, stage.phase.value)] else map[])
    && s.cancelling == stage.cancelling
  }

  lemma RequestStageFollows(s: State, n: nat)
    requires n <= 2 && AtStage(s, StageAfter(n))
    ensures Enabled(s, LateEvent(n)) && AtStage(Apply(s, LateEvent(n)), StageAfter(n + 1))
  {
  }

  lemma CancelStageFollows(s: State, n: nat)
    requires (n == 3 || n == 7) && AtStage(s, StageAfter(n))
    ensures Enabled(s, LateEvent(n)) && AtStage(Apply(s, LateEvent(n)), StageAfter(n + 1))
  {
  }

  lemma TakeStageFollows(s: State)
    requires AtStage(s, StageAfter(4))
    ensures Enabled(s, LateEvent(4)) && AtStage(Apply(s, LateEvent(4)), StageAfter(5))
  {
  }

  lemma ClaimStageFollows(s: State)
    requires AtStage(s, StageAfter(5))
    ensures Enabled(s, LateEvent(5)) && AtStage(Apply(s, LateEvent(5)), StageAfter(6))
  {
  }

  lemma BeginStageFollows(s: State)
    requires AtStage(s, StageAfter(6))
    ensures Enabled(s, LateEvent(6)) && AtStage(Apply(s, LateEvent(6)), StageAfter(7))
  {
  }

  lemma WorkerStageFollows(s: State, n: nat)
    requires 4 <= n <= 6 && AtStage(s, StageAfter(n))
    ensures Enabled(s, LateEvent(n)) && AtStage(Apply(s, LateEvent(n)), StageAfter(n + 1))
  {
    match n
    case 4 => TakeStageFollows(s);
    case 5 => ClaimStageFollows(s);
    case _ => BeginStageFollows(s);
  }

  lemma LastStageFollows(s: State)
    requires AtStage(s, StageAfter(8))
    ensures Enabled(s, Work(0, Finish(true))) && Apply(s, Work(0, Finish(true))).See(1).Is(Done)
  {
  }

  /** The run of the first `n` of these events. */
  lemma {:induction false} StagesHappen(n: nat) returns (run: Run)
    requires n <= 8
    ensures Possible(EMPTY, run) && AtStage(After(EMPTY, run), StageAfter(n))
  {
    if n == 0 {
      InsertHappens(Plan(false, false, true));
      return Inserted(Plan(false, false, true));
    }
    run := StagesHappen(n - 1);
    var s := After(EMPTY, run);
    if n <= 3 {
      RequestStageFollows(s, n - 1);
    } else if n == 4 || n == 8 {
      CancelStageFollows(s, n - 1);
    } else {
      WorkerStageFollows(s, n - 1);
    }
    run := Then(run, LateEvent(n - 1));
  }

  /** The second exception is real: the caller is told "cancelled", and the worker goes on to write "done". */
  lemma CancelCanFollowAClaim() returns (run: Run)
    ensures Possible(EMPTY, run) && run.Then? && run.event == WriteCancelled
    ensures var s := After(EMPTY, run);
      s.See(1).Is(Cancelled) && WorkerWillOverwrite(s, 0, 1) && forall h :: !WillOverwrite(s, h, 1)
    ensures var later := Then(run, Work(0, Finish(true)));
      Possible(EMPTY, later) && After(EMPTY, later).See(1).Is(Done)
  {
    var before := StagesHappen(7);
    CancelStageFollows(After(EMPTY, before), 7);
    run := Then(before, WriteCancelled);
    LastStageFollows(After(EMPTY, run));
  }

  // ---------- the worker that does not check its claim ----------

  /** The job is pushed, a worker reads it as queued, and it is cancelled before the worker's UPDATE. */
  function BlindEvent(n: nat): Event {
    match n
    case 0 => Take(0, 1)
    case 1 => Work(0, Trust)
    case 2 => ReadForCancel("u", false, 1)
    case _ => WriteCancelled
  }

  function BlindStage(n: nat): Stage {
    match n
    case 0 => Stage(Queued, Pushed, 1, None, None)
    case 1 => Stage(Queued, Pushed, 0, Some(Holding), None)
    case 2 => Stage(Queued, Pushed, 0, Some(Trusting), None)
    case 3 => Stage(Queued, Pushed, 0, Some(Trusting), Some(1))
    case 4 => Stage(Cancelled, Pushed, 0, Some(Trusting), None)
    case _ => Stage(Cancelled, Pushed, 0, Some(Working), None)
  }

  lemma BlindTake(s: State)
    requires AtStage(s, BlindStage(0))
    ensures Enabled(s, BlindEvent(0)) && AtStage(Apply(s, BlindEvent(0)), BlindStage(1))
  {
  }

  lemma BlindTrust(s: State)
    requires AtStage(s, BlindStage(1))
    ensures Enabled(s, BlindEvent(1)) && AtStage(Apply(s, BlindEvent(1)), BlindStage(2))
  {
  }

  lemma BlindCancel(s: State, n: nat)
    requires (n == 2 || n == 3) && AtStage(s, BlindStage(n))
    ensures Enabled(s, BlindEvent(n)) && AtStage(Apply(s, BlindEvent(n)), BlindStage(n + 1))
  {
  }

  lemma BlindStart(s: State)
    requires AtStage(s, BlindStage(4))
    ensures s.See(1).Is(Cancelled) && WorkerWillOverwrite(s, 0, 1) && forall h :: !WillOverwrite(s, h, 1)
    ensures Enabled(s, Work(0, StartBlindly)) && AtStage(Apply(s, Work(0, StartBlindly)), BlindStage(5))
  {
  }

  lemma BlindFinish(s: State)
    requires AtStage(s, BlindStage(5))
    ensures Enabled(s, Work(0, Finish(true))) && Apply(s, Work(0, Finish(true))).See(1).Is(Done)
  {
  }

  lemma {:induction false} BlindStagesHappen(n: nat) returns (run: Run)
    requires n <= 4
    ensures Possible(EMPTY, run) && AtStage(After(EMPTY, run), BlindStage(n))
    ensures n > 0 ==> run.Then? && run.event == BlindEvent(n - 1)
  {
    if n == 0 {
      run := StagesHappen(3);
    } else {
      run := BlindStagesHappen(n - 1);
      var s := After(EMPTY, run);
      match n {
        case 1 => BlindTake(s);
        case 2 => BlindTrust(s);
        case 3 => BlindCancel(s, 2);
        case _ => BlindCancel(s, 3);
      }
      run := Then(run, BlindEvent(n - 1));
    }
  }

  /** The third exception is real: nobody has claimed the cancelled job, and the worker still runs it. */
  lemma CancelCanPrecedeABlindStart() returns (run: Run)
    ensures Possible(EMPTY, run) && run.Then? && run.event == WriteCancelled
    ensures var s := After(EMPTY, run);
      s.See(1).Is(Cancelled) && WorkerWillOverwrite(s, 0, 1) && forall h :: !WillOverwrite(s, h, 1)
    ensures var later := Then(Then(run, Work(0, StartBlindly)), Work(0, Finish(true)));
      Possible(EMPTY, later) && After(EMPTY, later).See(1).Is(Done)
  {
    run := BlindStagesHappen(4);
    BlindStart(After(EMPTY, run));
    var started := Then(run, Work(0, StartBlindly));
    assert Possible(EMPTY, started);
    BlindFinish(After(EMPTY, started));
  }
}
