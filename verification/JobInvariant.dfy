/**
 The invariant of the job machine, and that every event keeps it. Most of a step concerns one
 request or worker and the view of one job; the rest is showing that nobody else noticed.
 */
module JobInvariant {
  import opened Options
  import opened JobMachine

  ghost predicate UniqueKeys(rows: map<JobId, Row>) {
    forall i, j | i in rows && j in rows && Matches(rows[i], rows[j].user, rows[j].key) :: i == j
  }

  /** A request without a row of its own: what it may have replied. */
  ghost predicate NoJobOk(rows: map<JobId, Row>, c: Handler) {
    && !c.bumped && c.pushes == 0
    && match c.pc
       case Arrived => true
       case Waiting => true
       case Replied(Refused) => true
       case Replied(Existing(j, _)) => j in rows && Matches(rows[j], c.req.user, c.req.key)
           && HashAgrees(rows[j], c.req.hash)
       case Replied(Conflict) => exists j | j in rows ::
           Matches(rows[j], c.req.user, c.req.key) && !HashAgrees(rows[j], c.req.hash)
       case _ => false
  }

  ghost predicate HandlerOk(s: State, h: nat)
    requires h in s.handlers
  {
    var c := s.handlers[h];
    && (c.jid.None? ==> NoJobOk(s.rows, c))
    && (c.jid.Some? ==> LocalOk(h, c, s.See(c.jid.value)))
    && (c.jid.Some? && c.Keeps() ==> forall w :: !s.Holds(w, c.jid.value))
    && (c.pc == Replied(Crashed) ==> s.faults > 0)
  }

  ghost predicate WorkerOk(s: State, w: nat)
    requires w in s.held
  {
    var c := s.held[w];
    && WorkOk(c.phase, s.See(c.jid))
    && forall other | s.Holds(other, c.jid) :: other == w
  }

  /** A job that a cancellation read as queued has not been started by its creator since. */
  predicate PendingOk(s: State) {
    s.cancelling.Some? ==>
      && s.cancelling.value in s.rows
      && forall h | h in s.handlers && s.handlers[h].jid == s.cancelling :: !Inlining(s.handlers[h].pc)
  }

  ghost predicate Inv(s: State) {
    && UniqueKeys(s.rows)
    && PendingOk(s)
    && (forall j :: ViewOk(s.See(j)))
    && (forall h | h in s.handlers :: HandlerOk(s, h))
    && (forall w | w in s.held :: WorkerOk(s, w))
  }

  /** Older rows may exist, each at most once in a queue or in the schedule. */
  ghost predicate Initial(s: State) {
    && UniqueKeys(s.rows)
    && (forall j | j in s.rows :: s.rows[j].creator.None?)
    && (forall j :: ViewOk(s.See(j)))
    && s.handlers == map[] && s.held == map[] && s.completed == multiset{}
    && s.cancelling.None? && s.faults == 0 && s.losses == 0
  }

  // ---------- what a step leaves alone ----------

  /** Rows are never removed, and only their status changes. */
  ghost predicate RowsGrow(before: map<JobId, Row>, after: map<JobId, Row>) {
    forall j | j in before :: j in after && after[j].(status := before[j].status) == before[j]
  }

  /** Nothing about job `j` changed, and the same workers hold it. */
  ghost predicate Untouched(s: State, t: State, j: JobId) {
    s.See(j) == t.See(j) && forall w :: s.Holds(w, j) <==> t.Holds(w, j)
  }

  lemma NoJobFrame(before: map<JobId, Row>, after: map<JobId, Row>, c: Handler)
    requires NoJobOk(before, c) && RowsGrow(before, after)
    ensures NoJobOk(after, c)
  {
    if c.pc == Replied(Conflict) {
      var j :| j in before && Matches(before[j], c.req.user, c.req.key) && !HashAgrees(before[j], c.req.hash);
      assert Matches(after[j], c.req.user, c.req.key) && !HashAgrees(after[j], c.req.hash);
    }
  }

  /** A request that has finished with its job only needs the row to stay its own. */
  lemma LocalFrame(h: nat, c: Handler, v: View, w: View)
    requires LocalOk(h, c, v) && !c.Keeps()
    requires SameButStatus(v, w)
    ensures LocalOk(h, c, w)
  {
  }

  lemma HandlerFrame(s: State, t: State, h: nat)
    requires h in s.handlers && h in t.handlers && s.handlers[h] == t.handlers[h]
    requires HandlerOk(s, h) && RowsGrow(s.rows, t.rows) && s.faults <= t.faults
    requires s.handlers[h].jid.Some? && s.handlers[h].Keeps() ==> Untouched(s, t, s.handlers[h].jid.value)
    ensures HandlerOk(t, h)
  {
    var c := s.handlers[h];
    if c.jid.None? {
      NoJobFrame(s.rows, t.rows, c);
    } else if !c.Keeps() {
      LocalFrame(h, c, s.See(c.jid.value), t.See(c.jid.value));
    }
  }

  lemma WorkerFrame(s: State, t: State, w: nat)
    requires w in s.held && w in t.held && s.held[w] == t.held[w]
    requires WorkerOk(s, w) && Untouched(s, t, s.held[w].jid)
    ensures WorkerOk(t, w)
  {
  }

  /** The step from `s` to `t` concerned job `j` alone. */
  ghost predicate OnlyJob(s: State, t: State, j: JobId) {
    && RowsGrow(s.rows, t.rows) && s.faults <= t.faults
    && forall i | i != j :: Untouched(s, t, i)
  }

  /** A request the step did not move, and whose job it did not touch or no longer needs. */
  predicate Bystander(s: State, t: State, j: JobId, h: nat) {
    h in s.handlers && h in t.handlers && s.handlers[h] == t.handlers[h]
    && (s.handlers[h].jid == Some(j) ==> !s.handlers[h].Keeps())
  }

  predicate IdleWorker(s: State, t: State, j: JobId, w: nat) {
    w in s.held && w in t.held && s.held[w] == t.held[w] && s.held[w].jid != j
  }

  /** What is left to show of a step: the job's view, and whoever moved or had the job. */
  lemma InvAfterStep(s: State, t: State, j: JobId)
    requires Inv(s) && OnlyJob(s, t, j)
    requires UniqueKeys(t.rows) && ViewOk(t.See(j)) && PendingOk(t)
    requires forall h | h in t.handlers :: Bystander(s, t, j, h) || HandlerOk(t, h)
    requires forall w | w in t.held :: IdleWorker(s, t, j, w) || WorkerOk(t, w)
    ensures Inv(t)
  {
    forall h | h in t.handlers
      ensures HandlerOk(t, h)
    {
      if Bystander(s, t, j, h) {
        assert HandlerOk(s, h);
        HandlerFrame(s, t, h);
      }
    }
    forall w | w in t.held
      ensures WorkerOk(t, w)
    {
      if IdleWorker(s, t, j, w) {
        assert WorkerOk(s, w);
        WorkerFrame(s, t, w);
      }
    }
    forall i
      ensures ViewOk(t.See(i))
    {
      assert ViewOk(s.See(i));
      assert i != j ==> Untouched(s, t, i);
    }
  }

  lemma GrowthKeepsUniqueKeys(before: map<JobId, Row>, after: map<JobId, Row>)
    requires UniqueKeys(before) && RowsGrow(before, after) && after.Keys == before.Keys
    ensures UniqueKeys(after)
  {
    forall i, j | i in after && j in after && Matches(after[i], after[j].user, after[j].key)
      ensures i == j
    {
      assert Matches(before[i], before[j].user, before[j].key);
    }
  }

  // ---------- each kind of step keeps the invariant ----------

  /** Steps that move a request and write nothing. */
  lemma MoveKeepsInv(s: State, t: State, h: nat)
    requires Inv(s) && t == s.(handlers := t.handlers) && h in t.handlers && HandlerOk(t, h)
    requires s.cancelling.None?
    requires forall k | k in t.handlers && k != h :: k in s.handlers && t.handlers[k] == s.handlers[k]
    ensures Inv(t)
  {
    forall k | k in t.handlers
      ensures HandlerOk(t, k)
    {
      if k != h {
        HandlerFrame(s, t, k);
      }
    }
    forall w | w in t.held
      ensures WorkerOk(t, w)
    {
      WorkerFrame(s, t, w);
    }
    assert forall j :: t.See(j) == s.See(j);
  }

  lemma AnswerKeepsInv(s: State, h: nat)
    requires Inv(s) && h in s.handlers && (s.handlers[h].pc.Arrived? || s.handlers[h].pc.Waiting?)
    requires s.cancelling.None?
    requires KeyTaken(s.rows, s.handlers[h].req.user, s.handlers[h].req.key)
    ensures Inv(AnswerFromTable(s, h))
  {
    assert HandlerOk(s, h);
    MoveKeepsInv(s, AnswerFromTable(s, h), h);
  }

  lemma WaitKeepsInv(s: State, e: Event)
    requires Inv(s) && Enabled(s, e) && (e.Arrive? || e.Refuse? || e.Look?)
    requires e.Look? ==> !KeyTaken(s.rows, s.handlers[e.h].req.user, s.handlers[e.h].req.key)
    ensures Inv(Apply(s, e))
  {
    if !e.Arrive? {
      assert HandlerOk(s, e.h);
    }
    MoveKeepsInv(s, Apply(s, e), e.h);
  }

  lemma InsertKeepsUniqueKeys(rows: map<JobId, Row>, j: JobId, row: Row, after: map<JobId, Row>)
    requires UniqueKeys(rows) && j !in rows && !KeyTaken(rows, row.user, row.key)
    requires after == rows[j := row]
    ensures UniqueKeys(after)
  {
    forall i, k | i in after && k in after && Matches(after[i], after[k].user, after[k].key)
      ensures i == k
    {
      if i == j && k != j {
        assert Matches(rows[k], row.user, row.key);
      }
    }
  }

  /** Before the INSERT nothing in the system knows the new id. */
  lemma FreshIdIsUnknown(s: State, j: JobId)
    requires Inv(s) && j !in s.rows
    ensures s.See(j) == View(None, 0, 0, 0)
    ensures forall w | w in s.held :: s.held[w].jid != j
    ensures forall h | h in s.handlers :: s.handlers[h].jid != Some(j)
  {
    assert ViewOk(s.See(j));
    forall w | w in s.held ensures s.held[w].jid != j { assert WorkerOk(s, w); }
    forall h | h in s.handlers ensures s.handlers[h].jid != Some(j) { assert HandlerOk(s, h); }
  }

  lemma WriteTouchesOneJob(s: State, t: State, j: JobId, v: View)
    requires t == s.Write(j, v).(handlers := t.handlers, held := t.held, usage := t.usage,
                                    cancelling := t.cancelling, faults := t.faults, losses := t.losses)
    requires s.faults <= t.faults && v.row.Some?
    requires j in s.rows ==> SameButStatus(s.See(j), v)
    requires forall w, i | i != j :: s.Holds(w, i) <==> t.Holds(w, i)
    ensures OnlyJob(s, t, j) && t.See(j) == v
    ensures t.rows == s.rows[j := v.row.value]
  {
  }

  lemma InsertedRequestIsOk(s: State, h: nat, j: JobId, plan: Plan)
    requires Inv(s) && Enabled(s, Insert(h, j, plan))
    requires !KeyTaken(s.rows, s.handlers[h].req.user, s.handlers[h].req.key)
    ensures HandlerOk(Apply(s, Insert(h, j, plan)), h)
  {
    assert HandlerOk(s, h);
    FreshIdIsUnknown(s, j);
    var t := Apply(s, Insert(h, j, plan));
    assert t.See(j) == View(Some(t.rows[j]), 0, 0, 0);
    assert forall w :: t.Holds(w, j) == s.Holds(w, j);
  }

  lemma InsertKeepsInv(s: State, h: nat, j: JobId, plan: Plan)
    requires Inv(s) && Enabled(s, Insert(h, j, plan))
    requires !KeyTaken(s.rows, s.handlers[h].req.user, s.handlers[h].req.key)
    ensures Inv(Apply(s, Insert(h, j, plan)))
  {
    var t := Apply(s, Insert(h, j, plan));
    FreshIdIsUnknown(s, j);
    InsertKeepsUniqueKeys(s.rows, j, t.rows[j], t.rows);
    WriteTouchesOneJob(s, t, j, View(Some(t.rows[j]), 0, 0, 0));
    InsertedRequestIsOk(s, h, j, plan);
    InvAfterStep(s, t, j);
  }

  /** A row has one creator, so two requests never share a job. */
  lemma JobsHaveOneCreator(s: State, h: nat, k: nat)
    requires Inv(s) && h in s.handlers && k in s.handlers
    requires s.handlers[h].jid.Some? && s.handlers[h].jid == s.handlers[k].jid
    ensures h == k
  {
    assert HandlerOk(s, h) && HandlerOk(s, k);
  }

  lemma CancelledRequestIsOk(s: State, t: State, j: JobId, h: nat)
    requires Inv(s) && s.cancelling == Some(j) && t == s.Write(j, s.See(j).Mark(Cancelled)).(cancelling := None)
    requires h in s.handlers && s.handlers[h].jid == Some(j)
    ensures HandlerOk(t, h)
  {
    assert HandlerOk(s, h);
    assert t.See(j) == s.See(j).Mark(Cancelled);
    assert forall w :: t.Holds(w, j) == s.Holds(w, j);
  }

  lemma CancelledWorkerIsOk(s: State, t: State, j: JobId, w: nat)
    requires Inv(s) && s.cancelling == Some(j) && t == s.Write(j, s.See(j).Mark(Cancelled)).(cancelling := None)
    requires w in s.held && s.held[w].jid == j
    ensures WorkerOk(t, w)
  {
    assert WorkerOk(s, w);
    assert t.See(j) == s.See(j).Mark(Cancelled);
    assert forall other :: t.Holds(other, j) == s.Holds(other, j);
  }

  lemma CancelKeepsInv(s: State, t: State, j: JobId)
    requires Inv(s) && s.cancelling == Some(j) && t == s.Write(j, s.See(j).Mark(Cancelled)).(cancelling := None)
    ensures Inv(t)
  {
    WriteTouchesOneJob(s, t, j, s.See(j).Mark(Cancelled));
    GrowthKeepsUniqueKeys(s.rows, t.rows);
    assert ViewOk(s.See(j));
    forall h | h in t.handlers
      ensures Bystander(s, t, j, h) || HandlerOk(t, h)
    {
      if s.handlers[h].jid == Some(j) {
        CancelledRequestIsOk(s, t, j, h);
      }
    }
    forall w | w in t.held
      ensures IdleWorker(s, t, j, w) || WorkerOk(t, w)
    {
      if s.held[w].jid == j {
        CancelledWorkerIsOk(s, t, j, w);
      }
    }
    InvAfterStep(s, t, j);
  }

  lemma PendingKeepsInv(s: State, t: State)
    requires Inv(s) && t == s.(cancelling := t.cancelling) && PendingOk(t)
    ensures Inv(t)
  {
    assert forall j :: t.See(j) == s.See(j);
    forall h | h in t.handlers
      ensures HandlerOk(t, h)
    {
      HandlerFrame(s, t, h);
    }
    forall w | w in t.held
      ensures WorkerOk(t, w)
    {
      WorkerFrame(s, t, w);
    }
  }

  /** A queued job is not being executed inline. */
  lemma ReadKeepsInv(s: State, user: string, admin: bool, j: JobId)
    requires Inv(s) && Enabled(s, ReadForCancel(user, admin, j))
    ensures Inv(Apply(s, ReadForCancel(user, admin, j)))
  {
    if MayCancel(s.See(j), user, admin) {
      forall h | h in s.handlers && s.handlers[h].jid == Some(j)
        ensures !Inlining(s.handlers[h].pc)
      {
        assert HandlerOk(s, h);
      }
      PendingKeepsInv(s, s.(cancelling := Some(j)));
    }
  }

  /** A request that already let go of its job changes nothing about it. */
  lemma LateStepsWriteNothing(c: Handler, v: View, step: LocalStep)
    requires CanStep(c, step) && !c.Keeps()
    ensures NextView(c, v, step) == v
  {
  }

  lemma SteppedRequestIsOk(s: State, t: State, h: nat, step: LocalStep)
    requires Inv(s) && Enabled(s, Step(h, step)) && t == ApplyStep(s, h, step)
    ensures HandlerOk(t, h)
    ensures OnlyJob(s, t, s.handlers[h].jid.value) && t.rows.Keys == s.rows.Keys
    ensures ViewOk(t.See(s.handlers[h].jid.value))
  {
    var c := s.handlers[h];
    var j := c.jid.value;
    assert HandlerOk(s, h);
    assert ViewOk(s.See(j));
    LocalStepKeepsOk(h, c, s.See(j), step);
    WriteTouchesOneJob(s, t, j, NextView(c, s.See(j), step));
    assert forall w :: t.Holds(w, j) == s.Holds(w, j);
  }

  lemma SteppedWorkerIsOk(s: State, t: State, h: nat, step: LocalStep, w: nat)
    requires Inv(s) && Enabled(s, Step(h, step)) && t == ApplyStep(s, h, step)
    requires w in s.held && s.held[w].jid == s.handlers[h].jid.value
    ensures WorkerOk(t, w)
  {
    var c := s.handlers[h];
    var j := c.jid.value;
    assert HandlerOk(s, h) && WorkerOk(s, w) && s.Holds(w, j);
    LateStepsWriteNothing(c, s.See(j), step);
    assert t.See(j) == s.See(j);
    assert forall other :: t.Holds(other, j) == s.Holds(other, j);
  }

  lemma StepKeepsInv(s: State, t: State, h: nat, step: LocalStep)
    requires Inv(s) && Enabled(s, Step(h, step)) && t == ApplyStep(s, h, step)
    ensures Inv(t)
  {
    var j := s.handlers[h].jid.value;
    SteppedRequestIsOk(s, t, h, step);
    GrowthKeepsUniqueKeys(s.rows, t.rows);
    forall k | k in t.handlers
      ensures Bystander(s, t, j, k) || HandlerOk(t, k)
    {
      if k != h && s.handlers[k].jid == Some(j) {
        JobsHaveOneCreator(s, h, k);
      }
    }
    forall w | w in t.held
      ensures IdleWorker(s, t, j, w) || WorkerOk(t, w)
    {
      if s.held[w].jid == j {
        SteppedWorkerIsOk(s, t, h, step, w);
      }
    }
    InvAfterStep(s, t, j);
  }

  /** Whatever sits in a queue, in the schedule or with a worker has left its creator. */
  lemma CreatorLetGo(s: State, t: State, j: JobId, h: nat)
    requires Inv(s) && (!s.See(j).Parked() || exists w :: s.Holds(w, j))
    requires h in s.handlers && t.handlers == s.handlers
    ensures Bystander(s, t, j, h)
  {
    assert HandlerOk(s, h);
  }

  lemma QueuedJobHasNoWorker(s: State, j: JobId)
    requires Inv(s) && !s.See(j).Parked()
    ensures forall w | w in s.held :: s.held[w].jid != j
  {
    forall w | w in s.held
      ensures s.held[w].jid != j
    {
      assert WorkerOk(s, w);
    }
  }

  /** A pop touches the popped job alone and gives it to `w`. */
  lemma TakeTouchesOneJob(s: State, t: State, j: JobId, w: nat)
    requires Inv(s) && w !in s.held && !s.See(j).Parked()
    requires t == s.Write(j, s.See(j).(queued := 0, scheduled := 0)).(held := s.held[w := Custody(j, Holding)])
    ensures OnlyJob(s, t, j) && t.rows == s.rows && t.See(j) == s.See(j).(queued := 0, scheduled := 0)
  {
    assert ViewOk(s.See(j));
    assert forall v, i | i != j :: s.Holds(v, i) <==> t.Holds(v, i);
    WriteTouchesOneJob(s, t, j, s.See(j).(queued := 0, scheduled := 0));
  }

  lemma TakerIsOk(s: State, t: State, j: JobId, w: nat)
    requires Inv(s) && w !in s.held && !s.See(j).Parked() && t.held == s.held[w := Custody(j, Holding)]
    requires t.See(j) == s.See(j).(queued := 0, scheduled := 0)
    ensures WorkerOk(t, w) && forall v | v in s.held :: s.held[v].jid != j
  {
    assert ViewOk(s.See(j));
    QueuedJobHasNoWorker(s, j);
  }

  lemma TakeKeepsInv(s: State, t: State, j: JobId, w: nat)
    requires Inv(s) && w !in s.held && !s.See(j).Parked()
    requires t == s.Write(j, s.See(j).(queued := 0, scheduled := 0)).(held := s.held[w := Custody(j, Holding)])
    ensures Inv(t)
  {
    assert ViewOk(s.See(j));
    TakeTouchesOneJob(s, t, j, w);
    TakerIsOk(s, t, j, w);
    forall h | h in t.handlers { CreatorLetGo(s, t, j, h); }
    InvAfterStep(s, t, j);
  }

  /** When `w` keeps or lets go of job `j`, nobody else's custody changes. */
  lemma WorkMovesOneHolder(s: State, t: State, w: nat, work: WorkStep)
    requires Inv(s) && w in s.held && t.held == ApplyWork(s, w, work).held
    ensures forall v, i | i != s.held[w].jid :: s.Holds(v, i) <==> t.Holds(v, i)
    ensures forall v | t.Holds(v, s.held[w].jid) :: v == w
    ensures forall v | v in t.held && v != w :: IdleWorker(s, t, s.held[w].jid, v)
  {
    assert WorkerOk(s, w);
    forall v | v in t.held && v != w
      ensures s.held[v].jid != s.held[w].jid
    {
      assert s.Holds(v, s.held[v].jid);
    }
  }

  lemma WorkedJobIsOk(s: State, t: State, w: nat, work: WorkStep)
    requires Inv(s) && Enabled(s, Work(w, work)) && t == ApplyWork(s, w, work)
    ensures OnlyJob(s, t, s.held[w].jid) && t.rows.Keys == s.rows.Keys
    ensures ViewOk(t.See(s.held[w].jid))
    ensures w in t.held ==> WorkerOk(t, w)
  {
    var c := s.held[w];
    assert WorkerOk(s, w);
    assert ViewOk(s.See(c.jid));
    WorkStepKeepsOk(c.phase, s.See(c.jid), work);
    WorkMovesOneHolder(s, t, w, work);
    WriteTouchesOneJob(s, t, c.jid, WorkView(c.phase, s.See(c.jid), work));
  }

  lemma WorkKeepsInv(s: State, t: State, w: nat, work: WorkStep)
    requires Inv(s) && Enabled(s, Work(w, work)) && t == ApplyWork(s, w, work)
    ensures Inv(t)
  {
    WorkedJobIsOk(s, t, w, work);
    WorkMovesOneHolder(s, t, w, work);
    GrowthKeepsUniqueKeys(s.rows, t.rows);
    assert s.Holds(w, s.held[w].jid);
    forall h | h in t.handlers { CreatorLetGo(s, t, s.held[w].jid, h); }
    InvAfterStep(s, t, s.held[w].jid);
  }

  lemma EventKeepsInv(s: State, e: Event)
    requires Inv(s) && Enabled(s, e)
    ensures Inv(Apply(s, e))
  {
    match e
    case Arrive(_, _) => WaitKeepsInv(s, e);
    case Look(h) =>
      if KeyTaken(s.rows, s.handlers[h].req.user, s.handlers[h].req.key) {
        AnswerKeepsInv(s, h);
      } else {
        WaitKeepsInv(s, e);
      }
    case Refuse(h) => WaitKeepsInv(s, e);
    case Insert(h, j, plan) =>
      if KeyTaken(s.rows, s.handlers[h].req.user, s.handlers[h].req.key) {
        AnswerKeepsInv(s, h);
      } else {
        InsertKeepsInv(s, h, j, plan);
      }
    case Step(h, step) => StepKeepsInv(s, Apply(s, e), h, step);
    case ReadForCancel(user, admin, j) => ReadKeepsInv(s, user, admin, j);
    case WriteCancelled => CancelKeepsInv(s, Apply(s, e), s.cancelling.value);
    case GiveUpCancel => PendingKeepsInv(s, Apply(s, e));
    case Take(w, j) =>
      assert ViewOk(s.See(j));
      TakeKeepsInv(s, Apply(s, e), j, w);
    case TakeDue(w, j) =>
      assert ViewOk(s.See(j));
      TakeKeepsInv(s, Apply(s, e), j, w);
    case Work(w, work) => WorkKeepsInv(s, Apply(s, e), w, work);
  }

  /** Before its INSERT a request can only be answered, wait, or get a job nobody has heard of. */
  ghost predicate EarlyMove(s: State, c: Handler, d: Handler) {
    && (c.pc.Arrived? || c.pc.Waiting?)
    && d.req == c.req && d.bumped == c.bumped
    && (d.jid.None? || (d.jid.Some? && d.jid.value !in s.rows && d.pc.Bumping?))
  }

  predicate BeforeInsert(e: Event) {
    e.Arrive? || e.Look? || e.Refuse? || e.Insert?
  }

  lemma OtherRequestsDoNotMove(s: State, e: Event, h: nat)
    requires Enabled(s, e) && h in s.handlers && !(e.Step? && e.h == h) && !(BeforeInsert(e) && e.h == h)
    ensures h in Apply(s, e).handlers && Apply(s, e).handlers[h] == s.handlers[h]
  {
  }

  lemma EarlyRequestMoves(s: State, e: Event, h: nat)
    requires Inv(s) && Enabled(s, e) && h in s.handlers && BeforeInsert(e) && e.h == h
    ensures h in Apply(s, e).handlers && EarlyMove(s, s.handlers[h], Apply(s, e).handlers[h])
  {
    assert HandlerOk(s, h);
  }

  /** Events other than its own steps change a request before its INSERT only. */
  lemma RequestFrame(s: State, e: Event, h: nat)
    requires Inv(s) && Enabled(s, e) && h in s.handlers && !(e.Step? && e.h == h)
    ensures h in Apply(s, e).handlers
    ensures Apply(s, e).handlers[h] == s.handlers[h] || EarlyMove(s, s.handlers[h], Apply(s, e).handlers[h])
  {
    if BeforeInsert(e) && e.h == h {
      EarlyRequestMoves(s, e, h);
    } else {
      OtherRequestsDoNotMove(s, e, h);
    }
  }

  lemma ArrivalIsNew(s: State, e: Event, h: nat)
    requires Inv(s) && Enabled(s, e) && h !in s.handlers && h in Apply(s, e).handlers
    ensures Apply(s, e).handlers[h].pc.Arrived? && !Apply(s, e).handlers[h].bumped && Apply(s, e).handlers[h].jid.None?
  {
  }

  // ---------- runs ----------

  /** An interleaving: the events so far, newest outermost. */
  datatype Run = Start | Then(before: Run, event: Event)

  ghost predicate Possible(s: State, run: Run)
    decreases run, 0
  {
    run.Start? || (Possible(s, run.before) && Enabled(After(s, run.before), run.event))
  }

  ghost function After(s: State, run: Run): State
    requires Possible(s, run)
    decreases run, 1
  {
    if run.Start? then s else Apply(After(s, run.before), run.event)
  }

  /** The states the theorems are about: whatever a run from an initial state can reach. */
  ghost predicate Reachable(s: State) {
    exists s0, run :: Initial(s0) && Possible(s0, run) && After(s0, run) == s
  }

  lemma {:induction false} RunKeepsInv(s: State, run: Run)
    requires Inv(s) && Possible(s, run)
    ensures Inv(After(s, run))
  {
    if run.Then? {
      RunKeepsInv(s, run.before);
      EventKeepsInv(After(s, run.before), run.event);
    }
  }

  lemma ReachableStatesAreOk(s: State)
    requires Reachable(s)
    ensures Inv(s)
  {
    var s0, run :| Initial(s0) && Possible(s0, run) && After(s0, run) == s;
    RunKeepsInv(s0, run);
  }

  lemma ReachableRequestIsOk(s: State, h: nat)
    requires Reachable(s) && h in s.handlers
    ensures HandlerOk(s, h)
  {
    ReachableStatesAreOk(s);
  }

  lemma ReachableKeysAreUnique(s: State, i: JobId, j: JobId)
    requires Reachable(s) && i in s.rows && j in s.rows
    requires s.rows[i].key.Some? && s.rows[i].user == s.rows[j].user && s.rows[i].key == s.rows[j].key
    ensures i == j
  {
    ReachableStatesAreOk(s);
  }
}
