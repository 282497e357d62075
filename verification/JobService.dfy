/** The job endpoints as they are written: sequential code over the stores of the API process. */
module JobService {
  import opened Options
  import opened JobMachine
  import opened JobInvariant

  datatype CancelReply = CancelOk | NotFound | Forbidden | CannotCancel

  /** The status that the inline execution leaves. */
  function AfterInline(outcome: Outcome): Status {
    match outcome
    case Success => Done
    case Timeout => Queued
    case Error => Failed
  }

  /** The status a new job's reply reports when no awaited call but the execution fails. */
  function Reported(plan: Plan, outcome: Outcome): Status {
    if plan.Inline() then AfterInline(outcome) else Queued
  }

  /** The counter of a user before it is known is zero. */
  function UsedBy(usage: map<string, nat>, user: string): nat {
    if user in usage then usage[user] else 0
  }

  function CountUse(usage: map<string, nat>, user: string): map<string, nat> {
    usage[user := UsedBy(usage, user) + 1]
  }

  function OneMore(jobs: multiset<JobId>, j: JobId): multiset<JobId> {
    jobs[j := jobs[j] + 1]
  }

  /** The reply is made from the row that has the request's key. */
  ghost predicate IsAnswer(rows: map<JobId, Row>, req: Request, reply: Reply) {
    && KeyTaken(rows, req.user, req.key)
    && reply == ReplyFromRow(Find(rows, req.user, req.key), rows[Find(rows, req.user, req.key)], req.hash)
  }

  function NewRow(h: nat, req: Request, plan: Plan, status: Status): Row {
    Row(req.user, req.key, req.hash, plan.delayed, status, Some(h))
  }

  lemma StatusOfNewRow(rows: map<JobId, Row>, j: JobId, row: Row, status: Status)
    ensures rows[j := row][j := row.(status := status)] == rows[j := row.(status := status)]
  {
  }

  // ---------- what the endpoints promise, in terms of the stores alone ----------

  /** The row was stored for the user and the key of the request. */
  ghost predicate StoredFor(rows: map<JobId, Row>, j: JobId, req: Request) {
    j in rows && req.key.Some? && rows[j].user == req.user && rows[j].key == req.key
  }

  /** 409 for another payload, and else what the row says. */
  ghost predicate AnswersWith(reply: Reply, j: JobId, row: Row, req: Request) {
    if row.hash != "" && row.hash != req.hash then reply == Conflict
    else reply == Existing(j, row.status)
  }

  /** The reply is the one for whichever row is stored for the key, and there is one. */
  ghost predicate AnsweredFrom(rows: map<JobId, Row>, req: Request, reply: Reply) {
    && (exists j :: StoredFor(rows, j, req))
    && forall j | StoredFor(rows, j, req) :: AnswersWith(reply, j, rows[j], req)
  }

  ghost predicate OneUseMore(before: map<string, nat>, after: map<string, nat>, user: string) {
    && user in after && after[user] == (if user in before then before[user] else 0) + 1
    && forall u | u != user :: (u in after <==> u in before) && (u in before ==> after[u] == before[u])
  }

  ghost predicate OneJobMore(before: multiset<JobId>, after: multiset<JobId>, j: JobId) {
    after[j] == before[j] + 1 && forall i | i != j :: after[i] == before[i]
  }

  /** The status of a new job after its request: queued, unless it was executed at once. */
  ghost predicate EndsAs(status: Status, plan: Plan, outcome: Outcome) {
    if plan.fast && !plan.delayed && plan.inlineAllowed then
      && (outcome.Success? ==> status == Done)
      && (outcome.Timeout? ==> status == Queued)
      && (outcome.Error? ==> status == Failed)
    else status == Queued
  }

  /** What a worker's statement does to the row of its job, by the status it finds. */
  ghost predicate WorkerWrote(before: Row, after: Row, phase: Phase, work: WorkStep) {
    && after == before.(status := after.status)
    && match work
       case Claim => before.status == Queued && after.status == Running
       case Begin => before.status == Running && after.status == Running
       case Abandon => before.status != Running && after.status == before.status
       case Trust => before.status == Queued && after.status == Queued
       case StartBlindly => after.status == (if before.status == Queued then Running else before.status)
       case Finish(ok) => after.status == (if ok then Done else Failed)
       case PublishFault => after.status == (if phase.PublishingDone? then Failed else before.status)
       case Drop => (before.status != Queued || before.delayed) && after.status == before.status
       case _ => after.status == before.status
  }

  /** Where the job of a worker is after its statement, and that the other workers keep theirs. */
  ghost predicate Handed(before: map<nat, Custody>, after: map<nat, Custody>, w: nat, work: WorkStep)
    requires w in before
  {
    && (forall u | u != w :: (u in after <==> u in before) && (u in before ==> after[u] == before[u]))
    && match work
       case Claim => w in after && after[w] == Custody(before[w].jid, Claimed)
       case Trust => w in after && after[w] == Custody(before[w].jid, Trusting)
       case Begin => w in after && after[w] == Custody(before[w].jid, Working)
       case StartBlindly => w in after && after[w] == Custody(before[w].jid, Working)
       case Finish(ok) =>
         w in after && after[w] == Custody(before[w].jid, if ok then PublishingDone else PublishingFailed)
       case PublishFault =>
         if before[w].phase == PublishingDone then
           w in after && after[w] == Custody(before[w].jid, PublishingFailed)
         else w !in after
       case _ => w !in after
  }

  lemma WorkerWritesSo(phase: Phase, v: View, work: WorkStep)
    requires CanWork(phase, v, work) && v.row.Some?
    ensures WorkView(phase, v, work).row.Some?
    ensures WorkerWrote(v.row.value, WorkView(phase, v, work).row.value, phase, work)
  {
  }

  lemma NoRowNoWrite(phase: Phase, v: View, work: WorkStep)
    requires v.row.None?
    ensures WorkView(phase, v, work).row.None?
  {
  }

  lemma RowsGrowOn(a: map<JobId, Row>, b: map<JobId, Row>, c: map<JobId, Row>)
    requires RowsGrow(a, b) && RowsGrow(b, c)
    ensures RowsGrow(a, c)
  {
  }

  lemma KeyTakenIffStored(rows: map<JobId, Row>, req: Request)
    ensures KeyTaken(rows, req.user, req.key) <==> exists j :: StoredFor(rows, j, req)
  {
    if KeyTaken(rows, req.user, req.key) {
      assert StoredFor(rows, Find(rows, req.user, req.key), req);
    }
    if j :| StoredFor(rows, j, req) {
      assert Matches(rows[j], req.user, req.key);
    }
  }

  /** With unique keys the row that is found is the only one stored for the key. */
  lemma AnswerIsRight(rows: map<JobId, Row>, req: Request, reply: Reply)
    requires UniqueKeys(rows) && IsAnswer(rows, req, reply)
    ensures AnsweredFrom(rows, req, reply)
  {
    var found := Find(rows, req.user, req.key);
    assert StoredFor(rows, found, req);
    forall j | StoredFor(rows, j, req)
      ensures j == found
    {
      assert Matches(rows[j], rows[found].user, rows[found].key);
    }
  }

  lemma CountUseIsOneMore(usage: map<string, nat>, user: string)
    ensures OneUseMore(usage, CountUse(usage, user), user)
  {
  }

  lemma ReportedIsRight(plan: Plan, outcome: Outcome)
    ensures EndsAs(Reported(plan, outcome), plan, outcome)
  {
  }

  lemma OneMoreIsOneMore(jobs: multiset<JobId>, j: JobId)
    ensures OneJobMore(jobs, OneMore(jobs, j), j)
  {
  }

  // ---------- one request's part of a run ----------

  predicate OfRequest(e: Event, h: nat) {
    (e.Arrive? || e.Look? || e.Refuse? || e.Insert? || e.Step?) && e.h == h
  }

  /** `later` continues `earlier` with events of request `h` alone. */
  ghost predicate ServedBy(earlier: Run, later: Run, h: nat) {
    later == earlier || (later.Then? && OfRequest(later.event, h) && ServedBy(earlier, later.before, h))
  }

  lemma {:induction false} ServedInTurn(r1: Run, r2: Run, r3: Run, h: nat)
    requires ServedBy(r1, r2, h) && ServedBy(r2, r3, h)
    ensures ServedBy(r1, r3, h)
  {
    if r3 != r2 {
      ServedInTurn(r1, r2, r3.before, h);
    }
  }

  /** What a step after the INSERT does to each store. */
  ghost predicate Stepped(s: State, t: State, h: nat, step: LocalStep)
    requires h in s.handlers && CanStep(s.handlers[h], step) && s.handlers[h].jid.value in s.rows
  {
    var c := s.handlers[h];
    var j, v := c.jid.value, s.See(c.jid.value);
    var w := NextView(c, v, step);
    && t.handlers == s.handlers[h := NextHandler(c, v, step)]
    && w.row.Some? && t.rows == s.rows[j := w.row.value] && (w.row == v.row ==> t.rows == s.rows)
    && t.queue == s.queue[j := w.queued] && (w.queued == v.queued ==> t.queue == s.queue)
    && t.schedule == s.schedule[j := w.scheduled] && (w.scheduled == v.scheduled ==> t.schedule == s.schedule)
    && t.usage == (if step.Bump? then CountUse(s.usage, c.req.user) else s.usage)
    && t.held == s.held && t.cancelling == s.cancelling
  }

  lemma NextViewKeepsARow(c: Handler, v: View, step: LocalStep)
    requires CanStep(c, step) && v.row.Some?
    ensures NextView(c, v, step).row.Some?
  {
  }

  lemma WritesAre(s: State, j: JobId, w: View)
    requires j in s.rows && w.row.Some?
    ensures var t := s.Write(j, w);
      && t.rows == s.rows[j := w.row.value] && (w.row == s.See(j).row ==> t.rows == s.rows)
      && t.queue == s.queue[j := w.queued] && (w.queued == s.queue[j] ==> t.queue == s.queue)
      && t.schedule == s.schedule[j := w.scheduled] && (w.scheduled == s.schedule[j] ==> t.schedule == s.schedule)
      && t.usage == s.usage && t.held == s.held && t.cancelling == s.cancelling && t.handlers == s.handlers
  {
  }

  lemma StepWrites(s: State, h: nat, step: LocalStep)
    requires Enabled(s, Step(h, step)) && s.handlers[h].jid.value in s.rows
    ensures Stepped(s, Apply(s, Step(h, step)), h, step)
  {
    var c := s.handlers[h];
    var j, v := c.jid.value, s.See(c.jid.value);
    NextViewKeepsARow(c, v, step);
    WritesAre(s, j, NextView(c, v, step));
  }

  // ---------- the workers ----------

  predicate ByWorker(e: Event) {
    e.Take? || e.TakeDue? || e.Work?
  }

  /** The run after the workers have taken, of the listed steps, each one that they can take. */
  ghost function WorkersRun(origin: State, run: Run, steps: seq<Event>): (later: Run)
    requires Possible(origin, run)
    ensures Possible(origin, later) && After(origin, later).cancelling == After(origin, run).cancelling
  {
    if steps == [] then run
    else
      var before, e := WorkersRun(origin, run, steps[..|steps| - 1]), steps[|steps| - 1];
      if ByWorker(e) && Enabled(After(origin, before), e) then
        WorkersLeaveCancelling(After(origin, before), e);
        Then(before, e)
      else before
  }

  lemma WorkersLeaveCancelling(s: State, e: Event)
    requires Enabled(s, e) && ByWorker(e)
    ensures Apply(s, e).cancelling == s.cancelling
  {
  }

  /** What a worker can see of a job. */
  function Seen(rows: map<JobId, Row>, queue: multiset<JobId>, schedule: multiset<JobId>, j: JobId): View {
    View(if j in rows then Some(rows[j]) else None, queue[j], schedule[j], 0)
  }

  lemma WorkersSeeEnough(s: State, j: JobId, phase: Phase, step: WorkStep)
    ensures CanWork(phase, Seen(s.rows, s.queue, s.schedule, j), step) == CanWork(phase, s.See(j), step)
    ensures WorkView(phase, s.See(j), step) ==
              WorkView(phase, Seen(s.rows, s.queue, s.schedule, j), step)
                .(completed := WorkView(phase, s.See(j), step).completed)
  {
  }

  function HeldAfter(held: map<nat, Custody>, w: nat, work: WorkStep): map<nat, Custody>
    requires w in held
  {
    var next := NextPhase(held[w].phase, work);
    if next.Some? then held[w := Custody(held[w].jid, next.value)] else held - {w}
  }

  lemma HeldIsHanded(held: map<nat, Custody>, w: nat, work: WorkStep)
    requires w in held
    ensures Handed(held, HeldAfter(held, w, work), w, work)
  {
  }

  /** Putting a job back is the only thing a worker does to a queue. */
  lemma QueuesAfterWork(rows: map<JobId, Row>, queue: multiset<JobId>, schedule: multiset<JobId>, j: JobId,
                        phase: Phase, work: WorkStep)
    ensures var view := WorkView(phase, Seen(rows, queue, schedule, j), work);
      && (if work.PutBack? then OneJobMore(queue, queue[j := view.queued], j) else queue[j := view.queued] == queue)
      && schedule[j := view.scheduled] == schedule
  {
  }

  function RowsAfter(rows: map<JobId, Row>, j: JobId, view: View): map<JobId, Row> {
    if view.row.Some? then rows[j := view.row.value] else rows
  }

  /** A worker's statement writes the row of its job alone, and of that the status alone. */
  ghost predicate OnlyWorkedRow(before: map<JobId, Row>, after: map<JobId, Row>, j: JobId, phase: Phase,
                                work: WorkStep) {
    && RowsGrow(before, after)
    && (j in before ==> after == before[j := after[j]] && WorkerWrote(before[j], after[j], phase, work))
    && (j !in before ==> after == before)
  }

  lemma WorkedRowOnly(rows: map<JobId, Row>, j: JobId, phase: Phase, v: View, work: WorkStep)
    requires v.row == (if j in rows then Some(rows[j]) else None) && CanWork(phase, v, work)
    ensures OnlyWorkedRow(rows, RowsAfter(rows, j, WorkView(phase, v, work)), j, phase, work)
  {
    if j in rows {
      WorkerWritesSo(phase, v, work);
    } else {
      NoRowNoWrite(phase, v, work);
    }
  }

  /** The stores a worker writes. */
  datatype Stores = Stores(rows: map<JobId, Row>, queue: multiset<JobId>, schedule: multiset<JobId>,
                           held: map<nat, Custody>)

  function StoresOf(s: State): Stores {
    Stores(s.rows, s.queue, s.schedule, s.held)
  }

  /** Everything that a worker's statement does to the stores. */
  ghost predicate Worked(before: Stores, after: Stores, w: nat, work: WorkStep)
    requires w in before.held
  {
    var c := before.held[w];
    && OnlyWorkedRow(before.rows, after.rows, c.jid, c.phase, work)
    && Handed(before.held, after.held, w, work)
    && (if work.PutBack? then OneJobMore(before.queue, after.queue, c.jid) else after.queue == before.queue)
    && after.schedule == before.schedule
  }

  function WorkOnStores(s: Stores, w: nat, work: WorkStep): Stores
    requires w in s.held
  {
    var c := s.held[w];
    var view := WorkView(c.phase, Seen(s.rows, s.queue, s.schedule, c.jid), work);
    Stores(RowsAfter(s.rows, c.jid, view), s.queue[c.jid := view.queued], s.schedule[c.jid := view.scheduled],
           HeldAfter(s.held, w, work))
  }

  /** A worker computes the new stores from what it sees of the old ones. */
  lemma WorkWrites(s: State, w: nat, work: WorkStep)
    requires Enabled(s, Work(w, work))
    ensures StoresOf(Apply(s, Work(w, work))) == WorkOnStores(StoresOf(s), w, work)
    ensures Apply(s, Work(w, work)).usage == s.usage && Apply(s, Work(w, work)).cancelling == s.cancelling
  {
    WorkersSeeEnough(s, s.held[w].jid, s.held[w].phase, work);
  }

  lemma WorkIsRight(s: Stores, w: nat, work: WorkStep)
    requires w in s.held && CanWork(s.held[w].phase, Seen(s.rows, s.queue, s.schedule, s.held[w].jid), work)
    ensures Worked(s, WorkOnStores(s, w, work), w, work)
  {
    var c := s.held[w];
    WorkedRowOnly(s.rows, c.jid, c.phase, Seen(s.rows, s.queue, s.schedule, c.jid), work);
    HeldIsHanded(s.held, w, work);
    QueuesAfterWork(s.rows, s.queue, s.schedule, c.jid, c.phase, work);
  }

  lemma WorkedGrowsRows(before: Stores, after: Stores, w: nat, work: WorkStep)
    requires w in before.held && Worked(before, after, w, work)
    ensures RowsGrow(before.rows, after.rows)
  {
  }

  /** The stores that the API and the workers share, with the run that filled them. */
  class JobService {
    var rows: map<JobId, Row>
    var queue: multiset<JobId>
    var schedule: multiset<JobId>
    var usage: map<string, nat>
    var held: map<nat, Custody>
    ghost const origin: State
    ghost var run: Run

    ghost predicate Coupled()
      reads this
    {
      && Initial(origin) && Possible(origin, run)
      && Machine().rows == rows && Machine().queue == queue
      && Machine().schedule == schedule && Machine().usage == usage && Machine().held == held
    }

    /** No handler of the API is between the two statements of a cancellation. */
    ghost predicate Valid()
      reads this
    {
      Coupled() && Machine().cancelling.None?
    }

    ghost function Machine(): State
      requires Possible(origin, run)
      reads this
    {
      After(origin, run)
    }

    /** A service over the rows and counters it finds, with its queues empty. */
    constructor (rows: map<JobId, Row>, usage: map<string, nat>)
      requires UniqueKeys(rows) && forall j | j in rows :: rows[j].creator.None?
      ensures Valid() && run == Start && this.rows == rows && this.usage == usage
    {
      this.rows, this.usage, queue, schedule, held := rows, usage, multiset{}, multiset{}, map[];
      origin := State(rows, multiset{}, multiset{}, multiset{}, map[], map[], usage, None, 0, 0);
      run := Start;
    }

    ghost method Record(e: Event)
      requires Possible(origin, run) && Enabled(Machine(), e)
      modifies this`run
      ensures run == Then(old(run), e) && Possible(origin, run)
      ensures Machine() == Apply(old(Machine()), e)
    {
      run := Then(run, e);
    }

    /** A step of a request after its INSERT. */
    ghost method TakeStep(h: nat, step: LocalStep)
      requires Possible(origin, run) && Enabled(Machine(), Step(h, step))
      requires Machine().handlers[h].jid.value in Machine().rows
      modifies this`run
      ensures run == Then(old(run), Step(h, step)) && Possible(origin, run)
      ensures Stepped(old(Machine()), Machine(), h, step)
    {
      StepWrites(Machine(), h, step);
      Record(Step(h, step));
    }

    /** A worker pops a job, if it is there and the worker is free. */
    method TakeJob(w: nat, jid: JobId, due: bool) returns (taken: bool)
      requires Coupled()
      modifies this`queue, this`schedule, this`held, this`run
      ensures Coupled() && Machine().cancelling == old(Machine()).cancelling
      ensures taken <==> w !in old(held) && (if due then old(schedule)[jid] > 0 else old(queue)[jid] > 0)
      ensures run == if taken then Then(old(run), if due then TakeDue(w, jid) else Take(w, jid)) else old(run)
      ensures held == if taken then old(held)[w := Custody(jid, Holding)] else old(held)
      ensures if taken && !due then OneJobMore(queue, old(queue), jid) else queue == old(queue)
      ensures if taken && due then OneJobMore(schedule, old(schedule), jid) else schedule == old(schedule)
    {
      taken := w !in held && (if due then schedule[jid] > 0 else queue[jid] > 0);
      if taken {
        Record(if due then TakeDue(w, jid) else Take(w, jid));
        if due {
          schedule := schedule[jid := schedule[jid] - 1];
        } else {
          queue := queue[jid := queue[jid] - 1];
        }
        held := held[w := Custody(jid, Holding)];
      }
    }

    function Shared(): Stores
      reads this
    {
      Stores(rows, queue, schedule, held)
    }

    /** A worker's next statement. */
    method DoWork(w: nat, work: WorkStep)
      requires Coupled() && w in held && CanWork(held[w].phase, Machine().See(held[w].jid), work)
      modifies this`rows, this`queue, this`schedule, this`held, this`run
      ensures Coupled() && Machine().cancelling == old(Machine()).cancelling && run == Then(old(run), Work(w, work))
      ensures Worked(old(Shared()), Shared(), w, work)
    {
      WorkersSeeEnough(Machine(), held[w].jid, held[w].phase, work);
      WorkIsRight(Shared(), w, work);
      WorkWrites(Machine(), w, work);
      Record(Work(w, work));
      var next := WorkOnStores(Shared(), w, work);
      rows, queue, schedule, held := next.rows, next.queue, next.schedule, next.held;
    }

    /** A worker's next statement, if it can take it. */
    method WorkOn(w: nat, work: WorkStep) returns (taken: bool)
      requires Coupled()
      modifies this`rows, this`queue, this`schedule, this`held, this`run
      ensures Coupled() && Machine().cancelling == old(Machine()).cancelling
      ensures taken <==>
                w in old(held) && CanWork(old(held)[w].phase, old(Machine()).See(old(held)[w].jid), work)
      ensures run == if taken then Then(old(run), Work(w, work)) else old(run)
      ensures if taken then Worked(old(Shared()), Shared(), w, work) else Shared() == old(Shared())
      ensures RowsGrow(old(rows), rows)
    {
      if w !in held {
        return false;
      }
      WorkersSeeEnough(Machine(), held[w].jid, held[w].phase, work);
      taken := CanWork(held[w].phase, Seen(rows, queue, schedule, held[w].jid), work);
      if taken {
        DoWork(w, work);
        WorkedGrowsRows(old(Shared()), Shared(), w, work);
      }
    }

    /** A step of a worker, if it can be taken; any other event is ignored. */
    method LetWorkerStep(e: Event)
      requires Coupled()
      modifies this`rows, this`queue, this`schedule, this`held, this`run
      ensures Coupled() && Machine().cancelling == old(Machine()).cancelling
      ensures run == if ByWorker(e) && Enabled(old(Machine()), e) then Then(old(run), e) else old(run)
      ensures RowsGrow(old(rows), rows)
    {
      match e {
        case Take(w, jid) => var _ := TakeJob(w, jid, false);
        case TakeDue(w, jid) => var _ := TakeJob(w, jid, true);
        case Work(w, work) => var _ := WorkOn(w, work);
        case _ =>
      }
    }

    /** The workers take each of the steps that they can. */
    method LetWorkersRun(steps: seq<Event>)
      requires Coupled()
      modifies this`rows, this`queue, this`schedule, this`held, this`run
      ensures Coupled() && Machine().cancelling == old(Machine()).cancelling
      ensures run == WorkersRun(origin, old(run), steps)
      ensures RowsGrow(old(rows), rows) && (steps == [] ==> rows == old(rows))
    {
      for i := 0 to |steps|
        invariant Coupled() && Machine().cancelling == old(Machine()).cancelling
        invariant run == WorkersRun(origin, old(run), steps[..i])
        invariant RowsGrow(old(rows), rows) && (i == 0 ==> rows == old(rows))
      {
        assert steps[..i + 1][..i] == steps[..i];
        ghost var before := rows;
        LetWorkerStep(steps[i]);
        RowsGrowOn(old(rows), before, rows);
      }
      assert steps[..|steps|] == steps;
    }

    /** The SELECT of a cancellation, and the answer it leads to. */
    method SelectForCancel(user: string, admin: bool, jid: JobId) returns (reply: CancelReply)
      requires Valid()
      modifies this`run
      ensures Coupled() && run == Then(old(run), ReadForCancel(user, admin, jid))
      ensures reply == NotFound <==> jid !in rows
      ensures reply == Forbidden <==> jid in rows && rows[jid].user != user && !admin
      ensures reply == CannotCancel <==> jid in rows && (rows[jid].user == user || admin) && rows[jid].status != Queued
      ensures reply == CancelOk <==> jid in rows && (rows[jid].user == user || admin) && rows[jid].status == Queued
      ensures Machine().cancelling == if reply.CancelOk? then Some(jid) else None
    {
      Record(ReadForCancel(user, admin, jid));
      if jid !in rows {
        return NotFound;
      }
      if rows[jid].user != user && !admin {
        return Forbidden;
      }
      if rows[jid].status != Queued {
        return CannotCancel;
      }
      return CancelOk;
    }

    /** The UPDATE of a cancellation, which does not look at the status again. */
    method UpdateCancelled(jid: JobId)
      requires Coupled() && Machine().cancelling == Some(jid)
      modifies this`rows, this`run
      ensures Valid() && run == Then(old(run), WriteCancelled)
      ensures jid in old(rows) && rows == old(rows)[jid := old(rows)[jid].(status := Cancelled)]
    {
      RunKeepsInv(origin, run);
      Record(WriteCancelled);
      rows := rows[jid := rows[jid].(status := Cancelled)];
    }

    /** A cancellation, with whatever workers do between its two statements. */
    method CancelJob(user: string, admin: bool, jid: JobId, meanwhile: seq<Event>) returns (reply: CancelReply)
      requires Valid()
      modifies this`rows, this`queue, this`schedule, this`held, this`run
      ensures Valid()
      ensures reply == NotFound <==> jid !in old(rows)
      ensures reply == Forbidden <==> jid in old(rows) && old(rows)[jid].user != user && !admin
      ensures reply == CannotCancel <==>
                jid in old(rows) && (old(rows)[jid].user == user || admin) && old(rows)[jid].status != Queued
      ensures reply == CancelOk <==>
                jid in old(rows) && (old(rows)[jid].user == user || admin) && old(rows)[jid].status == Queued
      ensures !reply.CancelOk? ==> run == Then(old(run), ReadForCancel(user, admin, jid)) && rows == old(rows)
      ensures reply.CancelOk? ==>
        && Possible(origin, Then(old(run), ReadForCancel(user, admin, jid)))
        && run == Then(WorkersRun(origin, Then(old(run), ReadForCancel(user, admin, jid)), meanwhile), WriteCancelled)
      ensures reply.CancelOk? ==> jid in rows && rows[jid] == old(rows)[jid].(status := Cancelled)
      ensures reply.CancelOk? && meanwhile == [] ==> rows == old(rows)[jid := old(rows)[jid].(status := Cancelled)]
    {
      reply := SelectForCancel(user, admin, jid);
      if reply.CancelOk? {
        LetWorkersRun(meanwhile);
        ghost var meantime := rows;
        UpdateCancelled(jid);
        assert rows[jid] == meantime[jid].(status := Cancelled);
      }
    }

    /** The row stored for the key, if the request has one. */
    method FindRow(user: string, key: Option<string>) returns (found: Option<JobId>)
      requires Valid()
      ensures found.Some? <==> KeyTaken(rows, user, key)
      ensures found.Some? ==> found.value == Find(rows, user, key)
    {
      RunKeepsInv(origin, run);
      if j :| j in rows && Matches(rows[j], user, key) {
        assert KeyTaken(rows, user, key);
        assert Matches(rows[j], rows[Find(rows, user, key)].user, rows[Find(rows, user, key)].key);
        return Some(j);
      }
      return None;
    }

    /** The lookup at the start of a request: the reply when the key is known. */
    method LookUp(h: nat, req: Request) returns (reply: Option<Reply>)
      requires Valid() && h in Machine().handlers
      requires Machine().handlers[h].req == req && Machine().handlers[h].pc.Arrived?
      modifies this`run
      ensures Valid() && run == Then(old(run), Look(h))
      ensures reply.Some? <==> KeyTaken(rows, req.user, req.key)
      ensures if reply.Some? then AnsweredFrom(rows, req, reply.value) else !exists j :: StoredFor(rows, j, req)
      ensures h in Machine().handlers && Machine().handlers[h].req == req
      ensures reply.Some? ==> Machine().handlers[h].pc == Replied(reply.value)
      ensures reply.Some? ==>
          reply.value == ReplyFromRow(Find(rows, req.user, req.key), rows[Find(rows, req.user, req.key)], req.hash)
      ensures reply.None? ==> Machine().handlers[h].pc == Waiting
    {
      var found := FindRow(req.user, req.key);
      Record(Look(h));
      reply := if found.Some? then Some(ReplyFromRow(found.value, rows[found.value], req.hash)) else None;
      RunKeepsInv(origin, run);
      KeyTakenIffStored(rows, req);
      if reply.Some? {
        AnswerIsRight(rows, req, reply.value);
      }
    }

    /** The INSERT: the unique index turns a lost race into the stored row's reply. */
    method InsertRow(h: nat, req: Request, jid: JobId, plan: Plan) returns (reply: Option<Reply>)
      requires Valid() && jid !in rows && h in Machine().handlers
      requires Machine().handlers[h].req == req && Machine().handlers[h].pc.Waiting?
      modifies this`run, this`rows
      ensures Valid() && run == Then(old(run), Insert(h, jid, plan))
      ensures reply.Some? <==> KeyTaken(old(rows), req.user, req.key)
      ensures reply.Some? ==> Machine().handlers[h].pc == Replied(reply.value) && rows == old(rows)
      ensures if reply.Some? then AnsweredFrom(rows, req, reply.value) else !exists j :: StoredFor(old(rows), j, req)
      ensures reply.None? ==> Created(h, req, jid, plan) && Machine().handlers[h].pc.Bumping?
      ensures reply.None? ==> rows == old(rows)[jid := NewRow(h, req, plan, Queued)]
    {
      RunKeepsInv(origin, run);
      assert HandlerOk(Machine(), h);
      var found := FindRow(req.user, req.key);
      Record(Insert(h, jid, plan));
      KeyTakenIffStored(rows, req);
      if found.Some? {
        AnswerIsRight(rows, req, ReplyFromRow(found.value, rows[found.value], req.hash));
        return Some(ReplyFromRow(found.value, rows[found.value], req.hash));
      }
      rows := rows[jid := NewRow(h, req, plan, Queued)];
      return None;
    }

    /** Request `h` has inserted row `jid`. */
    ghost predicate Created(h: nat, req: Request, jid: JobId, plan: Plan)
      requires Valid()
      reads this
    {
      h in Machine().handlers && jid in rows &&
      var c := Machine().handlers[h];
      c.req == req && c.jid == Some(jid) && c.plan == plan
    }

    /** The INSERT of a request whose key is not taken. */
    method InsertNew(h: nat, req: Request, jid: JobId, plan: Plan)
      requires Valid() && jid !in rows && h in Machine().handlers && !KeyTaken(rows, req.user, req.key)
      requires Machine().handlers[h].req == req && Machine().handlers[h].pc.Waiting?
      modifies this`run, this`rows
      ensures Valid() && ServedBy(old(run), run, h)
      ensures Created(h, req, jid, plan) && Machine().handlers[h].pc.Bumping?
      ensures rows == old(rows)[jid := NewRow(h, req, plan, Queued)]
    {
      var lost := InsertRow(h, req, jid, plan);
    }

    method BumpUsage(h: nat, req: Request, jid: JobId, plan: Plan)
      requires Valid() && Created(h, req, jid, plan) && Machine().handlers[h].pc.Bumping?
      modifies this`run, this`usage
      ensures Valid() && run == Then(old(run), Step(h, Bump))
      ensures Created(h, req, jid, plan) && Machine().handlers[h].pc.Bumped?
      ensures usage == CountUse(old(usage), req.user)
    {
      usage := CountUse(usage, req.user);
      TakeStep(h, Bump);
    }

    /** The guarded UPDATE to running, whose row count nobody reads. */
    method StartInline(h: nat, req: Request, jid: JobId, plan: Plan)
      requires Valid() && Created(h, req, jid, plan) && Machine().handlers[h].pc.Bumped? && plan.Inline()
      modifies this`run, this`rows
      ensures Valid() && run == Then(old(run), Step(h, Proceed))
      ensures Created(h, req, jid, plan) && Machine().handlers[h].pc.Announcing?
      ensures rows == if old(rows)[jid].status != Queued then old(rows)
                      else old(rows)[jid := old(rows)[jid].(status := Running)]
    {
      if rows[jid].status == Queued {
        rows := rows[jid := rows[jid].(status := Running)];
      }
      TakeStep(h, Proceed);
    }

    /** The publish of job_running. */
    ghost method AnnounceRunning(h: nat, req: Request, jid: JobId, plan: Plan)
      requires Valid() && Created(h, req, jid, plan) && Machine().handlers[h].pc.Announcing?
      modifies this`run
      ensures Valid() && run == Then(old(run), Step(h, Announce))
      ensures Created(h, req, jid, plan) && Machine().handlers[h].pc.Executing?
    {
      TakeStep(h, Announce);
    }

    /** The publish of job_done or job_failed. */
    ghost method AnnounceResult(h: nat, req: Request, jid: JobId, plan: Plan)
      requires Valid() && Created(h, req, jid, plan)
      requires Machine().handlers[h].pc.AnnouncingDone? || Machine().handlers[h].pc.AnnouncingFailed?
      modifies this`run
      ensures Valid() && run == Then(old(run), Step(h, AnnounceOutcome))
      ensures Created(h, req, jid, plan)
      ensures var status := if old(Machine()).handlers[h].pc.AnnouncingDone? then Done else Failed;
        Machine().handlers[h].pc == Replied(Fresh(jid, status))
    {
      TakeStep(h, AnnounceOutcome);
    }

    /** The awaited execution and the UPDATE that follows it; the reply unless it timed out. */
    method FinishInline(h: nat, req: Request, jid: JobId, plan: Plan, outcome: Outcome) returns (reply: Option<Reply>)
      requires Valid() && Created(h, req, jid, plan) && Machine().handlers[h].pc.Executing?
      modifies this`run, this`rows
      ensures Valid() && run == Then(old(run), Step(h, Execute(outcome)))
      ensures Created(h, req, jid, plan)
      ensures rows == old(rows)[jid := old(rows)[jid].(status := AfterInline(outcome))]
      ensures outcome.Timeout? ==> reply.None? && Machine().handlers[h].pc.Pushing?
      ensures outcome.Success? ==> reply == Some(Fresh(jid, Done)) && Machine().handlers[h].pc.AnnouncingDone?
      ensures outcome.Error? ==> reply == Some(Fresh(jid, Failed)) && Machine().handlers[h].pc.AnnouncingFailed?
    {
      rows := rows[jid := rows[jid].(status := AfterInline(outcome))];
      reply := if outcome.Timeout? then None else Some(Fresh(jid, AfterInline(outcome)));
      TakeStep(h, Execute(outcome));
    }

    /** `schedule` when the policy delays the job, else `enqueue`. */
    method PushJob(h: nat, req: Request, jid: JobId, plan: Plan)
      requires Valid() && Created(h, req, jid, plan) && Machine().handlers[h].pc.Pushing?
      modifies this`run, this`queue, this`schedule
      ensures Valid() && run == Then(old(run), Step(h, Push))
      ensures Created(h, req, jid, plan) && Machine().handlers[h].pc.Pushed?
      ensures queue == if plan.delayed then old(queue) else OneMore(old(queue), jid)
      ensures schedule == if plan.delayed then OneMore(old(schedule), jid) else old(schedule)
    {
      if plan.delayed {
        schedule := OneMore(schedule, jid);
      } else {
        queue := OneMore(queue, jid);
      }
      TakeStep(h, Push);
    }

    /** The publish of job_queued. */
    ghost method AnnounceQueue(h: nat, req: Request, jid: JobId, plan: Plan)
      requires Valid() && Created(h, req, jid, plan) && Machine().handlers[h].pc.Pushed?
      modifies this`run
      ensures Valid() && run == Then(old(run), Step(h, AnnounceQueued))
      ensures Created(h, req, jid, plan) && Machine().handlers[h].pc == Replied(Fresh(jid, Queued))
    {
      TakeStep(h, AnnounceQueued);
    }

    /** The inline branch: the reply, or none after a timeout. */
    method RunInline(h: nat, req: Request, jid: JobId, plan: Plan, outcome: Outcome) returns (early: Option<Reply>)
      requires Valid() && Created(h, req, jid, plan) && Machine().handlers[h].pc.Bumped? && plan.Inline()
      modifies this`run, this`rows
      ensures Valid() && Created(h, req, jid, plan) && ServedBy(old(run), run, h)
      ensures rows == old(rows)[jid := old(rows)[jid].(status := AfterInline(outcome))]
      ensures early == if outcome.Timeout? then None else Some(Fresh(jid, AfterInline(outcome)))
      ensures Machine().handlers[h].pc == if early.Some? then Replied(early.value) else Pushing
    {
      StartInline(h, req, jid, plan);
      ghost var started := run;
      AnnounceRunning(h, req, jid, plan);
      ServedInTurn(old(run), started, run, h);
      ghost var announced := run;
      early := FinishInline(h, req, jid, plan, outcome);
      ServedInTurn(old(run), announced, run, h);
      if early.Some? {
        ghost var finished := run;
        AnnounceResult(h, req, jid, plan);
        ServedInTurn(old(run), finished, run, h);
      }
    }

    /** The last branch: the job goes to the queue or the schedule, and the reply says so. */
    method Enqueue(h: nat, req: Request, jid: JobId, plan: Plan)
      requires Valid() && Created(h, req, jid, plan) && Machine().handlers[h].pc.Pushing?
      modifies this`run, this`queue, this`schedule
      ensures Valid() && Created(h, req, jid, plan) && ServedBy(old(run), run, h)
      ensures queue == if plan.delayed then old(queue) else OneMore(old(queue), jid)
      ensures schedule == if plan.delayed then OneMore(old(schedule), jid) else old(schedule)
      ensures Machine().handlers[h].pc == Replied(Fresh(jid, Queued))
    {
      PushJob(h, req, jid, plan);
      ghost var pushed := run;
      AnnounceQueue(h, req, jid, plan);
      ServedInTurn(old(run), pushed, run, h);
    }

    /** The inline branch is not taken. */
    ghost method SkipInline(h: nat, req: Request, jid: JobId, plan: Plan)
      requires Valid() && Created(h, req, jid, plan) && Machine().handlers[h].pc.Bumped? && !plan.Inline()
      modifies this`run
      ensures Valid() && run == Then(old(run), Step(h, Proceed))
      ensures Created(h, req, jid, plan) && Machine().handlers[h].pc.Pushing?
    {
      TakeStep(h, Proceed);
    }

    /** Where the job is once the request has replied. */
    ghost predicate Placed(queueBefore: multiset<JobId>, scheduleBefore: multiset<JobId>, jid: JobId, plan: Plan,
                           reported: Status)
      reads this
    {
      && queue == (if reported == Queued && !plan.delayed then OneMore(queueBefore, jid) else queueBefore)
      && schedule == (if reported == Queued && plan.delayed then OneMore(scheduleBefore, jid) else scheduleBefore)
    }

    /** After the usage counter: the inline execution, if any, and the queue, unless it replied. */
    method Dispatch(h: nat, req: Request, jid: JobId, plan: Plan, outcome: Outcome) returns (reply: Reply)
      requires Valid() && Created(h, req, jid, plan) && Machine().handlers[h].pc.Bumped?
      modifies this`run, this`rows, this`queue, this`schedule
      ensures Valid() && Created(h, req, jid, plan) && Machine().handlers[h].pc == Replied(reply)
      ensures ServedBy(old(run), run, h) && reply == Fresh(jid, Reported(plan, outcome))
      ensures rows
          == if plan.Inline() then old(rows)[jid := old(rows)[jid].(status := AfterInline(outcome))] else old(rows)
      ensures Placed(old(queue), old(schedule), jid, plan, Reported(plan, outcome))
    {
      if plan.Inline() {
        var early := RunInline(h, req, jid, plan, outcome);
        if early.Some? {
          return early.value;
        }
      } else {
        SkipInline(h, req, jid, plan);
      }
      ghost var tried := run;
      Enqueue(h, req, jid, plan);
      ServedInTurn(old(run), tried, run, h);
      return Fresh(jid, Queued);
    }

    /** From the inserted row to the reply, when every awaited call but the execution succeeds. */
    method CarryOut(h: nat, req: Request, jid: JobId, plan: Plan, outcome: Outcome) returns (reply: Reply)
      requires Valid() && Created(h, req, jid, plan) && Machine().handlers[h].pc.Bumping?
      modifies this`run, this`rows, this`queue, this`schedule, this`usage
      ensures Valid() && Created(h, req, jid, plan) && Machine().handlers[h].pc == Replied(reply)
      ensures ServedBy(old(run), run, h) && reply == Fresh(jid, Reported(plan, outcome))
      ensures rows
          == if plan.Inline() then old(rows)[jid := old(rows)[jid].(status := AfterInline(outcome))] else old(rows)
      ensures usage == CountUse(old(usage), req.user)
      ensures Placed(old(queue), old(schedule), jid, plan, Reported(plan, outcome))
    {
      BumpUsage(h, req, jid, plan);
      ghost var bumped := run;
      reply := Dispatch(h, req, jid, plan, outcome);
      ServedInTurn(old(run), bumped, run, h);
    }

    /** Arrival and lookup of a request. */
    method Receive(h: nat, req: Request) returns (known: Option<Reply>)
      requires Valid() && h !in Machine().handlers
      modifies this`run
      ensures Valid() && ServedBy(old(run), run, h)
      ensures h in Machine().handlers && Machine().handlers[h].req == req
      ensures Machine().handlers[h].pc == if known.Some? then Replied(known.value) else Waiting
      ensures if known.Some? then AnsweredFrom(rows, req, known.value) else !exists j :: StoredFor(rows, j, req)
      ensures known.None? ==> !KeyTaken(rows, req.user, req.key)
    {
      Record(Arrive(h, req));
      ghost var arrived := run;
      known := LookUp(h, req);
      ServedInTurn(old(run), arrived, run, h);
    }

    /** A request whose key is not taken: from the INSERT to the reply. */
    method CreateJob(h: nat, req: Request, jid: JobId, plan: Plan, outcome: Outcome) returns (reply: Reply)
      requires Valid() && jid !in rows && h in Machine().handlers && !KeyTaken(rows, req.user, req.key)
      requires Machine().handlers[h].req == req && Machine().handlers[h].pc.Waiting?
      modifies this`run, this`rows, this`queue, this`schedule, this`usage
      ensures Valid() && ServedBy(old(run), run, h)
      ensures h in Machine().handlers && Machine().handlers[h].req == req && Machine().handlers[h].pc == Replied(reply)
      ensures reply == Fresh(jid, Reported(plan, outcome))
      ensures rows == old(rows)[jid := NewRow(h, req, plan, Reported(plan, outcome))]
      ensures usage == CountUse(old(usage), req.user)
      ensures Placed(old(queue), old(schedule), jid, plan, Reported(plan, outcome))
    {
      InsertNew(h, req, jid, plan);
      ghost var inserted, before := run, old(rows);
      reply := CarryOut(h, req, jid, plan, outcome);
      ServedInTurn(old(run), inserted, run, h);
      StatusOfNewRow(before, jid, NewRow(h, req, plan, Queued), Reported(plan, outcome));
    }

    /** What the run leaves behind is a state that some run reaches. */
    lemma MachineIsReachable()
      requires Valid()
      ensures Reachable(Machine())
    {
    }

    /**
     A request served without interruption or fault, from lookup to reply. It adds events of its own
     to the run, so the theorems above apply to what it leaves behind. A known key is answered from
     its row and changes nothing; a new one adds its row with the reported status, counts one more
     use, and puts the job in the queue or the schedule exactly when it reports "queued".
     */
    method Actions(h: nat, req: Request, jid: JobId, plan: Plan, outcome: Outcome) returns (reply: Reply)
      requires Valid() && h !in Machine().handlers && jid !in rows
      modifies this`run, this`rows, this`queue, this`schedule, this`usage
      ensures Valid() && Reachable(Machine()) && ServedBy(old(run), run, h)
      ensures h in Machine().handlers && Machine().handlers[h].req == req && Machine().handlers[h].pc == Replied(reply)
      ensures (exists j :: StoredFor(old(rows), j, req)) ==>
        && rows == old(rows) && queue == old(queue) && schedule == old(schedule) && usage == old(usage)
        && AnsweredFrom(rows, req, reply)
      ensures (!exists j :: StoredFor(old(rows), j, req)) ==>
        && reply.Fresh? && reply.jid == jid && EndsAs(reply.status, plan, outcome)
        && rows == old(rows)[jid := Row(req.user, req.key, req.hash, plan.delayed, reply.status, Some(h))]
        && OneUseMore(old(usage), usage, req.user)
        && (if reply.status == Queued && !plan.delayed then OneJobMore(old(queue), queue, jid) else queue == old(queue))
        && (if reply.status == Queued && plan.delayed then OneJobMore(old(schedule), schedule, jid)
            else schedule == old(schedule))
    {
      var known := Receive(h, req);
      if known.Some? {
        MachineIsReachable();
        return known.value;
      }
      ghost var received := run;
      reply := CreateJob(h, req, jid, plan, outcome);
      ServedInTurn(old(run), received, run, h);
      MachineIsReachable();
      CountUseIsOneMore(old(usage), req.user);
      ReportedIsRight(plan, outcome);
      OneMoreIsOneMore(old(queue), jid);
      OneMoreIsOneMore(old(schedule), jid);
    }
  }
}
