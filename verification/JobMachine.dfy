/**
 Job creation (app/api/actions_endpoint.py), cancellation (app/api/jobs_routes.py) and the
 queue worker (app/infrastructure/redis/worker.py) as one state machine.

 The API is one process with one event loop, so what one of its handlers does between two awaits
 comes without a step of another. The workers are processes of their own: a step of a worker can
 come between any two statements, and so between the SELECT and the UPDATE of a cancellation. Any
 number of requests, cancellations and workers interleave. The jobs table enforces one row for each
 user and idempotency key, as the unique index of app/infrastructure/db/sqlite.py does.

 Every step rewrites what the stores hold about one job at most, its view. What a step does is
 therefore a function of one request, or one worker, and one view.
 */
module JobMachine {
  import opened Options

  type JobId = nat

  /** A digest is never the empty string; the empty string stands for a row without one. */
  type Hash = text: string | text != "" witness "0"

  datatype Status = Queued | Running | Done | Failed | Cancelled

  /** `creator` is the request that inserted the row; rows older than the run have none. */
  datatype Row = Row(user: string, key: Option<string>, hash: string, delayed: bool, status: Status,
                     creator: Option<nat>)

  /** What the stores hold about one job; `completed` counts the executions recorded as done. */
  datatype View = View(row: Option<Row>, queued: nat, scheduled: nat, completed: nat) {
    function Mark(status: Status): View {
      if row.Some? then this.(row := Some(row.value.(status := status))) else this
    }

    predicate Is(status: Status) {
      row.Some? && row.value.status == status
    }

    predicate Parked() {
      queued == 0 && scheduled == 0
    }

    /** Nobody has started a job created during the run; nothing is known of older rows. */
    predicate Pending() {
      row.Some? && (row.value.creator.Some? ==> Is(Queued) || Is(Cancelled))
    }
  }

  /** A job is in one queue once at most, is recorded as done once at most, and is not queued after that. */
  predicate ViewOk(v: View) {
    && v.queued + v.scheduled <= 1 && v.completed <= 1
    && (v.queued + v.scheduled > 0 ==> v.row.Some? && v.completed == 0 && v.Pending())
    && (v.completed > 0 ==> v.row.Some?)
  }

  /** The two views show the same row, up to its status. */
  predicate SameButStatus(v: View, w: View) {
    v.row.Some? && w.row.Some? && w.row.value.(status := v.row.value.status) == v.row.value
  }

  // ---------- one request ----------

  datatype Request = Request(user: string, key: Option<string>, hash: Hash)

  /** What the policy decided, and whether settings and system mode allow inline execution. */
  datatype Plan = Plan(fast: bool, delayed: bool, inlineAllowed: bool) {
    predicate Inline() {
      fast && !delayed && inlineAllowed
    }
  }

  datatype Reply =
    | Existing(jid: JobId, status: Status)   // the stored row of an earlier request
    | Fresh(jid: JobId, status: Status)      // the row this request created
    | Conflict                               // 409: key used with a different payload
    | Refused                                // 413 or 429, or a failure before the INSERT
    | Crashed                                // an awaited call raised uncaught, or the process stopped

  datatype Pc =
    | Arrived            // before the idempotency lookup
    | Waiting            // rate limits, usage and system mode are awaited
    | Bumping            // row inserted, bump_usage awaited
    | Bumped             // usage counted, not yet resumed
    | Announcing         // inline: UPDATE to running issued, publish awaited
    | Executing          // inline: execute_action awaited
    | AnnouncingDone
    | AnnouncingFailed
    | Pushing            // enqueue or schedule awaited
    | Pushed             // publish of job_queued awaited
    | Replied(reply: Reply)

  /** `matched` records whether the guarded UPDATE to running found the row still queued. */
  datatype Handler = Handler(req: Request, pc: Pc, jid: Option<JobId>, plan: Plan, matched: bool, bumped: bool,
                             pushes: nat) {
    /** The creating request still decides where the job goes next. */
    predicate Keeps() {
      pc.Bumping? || pc.Bumped? || pc.Announcing? || pc.Executing?
      || pc.AnnouncingDone? || pc.AnnouncingFailed? || pc.Pushing?
    }
  }

  /** The inline execution has started and its outcome has not been announced. */
  predicate Inlining(pc: Pc) {
    pc.Announcing? || pc.Executing? || pc.AnnouncingDone? || pc.AnnouncingFailed?
  }

  datatype Outcome = Success | Timeout | Error

  /** Steps after the INSERT, which concern the request and its own job only. */
  datatype LocalStep = Bump | Proceed | Announce | Execute(outcome: Outcome) | AnnounceOutcome | Push
    | AnnounceQueued | Fault | Stop

  predicate CanStep(c: Handler, step: LocalStep) {
    c.jid.Some? &&
    match step
    case Bump => c.pc.Bumping?
    case Proceed => c.pc.Bumped?
    case Announce => c.pc.Announcing?
    case Execute(_) => c.pc.Executing?
    case AnnounceOutcome => c.pc.AnnouncingDone? || c.pc.AnnouncingFailed?
    case Push => c.pc.Pushing?
    case AnnounceQueued => c.pc.Pushed?
    case Fault => (c.Keeps() && !c.pc.Bumped? && !c.pc.Executing?) || c.pc.Pushed?
    case Stop => c.Keeps() || c.pc.Pushed?
  }

  function NextHandler(c: Handler, v: View, step: LocalStep): Handler
    requires CanStep(c, step)
  {
    match step
    case Bump => c.(pc := Bumped, bumped := true)
    case Proceed => if c.plan.Inline() then c.(pc := Announcing, matched := v.Is(Queued)) else c.(pc := Pushing)
    case Announce => c.(pc := Executing)
    case Execute(outcome) =>
      c.(pc := match outcome case Success => AnnouncingDone case Timeout => Pushing case Error => AnnouncingFailed)
    case AnnounceOutcome => c.(pc := Replied(Fresh(c.jid.value, if c.pc.AnnouncingDone? then Done else Failed)))
    case Push => c.(pc := Pushed, pushes := c.pushes + 1)
    case AnnounceQueued => c.(pc := Replied(Fresh(c.jid.value, Queued)))
    case Fault => c.(pc := if c.pc.Announcing? || c.pc.AnnouncingDone? then AnnouncingFailed else Replied(Crashed))
    case Stop => c.(pc := Replied(Crashed))
  }

  /** Only the UPDATE to running is guarded; the later ones write whatever the status has become. */
  function NextView(c: Handler, v: View, step: LocalStep): View
    requires CanStep(c, step)
  {
    match step
    case Proceed => if c.plan.Inline() && v.Is(Queued) then v.Mark(Running) else v
    case Execute(Success) => v.Mark(Done).(completed := v.completed + 1)
    case Execute(Timeout) => v.Mark(Queued)
    case Execute(Error) => v.Mark(Failed)
    case Push => if c.plan.delayed then v.(scheduled := v.scheduled + 1) else v.(queued := v.queued + 1)
    case Fault => if c.pc.Announcing? || c.pc.AnnouncingDone? then v.Mark(Failed) else v
    case _ => v
  }

  /** At each point the request goes on with one kind of step, may raise where a call can, and may stop at an await. */
  lemma RequestCanStepIff(c: Handler, step: LocalStep)
    requires c.jid.Some?
    ensures match c.pc
      case Bumping => CanStep(c, step) <==> step in {Bump, Fault, Stop}
      case Bumped => CanStep(c, step) <==> step in {Proceed, Stop}
      case Announcing => CanStep(c, step) <==> step in {Announce, Fault, Stop}
      case Executing => CanStep(c, step) <==> step.Execute? || step.Stop?
      case AnnouncingDone => CanStep(c, step) <==> step in {AnnounceOutcome, Fault, Stop}
      case AnnouncingFailed => CanStep(c, step) <==> step in {AnnounceOutcome, Fault, Stop}
      case Pushing => CanStep(c, step) <==> step in {Push, Fault, Stop}
      case Pushed => CanStep(c, step) <==> step in {AnnounceQueued, Fault, Stop}
      case _ => !CanStep(c, step)
  {
  }

  /** An error while the inline run is announced, or its success, makes it a failure; any other ends the request. */
  lemma FaultsAndStopsDo(c: Handler, v: View, step: LocalStep)
    requires CanStep(c, step) && (step.Fault? || step.Stop?)
    ensures var d, w := NextHandler(c, v, step), NextView(c, v, step);
      if step.Fault? && (c.pc == Announcing || c.pc == AnnouncingDone)
      then d == c.(pc := AnnouncingFailed) && (v.row.Some? ==> w.Is(Failed) && SameButStatus(v, w))
      else d == c.(pc := Replied(Crashed)) && w == v
  {
  }

  /** The step leaves a job that is neither finished nor in a queue with nobody. */
  predicate LosesJob(c: Handler, step: LocalStep) {
    || (step.Fault? && (c.pc.Bumping? || c.pc.Pushing?))
    || (step.Stop? && c.Keeps() && !c.pc.AnnouncingDone? && !c.pc.AnnouncingFailed?)
  }

  predicate Owns(h: nat, c: Handler, row: Row) {
    row.creator == Some(h) && row.user == c.req.user && row.key == c.req.key && row.hash == c.req.hash
    && row.delayed == c.plan.delayed
  }

  /** What holds between a request that has inserted a row and the view of its job. */
  predicate LocalOk(h: nat, c: Handler, v: View) {
    && v.row.Some? && Owns(h, c, v.row.value)
    && (c.Keeps() ==> v.Parked() && c.pushes == 0 && c.bumped == !c.pc.Bumping?)
    && match c.pc
       case Bumping => (v.Is(Queued) || v.Is(Cancelled)) && v.completed == 0
       case Bumped => (v.Is(Queued) || v.Is(Cancelled)) && v.completed == 0
       case Pushing => (v.Is(Queued) || v.Is(Cancelled)) && v.completed == 0
       case Announcing => v.Is(if c.matched then Running else Cancelled) && v.completed == 0 && c.plan.Inline()
       case Executing => v.Is(if c.matched then Running else Cancelled) && v.completed == 0 && c.plan.Inline()
       case AnnouncingDone => v.Is(Done)
       case AnnouncingFailed => v.Is(Failed)
       case Pushed => c.bumped && c.pushes == 1
       case Replied(Fresh(j, status)) => c.jid == Some(j) && c.bumped && c.pushes == (if status == Queued then 1 else 0)
       case Replied(Crashed) => c.pushes <= 1
       case _ => false
  }

  /** A job that has not ended is lost exactly when its request lets go of it outside the queues. */
  lemma LosesJobIff(h: nat, c: Handler, v: View, step: LocalStep)
    requires LocalOk(h, c, v) && CanStep(c, step) && c.Keeps() && (v.Is(Queued) || v.Is(Running))
    ensures LosesJob(c, step) <==> !NextHandler(c, v, step).Keeps() && NextView(c, v, step).Parked()
  {
  }

  lemma OnlyFaultsAndStopsLose(c: Handler, step: LocalStep)
    requires LosesJob(c, step)
    ensures (step.Fault? || step.Stop?) && c.Keeps()
  {
  }

  lemma LocalStepKeepsOk(h: nat, c: Handler, v: View, step: LocalStep)
    requires LocalOk(h, c, v) && CanStep(c, step) && ViewOk(v)
    ensures ViewOk(NextView(c, v, step)) && SameButStatus(v, NextView(c, v, step))
    ensures LocalOk(h, NextHandler(c, v, step), NextView(c, v, step))
    ensures NextHandler(c, v, step).jid == c.jid
    ensures NextHandler(c, v, step).Keeps() ==> c.Keeps()
  {
  }

  // ---------- one worker ----------

  /**
   `Claimed` is between the guarded UPDATE and the SELECT that checks it. The worker of learning
   paths (app/services/path/worker.py) has no such SELECT: `Trusting` is between its first SELECT and
   its guarded UPDATE, whose row count it ignores.
   */
  datatype Phase = Holding | Claimed | Trusting | Working | PublishingDone | PublishingFailed

  /** Steps of a worker, or of the scheduler, with a job it has popped. */
  datatype WorkStep =
    | PutBack | Drop | Claim | Begin | Abandon | Trust | StartBlindly
    | Finish(ok: bool) | Publish | PublishFault | Die

  predicate CanWork(phase: Phase, v: View, step: WorkStep) {
    match step
    case PutBack => phase.Holding?
    case Drop => phase.Holding? && !(v.Is(Queued) && !v.row.value.delayed)
    case Claim => phase.Holding? && v.Is(Queued)
    case Begin => phase.Claimed? && v.Is(Running)
    case Abandon => phase.Claimed? && !v.Is(Running)
    case Trust => phase.Holding? && v.Is(Queued)
    case StartBlindly => phase.Trusting?
    case Finish(_) => phase.Working?
    case Publish => phase.PublishingDone? || phase.PublishingFailed?
    case PublishFault => phase.PublishingDone? || phase.PublishingFailed?
    case Die => true
  }

  /** The next phase, or none when the worker lets go of the job. */
  function NextPhase(phase: Phase, step: WorkStep): Option<Phase> {
    match step
    case Claim => Some(Claimed)
    case Begin => Some(Working)
    case Trust => Some(Trusting)
    case StartBlindly => Some(Working)
    case Finish(ok) => Some(if ok then PublishingDone else PublishingFailed)
    case PublishFault => if phase.PublishingDone? then Some(PublishingFailed) else None
    case _ => None
  }

  /** Only the UPDATE to running is guarded; the later UPDATEs write whatever the status has become. */
  function WorkView(phase: Phase, v: View, step: WorkStep): View {
    match step
    case PutBack => v.(queued := v.queued + 1)
    case Claim => v.Mark(Running)
    case StartBlindly => if v.Is(Queued) then v.Mark(Running) else v
    case Finish(ok) => if ok then v.Mark(Done).(completed := v.completed + 1) else v.Mark(Failed)
    case PublishFault => if phase.PublishingDone? then v.Mark(Failed) else v
    case _ => v
  }

  /** What a worker can do at each point; where nothing else is left it can put the job back or go on. */
  lemma WorkerCanWorkIff(phase: Phase, v: View, step: WorkStep)
    requires v.row.Some?
    ensures var status := v.row.value.status;
      match phase
      case Holding =>
        CanWork(phase, v, step) <==>
          || step in {PutBack, Die} || (step in {Claim, Trust} && status == Queued)
          || (step == Drop && (status != Queued || v.row.value.delayed))
      case Claimed =>
        CanWork(phase, v, step) <==>
          step == Die || (step == Begin && status == Running) || (step == Abandon && status != Running)
      case Trusting => CanWork(phase, v, step) <==> step in {StartBlindly, Die}
      case Working => CanWork(phase, v, step) <==> step.Finish? || step.Die?
      case PublishingDone => CanWork(phase, v, step) <==> step in {Publish, PublishFault, Die}
      case PublishingFailed => CanWork(phase, v, step) <==> step in {Publish, PublishFault, Die}
  {
  }

  /** After which steps a worker still has the job, and where it is then. */
  lemma NextPhaseIs(phase: Phase, step: WorkStep)
    ensures NextPhase(phase, step) == Some(Claimed) <==> step == Claim
    ensures NextPhase(phase, step) == Some(Trusting) <==> step == Trust
    ensures NextPhase(phase, step) == Some(Working) <==> step in {Begin, StartBlindly}
    ensures NextPhase(phase, step) == Some(PublishingDone) <==> step == Finish(true)
    ensures NextPhase(phase, step) == Some(PublishingFailed) <==>
      step == Finish(false) || (step == PublishFault && phase == PublishingDone)
    ensures NextPhase(phase, step) != Some(Holding)
  {
  }

  predicate WorkLoses(v: View, step: WorkStep) {
    step.Die? || (step.Drop? && v.Is(Queued))
  }

  /** A claimed job can turn out cancelled at any time: the cancellation may have read it before the claim. */
  predicate WorkOk(phase: Phase, v: View) {
    && v.row.Some? && v.Parked()
    && match phase
       case Holding => v.completed == 0 && v.Pending()
       case Claimed => v.completed == 0 && (v.Is(Running) || v.Is(Cancelled))
       case Trusting => v.completed == 0 && (v.Is(Queued) || v.Is(Cancelled))
       case Working => v.completed == 0 && (v.Is(Running) || v.Is(Cancelled))
       case PublishingDone => v.Is(Done) || v.Is(Cancelled)
       case PublishingFailed => v.Is(Failed) || v.Is(Cancelled)
  }

  /** A job that has not ended is lost exactly when its worker lets go of it outside the queues. */
  lemma WorkLosesIff(phase: Phase, v: View, step: WorkStep)
    requires WorkOk(phase, v) && CanWork(phase, v, step)
    requires v.Is(Queued) || (v.Is(Running) && !phase.Holding?)
    ensures WorkLoses(v, step) <==> NextPhase(phase, step).None? && WorkView(phase, v, step).Parked()
                                    && (WorkView(phase, v, step).Is(Queued) || WorkView(phase, v, step).Is(Running))
  {
  }

  lemma OnlyDeathsAndDropsLose(v: View, step: WorkStep)
    requires WorkLoses(v, step)
    ensures step == Die || (step == Drop && v.Is(Queued))
  {
  }

  lemma WorkStepKeepsOk(phase: Phase, v: View, step: WorkStep)
    requires WorkOk(phase, v) && CanWork(phase, v, step) && ViewOk(v)
    ensures ViewOk(WorkView(phase, v, step))
    ensures SameButStatus(v, WorkView(phase, v, step))
    ensures NextPhase(phase, step).Some? ==> WorkOk(NextPhase(phase, step).value, WorkView(phase, v, step))
  {
  }

  // ---------- the whole system ----------

  datatype Custody = Custody(jid: JobId, phase: Phase)

  datatype State = State(
    rows: map<JobId, Row>,
    queue: multiset<JobId>,
    schedule: multiset<JobId>,
    completed: multiset<JobId>,
    handlers: map<nat, Handler>,
    held: map<nat, Custody>,      // popped jobs, by worker
    usage: map<string, nat>,
    cancelling: Option<JobId>,    // the job a cancellation has read and not yet written
    faults: nat,                  // awaited calls that raised, and requests that stopped
    losses: nat)                  // jobs let go by a fault, a stop, a dead worker or an early pop
  {
    function See(j: JobId): View {
      View(if j in rows then Some(rows[j]) else None, queue[j], schedule[j], completed[j])
    }

    function Write(j: JobId, v: View): State {
      this.(
        rows := if v.row.Some? then rows[j := v.row.value] else rows,
        queue := queue[j := v.queued],
        schedule := schedule[j := v.scheduled],
        completed := completed[j := v.completed])
    }

    function Used(user: string): nat {
      if user in usage then usage[user] else 0
    }

    ghost predicate Holds(w: nat, j: JobId) {
      w in held && held[w].jid == j
    }
  }

  datatype Event =
    | Arrive(h: nat, req: Request)
    | Look(h: nat)
    | Refuse(h: nat)
    | Insert(h: nat, jid: JobId, plan: Plan)
    | Step(h: nat, step: LocalStep)
    | ReadForCancel(user: string, admin: bool, jid: JobId)
    | WriteCancelled
    | GiveUpCancel
    | Take(w: nat, jid: JobId)
    | TakeDue(w: nat, jid: JobId)
    | Work(w: nat, work: WorkStep)

  predicate Matches(row: Row, user: string, key: Option<string>) {
    key.Some? && row.user == user && row.key == key
  }

  ghost predicate KeyTaken(rows: map<JobId, Row>, user: string, key: Option<string>) {
    exists j | j in rows :: Matches(rows[j], user, key)
  }

  /** The row a lookup finds; unique keys make the choice irrelevant. */
  ghost function Find(rows: map<JobId, Row>, user: string, key: Option<string>): (j: JobId)
    requires KeyTaken(rows, user, key)
    ensures j in rows && Matches(rows[j], user, key)
  {
    var j :| j in rows && Matches(rows[j], user, key); j
  }

  predicate HashAgrees(row: Row, hash: Hash) {
    row.hash == "" || row.hash == hash
  }

  function ReplyFromRow(j: JobId, row: Row, hash: Hash): Reply {
    if HashAgrees(row, hash) then Existing(j, row.status) else Conflict
  }

  /** The SELECT of a cancellation lets it go on to its UPDATE. */
  predicate MayCancel(v: View, user: string, admin: bool) {
    v.Is(Queued) && (v.row.value.user == user || admin)
  }

  /** Statements of the API process; none comes between the two of a cancellation. */
  predicate ByApi(e: Event) {
    e.Arrive? || e.Look? || e.Refuse? || e.Insert? || e.Step? || e.ReadForCancel?
  }

  ghost predicate Enabled(s: State, e: Event) {
    (ByApi(e) ==> s.cancelling.None?) &&
    match e
    case Arrive(h, _) => h !in s.handlers
    case Look(h) => h in s.handlers && s.handlers[h].pc.Arrived?
    case Refuse(h) => h in s.handlers && s.handlers[h].pc.Waiting?
    case Insert(h, j, _) => h in s.handlers && s.handlers[h].pc.Waiting? && j !in s.rows
    case Step(h, step) => h in s.handlers && CanStep(s.handlers[h], step)
    case ReadForCancel(_, _, _) => true
    case WriteCancelled => s.cancelling.Some?
    case GiveUpCancel => s.cancelling.Some?
    case Take(w, j) => w !in s.held && s.queue[j] > 0
    case TakeDue(w, j) => w !in s.held && s.schedule[j] > 0
    case Work(w, work) => w in s.held && CanWork(s.held[w].phase, s.See(s.held[w].jid), work)
  }

  /** A lookup that finds the key, before the INSERT or after it violated the unique index. */
  ghost function AnswerFromTable(s: State, h: nat): State
    requires h in s.handlers && KeyTaken(s.rows, s.handlers[h].req.user, s.handlers[h].req.key)
  {
    var c := s.handlers[h];
    var j := Find(s.rows, c.req.user, c.req.key);
    s.(handlers := s.handlers[h := c.(pc := Replied(ReplyFromRow(j, s.rows[j], c.req.hash)))])
  }

  function ApplyStep(s: State, h: nat, step: LocalStep): State
    requires h in s.handlers && CanStep(s.handlers[h], step)
  {
    var c := s.handlers[h];
    var v := s.See(c.jid.value);
    s.Write(c.jid.value, NextView(c, v, step)).(
      handlers := s.handlers[h := NextHandler(c, v, step)],
      usage := if step.Bump? then s.usage[c.req.user := s.Used(c.req.user) + 1] else s.usage,
      faults := s.faults + if step.Fault? || step.Stop? then 1 else 0,
      losses := s.losses + if LosesJob(c, step) then 1 else 0)
  }

  function ApplyWork(s: State, w: nat, work: WorkStep): State
    requires w in s.held
  {
    var c := s.held[w];
    var v := s.See(c.jid);
    var next := NextPhase(c.phase, work);
    s.Write(c.jid, WorkView(c.phase, v, work)).(
      held := if next.Some? then s.held[w := Custody(c.jid, next.value)] else s.held - {w},
      faults := s.faults + if work.PublishFault? then 1 else 0,
      losses := s.losses + if WorkLoses(v, work) then 1 else 0)
  }

  ghost function Apply(s: State, e: Event): State
    requires Enabled(s, e)
  {
    match e
    case Arrive(h, req) =>
      s.(handlers := s.handlers[h := Handler(req, Arrived, None, Plan(false, false, false), false, false, 0)])
    case Look(h) =>
      var c := s.handlers[h];
      if KeyTaken(s.rows, c.req.user, c.req.key) then AnswerFromTable(s, h)
      else s.(handlers := s.handlers[h := c.(pc := Waiting)])
    case Refuse(h) => s.(handlers := s.handlers[h := s.handlers[h].(pc := Replied(Refused))])
    case Insert(h, j, plan) =>
      var c := s.handlers[h];
      if KeyTaken(s.rows, c.req.user, c.req.key) then AnswerFromTable(s, h)
      else s.(
        rows := s.rows[j := Row(c.req.user, c.req.key, c.req.hash, plan.delayed, Queued, Some(h))],
        handlers := s.handlers[h := c.(pc := Bumping, jid := Some(j), plan := plan)])
    case Step(h, step) => ApplyStep(s, h, step)
    case ReadForCancel(user, admin, j) =>
      if MayCancel(s.See(j), user, admin) then s.(cancelling := Some(j)) else s
    case WriteCancelled =>
      s.Write(s.cancelling.value, s.See(s.cancelling.value).Mark(Cancelled)).(cancelling := None)
    case GiveUpCancel => s.(cancelling := None)
    case Take(w, j) =>
      s.(queue := s.queue[j := s.queue[j] - 1], held := s.held[w := Custody(j, Holding)])
    case TakeDue(w, j) =>
      s.(schedule := s.schedule[j := s.schedule[j] - 1], held := s.held[w := Custody(j, Holding)])
    case Work(w, work) => ApplyWork(s, w, work)
  }

  /** Lookups, refusals and cancellations that come to nothing leave all stores alone. */
  lemma StoresStay(s: State, e: Event)
    requires Enabled(s, e) && (e.Arrive? || e.Look? || e.Refuse? || e.ReadForCancel? || e.GiveUpCancel?)
    ensures var t := Apply(s, e);
      && t.rows == s.rows && t.queue == s.queue && t.schedule == s.schedule && t.completed == s.completed
      && t.held == s.held && t.usage == s.usage
      && (e.GiveUpCancel? ==> t.cancelling == None && t.handlers == s.handlers)
  {
  }
}
