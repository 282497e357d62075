/**
 The confirm and cancel endpoints of app/api/actions_saga_routes.py, for one action id.

 Both endpoints run the same idempotency protocol over two Redis keys: GET the stored
 result, reserve the status key with SET NX, resume the action, SET the result, SET DONE.
 The model is a state machine whose events are the atomic effects between two awaits, so a
 run is an interleaving of any number of handlers. Redis errors (which the
 handlers swallow), key expiry and a handler that dies at an await are events too.
 */
module ConfirmCancel {
  import opened Options

  /** A stored response is a JSON document, so it is never the empty string. */
  type Payload = text: string | text != "" witness "{}"

  datatype Status = PENDING | DONE

  /** A confirm request carries the user's answer; a cancel request always refuses. */
  datatype Kind = Confirm(answer: bool) | Cancel {
    function Approves(): bool {
      Confirm? && answer
    }
  }

  datatype Reply = Answer(payload: Payload) | InProgress(kind: Kind)

  datatype Pc =
    | AtGet
    | AtReserve
    | Resuming(attempt: nat)
    | AtStore(payload: Payload)
    | AtDone(payload: Payload)
    | Replied(reply: Reply)
    | Dead

  datatype Handler = Handler(kind: Kind, pc: Pc)

  /** One call of `resume_on_confirmation`, and what it returned once it has. */
  datatype Attempt = Attempt(handler: nat, approves: bool, answer: Option<Payload>)

  datatype State = State(
    result: Option<Payload>,
    status: Option<Status>,
    handlers: map<nat, Handler>,
    attempts: seq<Attempt>,
    faults: nat,      // Redis errors before the resume, each of which lets a handler through
    slips: nat,       // SET NX refusals that the handler did not recognise
    expiries: nat)    // times the status key ran out
  {
    function At(h: nat): Pc {
      if h in handlers then handlers[h].pc else Dead
    }

    function Move(h: nat, pc: Pc): State
      requires h in handlers
    {
      this.(handlers := handlers[h := handlers[h].(pc := pc)])
    }

    /** The handler goes on to call `resume_on_confirmation`. */
    function Resume(h: nat): State
      requires h in handlers
    {
      Move(h, Resuming(|attempts|)).(attempts := attempts + [Attempt(h, handlers[h].kind.Approves(), None)])
    }
  }

  /** What the client library answers to SET NX on a key that exists; the code tests for `False`. */
  datatype NxRefusal = RepliesFalse | RepliesNone

  datatype Event =
    | Arrive(h: nat, kind: Kind)
    | Get(h: nat)
    | Reserve(h: nat)
    | Return(h: nat, payload: Payload)
    | Store(h: nat)
    | MarkDone(h: nat)
    | GetFault(h: nat)
    | ReserveFault(h: nat, applied: bool)
    | StoreFault(h: nat, applied: bool)
    | MarkDoneFault(h: nat, applied: bool)
    | Die(h: nat)
    | ExpireResult
    | ExpireStatus

  predicate Enabled(s: State, e: Event) {
    match e
    case Arrive(h, _) => h !in s.handlers
    case Get(h) => s.At(h).AtGet?
    case Reserve(h) => s.At(h).AtReserve?
    case Return(h, _) => s.At(h).Resuming? && s.At(h).attempt < |s.attempts|
    case Store(h) => s.At(h).AtStore?
    case MarkDone(h) => s.At(h).AtDone?
    case GetFault(h) => s.At(h).AtGet?
    case ReserveFault(h, _) => s.At(h).AtReserve?
    case StoreFault(h, _) => s.At(h).AtStore?
    case MarkDoneFault(h, _) => s.At(h).AtDone?
    case Die(h) => h in s.handlers && !s.At(h).Replied?
    case ExpireResult => s.result.Some?
    case ExpireStatus => s.status.Some?
  }

  /** The handler whose program counter the event moves, if any. */
  predicate Moves(e: Event, h: nat) {
    !e.ExpireResult? && !e.ExpireStatus? && e.h == h
  }

  function Apply(refusal: NxRefusal, s: State, e: Event): State
    requires Enabled(s, e)
  {
    match e
    case Arrive(h, kind) => s.(handlers := s.handlers[h := Handler(kind, AtGet)])
    case Get(h) =>
      if s.result.Some? then s.Move(h, Replied(Answer(s.result.value))) else s.Move(h, AtReserve)
    case Reserve(h) =>
      if s.status.None? then s.Resume(h).(status := Some(PENDING))
      else if refusal.RepliesFalse? then s.Move(h, Replied(InProgress(s.handlers[h].kind)))
      else s.Resume(h).(slips := s.slips + 1)
    case Return(h, payload) =>
      var i := s.At(h).attempt;
      s.Move(h, AtStore(payload)).(attempts := s.attempts[i := s.attempts[i].(answer := Some(payload))])
    case Store(h) => s.Move(h, AtDone(s.At(h).payload)).(result := Some(s.At(h).payload))
    case MarkDone(h) => s.Move(h, Replied(Answer(s.At(h).payload))).(status := Some(DONE))
    case GetFault(h) => s.Resume(h).(faults := s.faults + 1)
    case ReserveFault(h, applied) =>
      s.Resume(h).(faults := s.faults + 1, status := if applied && s.status.None? then Some(PENDING) else s.status)
    case StoreFault(h, applied) =>
      s.Move(h, Replied(Answer(s.At(h).payload))).(result := if applied then Some(s.At(h).payload) else s.result)
    case MarkDoneFault(h, applied) =>
      s.Move(h, Replied(Answer(s.At(h).payload))).(status := if applied then Some(DONE) else s.status)
    case Die(h) => s.Move(h, Dead)
    case ExpireResult => s.(result := None)
    case ExpireStatus => s.(status := None, expiries := s.expiries + 1)
  }

  /** What comes from outside the handlers: a key runs out, and a handler stops at an await. */
  lemma OutsideEventsDo(refusal: NxRefusal, s: State, e: Event)
    requires Enabled(s, e)
    ensures var t := Apply(refusal, s, e);
      && (e.ExpireResult? ==> t == s.(result := None))
      && (e.ExpireStatus? ==> t.status == None && t.result == s.result && t.handlers == s.handlers)
      && (e.Die? ==> t.At(e.h) == Dead && t.result == s.result && t.status == s.status && t.attempts == s.attempts)
  {
  }

  /** A step of one handler leaves the others where they are. */
  lemma OthersStay(refusal: NxRefusal, s: State, e: Event, h: nat)
    requires Enabled(s, e) && !Moves(e, h)
    ensures h in Apply(refusal, s, e).handlers <==> h in s.handlers
    ensures h in s.handlers ==> Apply(refusal, s, e).handlers[h] == s.handlers[h]
  {
  }

  const INITIAL := State(None, None, map[], [], 0, 0, 0)

  /** An interleaving: the events so far, newest outermost. */
  datatype Run = Start | Then(before: Run, event: Event)

  /** The run can happen from the initial state. */
  ghost predicate Possible(refusal: NxRefusal, run: Run)
    decreases run, 0
  {
    run.Start? || (Possible(refusal, run.before) && Enabled(After(refusal, run.before), run.event))
  }

  ghost function After(refusal: NxRefusal, run: Run): State
    requires Possible(refusal, run)
    decreases run, 1
  {
    if run.Start? then INITIAL else Apply(refusal, After(refusal, run.before), run.event)
  }

  // ---------- how often the action is resumed ----------

  /** Each resume is paid for by the reservation, a fault, an unrecognised refusal or an expiry. */
  ghost predicate Accounted(s: State) {
    |s.attempts| + (if s.status.None? then 1 else 0) <= 1 + s.faults + s.slips + s.expiries
  }

  lemma StepIsAccounted(refusal: NxRefusal, s: State, e: Event)
    requires Accounted(s) && Enabled(s, e)
    ensures Accounted(Apply(refusal, s, e))
    ensures refusal.RepliesFalse? ==> Apply(refusal, s, e).slips == s.slips
  {
  }

  lemma {:induction false} EveryResumeIsAccounted(refusal: NxRefusal, run: Run)
    requires Possible(refusal, run)
    ensures Accounted(After(refusal, run))
    ensures refusal.RepliesFalse? ==> After(refusal, run).slips == 0
  {
    if run.Then? {
      EveryResumeIsAccounted(refusal, run.before);
      StepIsAccounted(refusal, After(refusal, run.before), run.event);
    }
  }

  /** Nothing failed before a resume and the status key never ran out; later faults are allowed. */
  predicate Calm(s: State) {
    s.faults == 0 && s.expiries == 0
  }

  /** One handler wins the reservation and a second one, refused with `None`, resumes too. */
  function DoubleResume(): Run {
    Then(Then(Then(Then(Then(Then(Start,
      Arrive(0, Confirm(true))), Get(0)), Arrive(1, Cancel)), Get(1)), Reserve(0)), Reserve(1))
  }

  lemma NoneReplyResumesTwice()
    ensures Possible(RepliesNone, DoubleResume())
    ensures var s := After(RepliesNone, DoubleResume());
      Calm(s) && |s.attempts| == 2 && s.attempts[0].approves && !s.attempts[1].approves
  {
    var r2 := DoubleResume().before.before.before.before;
    assert Possible(RepliesNone, r2);
    assert After(RepliesNone, r2).handlers == map[0 := Handler(Confirm(true), AtReserve)];
    var r4 := DoubleResume().before.before;
    assert Possible(RepliesNone, r4);
    assert After(RepliesNone, r4).handlers
        == map[0 := Handler(Confirm(true), AtReserve), 1 := Handler(Cancel, AtReserve)];
  }

  /** At-most-once holds in every calm interleaving exactly when the client answers `False`. */
  lemma AtMostOnceIffRefusalIsFalse(refusal: NxRefusal)
    ensures (forall run | Possible(refusal, run) && Calm(After(refusal, run)) ::
              |After(refusal, run).attempts| <= 1)
            <==> refusal.RepliesFalse?
  {
    if refusal.RepliesFalse? {
      forall run | Possible(refusal, run) && Calm(After(refusal, run))
        ensures |After(refusal, run).attempts| <= 1
      {
        EveryResumeIsAccounted(refusal, run);
      }
    } else {
      NoneReplyResumesTwice();
    }
  }

  /** One winner, then `n` handlers whose GET raises. */
  ghost function FaultyRun(n: nat): Run {
    if n == 0 then Then(Then(Then(Start, Arrive(0, Cancel)), Get(0)), Reserve(0))
    else Then(Then(FaultyRun(n - 1), Arrive(n, Cancel)), GetFault(n))
  }

  /** The bound is tight: every swallowed error can cost one more resume. */
  lemma {:induction false} EachFaultCanResumeAgain(n: nat)
    ensures Possible(RepliesFalse, FaultyRun(n))
    ensures After(RepliesFalse, FaultyRun(n)).faults == n
    ensures |After(RepliesFalse, FaultyRun(n)).attempts| == n + 1
    ensures forall h | h in After(RepliesFalse, FaultyRun(n)).handlers :: h <= n
  {
    if n == 0 {
      assert Possible(RepliesFalse, Then(Start, Arrive(0, Cancel)));
    } else {
      EachFaultCanResumeAgain(n - 1);
      var arrived := Then(FaultyRun(n - 1), Arrive(n, Cancel));
      assert Possible(RepliesFalse, arrived);
    }
  }

  /** One winner, then `n` handlers that each find the status key run out. */
  ghost function ExpiringRun(n: nat): Run {
    if n == 0 then Then(Then(Then(Start, Arrive(0, Cancel)), Get(0)), Reserve(0))
    else Then(Then(Then(Then(ExpiringRun(n - 1), ExpireStatus), Arrive(n, Cancel)), Get(n)), Reserve(n))
  }

  /** So can every expiry of the status key, without any error. */
  lemma {:induction false} EachExpiryCanResumeAgain(n: nat)
    ensures Possible(RepliesFalse, ExpiringRun(n))
    ensures var s := After(RepliesFalse, ExpiringRun(n));
      && s.expiries == n && s.faults == 0 && s.slips == 0 && |s.attempts| == n + 1
      && s.status.Some? && s.result.None? && forall h | h in s.handlers :: h <= n
  {
    if n == 0 {
      var looked := ExpiringRun(0).before;
      assert Possible(RepliesFalse, looked.before);
      assert Possible(RepliesFalse, looked);
    } else {
      EachExpiryCanResumeAgain(n - 1);
      var expired := Then(ExpiringRun(n - 1), ExpireStatus);
      var arrived := Then(expired, Arrive(n, Cancel));
      assert Possible(RepliesFalse, expired);
      assert Possible(RepliesFalse, arrived);
      assert Possible(RepliesFalse, Then(arrived, Get(n)));
    }
  }

  // ---------- whose response a reply carries ----------

  /** Some resume returned this payload, and resumed with the decision of the handler that made it. */
  ghost predicate Returned(s: State, payload: Payload) {
    exists i | 0 <= i < |s.attempts| :: s.attempts[i].answer == Some(payload)
  }

  ghost predicate PcOk(s: State, h: nat, pc: Pc) {
    match pc
    case Resuming(i) => i < |s.attempts| && s.attempts[i].handler == h && s.attempts[i].answer.None?
    case AtStore(payload) => Returned(s, payload)
    case AtDone(payload) => Returned(s, payload)
    case Replied(Answer(payload)) => Returned(s, payload)
    case Replied(InProgress(kind)) => h in s.handlers && kind == s.handlers[h].kind
    case _ => true
  }

  ghost predicate Provenance(s: State) {
    && (s.result.Some? ==> Returned(s, s.result.value))
    && (forall h | h in s.handlers :: PcOk(s, h, s.handlers[h].pc))
    && (forall i | 0 <= i < |s.attempts| ::
          s.attempts[i].handler in s.handlers &&
          s.attempts[i].approves == (s.handlers[s.attempts[i].handler].kind == Confirm(true)))
  }

  /** Attempts only ever gain entries and answers, so returned payloads stay returned. */
  ghost predicate Grows(a: seq<Attempt>, b: seq<Attempt>) {
    && |a| <= |b|
    && forall i | 0 <= i < |a| ::
      && a[i].handler == b[i].handler && a[i].approves == b[i].approves
      && (a[i].answer.Some? ==> b[i].answer == a[i].answer)
  }

  lemma StepGrows(refusal: NxRefusal, s: State, e: Event)
    requires Provenance(s) && Enabled(s, e)
    ensures Grows(s.attempts, Apply(refusal, s, e).attempts)
  {
    if e.Return? {
      assert PcOk(s, e.h, s.handlers[e.h].pc);
    }
  }

  lemma ReturnedIsStable(s: State, t: State, payload: Payload)
    requires Returned(s, payload) && Grows(s.attempts, t.attempts)
    ensures Returned(t, payload)
  {
    var i :| 0 <= i < |s.attempts| && s.attempts[i].answer == Some(payload);
    assert t.attempts[i].answer == Some(payload);
  }

  lemma PcOkIsStable(s: State, t: State, h: nat)
    requires Provenance(s) && Grows(s.attempts, t.attempts)
    requires h in s.handlers && h in t.handlers && s.handlers[h] == t.handlers[h]
    requires forall i | 0 <= i < |s.attempts| && s.attempts[i].handler == h :: t.attempts[i] == s.attempts[i]
    ensures PcOk(t, h, t.handlers[h].pc)
  {
    assert PcOk(s, h, s.handlers[h].pc);
    match s.handlers[h].pc
    case AtStore(payload) => ReturnedIsStable(s, t, payload);
    case AtDone(payload) => ReturnedIsStable(s, t, payload);
    case Replied(Answer(payload)) => ReturnedIsStable(s, t, payload);
    case _ =>
  }

  /** A step of one handler leaves the others, and the answers they wait for, alone. */
  lemma StepKeepsOthers(refusal: NxRefusal, s: State, e: Event, h: nat)
    requires Provenance(s) && Enabled(s, e) && h in s.handlers && !Moves(e, h)
    ensures h in Apply(refusal, s, e).handlers
    ensures PcOk(Apply(refusal, s, e), h, Apply(refusal, s, e).handlers[h].pc)
  {
    StepGrows(refusal, s, e);
    if e.Return? {
      assert PcOk(s, e.h, s.handlers[e.h].pc);
    }
    PcOkIsStable(s, Apply(refusal, s, e), h);
  }

  lemma StepKeepsOwn(refusal: NxRefusal, s: State, e: Event, h: nat)
    requires Provenance(s) && Enabled(s, e) && Moves(e, h)
    ensures h in Apply(refusal, s, e).handlers
    ensures PcOk(Apply(refusal, s, e), h, Apply(refusal, s, e).handlers[h].pc)
  {
    var t := Apply(refusal, s, e);
    StepGrows(refusal, s, e);
    if h in s.handlers {
      assert PcOk(s, h, s.handlers[h].pc);
    }
    if e.Return? {
      assert t.attempts[s.At(h).attempt].answer == Some(e.payload);
    } else if e.Store? || e.MarkDone? || e.StoreFault? || e.MarkDoneFault? {
      ReturnedIsStable(s, t, s.At(h).payload);
    } else if e.Get? && s.result.Some? {
      ReturnedIsStable(s, t, s.result.value);
    }
  }

  lemma StepKeepsResult(refusal: NxRefusal, s: State, e: Event)
    requires Provenance(s) && Enabled(s, e)
    ensures Apply(refusal, s, e).result.Some? ==> Returned(Apply(refusal, s, e), Apply(refusal, s, e).result.value)
  {
    var t := Apply(refusal, s, e);
    StepGrows(refusal, s, e);
    if e.Store? || e.StoreFault? {
      assert PcOk(s, e.h, s.handlers[e.h].pc);
      ReturnedIsStable(s, t, s.At(e.h).payload);
    }
    if t.result == s.result && s.result.Some? {
      ReturnedIsStable(s, t, s.result.value);
    }
  }

  lemma StepKeepsProvenance(refusal: NxRefusal, s: State, e: Event)
    requires Provenance(s) && Enabled(s, e)
    ensures Provenance(Apply(refusal, s, e))
  {
    var t := Apply(refusal, s, e);
    StepKeepsResult(refusal, s, e);
    forall h | h in t.handlers
      ensures PcOk(t, h, t.handlers[h].pc)
    {
      if Moves(e, h) {
        StepKeepsOwn(refusal, s, e, h);
      } else {
        StepKeepsOthers(refusal, s, e, h);
      }
    }
    StepGrows(refusal, s, e);
  }

  lemma {:induction false} RunKeepsProvenance(refusal: NxRefusal, run: Run)
    requires Possible(refusal, run)
    ensures Provenance(After(refusal, run))
  {
    if run.Then? {
      RunKeepsProvenance(refusal, run.before);
      StepKeepsProvenance(refusal, After(refusal, run.before), run.event);
    }
  }

  /** One resume at most, and every response in circulation is the one it returned. */
  ghost predicate Agreed(s: State) {
    && |s.attempts| <= 1
    && (s.result.Some? ==> |s.attempts| == 1 && s.attempts[0].answer == s.result)
    && (forall h | h in s.handlers && s.handlers[h].pc.Replied? && s.handlers[h].pc.reply.Answer? ::
          |s.attempts| == 1 && s.attempts[0].answer == Some(s.handlers[h].pc.reply.payload))
    && (forall a | a in s.attempts ::
          a.handler in s.handlers && a.approves == (s.handlers[a.handler].kind == Confirm(true)))
  }

  lemma OneAttemptMeansAgreement(s: State)
    requires Provenance(s) && |s.attempts| <= 1
    ensures Agreed(s)
  {
    forall h | h in s.handlers && s.handlers[h].pc.Replied? && s.handlers[h].pc.reply.Answer?
      ensures |s.attempts| == 1 && s.attempts[0].answer == Some(s.handlers[h].pc.reply.payload)
    {
      assert PcOk(s, h, s.handlers[h].pc);
    }
  }

  /**
   In every calm interleaving, with a client that answers `False`: one resume at most; each reply is
   the placeholder or that resume's response; and the resume acted on its own handler's decision.
   */
  lemma CalmRunsAgree(run: Run)
    requires Possible(RepliesFalse, run) && Calm(After(RepliesFalse, run))
    ensures Agreed(After(RepliesFalse, run))
  {
    EveryResumeIsAccounted(RepliesFalse, run);
    RunKeepsProvenance(RepliesFalse, run);
    OneAttemptMeansAgreement(After(RepliesFalse, run));
  }

  /** `later` continues `earlier`, and the result key does not run out in between. */
  ghost predicate KeepsResultFrom(earlier: Run, later: Run) {
    later == earlier || (later.Then? && later.event != ExpireResult && KeepsResultFrom(earlier, later.before))
  }

  /** The handler has not looked the result up yet, is gone, or has replied with `payload`. */
  predicate NotBehind(s: State, h: nat, payload: Payload) {
    s.At(h).AtGet? || s.At(h).Dead? || s.At(h) == Replied(Answer(payload))
  }

  lemma StoredResultIsNotReplaced(s: State, e: Event, h: nat, payload: Payload)
    requires Enabled(s, e) && e != ExpireResult && Calm(Apply(RepliesFalse, s, e))
    requires Provenance(s) && |s.attempts| <= 1
    requires s.result == Some(payload) && NotBehind(s, h, payload)
    ensures Apply(RepliesFalse, s, e).result == Some(payload)
    ensures NotBehind(Apply(RepliesFalse, s, e), h, payload)
  {
    if e.Store? || e.StoreFault? {
      assert PcOk(s, e.h, s.handlers[e.h].pc);
    }
  }

  /**
   Once a result is stored, a handler that has not yet looked it up, or not yet arrived, can only
   reply with it, for as long as the run stays calm and the result key does not run out.
   */
  lemma {:induction false} LateHandlersGetTheStoredResult(earlier: Run, later: Run, h: nat, payload: Payload)
    requires Possible(RepliesFalse, earlier) && Possible(RepliesFalse, later)
    requires KeepsResultFrom(earlier, later) && Calm(After(RepliesFalse, later))
    requires After(RepliesFalse, earlier).result == Some(payload)
    requires h !in After(RepliesFalse, earlier).handlers || After(RepliesFalse, earlier).At(h).AtGet?
    ensures After(RepliesFalse, later).result == Some(payload)
    ensures NotBehind(After(RepliesFalse, later), h, payload)
  {
    if later != earlier {
      LateHandlersGetTheStoredResult(earlier, later.before, h, payload);
      EveryResumeIsAccounted(RepliesFalse, later.before);
      RunKeepsProvenance(RepliesFalse, later.before);
      StoredResultIsNotReplaced(After(RepliesFalse, later.before), later.event, h, payload);
    }
  }

  /** No resume was made for the handler. */
  ghost predicate NeverResumed(s: State, h: nat) {
    forall i | 0 <= i < |s.attempts| :: s.attempts[i].handler != h
  }

  /** What `payload` the result key held at some time from `earlier` to `later`. */
  ghost predicate StoredSince(refusal: NxRefusal, earlier: Run, later: Run, payload: Payload)
    requires Possible(refusal, later)
  {
    || After(refusal, later).result == Some(payload)
    || (later != earlier && later.Then? && StoredSince(refusal, earlier, later.before, payload))
  }

  /** The handler has not looked yet, is gone, or has replied with what was stored meanwhile. */
  ghost predicate OnlyRepeats(refusal: NxRefusal, earlier: Run, later: Run, h: nat)
    requires Possible(refusal, later)
  {
    var s := After(refusal, later);
    || s.At(h).AtGet? || s.At(h).Dead?
    || (s.At(h).Replied? && s.At(h).reply.Answer? && StoredSince(refusal, earlier, later, s.At(h).reply.payload))
  }

  /** `later` continues `earlier`; the result key does not run out, and the handler's GET does not raise. */
  ghost predicate LooksUpFrom(earlier: Run, later: Run, h: nat) {
    later == earlier ||
    (later.Then? && later.event != ExpireResult && later.event != GetFault(h) && LooksUpFrom(earlier, later.before, h))
  }

  lemma {:induction false} LookersHaveNotResumed(refusal: NxRefusal, run: Run, h: nat)
    requires Possible(refusal, run)
    ensures var s := After(refusal, run); h !in s.handlers || s.At(h).AtGet? ==> NeverResumed(s, h)
  {
    if run.Then? {
      LookersHaveNotResumed(refusal, run.before, h);
    }
  }

  lemma StoredResultStays(refusal: NxRefusal, s: State, e: Event, h: nat)
    requires Enabled(s, e) && e != ExpireResult && e != GetFault(h)
    requires s.result.Some? && (s.At(h).AtGet? || s.At(h).Dead? || s.At(h).Replied?)
    ensures var t := Apply(refusal, s, e);
      && t.result.Some?
      && (NeverResumed(s, h) ==> NeverResumed(t, h))
      && (t.At(h).AtGet? || t.At(h).Dead? || t.At(h) == s.At(h) || t.At(h) == Replied(Answer(s.result.value)))
  {
  }

  /**
   Whatever the client answers: once a result is stored, a handler that has not yet looked it up, or
   not yet arrived, never resumes and can only reply with what is stored from then on, until the
   key runs out or the handler's own GET raises.
   */
  lemma {:induction false} LateHandlersNeverResume(refusal: NxRefusal, earlier: Run, later: Run, h: nat)
    requires Possible(refusal, earlier) && Possible(refusal, later) && LooksUpFrom(earlier, later, h)
    requires After(refusal, earlier).result.Some?
    requires h !in After(refusal, earlier).handlers || After(refusal, earlier).At(h).AtGet?
    ensures After(refusal, later).result.Some? && NeverResumed(After(refusal, later), h)
    ensures OnlyRepeats(refusal, earlier, later, h)
  {
    LookersHaveNotResumed(refusal, earlier, h);
    if later != earlier {
      LateHandlersNeverResume(refusal, earlier, later.before, h);
      StoredResultStays(refusal, After(refusal, later.before), later.event, h);
    }
  }

  // ---------- no handler waits for another ----------

  function StepsLeft(pc: Pc): nat {
    match pc
    case AtGet => 5
    case AtReserve => 4
    case Resuming(_) => 3
    case AtStore(_) => 2
    case AtDone(_) => 1
    case _ => 0
  }

  /** The step the handler takes next when nothing fails; `payload` is what the resume returns. */
  function NextStep(pc: Pc, h: nat, payload: Payload): Event {
    match pc
    case AtReserve => Reserve(h)
    case Resuming(_) => Return(h, payload)
    case AtStore(_) => Store(h)
    case AtDone(_) => MarkDone(h)
    case _ => Get(h)
  }

  /** Each handler can take a step of its own until it ends, whatever the others have done. */
  lemma HandlersNeverBlock(refusal: NxRefusal, run: Run, h: nat, payload: Payload)
    requires Possible(refusal, run) && h in After(refusal, run).handlers
    ensures var s := After(refusal, run);
      StepsLeft(s.At(h)) > 0 <==> Enabled(s, NextStep(s.At(h), h, payload))
  {
    RunKeepsProvenance(refusal, run);
    var s := After(refusal, run);
    assert PcOk(s, h, s.handlers[h].pc);
  }

  /** A handler ends within five steps of its own, and is not moved by the steps of others. */
  lemma StepsRunOut(refusal: NxRefusal, s: State, e: Event, h: nat)
    requires Enabled(s, e) && h in s.handlers
    ensures Moves(e, h) && !e.Die? ==> StepsLeft(Apply(refusal, s, e).At(h)) < StepsLeft(s.At(h))
    ensures !Moves(e, h) ==> Apply(refusal, s, e).At(h) == s.At(h)
  {
  }

  // ---------- the handler as it is written ----------

  /** The Redis call of a handler that raises, and whether the write took effect all the same. */
  datatype Trouble =
    | NoTrouble
    | GetRaises
    | ReserveRaises(applied: bool)
    | StoreRaises(applied: bool)
    | DoneRaises(applied: bool)

  /** `later` continues `earlier` with steps of handler `h` alone. */
  ghost predicate Served(earlier: Run, later: Run, h: nat) {
    later == earlier ||
    (later.Then? && Moves(later.event, h) && !later.event.Die? && Served(earlier, later.before, h))
  }

  lemma {:induction false} ServedInTurn(r1: Run, r2: Run, r3: Run, h: nat)
    requires Served(r1, r2, h) && Served(r2, r3, h)
    ensures Served(r1, r3, h)
  {
    if r3 != r2 {
      ServedInTurn(r1, r2, r3.before, h);
    }
  }

  /** The two keys of one action, with the run that produced them. */
  class ActionKeys {
    const refusal: NxRefusal
    var result: Option<Payload>
    var status: Option<Status>
    ghost var run: Run

    ghost predicate Valid()
      reads this
    {
      && Possible(refusal, run)
      && Machine().result == result
      && Machine().status == status
    }

    ghost function Machine(): State
      requires Possible(refusal, run)
      reads this
    {
      After(refusal, run)
    }

    constructor (refusal: NxRefusal)
      ensures Valid() && run == Start && this.refusal == refusal
    {
      this.refusal := refusal;
      result, status, run := None, None, Start;
    }

    ghost method Record(e: Event)
      requires Possible(refusal, run) && Enabled(Machine(), e)
      modifies this`run
      ensures run == Then(old(run), e) && Possible(refusal, run)
      ensures Machine() == Apply(refusal, old(Machine()), e)
    {
      run := Then(run, e);
    }

    method GetResult(ghost h: nat) returns (cached: Option<Payload>)
      requires Valid() && Machine().At(h).AtGet?
      modifies this`run
      ensures Valid() && cached == result
      ensures run == Then(old(run), Get(h)) && Machine() == Apply(refusal, old(Machine()), Get(h))
    {
      cached := result;
      Record(Get(h));
    }

    /** SET NX: true when the key was set, and the client's refusal when it already existed. */
    method ReserveStatus(ghost h: nat) returns (reserved: Option<bool>)
      requires Valid() && Machine().At(h).AtReserve?
      modifies this`run, this`status
      ensures Valid()
      ensures reserved == if old(status).None? then Some(true) else if refusal.RepliesFalse? then Some(false) else None
      ensures run == Then(old(run), Reserve(h)) && Machine() == Apply(refusal, old(Machine()), Reserve(h))
    {
      if status.None? {
        status, reserved := Some(PENDING), Some(true);
      } else {
        reserved := if refusal.RepliesFalse? then Some(false) else None;
      }
      Record(Reserve(h));
    }

    /** Lookup and reservation: the reply if there is one already, else the resume has begun. */
    method Admit(ghost h: nat, kind: Kind, trouble: Trouble) returns (early: Option<Reply>)
      requires Valid() && h in Machine().handlers && Machine().handlers[h] == Handler(kind, AtGet)
      modifies this`run, this`status
      ensures Valid() && Served(old(run), run, h)
      ensures early.Some? ==> Machine().At(h) == Replied(early.value) && Machine().attempts == old(Machine()).attempts
      ensures early.Some? ==> status == old(status)
      ensures early.None? ==>
        status == if trouble.GetRaises? || trouble == ReserveRaises(false) || old(status).Some? then old(status)
                  else Some(PENDING)
      ensures early.None? ==> Machine().At(h) == Resuming(|old(Machine()).attempts|)
      ensures early.None? ==> Machine().attempts == old(Machine()).attempts + [Attempt(h, kind == Confirm(true), None)]
      ensures early.None? <==>
                || trouble.GetRaises?
                || (result.None? && (trouble.ReserveRaises? || old(status).None? || refusal.RepliesNone?))
      ensures !trouble.GetRaises? && result.Some? ==> early == Some(Answer(result.value))
      ensures !trouble.GetRaises? && !trouble.ReserveRaises? && result.None? ==>
        early == if old(status).Some? && refusal.RepliesFalse? then Some(InProgress(kind)) else None
    {
      if trouble.GetRaises? {
        Record(GetFault(h));
        return None;
      }
      var cached := GetResult(h);
      if cached.Some? {
        return Some(Answer(cached.value));
      }
      if trouble.ReserveRaises? {
        if trouble.applied && status.None? {
          status := Some(PENDING);
        }
        Record(ReserveFault(h, trouble.applied));
        return None;
      }
      var reserved := ReserveStatus(h);
      early := if reserved == Some(false) then Some(InProgress(kind)) else None;
    }

    /** SET of the result; an error is swallowed and skips the second SET. */
    method SaveResult(ghost h: nat, response: Payload, trouble: Trouble) returns (stored: bool)
      requires Valid() && Machine().At(h) == AtStore(response)
      modifies this`run, this`result
      ensures Valid() && stored == !trouble.StoreRaises?
      ensures Served(old(run), run, h) && Machine().attempts == old(Machine()).attempts
      ensures Machine().At(h) == if stored then AtDone(response) else Replied(Answer(response))
      ensures result == if trouble == StoreRaises(false) then old(result) else Some(response)
    {
      if trouble.StoreRaises? {
        if trouble.applied {
          result := Some(response);
        }
        Record(StoreFault(h, trouble.applied));
        return false;
      }
      result := Some(response);
      Record(Store(h));
      return true;
    }

    method SaveDone(ghost h: nat, response: Payload, trouble: Trouble)
      requires Valid() && Machine().At(h) == AtDone(response)
      modifies this`run, this`status
      ensures Valid() && Machine().At(h) == Replied(Answer(response))
      ensures Served(old(run), run, h) && Machine().attempts == old(Machine()).attempts
      ensures status == if trouble == DoneRaises(false) then old(status) else Some(DONE)
    {
      if trouble.DoneRaises? {
        if trouble.applied {
          status := Some(DONE);
        }
        Record(MarkDoneFault(h, trouble.applied));
        return;
      }
      status := Some(DONE);
      Record(MarkDone(h));
    }

    /** From the resume's return to the reply. */
    method Finish(ghost h: nat, response: Payload, trouble: Trouble)
      requires Valid() && Machine().At(h).Resuming? && Machine().At(h).attempt < |Machine().attempts|
      modifies this
      ensures Valid() && Served(old(run), run, h)
      ensures Machine().At(h) == Replied(Answer(response))
      ensures var i, before := old(Machine()).At(h).attempt, old(Machine()).attempts;
        Machine().attempts == before[i := before[i].(answer := Some(response))]
      ensures result == if trouble == StoreRaises(false) then old(result) else Some(response)
      ensures status == if trouble.StoreRaises? || trouble == DoneRaises(false) then old(status) else Some(DONE)
    {
      Record(Return(h, response));
      ghost var returned := run;
      var stored := SaveResult(h, response, trouble);
      ServedInTurn(old(run), returned, run, h);
      if stored {
        ghost var saved := run;
        SaveDone(h, response, trouble);
        ServedInTurn(old(run), saved, run, h);
      }
    }

    /**
     A confirm or cancel request served without interruption. Its effects are a run of handler `h`
     of the machine, so every theorem about runs applies to what it leaves behind.
     */
    method Handle(ghost h: nat, kind: Kind, response: Payload, trouble: Trouble) returns (reply: Reply, resumed: bool)
      requires Valid() && h !in Machine().handlers
      modifies this
      ensures Valid() && Served(old(run), run, h) && Machine().At(h) == Replied(reply)
      ensures resumed <==>
                || trouble.GetRaises?
                || (old(result).None? && (trouble.ReserveRaises? || old(status).None? || refusal.RepliesNone?))
      ensures !resumed ==> Machine().attempts == old(Machine()).attempts
      ensures resumed ==>
        && reply == Answer(response)
        && Machine().attempts == old(Machine()).attempts + [Attempt(h, kind == Confirm(true), Some(response))]
        && result == if trouble == StoreRaises(false) then old(result) else Some(response)
      ensures resumed && !trouble.StoreRaises? && trouble != DoneRaises(false) ==> status == Some(DONE)
      ensures resumed && (trouble.StoreRaises? || trouble == DoneRaises(false)) ==>
        status == if old(status).Some? then old(status) else Some(PENDING)
      ensures !resumed ==> reply == if old(result).Some? then Answer(old(result).value) else InProgress(kind)
      ensures !resumed ==> result == old(result) && status == old(status)
    {
      Record(Arrive(h, kind));
      ghost var arrived := run;
      var early := Admit(h, kind, trouble);
      ServedInTurn(old(run), arrived, run, h);
      if early.Some? {
        return early.value, false;
      }
      ghost var admitted := run;
      Finish(h, response, trouble);
      ServedInTurn(old(run), admitted, run, h);
      return Answer(response), true;
    }
  }
}
