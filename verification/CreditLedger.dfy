/**
 The credit balance and transaction log of app/billing_service.py, over the reals.

 A debit stops at zero but logs its full amount; a refund adds its full amount. The balance is
 thus a reflected walk: the theorems give its closed form in terms of the logged amounts.
 */
module CreditLedger {

  datatype Operation = Debit(user: string, cost: real) | Refund(user: string, cost: real)

  datatype Transaction = Transaction(user: string, amount: real, before: real, after: real, cost: real)

  function Max(a: real, b: real): real {
    if a < b then b else a
  }

  function UsdToCredits(rate: real, usd: real): real {
    usd * rate
  }

  /** The amount the log records: negative for a debit, whatever the balance allowed. */
  function Amount(rate: real, op: Operation): real {
    match op
    case Debit(_, cost) => -UsdToCredits(rate, cost)
    case Refund(_, cost) => UsdToCredits(rate, cost)
  }

  function NewBalance(rate: real, balance: real, op: Operation): real {
    match op
    case Debit(_, cost) => Max(0.0, balance - UsdToCredits(rate, cost))
    case Refund(_, cost) => balance + UsdToCredits(rate, cost)
  }

  function Line(rate: real, balance: real, op: Operation): Transaction {
    Transaction(op.user, Amount(rate, op), balance, NewBalance(rate, balance, op), op.cost)
  }

  /** The outcome of the affordability test; `None` for a user the service does not know. */
  predicate CanAfford(rate: real, balance: real, cost: real, requirePayment: bool) {
    !requirePayment || !(balance < UsdToCredits(rate, cost))
  }

  // ---------- the balance of one user ----------

  function Balance(rate: real, start: real, ops: seq<Operation>): real {
    if ops == [] then start
    else NewBalance(rate, Balance(rate, start, ops[..|ops| - 1]), ops[|ops| - 1])
  }

  /** The sum of the logged amounts. */
  function Logged(rate: real, ops: seq<Operation>): real {
    if ops == [] then 0.0 else Logged(rate, ops[..|ops| - 1]) + Amount(rate, ops[|ops| - 1])
  }

  /** How far the logged amounts ever ran below zero. */
  function Deepest(rate: real, ops: seq<Operation>): (depth: real)
    ensures depth >= 0.0
    ensures forall k | 0 <= k <= |ops| :: -Logged(rate, ops[..k]) <= depth
    ensures exists k | 0 <= k <= |ops| :: depth == -Logged(rate, ops[..k])
  {
    if ops == [] then
      assert -Logged(rate, ops[..0]) == 0.0;
      0.0
    else
      var shorter := ops[..|ops| - 1];
      assert ops[..|ops|] == ops;
      assert forall k | 0 <= k <= |shorter| :: ops[..k] == shorter[..k];
      Max(Deepest(rate, shorter), -Logged(rate, ops))
  }

  /** What a debit could not take, because the balance stops at zero. */
  function Shortfall(rate: real, balance: real, op: Operation): real {
    if op.Debit? then Max(0.0, UsdToCredits(rate, op.cost) - balance) else 0.0
  }

  function Shortfalls(rate: real, start: real, ops: seq<Operation>): real {
    if ops == [] then 0.0
    else
      var before := ops[..|ops| - 1];
      Shortfalls(rate, start, before) + Shortfall(rate, Balance(rate, start, before), ops[|ops| - 1])
  }

  predicate NonNegativeCosts(ops: seq<Operation>) {
    forall op | op in ops :: op.cost >= 0.0
  }

  lemma CreditsAreNonNegative(rate: real, usd: real)
    requires rate >= 0.0 && usd >= 0.0
    ensures UsdToCredits(rate, usd) >= 0.0
  {
  }

  lemma {:induction false} BalanceIsNonNegative(rate: real, start: real, ops: seq<Operation>)
    requires rate >= 0.0 && start >= 0.0 && NonNegativeCosts(ops)
    ensures Balance(rate, start, ops) >= 0.0
  {
    if ops != [] {
      BalanceIsNonNegative(rate, start, ops[..|ops| - 1]);
      CreditsAreNonNegative(rate, ops[|ops| - 1].cost);
    }
  }

  /** The closed form: the balance is the logged sum, lifted by the start or by the deepest dip. */
  lemma {:induction false} BalanceIsReflectedWalk(rate: real, start: real, ops: seq<Operation>)
    requires rate >= 0.0 && start >= 0.0 && NonNegativeCosts(ops)
    ensures Balance(rate, start, ops) == Logged(rate, ops) + Max(start, Deepest(rate, ops))
  {
    if ops != [] {
      var before, op := ops[..|ops| - 1], ops[|ops| - 1];
      BalanceIsReflectedWalk(rate, start, before);
      BalanceIsNonNegative(rate, start, before);
      CreditsAreNonNegative(rate, op.cost);
    }
  }

  /** For any start and any costs: the clamped shortfalls are exactly what the log does not explain. */
  lemma {:induction false} ShortfallsExplainTheLog(rate: real, start: real, ops: seq<Operation>)
    ensures Balance(rate, start, ops) == start + Logged(rate, ops) + Shortfalls(rate, start, ops)
  {
    if ops != [] {
      ShortfallsExplainTheLog(rate, start, ops[..|ops| - 1]);
    }
  }

  /** The two laws together: all that was ever clamped is the excess of the deepest dip over the start. */
  lemma ShortfallsAreTheExcessDip(rate: real, start: real, ops: seq<Operation>)
    requires rate >= 0.0 && start >= 0.0 && NonNegativeCosts(ops)
    ensures Shortfalls(rate, start, ops) == Max(0.0, Deepest(rate, ops) - start)
  {
    BalanceIsReflectedWalk(rate, start, ops);
    ShortfallsExplainTheLog(rate, start, ops);
  }

  // ---------- one transaction ----------

  /** The log line of a debit adds up exactly when the affordability test would have passed. */
  lemma DebitAddsUpIffAffordable(rate: real, balance: real, user: string, cost: real)
    ensures var line := Line(rate, balance, Debit(user, cost));
      line.after == line.before + line.amount <==> CanAfford(rate, balance, cost, true)
  {
  }

  /** The balance after two operations is that of the second after that of the first. */
  lemma DebitThenRefund(rate: real, balance: real, debit: Operation, refund: Operation)
    ensures Balance(rate, balance, [debit, refund]) == NewBalance(rate, NewBalance(rate, balance, debit), refund)
  {
    assert [debit, refund][..1] == [debit];
    assert [debit][..0] == [];
    assert Balance(rate, balance, [debit]) == NewBalance(rate, balance, debit);
  }

  lemma RefundOfDebit(rate: real, balance: real, user: string, cost: real)
    ensures NewBalance(rate, NewBalance(rate, balance, Debit(user, cost)), Refund(user, cost)) ==
              Max(balance, UsdToCredits(rate, cost))
  {
  }

  /** Refunding a debit restores the balance exactly when the debit was affordable. */
  lemma RefundRestoresIffAffordable(rate: real, balance: real, user: string, cost: real)
    ensures Balance(rate, balance, [Debit(user, cost), Refund(user, cost)]) == Max(balance, UsdToCredits(rate, cost))
    ensures Balance(rate, balance, [Debit(user, cost), Refund(user, cost)]) == balance <==>
        CanAfford(rate, balance, cost, true)
  {
    DebitThenRefund(rate, balance, Debit(user, cost), Refund(user, cost));
    RefundOfDebit(rate, balance, user, cost);
  }

  /** A debit never raises a balance, whatever it costs, exactly when the balance is not overdrawn. */
  lemma DebitsNeverRaiseIffNotOverdrawn(rate: real, balance: real, user: string)
    requires rate >= 0.0
    ensures (forall cost | cost >= 0.0 :: NewBalance(rate, balance, Debit(user, cost)) <= balance) <==> balance >= 0.0
  {
    if balance >= 0.0 {
      forall cost | cost >= 0.0
        ensures NewBalance(rate, balance, Debit(user, cost)) <= balance
      {
        CreditsAreNonNegative(rate, cost);
      }
    } else {
      assert NewBalance(rate, balance, Debit(user, 0.0)) > balance;
    }
  }

  // ---------- the log of one user ----------

  function Log(rate: real, start: real, ops: seq<Operation>): seq<Transaction> {
    if ops == [] then []
    else
      var before := ops[..|ops| - 1];
      Log(rate, start, before) + [Line(rate, Balance(rate, start, before), ops[|ops| - 1])]
  }

  /** Each line starts where the previous one ended. */
  predicate Chained(start: real, log: seq<Transaction>) {
    && (log != [] ==> log[0].before == start)
    && forall i | 0 < i < |log| :: log[i].before == log[i - 1].after
  }

  function Closing(start: real, log: seq<Transaction>): real {
    if log == [] then start else log[|log| - 1].after
  }

  lemma {:induction false} LogChains(rate: real, start: real, ops: seq<Operation>)
    ensures |Log(rate, start, ops)| == |ops|
    ensures Chained(start, Log(rate, start, ops))
    ensures Closing(start, Log(rate, start, ops)) == Balance(rate, start, ops)
    ensures forall i | 0 <= i < |ops| :: Log(rate, start, ops)[i].amount == Amount(rate, ops[i])
  {
    if ops != [] {
      var before := ops[..|ops| - 1];
      LogChains(rate, start, before);
      var log, shorter := Log(rate, start, ops), Log(rate, start, before);
      assert log == shorter + [Line(rate, Balance(rate, start, before), ops[|ops| - 1])];
      forall i | 0 < i < |log|
        ensures log[i].before == log[i - 1].after
      {
        assert log[i - 1] == shorter[i - 1];
        if i < |shorter| {
          assert log[i] == shorter[i];
        } else {
          assert log[i].before == Closing(start, shorter);
        }
      }
      assert forall i | 0 <= i < |shorter| :: log[i] == shorter[i] && before[i] == ops[i];
    }
  }

  // ---------- all users ----------

  function OpsOf(user: string, ops: seq<Operation>): seq<Operation> {
    if ops == [] then []
    else
      var last := ops[|ops| - 1];
      OpsOf(user, ops[..|ops| - 1]) + if last.user == user then [last] else []
  }

  function LinesOf(user: string, log: seq<Transaction>): seq<Transaction> {
    if log == [] then []
    else
      var last := log[|log| - 1];
      LinesOf(user, log[..|log| - 1]) + if last.user == user then [last] else []
  }

  lemma LinesOfSnoc(user: string, log: seq<Transaction>, line: Transaction)
    ensures LinesOf(user, log + [line]) == LinesOf(user, log) + if line.user == user then [line] else []
  {
    assert (log + [line])[..|log|] == log;
  }

  lemma OpsOfSnoc(user: string, ops: seq<Operation>, op: Operation)
    ensures OpsOf(user, ops + [op]) == OpsOf(user, ops) + if op.user == user then [op] else []
  {
    assert (ops + [op])[..|ops|] == ops;
  }

  lemma BalanceSnoc(rate: real, start: real, ops: seq<Operation>, op: Operation)
    ensures Balance(rate, start, ops + [op]) == NewBalance(rate, Balance(rate, start, ops), op)
    ensures Log(rate, start, ops + [op]) == Log(rate, start, ops) + [Line(rate, Balance(rate, start, ops), op)]
  {
    assert (ops + [op])[..|ops|] == ops;
  }

  /** The user's balance and log lines are what the user's own operations make of the opening balance. */
  ghost predicate Kept(rate: real, opening: real, balance: real, user: string, ops: seq<Operation>,
                       log: seq<Transaction>) {
    && balance == Balance(rate, opening, OpsOf(user, ops))
    && LinesOf(user, log) == Log(rate, opening, OpsOf(user, ops))
  }

  lemma SettlingKeepsOthers(rate: real, opening: real, balance: real, user: string, ops: seq<Operation>,
                            log: seq<Transaction>, op: Operation, line: Transaction)
    requires Kept(rate, opening, balance, user, ops, log) && op.user != user && line.user != user
    ensures Kept(rate, opening, balance, user, ops + [op], log + [line])
  {
    OpsOfSnoc(user, ops, op);
    LinesOfSnoc(user, log, line);
    assert OpsOf(user, ops) + [] == OpsOf(user, ops);
    assert LinesOf(user, log) + [] == LinesOf(user, log);
  }

  lemma SettlingKeepsOwn(rate: real, opening: real, balance: real, ops: seq<Operation>, log: seq<Transaction>,
                         op: Operation)
    requires Kept(rate, opening, balance, op.user, ops, log)
    ensures Kept(rate, opening, NewBalance(rate, balance, op), op.user, ops + [op], log + [Line(rate, balance, op)])
  {
    OpsOfSnoc(op.user, ops, op);
    LinesOfSnoc(op.user, log, Line(rate, balance, op));
    BalanceSnoc(rate, opening, OpsOf(op.user, ops), op);
  }

  // ---------- lines whose commit fails ----------

  /** The lines that were committed: a failed commit is rolled back and swallowed. */
  function Committed(due: seq<Transaction>, commits: seq<bool>): seq<Transaction>
    requires |due| == |commits|
  {
    if due == [] then []
    else
      var n := |due| - 1;
      Committed(due[..n], commits[..n]) + if commits[n] then [due[n]] else []
  }

  lemma CommittedSnoc(due: seq<Transaction>, commits: seq<bool>, line: Transaction, committed: bool)
    requires |due| == |commits|
    ensures Committed(due + [line], commits + [committed]) == Committed(due, commits) + if committed then [line] else []
  {
    assert (due + [line])[..|due|] == due && (commits + [committed])[..|due|] == commits;
  }

  lemma {:induction false} CommittedIsNoLonger(due: seq<Transaction>, commits: seq<bool>)
    requires |due| == |commits|
    ensures |Committed(due, commits)| <= |due|
    ensures |Committed(due, commits)| == |due| <==> forall i | 0 <= i < |commits| :: commits[i]
  {
    if due != [] {
      CommittedIsNoLonger(due[..|due| - 1], commits[..|due| - 1]);
    }
  }

  /** The log is complete exactly when every commit succeeded. */
  lemma {:induction false} LogIsCompleteIffAllCommitted(due: seq<Transaction>, commits: seq<bool>)
    requires |due| == |commits|
    ensures Committed(due, commits) == due <==> forall i | 0 <= i < |commits| :: commits[i]
  {
    CommittedIsNoLonger(due, commits);
    if due != [] {
      LogIsCompleteIffAllCommitted(due[..|due| - 1], commits[..|due| - 1]);
      assert due == due[..|due| - 1] + [due[|due| - 1]];
    }
  }

  // ---------- what the operations promise, in terms of the balances alone ----------

  /** The new balances are the old ones but for one user's. */
  ghost predicate Leaves(before: map<string, real>, after: map<string, real>, user: string, balance: real) {
    && after.Keys == before.Keys && user in after && after[user] == balance
    && forall other | other in before && other != user :: after[other] == before[other]
  }

  /** A debit takes the cost at the rate, but no more than there is. */
  ghost function AfterDebit(rate: real, balance: real, cost: real): real {
    if balance < cost * rate then 0.0 else balance - cost * rate
  }

  /** A refund gives the cost at the rate. */
  ghost function AfterRefund(rate: real, balance: real, cost: real): real {
    balance + cost * rate
  }

  lemma DebitTakesTheCost(rate: real, balance: real, user: string, cost: real)
    ensures NewBalance(rate, balance, Debit(user, cost)) == AfterDebit(rate, balance, cost)
    ensures Line(rate, balance, Debit(user, cost)) ==
              Transaction(user, -(cost * rate), balance, AfterDebit(rate, balance, cost), cost)
  {
  }

  lemma RefundGivesTheCost(rate: real, balance: real, user: string, cost: real)
    ensures NewBalance(rate, balance, Refund(user, cost)) == AfterRefund(rate, balance, cost)
    ensures Line(rate, balance, Refund(user, cost)) ==
              Transaction(user, cost * rate, balance, AfterRefund(rate, balance, cost), cost)
  {
  }

  lemma SettingLeaves(before: map<string, real>, user: string, balance: real)
    requires user in before
    ensures Leaves(before, before[user := balance], user, balance)
  {
  }

  /** What raises: the lookup, or the update, which may have taken effect all the same. */
  datatype Trouble = NoTrouble | LookupRaises | UpdateRaises(applied: bool)

  /**
   The billing service with the balances it keeps and the log it appends to. `opening` and
   `accepted` record the balances at the start and the operations on known users since, `due` the
   lines that they amount to, and `commits` which of these were logged.
   */
  class PhotoBilling {
    const rate: real
    var credits: map<string, real>
    var log: seq<Transaction>
    ghost const opening: map<string, real>
    ghost var accepted: seq<Operation>
    ghost var due: seq<Transaction>
    ghost var commits: seq<bool>

    /** Every balance and every user's part of the lines follow from that user's operations alone. */
    ghost predicate Valid()
      reads this
    {
      && credits.Keys == opening.Keys
      && |commits| == |due| && log == Committed(due, commits)
      && forall user | user in opening :: Kept(rate, opening[user], credits[user], user, accepted, due)
    }

    constructor (rate: real, credits: map<string, real>)
      ensures Valid() && this.rate == rate && opening == credits && accepted == [] && log == [] && commits == []
    {
      this.rate, this.credits, this.opening := rate, credits, credits;
      accepted, log, due, commits := [], [], [], [];
    }

    /** An unknown user has balance zero. */
    method CheckUserCredits(user: string) returns (balance: real)
      ensures balance == if user in credits then credits[user] else 0.0
    {
      balance := if user in credits then credits[user] else 0.0;
    }

    /** The line that a debit of the user would write adds up. */
    predicate NextDebitAddsUp(user: string, cost: real)
      reads this
      requires user in credits
    {
      var line := Line(rate, credits[user], Debit(user, cost));
      line.after == line.before + line.amount
    }

    /** `fails` says that the lookup of the balance raises. */
    method ValidateCanAfford(user: string, cost: real, requirePayment: bool, fails: bool) returns (ok: bool)
      ensures !requirePayment ==> ok
      ensures requirePayment && fails ==> !ok
      ensures requirePayment && !fails && user in credits ==> (ok <==> NextDebitAddsUp(user, cost))
      ensures requirePayment && !fails ==> (ok <==> (if user in credits then credits[user] else 0.0) >= cost * rate)
    {
      if !requirePayment {
        return true;
      }
      if fails {
        return false;
      }
      var balance := CheckUserCredits(user);
      if user in credits {
        DebitAddsUpIffAffordable(rate, balance, user, cost);
      }
      if balance < UsdToCredits(rate, cost) {
        return false;
      }
      return true;
    }

    /** Appends the line unless its commit fails. */
    method LogTransaction(line: Transaction, committed: bool)
      requires |commits| == |due| && log == Committed(due, commits)
      modifies this`log, this`due, this`commits
      ensures due == old(due) + [line] && commits == old(commits) + [committed]
      ensures log == old(log) + if committed then [line] else []
      ensures |commits| == |due| && log == Committed(due, commits)
    {
      CommittedSnoc(due, commits, line, committed);
      if committed {
        log := log + [line];
      } else {
        assert log + [] == log;
      }
      due, commits := due + [line], commits + [committed];
    }

    /** Writes the new balance and the log line of an operation on a known user. */
    method Settle(op: Operation, before: real, after: real, amount: real, committed: bool)
      requires Valid() && op.user in credits && before == credits[op.user]
      requires Line(rate, before, op) == Transaction(op.user, amount, before, after, op.cost)
      modifies this
      ensures Valid() && accepted == old(accepted) + [op] && commits == old(commits) + [committed]
      ensures Leaves(old(credits), credits, op.user, after)
      ensures log == old(log) + if committed then [Line(rate, before, op)] else []
    {
      SettingLeaves(credits, op.user, after);
      credits := credits[op.user := after];
      LogTransaction(Transaction(op.user, amount, before, after, op.cost), committed);
      accepted := accepted + [op];
      forall user | user in opening
        ensures Kept(rate, opening[user], credits[user], user, accepted, due)
      {
        if user == op.user {
          SettlingKeepsOwn(rate, opening[user], before, old(accepted), old(due), op);
        } else {
          SettlingKeepsOthers(rate, opening[user], credits[user], user, old(accepted), old(due), op,
                              Line(rate, before, op));
        }
      }
    }

    /** The balance is written, if only by an update that raises afterwards and is not logged. */
    ghost predicate Written(credits: map<string, real>, user: string, trouble: Trouble) {
      user in credits && (trouble.NoTrouble? || trouble == UpdateRaises(true))
    }

    /** The balances before and after an operation, and the log: one balance set, one line added if `logged`. */
    ghost predicate Settled(creditsBefore: map<string, real>, logBefore: seq<Transaction>,
                            acceptedBefore: seq<Operation>,
                            op: Operation, amount: real, after: real, logged: bool)
      requires op.user in creditsBefore
      reads this
    {
      && Leaves(creditsBefore, credits, op.user, after) && accepted == acceptedBefore + [op]
      && log == logBefore + if logged
          then [Transaction(op.user, amount, creditsBefore[op.user], after, op.cost)] else []
    }

    /** The update of the user and the log, when the user is known and the balance was read. */
    method WriteBack(op: Operation, before: real, after: real, amount: real, trouble: Trouble, committed: bool)
      returns (ok: bool, newBalance: real)
      requires Valid() && op.user in credits && before == credits[op.user] && !trouble.LookupRaises?
      requires Line(rate, before, op) == Transaction(op.user, amount, before, after, op.cost)
      modifies this
      ensures Valid() && ok == trouble.NoTrouble? && newBalance == if ok then after else 0.0
      ensures Written(old(credits), op.user, trouble) ==>
        && Settled(old(credits), old(log), old(accepted), op, amount, after, ok && committed)
        && commits == old(commits) + [ok && committed]
      ensures !Written(old(credits), op.user, trouble) ==>
        credits == old(credits) && log == old(log) && accepted == old(accepted) && commits == old(commits)
    {
      if trouble.UpdateRaises? {
        if trouble.applied {
          Settle(op, before, after, amount, false);
        }
        return false, 0.0;
      }
      Settle(op, before, after, amount, committed);
      return true, after;
    }

    /** `committed` says whether the commit of the line succeeds. */
    method DebitUserCredits(user: string, cost: real, trouble: Trouble, committed: bool)
      returns (ok: bool, newBalance: real)
      requires Valid()
      modifies this
      ensures Valid() && ok == (trouble.NoTrouble? && user in old(credits))
      ensures newBalance == if ok then AfterDebit(rate, old(credits)[user], cost) else 0.0
      ensures Written(old(credits), user, trouble) ==>
        && Settled(old(credits), old(log), old(accepted), Debit(user, cost), -(cost * rate),
                   AfterDebit(rate, old(credits)[user], cost), ok && committed)
        && commits == old(commits) + [ok && committed]
      ensures !Written(old(credits), user, trouble) ==>
        credits == old(credits) && log == old(log) && accepted == old(accepted) && commits == old(commits)
    {
      if trouble.LookupRaises? {
        return false, 0.0;
      }
      var creditsToDebit := UsdToCredits(rate, cost);
      var balanceBefore := CheckUserCredits(user);
      if user !in credits {
        return false, 0.0;
      }
      var balanceAfter := Max(0.0, balanceBefore - creditsToDebit);
      DebitTakesTheCost(rate, balanceBefore, user, cost);
      ok, newBalance := WriteBack(Debit(user, cost), balanceBefore, balanceAfter, -creditsToDebit, trouble, committed);
    }

    method RefundUserCredits(user: string, cost: real, trouble: Trouble, committed: bool)
      returns (ok: bool, newBalance: real)
      requires Valid()
      modifies this
      ensures Valid() && ok == (trouble.NoTrouble? && user in old(credits))
      ensures newBalance == if ok then AfterRefund(rate, old(credits)[user], cost) else 0.0
      ensures Written(old(credits), user, trouble) ==>
        && Settled(old(credits), old(log), old(accepted), Refund(user, cost), cost * rate,
                   AfterRefund(rate, old(credits)[user], cost), ok && committed)
        && commits == old(commits) + [ok && committed]
      ensures !Written(old(credits), user, trouble) ==>
        credits == old(credits) && log == old(log) && accepted == old(accepted) && commits == old(commits)
    {
      if trouble.LookupRaises? {
        return false, 0.0;
      }
      var creditsToRefund := UsdToCredits(rate, cost);
      var balanceBefore := CheckUserCredits(user);
      if user !in credits {
        return false, 0.0;
      }
      var balanceAfter := balanceBefore + creditsToRefund;
      RefundGivesTheCost(rate, balanceBefore, user, cost);
      ok, newBalance := WriteBack(Refund(user, cost), balanceBefore, balanceAfter, creditsToRefund, trouble, committed);
    }
  }

  /**
   In every valid state of the service each user's balance obeys the closed form, whatever was
   committed. The log holds all lines exactly when every commit succeeded, and then each user's
   lines chain and end at the balance.
   */
  lemma ServiceObeysTheLaws(service: PhotoBilling, user: string)
    requires service.Valid() && user in service.opening
    requires service.rate >= 0.0 && service.opening[user] >= 0.0 && NonNegativeCosts(OpsOf(user, service.accepted))
    ensures var ops := OpsOf(user, service.accepted);
      service.credits[user] == Logged(service.rate, ops) + Max(service.opening[user], Deepest(service.rate, ops))
    ensures service.log == service.due <==> forall i | 0 <= i < |service.commits| :: service.commits[i]
    ensures service.log == service.due ==>
      && Chained(service.opening[user], LinesOf(user, service.log))
      && Closing(service.opening[user], LinesOf(user, service.log)) == service.credits[user]
  {
    var ops := OpsOf(user, service.accepted);
    BalanceIsReflectedWalk(service.rate, service.opening[user], ops);
    LogChains(service.rate, service.opening[user], ops);
    LogIsCompleteIffAllCommitted(service.due, service.commits);
  }
}
