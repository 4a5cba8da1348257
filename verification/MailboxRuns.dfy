/**
 Whole runs of the Pigeon mailbox: any sequence of endpoint calls and sweeps, with any clock readings
 (`now` is read before the lock is taken, so it need not grow from one call to the next).
 */
module MailboxRuns {
  import opened Results
  import opened MailboxModel
  import opened MailboxInvariant

  ghost predicate ValidRun(c: Config, db: Db, ops: seq<Op>)
    decreases |ops|
  {
    ops == [] || (OpOk(db, ops[0]) && ValidRun(c, Step(c, db, ops[0]), ops[1..]))
  }

  function Run(c: Config, db: Db, ops: seq<Op>): Db
    requires ValidRun(c, db, ops)
    decreases |ops|
  {
    if ops == [] then db else Run(c, Step(c, db, ops[0]), ops[1..])
  }

  lemma {:induction false} RunKeepsInv(c: Config, db: Db, ops: seq<Op>)
    requires Inv(c, db) && ValidRun(c, db, ops)
    ensures Inv(c, Run(c, db, ops))
    decreases |ops|
  {
    if ops != [] {
      StepKeepsInv(c, db, ops[0]);
      RunKeepsInv(c, Step(c, db, ops[0]), ops[1..]);
    }
  }

  /** In every state reachable from the fresh schema, a ticket is answered exactly when it is finished:
      once then, and by a younger row that goes back to its sender with the outcome. */
  lemma ReachableReplies(c: Config, ops: seq<Op>, o: int)
    requires ValidRun(c, EMPTY, ops)
    requires Has(Run(c, EMPTY, ops), o)
    ensures var db := Run(c, EMPTY, ops);
      && (Terminal(Row(db, o)) <==> exists u :: RepliesTo(db, u, o))
      && (forall u :: RepliesTo(db, u, o) ==> ReplyMatches(db, u, o))
      && (forall u, v :: RepliesTo(db, u, o) && RepliesTo(db, v, o) ==> u == v)
  {
    RunKeepsInv(c, EMPTY, ops);
    var db := Run(c, EMPTY, ops);
    forall u | RepliesTo(db, u, o) ensures ReplyMatches(db, u, o) {}
  }

  // ----- conservation of rows

  function CountTerminal(tasks: seq<Task>): nat {
    if tasks == [] then 0
    else CountTerminal(tasks[..|tasks| - 1]) + (if Terminal(tasks[|tasks| - 1]) then 1 else 0)
  }

  lemma {:induction false} CountAfterUpdate(tasks: seq<Task>, i: nat, row: Task)
    requires i < |tasks| && !Terminal(tasks[i])
    ensures CountTerminal(tasks[i := row]) == CountTerminal(tasks) + (if Terminal(row) then 1 else 0)
    decreases |tasks|
  {
    var last := |tasks| - 1;
    if i == last {
      assert tasks[i := row][..last] == tasks[..last];
    } else {
      assert tasks[i := row][..last] == tasks[..last][i := row];
      CountAfterUpdate(tasks[..last], i, row);
    }
  }

  lemma CountAfterAppend(tasks: seq<Task>, row: Task)
    ensures CountTerminal(tasks + [row]) == CountTerminal(tasks) + (if Terminal(row) then 1 else 0)
  {
    assert (tasks + [row])[..|tasks|] == tasks;
  }

  lemma ReleaseConserves(c: Config, db: Db, t: int, now: int, msg: string)
    requires Has(db, t) && Row(db, t).status.Claimed?
    ensures var next := RequeueOrDeadLetter(c, db, t, Row(db, t), now, msg);
      |next.tasks| + CountTerminal(db.tasks) == |db.tasks| + CountTerminal(next.tasks)
  {
    var row := ReleasedRow(c, Row(db, t), msg);
    CountAfterUpdate(db.tasks, t - 1, row);
    CountAfterAppend(SetRow(db, t, row).tasks, ReplyRow(db.agents, Row(db, t), t, Failed, None, Some(msg), now));
  }

  lemma {:induction false} SweepConserves(c: Config, db: Db, rows: seq<nat>, now: int)
    requires AreExpired(db, now, rows)
    ensures var next := SweepRows(c, db, db, rows, now);
      |next.tasks| + CountTerminal(db.tasks) == |db.tasks| + CountTerminal(next.tasks)
    decreases |rows|
  {
    if rows != [] {
      var last := |rows| - 1;
      SweepConserves(c, db, rows[..last], now);
      SweepEffect(c, db, rows[..last], now);
      assert rows[last] !in rows[..last];
      var mid := SweepRows(c, db, db, rows[..last], now);
      assert Row(mid, rows[last]) == Row(db, rows[last]);
      ReleaseConserves(c, mid, rows[last], now, SWEEP_ERROR);
    }
  }

  function Accepted(op: Op): nat {
    if op.Send? && SendError(op.priority).None? then 1 else 0
  }

  function AcceptedSends(ops: seq<Op>): nat {
    if ops == [] then 0 else Accepted(ops[0]) + AcceptedSends(ops[1..])
  }

  lemma StepConserves(c: Config, db: Db, op: Op)
    requires OpOk(db, op)
    ensures |Step(c, db, op).tasks| + CountTerminal(db.tasks)
         == |db.tasks| + CountTerminal(Step(c, db, op).tasks) + Accepted(op)
  {
    hide CountTerminal;
    match op
    case Register(agent, agentType, status, now) =>
    case Send(sender, receiver, project, priority, payload, now) =>
      CountAfterAppend(db.tasks, SentRow(db, sender, receiver, project, priority, payload, now));
    case Poll(agent, now) =>
      var next := NextPending(db, agent);
      if next.Some? {
        CountAfterUpdate(db.tasks, next.value - 1, ClaimedRow(c, Row(db, next.value), now));
      }
    case Complete(t, result, caller, now) =>
      if CompleteError(db, t, caller).None? {
        var row := DoneRow(Row(db, t), result, now);
        CountAfterUpdate(db.tasks, t - 1, row);
        CountAfterAppend(SetRow(db, t, row).tasks, ReplyRow(db.agents, Row(db, t), t, Done, Some(result), None, now));
      }
    case Fail(t, agent, error, now) =>
      if FailError(db, t, agent).None? {
        ReleaseConserves(c, db, t, now, error);
      }
    case Sweep(rows, now) =>
      SweepConserves(c, db, rows, now);
  }

  /** Every row was sent or is the reply to a finished ticket: rows = accepted sends + finished tickets. */
  lemma {:induction false} RunConserves(c: Config, db: Db, ops: seq<Op>)
    requires ValidRun(c, db, ops)
    ensures |Run(c, db, ops).tasks| + CountTerminal(db.tasks)
         == |db.tasks| + CountTerminal(Run(c, db, ops).tasks) + AcceptedSends(ops)
    decreases |ops|
  {
    if ops != [] {
      StepConserves(c, db, ops[0]);
      RunConserves(c, Step(c, db, ops[0]), ops[1..]);
    }
  }

  // ----- bounded delivery

  /** Whether the call hands out ticket `t`. */
  predicate Claims(db: Db, op: Op, t: int) {
    op.Poll? && NextPending(db, op.agent).Some? && NextPending(db, op.agent).value == t
  }

  function ClaimCount(c: Config, db: Db, ops: seq<Op>, t: int): nat
    requires ValidRun(c, db, ops)
    decreases |ops|
  {
    if ops == [] then 0
    else (if Claims(db, ops[0], t) then 1 else 0) + ClaimCount(c, Step(c, db, ops[0]), ops[1..], t)
  }

  /** The claims a row accounts for: one for each spent attempt, and one more unless it is pending. */
  function Ledger(db: Db, t: int): nat {
    if !Has(db, t) then 0
    else Row(db, t).attempts + (if Row(db, t).status.Pending? then 0 else 1)
  }

  lemma StepKeepsLedger(c: Config, db: Db, op: Op, t: int)
    requires Inv(c, db) && OpOk(db, op)
    ensures Ledger(Step(c, db, op), t) == Ledger(db, t) + (if Claims(db, op, t) then 1 else 0)
  {
    if op.Sweep? {
      SweepKeepsLedger(c, db, op.rows, op.now, t);
    }
  }

  lemma SweepKeepsLedger(c: Config, db: Db, rows: seq<nat>, now: int, t: int)
    requires Inv(c, db) && IsSelection(db, now, rows)
    ensures Ledger(SweepRows(c, db, db, rows, now), t) == Ledger(db, t)
  {
    SweepEffect(c, db, rows, now);
    var next := SweepRows(c, db, db, rows, now);
    if Has(db, t) {
      assert next.tasks[t - 1] == Row(next, t) && db.tasks[t - 1] == Row(db, t);
    } else if Has(next, t) {
      assert DeadLetterReply(c, db, rows, now, next.tasks[t - 1]);
    }
  }

  lemma {:induction false} RunKeepsLedger(c: Config, db: Db, ops: seq<Op>, t: int)
    requires Inv(c, db) && ValidRun(c, db, ops)
    ensures Ledger(Run(c, db, ops), t) == Ledger(db, t) + ClaimCount(c, db, ops, t)
    decreases |ops|
  {
    if ops != [] {
      StepKeepsInv(c, db, ops[0]);
      StepKeepsLedger(c, db, ops[0], t);
      RunKeepsLedger(c, Step(c, db, ops[0]), ops[1..], t);
    }
  }

  /** At least once, but never more than `maxAttempts + 1` times: the number of times a ticket was handed
      out is exactly what its row records, and no run exceeds the bound. */
  lemma DeliveryIsBounded(c: Config, ops: seq<Op>, t: int)
    requires ValidRun(c, EMPTY, ops)
    ensures ClaimCount(c, EMPTY, ops, t) == Ledger(Run(c, EMPTY, ops), t)
    ensures ClaimCount(c, EMPTY, ops, t) <= MaxRetries(c) + 1
  {
    RunKeepsLedger(c, EMPTY, ops, t);
    RunKeepsInv(c, EMPTY, ops);
    var db := Run(c, EMPTY, ops);
    if Has(db, t) {
      assert RowOk(c, db.tasks[t - 1]);
    }
  }

  /** The number of calls of the run that change the row of ticket `t`. */
  function Changes(c: Config, db: Db, ops: seq<Op>, t: int): nat
    requires ValidRun(c, db, ops) && Has(db, t)
    decreases |ops|
  {
    if ops == [] then 0
    else
      StepLowersRank(c, db, ops[0], t);
      var next := Step(c, db, ops[0]);
      (if Row(next, t) == Row(db, t) then 0 else 1) + Changes(c, next, ops[1..], t)
  }

  lemma {:induction false} ChangesAreBounded(c: Config, db: Db, ops: seq<Op>, t: int)
    requires ValidRun(c, db, ops) && Has(db, t)
    ensures Has(Run(c, db, ops), t)
    ensures Changes(c, db, ops, t) + Rank(c, Row(Run(c, db, ops), t)) <= Rank(c, Row(db, t))
    ensures Changes(c, db, ops, t) == 0 ==> Row(Run(c, db, ops), t) == Row(db, t)
    decreases |ops|
  {
    if ops != [] {
      StepLowersRank(c, db, ops[0], t);
      ChangesAreBounded(c, Step(c, db, ops[0]), ops[1..], t);
    }
  }

  /** `done` and `failed` are absorbing: a finished row, its result included, is never written again. */
  lemma FinishedIsFinal(c: Config, db: Db, ops: seq<Op>, t: int)
    requires ValidRun(c, db, ops) && Has(db, t) && Terminal(Row(db, t))
    ensures Has(Run(c, db, ops), t) && Row(Run(c, db, ops), t) == Row(db, t)
  {
    ChangesAreBounded(c, db, ops, t);
  }
}
