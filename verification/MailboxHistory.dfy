/**
 What a run of the Pigeon mailbox tells about one ticket (pigeon/dispatcher.py:88-246): what was sent is what is handed
 out, a claim lasts until its deadline, and a message is immediate exactly when its receiver was last seen loaded.
 */
module MailboxHistory {
  import opened Results
  import opened MailboxModel
  import opened MailboxInvariant
  import opened MailboxRuns

  // ----- what was sent

  /** The part of a row that is written once. */
  datatype Letter = Letter(sender: string, receiver: string, project: string, priority: int, payload: Payload,
                           mode: DeliveryMode, replyTo: Option<nat>, createdAt: int)

  function LetterOf(row: Task): Letter {
    Letter(row.sender, row.receiver, row.project, row.priority, row.payload, row.mode, row.replyTo, row.createdAt)
  }

  lemma StepKeepsLetter(c: Config, db: Db, op: Op, t: int)
    requires OpOk(db, op) && Has(db, t)
    ensures Has(Step(c, db, op), t) && LetterOf(Row(Step(c, db, op), t)) == LetterOf(Row(db, t))
  {
    if op.Sweep? {
      SweepEffect(c, db, op.rows, op.now);
      assert db.tasks[t - 1] == Row(db, t);
    }
  }

  lemma {:induction false} RunKeepsLetter(c: Config, db: Db, ops: seq<Op>, t: int)
    requires ValidRun(c, db, ops) && Has(db, t)
    ensures Has(Run(c, db, ops), t) && LetterOf(Row(Run(c, db, ops), t)) == LetterOf(Row(db, t))
    decreases |ops|
  {
    hide Step, LetterOf;
    if ops != [] {
      StepKeepsLetter(c, db, ops[0], t);
      RunKeepsLetter(c, Step(c, db, ops[0]), ops[1..], t);
    }
  }

  /** What is accepted from a sender is what any later poll hands out under that ticket, and to its receiver alone. */
  lemma SentIsDelivered(c: Config, db: Db, send: Op, ops: seq<Op>)
    requires send.Send? && 0 <= send.priority <= 100 && ValidRun(c, Step(c, db, send), ops)
    ensures var t, end := |db.tasks| + 1, Run(c, Step(c, db, send), ops);
      && !Has(db, t) && Has(end, t)
      && Row(end, t).sender == send.sender && Row(end, t).receiver == send.receiver
      && Row(end, t).project == send.project && Row(end, t).priority == send.priority
      && Row(end, t).payload == send.payload && Row(end, t).createdAt == send.now && Row(end, t).replyTo.None?
      && forall agent :: NextPending(end, agent) == Some(t) ==> agent == send.receiver
  {
    RunKeepsLetter(c, Step(c, db, send), ops, |db.tasks| + 1);
  }

  /** The row holds what the call sent. */
  predicate Holds(row: Task, op: Op) {
    && op.Send? && 0 <= op.priority <= 100
    && row.sender == op.sender && row.receiver == op.receiver && row.project == op.project
    && row.priority == op.priority && row.payload == op.payload && row.createdAt == op.now
  }

  lemma NewRowIs(c: Config, db: Db, op: Op, t: int)
    requires OpOk(db, op) && !Has(db, t) && Has(Step(c, db, op), t)
    ensures Row(Step(c, db, op), t).replyTo.None? ==> Holds(Row(Step(c, db, op), t), op)
  {
    if op.Sweep? {
      SweepEffect(c, db, op.rows, op.now);
      assert DeadLetterReply(c, db, op.rows, op.now, Step(c, db, op).tasks[t - 1]);
    }
  }

  /** And nothing is handed out that was not sent: every row that is no reply is that of an accepted call. */
  lemma {:induction false} EveryRowWasSent(c: Config, db: Db, ops: seq<Op>, t: int)
    requires ValidRun(c, db, ops) && !Has(db, t) && Has(Run(c, db, ops), t)
    requires Row(Run(c, db, ops), t).replyTo.None?
    ensures exists i :: 0 <= i < |ops| && Holds(Row(Run(c, db, ops), t), ops[i])
    decreases |ops|
  {
    hide Step, OpOk;
    if ops != [] {
      var next, rest := Step(c, db, ops[0]), ops[1..];
      if Has(next, t) {
        RunKeepsLetter(c, next, rest, t);
        NewRowIs(c, db, ops[0], t);
        assert Holds(Row(Run(c, db, ops), t), ops[0]);
      } else {
        EveryRowWasSent(c, next, rest, t);
        var i :| 0 <= i < |rest| && Holds(Row(Run(c, next, rest), t), rest[i]);
        assert ops[i + 1] == rest[i];
      }
    }
  }

  // ----- who is loaded

  /** The status an agent registered last. */
  function LastStatus(ops: seq<Op>, agent: string, was: Option<string>): Option<string>
    decreases |ops|
  {
    if ops == [] then was
    else
      var now := if ops[0].Register? && ops[0].agent == agent then Some(ops[0].status) else was;
      LastStatus(ops[1..], agent, now)
  }

  function StatusIn(db: Db, agent: string): Option<string> {
    if agent in db.agents then Some(db.agents[agent].status) else None
  }

  lemma StatusStep(c: Config, db: Db, op: Op, agent: string)
    requires OpOk(db, op)
    ensures StatusIn(Step(c, db, op), agent) ==
      if op.Register? && op.agent == agent then Some(op.status) else StatusIn(db, agent)
  {
    if op.Sweep? {
      SweepKeepsAgents(c, db, op.rows, op.now);
    }
  }

  lemma {:induction false} StatusIsLastRegistered(c: Config, db: Db, ops: seq<Op>, agent: string)
    requires ValidRun(c, db, ops)
    ensures StatusIn(Run(c, db, ops), agent) == LastStatus(ops, agent, StatusIn(db, agent))
    decreases |ops|
  {
    hide Step, OpOk, StatusIn;
    if ops != [] {
      StatusStep(c, db, ops[0], agent);
      StatusIsLastRegistered(c, Step(c, db, ops[0]), ops[1..], agent);
    }
  }

  /** After any run, a message and a reply are immediate exactly when their receiver last registered as loaded; and they
      carry the time of the call. */
  lemma ImmediateIffLoaded(c: Config, ops: seq<Op>, op: Op)
    requires ValidRun(c, EMPTY, ops) && OpOk(Run(c, EMPTY, ops), op)
    ensures var db := Run(c, EMPTY, ops);
      var next := Step(c, db, op);
      forall t :: !Has(db, t) && Has(next, t) ==>
        && Row(next, t).createdAt == op.now
        && (Row(next, t).mode.Immediate? <==> LastStatus(ops, Row(next, t).receiver, None) == Some("loaded"))
  {
    var db := Run(c, EMPTY, ops);
    var next := Step(c, db, op);
    forall t | !Has(db, t) && Has(next, t)
        ensures Row(next, t).createdAt == op.now
        ensures Row(next, t).mode.Immediate? <==> LastStatus(ops, Row(next, t).receiver, None) == Some("loaded") {
      StatusIsLastRegistered(c, EMPTY, ops, Row(next, t).receiver);
      NewRowMode(c, db, op, t);
    }
  }

  lemma NewRowMode(c: Config, db: Db, op: Op, t: int)
    requires OpOk(db, op) && !Has(db, t) && Has(Step(c, db, op), t)
    ensures var row := Row(Step(c, db, op), t);
      row.createdAt == op.now && (row.mode.Immediate? <==> StatusIn(db, row.receiver) == Some("loaded"))
  {
    if op.Sweep? {
      SweepEffect(c, db, op.rows, op.now);
      assert DeadLetterReply(c, db, op.rows, op.now, Step(c, db, op).tasks[t - 1]);
    }
  }

  // ----- how long a claim lasts

  /** A call that cannot take the ticket away from the agent that claimed it until the deadline. */
  predicate LeavesClaim(op: Op, t: int, agent: string, deadline: int) {
    && (op.Sweep? ==> op.now < deadline)
    && (op.Fail? ==> op.ticket != t || op.agent != agent)
  }

  predicate AllLeaveClaim(ops: seq<Op>, t: int, agent: string, deadline: int) {
    forall i :: 0 <= i < |ops| ==> LeavesClaim(ops[i], t, agent, deadline)
  }

  predicate IsDone(db: Db, t: int) {
    Has(db, t) && Row(db, t).status.Done?
  }

  predicate ClaimedUntil(db: Db, t: int, agent: string, deadline: int) {
    && Has(db, t) && Row(db, t).status.Claimed? && Row(db, t).receiver == agent
    && Row(db, t).deadline == Some(deadline)
  }

  lemma StepKeepsClaim(c: Config, db: Db, op: Op, t: int, agent: string, deadline: int)
    requires OpOk(db, op) && ClaimedUntil(db, t, agent, deadline) && LeavesClaim(op, t, agent, deadline)
    ensures Has(Step(c, db, op), t) && !Claims(db, op, t)
    ensures Row(Step(c, db, op), t) == Row(db, t) || Row(Step(c, db, op), t).status.Done?
  {
    if op.Sweep? {
      SweepEffect(c, db, op.rows, op.now);
      assert db.tasks[t - 1] == Row(db, t);
      assert !Expired(db, op.now, t);
    }
  }

  lemma {:induction false} FinishedIsNotClaimed(c: Config, db: Db, ops: seq<Op>, t: int)
    requires ValidRun(c, db, ops) && Has(db, t) && Terminal(Row(db, t))
    ensures ClaimCount(c, db, ops, t) == 0
    decreases |ops|
  {
    if ops != [] {
      FinishedIsFinal(c, db, ops[..1], t);
      StepLowersRank(c, db, ops[0], t);
      FinishedIsNotClaimed(c, Step(c, db, ops[0]), ops[1..], t);
    }
  }

  lemma {:induction false} ClaimIsKept(c: Config, db: Db, ops: seq<Op>, t: int, agent: string, deadline: int)
    requires ValidRun(c, db, ops) && ClaimedUntil(db, t, agent, deadline)
    requires AllLeaveClaim(ops, t, agent, deadline)
    ensures ClaimCount(c, db, ops, t) == 0
    ensures ClaimedUntil(Run(c, db, ops), t, agent, deadline) || IsDone(Run(c, db, ops), t)
    decreases |ops|
  {
    hide Step, OpOk, Claims;
    if ops != [] {
      var next, rest := Step(c, db, ops[0]), ops[1..];
      StepKeepsClaim(c, db, ops[0], t, agent, deadline);
      if Row(next, t) == Row(db, t) {
        ClaimIsKept(c, next, rest, t, agent, deadline);
      } else {
        FinishedIsNotClaimed(c, next, rest, t);
        FinishedIsFinal(c, next, rest, t);
      }
    }
  }

  /** A poll hands a ticket out for as long as the timeout says. */
  lemma PollClaimsUntil(c: Config, db: Db, agent: string, now: int, t: nat)
    requires NextPending(db, agent) == Some(t)
    ensures ClaimedUntil(Step(c, db, Poll(agent, now)), t, agent, now + c.visibilityTimeout)
    ensures Row(Step(c, db, Poll(agent, now)), t).claimedAt == Some(now)
    ensures forall later :: Expired(Step(c, db, Poll(agent, now)), later, t) <==> now + c.visibilityTimeout <= later
  {
  }

  /** A ticket that a poll handed out at `now` is not handed out again, in any run whose sweeps come before the deadline
      and in which the agent does not fail it: it stays claimed until it is done. */
  lemma NotHandedOutBeforeDeadline(c: Config, db: Db, agent: string, now: int, t: nat, ops: seq<Op>)
    requires NextPending(db, agent) == Some(t) && ValidRun(c, Step(c, db, Poll(agent, now)), ops)
    requires AllLeaveClaim(ops, t, agent, now + c.visibilityTimeout)
    ensures ClaimCount(c, Step(c, db, Poll(agent, now)), ops, t) == 0
    ensures var end := Run(c, Step(c, db, Poll(agent, now)), ops);
      ClaimedUntil(end, t, agent, now + c.visibilityTimeout) || IsDone(end, t)
  {
    assert OpOk(db, Poll(agent, now));
    hide *;
    PollClaimsUntil(c, db, agent, now, t);
    ClaimIsKept(c, Step(c, db, Poll(agent, now)), ops, t, agent, now + c.visibilityTimeout);
  }

  /** The next sweep takes a ticket that is still claimed from the agent if and only if the deadline has come. */
  lemma SweepTakesBackIff(c: Config, db: Db, t: int, agent: string, deadline: int, rows: seq<nat>, later: int)
    requires ClaimedUntil(db, t, agent, deadline) && IsSelection(db, later, rows)
    ensures var next := Step(c, db, Sweep(rows, later));
      && Has(next, t)
      && (deadline <= later <==> !Row(next, t).status.Claimed?)
      && (later < deadline ==> Row(next, t) == Row(db, t))
      && (deadline <= later ==> if Row(db, t).attempts < c.maxAttempts then Eligible(next, agent, t)
                                else Row(next, t).status.Failed? && Row(next, t).errorMsg == Some(SWEEP_ERROR))
  {
    SweepEffect(c, db, rows, later);
    var u: nat := t;
    assert db.tasks[t - 1] == Row(db, t);
    assert u in rows <==> Expired(db, later, u);
  }
}
