/**
 What every endpoint of the Pigeon mailbox keeps, and what it changes: the table invariant (one reply for
 each finished ticket, none for a live one), the rank of a ticket, and the exact effect of a sweep.
 */
module MailboxInvariant {
  import opened Results
  import opened MailboxModel

  // ----- the invariant

  function MaxRetries(c: Config): nat {
    if c.maxAttempts < 0 then 0 else c.maxAttempts
  }

  predicate RowOk(c: Config, row: Task) {
    && 0 <= row.priority <= 100
    && row.attempts <= MaxRetries(c)
    && (row.status.Pending? ==> row.deadline.None? && row.claimedAt.None?)
    && (row.status.Claimed? ==> row.claimedAt.Some? && row.deadline == Some(row.claimedAt.value + c.visibilityTimeout))
    && (row.status.Failed? ==> row.deadline.None?)
    && (row.result.Some? <==> row.status.Done?)
    && (row.doneAt.Some? <==> row.status.Done?)
    && (row.errorMsg.Some? <==> row.status.Failed?)
  }

  /** Row `u` is a reply to ticket `o`. */
  predicate RepliesTo(db: Db, u: int, o: int) {
    Has(db, u) && Row(db, u).replyTo.Some? && Row(db, u).replyTo.value == o
  }

  /** A reply is younger than its ticket, goes the other way, and carries the ticket's outcome. */
  predicate ReplyMatches(db: Db, u: int, o: int) {
    && Has(db, o) && Has(db, u) && o < u
    && var task, reply := Row(db, o), Row(db, u);
    && Terminal(task)
    && reply.sender == task.receiver && reply.receiver == task.sender
    && reply.project == task.project && reply.priority == 10
    && reply.payload == TaskResult(o, task.status, task.result, task.errorMsg)
  }

  ghost predicate Inv(c: Config, db: Db) {
    && (forall i :: 0 <= i < |db.tasks| ==> RowOk(c, db.tasks[i]))
    && (forall u, o :: RepliesTo(db, u, o) ==> ReplyMatches(db, u, o))
    && (forall u, v, o :: RepliesTo(db, u, o) && RepliesTo(db, v, o) ==> u == v)
    && (forall o :: Has(db, o) && Terminal(Row(db, o)) ==> exists u :: RepliesTo(db, u, o))
  }

  lemma InsertSentKeepsInv(c: Config, db: Db, row: Task)
    requires Inv(c, db)
    requires RowOk(c, row) && row.replyTo.None? && row.status.Pending?
    ensures Inv(c, Insert(db, row))
  {
    var next := Insert(db, row);
    assert forall u, o :: RepliesTo(next, u, o) <==> RepliesTo(db, u, o);
    forall o | Has(next, o) && Terminal(Row(next, o)) ensures exists u :: RepliesTo(next, u, o) {
      assert Row(next, o) == Row(db, o);
      var u :| RepliesTo(db, u, o);
      assert RepliesTo(next, u, o);
    }
  }

  lemma LiveMatches(db: Db, t: int, row: Task, u: int, o: int)
    requires Has(db, t) && !Terminal(Row(db, t)) && ReplyMatches(db, u, o)
    requires row.payload == Row(db, t).payload && row.priority == Row(db, t).priority
    requires row.sender == Row(db, t).sender && row.receiver == Row(db, t).receiver && row.project == Row(db, t).project
    ensures ReplyMatches(SetRow(db, t, row), u, o)
  {
  }

  /** Claiming or requeueing: the row stays live and keeps its address fields. */
  lemma SetLiveKeepsInv(c: Config, db: Db, t: int, row: Task)
    requires Inv(c, db) && Has(db, t) && !Terminal(Row(db, t))
    requires RowOk(c, row) && !Terminal(row)
    requires row.replyTo == Row(db, t).replyTo && row.payload == Row(db, t).payload &&
      row.priority == Row(db, t).priority
    requires row.sender == Row(db, t).sender && row.receiver == Row(db, t).receiver && row.project == Row(db, t).project
    ensures Inv(c, SetRow(db, t, row))
  {
    var next := SetRow(db, t, row);
    assert forall u, o :: RepliesTo(next, u, o) <==> RepliesTo(db, u, o);
    hide RowOk, ReplyMatches, RepliesTo;
    forall u, o | RepliesTo(next, u, o) ensures ReplyMatches(next, u, o) {
      LiveMatches(db, t, row, u, o);
    }
    forall o | Has(next, o) && Terminal(Row(next, o)) ensures exists u :: RepliesTo(next, u, o) {
      assert o != t && Row(next, o) == Row(db, o);
      var u :| RepliesTo(db, u, o);
      assert RepliesTo(next, u, o);
    }
  }

  /** The row that `next` adds is the only new reply, and `t` has none before. */
  lemma ReplyAdded(c: Config, db: Db, t: int, row: Task, reply: Task, next: Db)
    requires Inv(c, db) && Has(db, t) && !Terminal(Row(db, t)) && row.replyTo == Row(db, t).replyTo
    requires reply.replyTo.Some? && reply.replyTo.value == t && next == Insert(SetRow(db, t, row), reply)
    ensures forall u, o :: RepliesTo(next, u, o) <==> RepliesTo(db, u, o) || (u == |db.tasks| + 1 && o == t)
    ensures forall u :: !RepliesTo(db, u, t)
  {
    hide RowOk;
    forall u ensures !RepliesTo(db, u, t) {
      assert RepliesTo(db, u, t) ==> ReplyMatches(db, u, t);
    }
  }

  /** A reply to another ticket still matches it. */
  lemma StillMatches(c: Config, db: Db, t: int, row: Task, reply: Task, u: int, o: int)
    requires Has(db, t) && o != t && ReplyMatches(db, u, o)
    requires row.payload == Row(db, t).payload && row.priority == Row(db, t).priority
    requires row.sender == Row(db, t).sender && row.receiver == Row(db, t).receiver && row.project == Row(db, t).project
    ensures ReplyMatches(Insert(SetRow(db, t, row), reply), u, o)
  {
  }

  lemma NewReplyMatches(db: Db, t: int, row: Task, now: int)
    requires Has(db, t) && Terminal(row)
    requires row.sender == Row(db, t).sender && row.receiver == Row(db, t).receiver && row.project == Row(db, t).project
    ensures var reply := ReplyRow(db.agents, Row(db, t), t, row.status, row.result, row.errorMsg, now);
      ReplyMatches(Insert(SetRow(db, t, row), reply), |db.tasks| + 1, t)
  {
  }

  /** Finishing a live ticket together with inserting its reply. */
  lemma FinishKeepsInv(c: Config, db: Db, t: int, row: Task, now: int)
    requires Inv(c, db) && Has(db, t) && !Terminal(Row(db, t))
    requires RowOk(c, row) && Terminal(row)
    requires row.replyTo == Row(db, t).replyTo && row.payload == Row(db, t).payload &&
      row.priority == Row(db, t).priority
    requires row.sender == Row(db, t).sender && row.receiver == Row(db, t).receiver && row.project == Row(db, t).project
    ensures Inv(c,
                Insert(SetRow(db, t, row),
                       ReplyRow(db.agents, Row(db, t), t, row.status, row.result, row.errorMsg, now)))
  {
    var n := |db.tasks| + 1;
    var reply := ReplyRow(db.agents, Row(db, t), t, row.status, row.result, row.errorMsg, now);
    var next := Insert(SetRow(db, t, row), reply);
    assert RowOk(c, reply);
    hide RowOk, ReplyMatches;
    ReplyAdded(c, db, t, row, reply, next);
    NewReplyMatches(db, t, row, now);
    hide RepliesTo;
    forall u, o | RepliesTo(next, u, o) ensures ReplyMatches(next, u, o) {
      if u != n || o != t {
        StillMatches(c, db, t, row, reply, u, o);
      }
    }
    forall u, v, o | RepliesTo(next, u, o) && RepliesTo(next, v, o) ensures u == v {}
    forall o | Has(next, o) && Terminal(Row(next, o)) ensures exists u :: RepliesTo(next, u, o) {
      if o == t {
        assert RepliesTo(next, n, t);
      } else {
        assert o != n;
        assert Row(next, o) == Row(db, o);
        var u :| RepliesTo(db, u, o);
        assert RepliesTo(next, u, o);
      }
    }
  }

  lemma ReleaseKeepsInv(c: Config, db: Db, t: int, now: int, msg: string)
    requires Inv(c, db) && Has(db, t) && Row(db, t).status.Claimed?
    ensures Inv(c, RequeueOrDeadLetter(c, db, t, Row(db, t), now, msg))
  {
    var row := Row(db, t);
    assert RowOk(c, row);
    if row.attempts < c.maxAttempts {
      SetLiveKeepsInv(c, db, t, ReleasedRow(c, row, msg));
    } else {
      FinishKeepsInv(c, db, t, ReleasedRow(c, row, msg), now);
    }
  }

  // ----- the exact effect of a sweep

  /** How many of the first `|rows|` selected tickets have no retry left. */
  function Exhausted(c: Config, db: Db, rows: seq<nat>): (n: nat)
    requires forall i :: 0 <= i < |rows| ==> Has(db, rows[i])
    ensures n <= |rows|
  {
    if rows == [] then 0
    else Exhausted(c, db, rows[..|rows| - 1]) + (if Row(db, rows[|rows| - 1]).attempts < c.maxAttempts then 0 else 1)
  }

  predicate AreExpired(db: Db, now: int, rows: seq<nat>) {
    && (forall i :: 0 <= i < |rows| ==> Has(db, rows[i]) && Expired(db, now, rows[i]))
    && (forall i, j :: 0 <= i < j < |rows| ==> rows[i] != rows[j])
  }

  /** There always is such a selection. */
  lemma {:induction false} SelectionExists(db: Db, now: int, n: nat) returns (rows: seq<nat>)
    requires n <= |db.tasks|
    ensures AreExpired(db, now, rows) && forall t: nat :: t in rows <==> t <= n && Expired(db, now, t)
    ensures n == |db.tasks| ==> IsSelection(db, now, rows)
  {
    if n == 0 {
      rows := [];
    } else {
      rows := SelectionExists(db, now, n - 1);
      if Expired(db, now, n) {
        assert n !in rows;
        rows := rows + [n];
      }
    }
  }

  /** `row` is the reply to one of the selected tickets that had no retry left. */
  predicate DeadLetterReply(c: Config, db: Db, rows: seq<nat>, now: int, row: Task)
    requires AreExpired(db, now, rows)
  {
    exists i :: 0 <= i < |rows| && Row(db, rows[i]).attempts >= c.maxAttempts
      && row == ReplyRow(db.agents, Row(db, rows[i]), rows[i], Failed, None, Some(SWEEP_ERROR), now)
  }

  /** Each selected row is released exactly once, nothing else that existed is touched, and one row is
      added for each ticket without a retry left. */
  predicate RowsReleased(c: Config, db: Db, rows: seq<nat>, next: Db)
    requires forall i :: 0 <= i < |rows| ==> Has(db, rows[i])
  {
    && next.agents == db.agents
    && |next.tasks| == |db.tasks| + Exhausted(c, db, rows)
    && (forall i :: 0 <= i < |db.tasks| ==>
          next.tasks[i] == if i + 1 in rows then ReleasedRow(c, db.tasks[i], SWEEP_ERROR) else db.tasks[i])
  }

  /** The added rows are the replies to those tickets. */
  ghost predicate Swept(c: Config, db: Db, rows: seq<nat>, now: int, next: Db)
    requires AreExpired(db, now, rows)
  {
    && RowsReleased(c, db, rows, next)
    && (forall i :: |db.tasks| <= i < |next.tasks| ==> DeadLetterReply(c, db, rows, now, next.tasks[i]))
  }

  /** One more selected ticket is released. */
  lemma ReleaseOneMore(c: Config, db: Db, rows: seq<nat>, now: int, mid: Db)
    requires rows != [] && AreExpired(db, now, rows) && RowsReleased(c, db, rows[..|rows| - 1], mid)
    ensures var t := rows[|rows| - 1];
      Has(mid, t) && RowsReleased(c, db, rows, RequeueOrDeadLetter(c, mid, t, Row(db, t), now, SWEEP_ERROR))
  {
    var init, t := rows[..|rows| - 1], rows[|rows| - 1];
    assert rows == init + [t] && t !in init;
    assert Row(mid, t) == Row(db, t);
    hide RequeuedRow, FailedRow, ReplyRow;
  }

  lemma {:induction false} SweepReleases(c: Config, db: Db, rows: seq<nat>, now: int)
    requires AreExpired(db, now, rows)
    ensures RowsReleased(c, db, rows, SweepRows(c, db, db, rows, now))
    decreases |rows|
  {
    if rows != [] {
      SweepReleases(c, db, rows[..|rows| - 1], now);
      ReleaseOneMore(c, db, rows, now, SweepRows(c, db, db, rows[..|rows| - 1], now));
    }
  }

  /** One more selected ticket: its reply, if any, is the only new row. */
  lemma ReleaseAddsReply(c: Config, db: Db, rows: seq<nat>, now: int, mid: Db, next: Db)
    requires rows != [] && AreExpired(db, now, rows) && mid.agents == db.agents
    requires Swept(c, db, rows[..|rows| - 1], now, mid)
    requires var t := rows[|rows| - 1];
      |mid.tasks| >= t && next == RequeueOrDeadLetter(c, mid, t, Row(db, t), now, SWEEP_ERROR)
    ensures forall i :: |db.tasks| <= i < |next.tasks| ==> DeadLetterReply(c, db, rows, now, next.tasks[i])
  {
    var init := rows[..|rows| - 1];
    forall i | |db.tasks| <= i < |next.tasks| ensures DeadLetterReply(c, db, rows, now, next.tasks[i]) {
      if i < |mid.tasks| {
        assert next.tasks[i] == mid.tasks[i] && DeadLetterReply(c, db, init, now, mid.tasks[i]);
        var j :| 0 <= j < |init| && Row(db, init[j]).attempts >= c.maxAttempts
          && mid.tasks[i] == ReplyRow(db.agents, Row(db, init[j]), init[j], Failed, None, Some(SWEEP_ERROR), now);
        assert rows[j] == init[j];
      }
    }
  }

  lemma {:induction false} SweepEffect(c: Config, db: Db, rows: seq<nat>, now: int)
    requires AreExpired(db, now, rows)
    ensures Swept(c, db, rows, now, SweepRows(c, db, db, rows, now))
    decreases |rows|
  {
    hide RequeueOrDeadLetter, DeadLetterReply, RowsReleased;
    SweepReleases(c, db, rows, now);
    if rows == [] {
      SweepNothing(c, db, now);
    } else {
      var init := rows[..|rows| - 1];
      SweepEffect(c, db, init, now);
      var mid := SweepRows(c, db, db, init, now);
      assert mid.agents == db.agents by { SweepReleases(c, db, init, now); SweepKeepsAgents(c, db, init, now); }
      ReleaseAddsReply(c, db, rows, now, mid, SweepRows(c, db, db, rows, now));
    }
  }

  lemma SweepNothing(c: Config, db: Db, now: int)
    ensures SweepRows(c, db, db, [], now) == db
  {
  }

  lemma SweepKeepsAgents(c: Config, db: Db, rows: seq<nat>, now: int)
    requires AreExpired(db, now, rows)
    ensures SweepRows(c, db, db, rows, now).agents == db.agents
  {
    SweepReleases(c, db, rows, now);
  }

  /** After a sweep at `now` no claimed ticket is overdue at `now`, in whatever order the rows came. */
  lemma SweepLeavesNoneExpired(c: Config, db: Db, rows: seq<nat>, now: int)
    requires IsSelection(db, now, rows)
    ensures forall t :: !Expired(SweepRows(c, db, db, rows, now), now, t)
  {
    SweepEffect(c, db, rows, now);
    var next := SweepRows(c, db, db, rows, now);
    forall t | Has(next, t) ensures !Expired(next, now, t) {
      var row := next.tasks[t - 1];
      if Has(db, t) {
        var u: nat := t;
        assert row == Row(db, t) && Expired(next, now, t) ==> Expired(db, now, u);
      } else {
        assert DeadLetterReply(c, db, rows, now, row);
      }
    }
  }

  lemma {:induction false} SweepKeepsInv(c: Config, db: Db, rows: seq<nat>, now: int)
    requires Inv(c, db)
    requires AreExpired(db, now, rows)
    ensures Inv(c, SweepRows(c, db, db, rows, now))
    decreases |rows|
  {
    if rows != [] {
      var last := |rows| - 1;
      SweepKeepsInv(c, db, rows[..last], now);
      SweepEffect(c, db, rows[..last], now);
      assert rows[last] !in rows[..last];
      ReleaseKeepsInv(c, SweepRows(c, db, db, rows[..last], now), rows[last], now, SWEEP_ERROR);
    }
  }

  lemma StepKeepsInv(c: Config, db: Db, op: Op)
    requires Inv(c, db) && OpOk(db, op)
    ensures Inv(c, Step(c, db, op))
  {
    match op
    case Register(agent, agentType, status, now) =>
      var next := Step(c, db, op);
      assert next.tasks == db.tasks;
      assert forall u, o :: RepliesTo(next, u, o) <==> RepliesTo(db, u, o);
      forall u, o | RepliesTo(next, u, o) ensures ReplyMatches(next, u, o) {
        assert ReplyMatches(db, u, o);
      }
      forall o | Has(next, o) && Terminal(Row(next, o)) ensures exists u :: RepliesTo(next, u, o) {
        assert Row(db, o) == Row(next, o);
        var u :| RepliesTo(db, u, o);
        assert RepliesTo(next, u, o);
      }
    case Send(sender, receiver, project, priority, payload, now) =>
      if SendError(priority).None? {
        InsertSentKeepsInv(c, db, SentRow(db, sender, receiver, project, priority, payload, now));
      }
    case Poll(agent, now) =>
      var next := NextPending(db, agent);
      if next.Some? {
        assert RowOk(c, Row(db, next.value));
        SetLiveKeepsInv(c, db, next.value, ClaimedRow(c, Row(db, next.value), now));
      }
    case Complete(t, result, caller, now) =>
      if CompleteError(db, t, caller).None? {
        assert RowOk(c, Row(db, t));
        FinishKeepsInv(c, db, t, DoneRow(Row(db, t), result, now), now);
      }
    case Fail(t, agent, error, now) =>
      if FailError(db, t, agent).None? {
        ReleaseKeepsInv(c, db, t, now, error);
      }
    case Sweep(rows, now) =>
      SweepKeepsInv(c, db, rows, now);
  }

  // ----- the rank of a ticket

  function RetriesLeft(c: Config, row: Task): nat {
    if row.attempts < c.maxAttempts then c.maxAttempts - row.attempts else 0
  }

  function Rank(c: Config, row: Task): nat {
    if Terminal(row) then 0
    else if row.status.Claimed? then 2 * RetriesLeft(c, row) + 1
    else 2 * RetriesLeft(c, row) + 2
  }

  /** No call removes a row, and a row that changes at all moves strictly down in rank. */
  lemma StepLowersRank(c: Config, db: Db, op: Op, t: int)
    requires OpOk(db, op) && Has(db, t)
    ensures Has(Step(c, db, op), t)
    ensures Row(Step(c, db, op), t) == Row(db, t) || Rank(c, Row(Step(c, db, op), t)) < Rank(c, Row(db, t))
  {
    if op.Sweep? {
      SweepEffect(c, db, op.rows, op.now);
      assert db.tasks[t - 1] == Row(db, t);
    }
  }
}
