/**
 The Pigeon mailbox (pigeon/dispatcher.py over the schema of pigeon/db.py) as values: the two tables,
 the effect of every endpoint on them, and the order in which tickets are handed out.

 `ticket_no` is an AUTOINCREMENT key and rows are never deleted, so on a fresh schema the tickets are
 1, 2, 3, ...: the row of ticket `t` is `tasks[t - 1]`. JSON texts are kept as opaque strings.
 */
module MailboxModel {
  import opened Results

  datatype Status = Pending | Claimed | Done | Failed

  datatype DeliveryMode = Queued | Immediate

  /** A payload: what a caller sent, or the result message that a reply carries. */
  datatype Payload =
    | Message(json: string)
    | TaskResult(originalTicket: nat, status: Status, result: Option<string>, error: Option<string>)

  datatype Task = Task(
    sender: string, receiver: string, project: string, priority: int,
    status: Status, mode: DeliveryMode, payload: Payload,
    result: Option<string>, errorMsg: Option<string>, replyTo: Option<nat>,
    attempts: nat, deadline: Option<int>,
    createdAt: int, claimedAt: Option<int>, doneAt: Option<int>)

  datatype Agent = Agent(agentType: string, status: string, lastSeen: int)

  datatype Db = Db(tasks: seq<Task>, agents: map<string, Agent>)

  datatype Config = Config(visibilityTimeout: int, maxAttempts: int)

  datatype Error = NotFound | Forbidden | Conflict | ConstraintViolation

  const EMPTY := Db([], map[])

  const SWEEP_ERROR := "reclaimed: visibility timeout exceeded"

  predicate Has(db: Db, t: int) {
    1 <= t <= |db.tasks|
  }

  function Row(db: Db, t: int): Task
    requires Has(db, t)
  {
    db.tasks[t - 1]
  }

  function SetRow(db: Db, t: int, row: Task): Db
    requires Has(db, t)
  {
    db.(tasks := db.tasks[t - 1 := row])
  }

  predicate Terminal(row: Task) {
    row.status.Done? || row.status.Failed?
  }

  // ----- inserting rows

  function ModeFor(agents: map<string, Agent>, agent: string): DeliveryMode {
    if agent in agents && agents[agent].status == "loaded" then Immediate else Queued
  }

  function SentRow(db: Db, sender: string, receiver: string, project: string, priority: int, payload: Payload,
                   now: int): Task {
    Task(sender, receiver, project, priority, Pending, ModeFor(db.agents, receiver), payload,
         None, None, None, 0, None, now, None, None)
  }

  function ReplyRow(agents: map<string, Agent>, task: Task, t: nat, status: Status,
                    result: Option<string>, error: Option<string>, now: int): Task {
    Task(task.receiver, task.sender, task.project, 10, Pending, ModeFor(agents, task.sender),
         TaskResult(t, status, result, error), None, None, Some(t), 0, None, now, None, None)
  }

  function Insert(db: Db, row: Task): Db {
    db.(tasks := db.tasks + [row])
  }

  // ----- updating rows

  function ClaimedRow(c: Config, row: Task, now: int): Task {
    row.(status := Claimed, claimedAt := Some(now), deadline := Some(now + c.visibilityTimeout))
  }

  function DoneRow(row: Task, result: string, now: int): Task {
    row.(status := Done, doneAt := Some(now), result := Some(result))
  }

  function RequeuedRow(row: Task): Task {
    row.(status := Pending, attempts := row.attempts + 1, claimedAt := None, deadline := None)
  }

  function FailedRow(row: Task, msg: string): Task {
    row.(status := Failed, errorMsg := Some(msg), deadline := None)
  }

  /** What requeue-or-dead-letter makes of a claimed row. */
  function ReleasedRow(c: Config, row: Task, msg: string): Task {
    if row.attempts < c.maxAttempts then RequeuedRow(row) else FailedRow(row, msg)
  }

  /** `task` is the row as it was selected; both UPDATEs are guarded by `status='claimed'`, the reply is not. */
  function RequeueOrDeadLetter(c: Config, db: Db, t: int, task: Task, now: int, msg: string): Db
    requires Has(db, t)
  {
    var row := Row(db, t);
    if task.attempts < c.maxAttempts then
      if row.status.Claimed? then SetRow(db, t, RequeuedRow(row)) else db
    else
      Insert(if row.status.Claimed? then SetRow(db, t, FailedRow(row, msg)) else db,
             ReplyRow(db.agents, task, t, Failed, None, Some(msg), now))
  }

  // ----- choosing rows

  predicate Eligible(db: Db, agent: string, t: int) {
    Has(db, t) && Row(db, t).receiver == agent && Row(db, t).status.Pending?
  }

  /** ORDER BY priority ASC, ticket_no ASC */
  predicate Before(db: Db, t: int, u: int)
    requires Has(db, t) && Has(db, u)
  {
    Row(db, t).priority < Row(db, u).priority || (Row(db, t).priority == Row(db, u).priority && t < u)
  }

  /** The ticket that the inner SELECT of `poll` picks among the first `n` rows. */
  function NextUpTo(db: Db, agent: string, n: nat): (r: Option<nat>)
    requires n <= |db.tasks|
    ensures r.Some? ==> Eligible(db, agent, r.value) && r.value <= n
    ensures r.Some? ==> forall u :: Eligible(db, agent, u) && u <= n && u != r.value ==> Before(db, r.value, u)
    ensures r.None? ==> forall u :: Eligible(db, agent, u) ==> n < u
  {
    if n == 0 then None
    else
      var best := NextUpTo(db, agent, n - 1);
      if !Eligible(db, agent, n) then best
      else if best.Some? && Before(db, best.value, n) then best
      else Some(n)
  }

  function NextPending(db: Db, agent: string): Option<nat> {
    NextUpTo(db, agent, |db.tasks|)
  }

  predicate Expired(db: Db, now: int, t: int) {
    Has(db, t) && Row(db, t).status.Claimed? && Row(db, t).deadline.Some? && Row(db, t).deadline.value <= now
  }

  /** `rows` is what the SELECT of the sweep returns: every expired ticket once, in an order SQL leaves open. */
  ghost predicate IsSelection(db: Db, now: int, rows: seq<nat>) {
    && (forall i :: 0 <= i < |rows| ==> Expired(db, now, rows[i]))
    && (forall i, j :: 0 <= i < j < |rows| ==> rows[i] != rows[j])
    && (forall t: nat :: Expired(db, now, t) ==> t in rows)
  }

  // ----- the endpoints

  datatype Op =
    | Register(agent: string, agentType: string, status: string, now: int)
    | Send(sender: string, receiver: string, project: string, priority: int, payload: Payload, now: int)
    | Poll(agent: string, now: int)
    | Complete(ticket: int, result: string, caller: Option<string>, now: int)
    | Fail(ticket: int, agent: string, error: string, now: int)
    | Sweep(rows: seq<nat>, now: int)

  function SendError(priority: int): Option<Error> {
    if 0 <= priority <= 100 then None else Some(ConstraintViolation)
  }

  function CompleteError(db: Db, t: int, caller: Option<string>): Option<Error> {
    if !Has(db, t) then Some(NotFound)
    else if caller.Some? && caller.value != Row(db, t).receiver then Some(Forbidden)
    else if !Row(db, t).status.Claimed? then Some(Conflict)
    else None
  }

  function FailError(db: Db, t: int, agent: string): Option<Error> {
    if !Has(db, t) then Some(NotFound)
    else if Row(db, t).receiver != agent then Some(Forbidden)
    else if !Row(db, t).status.Claimed? then Some(Conflict)
    else None
  }

  function Completed(db: Db, t: int, result: string, now: int): Db
    requires Has(db, t)
  {
    Insert(SetRow(db, t, DoneRow(Row(db, t), result, now)),
           ReplyRow(db.agents, Row(db, t), t, Done, Some(result), None, now))
  }

  /** The loop of the sweep: `snap` is the state the rows were selected in. */
  function SweepRows(c: Config, db: Db, snap: Db, rows: seq<nat>, now: int): (r: Db)
    requires |snap.tasks| <= |db.tasks|
    requires forall i :: 0 <= i < |rows| ==> Has(snap, rows[i])
    ensures |db.tasks| <= |r.tasks|
    decreases |rows|
  {
    if rows == [] then db
    else
      var last := |rows| - 1;
      var before := SweepRows(c, db, snap, rows[..last], now);
      RequeueOrDeadLetter(c, before, rows[last], Row(snap, rows[last]), now, SWEEP_ERROR)
  }

  ghost predicate OpOk(db: Db, op: Op) {
    op.Sweep? ==> IsSelection(db, op.now, op.rows)
  }

  /** One endpoint call. A rejected call leaves the tables as they are. */
  function Step(c: Config, db: Db, op: Op): Db
    requires OpOk(db, op)
  {
    match op
    case Register(agent, agentType, status, now) =>
      db.(agents := db.agents[agent := Agent(agentType, status, now)])
    case Send(sender, receiver, project, priority, payload, now) =>
      if SendError(priority).Some? then db
      else Insert(db, SentRow(db, sender, receiver, project, priority, payload, now))
    case Poll(agent, now) =>
      var next := NextPending(db, agent);
      if next.None? then db else SetRow(db, next.value, ClaimedRow(c, Row(db, next.value), now))
    case Complete(t, result, caller, now) =>
      if CompleteError(db, t, caller).Some? then db else Completed(db, t, result, now)
    case Fail(t, agent, error, now) =>
      if FailError(db, t, agent).Some? then db else RequeueOrDeadLetter(c, db, t, Row(db, t), now, error)
    case Sweep(rows, now) =>
      SweepRows(c, db, db, rows, now)
  }

  // ----- the pending list of an agent

  /** Puts ticket `t` into a list sorted by priority, behind the tickets of its own priority. */
  function InsertByPriority(db: Db, q: seq<nat>, t: nat): (r: seq<nat>)
    requires Has(db, t) && forall i :: 0 <= i < |q| ==> Has(db, q[i])
    ensures forall i :: 0 <= i < |r| ==> Has(db, r[i])
  {
    if q == [] then [t]
    else if Row(db, t).priority < Row(db, q[0]).priority then [t] + q
    else [q[0]] + InsertByPriority(db, q[1..], t)
  }

  function QueueUpTo(db: Db, agent: string, n: nat): (r: seq<nat>)
    requires n <= |db.tasks|
    ensures forall i :: 0 <= i < |r| ==> Has(db, r[i])
  {
    if n == 0 then []
    else if Eligible(db, agent, n) then InsertByPriority(db, QueueUpTo(db, agent, n - 1), n)
    else QueueUpTo(db, agent, n - 1)
  }

  /** The tickets that GET /pigeon/queue lists, in its order. */
  function QueueOf(db: Db, agent: string): seq<nat> {
    QueueUpTo(db, agent, |db.tasks|)
  }
}
