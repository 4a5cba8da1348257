/**
 The Pigeon dispatcher (pigeon/dispatcher.py) over its two tables. `tx_lock` makes every endpoint atomic,
 so each is one method; the clock is an argument, and so is the row order of the sweep's SELECT.
 */
module Mailbox {
  import opened Results
  import opened MailboxModel
  import opened MailboxInvariant
  import opened MailboxQueue

  datatype SendReply = SendReply(ticket: nat, mode: DeliveryMode, receiverStatus: string)

  datatype ReleaseOutcome = Requeued | DeadLettered

  datatype PendingEntry = PendingEntry(ticket: nat, priority: int, mode: DeliveryMode, payload: Payload, createdAt: int)

  class Dispatcher {
    var tasks: seq<Task>
    var agents: map<string, Agent>
    const config: Config

    function Tables(): Db
      reads this
    {
      Db(tasks, agents)
    }

    constructor (config: Config)
      ensures Tables() == EMPTY && this.config == config
    {
      tasks, agents := [], map[];
      this.config := config;
    }

    method RegisterAgent(agent: string, agentType: string, status: string, now: int)
      modifies this
      ensures Tables() == Step(config, old(Tables()), Register(agent, agentType, status, now))
      ensures tasks == old(tasks) && agents == old(agents)[agent := Agent(agentType, status, now)]
    {
      agents := agents[agent := Agent(agentType, status, now)];
    }

    method SendMessage(sender: string, receiver: string, project: string, priority: int, payload: Payload, now: int)
      returns (r: Result<SendReply, Error>)
      modifies this
      ensures Tables() == Step(config, old(Tables()), Send(sender, receiver, project, priority, payload, now))
      ensures r.Ok? <==> 0 <= priority <= 100
      ensures r.Ok? ==> !Has(old(Tables()), r.value.ticket) && Eligible(Tables(), receiver, r.value.ticket)
      ensures r.Ok? ==> Row(Tables(), r.value.ticket).mode == r.value.mode
      ensures r.Ok? ==>
        r.value.receiverStatus == if receiver in old(agents) then old(agents)[receiver].status else "unloaded"
    {
      var receiverStatus := if receiver in agents then agents[receiver].status else "unloaded";
      var mode := if receiverStatus == "loaded" then Immediate else Queued;
      if !(0 <= priority <= 100) {
        return Err(ConstraintViolation);
      }
      tasks := tasks + [Task(sender, receiver, project, priority, Pending, mode, payload,
                             None, None, None, 0, None, now, None, None)];
      return Ok(SendReply(|tasks|, mode, receiverStatus));
    }

    method PollTask(agent: string, now: int) returns (r: Option<(nat, Payload)>)
      modifies this
      ensures Tables() == Step(config, old(Tables()), Poll(agent, now))
      ensures r.Some? ==> Eligible(old(Tables()), agent, r.value.0)
      ensures var q := QueueOf(old(Tables()), agent);
        r == if q == [] then None else Some((q[0], Row(old(Tables()), q[0]).payload))
      ensures r.Some? ==>
        forall u :: 0 <= u < |old(tasks)| && old(tasks)[u].receiver == agent && old(tasks)[u].status.Pending? ==>
          var row := old(tasks)[r.value.0 - 1];
          row.priority < old(tasks)[u].priority || (row.priority == old(tasks)[u].priority && r.value.0 <= u + 1)
      ensures r.Some? ==>
        forall later :: Expired(Tables(), later, r.value.0) <==> now + config.visibilityTimeout <= later
      ensures QueueOf(Tables(), agent) == var q := QueueOf(old(Tables()), agent); if q == [] then [] else q[1..]
    {
      PollTakesHead(config, Tables(), agent, now);
      var next := NextPending(Tables(), agent);
      if next.None? {
        return None;
      }
      var t := next.value;
      forall u | 0 <= u < |tasks| && tasks[u].receiver == agent && tasks[u].status.Pending?
          ensures u + 1 == t || Before(Tables(), t, u + 1) {
        assert Eligible(Tables(), agent, u + 1);
      }
      tasks := tasks[t - 1 :=
        tasks[t - 1].(status := Claimed, claimedAt := Some(now), deadline := Some(now + config.visibilityTimeout))];
      return Some((t, tasks[t - 1].payload));
    }

    method CreateReply(task: Task, t: nat, status: Status, result: Option<string>, error: Option<string>, now: int)
      returns (reply: nat)
      modifies this
      ensures Tables() == Insert(old(Tables()), ReplyRow(old(agents), task, t, status, result, error, now))
      ensures reply == |tasks|
    {
      var senderStatus := if task.sender in agents then agents[task.sender].status else "unloaded";
      var mode := if senderStatus == "loaded" then Immediate else Queued;
      tasks := tasks + [Task(task.receiver, task.sender, task.project, 10, Pending, mode,
                             TaskResult(t, status, result, error), None, None, Some(t), 0, None, now, None, None)];
      return |tasks|;
    }

    method DoneTask(t: int, result: string, caller: Option<string>, now: int) returns (r: Result<nat, Error>)
      modifies this
      ensures Tables() == Step(config, old(Tables()), Complete(t, result, caller, now))
      ensures match CompleteError(old(Tables()), t, caller)
        case Some(e) => r == Err(e) && Tables() == old(Tables())
        case None => r.Ok? && RepliesTo(Tables(), r.value, t) && Row(Tables(), t).result == Some(result)
      ensures r.Ok? <==>
        && Has(old(Tables()), t) && Row(old(Tables()), t).status.Claimed?
        && (caller == None || caller == Some(Row(old(Tables()), t).receiver))
      ensures r.Ok? ==> Row(Tables(), t).status.Done? && Row(Tables(), t).doneAt == Some(now)
    {
      if !(1 <= t <= |tasks|) {
        return Err(NotFound);
      }
      var task := tasks[t - 1];
      if caller.Some? && caller.value != task.receiver {
        return Err(Forbidden);
      }
      if !task.status.Claimed? {
        return Err(Conflict);
      }
      tasks := tasks[t - 1 := task.(status := Done, doneAt := Some(now), result := Some(result))];
      var reply := CreateReply(task, t, Done, Some(result), None, now);
      return Ok(reply);
    }

    /** `task` is the row as the caller selected it. */
    method Release(t: int, task: Task, now: int, msg: string) returns (outcome: ReleaseOutcome)
      requires Has(Tables(), t)
      modifies this
      ensures Tables() == RequeueOrDeadLetter(config, old(Tables()), t, task, now, msg)
      ensures outcome.Requeued? <==> task.attempts < config.maxAttempts
    {
      if task.attempts < config.maxAttempts {
        if tasks[t - 1].status.Claimed? {
          var row := tasks[t - 1];
          tasks := tasks[t - 1 :=
            row.(status := Pending, attempts := row.attempts + 1, claimedAt := None, deadline := None)];
        }
        return Requeued;
      }
      if tasks[t - 1].status.Claimed? {
        tasks := tasks[t - 1 := tasks[t - 1].(status := Failed, errorMsg := Some(msg), deadline := None)];
      }
      var reply := CreateReply(task, t, Failed, None, Some(msg), now);
      return DeadLettered;
    }

    method FailTask(t: int, agent: string, error: string, now: int) returns (r: Result<ReleaseOutcome, Error>)
      modifies this
      ensures Tables() == Step(config, old(Tables()), Fail(t, agent, error, now))
      ensures match FailError(old(Tables()), t, agent)
        case Some(e) => r == Err(e) && Tables() == old(Tables())
        case None => r.Ok? && (r.value.Requeued? <==> Eligible(Tables(), agent, t))
      ensures r.Ok? <==>
        Has(old(Tables()), t) && Row(old(Tables()), t).status.Claimed? && Row(old(Tables()), t).receiver == agent
      ensures r.Ok? ==> (r.value.Requeued? <==> Row(old(Tables()), t).attempts < config.maxAttempts)
      ensures r.Ok? && r.value.DeadLettered? ==>
        Row(Tables(), t).status.Failed? && Row(Tables(), t).errorMsg == Some(error)
    {
      if !(1 <= t <= |tasks|) {
        return Err(NotFound);
      }
      var task := tasks[t - 1];
      if task.receiver != agent {
        return Err(Forbidden);
      }
      if !task.status.Claimed? {
        return Err(Conflict);
      }
      var outcome := Release(t, task, now, error);
      return Ok(outcome);
    }

    /** The counters add up to the number of overdue tickets and split them by the retries they had left. */
    method ReclaimStuck(rows: seq<nat>, now: int) returns (requeued: nat, failed: nat)
      requires IsSelection(Tables(), now, rows)
      modifies this
      ensures Tables() == Step(config, old(Tables()), Sweep(rows, now))
      ensures requeued + failed == |rows| && failed == Exhausted(config, old(Tables()), rows)
      ensures Swept(config, old(Tables()), rows, now, Tables())
      ensures forall t :: !Expired(Tables(), now, t)
    {
      hide Swept, RowsReleased, DeadLetterReply;
      ghost var snap := Tables();
      var selected := tasks;
      requeued, failed := 0, 0;
      for i := 0 to |rows|
        invariant Tables() == SweepRows(config, snap, snap, rows[..i], now)
        invariant requeued + failed == i && failed == Exhausted(config, snap, rows[..i])
      {
        assert rows[..i + 1][..i] == rows[..i];
        assert Has(snap, rows[i]);
        var outcome := Release(rows[i], selected[rows[i] - 1], now, SWEEP_ERROR);
        if outcome.Requeued? {
          requeued := requeued + 1;
        } else {
          failed := failed + 1;
        }
      }
      assert rows[..|rows|] == rows;
      assert Swept(config, snap, rows, now, Tables()) by {
        SweepEffect(config, snap, rows, now);
      }
      assert forall t :: !Expired(Tables(), now, t) by {
        SweepLeavesNoneExpired(config, snap, rows, now);
      }
    }

    method AgentQueue(agent: string) returns (pending: seq<PendingEntry>)
      ensures |pending| == |QueueOf(Tables(), agent)|
      ensures forall i :: 0 <= i < |pending| ==>
        var t := QueueOf(Tables(), agent)[i];
        var row := Row(Tables(), t);
        pending[i] == PendingEntry(t, row.priority, row.mode, row.payload, row.createdAt)
      ensures IsQueue(Tables(), agent, seq(|pending|, i requires 0 <= i < |pending| => pending[i].ticket))
    {
      var db := Tables();
      var q := QueueOf(db, agent);
      QueueOfIsQueue(db, agent);
      pending := seq(|q|, i requires 0 <= i < |q| => (
        var row := Row(db, q[i]); PendingEntry(q[i], row.priority, row.mode, row.payload, row.createdAt)));
      assert seq(|pending|, i requires 0 <= i < |pending| => pending[i].ticket) == q;
    }
  }
}
