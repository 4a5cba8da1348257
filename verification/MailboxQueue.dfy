/**
 The order in which the Pigeon mailbox hands out tickets: consecutive polls return exactly the list that
 the queue endpoint shows, and a requeued ticket goes back to its old place.
 */
module MailboxQueue {
  import opened Results
  import opened MailboxModel
  import opened MailboxRuns

  /** `q` lists the pending tickets of `agent`, each once, by priority and then by ticket number. */
  ghost predicate IsQueue(db: Db, agent: string, q: seq<nat>) {
    && (forall i :: 0 <= i < |q| ==> Eligible(db, agent, q[i]))
    && (forall i, j :: 0 <= i < j < |q| ==> Before(db, q[i], q[j]))
    && (forall t: nat :: Eligible(db, agent, t) ==> t in q)
  }

  lemma {:induction false} InsertSorted(db: Db, q: seq<nat>, t: nat)
    requires Has(db, t) && forall i :: 0 <= i < |q| ==> Has(db, q[i]) && q[i] < t
    requires forall i, j :: 0 <= i < j < |q| ==> Before(db, q[i], q[j])
    ensures var r := InsertByPriority(db, q, t);
      && (forall u :: u in r <==> u == t || u in q)
      && (forall i, j :: 0 <= i < j < |r| ==> Before(db, r[i], r[j]))
  {
    if q != [] && Row(db, t).priority >= Row(db, q[0]).priority {
      var rest := InsertByPriority(db, q[1..], t);
      InsertSorted(db, q[1..], t);
      var r := InsertByPriority(db, q, t);
      assert q == [q[0]] + q[1..] && r == [q[0]] + rest;
      forall u ensures u in r <==> u == t || u in q {
        assert u in r <==> u == q[0] || u in rest;
        assert u in q <==> u == q[0] || u in q[1..];
      }
      forall i, j | 0 <= i < j < |r| ensures Before(db, r[i], r[j]) {
        if i == 0 {
          assert r[j] in rest;
        } else {
          assert Before(db, rest[i - 1], rest[j - 1]);
        }
      }
    } else if q != [] {
      var r := InsertByPriority(db, q, t);
      assert forall j :: 0 < j < |r| ==> Before(db, q[0], r[j]) || q[0] == r[j];
    }
  }

  lemma {:induction false} QueueUpToSorted(db: Db, agent: string, n: nat)
    requires n <= |db.tasks|
    ensures var q := QueueUpTo(db, agent, n);
      && (forall t: nat :: t in q <==> Eligible(db, agent, t) && t <= n)
      && (forall i, j :: 0 <= i < j < |q| ==> Before(db, q[i], q[j]))
  {
    if n > 0 {
      QueueUpToSorted(db, agent, n - 1);
      if Eligible(db, agent, n) {
        var q := QueueUpTo(db, agent, n - 1);
        assert forall i :: 0 <= i < |q| ==> q[i] in q;
        InsertSorted(db, QueueUpTo(db, agent, n - 1), n);
      }
    }
  }

  lemma QueueOfIsQueue(db: Db, agent: string)
    ensures IsQueue(db, agent, QueueOf(db, agent))
  {
    QueueUpToSorted(db, agent, |db.tasks|);
    var q := QueueOf(db, agent);
    assert forall i :: 0 <= i < |q| ==> q[i] in q;
  }

  /** Two sorted listings of the same tickets are the same list. */
  lemma {:induction false} SortedListingUnique(db: Db, p: seq<nat>, q: seq<nat>)
    requires forall i :: 0 <= i < |p| ==> Has(db, p[i])
    requires forall i :: 0 <= i < |q| ==> Has(db, q[i])
    requires forall i, j :: 0 <= i < j < |p| ==> Before(db, p[i], p[j])
    requires forall i, j :: 0 <= i < j < |q| ==> Before(db, q[i], q[j])
    requires forall t :: t in p <==> t in q
    ensures p == q
  {
    if p == [] {
      assert forall i :: 0 <= i < |q| ==> q[i] in q;
    } else {
      assert p[0] in p;
      assert q[0] in p;
      assert p[0] == q[0];
      assert p == [p[0]] + p[1..] && q == [q[0]] + q[1..];
      forall t ensures t in p[1..] <==> t in q[1..] {
        assert t in p[1..] ==> t in p && t != p[0];
        assert t in q[1..] ==> t in q && t != q[0];
      }
      SortedListingUnique(db, p[1..], q[1..]);
    }
  }

  lemma IsQueueUnique(db: Db, agent: string, q: seq<nat>)
    requires IsQueue(db, agent, q)
    ensures q == QueueOf(db, agent)
  {
    QueueOfIsQueue(db, agent);
    var p := QueueOf(db, agent);
    forall t ensures t in p <==> t in q {
      if t in p {
        var i :| 0 <= i < |p| && p[i] == t;
        assert Eligible(db, agent, p[i]);
      }
      if t in q {
        var i :| 0 <= i < |q| && q[i] == t;
        assert Eligible(db, agent, q[i]);
      }
    }
    SortedListingUnique(db, p, q);
  }

  /** `poll` takes the head of the list that `agent_queue` would show and leaves the rest of it. */
  lemma PollTakesHead(c: Config, db: Db, agent: string, now: int)
    ensures var q, next := QueueOf(db, agent), NextPending(db, agent);
      && (next.None? <==> q == [])
      && (next.Some? ==> next.value == q[0])
      && QueueOf(Step(c, db, Poll(agent, now)), agent) == if q == [] then [] else q[1..]
  {
    QueueOfIsQueue(db, agent);
    var q, next := QueueOf(db, agent), NextPending(db, agent);
    if q != [] {
      assert Eligible(db, agent, q[0]);
    }
    if next.Some? {
      var t := next.value;
      assert t in q;
      assert Eligible(db, agent, q[0]);
      assert t == q[0];
      var after := Step(c, db, Poll(agent, now));
      forall u ensures Eligible(after, agent, u) <==> Eligible(db, agent, u) && u != t {}
      forall i | 0 <= i < |q[1..]| ensures Eligible(after, agent, q[1..][i]) {
        assert Before(db, q[0], q[i + 1]);
        assert Eligible(db, agent, q[i + 1]);
      }
      forall i, j | 0 <= i < j < |q[1..]| ensures Before(after, q[1..][i], q[1..][j]) {
        assert Before(db, q[i + 1], q[j + 1]);
      }
      assert q == [q[0]] + q[1..];
      IsQueueUnique(after, agent, q[1..]);
    }
  }

  /** The answers to consecutive polls of one agent at the given times. */
  function PollAnswers(c: Config, db: Db, agent: string, times: seq<int>): seq<Option<nat>>
    decreases |times|
  {
    if times == [] then []
    else [NextPending(db, agent)] + PollAnswers(c, Step(c, db, Poll(agent, times[0])), agent, times[1..])
  }

  /** Polling without interleaving returns exactly the listed tickets in the listed order, then nothing. */
  lemma {:induction false} PollsDrainQueue(c: Config, db: Db, agent: string, times: seq<int>)
    ensures var q, answers := QueueOf(db, agent), PollAnswers(c, db, agent, times);
      && |answers| == |times|
      && forall i :: 0 <= i < |times| ==> answers[i] == if i < |q| then Some(q[i]) else None
    decreases |times|
  {
    if times != [] {
      PollTakesHead(c, db, agent, times[0]);
      PollsDrainQueue(c, Step(c, db, Poll(agent, times[0])), agent, times[1..]);
    }
  }

  /** Leaving out one entry of a listing lists the tickets that remain. */
  lemma ListingWithout(db: Db, next: Db, agent: string, q: seq<nat>, k: nat)
    requires k < |q| && IsQueue(next, agent, q) && |db.tasks| == |next.tasks|
    requires forall i :: 0 <= i < |db.tasks| ==> db.tasks[i].priority == next.tasks[i].priority
    requires forall v :: Eligible(db, agent, v) <==> Eligible(next, agent, v) && v != q[k]
    ensures IsQueue(db, agent, q[..k] + q[k + 1..])
  {
    var rest := q[..k] + q[k + 1..];
    forall i | 0 <= i < |rest| ensures Eligible(db, agent, rest[i]) {
      var j := if i < k then i else i + 1;
      assert rest[i] == q[j] && Eligible(next, agent, q[j]);
      assert if j < k then Before(next, q[j], q[k]) else Before(next, q[k], q[j]);
    }
    forall i, j | 0 <= i < j < |rest| ensures Before(db, rest[i], rest[j]) {
      assert Before(next, q[if i < k then i else i + 1], q[if j < k then j else j + 1]);
    }
    forall v: nat | Eligible(db, agent, v) ensures v in rest {
      assert Eligible(next, agent, v);
      var i :| 0 <= i < |q| && q[i] == v;
      assert if i < k then rest[i] == v else rest[i - 1] == v;
    }
  }

  /** Requeueing puts a ticket where its priority and number say: the others keep their relative order. */
  lemma RequeueKeepsPlace(c: Config, db: Db, t: int, now: int, error: string)
    requires Has(db, t) && Row(db, t).status.Claimed? && Row(db, t).attempts < c.maxAttempts
    ensures var agent := Row(db, t).receiver;
      var q := QueueOf(Step(c, db, Fail(t, agent, error, now)), agent);
      exists k :: 0 <= k < |q| && q[k] == t && q[..k] + q[k + 1..] == QueueOf(db, agent)
  {
    var agent := Row(db, t).receiver;
    var next := Step(c, db, Fail(t, agent, error, now));
    var q := QueueOf(next, agent);
    QueueOfIsQueue(next, agent);
    var u: nat := t;
    assert Eligible(next, agent, u);
    var k :| 0 <= k < |q| && q[k] == u;
    forall v ensures Eligible(db, agent, v) <==> Eligible(next, agent, v) && v != t {}
    ListingWithout(db, next, agent, q, k);
    IsQueueUnique(db, agent, q[..k] + q[k + 1..]);
  }

  /** A claim that is given back restores the list as it was before the poll. */
  lemma PollThenFailRestoresQueue(c: Config, db: Db, agent: string, t: nat, now: int, later: int, error: string)
    requires NextPending(db, agent) == Some(t)
    requires Row(db, t).attempts < c.maxAttempts
    ensures QueueOf(Run(c, db, [Poll(agent, now), Fail(t, agent, error, later)]), agent) == QueueOf(db, agent)
  {
    var mid := Step(c, db, Poll(agent, now));
    var end := Step(c, mid, Fail(t, agent, error, later));
    var ops := [Poll(agent, now), Fail(t, agent, error, later)];
    assert ops[1..] == [Fail(t, agent, error, later)] && ops[1..][1..] == [];
    assert Run(c, db, ops) == Run(c, mid, ops[1..]) == end;
    var q := QueueOf(db, agent);
    QueueOfIsQueue(db, agent);
    forall u ensures Eligible(end, agent, u) <==> Eligible(db, agent, u) {}
    forall i, j | 0 <= i < j < |q| ensures Before(end, q[i], q[j]) {
      assert Before(db, q[i], q[j]);
    }
    IsQueueUnique(end, agent, q);
  }
}
