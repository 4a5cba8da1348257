/**
 The debouncer and the queue of the file watcher (oracle-core/src/watch.rs): any number of event threads push
 paths and trigger, timers are detached threads, and the clock is monotone. Each step is one lock section.

 The generation is a 64-bit counter in the program; here it does not wrap.
 */
module DebounceModel {
  import opened WatchedPaths

  /** An event thread: between events, with paths pushed but not yet triggered, or inside `trigger` after the
      generation was bumped and before the timer thread sleeps. */
  datatype Thread = Resting | Pushed | Bumped(generation: nat)

  /** A timer thread: asleep, past its check and about to call back, or gone. */
  datatype Timer = Sleeping(since: nat) | Authorised | Gone

  datatype Fire = Fire(generation: nat, at: nat)

  /** `bumpedAt`, `pushed`, `segments` (what each drain took), `batches` and `fires` are history. */
  datatype State = State(
    now: nat, generation: nat, bumpedAt: nat, cancelled: bool,
    threads: map<nat, Thread>, timers: map<nat, Timer>, queue: seq<string>,
    pushed: seq<string>, segments: seq<seq<string>>, batches: seq<seq<string>>, fires: seq<Fire>)

  const INIT := State(0, 0, 0, false, map[], map[], [], [], [], [], [])

  datatype Event =
    | Advance(dt: nat)
    | Push(thread: nat, path: string)
    | Bump(thread: nat)       // first lock section of trigger
    | Spawn(thread: nat)      // the timer thread starts to sleep
    | Wake(timer: nat)        // it has slept for the duration and reads the generation
    | Drain(timer: nat)       // its callback
    | Cancel

  function ThreadOf(s: State, id: nat): Thread {
    if id in s.threads then s.threads[id] else Resting
  }

  predicate Enabled(duration: nat, s: State, e: Event) {
    match e
    case Advance(_) => true
    case Push(id, _) => !ThreadOf(s, id).Bumped?
    case Bump(id) => !ThreadOf(s, id).Bumped?
    case Spawn(id) => ThreadOf(s, id).Bumped?
    case Wake(g) => g in s.timers && s.timers[g].Sleeping? && s.timers[g].since + duration <= s.now
    case Drain(g) => g in s.timers && s.timers[g].Authorised?
    case Cancel => true
  }

  function Delivered(batches: seq<seq<string>>, queue: seq<string>): seq<seq<string>> {
    if Batch(queue) == [] then batches else batches + [Batch(queue)]
  }

  function Next(duration: nat, s: State, e: Event): State
    requires Enabled(duration, s, e)
  {
    match e
    case Advance(dt) => s.(now := s.now + dt)
    case Push(id, path) =>
      s.(threads := s.threads[id := Pushed], queue := s.queue + [path], pushed := s.pushed + [path])
    case Bump(id) =>
      s.(threads := s.threads[id := Bumped(s.generation + 1)], generation := s.generation + 1, bumpedAt := s.now)
    case Spawn(id) =>
      s.(threads := s.threads[id := Resting], timers := s.timers[ThreadOf(s, id).generation := Sleeping(s.now)])
    case Wake(g) =>
      if g == s.generation then s.(timers := s.timers[g := Authorised], fires := s.fires + [Fire(g, s.now)])
      else s.(timers := s.timers[g := Gone])
    case Drain(g) =>
      s.(timers := s.timers[g := Gone], queue := [], segments := s.segments + [s.queue],
         batches := Delivered(s.batches, s.queue))
    case Cancel =>
      s.(generation := s.generation + 1, bumpedAt := s.now, cancelled := true)
  }
}

/** The same steps on the watcher's shared fields. */
module FsWatcher {
  import opened WatchedPaths
  import opened DebounceModel

  class Watcher {
    const duration: nat
    var clock: nat
    var generation: nat
    var threads: map<nat, Thread>
    var timers: map<nat, Timer>
    var queue: seq<string>
    var batches: seq<seq<string>>
    var cancelled: bool
    ghost var bumpedAt: nat
    ghost var pushed: seq<string>
    ghost var segments: seq<seq<string>>
    ghost var fires: seq<Fire>

    ghost function Abs(): State
      reads this
    {
      State(clock, generation, bumpedAt, cancelled, threads, timers, queue, pushed, segments, batches, fires)
    }

    constructor (duration: nat)
      ensures Abs() == INIT && this.duration == duration
    {
      this.duration := duration;
      clock, generation, threads, timers, queue, batches, cancelled := 0, 0, map[], map[], [], [], false;
      bumpedAt, pushed, segments, fires := 0, [], [], [];
    }

    method PushBack(thread: nat, path: string)
      requires Enabled(duration, Abs(), Push(thread, path))
      modifies this
      ensures Abs() == Next(duration, old(Abs()), Push(thread, path))
    {
      queue := queue + [path];
      threads := threads[thread := Pushed];
      pushed := pushed + [path];
    }

    method BumpGeneration(thread: nat)
      requires Enabled(duration, Abs(), Bump(thread))
      modifies this
      ensures Abs() == Next(duration, old(Abs()), Bump(thread))
    {
      generation := generation + 1;
      threads := threads[thread := Bumped(generation)];
      bumpedAt := clock;
    }

    method SpawnTimer(thread: nat)
      requires Enabled(duration, Abs(), Spawn(thread))
      modifies this
      ensures Abs() == Next(duration, old(Abs()), Spawn(thread))
    {
      timers := timers[threads[thread].generation := Sleeping(clock)];
      threads := threads[thread := Resting];
    }

    method TimerWakes(g: nat)
      requires Enabled(duration, Abs(), Wake(g))
      modifies this
      ensures Abs() == Next(duration, old(Abs()), Wake(g))
    {
      var current := generation;
      if current == g {
        timers := timers[g := Authorised];
        fires := fires + [Fire(g, clock)];
      } else {
        timers := timers[g := Gone];
      }
    }

    method Callback(g: nat)
      requires Enabled(duration, Abs(), Drain(g))
      modifies this
      ensures Abs() == Next(duration, old(Abs()), Drain(g))
    {
      var paths := queue;
      queue := [];
      segments := segments + [paths];
      paths := KeepWatched(Dedup(Sort(paths)));
      if paths != [] {
        batches := batches + [paths];
      }
      timers := timers[g := Gone];
    }

    method CancelTimers()
      modifies this
      ensures Abs() == Next(duration, old(Abs()), Cancel)
    {
      generation := generation + 1;
      cancelled := true;
      bumpedAt := clock;
    }
  }
}

/** What holds over every interleaving of event threads, timers and cancels. */
module DebounceRuns {
  import opened Sequences
  import opened WatchedPaths
  import opened DebounceModel

  /** Every generation up to the current one belongs to at most one thread in `trigger` or one timer. */
  predicate GenerationsFit(s: State) {
    && (forall id :: id in s.threads && s.threads[id].Bumped? ==>
          0 < s.threads[id].generation <= s.generation && s.threads[id].generation !in s.timers)
    && (forall id, other ::
         id in s.threads && other in s.threads && s.threads[id].Bumped? && s.threads[id] == s.threads[other] ==>
          id == other)
    && (forall g :: g in s.timers ==> 0 < g <= s.generation)
  }

  predicate TimesFit(s: State) {
    && s.bumpedAt <= s.now
    && (forall g :: g in s.timers && s.timers[g].Sleeping? ==> s.timers[g].since <= s.now)
    && (s.generation in s.timers && s.timers[s.generation].Sleeping? ==> s.bumpedAt <= s.timers[s.generation].since)
  }

  /** Callbacks are authorised for growing generations, at least the duration apart; a generation that was
      authorised is not asleep any more, and a later bump is not earlier. */
  predicate FiresFit(duration: nat, s: State) {
    && (forall i, j :: 0 <= i < j < |s.fires| ==>
          s.fires[i].generation < s.fires[j].generation && s.fires[i].at + duration <= s.fires[j].at)
    && (forall i :: 0 <= i < |s.fires| ==>
          var f := s.fires[i];
          && f.generation <= s.generation && f.generation in s.timers && !s.timers[f.generation].Sleeping?
          && f.at <= s.now && (f.generation < s.generation ==> f.at <= s.bumpedAt))
  }

  predicate SomeonePushing(s: State) {
    exists id :: id in s.threads && s.threads[id].Pushed?
  }

  predicate CurrentTriggering(s: State) {
    exists id :: id in s.threads && s.threads[id] == Bumped(s.generation)
  }

  predicate CurrentTimerAlive(s: State) {
    s.generation in s.timers && !s.timers[s.generation].Gone?
  }

  /** Until the watcher is cancelled, paths in the queue are going to be drained: their thread has yet to trigger,
      or the current generation's timer is being set up, asleep, or about to call back. */
  predicate WakeUpPending(s: State) {
    s.cancelled || s.queue == [] || SomeonePushing(s) || CurrentTriggering(s) || CurrentTimerAlive(s)
  }

  /** The batches of the drains, in order; a drain without watched paths delivers none. */
  function BatchesOf(segments: seq<seq<string>>): seq<seq<string>> {
    if segments == [] then [] else Delivered(BatchesOf(segments[..|segments| - 1]), segments[|segments| - 1])
  }

  ghost predicate Conserved(s: State) {
    s.pushed == Flat(s.segments) + s.queue && s.batches == BatchesOf(s.segments)
  }

  ghost predicate Inv(duration: nat, s: State) {
    GenerationsFit(s) && TimesFit(s) && FiresFit(duration, s) && WakeUpPending(s) && Conserved(s)
  }

  lemma GenerationsKept(duration: nat, s: State, e: Event)
    requires Enabled(duration, s, e) && GenerationsFit(s)
    ensures GenerationsFit(Next(duration, s, e))
  {
  }

  lemma TimesKept(duration: nat, s: State, e: Event)
    requires Enabled(duration, s, e) && GenerationsFit(s) && TimesFit(s)
    ensures TimesFit(Next(duration, s, e))
  {
  }

  lemma FiresKept(duration: nat, s: State, e: Event)
    requires Enabled(duration, s, e) && GenerationsFit(s) && TimesFit(s) && FiresFit(duration, s)
    ensures FiresFit(duration, Next(duration, s, e))
  {
    var next := Next(duration, s, e);
    forall i | 0 <= i < |s.fires| ensures e.Wake? ==> s.fires[i].generation != e.timer {}
    forall i | 0 <= i < |next.fires|
      ensures var f := next.fires[i];
        && f.generation <= next.generation && f.generation in next.timers && !next.timers[f.generation].Sleeping?
        && f.at <= next.now && (f.generation < next.generation ==> f.at <= next.bumpedAt)
    {
      assert i < |s.fires| ==> next.fires[i] == s.fires[i];
    }
    forall i, j | 0 <= i < j < |next.fires|
      ensures next.fires[i].generation < next.fires[j].generation && next.fires[i].at + duration <= next.fires[j].at
    {
      assert next.fires[i] == s.fires[i];
      if j == |s.fires| {
        assert next.fires[j] == Fire(s.generation, s.now);
      } else {
        assert next.fires[j] == s.fires[j];
      }
    }
  }

  lemma WakeUpKept(duration: nat, s: State, e: Event)
    requires Enabled(duration, s, e) && GenerationsFit(s) && WakeUpPending(s)
    ensures WakeUpPending(Next(duration, s, e))
  {
    var next := Next(duration, s, e);
    if SomeonePushing(s) {
      var id :| id in s.threads && s.threads[id].Pushed?;
      assert id in next.threads;
      assert e.Bump? && e.thread == id ==> next.threads[id] == Bumped(next.generation);
    }
    match e
    case Push(id, _) => assert next.threads[id].Pushed?;
    case Bump(id) => assert next.threads[id] == Bumped(next.generation);
    case _ =>
      if CurrentTriggering(s) {
        var id :| id in s.threads && s.threads[id] == Bumped(s.generation);
        assert id in next.threads;
      }
  }

  lemma OneMoreSegment(segments: seq<seq<string>>, queue: seq<string>)
    ensures Flat(segments + [queue]) == Flat(segments) + queue
    ensures BatchesOf(segments + [queue]) == Delivered(BatchesOf(segments), queue)
  {
    hide Delivered;
    assert (segments + [queue])[..|segments|] == segments;
  }

  lemma OneMorePath(taken: seq<string>, queue: seq<string>, path: string)
    ensures (taken + queue) + [path] == taken + (queue + [path])
  {
  }

  lemma ConservedKept(duration: nat, s: State, e: Event)
    requires Enabled(duration, s, e) && Conserved(s)
    ensures Conserved(Next(duration, s, e))
  {
    hide Delivered, Flat, BatchesOf;
    match e
    case Push(_, path) => OneMorePath(Flat(s.segments), s.queue, path);
    case Drain(_) => OneMoreSegment(s.segments, s.queue);
    case _ =>
  }

  lemma NextKeepsInv(duration: nat, s: State, e: Event)
    requires Enabled(duration, s, e) && Inv(duration, s)
    ensures Inv(duration, Next(duration, s, e))
  {
    hide Next, GenerationsFit, TimesFit, FiresFit, WakeUpPending, Conserved;
    GenerationsKept(duration, s, e);
    TimesKept(duration, s, e);
    FiresKept(duration, s, e);
    WakeUpKept(duration, s, e);
    ConservedKept(duration, s, e);
  }

  ghost predicate ValidRun(duration: nat, s: State, events: seq<Event>)
    decreases |events|
  {
    events == [] || (Enabled(duration, s, events[0]) && ValidRun(duration, Next(duration, s, events[0]), events[1..]))
  }

  function Run(duration: nat, s: State, events: seq<Event>): State
    requires ValidRun(duration, s, events)
    decreases |events|
  {
    if events == [] then s else Run(duration, Next(duration, s, events[0]), events[1..])
  }

  lemma {:induction false} RunKeepsInv(duration: nat, s: State, events: seq<Event>)
    requires Inv(duration, s) && ValidRun(duration, s, events)
    ensures Inv(duration, Run(duration, s, events))
    decreases |events|
  {
    hide Next, Inv;
    if events != [] {
      NextKeepsInv(duration, s, events[0]);
      RunKeepsInv(duration, Next(duration, s, events[0]), events[1..]);
    }
  }

  lemma {:induction false} BatchesGrow(segments: seq<seq<string>>, k: nat)
    requires k < |segments| && Batch(segments[k]) != []
    ensures var i := |BatchesOf(segments[..k])|;
      i < |BatchesOf(segments)| && BatchesOf(segments)[i] == Batch(segments[k])
  {
    hide Batch;
    var init := segments[..|segments| - 1];
    if k < |init| {
      BatchesGrow(init, k);
      assert init[..k] == segments[..k];
    }
  }

  /** A path that was pushed is in the queue, or in the drain that took it: at its own place, and if it is watched, in
      the batch which that drain delivered. */
  ghost predicate Accounted(s: State, i: nat)
    requires i < |s.pushed|
  {
    if i >= |Flat(s.segments)| then i - |Flat(s.segments)| < |s.queue| && s.queue[i - |Flat(s.segments)|] == s.pushed[i]
    else exists k :: 0 <= k < |s.segments| && TakenBy(s, i, k)
  }

  ghost predicate TakenBy(s: State, i: nat, k: nat)
    requires i < |s.pushed| && k < |s.segments|
  {
    var first, batch := |Flat(s.segments[..k])|, |BatchesOf(s.segments[..k])|;
    && first <= i < first + |s.segments[k]| && s.segments[k][i - first] == s.pushed[i]
    && (Watched(s.pushed[i]) ==>
         batch < |s.batches| && s.batches[batch] == Batch(s.segments[k]) && s.pushed[i] in s.batches[batch])
  }

  lemma {:induction false} PartOf(segments: seq<seq<string>>, i: nat) returns (k: nat)
    requires i < |Flat(segments)|
    ensures k < |segments| && |Flat(segments[..k])| <= i < |Flat(segments[..k])| + |segments[k]|
  {
    var init := segments[..|segments| - 1];
    if i < |Flat(init)| {
      k := PartOf(init, i);
      assert init[..k] == segments[..k];
    } else {
      k := |segments| - 1;
    }
  }

  lemma EveryPushAccounted(s: State, i: nat)
    requires Conserved(s) && i < |s.pushed|
    ensures Accounted(s, i)
  {
    hide Batch, Watched;
    if i < |Flat(s.segments)| {
      var k := PartOf(s.segments, i);
      FlatAt(s.segments, k);
      var first := |Flat(s.segments[..k])|;
      assert s.segments[k][i - first] == Flat(s.segments)[first..first + |s.segments[k]|][i - first] == s.pushed[i];
      BatchExact(s.segments[k]);
      if Watched(s.pushed[i]) {
        assert s.pushed[i] in Batch(s.segments[k]);
        BatchesGrow(s.segments, k);
      }
      assert TakenBy(s, i, k);
    }
  }

  lemma {:induction false} BatchesAreListings(segments: seq<seq<string>>)
    ensures forall i :: 0 <= i < |BatchesOf(segments)| ==>
      BatchesOf(segments)[i] != [] && StrictlySorted(BatchesOf(segments)[i])
  {
    hide Batch, StrictlySorted;
    if segments != [] {
      BatchesAreListings(segments[..|segments| - 1]);
      BatchExact(segments[|segments| - 1]);
    }
  }

  /** No wake-up is lost and no change either: in every reachable state whoever is to drain the queue is pending; every
      path ever pushed, each time it was pushed, is still queued or was delivered by the drain that took it; and the
      batches are exactly those of the drains, in order, each sorted, duplicate-free and not empty. */
  lemma NothingIsLost(duration: nat, events: seq<Event>)
    requires ValidRun(duration, INIT, events)
    ensures var s := Run(duration, INIT, events);
      && WakeUpPending(s)
      && s.pushed == Flat(s.segments) + s.queue && s.batches == BatchesOf(s.segments)
      && (forall i :: 0 <= i < |s.batches| ==> s.batches[i] != [] && StrictlySorted(s.batches[i]))
      && (forall i :: 0 <= i < |s.pushed| ==> Accounted(s, i))
  {
    RunKeepsInv(duration, INIT, events);
    var s := Run(duration, INIT, events);
    assert Conserved(s) && WakeUpPending(s);
    BatchesAreListings(s.segments);
    forall i | 0 <= i < |s.pushed| ensures Accounted(s, i) {
      EveryPushAccounted(s, i);
    }
  }

  /** Steps that threads and timers take by themselves, without a new path and without a cancel. */
  predicate Settling(e: Event) {
    e.Bump? || e.Spawn? || e.Advance? || e.Wake? || e.Drain?
  }

  ghost predicate CanDrain(duration: nat, s: State, events: seq<Event>) {
    && (forall i :: 0 <= i < |events| ==> Settling(events[i]))
    && ValidRun(duration, s, events) && Run(duration, s, events).queue == []
  }

  lemma DrainCons(duration: nat, s: State, e: Event, rest: seq<Event>)
    requires Enabled(duration, s, e) && Settling(e) && CanDrain(duration, Next(duration, s, e), rest)
    ensures CanDrain(duration, s, [e] + rest)
  {
    hide Next;
    assert ([e] + rest)[1..] == rest;
  }

  /** A timer of the current generation that is alive ends in a drain. */
  lemma TimerDrains(duration: nat, s: State) returns (events: seq<Event>)
    requires TimesFit(s) && CurrentTimerAlive(s)
    ensures CanDrain(duration, s, events)
  {
    var g := s.generation;
    if s.timers[g].Authorised? {
      assert CanDrain(duration, Next(duration, s, Drain(g)), []);
      DrainCons(duration, s, Drain(g), []);
      events := [Drain(g)] + [];
    } else {
      var slept := Next(duration, s, Advance(duration));
      assert Enabled(duration, slept, Wake(g));
      var woken := Next(duration, slept, Wake(g));
      assert woken.generation == g && g in woken.timers && woken.timers[g].Authorised?;
      assert CanDrain(duration, Next(duration, woken, Drain(g)), []);
      DrainCons(duration, woken, Drain(g), []);
      DrainCons(duration, slept, Wake(g), [Drain(g)] + []);
      DrainCons(duration, s, Advance(duration), [Wake(g)] + ([Drain(g)] + []));
      events := [Advance(duration)] + ([Wake(g)] + ([Drain(g)] + []));
    }
  }

  lemma TriggerDrains(duration: nat, s: State, id: nat) returns (events: seq<Event>)
    requires TimesFit(s) && id in s.threads && s.threads[id] == Bumped(s.generation)
    ensures CanDrain(duration, s, events)
  {
    var spawned := Next(duration, s, Spawn(id));
    var rest := TimerDrains(duration, spawned);
    DrainCons(duration, s, Spawn(id), rest);
    events := [Spawn(id)] + rest;
  }

  lemma KeepsTimes(duration: nat, s: State, e: Event)
    requires Inv(duration, s) && Enabled(duration, s, e)
    ensures TimesFit(Next(duration, s, e))
  {
    hide GenerationsFit, TimesFit, FiresFit, WakeUpPending, Conserved;
    TimesKept(duration, s, e);
  }

  /** Whatever is pending leads to a drain: as long as the watcher is not cancelled, the threads and timers that are
      there can empty the queue by themselves. */
  lemma QueueCanDrain(duration: nat, s: State) returns (events: seq<Event>)
    requires Inv(duration, s) && !s.cancelled
    ensures CanDrain(duration, s, events)
  {
    hide GenerationsFit, FiresFit, Conserved;
    if s.queue == [] {
      events := [];
    } else if CurrentTimerAlive(s) {
      events := TimerDrains(duration, s);
    } else if id :| id in s.threads && s.threads[id] == Bumped(s.generation) {
      events := TriggerDrains(duration, s, id);
    } else {
      assert SomeonePushing(s);
      var id :| id in s.threads && s.threads[id].Pushed?;
      var bumped := Next(duration, s, Bump(id));
      KeepsTimes(duration, s, Bump(id));
      var rest := TriggerDrains(duration, bumped, id);
      DrainCons(duration, s, Bump(id), rest);
      events := [Bump(id)] + rest;
    }
  }

  /** Callbacks of different generations are authorised at least the duration apart, each generation once. */
  lemma FiresAreSpaced(duration: nat, events: seq<Event>)
    requires ValidRun(duration, INIT, events)
    ensures var fires := Run(duration, INIT, events).fires;
      forall i, j :: 0 <= i < j < |fires| ==>
        fires[i].generation < fires[j].generation && fires[i].at + duration <= fires[j].at
  {
    RunKeepsInv(duration, INIT, events);
  }

  /** The run contains no trigger and no cancel. */
  predicate NoBump(events: seq<Event>) {
    forall e :: e in events ==> !e.Bump? && !e.Cancel?
  }

  lemma BumpIsStamped(duration: nat, s: State, e: Event)
    requires Enabled(duration, s, e) && TimesFit(s)
    ensures s.now <= Next(duration, s, e).now && s.bumpedAt <= Next(duration, s, e).bumpedAt
    ensures e.Bump? || e.Cancel? ==> Next(duration, s, e).bumpedAt == s.now
  {
  }

  lemma {:induction false} BumpsAreStamped(duration: nat, s: State, events: seq<Event>)
    requires Inv(duration, s) && ValidRun(duration, s, events)
    ensures s.now <= Run(duration, s, events).now && s.bumpedAt <= Run(duration, s, events).bumpedAt
    ensures !NoBump(events) ==> s.now <= Run(duration, s, events).bumpedAt
    decreases |events|
  {
    hide Next, GenerationsFit, FiresFit, WakeUpPending, Conserved, TimesFit;
    if events != [] {
      var e, rest := events[0], events[1..];
      NextKeepsInv(duration, s, e);
      BumpIsStamped(duration, s, e);
      BumpsAreStamped(duration, Next(duration, s, e), rest);
      assert events == [e] + rest;
      assert !NoBump(events) ==> e.Bump? || e.Cancel? || !NoBump(rest);
    }
  }

  /** A callback is authorised only at the end of a quiet window: looking back less than the duration, over whatever
      happened, there was no trigger and no cancel. */
  lemma QuietWindow(duration: nat, s: State, events: seq<Event>, g: nat)
    requires Inv(duration, s) && ValidRun(duration, s, events)
    requires var end := Run(duration, s, events);
      Enabled(duration, end, Wake(g)) && g == end.generation && end.now < s.now + duration
    ensures NoBump(events)
  {
    RunKeepsInv(duration, s, events);
    BumpsAreStamped(duration, s, events);
  }
}
