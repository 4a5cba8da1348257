/**
 The live-watch protocol of the city store (src/store/cityStore.ts): claims are taken at once, the work behind
 them runs one operation at a time, and each stretch of code between two awaits is one step.

 Assumed: `polis_stop_watch` takes effect. A failed `polis_start_watch` may or may not leave a watcher behind.
 */
module WatchModel {
  import opened Results

  datatype Op = Start(epoch: nat, path: string) | Stop(epoch: nat)

  /** What a running start is waiting for. */
  datatype Pc =
    | Teardown                 // the previous watcher is being stopped
    | Subscribe                // subscribeCityUpdated
    | SubscribeSemantic        // subscribeSemanticUpdated
    | StartBackend             // polis_start_watch on the operation's folder
    | StopStale                // superseded by a stop: polis_stop_watch
    | Reissue(folder: string)  // superseded by another folder: polis_start_watch on it
    | CleanUp                  // failed while current: the catch block's teardown

  /** The operation at the head of the chain; a stop only waits for its teardown. */
  datatype Running = Nothing | Starting(epoch: nat, path: string, pc: Pc) | Stopping(epoch: nat)

  /** `owner == 0`: no epoch owns the listeners. `stomped` and `live` are history since the last claim or stop:
      a start that was no longer current cleared the claim of a newer start on the same folder; the start of that claim
      had its `polis_start_watch` succeed. */
  datatype State = State(
    watched: Option<string>, epoch: nat, owner: nat, city: bool, semantic: bool,
    backend: Option<string>, queue: seq<Op>, running: Running, stomped: bool, live: bool)

  const INIT := State(None, 0, 0, false, false, None, [], Nothing, false, false)

  datatype Event =
    | StartWatchFor(path: string)
    | StopWatch
    | Begin                               // the chain reaches the next operation
    | Resolved(ok: bool, started: bool)   // the awaited call settles

  predicate Enabled(s: State, e: Event) {
    match e
    case StartWatchFor(_) => true
    case StopWatch => true
    case Begin => s.running.Nothing? && s.queue != []
    case Resolved(_, _) => !s.running.Nothing?
  }

  function DropListeners(s: State): State {
    s.(city := false, semantic := false, owner := 0)
  }

  function Finish(s: State): State {
    s.(running := Nothing)
  }

  function Wait(s: State, pc: Pc): State
    requires s.running.Starting?
  {
    s.(running := s.running.(pc := pc))
  }

  /** The catch block of `startWatchFor`. */
  function Caught(s: State): State
    requires s.running.Starting?
  {
    if s.running.epoch != s.epoch then Finish(s) else Wait(DropListeners(s), CleanUp)
  }

  /** `if (watchedFolder === path) watchedFolder = null`, whatever the epoch is. */
  function ClearClaim(s: State, epoch: nat, path: string): State {
    if s.watched == Some(path) then s.(watched := None, stomped := epoch != s.epoch) else s
  }

  function AfterStart(s: State): State
    requires s.running.Starting?
  {
    if s.running.epoch == s.epoch then Finish(s).(live := true)
    else match s.watched
      case None => Wait(s, StopStale)
      case Some(folder) => if folder != s.running.path then Wait(s, Reissue(folder)) else Finish(s)
  }

  function Resume(s: State, ok: bool, started: bool): State
    requires s.running.Starting?
  {
    var Starting(epoch, path, pc) := s.running;
    match pc
    case Teardown =>
      var stopped := s.(backend := None);
      if epoch != s.epoch then Finish(stopped) else Wait(stopped.(city := false), Subscribe)
    case Subscribe =>
      if ok then Wait(s.(city := true, semantic := false), SubscribeSemantic) else Caught(s)
    case SubscribeSemantic =>
      if !ok then Caught(s)
      else
        var owned := s.(semantic := true, owner := epoch);
        if epoch != s.epoch then Finish(DropListeners(owned)) else Wait(owned, StartBackend)
    case StartBackend =>
      if ok then AfterStart(s.(backend := Some(path)))
      else Caught(if started then s.(backend := Some(path)) else s)
    case StopStale => Finish(s.(backend := None))
    case Reissue(folder) => Finish(if ok || started then s.(backend := Some(folder)) else s)
    case CleanUp => ClearClaim(Finish(s.(backend := None)), epoch, path)
  }

  function Claimed(s: State, folder: Option<string>, op: Op): State {
    s.(watched := folder, epoch := s.epoch + 1, queue := s.queue + [op], stomped := false, live := false)
  }

  function Next(s: State, e: Event): State
    requires Enabled(s, e)
  {
    match e
    case StartWatchFor(path) =>
      if s.watched == Some(path) then s
      else Claimed(s, Some(path), Start(s.epoch + 1, path))
    case StopWatch => Claimed(s, None, Stop(s.epoch + 1))
    case Begin =>
      var op, rest := s.queue[0], s.queue[1..];
      if op.Stop? then DropListeners(s).(queue := rest, running := Stopping(op.epoch))
      else if op.epoch != s.epoch then s.(queue := rest)
      else DropListeners(s).(queue := rest, running := Starting(op.epoch, op.path, Teardown))
    case Resolved(ok, started) =>
      if s.running.Stopping? then Finish(s.(backend := None)) else Resume(s, ok, started)
  }
}

/** The same protocol as the module-level variables of the store, reassigned stretch by stretch. */
module WatchStore {
  import opened Results
  import opened WatchModel

  class Store {
    var watchedFolder: Option<string>
    var watchEpoch: nat
    var listenerOwnerEpoch: nat
    var cityListening: bool
    var semanticListening: bool
    var backendFolder: Option<string>
    var chain: seq<Op>
    var current: Running
    ghost var stomped: bool
    ghost var live: bool

    ghost function Abs(): State
      reads this
    {
      State(watchedFolder, watchEpoch, listenerOwnerEpoch, cityListening, semanticListening, backendFolder, chain,
            current, stomped, live)
    }

    constructor ()
      ensures Abs() == INIT
    {
      watchedFolder, watchEpoch, listenerOwnerEpoch := None, 0, 0;
      cityListening, semanticListening, backendFolder := false, false, None;
      chain, current, stomped, live := [], Nothing, false, false;
    }

    /** Up to the first await: idempotence check, claim, epoch, enqueue. */
    method StartWatchFor(path: string)
      modifies this
      ensures Abs() == Next(old(Abs()), WatchModel.StartWatchFor(path))
    {
      if watchedFolder == Some(path) {
        return;
      }
      watchedFolder := Some(path);
      watchEpoch := watchEpoch + 1;
      chain := chain + [Start(watchEpoch, path)];
      stomped, live := false, false;
    }

    method StopWatch()
      modifies this
      ensures Abs() == Next(old(Abs()), WatchModel.StopWatch)
    {
      watchEpoch := watchEpoch + 1;
      watchedFolder := None;
      chain := chain + [Stop(watchEpoch)];
      stomped, live := false, false;
    }

    method DropListeners()
      modifies this`cityListening, this`semanticListening, this`listenerOwnerEpoch
      ensures !cityListening && !semanticListening && listenerOwnerEpoch == 0
    {
      if cityListening {
        cityListening := false;
      }
      if semanticListening {
        semanticListening := false;
      }
      listenerOwnerEpoch := 0;
    }

    method DropListenersIfOwned(epoch: nat)
      modifies this`cityListening, this`semanticListening, this`listenerOwnerEpoch
      ensures old(listenerOwnerEpoch) == epoch ==> !cityListening && !semanticListening && listenerOwnerEpoch == 0
      ensures old(listenerOwnerEpoch) != epoch ==>
        cityListening == old(cityListening) && semanticListening == old(semanticListening) &&
          listenerOwnerEpoch == old(listenerOwnerEpoch)
    {
      if listenerOwnerEpoch == epoch {
        DropListeners();
      }
    }

    method BeginNext()
      requires Enabled(Abs(), Begin)
      modifies this
      ensures Abs() == Next(old(Abs()), Begin)
    {
      var op := chain[0];
      chain := chain[1..];
      if op.Start? && op.epoch != watchEpoch {
        return;
      }
      DropListeners();
      current := if op.Start? then Starting(op.epoch, op.path, Teardown) else Stopping(op.epoch);
    }

    method Await(pc: Pc)
      requires current.Starting?
      modifies this`current
      ensures current == old(current).(pc := pc)
    {
      current := current.(pc := pc);
    }

    method Catch()
      requires current.Starting?
      modifies this
      ensures Abs() == Caught(old(Abs()))
    {
      if current.epoch != watchEpoch {
        current := Nothing;
        return;
      }
      DropListeners();
      Await(CleanUp);
    }

    /** `polis_start_watch` has settled. */
    method AfterStartWatch(ok: bool, started: bool)
      requires current.Starting? && current.pc.StartBackend?
      modifies this
      ensures Abs() == Resume(old(Abs()), ok, started)
    {
      if ok || started {
        backendFolder := Some(current.path);
      }
      if !ok {
        Catch();
        return;
      }
      if current.epoch != watchEpoch {
        if watchedFolder.None? {
          Await(StopStale);
          return;
        }
        if watchedFolder.value != current.path {
          Await(Reissue(watchedFolder.value));
          return;
        }
      } else {
        live := true;
      }
      current := Nothing;
    }

    /** Both subscriptions, up to the next await. */
    method AfterSubscribe(ok: bool)
      requires current.Starting? && (current.pc.Subscribe? || current.pc.SubscribeSemantic?)
      modifies this
      ensures Abs() == Resume(old(Abs()), ok, false)
    {
      if !ok {
        Catch();
      } else if current.pc.Subscribe? {
        cityListening := true;
        semanticListening := false;
        Await(SubscribeSemantic);
      } else {
        semanticListening := true;
        listenerOwnerEpoch := current.epoch;
        if current.epoch != watchEpoch {
          DropListenersIfOwned(current.epoch);
          current := Nothing;
        } else {
          Await(StartBackend);
        }
      }
    }

    /** From the settling of the awaited call to the next await. */
    method Continue(ok: bool, started: bool)
      requires Enabled(Abs(), Resolved(ok, started))
      modifies this
      ensures Abs() == Next(old(Abs()), Resolved(ok, started))
    {
      if current.Stopping? {
        backendFolder := None;
        current := Nothing;
        return;
      }
      match current.pc
      case Teardown =>
        backendFolder := None;
        if current.epoch != watchEpoch {
          current := Nothing;
        } else {
          cityListening := false;
          Await(Subscribe);
        }
      case Subscribe => AfterSubscribe(ok);
      case SubscribeSemantic => AfterSubscribe(ok);
      case StartBackend => AfterStartWatch(ok, started);
      case StopStale =>
        backendFolder := None;
        current := Nothing;
      case Reissue(folder) =>
        if ok || started {
          backendFolder := Some(folder);
        }
        current := Nothing;
      case CleanUp =>
        backendFolder := None;
        if watchedFolder == Some(current.path) {
          watchedFolder := None;
          stomped := current.epoch != watchEpoch;
        }
        current := Nothing;
    }
  }
}

/** What holds over every interleaving of starts, stops and settling calls. */
module WatchRuns {
  import opened Results
  import opened WatchModel

  predicate Idle(s: State) {
    s.running.Nothing? && s.queue == []
  }

  /** The backend watches exactly the claimed folder, and the listeners are live just then, for this epoch. */
  predicate Consistent(s: State) {
    && s.backend == s.watched
    && s.city == s.semantic == s.watched.Some?
    && (if s.watched.Some? then s.owner == s.epoch else s.owner == 0)
  }

  /** What the operation of the newest claim or stop is, as long as it has not finished. */
  function Latest(s: State): Option<Op> {
    if s.queue != [] then Some(s.queue[|s.queue| - 1])
    else match s.running
      case Nothing => None
      case Starting(epoch, path, _) => Some(Start(epoch, path))
      case Stopping(epoch) => Some(Stop(epoch))
  }

  predicate ClaimFits(s: State, op: Op) {
    op.epoch == s.epoch &&
    match op
    case Stop(_) => s.watched.None?
    case Start(_, path) => s.watched == Some(path) || (s.watched.None? && s.stomped)
  }

  predicate Silent(s: State) {
    !s.city && !s.semantic && s.owner == 0
  }

  predicate RunningFits(s: State) {
    match s.running
    case Nothing => true
    case Stopping(epoch) => 0 < epoch <= s.epoch && Silent(s)
    case Starting(epoch, path, pc) =>
      0 < epoch <= s.epoch &&
      match pc
      case Teardown => Silent(s)
      case Subscribe => Silent(s) && s.backend.None?
      case SubscribeSemantic => s.city && !s.semantic && s.owner == 0 && s.backend.None?
      case StartBackend => s.city && s.semantic && s.owner == epoch && s.backend.None?
      case StopStale => epoch < s.epoch
      case Reissue(_) => epoch < s.epoch
      case CleanUp => Silent(s)
  }

  /** At rest: nothing is watched, or a folder is, with its claim intact or stomped. */
  predicate AtRest(s: State) {
    if s.backend.None? then s.watched.None? && Silent(s)
    else s.city && s.semantic && s.owner == s.epoch && (s.watched == s.backend || (s.watched.None? && s.stomped))
  }

  /** Only the newest operation is current. */
  predicate EpochsFit(s: State) {
    && (forall i :: 0 <= i < |s.queue| ==> 0 < s.queue[i].epoch <= s.epoch)
    && (forall i :: 0 <= i < |s.queue| - 1 ==> s.queue[i].epoch < s.epoch)
    && (s.queue != [] && !s.running.Nothing? ==> s.running.epoch < s.epoch)
  }

  predicate Inv(s: State) {
    && EpochsFit(s)
    && (Latest(s).Some? ==> ClaimFits(s, Latest(s).value))
    && RunningFits(s)
    && (s.stomped ==> s.watched.None?)
    && (Idle(s) ==> AtRest(s))
    && (s.live <==> Idle(s) && s.backend.Some?)
  }

  lemma ClaimKeepsInv(s: State, e: Event)
    requires Inv(s) && (e.StartWatchFor? || e.StopWatch?)
    ensures Inv(Next(s, e))
  {
  }

  lemma BeginKeepsInv(s: State)
    requires Inv(s) && Enabled(s, Begin)
    ensures Inv(Next(s, Begin))
  {
    var next := Next(s, Begin);
    if |s.queue| > 1 {
      assert next.queue[|next.queue| - 1] == s.queue[|s.queue| - 1];
    }
  }

  /** A step of the running operation keeps the queue and the claim. */
  predicate SameClaim(s: State, next: State) {
    && s.running.Starting? && next.queue == s.queue && next.epoch == s.epoch && next.watched == s.watched
    && next.stomped == s.stomped
    && (next.running.Nothing? ||
         (next.running.Starting? && next.running.epoch == s.running.epoch && next.running.path == s.running.path))
  }

  lemma ClaimKept(s: State, next: State)
    requires Inv(s) && SameClaim(s, next)
    ensures EpochsFit(next) && (next.stomped ==> next.watched.None?)
    ensures Latest(next).Some? ==> ClaimFits(next, Latest(next).value)
  {
    hide RunningFits, AtRest;
    assert Latest(next).Some? ==> Latest(next) == Latest(s);
  }

  /** While a start runs, only the start itself is current, or it is stale and others are queued. */
  lemma StaleHasQueue(s: State)
    requires Inv(s) && s.running.Starting?
    ensures !s.live && (s.running.epoch != s.epoch ==> s.queue != [])
  {
    hide RunningFits, AtRest;
  }

  lemma ResumeKeepsInv(s: State, ok: bool, started: bool)
    requires Inv(s) && s.running.Starting?
    ensures Inv(Resume(s, ok, started))
  {
    hide ClaimFits, AtRest;
    match s.running.pc
    case StartBackend => StartBackendKeepsInv(s, ok, started);
    case CleanUp => CleanUpKeepsInv(s);
    case _ => PlainStepKeepsInv(s, ok, started);
  }

  lemma PlainStepKeepsInv(s: State, ok: bool, started: bool)
    requires Inv(s) && s.running.Starting? && !s.running.pc.StartBackend? && !s.running.pc.CleanUp?
    ensures Inv(Resume(s, ok, started))
  {
    var next := Resume(s, ok, started);
    StaleHasQueue(s);
    hide EpochsFit, ClaimFits, Latest, AtRest;
    ClaimKept(s, next);
    match s.running.pc
    case Teardown => assert RunningFits(next);
    case Subscribe => assert RunningFits(next);
    case SubscribeSemantic => assert RunningFits(next);
    case StopStale => assert RunningFits(next);
    case Reissue(_) => assert RunningFits(next);
  }

  lemma CleanUpKeepsInv(s: State)
    requires Inv(s) && s.running.Starting? && s.running.pc.CleanUp?
    ensures Inv(Resume(s, true, true))
  {
    var next := Resume(s, true, true);
    StaleHasQueue(s);
    assert next.queue == s.queue && next.epoch == s.epoch;
    assert EpochsFit(next) && RunningFits(next);
    hide EpochsFit, RunningFits;
  }

  lemma StartBackendKeepsInv(s: State, ok: bool, started: bool)
    requires Inv(s) && s.running.Starting? && s.running.pc.StartBackend?
    ensures Inv(Resume(s, ok, started))
  {
    var next := Resume(s, ok, started);
    StaleHasQueue(s);
    ClaimKept(s, next);
    assert RunningFits(next);
    assert s.queue == [] ==> Latest(s) == Some(Start(s.running.epoch, s.running.path));
    hide EpochsFit, RunningFits;
  }

  lemma NextKeepsInv(s: State, e: Event)
    requires Inv(s) && Enabled(s, e)
    ensures Inv(Next(s, e))
  {
    match e
    case StartWatchFor(_) => ClaimKeepsInv(s, e);
    case StopWatch => ClaimKeepsInv(s, e);
    case Begin => BeginKeepsInv(s);
    case Resolved(ok, started) =>
      if s.running.Starting? {
        ResumeKeepsInv(s, ok, started);
      }
  }

  ghost predicate ValidRun(s: State, events: seq<Event>)
    decreases |events|
  {
    events == [] || (Enabled(s, events[0]) && ValidRun(Next(s, events[0]), events[1..]))
  }

  function Run(s: State, events: seq<Event>): State
    requires ValidRun(s, events)
    decreases |events|
  {
    if events == [] then s else Run(Next(s, events[0]), events[1..])
  }

  lemma {:induction false} RunKeepsInv(s: State, events: seq<Event>)
    requires Inv(s) && ValidRun(s, events)
    ensures Inv(Run(s, events))
    decreases |events|
  {
    if events != [] {
      NextKeepsInv(s, events[0]);
      RunKeepsInv(Next(s, events[0]), events[1..]);
    }
  }

  /** Whenever the chain is idle, the store is consistent unless since the last claim a stale clean-up cleared that
      claim and its own start succeeded. */
  lemma IdleConsistentIff(events: seq<Event>)
    requires ValidRun(INIT, events) && Idle(Run(INIT, events))
    ensures var s := Run(INIT, events);
      Consistent(s) <==> !(s.stomped && s.live)
  {
    RunKeepsInv(INIT, events);
  }

  // ----- which folder is claimed

  /** A start claims its folder, whatever was claimed before and whatever is running; on another folder it is a new
      epoch with its own operation, behind all others. A stop drops the claim in the same way. */
  lemma ClaimsAreTaken(s: State, path: string)
    ensures Next(s, StartWatchFor(path)).watched == Some(path) && Next(s, StopWatch).watched.None?
    ensures s.watched == Some(path) ==> Next(s, StartWatchFor(path)) == s
    ensures s.watched != Some(path) ==>
      var next := Next(s, StartWatchFor(path));
      next.epoch == s.epoch + 1 && next.queue == s.queue + [Start(next.epoch, path)] && next.running == s.running
    ensures var next := Next(s, StopWatch);
      next.epoch == s.epoch + 1 && next.queue == s.queue + [Stop(next.epoch)] && next.running == s.running
  {
  }

  /** The folder of the last start, or none if a stop came after it. */
  function LastClaim(was: Option<string>, events: seq<Event>): Option<string>
    decreases |events|
  {
    if events == [] then was
    else
      var now := match events[0]
        case StartWatchFor(path) => Some(path)
        case StopWatch => None
        case _ => was;
      LastClaim(now, events[1..])
  }

  /** Every awaited call succeeds. */
  predicate NoneFails(events: seq<Event>) {
    forall i :: 0 <= i < |events| ==> events[i].Resolved? ==> events[i].ok
  }

  predicate CleaningUp(s: State) {
    s.running.Starting? && s.running.pc.CleanUp?
  }

  lemma ResumeClaim(s: State, ok: bool, started: bool)
    requires s.running.Starting?
    ensures var next := Resume(s, ok, started);
      && (next.watched == s.watched || (CleaningUp(s) && next.watched.None?))
      && (!CleaningUp(s) && ok ==> !CleaningUp(next))
  {
    match s.running.pc
    case Teardown =>
    case Subscribe =>
    case SubscribeSemantic =>
    case StartBackend =>
    case _ =>
  }

  lemma LastOfOne(was: Option<string>, e: Event)
    ensures LastClaim(was, [e]) ==
      match e
      case StartWatchFor(path) => Some(path)
      case StopWatch => None
      case _ => was
  {
    assert [e][1..] == [];
  }

  lemma ClaimStep(s: State, e: Event)
    requires Enabled(s, e)
    ensures var next, last := Next(s, e), LastClaim(s.watched, [e]);
      && (next.watched == last || next.watched.None?)
      && (!CleaningUp(s) ==> next.watched == last)
      && (!CleaningUp(s) && (e.Resolved? ==> e.ok) ==> !CleaningUp(next))
  {
    LastOfOne(s.watched, e);
    if e.Resolved? && s.running.Starting? {
      ResumeClaim(s, e.ok, e.started);
    }
    hide LastClaim, Resume;
  }

  lemma LastClaimCons(was: Option<string>, e: Event, rest: seq<Event>)
    ensures LastClaim(was, [e] + rest) == LastClaim(LastClaim(was, [e]), rest)
  {
    assert ([e] + rest)[1..] == rest && [e][1..] == [];
  }

  lemma NoClaim(was: Option<string>)
    ensures LastClaim(was, []) == was
  {
  }

  /** A claim that was dropped stays so until the next one. */
  lemma {:induction false} DroppedOrLast(was: Option<string>, events: seq<Event>)
    ensures LastClaim(None, events) == LastClaim(was, events) || LastClaim(None, events) == None
    decreases |events|
  {
    if events != [] && (events[0].Begin? || events[0].Resolved?) {
      DroppedOrLast(was, events[1..]);
    }
  }

  /** Over any run, failures included, no folder is claimed but the one of the last call. */
  lemma {:induction false} ClaimIsLastOrDropped(s: State, events: seq<Event>)
    requires ValidRun(s, events)
    ensures Run(s, events).watched == LastClaim(s.watched, events) || Run(s, events).watched.None?
    decreases |events|
  {
    hide Next, LastClaim;
    NoClaim(s.watched);
    if events != [] {
      ClaimStep(s, events[0]);
      ClaimIsLastOrDropped(Next(s, events[0]), events[1..]);
      assert events == [events[0]] + events[1..];
      LastClaimCons(s.watched, events[0], events[1..]);
      DroppedOrLast(LastClaim(s.watched, [events[0]]), events[1..]);
    }
  }

  lemma {:induction false} ClaimIsLast(s: State, events: seq<Event>)
    requires ValidRun(s, events) && NoneFails(events) && !CleaningUp(s)
    ensures Run(s, events).watched == LastClaim(s.watched, events) && !CleaningUp(Run(s, events))
    decreases |events|
  {
    hide Next, LastClaim, CleaningUp;
    NoClaim(s.watched);
    if events != [] {
      ClaimStep(s, events[0]);
      ClaimIsLast(Next(s, events[0]), events[1..]);
      assert events == [events[0]] + events[1..];
      LastClaimCons(s.watched, events[0], events[1..]);
    }
  }

  lemma {:induction false} NoneStomped(s: State, events: seq<Event>)
    requires ValidRun(s, events) && NoneFails(events) && !CleaningUp(s) && !s.stomped
    ensures !Run(s, events).stomped
    decreases |events|
  {
    hide Next, LastClaim, CleaningUp;
    if events != [] {
      ClaimStep(s, events[0]);
      StompStep(s, events[0]);
      NoneStomped(Next(s, events[0]), events[1..]);
    }
  }

  lemma StompStep(s: State, e: Event)
    requires Enabled(s, e) && !CleaningUp(s) && !s.stomped
    ensures !Next(s, e).stomped
  {
    if e.Resolved? && s.running.Starting? {
      match s.running.pc
      case Teardown =>
      case Subscribe =>
      case SubscribeSemantic =>
      case StartBackend =>
      case _ =>
    }
  }

  /** As long as no call fails, the claimed folder is that of the last start or stop, whatever overtakes what; and when
      the chain is idle the backend watches just that folder, with live listeners. */
  lemma WatchesLastClaim(events: seq<Event>)
    requires ValidRun(INIT, events) && NoneFails(events)
    ensures var s := Run(INIT, events);
      && s.watched == LastClaim(None, events)
      && (Idle(s) ==> s.backend == LastClaim(None, events) && Consistent(s))
  {
    ClaimIsLast(INIT, events);
    NoneStomped(INIT, events);
    if Idle(Run(INIT, events)) {
      IdleConsistentIff(events);
    }
  }

  // ----- what a caller can do to stay consistent

  /** A claim on the folder whose failed start is still being cleaned up. */
  predicate Reclaims(s: State, e: Event) {
    e.StartWatchFor? && s.watched != Some(e.path) &&
    s.running.Starting? && s.running.pc.CleanUp? && s.running.path == e.path
  }

  ghost predicate NeverReclaims(s: State, events: seq<Event>)
    requires ValidRun(s, events)
    decreases |events|
  {
    events == [] || (!Reclaims(s, events[0]) && NeverReclaims(Next(s, events[0]), events[1..]))
  }

  /** A clean-up that finds its own folder claimed is still current. */
  predicate CleanUpOwnsClaim(s: State) {
    !s.stomped &&
    (s.running.Starting? && s.running.pc.CleanUp? && s.watched == Some(s.running.path) ==> s.running.epoch == s.epoch)
  }

  lemma StepOwnsClaim(s: State, e: Event)
    requires Enabled(s, e) && !Reclaims(s, e) && CleanUpOwnsClaim(s)
    ensures CleanUpOwnsClaim(Next(s, e))
  {
    if e.Resolved? && s.running.Starting? {
      match s.running.pc
      case Teardown =>
      case Subscribe =>
      case SubscribeSemantic =>
      case StartBackend =>
      case _ =>
    }
  }

  lemma {:induction false} NoReclaimNoStomp(s: State, events: seq<Event>)
    requires ValidRun(s, events) && NeverReclaims(s, events) && CleanUpOwnsClaim(s)
    ensures CleanUpOwnsClaim(Run(s, events))
    decreases |events|
  {
    hide Next, Reclaims, CleanUpOwnsClaim;
    if events != [] {
      StepOwnsClaim(s, events[0]);
      NoReclaimNoStomp(Next(s, events[0]), events[1..]);
    }
  }

  /** Without such a claim the store is consistent whenever the chain is idle, failed starts included. */
  lemma CarefulRunsAreConsistent(events: seq<Event>)
    requires ValidRun(INIT, events) && NeverReclaims(INIT, events) && Idle(Run(INIT, events))
    ensures Consistent(Run(INIT, events))
  {
    NoReclaimNoStomp(INIT, events);
    IdleConsistentIff(events);
  }

  /** From where the claim was cleared, the chain can run on so that the newest start succeeds. */
  lemma {:induction false} StompedRunsOn(s: State, path: string) returns (events: seq<Event>)
    requires s.running.Nothing? && s.watched.None? && s.queue != [] && s.queue[|s.queue| - 1] == Start(s.epoch, path)
    requires forall i :: 0 <= i < |s.queue| - 1 ==> s.queue[i].epoch < s.epoch
    ensures ValidRun(s, events) && Idle(Run(s, events)) && Run(s, events).watched.None? &&
      Run(s, events).backend == Some(path)
    decreases |s.queue|
  {
    var begun := Next(s, Begin);
    if |s.queue| == 1 {
      events := LastStartSucceeds(begun, path);
    } else if s.queue[0].Start? {
      events := StompedRunsOn(begun, path);
    } else {
      var later := StompedRunsOn(Next(begun, OK), path);
      events := [OK] + later;
      RunCons(begun, OK, later);
    }
    RunCons(s, Begin, events);
    events := [Begin] + events;
  }

  lemma LastStartSucceeds(s: State, path: string) returns (events: seq<Event>)
    requires s.queue == [] && s.watched.None? && s.running == Starting(s.epoch, path, Teardown)
    ensures ValidRun(s, events) && Idle(Run(s, events)) && Run(s, events).watched.None? &&
      Run(s, events).backend == Some(path)
  {
    var s1 := Next(s, OK);
    var s2 := Next(s1, OK);
    var s3 := Next(s2, OK);
    var s4 := Next(s3, OK);
    assert Idle(s4) && s4.watched.None? && s4.backend == Some(path);
    assert ValidRun(s4, []) && Run(s4, []) == s4;
    hide Next;
    RunCons(s3, OK, []);
    RunCons(s2, OK, [OK] + []);
    RunCons(s1, OK, [OK] + ([OK] + []));
    RunCons(s, OK, [OK] + ([OK] + ([OK] + [])));
    events := [OK] + ([OK] + ([OK] + ([OK] + [])));
  }

  /** The caller's condition is needed: after any such claim the chain can become idle and inconsistent. */
  lemma ReclaimCanStomp(s: State, e: Event) returns (events: seq<Event>)
    requires Inv(s) && Reclaims(s, e)
    ensures ValidRun(Next(s, e), events) && Idle(Run(Next(s, e), events)) && !Consistent(Run(Next(s, e), events))
  {
    var claimed := Next(s, e);
    var cleared := Next(claimed, OK);
    assert claimed.queue == s.queue + [Start(claimed.epoch, e.path)];
    assert cleared.watched.None? && cleared.running.Nothing? && cleared.queue == claimed.queue;
    forall i | 0 <= i < |cleared.queue| - 1 ensures cleared.queue[i].epoch < cleared.epoch {
      assert cleared.queue[i] == s.queue[i];
    }
    var later := StompedRunsOn(cleared, e.path);
    RunCons(claimed, OK, later);
    events := [OK] + later;
  }

  ghost predicate Runs(s: State, events: seq<Event>, end: State) {
    ValidRun(s, events) && Run(s, events) == end
  }

  lemma RunCons(s: State, e: Event, rest: seq<Event>)
    requires Enabled(s, e) && ValidRun(Next(s, e), rest)
    ensures ValidRun(s, [e] + rest) && Run(s, [e] + rest) == Run(Next(s, e), rest)
  {
    assert ([e] + rest)[1..] == rest;
  }

  lemma RunsCons(s: State, e: Event, rest: seq<Event>, end: State)
    requires Enabled(s, e) && Runs(Next(s, e), rest, end)
    ensures Runs(s, [e] + rest, end)
  {
    RunCons(s, e, rest);
  }

  const OK := Resolved(true, true)

  /** A start fails, the watch is stopped and the same folder claimed again; then the clean-up ends. */
  lemma FirstStartFails(path: string, rest: seq<Event>, end: State)
    requires Runs(State(None, 3, 0, false, false, None, [Stop(2), Start(3, path)], Nothing, true, false), rest, end)
    ensures Runs(INIT,
                 [StartWatchFor(path), Begin, OK, Resolved(false, false), StopWatch, StartWatchFor(path), OK]
                 + rest, end)
  {
    var s1 := Next(INIT, StartWatchFor(path));
    var s2 := Next(s1, Begin);
    var s3 := Next(s2, OK);
    var s4 := Next(s3, Resolved(false, false));
    var s5 := Next(s4, StopWatch);
    var s6 := Next(s5, StartWatchFor(path));
    assert Next(s6, OK) == State(None, 3, 0, false, false, None, [Stop(2), Start(3, path)], Nothing, true, false);
    var r6 := [OK] + rest;
    var r5 := [StartWatchFor(path)] + r6;
    var r4 := [StopWatch] + r5;
    var r3 := [Resolved(false, false)] + r4;
    var r2 := [OK] + r3;
    var r1 := [Begin] + r2;
    assert [StartWatchFor(path), Begin, OK, Resolved(false, false), StopWatch, StartWatchFor(path), OK] + rest
        == [StartWatchFor(path)] + r1;
    assert Enabled(s6, OK) && Enabled(s3, Resolved(false, false)) && Enabled(s2, OK) && Enabled(s1, Begin);
    hide Next, Runs;
    RunsCons(s6, OK, rest, end);
    RunsCons(s5, StartWatchFor(path), r6, end);
    RunsCons(s4, StopWatch, r5, end);
    RunsCons(s3, Resolved(false, false), r4, end);
    RunsCons(s2, OK, r3, end);
    RunsCons(s1, Begin, r2, end);
    RunsCons(INIT, StartWatchFor(path), r1, end);
  }

  /** The second start succeeds, but its claim is gone. */
  lemma SecondStartSucceeds(path: string)
    ensures Runs(State(None, 3, 0, false, false, None, [Start(3, path)], Nothing, true, false), [Begin, OK, OK, OK, OK],
                 State(None, 3, 3, true, true, Some(path), [], Nothing, true, true))
  {
    var s2 := State(None, 3, 0, false, false, None, [Start(3, path)], Nothing, true, false);
    var s3 := Next(s2, Begin);
    var s4 := Next(s3, OK);
    var s5 := Next(s4, OK);
    var s6 := Next(s5, OK);
    var s7 := Next(s6, OK);
    assert s7 == State(None, 3, 3, true, true, Some(path), [], Nothing, true, true);
    assert Runs(s7, [], s7);
    assert Enabled(s2, Begin) && Enabled(s3, OK) && Enabled(s4, OK) && Enabled(s5, OK) && Enabled(s6, OK);
    hide *;
    RunsCons(s6, OK, [], s7);
    RunsCons(s5, OK, [OK] + [], s7);
    RunsCons(s4, OK, [OK] + ([OK] + []), s7);
    RunsCons(s3, OK, [OK] + ([OK] + ([OK] + [])), s7);
    RunsCons(s2, Begin, [OK] + ([OK] + ([OK] + ([OK] + []))), s7);
    assert [Begin] + ([OK] + ([OK] + ([OK] + ([OK] + [])))) == [Begin, OK, OK, OK, OK];
  }

  /** The stop runs before it. */
  lemma StopThenStart(path: string)
    ensures Runs(State(None, 3, 0, false, false, None, [Stop(2), Start(3, path)], Nothing, true, false),
                 [Begin, OK, Begin, OK, OK, OK, OK], State(None, 3, 3, true, true, Some(path), [], Nothing, true, true))
  {
    var end := State(None, 3, 3, true, true, Some(path), [], Nothing, true, true);
    var s0 := State(None, 3, 0, false, false, None, [Stop(2), Start(3, path)], Nothing, true, false);
    var s1 := Next(s0, Begin);
    assert Enabled(s1, OK) &&
      Next(s1, OK) == State(None, 3, 0, false, false, None, [Start(3, path)], Nothing, true, false);
    hide Next, Runs;
    SecondStartSucceeds(path);
    RunsCons(s1, OK, [Begin, OK, OK, OK, OK], end);
    RunsCons(s0, Begin, [OK] + [Begin, OK, OK, OK, OK], end);
    assert [Begin] + ([OK] + [Begin, OK, OK, OK, OK]) == [Begin, OK, Begin, OK, OK, OK, OK];
  }

  /** The failing run: a start fails; while it cleans up, the watch is stopped and the same folder started again.
      The second start succeeds, but its claim was cleared by the first. */
  lemma StaleCleanUpStompsClaim(path: string)
    ensures var events := [StartWatchFor(path), Begin, OK, Resolved(false, false), StopWatch, StartWatchFor(path), OK]
        + [Begin, OK, Begin, OK, OK, OK, OK];
      ValidRun(INIT, events) && Idle(Run(INIT, events))
      && Run(INIT, events).backend == Some(path) && Run(INIT, events).watched.None?
  {
    var end := State(None, 3, 3, true, true, Some(path), [], Nothing, true, true);
    StopThenStart(path);
    FirstStartFails(path, [Begin, OK, Begin, OK, OK, OK, OK], end);
    hide Next, Run, ValidRun;
  }

  // ----- the chain drains

  function Remaining(pc: Pc): nat {
    match pc
    case Teardown => 5
    case Subscribe => 4
    case SubscribeSemantic => 3
    case StartBackend => 2
    case _ => 1
  }

  /** How many steps the chain still needs at most. */
  function Work(s: State): nat {
    6 * |s.queue| + (match s.running case Nothing => 0 case Starting(_, _, pc) => Remaining(pc) case Stopping(_) => 1)
  }

  lemma ResumeDrains(s: State, ok: bool, started: bool)
    requires s.running.Starting?
    ensures Work(Resume(s, ok, started)) < Work(s)
  {
    match s.running.pc
    case Teardown =>
    case Subscribe =>
    case SubscribeSemantic =>
    case StartBackend =>
    case _ =>
  }

  /** Every step of the chain brings it closer to idle; only claims and stops add work. */
  lemma ChainDrains(s: State, e: Event)
    requires Enabled(s, e)
    ensures if e.Begin? || e.Resolved? then Work(Next(s, e)) < Work(s) else Work(Next(s, e)) <= Work(s) + 6
  {
    hide Resume;
    if e.Resolved? && s.running.Starting? {
      ResumeDrains(s, e.ok, e.started);
    }
  }
}
