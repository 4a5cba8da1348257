/**
 Loads, refreshes and the live agent poll of the city store (src/store/cityStore.ts), one step per stretch of
 code between two awaits. Responses settle in any order, and may fail.

 Cities are opaque numbers. Dropping an update that is identical to what is shown changes nothing here.
 */
module CityModel {
  import opened Results

  type City = nat

  datatype Kind = Fixture | Folder(path: string) | Reclassified

  /** What a poll tick captured when it sent its request. */
  datatype Tick = Tick(epoch: nat, folder: Option<string>, request: nat)

  /** `pending`, `waiting` and `timers` are the requests on the wire and the timers armed in the browser; the other
      fields are variables of the store, except `fullLoad`: the request whose city was applied last. */
  datatype State = State(
    requestSeq: nat, loading: bool, folder: Option<string>, shown: Option<City>, fullLoad: nat, pending: map<nat, Kind>,
    pollEpoch: nat, timer: Option<nat>, timers: map<nat, nat>, nextTimer: nat,
    inFlight: bool, waiting: map<nat, Tick>, nextTick: nat)

  function Init(folder: Option<string>): State {
    State(0, false, folder, None, 0, map[], 0, None, map[], 0, false, map[], 0)
  }

  datatype Event =
    | Load
    | LoadFolder(path: string)
    | Refresh(force: bool)
    | Reclassify
    | Respond(request: nat, city: Option<City>)     // a load settles: None is a failure
    | LiveCity(update: City)                    // polis://city-updated
    | StartPoll
    | StopPoll
    | Fire(id: nat, visible: bool)              // an armed timer fires
    | RefreshSettled(tick: nat, city: Option<City>)

  predicate Enabled(s: State, e: Event) {
    match e
    case Respond(request, _) => request in s.pending
    case Fire(id, _) => id in s.timers
    case RefreshSettled(tick, _) => tick in s.waiting
    case _ => true
  }

  function Issue(s: State, kind: Kind): State {
    var request := s.requestSeq + 1;
    s.(requestSeq := request, loading := true, pending := s.pending[request := kind],
       folder := if kind.Folder? then Some(kind.path) else s.folder)
  }

  /** Which request a call sends, if any. `tauri` is the desktop app; the browser preview loads a fixture. */
  function Request(tauri: bool, s: State, e: Event): Option<Kind> {
    match e
    case LoadFolder(path) => if path == "" then None else Some(Folder(path))
    case Load => if s.loading then None else if !tauri then Some(Fixture) else Remap(s)
    case Refresh(force) => if !force && s.loading then None else if !tauri then Some(Fixture) else Remap(s)
    case Reclassify => if !tauri || s.loading then None else Some(Reclassified)
    case _ => None
  }

  function Remap(s: State): Option<Kind> {
    if s.folder.Some? && s.folder.value != "" then Some(Folder(s.folder.value)) else None
  }

  function Responded(s: State, request: nat, city: Option<City>): State {
    var settled := s.(pending := s.pending - {request});
    if request != s.requestSeq then settled
    else if city.None? then settled.(loading := false)
    else settled.(loading := false, shown := city, fullLoad := request)
  }

  function Arm(s: State, epoch: nat): State {
    s.(timers := s.timers[s.nextTimer := epoch], timer := Some(s.nextTimer), nextTimer := s.nextTimer + 1)
  }

  function Started(tauri: bool, s: State): State {
    if !tauri || s.timer.Some? then s else Arm(s.(pollEpoch := s.pollEpoch + 1), s.pollEpoch + 1)
  }

  function Stopped(s: State): State {
    s.(pollEpoch := s.pollEpoch + 1, timer := None,
       timers := if s.timer.Some? then s.timers - {s.timer.value} else s.timers)
  }

  function Fired(s: State, id: nat, visible: bool): State
    requires id in s.timers
  {
    var epoch, gone := s.timers[id], s.(timers := s.timers - {id});
    if epoch != s.pollEpoch then gone
    else if visible && !s.loading && !s.inFlight && s.shown.Some? then
      gone.(inFlight := true, waiting := s.waiting[s.nextTick := Tick(epoch, s.folder, s.requestSeq)],
            nextTick := s.nextTick + 1)
    else Arm(gone, epoch)
  }

  /** The guard on applying a refreshed city. */
  predicate Fresh(s: State, tick: Tick) {
    tick.epoch == s.pollEpoch && tick.folder == s.folder && tick.request == s.requestSeq && s.shown.Some?
  }

  function Settled(s: State, id: nat, city: Option<City>): State
    requires id in s.waiting
  {
    var tick := s.waiting[id];
    var done := s.(waiting := s.waiting - {id}, inFlight := false,
                   shown := if Fresh(s, tick) && city.Some? then city else s.shown);
    if tick.epoch == s.pollEpoch then Arm(done, tick.epoch) else done
  }

  function Next(tauri: bool, s: State, e: Event): State
    requires Enabled(s, e)
  {
    match e
    case Respond(request, city) => Responded(s, request, city)
    case LiveCity(city) => s.(shown := Some(city))
    case StartPoll => Started(tauri, s)
    case StopPoll => Stopped(s)
    case Fire(id, visible) => Fired(s, id, visible)
    case RefreshSettled(id, city) => Settled(s, id, city)
    case _ =>
      var kind := Request(tauri, s, e);
      if kind.Some? then Issue(s, kind.value) else s
  }
}

/** The same steps on the store's variables. */
module CityStore {
  import opened Results
  import opened CityModel

  class Store {
    const tauri: bool
    var requestSeq: nat
    var loading: bool
    var selectedFolder: Option<string>
    var cityState: Option<City>
    var agentPollEpoch: nat
    var agentPollTimer: Option<nat>
    var agentPollInFlight: bool
    var pending: map<nat, Kind>
    var timers: map<nat, nat>
    var nextTimer: nat
    var waiting: map<nat, Tick>
    var nextTick: nat
    ghost var fullLoad: nat

    ghost function Abs(): State
      reads this
    {
      State(requestSeq, loading, selectedFolder, cityState, fullLoad, pending,
            agentPollEpoch, agentPollTimer, timers, nextTimer, agentPollInFlight, waiting, nextTick)
    }

    constructor (tauri: bool, restored: Option<string>)
      ensures Abs() == Init(restored) && this.tauri == tauri
    {
      this.tauri := tauri;
      requestSeq, loading, selectedFolder, cityState, pending := 0, false, restored, None, map[];
      agentPollEpoch, agentPollTimer, timers, nextTimer := 0, None, map[], 0;
      agentPollInFlight, waiting, nextTick, fullLoad := false, map[], 0, 0;
    }

    method Send(kind: Kind)
      modifies this
      ensures Abs() == Issue(old(Abs()), kind)
    {
      requestSeq := requestSeq + 1;
      loading := true;
      if kind.Folder? {
        selectedFolder := Some(kind.path);
      }
      pending := pending[requestSeq := kind];
    }

    method LoadFolder(path: string)
      modifies this
      ensures Abs() == Next(tauri, old(Abs()), CityModel.LoadFolder(path))
    {
      if path != "" {
        Send(Folder(path));
      }
    }

    method Load()
      modifies this
      ensures Abs() == Next(tauri, old(Abs()), CityModel.Load)
    {
      if loading {
        return;
      }
      if tauri {
        if selectedFolder.Some? {
          LoadFolder(selectedFolder.value);
        }
      } else {
        Send(Fixture);
      }
    }

    method Refresh(force: bool)
      modifies this
      ensures Abs() == Next(tauri, old(Abs()), CityModel.Refresh(force))
    {
      if !force && loading {
        return;
      }
      if tauri {
        if selectedFolder.Some? {
          LoadFolder(selectedFolder.value);
        }
      } else {
        Send(Fixture);
      }
    }

    method ReclassifyFeatures()
      modifies this
      ensures Abs() == Next(tauri, old(Abs()), Reclassify)
    {
      if tauri && !loading {
        Send(Reclassified);
      }
    }

    method OnResponse(request: nat, city: Option<City>)
      requires request in pending
      modifies this
      ensures Abs() == Next(tauri, old(Abs()), Respond(request, city))
    {
      pending := pending - {request};
      if request != requestSeq {
        return;
      }
      if city.Some? {
        cityState := city;
        fullLoad := request;
      }
      loading := false;
    }

    method SetTimeout(epoch: nat)
      modifies this
      ensures Abs() == Arm(old(Abs()), epoch)
    {
      timers := timers[nextTimer := epoch];
      agentPollTimer := Some(nextTimer);
      nextTimer := nextTimer + 1;
    }

    method StartAgentPoll()
      modifies this
      ensures Abs() == Next(tauri, old(Abs()), StartPoll)
    {
      if !tauri || agentPollTimer.Some? {
        return;
      }
      agentPollEpoch := agentPollEpoch + 1;
      SetTimeout(agentPollEpoch);
    }

    method StopAgentPoll()
      modifies this
      ensures Abs() == Next(tauri, old(Abs()), StopPoll)
    {
      agentPollEpoch := agentPollEpoch + 1;
      if agentPollTimer.Some? {
        timers := timers - {agentPollTimer.value};
        agentPollTimer := None;
      }
    }

    /** The tick up to its await, or all of it when it sends nothing. */
    method OnTimer(id: nat, visible: bool)
      requires id in timers
      modifies this
      ensures Abs() == Next(tauri, old(Abs()), Fire(id, visible))
    {
      var epoch := timers[id];
      timers := timers - {id};
      if epoch != agentPollEpoch {
        return;
      }
      if visible && !loading && !agentPollInFlight && cityState.Some? {
        agentPollInFlight := true;
        waiting := waiting[nextTick := Tick(epoch, selectedFolder, requestSeq)];
        nextTick := nextTick + 1;
        return;
      }
      SetTimeout(epoch);
    }

    /** The rest of a tick: apply if still fresh, release the flag, re-arm if still current. */
    method OnRefreshed(id: nat, city: Option<City>)
      requires id in waiting
      modifies this
      ensures Abs() == Next(tauri, old(Abs()), RefreshSettled(id, city))
    {
      var tick := waiting[id];
      waiting := waiting - {id};
      if tick.epoch == agentPollEpoch && selectedFolder == tick.folder && requestSeq == tick.request
        && cityState.Some? && city.Some? {
        cityState := city;
      }
      agentPollInFlight := false;
      if tick.epoch == agentPollEpoch {
        SetTimeout(tick.epoch);
      }
    }
  }
}

/** What holds over every interleaving. */
module CityRuns {
  import opened Results
  import opened CityModel

  /** `loading` says that the latest request is unresolved; older ones may still be on the wire. */
  predicate RequestsFit(s: State) {
    && (s.loading <==> s.requestSeq in s.pending)
    && (forall request :: request in s.pending ==> 0 < request <= s.requestSeq)
    && s.fullLoad <= s.requestSeq && s.fullLoad !in s.pending
  }

  /** The flag is up exactly while the one refresh is on the wire. */
  predicate RefreshFits(s: State) {
    && (s.inFlight <==> s.waiting.Keys != {})
    && (forall a, b :: a in s.waiting && b in s.waiting ==> a == b)
    && (forall a :: a in s.waiting ==>
         a < s.nextTick && s.waiting[a].epoch <= s.pollEpoch && s.waiting[a].request <= s.requestSeq)
  }

  /** The tick of the current epoch that is awaiting its refresh. */
  predicate CurrentWaits(s: State) {
    exists a :: a in s.waiting && s.waiting[a].epoch == s.pollEpoch
  }

  /** One loop per epoch: either its timer is armed, or its tick is waiting, and then no timer is. */
  predicate LoopFits(s: State) {
    && (forall id :: id in s.timers ==> s.timer == Some(id) && s.timers[id] == s.pollEpoch && id < s.nextTimer)
    && (s.timer.Some? <==> s.timers.Keys != {} || CurrentWaits(s))
    && (s.timers.Keys != {} ==> !CurrentWaits(s))
  }

  predicate Inv(s: State) {
    RequestsFit(s) && RefreshFits(s) && LoopFits(s)
  }

  lemma RequestsKept(tauri: bool, s: State, e: Event)
    requires Enabled(s, e) && RequestsFit(s)
    ensures RequestsFit(Next(tauri, s, e))
  {
  }

  lemma RefreshKept(tauri: bool, s: State, e: Event)
    requires Enabled(s, e) && RefreshFits(s)
    ensures RefreshFits(Next(tauri, s, e))
  {
    var next := Next(tauri, s, e);
    if e.RefreshSettled? {
      assert forall a :: a in s.waiting ==> a == e.tick;
      assert next.waiting.Keys == {};
    } else if e.Fire? && !s.inFlight {
      assert next.waiting.Keys <= {s.nextTick};
      assert next.inFlight ==> s.nextTick in next.waiting;
    }
  }

  lemma LoopKept(tauri: bool, s: State, e: Event)
    requires Enabled(s, e) && RefreshFits(s) && LoopFits(s)
    ensures LoopFits(Next(tauri, s, e))
  {
    var next := Next(tauri, s, e);
    match e
    case Fire(id, visible) => FireKeepsLoop(s, id, visible);
    case RefreshSettled(id, city) => SettleKeepsLoop(s, id, city);
    case StopPoll =>
      assert next.timers.Keys == {};
      assert !CurrentWaits(next);
    case StartPoll =>
      if tauri && s.timer.None? {
        assert next.timers.Keys == {s.nextTimer};
        assert !CurrentWaits(next);
      }
    case _ =>
      assert next.timers == s.timers && next.waiting == s.waiting;
      assert CurrentWaits(next) == CurrentWaits(s);
  }

  lemma FireKeepsLoop(s: State, id: nat, visible: bool)
    requires id in s.timers && RefreshFits(s) && LoopFits(s)
    ensures LoopFits(Fired(s, id, visible))
  {
    var next := Fired(s, id, visible);
    assert forall other :: other in s.timers ==> other == id;
    if visible && !s.loading && !s.inFlight && s.shown.Some? {
      assert next.timers.Keys == {};
      assert s.nextTick in next.waiting;
    } else {
      assert next.timers.Keys == {s.nextTimer};
      assert CurrentWaits(next) == CurrentWaits(s);
    }
  }

  lemma SettleKeepsLoop(s: State, id: nat, city: Option<City>)
    requires id in s.waiting && RefreshFits(s) && LoopFits(s)
    ensures LoopFits(Settled(s, id, city))
  {
    var next := Settled(s, id, city);
    assert forall a :: a in s.waiting ==> a == id;
    assert next.waiting.Keys == {} && !CurrentWaits(next);
    if s.waiting[id].epoch == s.pollEpoch {
      assert CurrentWaits(s);
      assert next.timers.Keys == {s.nextTimer};
    } else {
      assert !CurrentWaits(s) && next.timers == s.timers;
    }
  }

  lemma StepKeepsInv(tauri: bool, s: State, e: Event)
    requires Enabled(s, e) && Inv(s)
    ensures Inv(Next(tauri, s, e))
  {
    hide Next, RequestsFit, RefreshFits, LoopFits;
    RequestsKept(tauri, s, e);
    RefreshKept(tauri, s, e);
    LoopKept(tauri, s, e);
  }

  ghost predicate ValidRun(tauri: bool, s: State, events: seq<Event>)
    decreases |events|
  {
    events == [] || (Enabled(s, events[0]) && ValidRun(tauri, Next(tauri, s, events[0]), events[1..]))
  }

  function Run(tauri: bool, s: State, events: seq<Event>): State
    requires ValidRun(tauri, s, events)
    decreases |events|
  {
    if events == [] then s else Run(tauri, Next(tauri, s, events[0]), events[1..])
  }

  lemma {:induction false} RunKeepsInv(tauri: bool, s: State, events: seq<Event>)
    requires Inv(s) && ValidRun(tauri, s, events)
    ensures Inv(Run(tauri, s, events))
    decreases |events|
  {
    hide Next, Inv;
    if events != [] {
      StepKeepsInv(tauri, s, events[0]);
      RunKeepsInv(tauri, Next(tauri, s, events[0]), events[1..]);
    }
  }

  /** In every reachable state: `loading` means that the latest request is unresolved, at most one refresh is on
      the wire, and the current epoch has exactly one loop if the poll runs and none if it does not. */
  lemma ReachableStatesFit(tauri: bool, folder: Option<string>, events: seq<Event>)
    requires ValidRun(tauri, Init(folder), events)
    ensures var s := Run(tauri, Init(folder), events);
      && (s.loading <==> s.requestSeq in s.pending)
      && |s.waiting| <= 1 && (s.inFlight <==> |s.waiting| == 1)
      && |s.timers| + (if CurrentWaits(s) then 1 else 0) == (if s.timer.Some? then 1 else 0)
  {
    var s := Run(tauri, Init(folder), events);
    RunKeepsInv(tauri, Init(folder), events);
    AtMostOne(s.waiting.Keys);
    AtMostOne(s.timers.Keys);
    assert |s.waiting| == |s.waiting.Keys| && |s.timers| == |s.timers.Keys|;
  }

  lemma AtMostOne(ids: set<nat>)
    requires forall a, b :: a in ids && b in ids ==> a == b
    ensures |ids| == if ids == {} then 0 else 1
  {
    if ids != {} {
      var a :| a in ids;
      assert ids == {a};
    }
  }

  // ----- only the latest request is applied

  function Issues(tauri: bool, s: State, events: seq<Event>): nat
    requires ValidRun(tauri, s, events)
    decreases |events|
  {
    if events == [] then 0
    else
      (if Request(tauri, s, events[0]).Some? then 1 else 0) + Issues(tauri, Next(tauri, s, events[0]), events[1..])
  }

  lemma StepCounts(tauri: bool, s: State, e: Event)
    requires Enabled(s, e) && Inv(s)
    ensures var next := Next(tauri, s, e);
      && next.requestSeq == s.requestSeq + (if Request(tauri, s, e).Some? then 1 else 0)
      && s.pollEpoch <= next.pollEpoch <= s.pollEpoch + 1
      && s.fullLoad <= next.fullLoad
  {
    match e
    case Respond(request, city) =>
    case LiveCity(city) =>
    case StartPoll =>
    case StopPoll =>
    case Fire(id, visible) =>
    case RefreshSettled(id, city) =>
    case _ =>
  }

  /** Requests are numbered in the order they are issued, and a full load that was applied was the latest one at
      that moment: the numbers of applied loads only grow. */
  lemma {:induction false} RequestsAreNumbered(tauri: bool, s: State, events: seq<Event>)
    requires Inv(s) && ValidRun(tauri, s, events)
    ensures Run(tauri, s, events).requestSeq == s.requestSeq + Issues(tauri, s, events)
    ensures s.fullLoad <= Run(tauri, s, events).fullLoad
    decreases |events|
  {
    hide Next, Inv, Request;
    if events != [] {
      StepKeepsInv(tauri, s, events[0]);
      StepCounts(tauri, s, events[0]);
      RequestsAreNumbered(tauri, Next(tauri, s, events[0]), events[1..]);
    }
  }

  lemma ResponseStep(tauri: bool, s: State, request: nat, city: Option<City>)
    requires RequestsFit(s) && request in s.pending
    ensures var next := Next(tauri, s, Respond(request, city));
      && next.requestSeq == s.requestSeq && next.pending.Keys == s.pending.Keys - {request}
      && (request != s.requestSeq ==> next.shown == s.shown && next.fullLoad == s.fullLoad && next.loading == s.loading)
      && (request == s.requestSeq ==>
            && !next.loading && next.shown == (if city.Some? then city else s.shown)
            && next.fullLoad == if city.Some? then request else s.fullLoad)
  {
  }

  /** After any run from the start, a response changes what is shown, which load that is, or `loading`, only if it
      answers the request issued last; and a successful answer to that one is always applied. */
  lemma OnlyLatestIsApplied(tauri: bool, folder: Option<string>, events: seq<Event>, request: nat, city: Option<City>)
    requires ValidRun(tauri, Init(folder), events) && request in Run(tauri, Init(folder), events).pending
    ensures var s := Run(tauri, Init(folder), events);
      var next := Next(tauri, s, Respond(request, city));
      && s.fullLoad != request
      && (next.fullLoad == request <==> city.Some? && request == Issues(tauri, Init(folder), events))
      && (request == Issues(tauri, Init(folder), events) && city.Some? ==> next.shown == city)
      && (next.shown != s.shown || next.fullLoad != s.fullLoad || next.loading != s.loading ==>
            request == Issues(tauri, Init(folder), events))
  {
    RunKeepsInv(tauri, Init(folder), events);
    RequestsAreNumbered(tauri, Init(folder), events);
    var s := Run(tauri, Init(folder), events);
    hide Next, Run, Issues, ValidRun;
    ResponseStep(tauri, s, request, city);
  }

  predicate Responses(events: seq<Event>) {
    forall i :: 0 <= i < |events| ==> events[i].Respond?
  }

  /** How a request is answered, if it is. */
  function Answer(request: nat, events: seq<Event>): Option<Option<City>>
    requires Responses(events)
  {
    if events == [] then None
    else if events[0].request == request then Some(events[0].city)
    else Answer(request, events[1..])
  }

  /** A request that is settled is not answered again. */
  lemma {:induction false} AnsweredOnce(tauri: bool, s: State, events: seq<Event>, request: nat)
    requires RequestsFit(s) && Responses(events) && ValidRun(tauri, s, events) && request !in s.pending
    ensures Answer(request, events).None? && forall city :: Respond(request, city) !in events
    decreases |events|
  {
    if events != [] {
      assert Enabled(s, events[0]);
      ResponseStep(tauri, s, events[0].request, events[0].city);
      RequestsKept(tauri, s, events[0]);
      AnsweredOnce(tauri, Next(tauri, s, events[0]), events[1..], request);
      assert events == [events[0]] + events[1..];
    }
  }

  lemma {:induction false} AnswerIsMember(tauri: bool, s: State, events: seq<Event>, request: nat, city: Option<City>)
    requires RequestsFit(s) && Responses(events) && ValidRun(tauri, s, events)
    ensures Answer(request, events) == Some(city) <==> Respond(request, city) in events
    decreases |events|
  {
    if events != [] {
      var e, next, rest := events[0], Next(tauri, s, events[0]), events[1..];
      ResponseStep(tauri, s, e.request, e.city);
      RequestsKept(tauri, s, e);
      assert events == [e] + rest;
      hide Next, RequestsFit;
      if e.request == request {
        AnsweredOnce(tauri, next, rest, request);
      } else {
        AnswerIsMember(tauri, next, rest, request, city);
      }
    }
  }

  /** Responses may arrive in any order and number: what is shown in the end is decided by the answer to the latest
      request alone, and `loading` ends exactly when that answer is among them. */
  lemma {:induction false} ResponsesInAnyOrder(tauri: bool, s: State, events: seq<Event>)
    requires RequestsFit(s) && Responses(events) && ValidRun(tauri, s, events)
    ensures var end, answer := Run(tauri, s, events), Answer(s.requestSeq, events);
      && end.requestSeq == s.requestSeq
      && end.loading == (s.loading && answer.None?)
      && end.shown == (if answer.Some? && answer.value.Some? then answer.value else s.shown)
      && end.fullLoad == if answer.Some? && answer.value.Some? then s.requestSeq else s.fullLoad
    decreases |events|
  {
    if events != [] {
      var e, next, rest := events[0], Next(tauri, s, events[0]), events[1..];
      ResponseStep(tauri, s, e.request, e.city);
      RequestsKept(tauri, s, e);
      hide Next, RequestsFit;
      ResponsesInAnyOrder(tauri, next, rest);
      if e.request == s.requestSeq {
        AnsweredOnce(tauri, next, rest, s.requestSeq);
      }
    }
  }

  /** Two runs with the same responses in different orders end alike. */
  lemma OrderDoesNotMatter(tauri: bool, s: State, a: seq<Event>, b: seq<Event>)
    requires RequestsFit(s) && Responses(a) && Responses(b) && ValidRun(tauri, s, a) && ValidRun(tauri, s, b)
    requires forall e :: e in a <==> e in b
    ensures var x, y := Run(tauri, s, a), Run(tauri, s, b);
      x.shown == y.shown && x.fullLoad == y.fullLoad && x.loading == y.loading
  {
    ResponsesInAnyOrder(tauri, s, a);
    ResponsesInAnyOrder(tauri, s, b);
    forall city ensures Answer(s.requestSeq, a) == Some(city) <==> Answer(s.requestSeq, b) == Some(city) {
      AnswerIsMember(tauri, s, a, s.requestSeq, city);
      AnswerIsMember(tauri, s, b, s.requestSeq, city);
    }
    hide RequestsFit, ValidRun, Run, Answer;
    assert Answer(s.requestSeq, a).Some? ==> Answer(s.requestSeq, a) == Some(Answer(s.requestSeq, a).value);
    assert Answer(s.requestSeq, b).Some? ==> Answer(s.requestSeq, b) == Some(Answer(s.requestSeq, b).value);
  }

  // ----- a refresh is applied only if nothing happened since it was sent

  /** A step that may happen while a refresh is on the wire without making it stale. */
  predicate Quiet(tauri: bool, s: State, e: Event)
    requires Enabled(s, e)
  {
    && Request(tauri, s, e).None?
    && !e.StopPoll? && !(e.StartPoll? && tauri && s.timer.None?)
    && Next(tauri, s, e).folder == s.folder
    && Next(tauri, s, e).fullLoad == s.fullLoad
  }

  ghost predicate QuietRun(tauri: bool, s: State, events: seq<Event>)
    requires ValidRun(tauri, s, events)
    decreases |events|
  {
    events == [] || (Quiet(tauri, s, events[0]) && QuietRun(tauri, Next(tauri, s, events[0]), events[1..]))
  }

  lemma {:induction false} CountersOnlyGrow(tauri: bool, s: State, events: seq<Event>)
    requires Inv(s) && ValidRun(tauri, s, events)
    ensures s.requestSeq <= Run(tauri, s, events).requestSeq && s.pollEpoch <= Run(tauri, s, events).pollEpoch
    decreases |events|
  {
    hide Next, Inv, Request;
    if events != [] {
      StepKeepsInv(tauri, s, events[0]);
      StepCounts(tauri, s, events[0]);
      CountersOnlyGrow(tauri, Next(tauri, s, events[0]), events[1..]);
    }
  }

  lemma SameCountersStep(tauri: bool, s: State, e: Event)
    requires Enabled(s, e) && Inv(s) && !s.loading
    requires Next(tauri, s, e).requestSeq == s.requestSeq && Next(tauri, s, e).pollEpoch == s.pollEpoch
    ensures Quiet(tauri, s, e) && !Next(tauri, s, e).loading
  {
  }

  lemma {:induction false} SameCountersMeansQuiet(tauri: bool, s: State, events: seq<Event>)
    requires Inv(s) && !s.loading && ValidRun(tauri, s, events)
    requires Run(tauri, s, events).requestSeq == s.requestSeq && Run(tauri, s, events).pollEpoch == s.pollEpoch
    ensures QuietRun(tauri, s, events)
    decreases |events|
  {
    hide Next, Inv, Request, Quiet;
    if events != [] {
      var next := Next(tauri, s, events[0]);
      StepKeepsInv(tauri, s, events[0]);
      StepCounts(tauri, s, events[0]);
      CountersOnlyGrow(tauri, next, events[1..]);
      SameCountersStep(tauri, s, events[0]);
      SameCountersMeansQuiet(tauri, next, events[1..]);
    }
  }

  lemma StepKeepsTick(tauri: bool, s: State, e: Event, id: nat)
    requires Enabled(s, e) && id < s.nextTick
    ensures var next := Next(tauri, s, e);
      s.nextTick <= next.nextTick && (id in next.waiting ==> id in s.waiting && next.waiting[id] == s.waiting[id])
  {
  }

  /** A refresh that is still on the wire carries what its tick captured. */
  lemma {:induction false} RunKeepsTick(tauri: bool, s: State, events: seq<Event>, id: nat)
    requires ValidRun(tauri, s, events) && id < s.nextTick
    ensures var end := Run(tauri, s, events);
      id in end.waiting ==> id in s.waiting && end.waiting[id] == s.waiting[id]
    decreases |events|
  {
    hide Next;
    if events != [] {
      StepKeepsTick(tauri, s, events[0], id);
      RunKeepsTick(tauri, Next(tauri, s, events[0]), events[1..], id);
    }
  }

  lemma QuietStep(tauri: bool, s: State, e: Event)
    requires Enabled(s, e) && Quiet(tauri, s, e)
    ensures var next := Next(tauri, s, e);
      && next.requestSeq == s.requestSeq && next.pollEpoch == s.pollEpoch && next.folder == s.folder
      && (s.shown.Some? ==> next.shown.Some?)
  {
    match e
    case Respond(request, city) =>
    case LiveCity(city) =>
    case StartPoll =>
    case StopPoll =>
    case Fire(id, visible) =>
    case RefreshSettled(id, city) =>
    case _ => assert Next(tauri, s, e) == s;
  }

  lemma {:induction false} QuietKeepsCounters(tauri: bool, s: State, events: seq<Event>)
    requires ValidRun(tauri, s, events) && QuietRun(tauri, s, events)
    ensures var end := Run(tauri, s, events);
      && end.requestSeq == s.requestSeq && end.pollEpoch == s.pollEpoch && end.folder == s.folder
      && (s.shown.Some? ==> end.shown.Some?)
    decreases |events|
  {
    hide Next, Quiet;
    if events != [] {
      QuietStep(tauri, s, events[0]);
      QuietKeepsCounters(tauri, Next(tauri, s, events[0]), events[1..]);
    }
  }

  lemma TickCaptures(tauri: bool, s: State, timer: nat)
    requires Inv(s) && timer in s.timers && !s.inFlight && Fired(s, timer, true).inFlight
    ensures var sent := Fired(s, timer, true);
      && Next(tauri, s, Fire(timer, true)) == sent && !sent.loading && sent.shown.Some? && s.nextTick < sent.nextTick
      && s.nextTick in sent.waiting && sent.waiting[s.nextTick] == Tick(sent.pollEpoch, sent.folder, sent.requestSeq)
  {
  }

  /** What the guard compares is unchanged exactly after a quiet run. */
  lemma FreshIffQuiet(tauri: bool, s: State, timer: nat, events: seq<Event>)
    requires Inv(s) && timer in s.timers && !s.inFlight && Fired(s, timer, true).inFlight
    requires ValidRun(tauri, Fired(s, timer, true), events)
    requires s.nextTick in Run(tauri, Fired(s, timer, true), events).waiting
    ensures var sent := Fired(s, timer, true);
      var end := Run(tauri, sent, events);
      Fresh(end, end.waiting[s.nextTick]) <==> QuietRun(tauri, sent, events)
  {
    var sent := Fired(s, timer, true);
    TickCaptures(tauri, s, timer);
    StepKeepsInv(tauri, s, Fire(timer, true));
    RunKeepsTick(tauri, sent, events, s.nextTick);
    hide Inv, Run, QuietRun, ValidRun, Fired, Next;
    if Fresh(Run(tauri, sent, events), sent.waiting[s.nextTick]) {
      SameCountersMeansQuiet(tauri, sent, events);
    }
    if QuietRun(tauri, sent, events) {
      QuietKeepsCounters(tauri, sent, events);
    }
  }

  lemma SettledShows(tauri: bool, s: State, id: nat, city: Option<City>)
    requires id in s.waiting
    ensures Next(tauri, s, RefreshSettled(id, city)).shown ==
      if city.Some? && Fresh(s, s.waiting[id]) then city else s.shown
  {
  }

  /** A tick sends its refresh; anything may happen; then the refresh settles. The city it brings is shown if and only
      if since it was sent there was no stop or restart of the poll, no request, no change of folder, and no full load
      was applied; otherwise, and when it fails, what is shown stays. */
  lemma RefreshIsAppliedIff(tauri: bool, s: State, timer: nat, events: seq<Event>, city: Option<City>)
    requires Inv(s) && timer in s.timers && !s.inFlight && Fired(s, timer, true).inFlight
    requires ValidRun(tauri, Fired(s, timer, true), events)
    requires s.nextTick in Run(tauri, Fired(s, timer, true), events).waiting
    ensures var sent := Fired(s, timer, true);
      var end := Run(tauri, sent, events);
      Next(tauri, end, RefreshSettled(s.nextTick, city)).shown
      == if city.Some? && QuietRun(tauri, sent, events) then city else end.shown
  {
    hide *;
    FreshIffQuiet(tauri, s, timer, events);
    SettledShows(tauri, Run(tauri, Fired(s, timer, true), events), s.nextTick, city);
  }

  /** Seen from what is shown: a refresh that changes it was not stale. */
  lemma AppliedRefreshIsFresh(tauri: bool, s: State, timer: nat, events: seq<Event>, city: City)
    requires Inv(s) && timer in s.timers && !s.inFlight && Fired(s, timer, true).inFlight
    requires ValidRun(tauri, Fired(s, timer, true), events)
    requires var end := Run(tauri, Fired(s, timer, true), events);
      s.nextTick in end.waiting && Next(tauri, end, RefreshSettled(s.nextTick, Some(city))).shown != end.shown
    ensures QuietRun(tauri, Fired(s, timer, true), events)
  {
    hide *;
    RefreshIsAppliedIff(tauri, s, timer, events, Some(city));
  }

  /** A watcher update is not such an event: a refresh that was sent before the update and settles after it replaces
      the newer city with its own. */
  lemma RefreshReplacesWatcherUpdate(tauri: bool, s: State, tick: nat, update: City, refreshed: City)
    requires tick in s.waiting && Fresh(s, s.waiting[tick])
    ensures var live := Next(tauri, s, LiveCity(update));
      && Quiet(tauri, s, LiveCity(update)) && live.shown == Some(update)
      && Next(tauri, live, RefreshSettled(tick, Some(refreshed))).shown == Some(refreshed)
  {
  }

  // ----- what the calls are for

  /** A call sends a request, and for what. A folder is mapped, and a forced refresh made, also while another load is
      running; the other calls wait for it. */
  lemma CallsSend(tauri: bool, s: State, e: Event)
    requires Enabled(s, e)
    ensures var next, remap := Next(tauri, s, e), !tauri || Remap(s).Some?;
      && (next.requestSeq != s.requestSeq <==>
            || (e.LoadFolder? && e.path != "")
            || (e.Refresh? && e.force && remap)
            || (e.Refresh? && !s.loading && remap)
            || (e.Load? && !s.loading && remap)
            || (e.Reclassify? && !s.loading && tauri))
      && (next.requestSeq != s.requestSeq ==>
            && next.requestSeq == s.requestSeq + 1 && next.loading
            && next.requestSeq in next.pending
            && next.pending[next.requestSeq] ==
                 if e.Reclassify? then Reclassified
                 else if e.LoadFolder? then Folder(e.path)
                 else if !tauri then Fixture
                 else Folder(s.folder.value))
  {
  }

  /** The folder that was chosen last. */
  function Chosen(folder: Option<string>, events: seq<Event>): Option<string>
    decreases |events|
  {
    if events == [] then folder
    else Chosen(if events[0].LoadFolder? && events[0].path != "" then Some(events[0].path) else folder, events[1..])
  }

  lemma ChosenStep(tauri: bool, s: State, e: Event)
    requires Enabled(s, e)
    ensures Next(tauri, s, e).folder == Chosen(s.folder, [e])
  {
    assert [e][1..] == [];
  }

  lemma ChosenCons(folder: Option<string>, e: Event, rest: seq<Event>)
    ensures Chosen(folder, [e] + rest) == Chosen(Chosen(folder, [e]), rest)
  {
    assert ([e] + rest)[1..] == rest && [e][1..] == [];
  }

  /** The selected folder is always the one that was chosen last, whatever else was called and settled. */
  lemma {:induction false} SelectsLastChosen(tauri: bool, s: State, events: seq<Event>)
    requires ValidRun(tauri, s, events)
    ensures Run(tauri, s, events).folder == Chosen(s.folder, events)
    decreases |events|
  {
    hide Next, Chosen;
    if events != [] {
      ChosenStep(tauri, s, events[0]);
      SelectsLastChosen(tauri, Next(tauri, s, events[0]), events[1..]);
      ChosenCons(s.folder, events[0], events[1..]);
      assert events == [events[0]] + events[1..];
    } else {
      assert Chosen(s.folder, []) == s.folder by { NothingChosen(s.folder); }
    }
  }

  lemma NothingChosen(folder: Option<string>)
    ensures Chosen(folder, []) == folder
  {
  }

  lemma {:induction false} NoIssueNoChoice(tauri: bool, s: State, events: seq<Event>)
    requires Inv(s) && ValidRun(tauri, s, events) && Issues(tauri, s, events) == 0
    ensures Run(tauri, s, events).folder == s.folder
    decreases |events|
  {
    hide Next, Inv;
    if events != [] {
      StepKeepsInv(tauri, s, events[0]);
      ChosenStep(tauri, s, events[0]);
      NoIssueNoChoice(tauri, Next(tauri, s, events[0]), events[1..]);
    }
  }

  /** A folder is mapped, in whatever state. If nothing else is asked for until its scan answers, then that answer is
      shown, under that folder. */
  lemma LastFolderIsShown(tauri: bool, s: State, path: string, events: seq<Event>, city: City)
    requires Inv(s) && path != "" && ValidRun(tauri, Next(tauri, s, LoadFolder(path)), events)
    requires var asked := Next(tauri, s, LoadFolder(path));
      Issues(tauri, asked, events) == 0 && asked.requestSeq in Run(tauri, asked, events).pending
    ensures var asked := Next(tauri, s, LoadFolder(path));
      var shown := Next(tauri, Run(tauri, asked, events), Respond(asked.requestSeq, Some(city)));
      && asked.requestSeq == s.requestSeq + 1 && asked.pending[asked.requestSeq] == Folder(path)
      && shown.shown == Some(city) && shown.folder == Some(path) && !shown.loading
      && shown.fullLoad == asked.requestSeq
  {
    var asked := Next(tauri, s, LoadFolder(path));
    CallsSend(tauri, s, LoadFolder(path));
    assert asked.folder == Some(path);
    StepKeepsInv(tauri, s, LoadFolder(path));
    RunKeepsInv(tauri, asked, events);
    RequestsAreNumbered(tauri, asked, events);
    NoIssueNoChoice(tauri, asked, events);
    hide Run, Issues, ValidRun;
  }

  // ----- the poll

  /** Whether the poll was started and not stopped since. */
  function Polling(was: bool, tauri: bool, events: seq<Event>): bool
    decreases |events|
  {
    if events == [] then was
    else Polling(if events[0].StartPoll? then was || tauri else was && !events[0].StopPoll?, tauri, events[1..])
  }

  lemma PollingStep(tauri: bool, s: State, e: Event)
    requires Enabled(s, e) && Inv(s)
    ensures Next(tauri, s, e).timer.Some? ==
      if e.StartPoll? then s.timer.Some? || tauri else s.timer.Some? && !e.StopPoll?
  {
    if e.RefreshSettled? && s.waiting[e.tick].epoch == s.pollEpoch {
      assert CurrentWaits(s);
    }
  }

  /** The poll runs exactly from a start to the next stop, in the desktop app, whatever its ticks and refreshes do. */
  lemma {:induction false} PollRunsIff(tauri: bool, s: State, events: seq<Event>)
    requires Inv(s) && ValidRun(tauri, s, events)
    ensures Run(tauri, s, events).timer.Some? == Polling(s.timer.Some?, tauri, events)
    decreases |events|
  {
    hide Next, Inv;
    if events != [] {
      StepKeepsInv(tauri, s, events[0]);
      PollingStep(tauri, s, events[0]);
      PollRunsIff(tauri, Next(tauri, s, events[0]), events[1..]);
    }
  }

  /** A tick of the running poll sends a refresh if and only if the page is visible, a city is shown, nothing is loading
      and no refresh is on the wire, of whatever epoch; else the next tick is armed at once. */
  lemma TickSendsIff(tauri: bool, s: State, id: nat, visible: bool)
    requires Inv(s) && id in s.timers
    ensures var next := Next(tauri, s, Fire(id, visible));
      && (next.waiting != s.waiting <==> visible && s.shown.Some? && !s.loading && s.waiting == map[])
      && (next.waiting != s.waiting ==>
            next.waiting == map[s.nextTick := Tick(s.pollEpoch, s.folder, s.requestSeq)] && next.timers == map[])
      && (next.waiting == s.waiting ==> next.timers == map[s.nextTimer := s.pollEpoch])
  {
    var next := Next(tauri, s, Fire(id, visible));
    assert s.timers.Keys == {id} && s.timers[id] == s.pollEpoch;
    if visible && !s.loading && !s.inFlight && s.shown.Some? {
      assert s.waiting == map[] && next.timers == map[];
      assert next.waiting == map[s.nextTick := Tick(s.pollEpoch, s.folder, s.requestSeq)];
      assert s.nextTick in next.waiting;
    } else {
      assert next.waiting == s.waiting && next.timers == map[s.nextTimer := s.pollEpoch];
      assert s.inFlight ==> s.waiting.Keys != {};
    }
  }
}
