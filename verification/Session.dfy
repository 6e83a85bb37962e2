/** The session protocol as a transition system: the bridge, its suspended operations, the
    engine, and the requests between them. One event is one uninterrupted stretch of bridge
    code, or the core serving one outstanding request; any enabled event may come next, so
    requests are served one at a time in any order. */
module Session {
  import opened Wrappers
  import opened Config
  import opened Core
  import opened Bridge

  /** `workers`: `connect` and `_switchTo` calls suspended at an await. `stops`: `disconnect`
      calls awaiting their stop, with whether the core has served it. Both are numbered in
      the order in which the calls began; `next` is the next number. */
  datatype Sys = Sys(
    f: Fields, core: Option<Core.Session<string>>, workers: map<nat, Worker>, stops: map<nat, bool>, next: nat)

  const START := Sys(INITIAL, None, map[], map[], 0)

  /** The first four are the user and the poll timer; then the core serving a request; then a
      suspended call going on. `mode` and `backups` are what the settings and the node list
      say at that moment. */
  datatype Event =
    | CallConnect(needsElevation: bool, node: Option<Node>)
    | CallSwitch(to: Node, mode: Mode)
    | CallDisconnect
    | PollTick
    | ServeStop(id: nat)
    | ServeWorker(id: nat, outcome: StartOutcome, throws: bool)
    | ResumeWorker(id: nat, mode: Mode, backups: seq<Node>)
    | ResumeDisconnect(id: nat)

  // ---- Events ------------------------------------------------------------------------------------

  predicate Awaited(at: Point) {
    (at.AwaitStop? && !at.done) || (at.AwaitStart? && at.answer.None?) || (at.AwaitOrphan? && !at.done)
  }

  predicate Completed(s: Sys, stop: Option<nat>) {
    stop.None? || stop.value !in s.stops || s.stops[stop.value]
  }

  predicate CanGoOn(s: Sys, at: Point) {
    if at.AwaitStopping? then Completed(s, at.stop) else !Awaited(at)
  }

  ghost predicate Enabled(s: Sys, e: Event) {
    match e
    case CallConnect(_, _) => true
    case CallSwitch(_, _) => true
    case CallDisconnect => true
    case PollTick => s.f.polling
    case ServeStop(id) => id in s.stops && !s.stops[id]
    case ServeWorker(id, o, _) =>
      id in s.workers && Awaited(s.workers[id].at)
      && (s.workers[id].at.AwaitStart? ==> PossibleOutcome(|s.workers[id].at.list|, o))
    case ResumeWorker(id, _, _) => id in s.workers && CanGoOn(s, s.workers[id].at)
    case ResumeDisconnect(id) => id in s.stops && s.stops[id]
  }

  /** The core serves the request `w` awaits. A start that throws took no effect. */
  function Served(core: Option<Core.Session<string>>, w: Worker, o: StartOutcome, throws: bool)
    : (Option<Core.Session<string>>, Worker)
  {
    match w.at
    case AwaitStop(mode, _) => (None, w.(at := AwaitStop(mode, true)))
    case AwaitOrphan(_) => (None, w.(at := AwaitOrphan(true)))
    case AwaitStart(list, mode, _) =>
      if throws then (core, w.(at := AwaitStart(list, mode, Some(Threw))))
      else
        var (core', rc) := ServeStart(core, Payloads(list), mode, o);
        (core', w.(at := AwaitStart(list, mode, Some(Code(rc)))))
    case _ => (core, w)
  }

  /** The stretch that follows the await `w` is suspended at. */
  function Resumed(f: Fields, w: Worker, running: bool, mode: Mode, backups: seq<Node>): Next
    requires !Awaited(w.at)
  {
    match w.at
    case AwaitStopping(_) => AfterStopping(f, w, running, mode, backups)
    case AwaitStop(_, _) => AfterStop(f, w, mode, backups)
    case AwaitStart(_, _, _) => AfterStart(f, w)
    case AwaitReturn(_, _, _) => AfterReturn(f, w, running)
    case AwaitOrphan(_) => AfterOrphan(f)
  }

  function Put(s: Sys, id: nat, n: Next): Sys {
    s.(f := n.f, workers := if n.w.Some? then s.workers[id := n.w.value] else s.workers - {id})
  }

  function Begun(s: Sys, n: Next): Sys {
    if n.w.Some? then Put(s, s.next, n).(next := s.next + 1) else s.(f := n.f)
  }

  function Step(s: Sys, e: Event): Sys
    requires Enabled(s, e)
  {
    match e
    case CallConnect(needsElevation, node) => Begun(s, BeginConnect(s.f, needsElevation, node))
    case CallSwitch(to, mode) =>
      var swaps := !SwitchIgnored(s.f, to) && HotSwaps(s.f, s.core, to);
      var core' := if swaps then SelectOn(s.core, IndexOf(s.f.candidates, to.id)) else s.core;
      Begun(s, BeginSwitch(s.f, s.core, to, mode)).(core := core')
    case CallDisconnect =>
      var (f', stop) := BeginDisconnect(s.f, s.core.Some?, s.next);
      if stop then s.(f := f', stops := s.stops[s.next := false], next := s.next + 1) else s.(f := f')
    case PollTick => s.(f := Tick(s.f, s.core.Some?))
    case ServeStop(id) => s.(core := None, stops := s.stops[id := true])
    case ServeWorker(id, o, throws) =>
      var (core', w) := Served(s.core, s.workers[id], o, throws);
      s.(core := core', workers := s.workers[id := w])
    case ResumeWorker(id, mode, backups) => Put(s, id, Resumed(s.f, s.workers[id], s.core.Some?, mode, backups))
    case ResumeDisconnect(id) => s.(f := EndDisconnect(s.f, id), stops := s.stops - {id})
  }

  ghost predicate Legal(s: Sys, es: seq<Event>)
    decreases |es|
  {
    es != [] ==> Enabled(s, es[0]) && Legal(Step(s, es[0]), es[1..])
  }

  ghost function Run(s: Sys, es: seq<Event>): Sys
    requires Legal(s, es)
    decreases |es|
  {
    if es == [] then s else Run(Step(s, es[0]), es[1..])
  }

  ghost predicate Reachable(s: Sys) {
    exists es :: Legal(START, es) && Run(START, es) == s
  }

  // ---- The invariant ---------------------------------------------------------------------------------

  ghost predicate Idle(s: Sys) {
    forall id :: id !in s.workers
  }

  ghost predicate Outstanding(stops: map<nat, bool>) {
    exists id :: id in stops && !stops[id]
  }

  /** The bridge describes the session the engine runs: the candidates it was started with,
      in order, and the node in use. */
  ghost predicate Shown(f: Fields, session: Core.Session<string>) {
    && GoodSession(session) && Payloads(f.candidates) == session.list && DistinctIds(f.candidates)
    && f.activeNode.Some? && f.candidates[Using(session)].id == f.activeNode.value.id
    && f.activeMode == Some(session.mode)
  }

  /** If the engine runs, it was started for exactly this request and nothing happened to
      the session since. */
  ghost predicate StartedFor(core: Option<Core.Session<string>>, list: seq<Node>, mode: Mode, answer: Answer) {
    core.Some? ==>
      && answer == Code(0) && GoodSession(core.value) && core.value.list == Payloads(list)
      && core.value.active == 0 && core.value.mode == mode
  }

  ghost predicate CandidatesOf(w: Worker, list: seq<Node>) {
    list != [] && list[0] == w.node && DistinctIds(list)
  }

  /** Until a switch has started its engine, the session's mode is the one it noted. */
  ghost predicate InMode(f: Fields, w: Worker, mode: Option<Mode>) {
    w.op == Switch && w.epoch == f.epoch ==> mode.Some? && f.activeMode == mode
  }

  ghost predicate At(f: Fields, core: Option<Core.Session<string>>, w: Worker) {
    match w.at
    case AwaitStopping(_) => w.op == Connect
    case AwaitStop(mode, done) => (mode.Some? <==> w.op == Switch) && InMode(f, w, mode) && (done ==> core.None?)
    case AwaitStart(list, mode, answer) =>
      && CandidatesOf(w, list) && InMode(f, w, Some(mode))
      && if answer.None? then core.None? else StartedFor(core, list, mode, answer.value)
    case AwaitReturn(list, mode, result) =>
      && CandidatesOf(w, list) && InMode(f, w, Some(mode)) && StartedFor(core, list, mode, result)
      && (w.epoch == f.epoch && result == Code(0) ==> f.candidates == list && f.activeMode == Some(mode))
    case AwaitOrphan(done) => w.epoch != f.epoch && (done ==> core.None?)
  }

  /** While a call is suspended the status is the one it set, or a disconnect's. */
  ghost predicate Suspended(f: Fields, core: Option<Core.Session<string>>, w: Worker) {
    && w.epoch <= f.epoch
    && f.status == (if w.epoch < f.epoch then Disconnected else if w.op == Connect then Connecting else Protected)
    && (f.switching <==> w.op == Switch && w.epoch == f.epoch)
    && At(f, core, w)
  }

  ghost predicate AtRest(f: Fields, core: Option<Core.Session<string>>, stops: map<nat, bool>) {
    && f.status != Connecting && !f.switching
    && (core.Some? ==> if f.status == Protected then Shown(f, core.value) else Outstanding(stops))
  }

  /** Protected, there are a node and a mode to show; disconnected, nothing of a session is left. */
  predicate Tidy(f: Fields) {
    && (f.status == Protected ==> f.activeNode.Some? && f.activeMode.Some?)
    && (f.status == Disconnected ==> f.activeNode.None? && f.candidates == [])
    && (f.status == Disconnected || f.status == Error ==> f.activeMode.None?)
    && (f.polling <==> f.status == Protected)
  }

  /** A stop a call waits for is one that was asked for. */
  predicate Known(at: Point, next: nat) {
    at.AwaitStopping? && at.stop.Some? ==> at.stop.value < next
  }

  ghost predicate Inv(s: Sys) {
    && (forall i, j :: i in s.workers && j in s.workers ==> i == j)
    && (s.f.busy <==> !Idle(s))
    && (forall id :: id in s.workers ==>
          id < s.next && Known(s.workers[id].at, s.next) && Suspended(s.f, s.core, s.workers[id]))
    && (Idle(s) ==> AtRest(s.f, s.core, s.stops))
    && (forall id :: id in s.stops ==> id < s.next)
    && Tidy(s.f)
    && (s.f.stopping.Some? ==> s.f.stopping.value in s.stops)
  }

  /** What a stretch of the only suspended call must leave behind. */
  ghost predicate Fine(n: Next, core: Option<Core.Session<string>>, stops: map<nat, bool>) {
    && (n.f.busy <==> n.w.Some?)
    && (n.w.Some? && n.w.value.at.AwaitStopping? && n.w.value.at.stop.Some? ==> n.w.value.at.stop.value in stops)
    && (if n.w.Some? then Suspended(n.f, core, n.w.value) else AtRest(n.f, core, stops))
    && Tidy(n.f)
    && (n.f.stopping.Some? ==> n.f.stopping.value in stops)
  }

  lemma PutKeeps(s: Sys, id: nat, n: Next)
    requires Inv(s) && id in s.workers && Fine(n, s.core, s.stops)
    ensures Inv(Put(s, id, n))
  {
    if n.w.Some? {
      assert id in Put(s, id, n).workers;
    } else {
      assert forall j :: j in s.workers ==> j == id;
    }
  }

  lemma BegunKeeps(s: Sys, n: Next, core: Option<Core.Session<string>>)
    requires Inv(s) && Idle(s) && Fine(n, core, s.stops)
    ensures Inv(Begun(s, n).(core := core))
  {
    if n.w.Some? {
      assert s.next in Begun(s, n).workers;
    }
  }

  lemma ConnectKeeps(s: Sys, needsElevation: bool, node: Option<Node>)
    requires Inv(s)
    ensures Inv(Step(s, CallConnect(needsElevation, node)))
  {
    var n := BeginConnect(s.f, needsElevation, node);
    if n.f == s.f && n.w.None? {
      assert Step(s, CallConnect(needsElevation, node)) == s;
    } else {
      BegunKeeps(s, n, s.core);
    }
  }

  lemma HotSwapShows(f: Fields, core: Option<Core.Session<string>>, to: Node)
    requires core.Some? && Shown(f, core.value) && HotSwaps(f, core, to)
    ensures var core' := SelectOn(core, IndexOf(f.candidates, to.id));
      core'.Some? && Shown(f.(switching := false, activeNode := Some(to)), core'.value)
  {
  }

  lemma SwitchKeeps(s: Sys, to: Node, mode: Mode)
    requires Inv(s)
    ensures Inv(Step(s, CallSwitch(to, mode)))
  {
    var n := BeginSwitch(s.f, s.core, to, mode);
    if SwitchIgnored(s.f, to) {
      assert Step(s, CallSwitch(to, mode)) == s;
    } else if HotSwaps(s.f, s.core, to) {
      HotSwapShows(s.f, s.core, to);
      BegunKeeps(s, n, SelectOn(s.core, IndexOf(s.f.candidates, to.id)));
    } else {
      BegunKeeps(s, n, s.core);
    }
  }

  lemma DisconnectKeeps(s: Sys)
    requires Inv(s)
    ensures Inv(Step(s, CallDisconnect))
  {
    var s' := Step(s, CallDisconnect);
    if s.core.Some? || s.f.busy {
      assert s.next in s'.stops && !s'.stops[s.next];
    }
  }

  lemma ServeStopKeeps(s: Sys, id: nat)
    requires Inv(s) && Enabled(s, ServeStop(id))
    ensures Inv(Step(s, ServeStop(id)))
  {
  }

  lemma ServedSuspended(f: Fields, core: Option<Core.Session<string>>, w: Worker, o: StartOutcome, throws: bool)
    requires Suspended(f, core, w) && Awaited(w.at) && (w.at.AwaitStart? ==> PossibleOutcome(|w.at.list|, o))
    ensures var (core', w') := Served(core, w, o, throws); Suspended(f, core', w') && !w'.at.AwaitStopping?
  {
  }

  lemma ServeWorkerKeeps(s: Sys, id: nat, o: StartOutcome, throws: bool)
    requires Inv(s) && Enabled(s, ServeWorker(id, o, throws))
    ensures Inv(Step(s, ServeWorker(id, o, throws)))
  {
    ServedSuspended(s.f, s.core, s.workers[id], o, throws);
    assert id in Step(s, ServeWorker(id, o, throws)).workers;
  }

  /** `StartedFor` and a fresh epoch are what makes a finished start show its session. */
  lemma ReturnedFine(f: Fields, core: Option<Core.Session<string>>, w: Worker, stops: map<nat, bool>)
    requires Suspended(f, core, w) && w.at.AwaitReturn? && f.busy
    requires Tidy(f)
    requires f.stopping.Some? ==> f.stopping.value in stops
    ensures Fine(AfterReturn(f, w, core.Some?), core, stops)
  {
  }

  lemma ResumedFine(f: Fields, core: Option<Core.Session<string>>, w: Worker, stops: map<nat, bool>, mode: Mode,
                    backups: seq<Node>)
    requires Suspended(f, core, w) && !Awaited(w.at) && f.busy
    requires Tidy(f)
    requires f.stopping.Some? ==> f.stopping.value in stops
    ensures Fine(Resumed(f, w, core.Some?, mode, backups), core, stops)
  {
    CandidateSetGood(w.node, backups);
    if w.at.AwaitReturn? {
      ReturnedFine(f, core, w, stops);
    }
  }

  lemma ResumeWorkerKeeps(s: Sys, id: nat, mode: Mode, backups: seq<Node>)
    requires Inv(s) && Enabled(s, ResumeWorker(id, mode, backups))
    ensures Inv(Step(s, ResumeWorker(id, mode, backups)))
  {
    ResumedFine(s.f, s.core, s.workers[id], s.stops, mode, backups);
    PutKeeps(s, id, Resumed(s.f, s.workers[id], s.core.Some?, mode, backups));
  }

  lemma ResumeDisconnectKeeps(s: Sys, id: nat)
    requires Inv(s) && Enabled(s, ResumeDisconnect(id))
    ensures Inv(Step(s, ResumeDisconnect(id)))
  {
    var s' := Step(s, ResumeDisconnect(id));
    if Outstanding(s.stops) {
      var k :| k in s.stops && !s.stops[k];
      assert k in s'.stops && !s'.stops[k];
    }
  }

  lemma StepKeeps(s: Sys, e: Event)
    requires Inv(s) && Enabled(s, e)
    ensures Inv(Step(s, e))
  {
    match e
    case CallConnect(needsElevation, node) => ConnectKeeps(s, needsElevation, node);
    case CallSwitch(to, mode) => SwitchKeeps(s, to, mode);
    case CallDisconnect => DisconnectKeeps(s);
    case PollTick =>
    case ServeStop(id) => ServeStopKeeps(s, id);
    case ServeWorker(id, o, throws) => ServeWorkerKeeps(s, id, o, throws);
    case ResumeWorker(id, mode, backups) => ResumeWorkerKeeps(s, id, mode, backups);
    case ResumeDisconnect(id) => ResumeDisconnectKeeps(s, id);
  }

  lemma {:induction false} RunKeeps(s: Sys, es: seq<Event>)
    requires Inv(s) && Legal(s, es)
    ensures Inv(Run(s, es))
    decreases |es|
  {
    if es != [] {
      StepKeeps(s, es[0]);
      RunKeeps(Step(s, es[0]), es[1..]);
    }
  }

  lemma ReachableInv(s: Sys)
    requires Reachable(s)
    ensures Inv(s)
  {
    var es :| Legal(START, es) && Run(START, es) == s;
    RunKeeps(START, es);
  }

  lemma {:induction false} LegalSnoc(s: Sys, es: seq<Event>, e: Event)
    requires Legal(s, es) && Enabled(Run(s, es), e)
    ensures Legal(s, es + [e]) && Run(s, es + [e]) == Step(Run(s, es), e)
    decreases |es|
  {
    if es == [] {
      assert ([] + [e])[1..] == [];
    } else {
      LegalSnoc(Step(s, es[0]), es[1..], e);
      assert (es + [e])[1..] == es[1..] + [e];
    }
  }

  // ---- Safety over every run -----------------------------------------------------------------------

  /** At most one call is suspended; a start is outstanding only while the engine is stopped,
      so serving it runs the list it was asked for or reports failure, never the silent
      success of an engine that runs already. */
  lemma OneStartAtATime(s: Sys, id: nat, o: StartOutcome)
    requires Reachable(s) && id in s.workers
    ensures forall j :: j in s.workers ==> j == id
    ensures var at := s.workers[id].at;
      at.AwaitStart? && at.answer.None? ==>
        && s.core.None?
        && ServeStart(s.core, Payloads(at.list), at.mode', o)
           == if o.Refused? then (None, 1) else (Some(Core.Session(Payloads(at.list), o.accepted, 0, at.mode')), 0)
  {
    ReachableInv(s);
  }

  /** No engine is left behind: at rest and not protected, a running engine still has a stop
      coming. */
  lemma NoOrphan(s: Sys)
    requires Reachable(s) && !s.f.busy && s.f.status != Protected && s.core.Some?
    ensures Outstanding(s.stops)
  {
    ReachableInv(s);
  }

  /** The node shown is the node used. */
  lemma ShownIsUsed(s: Sys)
    requires Reachable(s) && !s.f.busy && s.f.status == Protected && s.core.Some?
    ensures Shown(s.f, s.core.value)
  {
    ReachableInv(s);
  }

  /** How many stretches and requests a suspended call has ahead of it, at most. */
  function Steps(at: Point): nat {
    match at
    case AwaitStopping(_) => 8
    case AwaitStop(_, done) => if done then 6 else 7
    case AwaitStart(_, _, answer) => if answer.Some? then 4 else 5
    case AwaitReturn(_, _, _) => 3
    case AwaitOrphan(done) => if done then 1 else 2
  }

  lemma ResumedEpochs(f: Fields, w: Worker, running: bool, mode: Mode, backups: seq<Node>)
    requires !Awaited(w.at)
    ensures var n := Resumed(f, w, running, mode, backups);
      && n.f.epoch == f.epoch
      && (n.w.Some? ==> n.w.value.epoch == w.epoch && Steps(n.w.value.at) < Steps(w.at) && !n.w.value.at.AwaitStopping?)
  {
  }

  lemma EpochOnlyGrows(s: Sys, e: Event)
    requires Inv(s) && Enabled(s, e)
    ensures s.f.epoch <= Step(s, e).f.epoch
    ensures forall id :: id in s.workers && id in Step(s, e).workers ==>
      Step(s, e).workers[id].epoch == s.workers[id].epoch
  {
    match e
    case ResumeWorker(id, mode, backups) => ResumedEpochs(s.f, s.workers[id], s.core.Some?, mode, backups);
    case ServeWorker(id, o, throws) =>
    case _ =>
  }

  lemma {:induction false} OvertakenStays(s: Sys, es: seq<Event>, id: nat)
    requires Inv(s) && Legal(s, es) && id < s.next && (id in s.workers ==> s.workers[id].epoch != s.f.epoch)
    ensures var r := Run(s, es); id in r.workers ==> r.workers[id].epoch != r.f.epoch
    decreases |es|
  {
    if es != [] {
      EpochOnlyGrows(s, es[0]);
      StepKeeps(s, es[0]);
      OvertakenStays(Step(s, es[0]), es[1..], id);
    }
  }

  lemma OvertakenEnds(s: Sys, id: nat, mode: Mode, backups: seq<Node>)
    requires Inv(s) && Enabled(s, ResumeWorker(id, mode, backups)) && s.workers[id].epoch != s.f.epoch
    ensures Step(s, ResumeWorker(id, mode, backups)).f.status == Disconnected
  {
  }

  /** A call that a disconnect overtook never ends in protected, however late it goes on and
      whatever happens in between. */
  lemma OvertakenNeverProtects(s: Sys, es: seq<Event>, id: nat, mode: Mode, backups: seq<Node>)
    requires Reachable(s) && id in s.workers && s.workers[id].epoch != s.f.epoch
    requires Legal(s, es) && Enabled(Run(s, es), ResumeWorker(id, mode, backups))
    ensures Step(Run(s, es), ResumeWorker(id, mode, backups)).f.status == Disconnected
  {
    ReachableInv(s);
    OvertakenStays(s, es, id);
    RunKeeps(s, es);
    OvertakenEnds(Run(s, es), id, mode, backups);
  }

  // ---- What a start asks for -------------------------------------------------------------------------

  /** A start asks for its node first and for every backup the set has room for, in the mode the
      setting has now, or for a switch in the mode it noted when it was called. */
  lemma StartAsksFor(f: Fields, w: Worker, running: bool, mode: Mode, backups: seq<Node>)
    requires !Awaited(w.at) && !w.at.AwaitStart?
    ensures var n := Resumed(f, w, running, mode, backups);
      n.w.Some? && n.w.value.at.AwaitStart? ==>
        var at := n.w.value.at;
        && at.list != [] && at.list[0] == w.node && DistinctIds(at.list) && |at.list| <= 16
        && (forall k :: 0 <= k < |backups| ==> |at.list| == 16 || Has(at.list, backups[k].id))
        && (exists places :: Picks(at.list, places, backups))
        && at.mode' == (if w.at.AwaitStop? && w.at.mode.Some? then w.at.mode.value else mode)
  {
    CandidateSetGood(w.node, backups);
    var places := CandidateSetInOrder(w.node, backups);
  }

  /** Whatever mode a call has noted or asked for is `m`. */
  predicate Bound(at: Point, m: Mode) {
    match at
    case AwaitStopping(_) => false
    case AwaitStop(mode, _) => mode == Some(m)
    case AwaitStart(_, mode, _) => mode == m
    case AwaitReturn(_, mode, _) => mode == m
    case AwaitOrphan(_) => true
  }

  lemma BoundStep(s: Sys, e: Event, id: nat, m: Mode)
    requires Inv(s) && Enabled(s, e) && id < s.next && (id in s.workers ==> Bound(s.workers[id].at, m))
    ensures id in Step(s, e).workers ==> Bound(Step(s, e).workers[id].at, m)
  {
  }

  lemma {:induction false} BoundStays(s: Sys, es: seq<Event>, id: nat, m: Mode)
    requires Inv(s) && Legal(s, es) && id < s.next && (id in s.workers ==> Bound(s.workers[id].at, m))
    ensures id in Run(s, es).workers ==> Bound(Run(s, es).workers[id].at, m)
    decreases |es|
  {
    if es != [] {
      BoundStep(s, es[0], id, m);
      StepKeeps(s, es[0]);
      BoundStays(Step(s, es[0]), es[1..], id, m);
    }
  }

  /** The switch that has to restart the engine, and what comes after its call. */
  ghost predicate Restarts(s: Sys, to: Node, setting: Mode, es: seq<Event>) {
    && Reachable(s) && !SwitchIgnored(s.f, to) && !HotSwaps(s.f, s.core, to)
    && Legal(Step(s, CallSwitch(to, setting)), es)
  }

  /** A session keeps its mode over a restart: every start the switch asks for is in the mode the
      session had when it was called, whatever the setting says, then or later. */
  lemma SwitchKeepsMode(s: Sys, to: Node, setting: Mode, es: seq<Event>)
    requires Restarts(s, to, setting, es)
    ensures s.f.activeMode.Some?
    ensures var r := Run(Step(s, CallSwitch(to, setting)), es);
      s.next in r.workers ==> Bound(r.workers[s.next].at, s.f.activeMode.value)
  {
    ReachableInv(s);
    StepKeeps(s, CallSwitch(to, setting));
    BoundStays(Step(s, CallSwitch(to, setting)), es, s.next, s.f.activeMode.value);
  }

  /** So is every engine it boots. */
  lemma SwitchBootsMode(s: Sys, to: Node, setting: Mode, es: seq<Event>, o: StartOutcome, throws: bool)
    requires Restarts(s, to, setting, es)
    requires var r := Run(Step(s, CallSwitch(to, setting)), es);
      Enabled(r, ServeWorker(s.next, o, throws)) && r.workers[s.next].at.AwaitStart?
    ensures var t := Step(Run(Step(s, CallSwitch(to, setting)), es), ServeWorker(s.next, o, throws));
      t.core.Some? ==> Some(t.core.value.mode) == s.f.activeMode
  {
    SwitchKeepsMode(s, to, setting, es);
    ReachableInv(s);
    StepKeeps(s, CallSwitch(to, setting));
    RunKeeps(Step(s, CallSwitch(to, setting)), es);
  }

  /** And a switch that ends protected leaves the mode shown as it was. */
  lemma SwitchEndsInMode(s: Sys, to: Node, setting: Mode, es: seq<Event>, mode: Mode, backups: seq<Node>)
    requires Restarts(s, to, setting, es)
    requires Enabled(Run(Step(s, CallSwitch(to, setting)), es), ResumeWorker(s.next, mode, backups))
    ensures var t := Step(Run(Step(s, CallSwitch(to, setting)), es), ResumeWorker(s.next, mode, backups));
      t.f.status == Protected && s.next !in t.workers ==> t.f.activeMode == s.f.activeMode
  {
    SwitchKeepsMode(s, to, setting, es);
    ReachableInv(s);
    StepKeeps(s, CallSwitch(to, setting));
    var r := Run(Step(s, CallSwitch(to, setting)), es);
    RunKeeps(Step(s, CallSwitch(to, setting)), es);
    EndsInMode(r, s.next, s.f.activeMode.value, mode, backups);
  }

  lemma EndsInMode(r: Sys, id: nat, m: Mode, mode: Mode, backups: seq<Node>)
    requires Inv(r) && Enabled(r, ResumeWorker(id, mode, backups)) && Bound(r.workers[id].at, m)
    ensures var t := Step(r, ResumeWorker(id, mode, backups));
      t.f.status == Protected && id !in t.workers ==> t.f.activeMode == Some(m)
  {
  }

  // ---- Draining -----------------------------------------------------------------------------------------

  predicate Background(e: Event) {
    !e.CallConnect? && !e.CallSwitch? && !e.CallDisconnect?
  }

  predicate Systemic(e: Event) {
    Background(e) && !e.PollTick?
  }

  ghost predicate Drained(s: Sys) {
    Idle(s) && forall id :: id !in s.stops
  }

  function Weight(s: Sys, id: nat): nat {
    (if id in s.workers then Steps(s.workers[id].at) else 0)
    + (if id in s.stops then if s.stops[id] then 1 else 2 else 0)
  }

  function Load(s: Sys, n: nat): nat {
    if n == 0 then 0 else Load(s, n - 1) + Weight(s, n - 1)
  }

  lemma {:induction false} LoadDrops(s: Sys, s': Sys, n: nat, id: nat)
    requires Weight(s', id) < Weight(s, id)
    requires forall k: nat :: k != id ==> Weight(s', k) == Weight(s, k)
    ensures if id < n then Load(s', n) < Load(s, n) else Load(s', n) == Load(s, n)
  {
    if n != 0 {
      LoadDrops(s, s', n - 1, id);
    }
  }

  lemma StepDrains(s: Sys, e: Event)
    requires Inv(s) && Enabled(s, e) && Systemic(e)
    ensures Step(s, e).next == s.next && Load(Step(s, e), s.next) < Load(s, s.next)
  {
    if e.ResumeWorker? {
      ResumedEpochs(s.f, s.workers[e.id], s.core.Some?, e.mode, e.backups);
    }
    LoadDrops(s, Step(s, e), s.next, e.id);
  }

  /** Nothing the bridge and the core do on their own goes on forever: `Load` bounds it. */
  lemma {:induction false} SystemRunsEnd(s: Sys, es: seq<Event>)
    requires Inv(s) && Legal(s, es) && forall e :: e in es ==> Systemic(e)
    ensures Run(s, es).next == s.next && |es| + Load(Run(s, es), s.next) <= Load(s, s.next)
    decreases |es|
  {
    if es != [] {
      StepDrains(s, es[0]);
      StepKeeps(s, es[0]);
      SystemRunsEnd(Step(s, es[0]), es[1..]);
    }
  }

  /** And nothing gets stuck: until all is drained, some request can be served or some call
      go on. */
  lemma NeverStuck(s: Sys) returns (e: Event)
    requires Reachable(s) && !Drained(s)
    ensures Systemic(e) && Enabled(s, e)
  {
    ReachableInv(s);
    if id: nat :| id in s.stops {
      e := if s.stops[id] then ResumeDisconnect(id) else ServeStop(id);
    } else {
      var id: nat :| id in s.workers;
      e := if Awaited(s.workers[id].at) then ServeWorker(id, Refused, false) else ResumeWorker(id, ProxyMode, []);
    }
  }

  lemma BackgroundIsQuiet(s: Sys, e: Event)
    requires Inv(s) && s.f.status == Disconnected && Enabled(s, e) && Background(e)
    ensures Step(s, e).f.status == Disconnected
  {
  }

  lemma {:induction false} StaysDisconnected(s: Sys, es: seq<Event>)
    requires Inv(s) && s.f.status == Disconnected && Legal(s, es) && forall e :: e in es ==> Background(e)
    ensures Run(s, es).f.status == Disconnected
    decreases |es|
  {
    if es != [] {
      assert Background(es[0]);
      StepKeeps(s, es[0]);
      BackgroundIsQuiet(s, es[0]);
      StaysDisconnected(Step(s, es[0]), es[1..]);
    }
  }

  /** A disconnect wins over whatever it interrupts: once all is drained the engine is
      stopped, and the status was disconnected all along. */
  lemma DisconnectWins(s: Sys, es: seq<Event>)
    requires Reachable(s) && Legal(Step(s, CallDisconnect), es) && forall e :: e in es ==> Background(e)
    ensures var r := Run(Step(s, CallDisconnect), es);
      r.f.status == Disconnected && (Drained(r) ==> r.core.None?)
  {
    ReachableInv(s);
    StepKeeps(s, CallDisconnect);
    RunKeeps(Step(s, CallDisconnect), es);
    StaysDisconnected(Step(s, CallDisconnect), es);
  }

  // ---- When a protected session can lose its engine ------------------------------------------------------

  ghost predicate Dead(s: Sys) {
    Idle(s) && s.f.status == Protected && s.core.None?
  }

  lemma {:induction false} NoStopNoHarm(s: Sys, es: seq<Event>)
    requires Inv(s) && Idle(s) && s.core.Some? && !Outstanding(s.stops)
    requires Legal(s, es) && forall e :: e in es ==> Background(e)
    ensures Idle(Run(s, es)) && Run(s, es).core == s.core
    decreases |es|
  {
    if es != [] {
      var s' := Step(s, es[0]);
      StepKeeps(s, es[0]);
      assert Background(es[0]);
      assert Idle(s') && s'.core == s.core && !Outstanding(s'.stops);
      NoStopNoHarm(s', es[1..]);
    }
  }

  ghost predicate Kills(s: Sys, es: seq<Event>) {
    Legal(s, es) && (forall e :: e in es ==> Background(e)) && Dead(Run(s, es))
  }

  /** A protected session can lose its engine without the user doing anything if and only
      if a stop is still outstanding. */
  lemma DiesOnlyByLateStop(s: Sys)
    requires Reachable(s) && Idle(s) && s.f.status == Protected && s.core.Some?
    ensures Outstanding(s.stops) <==> exists es :: Kills(s, es)
  {
    ReachableInv(s);
    if id: nat :| id in s.stops && !s.stops[id] {
      LegalSnoc(s, [], ServeStop(id));
      assert [] + [ServeStop(id)] == [ServeStop(id)];
      assert Kills(s, [ServeStop(id)]);
    } else {
      forall es | Kills(s, es) ensures false {
        NoStopNoHarm(s, es);
      }
    }
  }

  /** The poll reports a session whose engine is gone. */
  lemma PollFindsDeath(s: Sys)
    requires Reachable(s) && Dead(s)
    ensures Enabled(s, PollTick) && Step(s, PollTick).f.status == Error && !Step(s, PollTick).f.polling
  {
    ReachableInv(s);
  }

  // ---- Disconnects that leave no stop unwatched ----------------------------------------------------------

  /** `k` is outstanding and no suspended call waits for it. */
  ghost predicate Loose(s: Sys, k: nat) {
    k in s.stops && !s.stops[k] && forall id :: id in s.workers ==> s.workers[id].at != AwaitStopping(Some(k))
  }

  /** A disconnect now asks for a stop while another one is loose. The bridge forgets that one. */
  ghost predicate Careless(s: Sys) {
    (s.core.Some? || s.f.busy) && exists k: nat :: Loose(s, k)
  }

  ghost predicate Careful(s: Sys, es: seq<Event>)
    requires Legal(s, es)
    decreases |es|
  {
    es != [] ==> !(es[0].CallDisconnect? && Careless(s)) && Careful(Step(s, es[0]), es[1..])
  }

  /** The getter `isActive`, which every caller of `disconnect` in the app tests first. */
  predicate IsActive(f: Fields) {
    f.status == Protected || f.status == Connecting
  }

  ghost predicate DisconnectsWhenActive(s: Sys, es: seq<Event>)
    requires Legal(s, es)
    decreases |es|
  {
    es != [] ==> (es[0].CallDisconnect? ==> IsActive(s.f)) && DisconnectsWhenActive(Step(s, es[0]), es[1..])
  }

  ghost predicate Started(at: Point) {
    (at.AwaitStart? && at.answer.Some?) || at.AwaitReturn?
  }

  function AnswerOf(at: Point): Answer
    requires Started(at)
  {
    if at.AwaitReturn? then at.result else at.answer.value
  }

  /** Nothing outstanding can end what a call that is still wanted starts or has started. */
  ghost predicate Secure(f: Fields, core: Option<Core.Session<string>>, stops: map<nat, bool>, w: Worker) {
    w.epoch == f.epoch ==>
      && (forall k :: k in stops && !stops[k] ==> w.at == AwaitStopping(Some(k)))
      && (Started(w.at) && AnswerOf(w.at) == Code(0) ==> core.Some?)
  }

  ghost predicate Safe(f: Fields, core: Option<Core.Session<string>>, stops: map<nat, bool>) {
    f.status == Protected ==> core.Some? && !Outstanding(stops)
  }

  /** The only loose stop is the one `_stopping` holds. */
  ghost predicate Watched(s: Sys) {
    forall k: nat :: Loose(s, k) ==> s.f.stopping == Some(k)
  }

  ghost predicate CarefulInv(s: Sys) {
    && Inv(s) && Watched(s)
    && (Idle(s) ==> Safe(s.f, s.core, s.stops))
    && (forall id :: id in s.workers ==> Secure(s.f, s.core, s.stops, s.workers[id]))
  }

  lemma CarefulConnect(s: Sys, needsElevation: bool, node: Option<Node>)
    requires CarefulInv(s)
    ensures CarefulInv(Step(s, CallConnect(needsElevation, node)))
  {
    ConnectKeeps(s, needsElevation, node);
  }

  lemma CarefulSwitch(s: Sys, to: Node, mode: Mode)
    requires CarefulInv(s)
    ensures CarefulInv(Step(s, CallSwitch(to, mode)))
  {
    SwitchKeeps(s, to, mode);
  }

  lemma CarefulDisconnect(s: Sys)
    requires CarefulInv(s) && !Careless(s)
    ensures CarefulInv(Step(s, CallDisconnect))
  {
    DisconnectKeeps(s);
    var s' := Step(s, CallDisconnect);
    forall k: nat | Loose(s', k) ensures s'.f.stopping == Some(k) {
      assert k != s.next ==> Loose(s, k);
    }
  }

  lemma CarefulServe(s: Sys, id: nat, o: StartOutcome, throws: bool)
    requires CarefulInv(s) && Enabled(s, ServeWorker(id, o, throws))
    ensures CarefulInv(Step(s, ServeWorker(id, o, throws)))
  {
    ServeWorkerKeeps(s, id, o, throws);
  }

  lemma ResumedSecure(f: Fields, core: Option<Core.Session<string>>, stops: map<nat, bool>, w: Worker,
                      mode: Mode, backups: seq<Node>)
    requires Suspended(f, core, w) && Secure(f, core, stops, w) && !Awaited(w.at)
    requires w.at.AwaitStopping? && w.at.stop.Some? && w.at.stop.value in stops ==> stops[w.at.stop.value]
    ensures var n := Resumed(f, w, core.Some?, mode, backups);
      if n.w.Some? then Secure(n.f, core, stops, n.w.value) else Safe(n.f, core, stops)
  {
  }

  /** A call that goes on leaves no stop loose that was not. */
  lemma ResumedLoose(s: Sys, id: nat, mode: Mode, backups: seq<Node>, k: nat)
    requires Inv(s) && Enabled(s, ResumeWorker(id, mode, backups))
    requires Loose(Step(s, ResumeWorker(id, mode, backups)), k)
    ensures Loose(s, k) && Step(s, ResumeWorker(id, mode, backups)).f.stopping == s.f.stopping
  {
  }

  lemma CarefulResume(s: Sys, id: nat, mode: Mode, backups: seq<Node>)
    requires CarefulInv(s) && Enabled(s, ResumeWorker(id, mode, backups))
    ensures CarefulInv(Step(s, ResumeWorker(id, mode, backups)))
  {
    var s' := Step(s, ResumeWorker(id, mode, backups));
    ResumeWorkerKeeps(s, id, mode, backups);
    ResumedSecure(s.f, s.core, s.stops, s.workers[id], mode, backups);
    forall k: nat | Loose(s', k) ensures s'.f.stopping == Some(k) {
      ResumedLoose(s, id, mode, backups, k);
    }
  }

  lemma CarefulStepKeeps(s: Sys, e: Event)
    requires CarefulInv(s) && Enabled(s, e) && !(e.CallDisconnect? && Careless(s))
    ensures CarefulInv(Step(s, e))
  {
    match e
    case CallConnect(needsElevation, node) => CarefulConnect(s, needsElevation, node);
    case CallSwitch(to, mode) => CarefulSwitch(s, to, mode);
    case CallDisconnect => CarefulDisconnect(s);
    case ServeWorker(id, o, throws) => CarefulServe(s, id, o, throws);
    case ResumeWorker(id, mode, backups) => CarefulResume(s, id, mode, backups);
    case _ => StepKeeps(s, e);
  }

  lemma {:induction false} CarefulRunKeeps(s: Sys, es: seq<Event>)
    requires CarefulInv(s) && Legal(s, es) && Careful(s, es)
    ensures CarefulInv(Run(s, es))
    decreases |es|
  {
    if es != [] {
      CarefulStepKeeps(s, es[0]);
      CarefulRunKeeps(Step(s, es[0]), es[1..]);
    }
  }

  /** As long as no disconnect is careless, protected means protected, in whatever order the core
      serves its requests: the engine runs, its session is the one shown, and no outstanding stop
      can end it. */
  lemma ProtectedIsProtected(es: seq<Event>)
    requires Legal(START, es) && Careful(START, es)
    ensures var s := Run(START, es);
      !s.f.busy && s.f.status == Protected ==> s.core.Some? && Shown(s.f, s.core.value) && !Outstanding(s.stops)
  {
    CarefulRunKeeps(START, es);
  }

  lemma ActiveIsCareful(s: Sys)
    requires CarefulInv(s) && IsActive(s.f)
    ensures !Careless(s)
  {
  }

  lemma {:induction false} ActiveRunIsCareful(s: Sys, es: seq<Event>)
    requires CarefulInv(s) && Legal(s, es) && DisconnectsWhenActive(s, es)
    ensures Careful(s, es)
    decreases |es|
  {
    if es != [] {
      if es[0].CallDisconnect? {
        ActiveIsCareful(s);
      }
      CarefulStepKeeps(s, es[0]);
      ActiveRunIsCareful(Step(s, es[0]), es[1..]);
    }
  }

  /** A caller that tests `isActive` before each disconnect gets that for every service order. */
  lemma ActiveGuardProtects(es: seq<Event>)
    requires Legal(START, es) && DisconnectsWhenActive(START, es)
    ensures var s := Run(START, es);
      !s.f.busy && s.f.status == Protected ==> s.core.Some? && Shown(s.f, s.core.value) && !Outstanding(s.stops)
  {
    ActiveRunIsCareful(START, es);
    ProtectedIsProtected(es);
  }

  // ---- What a careless disconnect leads to ---------------------------------------------------------------

  ghost predicate Calm(es: seq<Event>) {
    forall e :: e in es ==> !e.CallDisconnect?
  }

  /** `s` can be reached without a disconnect. */
  ghost predicate Calmly(from: Sys, s: Sys) {
    exists es :: Legal(from, es) && Calm(es) && Run(from, es) == s
  }

  lemma CalmOn(from: Sys, s: Sys, e: Event)
    requires Calmly(from, s) && Enabled(s, e) && !e.CallDisconnect?
    ensures Calmly(from, Step(s, e))
  {
    var es :| Legal(from, es) && Calm(es) && Run(from, es) == s;
    LegalSnoc(from, es, e);
    assert Calm(es + [e]);
  }

  lemma CalmItself(s: Sys)
    ensures Calmly(s, s)
  {
    assert Legal(s, []) && Calm([]) && Run(s, []) == s;
  }

  /** The step a suspended call needs next, with no loose stop served. */
  function Nudge(s: Sys, id: nat): Event
    requires id in s.workers
  {
    var at := s.workers[id].at;
    if Awaited(at) then ServeWorker(id, Refused, false)
    else if CanGoOn(s, at) then ResumeWorker(id, ProxyMode, [])
    else ServeStop(at.stop.value)
  }

  lemma NudgeKeepsLoose(s: Sys, id: nat, k: nat)
    requires Inv(s) && id in s.workers && s.f.status == Disconnected && Loose(s, k)
    ensures var e := Nudge(s, id); Enabled(s, e) && Systemic(e) && Loose(Step(s, e), k)
    ensures var s' := Step(s, Nudge(s, id)); s'.f.status == Disconnected && s'.f.stopping == s.f.stopping
  {
    if !Awaited(s.workers[id].at) && CanGoOn(s, s.workers[id].at) {
      ResumedEpochs(s.f, s.workers[id], s.core.Some?, ProxyMode, []);
    }
  }

  /** A call in flight can end while two loose stops stay outstanding. */
  lemma {:induction false} Rests(from: Sys, s: Sys, k: nat, n: nat) returns (t: Sys)
    requires Inv(s) && Calmly(from, s) && s.f.status == Disconnected && Loose(s, k) && Loose(s, n)
    ensures Inv(t) && Calmly(from, t) && Idle(t) && Loose(t, k) && Loose(t, n)
    ensures t.f.status == Disconnected && t.f.stopping == s.f.stopping
    decreases Load(s, s.next)
  {
    if id: nat :| id in s.workers {
      var e := Nudge(s, id);
      NudgeKeepsLoose(s, id, k);
      NudgeKeepsLoose(s, id, n);
      StepKeeps(s, e);
      StepDrains(s, e);
      CalmOn(from, s, e);
      t := Rests(from, Step(s, e), k, n);
    } else {
      t := s;
    }
  }

  const NODE := Node("id", "outbound")
  const CONNECT := CallConnect(false, Some(NODE))

  lemma Asks(from: Sys, s: Sys) returns (s': Sys)
    requires Inv(s) && Calmly(from, s) && Idle(s) && s.f.status == Disconnected && s.core.None?
    requires Completed(s, s.f.stopping)
    ensures Inv(s') && Calmly(from, s')
    ensures s' == Sys(s.f.(busy := true, status := Connecting), None,
                      map[s.next := Worker(Connect, NODE, s.f.epoch, AwaitStart([NODE], ProxyMode, None))],
                      s.stops, s.next + 1)
  {
    assert s.workers == map[];
    var go := ResumeWorker(s.next, ProxyMode, []);
    CalmOn(from, s, CONNECT);
    StepKeeps(s, CONNECT);
    var s1 := Step(s, CONNECT);
    CalmOn(from, s1, go);
    StepKeeps(s1, go);
    s' := Step(s1, go);
  }

  /** `connect` from rest with nothing to wait for, up to the core's answer. */
  lemma Starts(from: Sys, s: Sys) returns (s': Sys)
    requires Inv(s) && Calmly(from, s) && Idle(s) && s.f.status == Disconnected && s.core.None?
    requires Completed(s, s.f.stopping)
    ensures Inv(s') && Calmly(from, s')
    ensures s' == Sys(s.f.(busy := true, status := Connecting), Some(Core.Session(["outbound"], [0], 0, ProxyMode)),
                      map[s.next := Worker(Connect, NODE, s.f.epoch, AwaitStart([NODE], ProxyMode, Some(Code(0))))],
                      s.stops, s.next + 1)
  {
    var s1 := Asks(from, s);
    assert Payloads([NODE]) == ["outbound"];
    var served := ServeWorker(s.next, Booted([0]), false);
    CalmOn(from, s1, served);
    StepKeeps(s1, served);
    s' := Step(s1, served);
  }

  lemma Connects(from: Sys, s: Sys) returns (s': Sys)
    requires Inv(s) && Calmly(from, s) && Idle(s) && s.f.status == Disconnected && s.core.None?
    requires Completed(s, s.f.stopping)
    ensures Inv(s') && Calmly(from, s') && Idle(s') && s'.f.status == Protected && s'.core.Some?
    ensures s'.stops == s.stops
  {
    var s3 := Starts(from, s);
    var go := ResumeWorker(s.next, ProxyMode, []);
    CalmOn(from, s3, go);
    StepKeeps(s3, go);
    var s4 := Step(s3, go);
    CalmOn(from, s4, go);
    StepKeeps(s4, go);
    s' := Step(s4, go);
  }

  /** A careless disconnect can cost a later session its engine: the run goes on to protected, at
      rest and stopped. The stop that was loose is served after that session's start, and the
      bridge waits only for the one asked for now. */
  lemma CarelessKills(s: Sys) returns (t: Sys)
    requires Inv(s) && Careless(s)
    ensures Calmly(Step(s, CallDisconnect), t) && Dead(t)
  {
    var k: nat :| Loose(s, k);
    var n, from := s.next, Step(s, CallDisconnect);
    StepKeeps(s, CallDisconnect);
    CalmItself(from);
    var rested := Rests(from, from, k, n);
    CalmOn(from, rested, ServeStop(n));
    StepKeeps(rested, ServeStop(n));
    var connected := Connects(from, Step(rested, ServeStop(n)));
    assert k in connected.stops && !connected.stops[k];
    CalmOn(from, connected, ServeStop(k));
    t := Step(connected, ServeStop(k));
  }

  lemma {:induction false} CarefulSnoc(s: Sys, es: seq<Event>, e: Event)
    requires Legal(s, es) && Careful(s, es) && Enabled(Run(s, es), e) && !(e.CallDisconnect? && Careless(Run(s, es)))
    ensures Legal(s, es + [e]) && Careful(s, es + [e])
    decreases |es|
  {
    if es == [] {
      assert ([] + [e])[1..] == [];
    } else {
      CarefulSnoc(Step(s, es[0]), es[1..], e);
      assert (es + [e])[1..] == es[1..] + [e];
    }
  }

  lemma {:induction false} CalmIsCareful(s: Sys, es: seq<Event>)
    requires Legal(s, es) && Calm(es)
    ensures Careful(s, es)
    decreases |es|
  {
    if es != [] {
      assert es[0] in es;
      CalmIsCareful(Step(s, es[0]), es[1..]);
    }
  }

  /** Exactly the careless disconnects are dangerous: after a run without any, the next disconnect
      can cost a later session its engine, with no disconnect after it, if and only if it is
      careless. */
  lemma DangerIsCareless(es: seq<Event>)
    requires Legal(START, es) && Careful(START, es)
    ensures var s := Run(START, es); Careless(s) <==> exists t :: Calmly(Step(s, CallDisconnect), t) && Dead(t)
  {
    CarefulRunKeeps(START, es);
    var s := Run(START, es);
    if Careless(s) {
      var t := CarelessKills(s);
    } else {
      var s' := Step(s, CallDisconnect);
      CarefulStepKeeps(s, CallDisconnect);
      forall t | Calmly(s', t) ensures !Dead(t) {
        var later :| Legal(s', later) && Calm(later) && Run(s', later) == t;
        CalmIsCareful(s', later);
        CarefulRunKeeps(s', later);
      }
    }
  }

  /** Two disconnects in a row, the second while the status is disconnected already, are enough. */
  lemma TwoDisconnects() returns (es: seq<Event>, t: Sys)
    ensures Legal(START, es) && Careful(START, es)
    ensures Run(START, es).f.status == Disconnected && Careless(Run(START, es))
    ensures Calmly(Step(Run(START, es), CallDisconnect), t) && Dead(t)
  {
    CalmItself(START);
    var connected := Connects(START, START);
    var calm :| Legal(START, calm) && Calm(calm) && Run(START, calm) == connected;
    CalmIsCareful(START, calm);
    CarefulRunKeeps(START, calm);
    LegalSnoc(START, calm, CallDisconnect);
    es := calm + [CallDisconnect];
    ActiveIsCareful(connected);
    CarefulSnoc(START, calm, CallDisconnect);
    var s := Run(START, es);
    assert Loose(s, connected.next);
    CarefulStepKeeps(connected, CallDisconnect);
    t := CarelessKills(s);
  }
}
