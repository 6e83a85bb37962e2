/** `SingBoxBridge` at work: its fields changed stretch by stretch, with the engine and the calls in
    flight around it. Follows app/lib/core/singbox_bridge.dart. */
module Live {
  import opened Wrappers
  import opened Config
  import opened Core
  import opened Bridge
  import opened Session

  lemma DisconnectMeans(s: Sys)
    requires Inv(s)
    ensures var t := Step(s, CallDisconnect);
      && (forall id :: id in t.workers ==> t.workers[id].epoch != t.f.epoch)
      && (t.core.Some? || t.f.busy ==>
            t.f.stopping.Some? && t.f.stopping.value in t.stops && !t.stops[t.f.stopping.value])
  {
  }

  lemma SwitchMeans(s: Sys, to: Node, setting: Mode)
    requires Inv(s)
    ensures var t := Step(s, CallSwitch(to, setting));
      && t.f.status == s.f.status && t.stops == s.stops
      && (!t.f.busy && t.f.status == Protected && t.core.Some? ==>
            Shown(t.f, t.core.value) && t.f.activeNode.value.id == to.id)
      && (t.f.busy && !s.f.busy ==>
            && t.core == s.core && s.next in t.workers && s.f.activeMode.Some?
            && t.workers[s.next].node == to && t.workers[s.next].at == AwaitStop(s.f.activeMode, false))
  {
    SwitchKeeps(s, to, setting);
  }

  /** `to` is one of several candidates that survived the start of the session shown, and not the one
      in use. */
  ghost predicate InGroup(f: Fields, core: Option<Core.Session<string>>, to: Node) {
    && f.status == Protected && !f.busy && f.activeNode.Some? && f.activeNode.value.id != to.id
    && core.Some? && |core.value.accepted| >= 2
    && exists p :: 0 <= p < |core.value.accepted| && IsAt(f.candidates, core.value.accepted[p], to.id)
  }

  predicate IsAt(nodes: seq<Node>, i: nat, id: string) {
    i < |nodes| && nodes[i].id == id
  }

  /** A member of the running group is switched to without a restart. */
  lemma GroupIsHotSwapped(s: Sys, to: Node, setting: Mode)
    requires Inv(s) && InGroup(s.f, s.core, to)
    ensures var t := Step(s, CallSwitch(to, setting));
      && !t.f.busy && t.f.activeNode == Some(to) && t.core.Some? && t.core.value.list == s.core.value.list
      && t.stops == s.stops
  {
    var p :| 0 <= p < |s.core.value.accepted| && IsAt(s.f.candidates, s.core.value.accepted[p], to.id);
    IndexIs(s.f.candidates, s.core.value.accepted[p], to.id);
    SelectAt(s.core, s.core.value.accepted[p], p);
  }

  /** And only such a member is. */
  lemma OthersRestart(s: Sys, to: Node, setting: Mode)
    requires Inv(s) && !InGroup(s.f, s.core, to)
    ensures s.f.status == Protected && !s.f.busy && s.f.activeNode.value.id != to.id ==>
      Step(s, CallSwitch(to, setting)).f.busy
  {
    assert HotSwaps(s.f, s.core, to) ==> IsAt(s.f.candidates, IndexOf(s.f.candidates, to.id), to.id);
  }

  lemma IndexIs(nodes: seq<Node>, i: nat, id: string)
    requires DistinctIds(nodes) && IsAt(nodes, i, id)
    ensures IndexOf(nodes, id) == i
  {
    assert Has(nodes, id);
  }

  lemma AnsweredMeans(f: Fields, core: Option<Core.Session<string>>, w: Worker)
    requires Suspended(f, core, w) && w.at.AwaitStart? && w.at.answer.Some?
    ensures var n := AfterStart(f, w);
      && (core.Some? && w.epoch == f.epoch ==>
            (Payloads(n.f.candidates) == core.value.list && n.f.activeMode == Some(core.value.mode)))
      && (w.at.answer.value.Code? && (w.epoch != f.epoch || w.at.answer.value.rc != 0) ==> n.f.candidates == [])
  {
  }

  lemma ReturnedMeans(f: Fields, core: Option<Core.Session<string>>, w: Worker, stops: map<nat, bool>)
    requires Suspended(f, core, w) && w.at.AwaitReturn? && f.busy
    ensures var n := AfterReturn(f, w, core.Some?);
      && (n.w.None? && n.f.status == Protected ==>
            core.Some? && Shown(n.f, core.value) && n.f.activeNode == Some(w.node))
      && (w.epoch != f.epoch ==> n.f.status == Disconnected)
      && (w.epoch == f.epoch ==> n.w.None? && n.f.status == if core.Some? then Protected else Error)
      && (n.w.Some? <==> w.epoch != f.epoch && w.at.result.Code?)
      && (n.w.Some? ==> n.w.value.at == AwaitOrphan(core.None?))
  {
  }

  lemma ResumeMeans(s: Sys, id: nat, mode: Mode, backups: seq<Node>)
    requires Inv(s) && Enabled(s, ResumeWorker(id, mode, backups))
    ensures var t := Step(s, ResumeWorker(id, mode, backups));
      && t.f.epoch == s.f.epoch && (s.workers[id].epoch != s.f.epoch ==> t.f.status == Disconnected)
      && (!t.f.busy && t.f.status == Protected && t.core.Some? ==> Shown(t.f, t.core.value))
  {
    ResumedEpochs(s.f, s.workers[id], s.core.Some?, mode, backups);
    ResumedFine(s.f, s.core, s.workers[id], s.stops, mode, backups);
  }

  class SingBoxBridge {
    var status: Status
    var activeNode: Option<Node>
    var switching: bool
    var polling: bool
    var busy: bool
    var epoch: nat
    var stopping: Option<nat>
    var activeMode: Option<Mode>
    var candidates: seq<Node>

    // What the awaits wait for: the engine, the calls suspended, the stops asked for.
    var core: Option<Core.Session<string>>
    var calls: map<nat, Worker>
    var stops: map<nat, bool>
    var next: nat

    function View(): Fields
      reads this
    {
      Fields(status, activeNode, switching, polling, busy, epoch, stopping, activeMode, candidates)
    }

    function State(): Sys
      reads this
    {
      Sys(View(), core, calls, stops, next)
    }

    /** The invariant of the protocol. */
    ghost predicate Valid()
      reads this
    {
      Inv(State())
    }

    constructor ()
      ensures Valid() && State() == START
    {
      status, activeNode, switching, polling, busy := Disconnected, None, false, false, false;
      epoch, stopping, activeMode, candidates := 0, None, None, [];
      core, calls, stops, next := None, map[], map[], 0;
    }

    // ---- The stretches of a suspended call -----------------------------------------------------

    /** `w` is the call in flight and what it waited for has come. */
    ghost predicate Going(w: Worker)
      reads this
    {
      && Suspended(View(), core, w) && !Awaited(w.at) && busy
      && Tidy(View()) && (stopping.Some? ==> stopping.value in stops)
    }

    /** A start is asked for: the node first, then every backup there is room for, in that mode. */
    ghost predicate Asked(node: Node, mode: Mode, backups: seq<Node>, at: Point)
      requires at.AwaitStart?
    {
      && at.list != [] && at.list[0] == node && DistinctIds(at.list) && at.mode' == mode
      && (forall k :: 0 <= k < |backups| ==> |at.list| == 16 || Has(at.list, backups[k].id))
      && exists places :: Picks(at.list, places, backups)
    }

    method Fail()
      modifies `polling, `status, `activeMode, `switching
      ensures View() == Failed(old(View()))
    {
      polling := false;
      status := Error;
      activeMode := None;
      switching := false;
    }

    method Show(w: Worker)
      modifies `activeNode, `status, `polling, `switching
      ensures View() == if w.op == Op.Connect
        then old(View()).(activeNode := Some(w.node), status := Protected, polling := true)
        else old(View()).(activeNode := Some(w.node), status := Protected, switching := false)
    {
      activeNode := Some(w.node);
      status := Protected;
      if w.op == Op.Connect {
        polling := true;
      } else {
        switching := false;
      }
    }

    method Record(list: seq<Node>, mode: Mode, answer: Answer, wanted: bool)
      modifies `candidates, `activeMode
      ensures View() ==
        if answer.Threw? then old(View())
        else if answer.rc == 0 && wanted then old(View()).(candidates := list, activeMode := Some(mode))
        else old(View()).(candidates := [])
    {
      if answer.Code? {
        if answer.rc == 0 && wanted {
          candidates := list;
          activeMode := Some(mode);
        } else {
          candidates := [];
        }
      }
    }

    method Forget()
      modifies `epoch, `polling, `switching, `candidates, `status, `activeNode, `activeMode
      ensures View() == Fields(Disconnected, None, false, false, busy, old(epoch) + 1, stopping, None, [])
    {
      epoch := epoch + 1;
      polling := false;
      switching := false;
      candidates := [];
      status := Disconnected;
      activeNode := None;
      activeMode := None;
    }

    method CollectCandidates(primary: Node, backups: seq<Node>) returns (out: seq<Node>)
      ensures out == CandidateSet(primary, backups)
      ensures out != [] && out[0] == primary && DistinctIds(out) && |out| <= 16
      ensures exists at :: Picks(out, at, backups)
    {
      out := [primary];
      var seen := {primary.id};
      assert Ids(out) == [primary.id];
      for k := 0 to |backups|
        invariant out == Extended([primary], backups[..k])
        invariant forall id :: id in seen <==> id in Ids(out)
      {
        assert backups[..k + 1][..k] == backups[..k];
        if |out| >= MAX_CANDIDATES {
          FullStaysFull([primary], backups, k);
          break;
        }
        var n := backups[k];
        if n.id !in seen {
          assert Ids(out + [n]) == Ids(out) + [n.id];
          seen := seen + {n.id};
          out := out + [n];
        }
      }
      assert backups[..|backups|] == backups;
      CandidateSetGood(primary, backups);
      var at := CandidateSetInOrder(primary, backups);
    }

    /** A start is asked for on a stopped engine; one that still runs is stopped first. */
    method AfterStoppingAwait(w: Worker, mode: Mode, backups: seq<Node>) returns (w': Option<Worker>)
      requires Going(w) && w.at.AwaitStopping?
      ensures Next(View(), w') == Resumed(old(View()), w, core.Some?, mode, backups)
      ensures Fine(Next(View(), w'), core, stops)
      ensures w'.Some? &&
        if core.Some? then w'.value.at == AwaitStop(None, false)
        else w'.value.at.AwaitStart? && Asked(w.node, mode, backups, w'.value.at)
    {
      ResumedFine(View(), core, w, stops, mode, backups);
      StartAsksFor(View(), w, core.Some?, mode, backups);
      if core.Some? {
        return Some(w.(at := AwaitStop(None, false)));
      }
      var list := CollectCandidates(w.node, backups);
      return Some(w.(at := AwaitStart(list, mode, None)));
    }

    /** An overtaken switch ends with the engine stopped; any other call asks for its start, on a
        stopped engine, a switch in the session's own mode. */
    method AfterStopAwait(w: Worker, mode: Mode, backups: seq<Node>) returns (w': Option<Worker>)
      requires Going(w) && w.at.AwaitStop?
      modifies `busy
      ensures Next(View(), w') == Resumed(old(View()), w, core.Some?, mode, backups)
      ensures Fine(Next(View(), w'), core, stops) && core.None?
      ensures w'.None? <==> w.op == Switch && status == Disconnected
      ensures w'.Some? ==> w'.value.at.AwaitStart?
      ensures w'.Some? ==> Asked(w.node, if w.op == Switch then activeMode.GetOr(mode) else mode, backups, w'.value.at)
    {
      ResumedFine(View(), core, w, stops, mode, backups);
      StartAsksFor(View(), w, core.Some?, mode, backups);
      if w.op == Switch && w.epoch != epoch {
        busy := false;
        return None;
      }
      var list := CollectCandidates(w.node, backups);
      return Some(w.(at := AwaitStart(list, if w.at.mode.Some? then w.at.mode.value else mode, None)));
    }

    /** What is recorded is what the engine was started for, or nothing. */
    method AfterStartAwait(w: Worker, mode: Mode, backups: seq<Node>) returns (w': Option<Worker>)
      requires Going(w) && w.at.AwaitStart?
      modifies `candidates, `activeMode
      ensures Next(View(), w') == Resumed(old(View()), w, core.Some?, mode, backups)
      ensures Fine(Next(View(), w'), core, stops)
      ensures core.Some? && w.epoch == epoch ==>
        Payloads(candidates) == core.value.list && activeMode == Some(core.value.mode)
      ensures w.at.answer.value.Code? && (w.epoch != epoch || w.at.answer.value.rc != 0) ==> candidates == []
      ensures w.at.answer.value.Threw? ==> View() == old(View())
      ensures w'.Some? && w'.value.at.AwaitReturn? && w'.value.at.result == w.at.answer.value
    {
      ResumedFine(View(), core, w, stops, mode, backups);
      AnsweredMeans(View(), core, w);
      var answer := w.at.answer.value;
      Record(w.at.list, w.at.mode', answer, w.epoch == epoch);
      return Some(w.(at := AwaitReturn(w.at.list, w.at.mode', answer)));
    }

    method Conclude(w: Worker) returns (w': Option<Worker>)
      requires w.at.AwaitReturn?
      modifies `status, `activeNode, `switching, `polling, `busy, `activeMode
      ensures Next(View(), w') == AfterReturn(old(View()), w, core.Some?)
    {
      if w.at.result.Threw? {
        if w.epoch == epoch {
          Fail();
        }
      } else if w.epoch != epoch {
        return Some(w.(at := AwaitOrphan(!(w.at.result.rc == 0 && core.Some?))));
      } else if w.at.result.rc != 0 || core.None? {
        Fail();
      } else {
        Show(w);
      }
      busy := false;
      return None;
    }

    /** A call that is still wanted ends protected, used as shown, exactly if the engine runs, and in
        an error otherwise. One that was overtaken stays disconnected and has an engine that came up
        anyway stopped. */
    method AfterStartReturned(w: Worker, mode: Mode, backups: seq<Node>) returns (w': Option<Worker>)
      requires Going(w) && w.at.AwaitReturn?
      modifies `status, `activeNode, `switching, `polling, `busy, `activeMode
      ensures Next(View(), w') == Resumed(old(View()), w, core.Some?, mode, backups)
      ensures Fine(Next(View(), w'), core, stops)
      ensures w'.None? && status == Protected ==> core.Some? && Shown(View(), core.value) && activeNode == Some(w.node)
      ensures w.epoch != epoch ==> status == Disconnected
      ensures w.epoch == epoch ==> w'.None? && status == if core.Some? then Protected else Error
      ensures status != Protected ==> activeNode == old(activeNode)
      ensures w'.Some? <==> w.epoch != epoch && w.at.result.Code?
      ensures w'.Some? ==> w'.value.at == AwaitOrphan(core.None?)
    {
      ResumedFine(View(), core, w, stops, mode, backups);
      ReturnedMeans(View(), core, w, stops);
      w' := Conclude(w);
    }

    /** No orphan: the call ends disconnected with the engine stopped. */
    method AfterOrphanAwait(w: Worker) returns (w': Option<Worker>)
      requires Going(w) && w.at.AwaitOrphan?
      modifies `busy
      ensures Next(View(), w') == AfterOrphan(old(View()))
      ensures Fine(Next(View(), w'), core, stops) && w'.None? && core.None? && status == Disconnected
    {
      busy := false;
      return None;
    }

    // ---- The calls, the poll, the core ---------------------------------------------------------------

    method Register(w: Worker)
      modifies `calls, `next
      ensures calls == old(calls)[old(next) := w] && next == old(next) + 1
    {
      calls := calls[next := w];
      next := next + 1;
    }

    method StartConnecting(needsElevation: bool, node: Option<Node>)
      modifies `status, `busy, `calls, `next
      ensures State() == Step(old(State()), CallConnect(needsElevation, node))
    {
      if status == Protected || status == Connecting || busy {
        return;
      }
      if needsElevation {
        status := Error;
        return;
      }
      if node.None? {
        status := Error;
        return;
      }
      busy := true;
      status := Connecting;
      Register(Worker(Op.Connect, node.value, epoch, AwaitStopping(stopping)));
    }

    /** While an operation is in flight or a session is up, nothing happens. Otherwise the bridge is
        not protected afterwards, and a call is in flight exactly if there is a node it may use. */
    method Connect(needsElevation: bool, node: Option<Node>)
      requires Valid()
      modifies this
      ensures Valid() && State() == Step(old(State()), CallConnect(needsElevation, node))
      ensures old(busy || IsActive(View())) ==> State() == old(State())
      ensures !old(busy || IsActive(View())) ==> (busy <==> !needsElevation && node.Some?)
      ensures !old(busy || IsActive(View())) ==> status == if busy then Connecting else Error
      ensures busy && !old(busy) ==> old(next) in calls && calls[old(next)].node == node.value
      ensures View() == old(View()).(status := status, busy := busy)
    {
      ConnectKeeps(State(), needsElevation, node);
      StartConnecting(needsElevation, node);
    }

    method TryHotSwap(to: Node) returns (ok: bool)
      modifies `core, `switching, `activeNode, `busy
      ensures ok <==> HotSwaps(old(View()), old(core), to)
      ensures core == if ok then SelectOn(old(core), IndexOf(candidates, to.id)) else old(core)
      ensures View() ==
        if ok then old(View()).(switching := false, activeNode := Some(to), busy := false) else old(View())
    {
      var idx := IndexOf(candidates, to.id);
      ok := idx >= 0 && CanSelect(core, idx);
      if ok {
        core := SelectOn(core, idx);
        switching := false;
        activeNode := Some(to);
        busy := false;
      }
    }

    method Occupy()
      modifies `busy, `switching
      ensures View() == old(View()).(busy := true, switching := true)
    {
      busy := true;
      switching := true;
    }

    method StartSwitching(to: Node, setting: Mode)
      modifies `switching, `activeNode, `core, `busy, `calls, `next
      ensures State() == Step(old(State()), CallSwitch(to, setting))
    {
      if SwitchIgnored(View(), to) {
        return;
      }
      Occupy();
      var swapped := TryHotSwap(to);
      if !swapped {
        Register(Worker(Switch, to, epoch, AwaitStop(Some(activeMode.GetOr(setting)), false)));
      }
    }

    /** A switch never leaves protected by itself. To the node in use it does nothing; to another
        member of the running group it is a hot swap, and the engine runs on, using the node shown;
        otherwise a restart is under way, in the session's own mode. */
    method SwitchTo(to: Node, setting: Mode)
      requires Valid()
      modifies this
      ensures Valid() && State() == Step(old(State()), CallSwitch(to, setting))
      ensures status == old(status) && stops == old(stops)
      ensures !busy && status == Protected && core.Some? ==> Shown(View(), core.value) && activeNode.value.id == to.id
      ensures old(status != Protected || busy || activeNode.value.id == to.id) ==> State() == old(State())
      ensures old(status == Protected && !busy && activeNode.value.id != to.id && !InGroup(View(), core, to)) ==> busy
      ensures old(InGroup(View(), core, to)) ==>
        !busy && activeNode == Some(to) && core.Some? && core.value.list == old(core).value.list
      ensures busy && !old(busy) ==>
        && core == old(core) && calls[old(next)].node == to
        && old(activeMode).Some? && calls[old(next)].at == AwaitStop(old(activeMode), false)
    {
      if InGroup(View(), core, to) {
        GroupIsHotSwapped(State(), to, setting);
      } else {
        OthersRestart(State(), to, setting);
      }
      SwitchKeeps(State(), to, setting);
      SwitchMeans(State(), to, setting);
      StartSwitching(to, setting);
    }

    method AskForStop()
      modifies `stops, `stopping, `next
      ensures stops == old(stops)[old(next) := false] && stopping == Some(old(next)) && next == old(next) + 1
    {
      stops := stops[next := false];
      stopping := Some(next);
      next := next + 1;
    }

    method Abandon()
      modifies this
      ensures State() == Step(old(State()), CallDisconnect)
    {
      Forget();
      if core.Some? || busy {
        AskForStop();
      }
    }

    /** At once disconnected, with every call in flight overtaken; if the engine runs or is being
        started, a stop is outstanding. */
    method Disconnect()
      requires Valid()
      modifies this
      ensures Valid() && State() == Step(old(State()), CallDisconnect)
      ensures status == Disconnected && activeNode.None? && candidates == []
      ensures forall id :: id in calls ==> calls[id].epoch != epoch
      ensures core.Some? || busy ==> stopping.Some? && stopping.value in stops && !stops[stopping.value]
      ensures core.None? && !busy ==> stops == old(stops) && stopping == old(stopping)
    {
      DisconnectKeeps(State());
      DisconnectMeans(State());
      Abandon();
    }

    /** `toggle` disconnects only an active session, which is never careless. */
    method Toggle(needsElevation: bool, node: Option<Node>)
      requires Valid()
      modifies this
      ensures Valid() && (old(CarefulInv(State())) ==> CarefulInv(State()))
      ensures State()
           == Step(old(State()), if old(IsActive(View())) then CallDisconnect else CallConnect(needsElevation, node))
    {
      if CarefulInv(State()) {
        if IsActive(View()) {
          ActiveIsCareful(State());
        }
        CarefulStepKeeps(State(), if IsActive(View()) then CallDisconnect else CallConnect(needsElevation, node));
      }
      if IsActive(View()) {
        Disconnect();
      } else {
        Connect(needsElevation, node);
      }
    }

    /** Between operations the poll leaves protected exactly the sessions whose engine runs. */
    method Tick()
      requires Valid() && polling
      modifies this
      ensures Valid() && State() == Step(old(State()), PollTick)
      ensures !busy ==> (status == Protected <==> core.Some?)
      ensures busy ==> State() == old(State())
    {
      StepKeeps(State(), PollTick);
      if busy {
        return;
      }
      if core.None? {
        Fail();
      }
    }

    method CoreServesStop(id: nat)
      requires Valid() && Enabled(State(), ServeStop(id))
      modifies this
      ensures Valid() && State() == Step(old(State()), ServeStop(id)) && core.None?
    {
      ServeStopKeeps(State(), id);
      core := None;
      stops := stops[id := true];
    }

    /** A start is served on a stopped engine, and boots the list it was asked for or nothing. */
    method CoreServesCall(id: nat, outcome: StartOutcome, throws: bool)
      requires Valid() && Enabled(State(), ServeWorker(id, outcome, throws))
      modifies this
      ensures Valid() && State() == Step(old(State()), ServeWorker(id, outcome, throws))
      ensures old(calls)[id].at.AwaitStart? ==> old(core).None?
      ensures old(calls)[id].at.AwaitStart? && core.Some? ==>
        core.value.list == Payloads(old(calls)[id].at.list) && core.value.mode == old(calls)[id].at.mode'
      ensures !old(calls)[id].at.AwaitStart? ==> core.None?
    {
      ServeWorkerKeeps(State(), id, outcome, throws);
      var (core', w) := Served(core, calls[id], outcome, throws);
      core := core';
      calls := calls[id := w];
    }

    method Continue(w: Worker, mode: Mode, backups: seq<Node>) returns (w': Option<Worker>)
      requires Going(w)
      modifies `status, `activeNode, `switching, `polling, `busy, `activeMode, `candidates
      ensures Next(View(), w') == Resumed(old(View()), w, core.Some?, mode, backups)
    {
      match w.at
      case AwaitStopping(_) => w' := AfterStoppingAwait(w, mode, backups);
      case AwaitStop(_, _) => w' := AfterStopAwait(w, mode, backups);
      case AwaitStart(_, _, _) => w' := AfterStartAwait(w, mode, backups);
      case AwaitReturn(_, _, _) => w' := AfterStartReturned(w, mode, backups);
      case AwaitOrphan(_) => w' := AfterOrphanAwait(w);
    }

    method GoOn(id: nat, mode: Mode, backups: seq<Node>)
      requires Enabled(State(), ResumeWorker(id, mode, backups)) && Going(calls[id])
      modifies this
      ensures State() == Step(old(State()), ResumeWorker(id, mode, backups))
    {
      var w := Continue(calls[id], mode, backups);
      calls := if w.Some? then calls[id := w.value] else calls - {id};
    }

    /** A suspended call goes on to its next await, or to its end. An overtaken one never ends
        protected, and one that ends protected shows the node in use. */
    method Resume(id: nat, mode: Mode, backups: seq<Node>)
      requires Valid() && Enabled(State(), ResumeWorker(id, mode, backups))
      modifies this
      ensures Valid() && State() == Step(old(State()), ResumeWorker(id, mode, backups))
      ensures old(calls)[id].epoch != epoch ==> status == Disconnected
      ensures !busy && status == Protected && core.Some? ==> Shown(View(), core.value)
    {
      ResumeWorkerKeeps(State(), id, mode, backups);
      ResumeMeans(State(), id, mode, backups);
      GoOn(id, mode, backups);
    }

    /** Only its own stop is forgotten. */
    method DisconnectEnds(id: nat)
      requires Valid() && Enabled(State(), ResumeDisconnect(id))
      modifies this
      ensures Valid() && State() == Step(old(State()), ResumeDisconnect(id))
      ensures id !in stops && (stopping.Some? ==> stopping == old(stopping) && stopping.value in stops)
    {
      ResumeDisconnectKeeps(State(), id);
      if stopping == Some(id) {
        stopping := None;
      }
      stops := stops - {id};
    }

    method Perform(e: Event)
      requires Valid() && Enabled(State(), e)
      modifies this
      ensures Valid() && State() == Step(old(State()), e)
    {
      match e
      case CallConnect(needsElevation, node) => Connect(needsElevation, node);
      case CallSwitch(to, mode) => SwitchTo(to, mode);
      case CallDisconnect => Disconnect();
      case PollTick => Tick();
      case ServeStop(id) => CoreServesStop(id);
      case ServeWorker(id, o, throws) => CoreServesCall(id, o, throws);
      case ResumeWorker(id, mode, backups) => Resume(id, mode, backups);
      case ResumeDisconnect(id) => DisconnectEnds(id);
    }

    /** Any legal run, driven through the class: the invariant holds throughout, so at rest the node
        shown is the node used, and an engine that runs unshown has a stop coming. */
    method Drive(es: seq<Event>)
      requires Valid() && Legal(State(), es)
      modifies this
      ensures Valid() && State() == Run(old(State()), es)
      ensures !busy && core.Some? ==> if status == Protected then Shown(View(), core.value) else Outstanding(stops)
      ensures old(CarefulInv(State())) && Careful(old(State()), es) && !busy && status == Protected ==> core.Some?
    {
      ghost var start := State();
      RunKeeps(start, es);
      if CarefulInv(start) && Careful(start, es) {
        CarefulRunKeeps(start, es);
      }
      for k := 0 to |es|
        invariant Valid() && Legal(State(), es[k..]) && Run(State(), es[k..]) == Run(start, es)
      {
        assert es[k..][0] == es[k] && es[k..][1..] == es[k + 1..];
        Perform(es[k]);
      }
    }
  }
}
