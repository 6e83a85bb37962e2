/** The Dart side of the session: `SingBoxBridge` in app/lib/core/singbox_bridge.dart, cut
    at its awaits. Each function below is what one uninterrupted stretch of code does to the
    fields; the class in Live runs them. */
module Bridge {
  import opened Wrappers
  import opened Config
  import opened Core

  /** A node: its id and the outbound payload handed to the core. */
  datatype Node = Node(id: string, outbound: string)

  datatype Status = Disconnected | Connecting | Protected | Error

  datatype Fields = Fields(
    status: Status, activeNode: Option<Node>, switching: bool, polling: bool, busy: bool, epoch: nat,
    stopping: Option<nat>, activeMode: Option<Mode>, candidates: seq<Node>)

  const INITIAL := Fields(Disconnected, None, false, false, false, 0, None, None, [])

  // ---- The candidate set ------------------------------------------------------------------

  const MAX_CANDIDATES := 16

  function Ids(nodes: seq<Node>): seq<string> {
    seq(|nodes|, i requires 0 <= i < |nodes| => nodes[i].id)
  }

  ghost predicate DistinctIds(nodes: seq<Node>) {
    forall i, j :: 0 <= i < j < |nodes| ==> nodes[i].id != nodes[j].id
  }

  ghost predicate Has(nodes: seq<Node>, id: string) {
    exists i :: 0 <= i < |nodes| && nodes[i].id == id
  }

  /** `out` extended by the backups, deduplicated and capped. */
  function Extended(out: seq<Node>, backups: seq<Node>): seq<Node> {
    if backups == [] then out
    else
      var n := |backups| - 1;
      var before := Extended(out, backups[..n]);
      if |before| >= MAX_CANDIDATES || backups[n].id in Ids(before) then before else before + [backups[n]]
  }

  function CandidateSet(primary: Node, backups: seq<Node>): seq<Node> {
    Extended([primary], backups)
  }

  lemma InIds(nodes: seq<Node>, id: string)
    ensures id in Ids(nodes) <==> Has(nodes, id)
  {
    if Has(nodes, id) {
      var i :| 0 <= i < |nodes| && nodes[i].id == id;
      assert Ids(nodes)[i] == id;
    }
  }

  /** Primary first, no id twice, at most 16, and a backup is left out only when its id is
      present or the set is full. */
  lemma {:induction false} CandidateSetGood(primary: Node, backups: seq<Node>)
    ensures var c := CandidateSet(primary, backups);
      && c != [] && c[0] == primary && DistinctIds(c) && |c| <= 16
      && (forall k :: 0 <= k < |backups| ==> |c| == 16 || Has(c, backups[k].id))
  {
    if backups != [] {
      var n := |backups| - 1;
      CandidateSetGood(primary, backups[..n]);
      var before, c := CandidateSet(primary, backups[..n]), CandidateSet(primary, backups);
      InIds(before, backups[n].id);
      forall k | 0 <= k < |backups| && |c| < MAX_CANDIDATES ensures Has(c, backups[k].id) {
        if k < n {
          assert Has(before, backups[..n][k].id);
          var i :| 0 <= i < |before| && before[i].id == backups[k].id;
          assert c[i].id == backups[k].id;
        } else if before != c {
          assert c[|before|].id == backups[n].id;
        }
      }
    }
  }

  function IndexOf(nodes: seq<Node>, id: string): (r: int)
    ensures -1 <= r < |nodes|
    ensures r >= 0 ==> nodes[r].id == id && forall i :: 0 <= i < r ==> nodes[i].id != id
    ensures r < 0 ==> !Has(nodes, id)
  {
    if nodes == [] then -1
    else if nodes[0].id == id then 0
    else
      var rest := IndexOf(nodes[1..], id);
      assert forall i :: 0 < i < |nodes| ==> nodes[i] == nodes[1..][i - 1];
      if rest < 0 then -1 else rest + 1
  }

  predicate FirstOfItsId(nodes: seq<Node>, k: nat)
    requires k < |nodes|
  {
    forall j :: 0 <= j < k ==> nodes[j].id != nodes[k].id
  }

  /** What follows the primary: the backups at these places, in order, each the first with its id. */
  ghost predicate Picks(c: seq<Node>, at: seq<nat>, backups: seq<Node>) {
    && |c| == |at| + 1 && Ascending(at)
    && forall p :: 0 <= p < |at| ==> at[p] < |backups| && c[p + 1] == backups[at[p]] && FirstOfItsId(backups, at[p])
  }

  lemma FirstStays(nodes: seq<Node>, n: nat, k: nat)
    requires k < n <= |nodes| && FirstOfItsId(nodes[..n], k)
    ensures FirstOfItsId(nodes, k)
  {
    assert forall j :: 0 <= j <= k ==> nodes[..n][j] == nodes[j];
  }

  lemma NewIsFirst(before: seq<Node>, backups: seq<Node>, n: nat)
    requires n < |backups| && !Has(before, backups[n].id)
    requires forall k :: 0 <= k < n ==> Has(before, backups[k].id)
    ensures FirstOfItsId(backups, n)
  {
    forall j | 0 <= j < n ensures backups[j].id != backups[n].id {
      assert Has(before, backups[j].id);
    }
  }

  lemma {:induction false} CandidateSetInOrder(primary: Node, backups: seq<Node>) returns (at: seq<nat>)
    ensures Picks(CandidateSet(primary, backups), at, backups)
  {
    at := [];
    if backups != [] {
      var n := |backups| - 1;
      var before := CandidateSet(primary, backups[..n]);
      at := CandidateSetInOrder(primary, backups[..n]);
      forall p | 0 <= p < |at| ensures FirstOfItsId(backups, at[p]) {
        FirstStays(backups, n, at[p]);
      }
      if |before| < MAX_CANDIDATES && backups[n].id !in Ids(before) {
        CandidateSetGood(primary, backups[..n]);
        forall k | 0 <= k < n ensures Has(before, backups[k].id) {
          assert backups[..n][k] == backups[k];
        }
        InIds(before, backups[n].id);
        NewIsFirst(before, backups, n);
        at := at + [n];
      }
    }
  }

  function Payloads(nodes: seq<Node>): (r: seq<string>)
    ensures |r| == |nodes| && forall i :: 0 <= i < |r| ==> r[i] == nodes[i].outbound
  {
    seq(|nodes|, i requires 0 <= i < |nodes| => nodes[i].outbound)
  }

  // ---- Suspended operations ------------------------------------------------------------------

  datatype Op = Connect | Switch

  /** What a start future completes with. */
  datatype Answer = Code(rc: int) | Threw

  /** Where a `connect` or `_switchTo` is suspended. A request to the core is part of the
      point that awaits it: not `done`, or without an answer, it is still outstanding. */
  datatype Point =
    | AwaitStopping(stop: Option<nat>)
    | AwaitStop(mode: Option<Mode>, done: bool)
    | AwaitStart(list: seq<Node>, mode': Mode, answer: Option<Answer>)
    | AwaitReturn(list: seq<Node>, mode': Mode, result: Answer)
    | AwaitOrphan(done: bool)

  datatype Worker = Worker(op: Op, node: Node, epoch: nat, at: Point)

  /** The fields after a stretch, and where the operation is suspended now, if it goes on. */
  datatype Next = Next(f: Fields, w: Option<Worker>)

  function Failed(f: Fields): Fields {
    f.(polling := false, status := Error, activeMode := None, switching := false)
  }

  // ---- The stretches -----------------------------------------------------------------------------

  function BeginConnect(f: Fields, needsElevation: bool, node: Option<Node>): Next {
    if f.status == Protected || f.status == Connecting || f.busy then Next(f, None)
    else if needsElevation || node.None? then Next(f.(status := Error), None)
    else
      Next(f.(busy := true, status := Connecting),
           Some(Worker(Connect, node.value, f.epoch, AwaitStopping(f.stopping))))
  }

  function BeginStart(w: Worker, mode: Mode, backups: seq<Node>): Worker {
    w.(at := AwaitStart(CandidateSet(w.node, backups), mode, None))
  }

  /** `connect` after the previous teardown: an engine still running is stopped first. */
  function AfterStopping(f: Fields, w: Worker, running: bool, mode: Mode, backups: seq<Node>): Next {
    Next(f, Some(if running then w.(at := AwaitStop(None, false)) else BeginStart(w, mode, backups)))
  }

  /** After the stop that precedes a start. `connect` goes on regardless; `_switchTo` gives
      up when a disconnect came in between. */
  function AfterStop(f: Fields, w: Worker, mode: Mode, backups: seq<Node>): Next
    requires w.at.AwaitStop?
  {
    if w.op == Switch && w.epoch != f.epoch then Next(f.(busy := false), None)
    else Next(f, Some(BeginStart(w, if w.at.mode.Some? then w.at.mode.value else mode, backups)))
  }

  /** `_start` after the core answered: the session is recorded only if it is still wanted. */
  function AfterStart(f: Fields, w: Worker): Next
    requires w.at.AwaitStart? && w.at.answer.Some?
  {
    var answer := w.at.answer.value;
    var w' := w.(at := AwaitReturn(w.at.list, w.at.mode', answer));
    if answer.Threw? then Next(f, Some(w'))
    else if answer.rc == 0 && w.epoch == f.epoch then
      Next(f.(candidates := w.at.list, activeMode := Some(w.at.mode')), Some(w'))
    else Next(f.(candidates := []), Some(w'))
  }

  /** Back in `connect` or `_switchTo` after `_start` returned or threw. */
  function AfterReturn(f: Fields, w: Worker, running: bool): Next
    requires w.at.AwaitReturn?
  {
    var r := w.at.result;
    if r.Threw? then Next((if w.epoch == f.epoch then Failed(f) else f).(busy := false), None)
    else if w.epoch != f.epoch then Next(f, Some(w.(at := AwaitOrphan(!(r.rc == 0 && running)))))
    else if r.rc != 0 || !running then Next(Failed(f).(busy := false), None)
    else if w.op == Connect then
      Next(f.(activeNode := Some(w.node), status := Protected, polling := true, busy := false), None)
    else Next(f.(activeNode := Some(w.node), status := Protected, switching := false, busy := false), None)
  }

  function AfterOrphan(f: Fields): Next {
    Next(f.(busy := false), None)
  }

  /** Whether `_switchTo` hot-swaps inside the running group. */
  predicate HotSwaps(f: Fields, core: Option<Session<string>>, next: Node) {
    var idx := IndexOf(f.candidates, next.id);
    idx >= 0 && CanSelect(core, idx)
  }

  predicate SwitchIgnored(f: Fields, next: Node) {
    f.status != Protected || (f.activeNode.Some? && f.activeNode.value.id == next.id) || f.busy
  }

  function BeginSwitch(f: Fields, core: Option<Session<string>>, next: Node, mode: Mode): Next {
    if SwitchIgnored(f, next) then Next(f, None)
    else if HotSwaps(f, core, next) then Next(f.(switching := false, activeNode := Some(next)), None)
    else
      Next(f.(busy := true, switching := true),
           Some(Worker(Switch, next, f.epoch, AwaitStop(Some(f.activeMode.GetOr(mode)), false))))
  }

  /** `disconnect` up to its await; with a stop, the future is known by `id`. */
  function BeginDisconnect(f: Fields, running: bool, id: nat): (Fields, bool) {
    var g := f.(epoch := f.epoch + 1, polling := false, switching := false, candidates := [],
                status := Disconnected, activeNode := None, activeMode := None);
    if running || f.busy then (g.(stopping := Some(id)), true) else (g, false)
  }

  function EndDisconnect(f: Fields, id: nat): Fields {
    if f.stopping == Some(id) then f.(stopping := None) else f
  }

  function Tick(f: Fields, running: bool): Fields {
    if f.busy || running then f else Failed(f)
  }

  lemma {:induction false} FullStaysFull(out: seq<Node>, backups: seq<Node>, k: nat)
    requires k <= |backups| && |Extended(out, backups[..k])| >= MAX_CANDIDATES
    ensures Extended(out, backups) == Extended(out, backups[..k])
    decreases |backups|
  {
    if k < |backups| {
      var n := |backups| - 1;
      assert backups[..n][..k] == backups[..k];
      FullStaysFull(out, backups[..n], k);
    } else {
      assert backups[..k] == backups;
    }
  }
}
