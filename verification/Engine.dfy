/** The engine's session and the resources behind it. Follows `startEngine`, `stopEngine`,
    `selectCandidate`, `outboundConstructs` and `newBox` in native/weronity_core/engine.go.
    What sing-box, the operating system and the caller's JSON do is an input of each call. */
module Engine {
  import opened Wrappers
  import opened Text
  import opened Json
  import opened Gate
  import opened Outbound
  import opened Config
  import opened Core

  /** The handles acquired and not yet released, by kind. */
  datatype Open = Open(boxes: set<nat>, cancels: set<nat>, relays: set<nat>)
  {
    ghost predicate Below(n: nat) {
      && (forall id :: id in boxes ==> id < n)
      && (forall id :: id in cancels ==> id < n)
      && (forall id :: id in relays ==> id < n)
    }
  }

  /** A box with its cancel function, and perhaps a relay, on top of what was open. */
  function WithSession(o: Open, b: nat, rl: Option<nat>): Open {
    Open(o.boxes + {b}, o.cancels + {b}, o.relays + Maybe(rl))
  }

  const NOTHING_OPEN := Open({}, {}, {})

  function Maybe(id: Option<nat>): set<nat> {
    if id.Some? then {id.value} else {}
  }

  /** How one `newBox` call ends. */
  datatype NewOutcome = ParseFails | CreateFails | CreatePanics | Created

  datatype CloseOutcome = Closes | CloseFails | ClosePanics

  /** How vetting one candidate ends: the throwaway box, then its `Close`. */
  datatype VetEnv = VetEnv(create: NewOutcome, close: CloseOutcome)

  datatype BootOutcome = BootFails | BootPanics | Boots

  const LOG_LEVELS: set<string> := {"trace", "debug", "info", "warn", "warning", "error", "fatal"}

  datatype StartConfig = StartConfig(
    outbounds: seq<Option<Obj>>, outbound: Option<Obj>, mode: string,
    listenPort: Option<int>, socksPort: int, level: string, strictRoute: bool)
  {
    function Mode(): Config.Mode { if Normal(mode) == "vpn" then VpnMode else ProxyMode }

    function LogLevel(): string {
      if Lower(level) in LOG_LEVELS then Lower(level) else "info"
    }

    function WantedPort(): int {
      if listenPort.Some? && 0 <= listenPort.value <= 65535 then listenPort.value else 55555
    }

    /** The candidates in order, at most 32 of them. */
    function Candidates(): (r: seq<Option<Obj>>)
      ensures |r| <= MAX_ENGINE_CANDIDATES
    {
      var all := if |outbounds| > 0 then outbounds else if outbound.Some? then [outbound] else [];
      if |all| > MAX_ENGINE_CANDIDATES then all[..MAX_ENGINE_CANDIDATES] else all
    }
  }

  /** Everything a start depends on besides the engine's own state. `latePanic`: something panics
      between the opening of the relay and the commit. */
  datatype StartEnv = StartEnv(
    config: Option<StartConfig>, vet: nat -> VetEnv, freePort: Option<int>, create: NewOutcome, boot: BootOutcome,
    wantedPortOpens: bool, anyPortOpens: bool, latePanic: bool, v6: V6Table)

  datatype StartError = InvalidConfig | NoCandidates | FirstRejected | NoFreePort | ConfigRejected
    | EngineFailed | NoLocalPort | Panicked

  // ---- What a start decides, as functions of its inputs -------------------------------------

  /** `loses`: the panic came inside `newBox`, with a cancel function in its hands. */
  datatype Verdict = Pass | Drop | Panic(loses: bool)

  function VerdictOfBox(vet: VetEnv): Verdict {
    match vet.create
    case ParseFails => Drop
    case CreateFails => Drop
    case CreatePanics => Panic(true)
    case Created => if vet.close == Closes then Pass else if vet.close == CloseFails then Drop else Panic(false)
  }

  /** What vetting the i-th candidate finds. */
  function VerdictOf(env: StartEnv, raw: Option<Obj>, i: nat): Verdict {
    if Problem(raw, env.v6).Some? then Drop else VerdictOfBox(env.vet(i))
  }

  /** sing-box takes the candidate: it sanitises, and its throwaway box is created and closed without
      an error. */
  predicate Constructs(env: StartEnv, raw: Option<Obj>, i: nat) {
    Problem(raw, env.v6).None? && env.vet(i).create == Created && env.vet(i).close == Closes
  }

  /** Vetting it panics, in the creation of the box or in its `Close`. */
  predicate Panics(env: StartEnv, raw: Option<Obj>, i: nat) {
    Problem(raw, env.v6).None?
    && (env.vet(i).create == CreatePanics || (env.vet(i).create == Created && env.vet(i).close == ClosePanics))
  }

  lemma VerdictMeans(env: StartEnv, raw: Option<Obj>, i: nat)
    ensures VerdictOf(env, raw, i) == Pass <==> Constructs(env, raw, i)
    ensures VerdictOf(env, raw, i).Panic? <==> Panics(env, raw, i)
    ensures VerdictOf(env, raw, i) == Panic(true) <==> Panics(env, raw, i) && env.vet(i).create == CreatePanics
  {
  }

  function Verdicts(env: StartEnv, cands: seq<Option<Obj>>): (r: seq<Verdict>)
    ensures |r| == |cands|
  {
    seq(|cands|, i requires 0 <= i < |cands| => VerdictOf(env, cands[i], i))
  }

  /** `v` lists the verdicts. The quantifier speaks only of positions asked for, which
      keeps the sanitiser's definition out of the proofs that just carry `v` along. */
  ghost predicate Vets(env: StartEnv, cands: seq<Option<Obj>>, v: seq<Verdict>) {
    |v| == |cands| && forall i {:trigger Ask(i)} :: 0 <= i < |cands| && Ask(i) ==> v[i] == VerdictOf(env, cands[i], i)
  }

  ghost predicate Ask(i: int) { true }

  lemma VerdictsVet(env: StartEnv, cands: seq<Option<Obj>>)
    ensures Vets(env, cands, Verdicts(env, cands))
  {
  }

  /** The positions of the candidates that pass on their own. */
  function AcceptedOf(v: seq<Verdict>): seq<nat> {
    if v == [] then []
    else
      var n := |v| - 1;
      AcceptedOf(v[..n]) + if v[n] == Pass then [n] else []
  }

  lemma AcceptedNext(v: seq<Verdict>, i: nat)
    requires i < |v|
    ensures AcceptedOf(v[..i + 1]) == AcceptedOf(v[..i]) + if v[i] == Pass then [i] else []
  {
    assert v[..i + 1][..i] == v[..i];
  }

  lemma {:induction false} AcceptedPass(v: seq<Verdict>)
    ensures var r := AcceptedOf(v);
      Ascending(r) && forall p :: 0 <= p < |r| ==> r[p] < |v| && v[r[p]] == Pass
  {
    if v != [] {
      var n := |v| - 1;
      AcceptedPass(v[..n]);
      var before, r := AcceptedOf(v[..n]), AcceptedOf(v);
      forall p | 0 <= p < |r| ensures r[p] < |v| && v[r[p]] == Pass && (p < |before| ==> r[p] == before[p] < n) {
        if p < |before| {
          assert v[..n][before[p]] == v[before[p]];
        }
      }
    }
  }

  lemma {:induction false} AcceptedAll(v: seq<Verdict>, i: nat)
    requires i < |v| && v[i] == Pass
    ensures i in AcceptedOf(v)
  {
    if i < |v| - 1 {
      AcceptedAll(v[..|v| - 1], i);
    }
  }

  /** In order, exactly the candidates sing-box takes. */
  ghost predicate AcceptsExactly(env: StartEnv, cands: seq<Option<Obj>>, accepted: seq<nat>) {
    && Ascending(accepted)
    && forall i: nat :: i in accepted <==> i < |cands| && Constructs(env, cands[i], i)
  }

  lemma AcceptedExactly(env: StartEnv, cands: seq<Option<Obj>>, v: seq<Verdict>)
    requires Vets(env, cands, v)
    ensures AcceptsExactly(env, cands, AcceptedOf(v))
  {
    AcceptedPass(v);
    forall i: nat ensures i in AcceptedOf(v) <==> i < |cands| && Constructs(env, cands[i], i) {
      if i < |cands| {
        assert Ask(i);
        VerdictMeans(env, cands[i], i);
        if v[i] == Pass {
          AcceptedAll(v, i);
        }
      }
    }
  }

  ghost predicate NoPanic(v: seq<Verdict>, n: nat) {
    forall k :: 0 <= k < n && k < |v| ==> !v[k].Panic?
  }

  /** What the vetting loop has after `i` candidates. */
  ghost predicate Vetted(cands: seq<Option<Obj>>, v: seq<Verdict>, i: nat, cleans: seq<Obj>, accepted: seq<nat>) {
    && i <= |v| == |cands| && accepted == AcceptedOf(v[..i]) && CleansOf(cands, accepted, cleans, false)
    && (i > 0 ==> v[0] == Pass) && NoPanic(v, i)
  }

  lemma VettedNext(cands: seq<Option<Obj>>, v: seq<Verdict>, i: nat, cleans: seq<Obj>, accepted: seq<nat>, clean: Obj)
    requires Vetted(cands, v, i, cleans, accepted) && i < |v| && !v[i].Panic?
    requires if v[i] == Drop then i > 0 else CleanFrom(cands[i], PROXY_TAG, clean)
    ensures if v[i] == Drop then Vetted(cands, v, i + 1, cleans, accepted)
            else Vetted(cands, v, i + 1, cleans + [clean], accepted + [i])
  {
    AcceptedNext(v, i);
    if v[i] == Pass {
      CleansAppend(cands, accepted, cleans, i, clean);
    }
  }

  lemma VettedAll(cands: seq<Option<Obj>>, v: seq<Verdict>, cleans: seq<Obj>, accepted: seq<nat>)
    requires v != [] && Vetted(cands, v, |v|, cleans, accepted)
    ensures VettingSucceeds(v) && !VettingLoses(v)
    ensures accepted == AcceptedOf(v) && CleansOf(cands, accepted, cleans, false)
  {
    WholePrefix(v);
    NoPanicNoLoss(v);
  }

  lemma WholePrefix<T>(v: seq<T>)
    ensures v[..|v|] == v
  {
  }

  lemma NoPanicNoLoss(v: seq<Verdict>)
    requires NoPanic(v, |v|)
    ensures !VettingLoses(v)
  {
  }

  lemma FirstDropped(v: seq<Verdict>)
    requires v != [] && v[0] == Drop
    ensures !VettingSucceeds(v) && !VettingLoses(v)
  {
  }

  /** Vetting succeeds when the first candidate passes and nothing panics. */
  ghost predicate VettingSucceeds(v: seq<Verdict>) {
    v != [] && v[0] == Pass && NoPanic(v, |v|)
  }

  /** Vetting runs into a panic inside `newBox`: no panic comes before it, and the first candidate
      was not refused. */
  ghost predicate VettingLoses(v: seq<Verdict>) {
    v != [] && v[0] != Drop && exists k :: 0 <= k < |v| && v[k] == Panic(true) && NoPanic(v, k)
  }

  lemma FirstPanic(v: seq<Verdict>, i: nat)
    requires i < |v| && v[i].Panic? && NoPanic(v, i) && v[0] != Drop
    ensures !VettingSucceeds(v) && (VettingLoses(v) <==> v[i].loses)
  {
  }

  function InnerPort(env: StartEnv, sc: StartConfig): Option<int> {
    if sc.socksPort != 0 then Some(sc.socksPort) else env.freePort
  }

  predicate RelayOpens(env: StartEnv, sc: StartConfig) {
    env.wantedPortOpens || (sc.WantedPort() != 0 && env.anyPortOpens)
  }

  predicate BootSucceeds(env: StartEnv, sc: StartConfig) {
    env.create == Created && env.boot == Boots && (sc.Mode() == ProxyMode ==> RelayOpens(env, sc)) && !env.latePanic
  }

  predicate ConfigBuilds(env: StartEnv, sc: StartConfig) {
    sc.Mode() == ProxyMode ==> InnerPort(env, sc).Some? && 0 < InnerPort(env, sc).value <= 65535
  }

  /** The start goes through, given the verdicts of the vetting. */
  ghost predicate SucceedsWith(env: StartEnv, sc: StartConfig, v: seq<Verdict>) {
    && VettingSucceeds(v)
    && ConfigBuilds(env, sc)
    && BootSucceeds(env, sc)
  }

  /** A panic inside `newBox` loses the cancel function it had just made: the deferred
      clean-up only knows what `newBox` returned. These are the starts that run into one. */
  ghost predicate LosesWith(env: StartEnv, sc: StartConfig, v: seq<Verdict>) {
    || VettingLoses(v)
    || (VettingSucceeds(v) && ConfigBuilds(env, sc) && env.create == CreatePanics)
  }

  ghost predicate StartSucceeds(env: StartEnv) {
    env.config.Some? && SucceedsWith(env, env.config.value, Verdicts(env, env.config.value.Candidates()))
  }

  ghost predicate LosesCancel(env: StartEnv) {
    env.config.Some? && LosesWith(env, env.config.value, Verdicts(env, env.config.value.Candidates()))
  }

  /** A start in the terms of the caller's view. */
  function StartList(env: StartEnv): seq<Option<Obj>> {
    if env.config.Some? then env.config.value.Candidates() else []
  }

  function StartMode(env: StartEnv): Mode {
    if env.config.Some? then env.config.value.Mode() else ProxyMode
  }

  ghost function OutcomeOf(env: StartEnv): StartOutcome {
    if StartSucceeds(env) then Booted(AcceptedOf(Verdicts(env, StartList(env)))) else Refused
  }

  lemma OutcomeIsPossible(env: StartEnv)
    ensures PossibleOutcome(|StartList(env)|, OutcomeOf(env))
  {
    if StartSucceeds(env) {
      AcceptedSurvive(Verdicts(env, StartList(env)));
    }
  }

  lemma AcceptedSurvive(v: seq<Verdict>)
    requires v != [] && v[0] == Pass && |v| <= MAX_ENGINE_CANDIDATES
    ensures Survivors(|v|, AcceptedOf(v))
  {
    AcceptedPass(v);
    AcceptedAll(v, 0);
  }

  // ---- Tagging the survivors -------------------------------------------------------------------

  /** `clean` is a result of sanitising `raw` with that tag. */
  ghost predicate CleanFrom(raw: Option<Obj>, tag: string, clean: Obj) {
    raw.Some? && TypeOf(raw.value) in ALLOWED_TYPES && Sanitized(raw.value, tag, clean)
  }

  ghost predicate CleansOf(cands: seq<Option<Obj>>, accepted: seq<nat>, cleans: seq<Obj>, tagged: bool) {
    && |cleans| == |accepted|
    && (forall p :: 0 <= p < |accepted| ==> accepted[p] < |cands|)
    && forall p {:trigger Ask(p)} :: 0 <= p < |cleans| && Ask(p) ==>
         CleanFrom(cands[accepted[p]], if tagged then TagFor(|cleans|, p) else PROXY_TAG, cleans[p])
  }

  lemma CleansAppend(cands: seq<Option<Obj>>, accepted: seq<nat>, cleans: seq<Obj>, i: nat, clean: Obj)
    requires CleansOf(cands, accepted, cleans, false) && i < |cands| && CleanFrom(cands[i], PROXY_TAG, clean)
    ensures CleansOf(cands, accepted + [i], cleans + [clean], false)
  {
  }

  lemma Retag(raw: Obj, tag: string, tag': string, clean: Obj)
    requires Sanitized(raw, tag, clean)
    ensures Sanitized(raw, tag', clean["tag" := JStr(tag')])
    ensures Field(clean, "type") == JStr(TypeOf(raw)) && Field(clean, "tag") == JStr(tag)
  {
    var picked :| Sanitizer.Picked(Sanitizer.RULES, JObj(raw), FieldsFor(TypeOf(raw)), OBJECT_FIELDS, picked)
      && clean == Finish(picked, TypeOf(raw), tag);
    FinishRetag(picked, TypeOf(raw), tag, tag');
  }

  lemma FinishRetag(picked: Obj, typ: string, tag: string, tag': string)
    ensures Finish(picked, typ, tag)["tag" := JStr(tag')] == Finish(picked, typ, tag')
  {
  }

  lemma TypeAllowed(raw: Option<Obj>, v6: V6Table)
    requires Problem(raw, v6).None?
    ensures raw.Some? && TypeOf(raw.value) in ALLOWED_TYPES
  {
  }

  lemma CleanIsReady(raw: Option<Obj>, clean: Obj)
    requires CleanFrom(raw, PROXY_TAG, clean)
    ensures Ready([clean])
  {
    Retag(raw.value, PROXY_TAG, PROXY_TAG, clean);
  }

  lemma CleansReady(cands: seq<Option<Obj>>, accepted: seq<nat>, cleans: seq<Obj>)
    requires CleansOf(cands, accepted, cleans, true)
    ensures Ready(cleans)
  {
    forall p | 0 <= p < |cleans|
      ensures Field(cleans[p], "tag") == JStr(TagFor(|cleans|, p))
      ensures Field(cleans[p], "type").JStr? && cleans[p]["type"].s in ALLOWED_TYPES
    {
      assert Ask(p);
      Retag(cands[accepted[p]].value, TagFor(|cleans|, p), PROXY_TAG, cleans[p]);
    }
  }

  lemma TaggedCleans(cands: seq<Option<Obj>>, accepted: seq<nat>, cleans: seq<Obj>, tagged: seq<Obj>)
    requires CleansOf(cands, accepted, cleans, false)
    requires |tagged| == |cleans|
    requires forall k :: 0 <= k < |tagged| ==> tagged[k] == Retagged(cleans[k], TagFor(|cleans|, k))
    ensures CleansOf(cands, accepted, tagged, true)
  {
    forall p {:trigger Ask(p)} | 0 <= p < |tagged|
      ensures CleanFrom(cands[accepted[p]], TagFor(|tagged|, p), tagged[p])
    {
      assert Ask(p);
      Retag(cands[accepted[p]].value, PROXY_TAG, TagFor(|cleans|, p), cleans[p]);
    }
  }

  function Retagged(clean: Obj, tag: string): Obj {
    clean["tag" := JStr(tag)]
  }

  method TagSurvivors(cleans: seq<Obj>) returns (tags: seq<string>, tagged: seq<Obj>)
    ensures |tags| == |tagged| == |cleans|
    ensures forall k :: 0 <= k < |tags| ==> tags[k] == TagFor(|cleans|, k)
    ensures forall k :: 0 <= k < |tagged| ==> tagged[k] == Retagged(cleans[k], TagFor(|cleans|, k))
  {
    tags, tagged := [], [];
    for k := 0 to |cleans|
      invariant |tags| == |tagged| == k
      invariant forall j :: 0 <= j < k ==> tags[j] == TagFor(|cleans|, j)
      invariant forall j :: 0 <= j < k ==> tagged[j] == Retagged(cleans[j], TagFor(|cleans|, j))
    {
      var tag := if |cleans| > 1 then NodeTag(k) else PROXY_TAG;
      tags := tags + [tag];
      tagged := tagged + [Retagged(cleans[k], tag)];
    }
  }

  /** The tags `startEngine` gives to its survivors. */
  ghost predicate StartTags(tags: seq<string>) {
    forall p {:trigger Ask(p)} :: 0 <= p < |tags| && Ask(p) ==> tags[p] == TagFor(|tags|, p)
  }

  lemma TagsDistinct(tags: seq<string>, p: nat, q: nat)
    requires StartTags(tags) && p < q < |tags|
    ensures tags[p] != tags[q]
  {
    assert Ask(p) && Ask(q);
    if NodeTag(p) == NodeTag(q) {
      NodeTagInjective(p, q);
    }
  }

  /** The session's record of its candidates: positions, tags and sanitised outbounds agree. */
  ghost predicate Consistent(started: seq<Option<Obj>>, accepted: seq<nat>, tags: seq<string>, cleans: seq<Obj>) {
    && |tags| == |accepted| && Survivors(|started|, accepted)
    && StartTags(tags)
    && CleansOf(started, accepted, cleans, true)
  }

  /** In a group, the tag of a survivor leads to its sanitised outbound. */
  lemma GroupMember(started: seq<Option<Obj>>, accepted: seq<nat>, tags: seq<string>, cleans: seq<Obj>, p: nat)
    requires Consistent(started, accepted, tags, cleans) && |tags| >= 2 && p < |tags|
    ensures FindTag(Outbounds(cleans), PROXY_TAG) == Some(SelectorOutbound(|cleans|))
    ensures FindTag(Outbounds(cleans), tags[p]) == Some(JObj(cleans[p]))
    ensures SelectorHas(SelectorOutbound(|cleans|), tags[p])
  {
    CleansReady(started, accepted, cleans);
    GroupFinds(cleans, p);
    assert Ask(p);
    SelectorHasMember(|cleans|, p);
  }

  lemma SingleMember(started: seq<Option<Obj>>, accepted: seq<nat>, tags: seq<string>, cleans: seq<Obj>)
    requires Consistent(started, accepted, tags, cleans) && |tags| == 1
    ensures FindTag(Outbounds(cleans), tags[0]) == Some(JObj(cleans[0]))
  {
    CleansReady(started, accepted, cleans);
    assert Ask(0);
    FindTagAt(Outbounds(cleans), tags[0], 0);
  }

  /** Whatever the session calls its p-th outbound is the sanitised form of the candidate
      the caller numbered `accepted[p]`. */
  lemma MemberIsSanitised(started: seq<Option<Obj>>, accepted: seq<nat>, tags: seq<string>, cleans: seq<Obj>, p: nat)
    requires Consistent(started, accepted, tags, cleans) && p < |tags|
    ensures FindTag(Outbounds(cleans), tags[p]) == Some(JObj(cleans[p]))
    ensures CleanFrom(started[accepted[p]], tags[p], cleans[p])
  {
    if |tags| >= 2 {
      GroupMember(started, accepted, tags, cleans, p);
    } else {
      SingleMember(started, accepted, tags, cleans);
    }
    assert Ask(p);
  }

  /** The configuration generated for a session dials its first tag. */
  lemma FirstTagDialled(started: seq<Option<Obj>>, accepted: seq<nat>, tags: seq<string>, cleans: seq<Obj>)
    requires Consistent(started, accepted, tags, cleans)
    ensures ProxyDials(Outbounds(cleans)) == Some(tags[0])
  {
    CleansReady(started, accepted, cleans);
    FirstIsDialled(cleans);
    assert Ask(0);
  }

  /** `SelectOutbound` on the box's "proxy" outbound: a selector takes its members' tags only. */
  method SelectOutbound(outs: seq<Json>, tag: string) returns (ok: bool)
    ensures ok <==> FindTag(outs, PROXY_TAG).Some? && SelectorHas(FindTag(outs, PROXY_TAG).value, tag)
  {
    var out := FindTag(outs, PROXY_TAG);
    ok := out.Some? && SelectorHas(out.value, tag);
  }

  // ---- The engine ---------------------------------------------------------------------------------

  /** A running box: the outbounds of its configuration, and the one its "proxy" dials, which a
      selector group lets the caller change. */
  datatype Box = Box(id: nat, outbounds: seq<Json>, dials: string)

  /** What the session was given and what became of it, for the contracts only. */
  datatype Record = Record(started: seq<Option<Obj>>, cleans: seq<Obj>, pos: nat)

  /** What a session knows of its candidates agrees with its box. */
  ghost predicate Fits(r: Record, accepted: seq<nat>, tags: seq<string>, active: string, box: Box) {
    && Consistent(r.started, accepted, tags, r.cleans) && box.outbounds == Outbounds(r.cleans)
    && r.pos < |tags| && active == tags[r.pos] && box.dials == active
  }

  lemma FirstFits(r: Record, accepted: seq<nat>, tags: seq<string>, cfg: Obj, id: nat)
    requires Consistent(r.started, accepted, tags, r.cleans) && r.pos == 0
    requires Field(cfg, "outbounds") == JArr(Outbounds(r.cleans))
    ensures tags != [] && ProxyDials(cfg["outbounds"].items) == Some(tags[0])
    ensures Fits(r, accepted, tags, tags[0], Box(id, cfg["outbounds"].items, tags[0]))
  {
    FirstTagDialled(r.started, accepted, tags, r.cleans);
  }

  class Engine {
    var running: bool
    var instance: Option<Box>
    var cancelBox: Option<nat>
    var relay: Option<nat>
    var mode: Option<Mode>
    var activeTags: seq<string>
    var acceptedIdx: seq<nat>
    var activeTag: string

    /** Acquired and not yet released; releasing anything else is an error. */
    var open: Open
    var nextId: nat

    /** How many cancel functions were lost inside a panicking `newBox`. */
    ghost var lost: nat
    ghost var record: Record

    ghost function Held(): Open
      reads this
    {
      Open(if instance.Some? then {instance.value.id} else {}, Maybe(cancelBox), Maybe(relay))
    }

    /** What is open is exactly what the session holds. */
    ghost predicate Accounted()
      reads this
    {
      open == Held() && open.Below(nextId)
    }

    ghost predicate InSession()
      reads this
    {
      && instance.Some? && cancelBox.Some? && mode.Some? && (relay.Some? <==> mode == Some(ProxyMode))
      && Fits(record, acceptedIdx, activeTags, activeTag, instance.value)
    }

    ghost predicate Idle()
      reads this
    {
      && instance.None? && cancelBox.None? && relay.None? && mode.None?
      && activeTags == [] && acceptedIdx == [] && activeTag == ""
    }

    ghost predicate Valid()
      reads this
    {
      Accounted() && if running then InSession() else Idle()
    }

    /** The caller's view. */
    ghost function View(): Option<Session<Option<Obj>>>
      reads this
      requires Valid()
    {
      if running then Some(Session(record.started, acceptedIdx, record.pos, mode.value)) else None
    }

    /** The outbound that carries the traffic. */
    ghost function Carrying(): Option<Json>
      reads this
    {
      if instance.Some? then FindTag(instance.value.outbounds, instance.value.dials) else None
    }

    /** The traffic goes through the sanitised form of the candidate the caller numbered `i`. */
    ghost predicate Carries(i: nat)
      reads this
    {
      && i < |record.started| && Carrying().Some? && Carrying().value.JObj?
      && CleanFrom(record.started[i], activeTag, Carrying().value.fields)
    }

    /** In every session the candidate in use is the one that carries the traffic. */
    lemma UsedIsCarried()
      requires Valid() && running
      ensures var s := View().value; s.active < |s.accepted| && s.list == record.started && Carries(Using(s))
    {
      MemberIsSanitised(record.started, acceptedIdx, activeTags, record.cleans, record.pos);
    }

    constructor ()
      ensures Valid() && !running && open == NOTHING_OPEN && lost == 0
    {
      running, instance, cancelBox, relay, mode := false, None, None, None, None;
      activeTags, acceptedIdx, activeTag := [], [], "";
      open, nextId, lost := NOTHING_OPEN, 0, 0;
      record := Record([], [], 0);
    }

    method ReleaseBox(id: nat)
      requires id in open.boxes
      modifies this`open
      ensures open == old(open).(boxes := old(open).boxes - {id})
    {
      open := open.(boxes := open.boxes - {id});
    }

    method ReleaseCancel(id: nat)
      requires id in open.cancels
      modifies this`open
      ensures open == old(open).(cancels := old(open).cancels - {id})
    {
      open := open.(cancels := open.cancels - {id});
    }

    method ReleaseRelay(id: nat)
      requires id in open.relays
      modifies this`open
      ensures open == old(open).(relays := old(open).relays - {id})
    {
      open := open.(relays := open.relays - {id});
    }

    /** Parses a config and constructs a box: a cancel function first, then the box. */
    method NewBox(outcome: NewOutcome) returns (id: nat)
      requires Ledger()
      modifies this`open, this`nextId, this`lost
      ensures id == old(nextId) && nextId == id + 1
      ensures Ledger()
      ensures open == if outcome == Created then WithSession(old(open), id, None) else old(open)
      ensures lost == old(lost) + if outcome == CreatePanics then 1 else 0
    {
      id := nextId;
      nextId := nextId + 1;
      if outcome == ParseFails {
        return;
      }
      open := open.(cancels := open.cancels + {id});
      if outcome == CreateFails {
        ReleaseCancel(id);
      } else if outcome == CreatePanics {
        open, lost := open.(cancels := open.cancels - {id}), lost + 1;
      } else {
        open := open.(boxes := open.boxes + {id});
      }
    }

    ghost predicate Ledger()
      reads this
    {
      open.Below(nextId)
    }

    /** A throwaway box: created, then cancelled and closed at once. */
    method TryBox(vet: VetEnv) returns (verdict: Verdict)
      requires Ledger()
      modifies this`open, this`nextId, this`lost
      ensures Ledger() && open == old(open)
      ensures lost == old(lost) + if verdict == Panic(true) then 1 else 0
      ensures verdict == VerdictOfBox(vet)
      ensures verdict == Pass <==> vet.create == Created && vet.close == Closes
      ensures verdict.Panic? <==> vet.create == CreatePanics || (vet.create == Created && vet.close == ClosePanics)
    {
      var id := NewBox(vet.create);
      if vet.create == CreatePanics {
        return Panic(true);
      }
      if vet.create != Created {
        return Drop;
      }
      ReleaseCancel(id);
      ReleaseBox(id);
      verdict := if vet.close == Closes then Pass else if vet.close == CloseFails then Drop else Panic(false);
    }

    /** Whether sing-box accepts one sanitised candidate on its own. */
    method OutboundConstructs(clean: Obj, vet: VetEnv, v6: V6Table) returns (verdict: Verdict)
      requires Ledger() && Ready([clean])
      modifies this`open, this`nextId, this`lost
      ensures Ledger() && open == old(open)
      ensures lost == old(lost) + if verdict == Panic(true) then 1 else 0
      ensures verdict == VerdictOfBox(vet)
      ensures verdict == Pass <==> vet.create == Created && vet.close == Closes
    {
      var cfg := BuildBoundProxyConfig([clean], 1, "error", RouteBinding("", false), v6);
      if cfg.Err? {
        return Drop;
      }
      verdict := TryBox(vet);
    }

    /** One candidate sanitised under the tag it is vetted with. */
    method SanitizeOne(raw: Option<Obj>, v6: V6Table) returns (r: Result<Obj, SanitizeError>)
      ensures r.Ok? <==> Problem(raw, v6).None?
      ensures r.Ok? ==> Ready([r.value]) && CleanFrom(raw, PROXY_TAG, r.value)
    {
      var san := SanitizeOutbound(raw, PROXY_TAG, v6);
      if san.Err? {
        return Err(san.error);
      }
      TypeAllowed(raw, v6);
      CleanIsReady(raw, san.value.outbound);
      return Ok(san.value.outbound);
    }

    method VetOne(env: StartEnv, cands: seq<Option<Obj>>, i: nat, ghost v: seq<Verdict>)
      returns (verdict: Verdict, clean: Obj)
      requires Ledger() && i < |cands| && Vets(env, cands, v)
      modifies this`open, this`nextId, this`lost
      ensures Ledger() && open == old(open)
      ensures lost == old(lost) + if verdict == Panic(true) then 1 else 0
      ensures verdict == v[i]
      ensures verdict == Pass ==> CleanFrom(cands[i], PROXY_TAG, clean)
    {
      assert Ask(i);
      clean := map[];
      var san := SanitizeOne(cands[i], env.v6);
      if san.Err? {
        return Drop, clean;
      }
      clean := san.value;
      verdict := OutboundConstructs(clean, env.vet(i), env.v6);
    }

    /** A candidate that fails is dropped, unless it is the first one. */
    method VetCandidates(env: StartEnv, cands: seq<Option<Obj>>, ghost v: seq<Verdict>)
      returns (r: Result<(seq<Obj>, seq<nat>), StartError>)
      requires Ledger() && cands != [] && Vets(env, cands, v)
      modifies this`open, this`nextId, this`lost
      ensures Ledger() && open == old(open)
      ensures lost == old(lost) + if VettingLoses(v) then 1 else 0
      ensures r.Ok? <==> VettingSucceeds(v)
      ensures r.Ok? ==> r.value.1 == AcceptedOf(v) && CleansOf(cands, r.value.1, r.value.0, false)
      ensures r.Ok? ==> AcceptsExactly(env, cands, r.value.1)
    {
      var cleans: seq<Obj> := [];
      var accepted: seq<nat> := [];
      for i := 0 to |cands|
        invariant Ledger() && open == old(open) && lost == old(lost)
        invariant Vetted(cands, v, i, cleans, accepted)
      {
        var verdict, clean;
        verdict, clean := VetOne(env, cands, i, v);
        if verdict.Panic? {
          FirstPanic(v, i);
          return Err(Panicked);
        }
        if verdict == Drop && i == 0 {
          FirstDropped(v);
          return Err(FirstRejected);
        }
        VettedNext(cands, v, i, cleans, accepted, clean);
        if verdict == Drop {
          continue;
        }
        cleans := cleans + [clean];
        accepted := accepted + [i];
      }
      VettedAll(cands, v, cleans, accepted);
      AcceptedExactly(env, cands, v);
      return Ok((cleans, accepted));
    }

    method GenerateProxyConfig(env: StartEnv, sc: StartConfig, tagged: seq<Obj>) returns (r: Result<Obj, StartError>)
      requires tagged != [] && Ready(tagged)
      ensures r.Ok? <==> InnerPort(env, sc).Some? && 0 < InnerPort(env, sc).value <= 65535
      ensures r.Ok? ==> r.value == ProxyConfig(tagged, InnerPort(env, sc).value, sc.LogLevel(), RouteBinding("", false))
      ensures r.Err? ==> r.error == NoFreePort || r.error == ConfigRejected
    {
      var inner := sc.socksPort;
      if inner == 0 {
        if env.freePort.None? {
          return Err(NoFreePort);
        }
        inner := env.freePort.value;
      }
      var built := BuildBoundProxyConfig(tagged, inner, sc.LogLevel(), RouteBinding("", false), env.v6);
      return if built.Ok? then Ok(built.value) else Err(ConfigRejected);
    }

    /** The generated configuration is never refused for its content: vetted, tagged
        candidates always pass the gate, so only the port can fail. It is the one of the mode asked
        for, with the candidates' outbounds. */
    method GenerateConfig(env: StartEnv, sc: StartConfig, tagged: seq<Obj>) returns (r: Result<Obj, StartError>)
      requires tagged != [] && Ready(tagged)
      ensures r.Ok? <==> ConfigBuilds(env, sc)
      ensures r.Ok? ==> SafeConfig(r.value, sc.Mode(), env.v6) && Field(r.value, "outbounds") == JArr(Outbounds(tagged))
      ensures r.Err? ==> r.error == NoFreePort || r.error == ConfigRejected
    {
      if sc.Mode() == ProxyMode {
        r := GenerateProxyConfig(env, sc, tagged);
        if r.Ok? {
          GeneratedOutbounds(tagged, InnerPort(env, sc).value, sc.LogLevel(), RouteBinding("", false), false, env.v6);
        }
      } else {
        var built := BuildTunConfig(tagged, sc.LogLevel(), sc.strictRoute, env.v6);
        GeneratedOutbounds(tagged, 1, sc.LogLevel(), RouteBinding("", false), sc.strictRoute, env.v6);
        r := if built.Ok? then Ok(built.value) else Err(ConfigRejected);
      }
    }

    /** The wanted public port, or any free one when it is taken. */
    method OpenRelay(env: StartEnv, sc: StartConfig) returns (rl: Option<nat>)
      requires Ledger()
      modifies this`open, this`nextId
      ensures rl.Some? <==> RelayOpens(env, sc)
      ensures Ledger()
      ensures rl.Some? ==> rl.value !in old(open).relays
      ensures open == old(open).(relays := old(open).relays + Maybe(rl))
    {
      var ok := env.wantedPortOpens;
      if !ok && sc.WantedPort() != 0 {
        ok := env.anyPortOpens;
      }
      if !ok {
        return None;
      }
      rl := Some(nextId);
      open := open.(relays := open.relays + {nextId});
      nextId := nextId + 1;
    }

    /** Acquires and boots the session's own box and relay; on an error, or a panic, what was acquired
        so far. */
    method Acquire(env: StartEnv, sc: StartConfig)
      returns (err: Option<StartError>, b: Option<nat>, cancel: Option<nat>, rl: Option<nat>)
      requires Ledger() && open == NOTHING_OPEN
      modifies this`open, this`nextId, this`lost
      ensures Ledger() && lost == old(lost) + if env.create == CreatePanics then 1 else 0
      ensures open == Open(Maybe(b), Maybe(cancel), Maybe(rl))
      ensures err.None? <==> BootSucceeds(env, sc)
      ensures err.None? ==> b.Some? && cancel == b && (rl.Some? <==> sc.Mode() == ProxyMode)
    {
      err, b, cancel, rl := None, None, None, None;
      var id := NewBox(env.create);
      if env.create != Created {
        err := Some(if env.create == CreatePanics then Panicked else EngineFailed);
        return;
      }
      b, cancel := Some(id), Some(id);
      if env.boot != Boots {
        err := Some(if env.boot == BootPanics then Panicked else EngineFailed);
        return;
      }
      if sc.Mode() == ProxyMode {
        rl := OpenRelay(env, sc);
        if rl.None? {
          err := Some(NoLocalPort);
          return;
        }
      }
      if env.latePanic {
        err := Some(Panicked);
      }
    }

    /** The relay, the box and the cancel function, in that order, as far as they were acquired. */
    method CleanUp(b: Option<nat>, cancel: Option<nat>, rl: Option<nat>)
      requires open == Open(Maybe(b), Maybe(cancel), Maybe(rl))
      modifies this`open
      ensures open == NOTHING_OPEN
    {
      if rl.Some? {
        ReleaseRelay(rl.value);
      }
      if b.Some? {
        ReleaseBox(b.value);
      }
      if cancel.Some? {
        ReleaseCancel(cancel.value);
      }
    }

    /** The session's own box and relay, or, after the deferred clean-up, nothing of them. */
    method Boot(env: StartEnv, sc: StartConfig) returns (r: Result<(nat, Option<nat>), StartError>)
      requires Ledger() && open == NOTHING_OPEN
      modifies this`open, this`nextId, this`lost
      ensures Ledger() && lost == old(lost) + if env.create == CreatePanics then 1 else 0
      ensures r.Ok? <==> BootSucceeds(env, sc)
      ensures r.Err? ==> open == NOTHING_OPEN
      ensures r.Ok? ==>
        && open == Open({r.value.0}, {r.value.0}, Maybe(r.value.1))
        && (r.value.1.Some? <==> sc.Mode() == ProxyMode)
    {
      var err, b, cancel, rl := Acquire(env, sc);
      if err.Some? {
        CleanUp(b, cancel, rl);
        return Err(err.value);
      }
      return Ok((b.value, rl));
    }

    /** Vetting, tagging and configuring: everything before the session's own box. */
    method Prepare(env: StartEnv, sc: StartConfig, ghost v: seq<Verdict>)
      returns (r: Result<(seq<string>, seq<Obj>, seq<nat>, Obj), StartError>)
      requires Ledger() && Vets(env, sc.Candidates(), v)
      modifies this`open, this`nextId, this`lost
      ensures Ledger() && open == old(open)
      ensures lost == old(lost) + if VettingLoses(v) then 1 else 0
      ensures r.Ok? <==> VettingSucceeds(v) && ConfigBuilds(env, sc)
      ensures r.Ok? ==>
        && r.value.2 == AcceptedOf(v) && r.value.2 != []
        && CleansOf(sc.Candidates(), r.value.2, r.value.1, true)
        && |r.value.0| == |r.value.1| && StartTags(r.value.0)
        && Field(r.value.3, "outbounds") == JArr(Outbounds(r.value.1))
    {
      var cands := sc.Candidates();
      if |cands| == 0 {
        return Err(NoCandidates);
      }
      var vetted;
      vetted := VetCandidates(env, cands, v);
      if vetted.Err? {
        return Err(vetted.error);
      }
      AcceptedAll(v, 0);
      var tags, tagged := TagSurvivors(vetted.value.0);
      TaggedCleans(cands, vetted.value.1, vetted.value.0, tagged);
      CleansReady(cands, vetted.value.1, tagged);
      var built := GenerateConfig(env, sc, tagged);
      if built.Err? {
        return Err(built.error);
      }
      return Ok((tags, tagged, vetted.value.1, built.value));
    }

    /** The session snapshot under `stateMu`. */
    method TakeOver(b: Box, m: Mode, rl: Option<nat>)
      modifies this`instance, this`cancelBox, this`relay, this`mode
      ensures instance == Some(b) && cancelBox == Some(b.id) && relay == rl && mode == Some(m)
    {
      instance, cancelBox, relay, mode := Some(b), Some(b.id), rl, Some(m);
    }

    /** The candidate tags under `tagsMu`; the first survivor is the one in use. */
    method RecordTags(tags: seq<string>, accepted: seq<nat>, ghost r: Record)
      requires tags != []
      modifies this`activeTags, this`acceptedIdx, this`activeTag, this`record
      ensures activeTags == tags && acceptedIdx == accepted && activeTag == tags[0] && record == r
    {
      activeTags, acceptedIdx := tags, accepted;
      activeTag := tags[0];
      record := r;
    }

    /** The box booted from a configuration. */
    method BootedBox(id: nat, cfg: Obj) returns (b: Box)
      requires Field(cfg, "outbounds").JArr? && ProxyDials(cfg["outbounds"].items).Some?
      ensures b == Box(id, cfg["outbounds"].items, ProxyDials(cfg["outbounds"].items).value)
    {
      b := Box(id, cfg["outbounds"].items, ProxyDials(cfg["outbounds"].items).value);
    }

    /** The commit point: the session takes over the box, its cancel function and the relay. */
    method Commit(m: Mode, tags: seq<string>, accepted: seq<nat>, box: Box, rl: Option<nat>, ghost r: Record)
      requires open.Below(nextId) && open == Open({box.id}, {box.id}, Maybe(rl))
      requires rl.Some? <==> m == ProxyMode
      requires tags != [] && r.pos == 0 && Fits(r, accepted, tags, tags[0], box)
      modifies this`instance, this`cancelBox, this`relay, this`mode, this`activeTags, this`acceptedIdx,
        this`activeTag, this`record, this`running
      ensures Valid() && running && View() == Some(Session(r.started, accepted, 0, m))
    {
      TakeOver(box, m, rl);
      RecordTags(tags, accepted, r);
      running := true;
    }

    /** The session's box and relay, and the commit. That the box dials the tag recorded as active is
        read from its configuration. */
    method Launch(env: StartEnv, sc: StartConfig, tags: seq<string>, tagged: seq<Obj>, accepted: seq<nat>, cfg: Obj)
      returns (rc: Result<(), StartError>)
      requires Valid() && !running && Consistent(sc.Candidates(), accepted, tags, tagged)
      requires Field(cfg, "outbounds") == JArr(Outbounds(tagged))
      modifies this
      ensures Valid() && running == rc.Ok?
      ensures rc.Ok? <==> BootSucceeds(env, sc)
      ensures rc.Ok? ==> View() == Some(Session(sc.Candidates(), accepted, 0, sc.Mode()))
      ensures lost == old(lost) + if env.create == CreatePanics then 1 else 0
    {
      var booted;
      booted := Boot(env, sc);
      if booted.Err? {
        return Err(booted.error);
      }
      ghost var r := Record(sc.Candidates(), tagged, 0);
      FirstFits(r, accepted, tags, cfg, booted.value.0);
      var box := BootedBox(booted.value.0, cfg);
      Commit(sc.Mode(), tags, accepted, box, booted.value.1, r);
      return Ok(());
    }

    method StartWith(env: StartEnv, sc: StartConfig, ghost v: seq<Verdict>) returns (rc: Result<(), StartError>)
      requires Valid() && !running && Vets(env, sc.Candidates(), v)
      modifies this
      ensures Valid() && running == rc.Ok?
      ensures rc.Ok? <==> SucceedsWith(env, sc, v)
      ensures rc.Ok? ==> View() == Some(Session(sc.Candidates(), AcceptedOf(v), 0, sc.Mode()))
      ensures lost == old(lost) + if LosesWith(env, sc, v) then 1 else 0
    {
      var prepared;
      prepared := Prepare(env, sc, v);
      if prepared.Err? {
        return Err(prepared.error);
      }
      var (tags, tagged, accepted, cfg) := prepared.value;
      AcceptedSurvive(v);
      NoPanicNoLoss(v);
      rc := Launch(env, sc, tags, tagged, accepted, cfg);
    }

    /** A start, served: a running engine silently stays as it is; otherwise the engine runs
        afterwards exactly when the start succeeds. Whatever the outcome, only what the
        session holds is open, and a cancel function is lost exactly when `newBox` panics. */
    method StartEngine(env: StartEnv) returns (rc: Result<(), StartError>)
      requires Valid()
      modifies this
      ensures Valid()
      ensures (View(), if rc.Ok? then 0 else 1)
           == ServeStart(old(View()), StartList(env), StartMode(env), OutcomeOf(env))
      ensures rc.Ok? <==> old(running) || StartSucceeds(env)
      ensures rc.Ok? && !old(running) ==>
        && View().Some? && View().value.list == StartList(env)
        && AcceptsExactly(env, StartList(env), View().value.accepted)
      ensures old(running) ==> View() == old(View()) && open == old(open) && lost == old(lost)
      ensures !old(running) ==> lost == old(lost) + if LosesCancel(env) then 1 else 0
    {
      if running {
        return Ok(());
      }
      if env.config.None? {
        return Err(InvalidConfig);
      }
      VerdictsVet(env, env.config.value.Candidates());
      AcceptedExactly(env, env.config.value.Candidates(), Verdicts(env, env.config.value.Candidates()));
      rc := StartWith(env, env.config.value, Verdicts(env, env.config.value.Candidates()));
    }

    /** The session snapshot under `stateMu`, given up for closing. */
    method GiveUp() returns (b: Option<Box>, cancel: Option<nat>, rl: Option<nat>)
      modifies this`instance, this`cancelBox, this`relay, this`mode
      ensures b == old(instance) && cancel == old(cancelBox) && rl == old(relay)
      ensures instance.None? && cancelBox.None? && relay.None? && mode.None?
    {
      b, cancel, rl := instance, cancelBox, relay;
      instance, cancelBox, relay, mode := None, None, None, None;
    }

    method ForgetTags()
      modifies this`activeTags, this`acceptedIdx, this`activeTag
      ensures activeTags == [] && acceptedIdx == [] && activeTag == ""
    {
      activeTags, acceptedIdx, activeTag := [], [], "";
    }

    /** After a stop nothing is open. */
    method StopEngine()
      requires Valid()
      modifies this
      ensures Valid() && !running && View().None?
      ensures open == NOTHING_OPEN && lost == old(lost)
    {
      if !running {
        return;
      }
      running := false;
      var b, cancel, rl := GiveUp();
      CleanUp(if b.Some? then Some(b.value.id) else None, cancel, rl);
      ForgetTags();
    }

    method PositionIn(accepted: seq<nat>, i: int) returns (pos: int)
      ensures -1 <= pos < |accepted|
      ensures pos >= 0 ==> accepted[pos] == i
      ensures pos < 0 ==> forall p :: 0 <= p < |accepted| ==> accepted[p] != i
    {
      for p := 0 to |accepted|
        invariant forall q :: 0 <= q < p ==> accepted[q] != i
      {
        if accepted[p] == i {
          return p;
        }
      }
      return -1;
    }

    method Dial(tag: string, ghost pos: nat)
      requires instance.Some?
      modifies this`activeTag, this`instance, this`record
      ensures record == old(record).(pos := pos) && activeTag == tag
      ensures instance == Some(old(instance).value.(dials := tag))
    {
      record := record.(pos := pos);
      instance := Some(instance.value.(dials := tag));
      activeTag := tag;
    }

    method MoveTo(pos: nat)
      requires Valid() && running && pos < |activeTags|
      modifies this`activeTag, this`instance, this`record
      ensures Valid() && open == old(open)
      ensures View() == Some(old(View()).value.(active := pos))
    {
      Dial(activeTags[pos], pos);
    }

    /** Succeeds exactly when several candidates survived and the caller's i-th is one of them; its
        sanitised form then carries the traffic. A refusal changes nothing. */
    method SelectCandidate(i: int) returns (ok: bool)
      requires Valid()
      modifies this`activeTag, this`instance, this`record
      ensures Valid() && open == old(open)
      ensures ok <==> CanSelect(old(View()), i)
      ensures View() == SelectOn(old(View()), i)
      ensures ok ==> 0 <= i && View().value.list == old(View()).value.list && Using(View().value) == i && Carries(i)
      ensures !ok ==> activeTag == old(activeTag) && instance == old(instance) && record == old(record)
    {
      if !running || instance.None? {
        return false;
      }
      if |activeTags| < 2 {
        return false;
      }
      var pos := PositionIn(acceptedIdx, i);
      if pos < 0 {
        return false;
      }
      SelectAt(View(), i, pos);
      GroupMember(record.started, acceptedIdx, activeTags, record.cleans, pos);
      var selected := SelectOutbound(instance.value.outbounds, activeTags[pos]);
      if !selected {
        return false;
      }
      MoveTo(pos);
      UsedIsCarried();
      return true;
    }
  }

  // ---- When a start succeeds ------------------------------------------------------------------------

  /** The outbounds given, at most 32 of them and in order, or the single one of the older form. */
  lemma CandidatesAre(sc: StartConfig)
    ensures var c := sc.Candidates();
      if sc.outbounds == [] then c == (if sc.outbound.Some? then [sc.outbound] else [])
      else
        && |c| == (if |sc.outbounds| < 32 then |sc.outbounds| else 32)
        && forall i :: 0 <= i < |c| ==> c[i] == sc.outbounds[i]
  {
  }

  /** The mode is vpn exactly if the text spells it; anything else is proxy. */
  lemma ModeMeans(sc: StartConfig)
    ensures sc.Mode() == VpnMode <==> Spells(sc.mode, "vpn")
  {
    NormalSpells(sc.mode, "vpn");
  }

  /** The level is one of seven: the one given, in any case, or else "info". */
  lemma LevelMeans(sc: StartConfig, level: string)
    requires level in {"trace", "debug", "info", "warn", "warning", "error", "fatal"}
    ensures sc.LogLevel() == level <==>
      || CaseVariant(sc.level, level)
      || (level == "info" && forall l :: l in LOG_LEVELS ==> !CaseVariant(sc.level, l))
  {
    forall l | l in LOG_LEVELS ensures Lower(sc.level) == l <==> CaseVariant(sc.level, l) {
      VariantLower(sc.level, l);
    }
  }

  /** The public port is the one asked for, if it is one; 0 asks for any. */
  lemma PortMeans(sc: StartConfig)
    ensures sc.WantedPort() ==
      if sc.listenPort.Some? && 0 <= sc.listenPort.value < 65536 then sc.listenPort.value else 55555
  {
  }

  predicate IsPort(p: int) { 1 <= p <= 65535 }

  /** The ports a proxy session needs: one inside, given or found, and one in front. */
  predicate PortsFound(env: StartEnv, sc: StartConfig) {
    && (if sc.socksPort != 0 then IsPort(sc.socksPort) else env.freePort.Some? && IsPort(env.freePort.value))
    && (env.wantedPortOpens || (sc.WantedPort() != 0 && env.anyPortOpens))
  }

  /** A start succeeds exactly if its first candidate is taken, vetting the others does not panic,
      the box is created and boots, and a proxy session finds its ports. */
  lemma StartSucceedsMeans(env: StartEnv)
    ensures StartSucceeds(env) <==>
      && env.config.Some? && StartList(env) != [] && Constructs(env, StartList(env)[0], 0)
      && (forall i :: 0 <= i < |StartList(env)| ==> !Panics(env, StartList(env)[i], i))
      && env.create == Created && env.boot == Boots && !env.latePanic
      && (StartMode(env) == ProxyMode ==> PortsFound(env, env.config.value))
  {
    if env.config.Some? {
      var cands := StartList(env);
      var v := Verdicts(env, cands);
      forall i | 0 <= i < |cands|
        ensures v[i] == Pass <==> Constructs(env, cands[i], i)
        ensures v[i].Panic? <==> Panics(env, cands[i], i)
      {
        VerdictMeans(env, cands[i], i);
      }
    }
  }

  /** A start loses a cancel function exactly if creating a box is the first thing that panics: one
      that vets a candidate, unless the first candidate was refused, or the session's own, once vetting
      and configuring went through. */
  lemma LosesCancelMeans(env: StartEnv)
    ensures LosesCancel(env) <==>
      env.config.Some? &&
      var c, sc := StartList(env), env.config.value;
      || (exists k: nat :: k < |c| && CreationPanics(env, c, k) && (k > 0 ==> Constructs(env, c[0], 0)))
      || (&& c != [] && Constructs(env, c[0], 0) && (forall j :: 0 <= j < |c| ==> !Panics(env, c[j], j))
          && ConfigBuilds(env, sc) && env.create == CreatePanics)
  {
    if env.config.Some? {
      var c := StartList(env);
      var v := Verdicts(env, c);
      forall i | 0 <= i < |c|
        ensures v[i] == Pass <==> Constructs(env, c[i], i)
        ensures v[i].Panic? <==> Panics(env, c[i], i)
        ensures v[i] == Panic(true) <==> Panics(env, c[i], i) && env.vet(i).create == CreatePanics
      {
        VerdictMeans(env, c[i], i);
      }
      forall k: nat | k < |c|
        ensures v[k] == Panic(true) && NoPanic(v, k) <==> CreationPanics(env, c, k)
      {
      }
    }
  }

  /** Creating the k-th candidate's throwaway box is the first panic of the vetting. */
  ghost predicate CreationPanics(env: StartEnv, c: seq<Option<Obj>>, k: nat) {
    && k < |c| && Problem(c[k], env.v6).None? && env.vet(k).create == CreatePanics
    && forall j :: 0 <= j < k ==> !Panics(env, c[j], j)
  }

  // ---- A start that loses a cancel function --------------------------------------------------------

  const HOST := "h"
  const CANDIDATE: Obj := map["type" := JStr("vless"), "server" := JStr(HOST), "server_port" := JNum(443.0)]

  lemma HostIsFine(v6: V6Table)
    ensures !UnroutableAddress(HOST, v6)
  {
    NormalKeeps(HOST);
    DotTrimmed(HOST);
    SplitNoSeparator(HOST, '.');
    NamedServer(HOST, v6);
  }

  lemma CandidateReads()
    ensures TypeOf(CANDIDATE) == "vless" && TextField(CANDIDATE, "server") == HOST && Plain(CANDIDATE, "server_port")
  {
    NormalKeeps("vless");
  }

  lemma NoProblem(raw: Obj, v6: V6Table)
    requires TypeOf(raw) in ALLOWED_TYPES && TypeOf(raw) != "" && TextField(raw, "server") != ""
    requires !UnroutableAddress(TextField(raw, "server"), v6) && Plain(raw, "server_port")
    ensures Problem(Some(raw), v6).None?
  {
  }

  lemma CandidateIsFine(v6: V6Table)
    ensures Problem(Some(CANDIDATE), v6).None?
  {
    CandidateReads();
    HostIsFine(v6);
    NoProblem(CANDIDATE, v6);
  }

  lemma OnePasses(v: seq<Verdict>)
    requires v == [Pass]
    ensures VettingSucceeds(v) && !VettingLoses(v) && AcceptedOf(v) == [0]
  {
    assert v[..0] == [];
    NoPanicNoLoss(v);
  }

  lemma OneStarts(env: StartEnv, sc: StartConfig, raw: Option<Obj>)
    requires env.config == Some(sc) && sc.Candidates() == [raw] && Constructs(env, raw, 0)
    requires ConfigBuilds(env, sc) && BootSucceeds(env, sc)
    ensures StartSucceeds(env) && !LosesCancel(env) && OutcomeOf(env) == Booted([0])
  {
    VerdictMeans(env, raw, 0);
    OnePasses(Verdicts(env, [raw]));
  }

  /** And the same candidate starts, if its box is created. */
  lemma WinningStart(v6: V6Table) returns (env: StartEnv)
    ensures StartSucceeds(env) && !LosesCancel(env) && OutcomeOf(env) == Booted([0])
  {
    CandidateIsFine(v6);
    var sc := StartConfig([Some(CANDIDATE)], None, "proxy", None, 1, "info", false);
    env := StartEnv(Some(sc), i => VetEnv(Created, Closes), None, Created, Boots, true, true, false, v6);
    OneStarts(env, sc, Some(CANDIDATE));
  }

  /** One candidate that sanitises, and a panic in the `box.New` that vets it. */
  lemma LosingStart(v6: V6Table) returns (env: StartEnv)
    ensures LosesCancel(env) && !StartSucceeds(env)
  {
    CandidateIsFine(v6);
    var sc := StartConfig([Some(CANDIDATE)], None, "proxy", None, 0, "info", false);
    env := StartEnv(Some(sc), i => VetEnv(CreatePanics, Closes), Some(1), Created, Boots, true, true, false, v6);
    var v := Verdicts(env, sc.Candidates());
    assert v[0] == Panic(true) && NoPanic(v, 0);
  }

  // ---- Any sequence of calls ---------------------------------------------------------------------

  datatype Call = StartCall(env: StartEnv) | StopCall | SelectCall(i: int)

  type Running = Option<Session<Option<Obj>>>

  ghost function After(v: Running, c: Call): Running {
    match c
    case StartCall(env) => ServeStart(v, StartList(env), StartMode(env), OutcomeOf(env)).0
    case StopCall => None
    case SelectCall(i) => SelectOn(v, i)
  }

  ghost function AfterAll(v: Running, calls: seq<Call>): Running {
    if calls == [] then v else After(AfterAll(v, calls[..|calls| - 1]), calls[|calls| - 1])
  }

  ghost function Loss(v: Running, c: Call): nat {
    if c.StartCall? && v.None? && LosesCancel(c.env) then 1 else 0
  }

  ghost function Losses(v: Running, calls: seq<Call>): nat {
    if calls == [] then 0
    else Losses(v, calls[..|calls| - 1]) + Loss(AfterAll(v, calls[..|calls| - 1]), calls[|calls| - 1])
  }

  method Perform(e: Engine, c: Call)
    requires e.Valid()
    modifies e
    ensures e.Valid() && e.View() == After(old(e.View()), c) && e.lost == old(e.lost) + Loss(old(e.View()), c)
  {
    match c
    case StartCall(env) =>
      var rc := e.StartEngine(env);
    case StopCall =>
      e.StopEngine();
    case SelectCall(i) =>
      var ok := e.SelectCandidate(i);
  }

  /** Whatever is called in whatever order, what is open is what the session holds, so nothing
      once it is stopped, save for the cancel functions of the starts named by `LosesCancel`; and the
      candidate in use carries the traffic. */
  method Drive(e: Engine, calls: seq<Call>)
    requires e.Valid()
    modifies e
    ensures e.Valid() && e.View() == AfterAll(old(e.View()), calls)
    ensures e.open == e.Held() && (e.View().None? ==> e.open == NOTHING_OPEN)
    ensures e.running ==> e.View().value.active < |e.View().value.accepted| && e.Carries(Using(e.View().value))
    ensures e.lost == old(e.lost) + Losses(old(e.View()), calls)
  {
    for k := 0 to |calls|
      invariant e.Valid() && e.View() == AfterAll(old(e.View()), calls[..k])
      invariant e.lost == old(e.lost) + Losses(old(e.View()), calls[..k])
    {
      assert calls[..k + 1][..k] == calls[..k];
      Perform(e, calls[k]);
    }
    assert calls[..|calls|] == calls;
    if e.running {
      e.UsedIsCarried();
    }
  }
}
