/** The generated configuration and the gate that re-reads it. Follows `buildOutbounds`,
    `buildBoundProxyConfig`, `buildTunConfig` and `assertConfigSafe` in
    native/weronity_core/config.go. JSON is kept as a tree: marshalling is the library's. */
module Config {
  import opened Wrappers
  import opened Text
  import opened Json
  import opened Gate

  datatype Mode = ProxyMode | VpnMode

  // ---- What the gate decodes -------------------------------------------------------------

  datatype Inbound = Inbound(typ: string, listen: Option<string>, autoRoute: bool)

  function DecodeText(j: Json): Option<string> {
    if j.JStr? then Some(j.s) else if j.JNull? then Some("") else None
  }

  function DecodeOut(j: Json): Option<Out> {
    if j.JNull? then Some(Out("", ""))
    else if !j.JObj? then None
    else
      var typ, tag := DecodeText(Field(j.fields, "type")), DecodeText(Field(j.fields, "tag"));
      if typ.None? || tag.None? then None else Some(Out(typ.value, tag.value))
  }

  function DecodeInbound(j: Json): Option<Inbound> {
    if j.JNull? then Some(Inbound("", None, false))
    else if !j.JObj? then None
    else
      var typ, listen := DecodeText(Field(j.fields, "type")), Field(j.fields, "listen");
      var auto := Field(j.fields, "auto_route");
      if typ.None? || !(listen.JNull? || listen.JStr?) || !(auto.JNull? || auto.JBool?) then None
      else Some(Inbound(typ.value, if listen.JStr? then Some(listen.s) else None, auto == JBool(true)))
  }

  function DecodeAll<T>(items: seq<Json>, one: Json -> Option<T>): (r: Option<seq<T>>)
    ensures r.Some? ==> |r.value| == |items| && forall i :: 0 <= i < |items| ==> one(items[i]) == Some(r.value[i])
    ensures r.None? ==> exists i :: 0 <= i < |items| && one(items[i]).None?
  {
    if items == [] then Some([])
    else
      var n := |items| - 1;
      var init, last := DecodeAll(items[..n], one), one(items[n]);
      assert init.None? ==> exists i :: 0 <= i < n && one(items[..n][i]).None? && items[..n][i] == items[i];
      if init.None? || last.None? then None else Some(init.value + [last.value])
  }

  function DecodeArray<T>(j: Json, one: Json -> Option<T>): Option<seq<T>> {
    if j.JNull? then Some([]) else if j.JArr? then DecodeAll(j.items, one) else None
  }

  // ---- assertConfigSafe ------------------------------------------------------------------

  /** The inbound each mode insists on. */
  predicate SafeInbound(inb: Inbound, mode: Mode, v6: V6Table) {
    match mode
    case VpnMode => inb.typ == "tun" && inb.listen.None? && inb.autoRoute
    case ProxyMode => inb.typ != "tun" && inb.listen.Some? && Classify(inb.listen.value, v6) == Loopback
  }

  ghost predicate SafeConfig(cfg: Obj, mode: Mode, v6: V6Table) {
    var inbounds := DecodeArray(Field(cfg, "inbounds"), DecodeInbound);
    var outs := DecodeArray(Field(cfg, "outbounds"), DecodeOut);
    && inbounds.Some? && outs.Some?
    && Field(cfg, "experimental") == JNull
    && |inbounds.value| == 1 && SafeInbound(inbounds.value[0], mode, v6)
    && SafeShape(outs.value)
  }

  method AssertConfigSafe(cfg: Obj, mode: Mode, v6: V6Table) returns (r: Result<(), GateError>)
    ensures r.Ok? <==> SafeConfig(cfg, mode, v6)
  {
    var inbounds := DecodeArray(Field(cfg, "inbounds"), DecodeInbound);
    var outs := DecodeArray(Field(cfg, "outbounds"), DecodeOut);
    if inbounds.None? || outs.None? {
      return Err(BadJson);
    }
    if Field(cfg, "experimental") != JNull {
      return Err(HasExperimental);
    }
    if |inbounds.value| != 1 || !SafeInbound(inbounds.value[0], mode, v6) {
      return Err(BadInbound);
    }
    r := AssertOutboundsSafe(outs.value);
  }

  /** A tunnel configuration never passes as a proxy one, nor the reverse. */
  lemma ModesExclude(cfg: Obj, v6: V6Table)
    ensures !(SafeConfig(cfg, VpnMode, v6) && SafeConfig(cfg, ProxyMode, v6))
  {
  }

  // ---- buildOutbounds ----------------------------------------------------------------------

  const DIRECT_OUTBOUND := JObj(map["type" := JStr("direct"), "tag" := JStr(DIRECT_TAG)])

  function NodeTags(n: nat): (r: seq<Json>)
    ensures |r| == n && forall i :: 0 <= i < n ==> r[i] == JStr(NodeTag(i))
  {
    seq(n, i requires 0 <= i => JStr(NodeTag(i)))
  }

  function SelectorOutbound(n: nat): Json {
    JObj(map[
      "type" := JStr(SELECTOR), "tag" := JStr(PROXY_TAG), "outbounds" := JArr(NodeTags(n)),
      "default" := JStr(NodeTag(0)), "interrupt_exist_connections" := JBool(true)])
  }

  function Nodes(cleans: seq<Obj>): (r: seq<Json>)
    ensures |r| == |cleans| && forall i :: 0 <= i < |r| ==> r[i] == JObj(cleans[i])
  {
    seq(|cleans|, i requires 0 <= i < |cleans| => JObj(cleans[i]))
  }

  /** One candidate stands alone as "proxy"; several hide behind a selector of that tag. */
  function Outbounds(cleans: seq<Obj>): seq<Json> {
    if |cleans| == 1 then [JObj(cleans[0]), DIRECT_OUTBOUND]
    else Nodes(cleans) + [SelectorOutbound(|cleans|), DIRECT_OUTBOUND]
  }

  datatype BuildError = NoNodeOutbound | BadPort | Unsafe(why: GateError)

  method BuildOutbounds(cleans: seq<Obj>) returns (r: Result<seq<Json>, BuildError>)
    ensures r.Ok? <==> |cleans| > 0
    ensures r.Ok? ==> r.value == Outbounds(cleans)
    ensures r.Err? ==> r.error == NoNodeOutbound
  {
    if |cleans| == 0 {
      return Err(NoNodeOutbound);
    }
    if |cleans| == 1 {
      return Ok([JObj(cleans[0]), DIRECT_OUTBOUND]);
    }
    var tags: seq<Json> := [];
    var outbounds: seq<Json> := [];
    for i := 0 to |cleans|
      invariant outbounds == Nodes(cleans[..i])
      invariant tags == NodeTags(i)
    {
      assert forall k :: 0 <= k < i ==> cleans[..i + 1][k] == cleans[..i][k];
      outbounds := outbounds + [JObj(cleans[i])];
      tags := tags + [JStr(NodeTag(i))];
    }
    assert cleans[..|cleans|] == cleans;
    outbounds := outbounds + [JObj(map[
      "type" := JStr(SELECTOR), "tag" := JStr(PROXY_TAG), "outbounds" := JArr(tags),
      "default" := JStr(NodeTag(0)), "interrupt_exist_connections" := JBool(true)])];
    outbounds := outbounds + [DIRECT_OUTBOUND];
    return Ok(outbounds);
  }

  // ---- The generated outbounds have a safe shape ----------------------------------------------

  /** The tag `startEngine` gives to the k-th of n survivors. */
  function TagFor(n: nat, k: nat): string { if n > 1 then NodeTag(k) else PROXY_TAG }

  /** Sanitised candidates, tagged the way `startEngine` tags them. */
  ghost predicate Ready(cleans: seq<Obj>) {
    forall k :: 0 <= k < |cleans| ==>
      && Field(cleans[k], "tag") == JStr(TagFor(|cleans|, k))
      && Field(cleans[k], "type").JStr? && cleans[k]["type"].s in ALLOWED_TYPES
  }

  function ReadyNodes(cleans: seq<Obj>): (r: seq<Out>)
    requires Ready(cleans)
    ensures |r| == |cleans| && forall k :: 0 <= k < |r| ==> r[k] == Out(cleans[k]["type"].s, TagFor(|cleans|, k))
  {
    seq(|cleans|, k requires 0 <= k < |cleans| => Out(cleans[k]["type"].s, TagFor(|cleans|, k)))
  }

  /** The same outbounds as the gate reads them. */
  function ReadyOuts(cleans: seq<Obj>): seq<Out>
    requires Ready(cleans)
  {
    ReadyNodes(cleans) + (if |cleans| == 1 then [] else [Out(SELECTOR, PROXY_TAG)]) + [Out("direct", DIRECT_TAG)]
  }

  lemma OnlyAppend(outs: seq<Out>, o: Out, role: Role)
    ensures Only(outs + [o], role) == Only(outs, role) + if RoleOf(o) == role then [o] else []
  {
    assert (outs + [o])[..|outs|] == outs;
  }

  lemma {:induction false} OnlyCandidates(outs: seq<Out>)
    requires forall k :: 0 <= k < |outs| ==> outs[k].tag == NodeTag(k)
    ensures Only(outs, Candidate) == outs && Only(outs, Direct) == [] && Only(outs, Proxy) == []
  {
    if outs != [] {
      OnlyCandidates(outs[..|outs| - 1]);
      NodeTagReserved(|outs| - 1);
    }
  }

  lemma OnlyOfPair(outs: seq<Out>, o: Out, direct: Out, role: Role)
    ensures Only(outs + [o] + [direct], role) == Only(outs, role)
      + (if RoleOf(o) == role then [o] else []) + (if RoleOf(direct) == role then [direct] else [])
  {
    OnlyAppend(outs, o, role);
    OnlyAppend(outs + [o], direct, role);
  }

  lemma PairRoles(outs: seq<Out>, typ: string)
    ensures var all := outs + [Out(typ, PROXY_TAG)] + [Out("direct", DIRECT_TAG)];
      && Only(all, Candidate) == Only(outs, Candidate)
      && Only(all, Proxy) == Only(outs, Proxy) + [Out(typ, PROXY_TAG)]
      && Only(all, Direct) == Only(outs, Direct) + [Out("direct", DIRECT_TAG)]
  {
    forall role {
      OnlyOfPair(outs, Out(typ, PROXY_TAG), Out("direct", DIRECT_TAG), role);
    }
  }

  lemma ShapeOf(allowed: set<string>, outs: seq<Out>, typ: string, candidates: seq<Out>)
    requires Only(outs, Direct) == [Out("direct", DIRECT_TAG)] && Only(outs, Proxy) == [Out(typ, PROXY_TAG)]
    requires Only(outs, Candidate) == candidates
    requires if candidates == [] then typ in allowed else typ == SELECTOR
    requires forall k :: 0 <= k < |candidates| ==> candidates[k].tag == NodeTag(k) && candidates[k].typ in allowed
    ensures Shape(allowed, outs)
  {
  }

  lemma OneIsSafe(cleans: seq<Obj>)
    requires |cleans| == 1 && Ready(cleans)
    ensures SafeShape(ReadyOuts(cleans))
  {
    var typ := cleans[0]["type"].s;
    assert ReadyOuts(cleans) == [] + [Out(typ, PROXY_TAG)] + [Out("direct", DIRECT_TAG)];
    PairRoles([], typ);
    ShapeOf(ALLOWED_TYPES, ReadyOuts(cleans), typ, []);
  }

  lemma ManyOuts(cleans: seq<Obj>)
    requires |cleans| > 1 && Ready(cleans)
    ensures ReadyOuts(cleans) == ReadyNodes(cleans) + [Out(SELECTOR, PROXY_TAG)] + [Out("direct", DIRECT_TAG)]
    ensures forall k :: 0 <= k < |cleans| ==>
      ReadyNodes(cleans)[k].tag == NodeTag(k) && ReadyNodes(cleans)[k].typ in ALLOWED_TYPES
  {
  }

  lemma ManyAreSafe(cleans: seq<Obj>)
    requires |cleans| > 1 && Ready(cleans)
    ensures SafeShape(ReadyOuts(cleans))
  {
    var nodes := ReadyNodes(cleans);
    ManyOuts(cleans);
    OnlyCandidates(nodes);
    PairRoles(nodes, SELECTOR);
    ShapeOf(ALLOWED_TYPES, ReadyOuts(cleans), SELECTOR, nodes);
  }

  lemma ReadyIsSafe(cleans: seq<Obj>)
    requires |cleans| > 0 && Ready(cleans)
    ensures SafeShape(ReadyOuts(cleans))
  {
    if |cleans| == 1 {
      OneIsSafe(cleans);
    } else {
      ManyAreSafe(cleans);
    }
  }

  lemma ReadyDecodes(cleans: seq<Obj>)
    requires |cleans| > 0 && Ready(cleans)
    ensures DecodeAll(Outbounds(cleans), DecodeOut) == Some(ReadyOuts(cleans))
  {
    var outs := Outbounds(cleans);
    forall i | 0 <= i < |outs| ensures DecodeOut(outs[i]) == Some(ReadyOuts(cleans)[i]) {
    }
    var decoded := DecodeAll(outs, DecodeOut);
    assert decoded.value == ReadyOuts(cleans);
  }

  // ---- The two builders ------------------------------------------------------------------------

  datatype RouteBinding = RouteBinding(iface: string, autoDetect: bool)

  const DNS_BLOCK := JObj(map[
    "servers" := JArr([
      JObj(map[
        "type" := JStr("https"), "tag" := JStr("dns-proxy"), "server" := JStr("1.1.1.1"), "detour" := JStr("proxy")]),
      JObj(map["type" := JStr("local"), "tag" := JStr("dns-local")])]),
    "final" := JStr("dns-proxy"),
    "strategy" := JStr("prefer_ipv4")])

  function LogBlock(level: string): Json {
    JObj(map["level" := JStr(level), "timestamp" := JBool(true)])
  }

  function MixedInbound(port: int): Json {
    JObj(map[
      "type" := JStr("mixed"), "tag" := JStr("socks-in"), "listen" := JStr("127.0.0.1"),
      "listen_port" := JNum(port as real)])
  }

  function TunInbound(strictRoute: bool): Json {
    JObj(map[
      "type" := JStr("tun"), "tag" := JStr("tun-in"), "interface_name" := JStr("weronity0"),
      "address" := JArr([JStr("172.19.0.1/30"), JStr("fdfe:dcba:9876::1/126")]), "mtu" := JNum(1500.0),
      "auto_route" := JBool(true), "strict_route" := JBool(strictRoute), "stack" := JStr("gvisor")])
  }

  function ProxyRoute(bind: RouteBinding): Json {
    var route := map[
      "rules" := JArr([]), "final" := JStr(PROXY_TAG),
      "auto_detect_interface" := JBool(bind.iface == "" && bind.autoDetect),
      "default_domain_resolver" := JStr("dns-local")];
    JObj(if bind.iface != "" then route["default_interface" := JStr(bind.iface)] else route)
  }

  const TUN_ROUTE := JObj(map[
    "rules" := JArr([
      JObj(map["action" := JStr("sniff")]),
      JObj(map["protocol" := JStr("dns"), "action" := JStr("hijack-dns")])]),
    "final" := JStr(PROXY_TAG), "auto_detect_interface" := JBool(true),
    "default_domain_resolver" := JStr("dns-local")])

  function Assembled(log: Json, inb: Json, outs: seq<Json>, route: Json): Obj {
    map["log" := log, "dns" := DNS_BLOCK, "inbounds" := JArr([inb]), "outbounds" := JArr(outs), "route" := route]
  }

  lemma AssembledFields(log: Json, inb: Json, outs: seq<Json>, route: Json)
    ensures var cfg := Assembled(log, inb, outs, route);
      && Field(cfg, "inbounds") == JArr([inb]) && Field(cfg, "outbounds") == JArr(outs)
      && Field(cfg, "experimental") == JNull
  {
  }

  lemma DecodeOne(j: Json)
    requires DecodeInbound(j).Some?
    ensures DecodeAll([j], DecodeInbound) == Some([DecodeInbound(j).value])
  {
    assert DecodeAll([j], DecodeInbound).value == [DecodeInbound(j).value];
  }

  lemma AssembledIsSafe(log: Json, inb: Json, cleans: seq<Obj>, route: Json, mode: Mode, v6: V6Table)
    requires |cleans| > 0 && Ready(cleans)
    requires DecodeInbound(inb).Some? && SafeInbound(DecodeInbound(inb).value, mode, v6)
    ensures SafeConfig(Assembled(log, inb, Outbounds(cleans), route), mode, v6)
  {
    AssembledFields(log, inb, Outbounds(cleans), route);
    DecodeOne(inb);
    ReadyDecodes(cleans);
    ReadyIsSafe(cleans);
  }

  lemma MixedInboundDecodes(port: int)
    ensures DecodeInbound(MixedInbound(port)) == Some(Inbound("mixed", Some("127.0.0.1"), false))
  {
  }

  lemma LoopbackIsSafe(inb: Inbound, v6: V6Table)
    requires inb.typ != "tun" && inb.listen.Some? && Classify(inb.listen.value, v6) == Loopback
    ensures SafeInbound(inb, ProxyMode, v6)
  {
  }

  lemma MixedInboundSafe(port: int, v6: V6Table)
    ensures DecodeInbound(MixedInbound(port)).Some?
    ensures SafeInbound(DecodeInbound(MixedInbound(port)).value, ProxyMode, v6)
  {
    MixedInboundDecodes(port);
    LocalhostIsLoopback(v6);
    LoopbackIsSafe(DecodeInbound(MixedInbound(port)).value, v6);
  }

  lemma TunInboundSafe(strictRoute: bool, v6: V6Table)
    ensures DecodeInbound(TunInbound(strictRoute)) == Some(Inbound("tun", None, true))
  {
  }

  function ProxyConfig(cleans: seq<Obj>, port: int, level: string, bind: RouteBinding): Obj {
    Assembled(LogBlock(level), MixedInbound(port), Outbounds(cleans), ProxyRoute(bind))
  }

  function TunConfig(cleans: seq<Obj>, level: string, strictRoute: bool): Obj {
    Assembled(LogBlock(level), TunInbound(strictRoute), Outbounds(cleans), TUN_ROUTE)
  }

  /** What both builders generate from sanitised, tagged candidates passes the gate. */
  lemma GeneratedIsSafe(cleans: seq<Obj>, port: int, level: string, bind: RouteBinding, strictRoute: bool, v6: V6Table)
    requires |cleans| > 0 && Ready(cleans)
    ensures SafeConfig(ProxyConfig(cleans, port, level, bind), ProxyMode, v6)
    ensures SafeConfig(TunConfig(cleans, level, strictRoute), VpnMode, v6)
  {
    MixedInboundSafe(port, v6);
    AssembledIsSafe(LogBlock(level), MixedInbound(port), cleans, ProxyRoute(bind), ProxyMode, v6);
    TunInboundSafe(strictRoute, v6);
    AssembledIsSafe(LogBlock(level), TunInbound(strictRoute), cleans, TUN_ROUTE, VpnMode, v6);
  }

  lemma GeneratedOutbounds(cleans: seq<Obj>, port: int, level: string, bind: RouteBinding, strictRoute: bool,
                           v6: V6Table)
    requires |cleans| > 0 && Ready(cleans)
    ensures SafeConfig(ProxyConfig(cleans, port, level, bind), ProxyMode, v6)
    ensures SafeConfig(TunConfig(cleans, level, strictRoute), VpnMode, v6)
    ensures Field(ProxyConfig(cleans, port, level, bind), "outbounds") == JArr(Outbounds(cleans))
    ensures Field(TunConfig(cleans, level, strictRoute), "outbounds") == JArr(Outbounds(cleans))
  {
    GeneratedIsSafe(cleans, port, level, bind, strictRoute, v6);
    AssembledFields(LogBlock(level), MixedInbound(port), Outbounds(cleans), ProxyRoute(bind));
    AssembledFields(LogBlock(level), TunInbound(strictRoute), Outbounds(cleans), TUN_ROUTE);
  }

  method BuildBoundProxyConfig(cleans: seq<Obj>, port: int, level: string, bind: RouteBinding, v6: V6Table)
    returns (r: Result<Obj, BuildError>)
    ensures r.Ok? <==>
      0 < port <= 65535 && |cleans| > 0 && SafeConfig(ProxyConfig(cleans, port, level, bind), ProxyMode, v6)
    ensures r.Ok? ==> r.value == ProxyConfig(cleans, port, level, bind)
    ensures |cleans| > 0 && Ready(cleans) ==> (r.Ok? <==> 0 < port <= 65535)
  {
    if port <= 0 || port > 65535 {
      return Err(BadPort);
    }
    var outs := BuildOutbounds(cleans);
    if outs.Err? {
      return Err(outs.error);
    }
    var cfg := Assembled(LogBlock(level), MixedInbound(port), outs.value, ProxyRoute(bind));
    if Ready(cleans) {
      GeneratedIsSafe(cleans, port, level, bind, false, v6);
    }
    var gate := AssertConfigSafe(cfg, ProxyMode, v6);
    return if gate.Ok? then Ok(cfg) else Err(Unsafe(gate.error));
  }

  method BuildTunConfig(cleans: seq<Obj>, level: string, strictRoute: bool, v6: V6Table)
    returns (r: Result<Obj, BuildError>)
    ensures r.Ok? <==> |cleans| > 0 && SafeConfig(TunConfig(cleans, level, strictRoute), VpnMode, v6)
    ensures r.Ok? ==> r.value == TunConfig(cleans, level, strictRoute)
    ensures |cleans| > 0 && Ready(cleans) ==> r.Ok?
  {
    var outs := BuildOutbounds(cleans);
    if outs.Err? {
      return Err(outs.error);
    }
    var cfg := Assembled(LogBlock(level), TunInbound(strictRoute), outs.value, TUN_ROUTE);
    if Ready(cleans) {
      GeneratedIsSafe(cleans, 1, level, RouteBinding("", false), strictRoute, v6);
    }
    var gate := AssertConfigSafe(cfg, VpnMode, v6);
    return if gate.Ok? then Ok(cfg) else Err(Unsafe(gate.error));
  }

  // ---- How a box reads its outbounds -------------------------------------------------------------

  function FindTag(outs: seq<Json>, tag: string): (r: Option<Json>)
    ensures r.Some? ==> r.value.JObj? && Field(r.value.fields, "tag") == JStr(tag)
  {
    if outs == [] then None
    else if outs[0].JObj? && Field(outs[0].fields, "tag") == JStr(tag) then Some(outs[0])
    else FindTag(outs[1..], tag)
  }

  lemma {:induction false} FindTagAt(outs: seq<Json>, tag: string, k: nat)
    requires k < |outs| && outs[k].JObj? && Field(outs[k].fields, "tag") == JStr(tag)
    requires forall j :: 0 <= j < k ==> outs[j].JObj? && Field(outs[j].fields, "tag") != JStr(tag)
    ensures FindTag(outs, tag) == Some(outs[k])
  {
    if k > 0 {
      FindTagAt(outs[1..], tag, k - 1);
    }
  }

  lemma GroupFinds(cleans: seq<Obj>, p: nat)
    requires |cleans| > 1 && Ready(cleans) && p < |cleans|
    ensures FindTag(Outbounds(cleans), PROXY_TAG) == Some(SelectorOutbound(|cleans|))
    ensures FindTag(Outbounds(cleans), NodeTag(p)) == Some(JObj(cleans[p]))
  {
    var outs := Outbounds(cleans);
    forall j | 0 <= j < |cleans| ensures outs[j] == JObj(cleans[j]) && Field(cleans[j], "tag") == JStr(NodeTag(j)) {
    }
    forall j | 0 <= j < |cleans| ensures NodeTag(j) != PROXY_TAG {
      NodeTagReserved(j);
    }
    forall j | 0 <= j < p ensures NodeTag(j) != NodeTag(p) {
      if NodeTag(j) == NodeTag(p) {
        NodeTagInjective(j, p);
      }
    }
    FindTagAt(outs, PROXY_TAG, |cleans|);
    FindTagAt(outs, NodeTag(p), p);
  }

  /** sing-box accepts a selection of a member of a selector group and nothing else. */
  predicate SelectorHas(o: Json, tag: string) {
    && o.JObj? && Field(o.fields, "type") == JStr(SELECTOR)
    && Field(o.fields, "outbounds").JArr? && JStr(tag) in Field(o.fields, "outbounds").items
  }

  lemma SelectorHasMember(n: nat, p: nat)
    requires p < n
    ensures SelectorHas(SelectorOutbound(n), NodeTag(p))
  {
    assert NodeTags(n)[p] == JStr(NodeTag(p));
  }

  /** What the "proxy" of a box dials at boot: a lone outbound itself; a selector the member its
      `default` names, or else its first. */
  function ProxyDials(outs: seq<Json>): Option<string> {
    var proxy := FindTag(outs, PROXY_TAG);
    if proxy.None? then None
    else if Field(proxy.value.fields, "type") != JStr(SELECTOR) then Some(PROXY_TAG)
    else
      var first, members := Field(proxy.value.fields, "default"), Field(proxy.value.fields, "outbounds");
      if first.JStr? then Some(first.s)
      else if members.JArr? && members.items != [] && members.items[0].JStr? then Some(members.items[0].s)
      else None
  }

  /** The traffic starts with the first candidate: that is what the generated "proxy" dials. */
  lemma FirstIsDialled(cleans: seq<Obj>)
    requires cleans != [] && Ready(cleans)
    ensures ProxyDials(Outbounds(cleans)) == Some(TagFor(|cleans|, 0))
    ensures FindTag(Outbounds(cleans), TagFor(|cleans|, 0)) == Some(JObj(cleans[0]))
  {
    if |cleans| == 1 {
      FindTagAt(Outbounds(cleans), PROXY_TAG, 0);
      NotSelector(cleans[0]);
    } else {
      GroupFinds(cleans, 0);
    }
  }

  lemma NotSelector(o: Obj)
    requires Field(o, "type").JStr? && o["type"].s in ALLOWED_TYPES
    ensures Field(o, "type") != JStr(SELECTOR)
  {
  }

  // ---- What the gate reads, in terms of the JSON ------------------------------------------------------

  /** In vpn mode the inbound is a tun that takes the routes and listens nowhere. */
  lemma VpnInboundMeans(o: Obj, v6: V6Table)
    ensures (DecodeInbound(JObj(o)).Some? && SafeInbound(DecodeInbound(JObj(o)).value, VpnMode, v6)) <==>
      Field(o, "type") == JStr("tun") && Field(o, "listen") == JNull && Field(o, "auto_route") == JBool(true)
  {
  }

  /** In proxy mode it is no tun, and a dotted address it listens on is 127.x. */
  lemma ProxyInboundMeans(o: Obj, a: nat, b: nat, c: nat, d: nat, v6: V6Table)
    requires a < 256 && b < 256 && c < 256 && d < 256 && Field(o, "listen") == JStr(Dotted(a, b, c, d))
    requires Field(o, "type").JStr? && (Field(o, "auto_route").JBool? || Field(o, "auto_route").JNull?)
    ensures DecodeInbound(JObj(o)).Some?
    ensures SafeInbound(DecodeInbound(JObj(o)).value, ProxyMode, v6) <==> o["type"].s != "tun" && a == 127
  {
    DottedClass(a, b, c, d, v6);
  }

  /** And without an address to listen on it is refused. */
  lemma ProxyInboundListens(o: Obj, v6: V6Table)
    requires Field(o, "listen") == JNull
    ensures !(DecodeInbound(JObj(o)).Some? && SafeInbound(DecodeInbound(JObj(o)).value, ProxyMode, v6))
  {
  }

  /** An outbound is read by its type and its tag. */
  lemma OutboundMeans(o: Obj)
    requires Field(o, "type").JStr? && Field(o, "tag").JStr?
    ensures DecodeOut(JObj(o)) == Some(Out(o["type"].s, o["tag"].s))
  {
  }

  /** A safe configuration has one inbound, a list of outbounds and no experimental block. */
  lemma SafeConfigHolds(cfg: Obj, mode: Mode, v6: V6Table)
    requires SafeConfig(cfg, mode, v6)
    ensures Field(cfg, "experimental") == JNull
    ensures Field(cfg, "inbounds").JArr? && |cfg["inbounds"].items| == 1
    ensures Field(cfg, "outbounds").JArr? && |cfg["outbounds"].items| >= 2
  {
    var outs := DecodeArray(Field(cfg, "outbounds"), DecodeOut).value;
    OnlySizes(outs);
  }

  // ---- What is generated is what was asked for ---------------------------------------------------------

  lemma ProxyInboundAsked(port: int)
    ensures var inb := MixedInbound(port);
      && inb.JObj? && Field(inb.fields, "listen") == JStr("127.0.0.1")
      && Field(inb.fields, "listen_port") == JNum(port as real)
  {
  }

  lemma TunInboundAsked(strictRoute: bool)
    ensures var inb := TunInbound(strictRoute);
      && inb.JObj? && Field(inb.fields, "auto_route") == JBool(true)
      && Field(inb.fields, "strict_route") == JBool(strictRoute)
  {
  }

  /** Sockets are bound to the interface named, or to the one detected if that was asked for. */
  lemma RouteAsked(bind: RouteBinding)
    ensures var route := ProxyRoute(bind);
      && route.JObj? && Field(route.fields, "final") == JStr(PROXY_TAG)
      && Field(route.fields, "default_interface") == (if bind.iface == "" then JNull else JStr(bind.iface))
      && Field(route.fields, "auto_detect_interface") == JBool(bind.iface == "" && bind.autoDetect)
  {
  }

  lemma AssembledParts(log: Json, inb: Json, outs: seq<Json>, route: Json)
    ensures var cfg := Assembled(log, inb, outs, route);
      Field(cfg, "log") == log && Field(cfg, "inbounds") == JArr([inb]) && Field(cfg, "route") == route
  {
  }

  ghost predicate LogsAt(cfg: Obj, level: string) {
    Field(cfg, "log").JObj? && Field(cfg["log"].fields, "level") == JStr(level)
  }

  /** The one inbound of the configuration has these two fields. */
  ghost predicate InboundHas(cfg: Obj, a: string, va: Json, b: string, vb: Json) {
    && Field(cfg, "inbounds").JArr? && |cfg["inbounds"].items| == 1 && cfg["inbounds"].items[0].JObj?
    && Field(cfg["inbounds"].items[0].fields, a) == va && Field(cfg["inbounds"].items[0].fields, b) == vb
  }

  /** All unmatched traffic goes to "proxy". */
  ghost predicate RoutesToProxy(cfg: Obj) {
    Field(cfg, "route").JObj? && Field(cfg["route"].fields, "final") == JStr("proxy")
  }

  /** A proxy configuration listens on the port asked for, on this machine only. */
  lemma ProxyConfigAsked(cleans: seq<Obj>, port: int, level: string, bind: RouteBinding)
    ensures var cfg := ProxyConfig(cleans, port, level, bind);
      && LogsAt(cfg, level) && RoutesToProxy(cfg) && cfg["route"] == ProxyRoute(bind)
      && InboundHas(cfg, "listen", JStr("127.0.0.1"), "listen_port", JNum(port as real))
  {
    AssembledParts(LogBlock(level), MixedInbound(port), Outbounds(cleans), ProxyRoute(bind));
    ProxyInboundAsked(port);
    RouteAsked(bind);
  }

  /** A tunnel takes the routes, as strictly as asked for. */
  lemma TunConfigAsked(cleans: seq<Obj>, level: string, strictRoute: bool)
    ensures var cfg := TunConfig(cleans, level, strictRoute);
      && LogsAt(cfg, level) && RoutesToProxy(cfg)
      && InboundHas(cfg, "auto_route", JBool(true), "strict_route", JBool(strictRoute))
  {
    AssembledParts(LogBlock(level), TunInbound(strictRoute), Outbounds(cleans), TUN_ROUTE);
    TunInboundAsked(strictRoute);
  }

  // ---- Every name used is the name of something --------------------------------------------------------

  ghost predicate HasServer(dns: Json, tag: string, typ: string) {
    && dns.JObj? && Field(dns.fields, "servers").JArr?
    && exists o ::
         JObj(o) in dns.fields["servers"].items && Field(o, "tag") == JStr(tag) && Field(o, "type") == JStr(typ)
  }

  /** The resolver outbounds are pinned to is local and goes through no outbound; the one used for the
      traffic goes through "proxy". */
  lemma ResolversExist()
    ensures HasServer(DNS_BLOCK, "dns-local", "local") && HasServer(DNS_BLOCK, "dns-proxy", "https")
    ensures Field(DNS_BLOCK.fields, "final") == JStr("dns-proxy")
    ensures forall o :: JObj(o) in DNS_BLOCK.fields["servers"].items ==>
      Field(o, "detour") == if Field(o, "tag") == JStr("dns-proxy") then JStr(PROXY_TAG) else JNull
  {
    var servers := DNS_BLOCK.fields["servers"].items;
    assert servers[0].fields["tag"] == JStr("dns-proxy") && JObj(servers[0].fields) in servers;
    assert servers[1].fields["tag"] == JStr("dns-local") && JObj(servers[1].fields) in servers;
  }

  /** "proxy" and every member of the group are outbounds of the list. */
  lemma OutboundsExist(cleans: seq<Obj>, k: nat)
    requires k < |cleans| && Ready(cleans)
    ensures FindTag(Outbounds(cleans), PROXY_TAG).Some?
    ensures FindTag(Outbounds(cleans), TagFor(|cleans|, k)) == Some(JObj(cleans[k]))
    ensures |cleans| > 1 ==> SelectorHas(FindTag(Outbounds(cleans), PROXY_TAG).value, TagFor(|cleans|, k))
  {
    if |cleans| == 1 {
      FindTagAt(Outbounds(cleans), PROXY_TAG, 0);
    } else {
      GroupFinds(cleans, k);
      SelectorHasMember(|cleans|, k);
    }
  }
}
