/** The safety gate over the generated `outbounds` array. Follows `assertOutboundsSafe`
    in native/weronity_core/config.go. */
module Gate {
  import opened Wrappers
  import opened Text

  const PROXY_TAG := "proxy"
  const DIRECT_TAG := "direct"
  const SELECTOR := "selector"

  const ALLOWED_TYPES: set<string> :=
    {"vless", "vmess", "trojan", "shadowsocks", "hysteria2", "tuic", "shadowtls", "anytls"}

  function NodeTag(i: nat): string { "node-" + Decimal(i) }

  lemma NodeTagInjective(i: nat, j: nat)
    requires NodeTag(i) == NodeTag(j)
    ensures i == j
  {
    assert Decimal(i) == NodeTag(i)[5..] == NodeTag(j)[5..] == Decimal(j);
    DecimalRoundTrip(i);
    DecimalRoundTrip(j);
  }

  lemma NodeTagReserved(i: nat)
    ensures NodeTag(i) != PROXY_TAG && NodeTag(i) != DIRECT_TAG
  {
    assert NodeTag(i)[0] == 'n';
  }

  /** What the gate reads of one outbound. */
  datatype Out = Out(typ: string, tag: string)

  datatype Role = Direct | Proxy | Candidate

  function RoleOf(o: Out): Role {
    if o.tag == DIRECT_TAG then Direct else if o.tag == PROXY_TAG then Proxy else Candidate
  }

  /** The outbounds playing one role, in order. */
  function Only(outs: seq<Out>, role: Role): (r: seq<Out>)
    ensures forall k :: 0 <= k < |r| ==> RoleOf(r[k]) == role
  {
    if outs == [] then []
    else Only(outs[..|outs| - 1], role) + if RoleOf(outs[|outs| - 1]) == role then [outs[|outs| - 1]] else []
  }

  /** The two shapes the generator produces, entries in any interleaving. */
  ghost predicate Shape(allowed: set<string>, outs: seq<Out>) {
    var directs, proxies, candidates := Only(outs, Direct), Only(outs, Proxy), Only(outs, Candidate);
    && |directs| == 1 && directs[0].typ == "direct"
    && |proxies| == 1
    && (if candidates == [] then proxies[0].typ in allowed
        else
          && proxies[0].typ == SELECTOR
          && forall k :: 0 <= k < |candidates| ==>
               candidates[k].tag == NodeTag(k) && candidates[k].typ in allowed)
  }

  lemma {:induction false} OnlySizes(outs: seq<Out>)
    ensures |outs| == |Only(outs, Direct)| + |Only(outs, Proxy)| + |Only(outs, Candidate)|
  {
    if outs != [] {
      OnlySizes(outs[..|outs| - 1]);
    }
  }

  lemma {:induction false} OnlyPrefix(outs: seq<Out>, i: nat, role: Role)
    requires i <= |outs|
    ensures Only(outs[..i], role) <= Only(outs, role)
    decreases |outs|
  {
    if i < |outs| {
      OnlyPrefix(outs[..|outs| - 1], i, role);
      assert outs[..|outs| - 1][..i] == outs[..i];
    } else {
      assert outs[..i] == outs;
    }
  }

  lemma OnlyNext(outs: seq<Out>, i: nat, role: Role)
    requires i < |outs|
    ensures Only(outs[..i + 1], role) == Only(outs[..i], role) + if RoleOf(outs[i]) == role then [outs[i]] else []
    ensures Only(outs[..i + 1], role) <= Only(outs, role)
  {
    assert outs[..i + 1][..i] == outs[..i];
    OnlyPrefix(outs, i + 1, role);
  }

  /** The loop's variables after the prefix `pre` was let through. A protocol-typed
      `proxy` counts as a node and so shifts the tag expected next. */
  ghost predicate Scanned(allowed: set<string>, pre: seq<Out>, seen: set<string>, nodes: nat, haveProxy: bool,
                          haveDirect: bool)
  {
    Parts(allowed, Only(pre, Direct), Only(pre, Proxy), Only(pre, Candidate), seen, nodes, haveProxy, haveDirect)
  }

  ghost predicate Parts(allowed: set<string>, d: seq<Out>, p: seq<Out>, c: seq<Out>,
                        seen: set<string>, nodes: nat, haveProxy: bool, haveDirect: bool) {
    && |d| == (if haveDirect then 1 else 0) && (haveDirect ==> d[0].typ == "direct" && DIRECT_TAG in seen)
    && |p| == (if haveProxy then 1 else 0)
    && (haveProxy ==> PROXY_TAG in seen && (p[0].typ == SELECTOR || p[0].typ in allowed))
    && nodes == |c| + (if haveProxy && p[0].typ != SELECTOR then 1 else 0)
    && ((haveProxy && p[0].typ != SELECTOR) || forall k :: 0 <= k < |c| ==> c[k].tag == NodeTag(k))
    && (forall k :: 0 <= k < |c| ==> c[k].typ in allowed)
    && SeenTags(c, seen, haveProxy, haveDirect)
  }

  ghost predicate SeenTags(candidates: seq<Out>, seen: set<string>, haveProxy: bool, haveDirect: bool) {
    forall t :: t in seen ==>
      || (t == DIRECT_TAG && haveDirect) || (t == PROXY_TAG && haveProxy)
      || exists k :: 0 <= k < |candidates| && candidates[k].tag == t
  }

  /** The loop body lets `o` through. */
  predicate Passes(allowed: set<string>, o: Out, seen: set<string>, nodes: nat) {
    && o.tag !in seen
    && match RoleOf(o)
       case Direct => o.typ == "direct"
       case Proxy => o.typ == SELECTOR || o.typ in allowed
       case Candidate => o.tag == NodeTag(nodes) && o.typ in allowed
  }

  /** A list of a safe shape is never refused half-way. */
  lemma SafePasses(allowed: set<string>, outs: seq<Out>, i: nat, seen: set<string>, nodes: nat,
                   haveProxy: bool, haveDirect: bool)
    requires SELECTOR !in allowed
    requires i < |outs| && Shape(allowed, outs)
    requires Scanned(allowed, outs[..i], seen, nodes, haveProxy, haveDirect)
    ensures Passes(allowed, outs[i], seen, nodes)
  {
    var o, role := outs[i], RoleOf(outs[i]);
    OnlyNext(outs, i, role);
    var before, all := Only(outs[..i], role), Only(outs, role);
    assert before + [o] <= all;
    assert all[|before|] == o;
    if role == Candidate {
      OnlyPrefix(outs, i, Proxy);
      assert nodes == |before|;
      NodeTagReserved(nodes);
      if o.tag in seen {
        var k :| 0 <= k < |before| && before[k].tag == o.tag;
        NodeTagInjective(k, nodes);
      }
    } else {
      assert |before| == 0;
    }
  }

  lemma RefusedHere(allowed: set<string>, outs: seq<Out>, i: nat, seen: set<string>, nodes: nat,
                    haveProxy: bool, haveDirect: bool)
    requires SELECTOR !in allowed && i < |outs|
    requires Scanned(allowed, outs[..i], seen, nodes, haveProxy, haveDirect)
    requires !Passes(allowed, outs[i], seen, nodes)
    ensures !Shape(allowed, outs)
  {
    if Shape(allowed, outs) {
      SafePasses(allowed, outs, i, seen, nodes, haveProxy, haveDirect);
    }
  }

  function NodesAfter(o: Out, nodes: nat): nat {
    if RoleOf(o) == Candidate || (RoleOf(o) == Proxy && o.typ != SELECTOR) then nodes + 1 else nodes
  }

  lemma ScannedNext(allowed: set<string>, outs: seq<Out>, i: nat, seen: set<string>, nodes: nat,
                    haveProxy: bool, haveDirect: bool)
    requires i < |outs| && Scanned(allowed, outs[..i], seen, nodes, haveProxy, haveDirect)
    requires Passes(allowed, outs[i], seen, nodes)
    ensures Scanned(allowed, outs[..i + 1], seen + {outs[i].tag}, NodesAfter(outs[i], nodes),
                    haveProxy || RoleOf(outs[i]) == Proxy, haveDirect || RoleOf(outs[i]) == Direct)
  {
    OnlyNext(outs, i, Direct);
    OnlyNext(outs, i, Proxy);
    OnlyNext(outs, i, Candidate);
    PartsNext(allowed, Only(outs[..i], Direct), Only(outs[..i], Proxy), Only(outs[..i], Candidate),
              outs[i], seen, nodes, haveProxy, haveDirect);
  }

  lemma PartsNext(allowed: set<string>, d: seq<Out>, p: seq<Out>, c: seq<Out>, o: Out,
                  seen: set<string>, nodes: nat, haveProxy: bool, haveDirect: bool)
    requires Parts(allowed, d, p, c, seen, nodes, haveProxy, haveDirect) && Passes(allowed, o, seen, nodes)
    ensures Parts(allowed,
                  d + (if RoleOf(o) == Direct then [o] else []),
                  p + (if RoleOf(o) == Proxy then [o] else []),
                  c + (if RoleOf(o) == Candidate then [o] else []),
                  seen + {o.tag}, NodesAfter(o, nodes),
                  haveProxy || RoleOf(o) == Proxy, haveDirect || RoleOf(o) == Direct)
  {
    SeenTagsNext(c, o, seen, haveProxy, haveDirect);
  }

  lemma SeenTagsNext(c: seq<Out>, o: Out, seen: set<string>, haveProxy: bool, haveDirect: bool)
    requires SeenTags(c, seen, haveProxy, haveDirect)
    ensures SeenTags(c + if RoleOf(o) == Candidate then [o] else [], seen + {o.tag},
                     haveProxy || RoleOf(o) == Proxy, haveDirect || RoleOf(o) == Direct)
  {
    var c' := c + if RoleOf(o) == Candidate then [o] else [];
    forall k | 0 <= k < |c| ensures c'[k].tag == c[k].tag {
    }
    if RoleOf(o) == Candidate {
      assert c'[|c|].tag == o.tag;
    }
  }

  /** The checks after the loop. */
  predicate Complete(count: nat, nodes: nat, haveProxy: bool, haveDirect: bool) {
    haveProxy && haveDirect && nodes != 0 && (count == nodes + 2 || count == 2)
  }

  lemma ScannedAll(allowed: set<string>, outs: seq<Out>, seen: set<string>, nodes: nat,
                   haveProxy: bool, haveDirect: bool)
    requires SELECTOR !in allowed
    requires Scanned(allowed, outs, seen, nodes, haveProxy, haveDirect)
    ensures Shape(allowed, outs) <==> Complete(|outs|, nodes, haveProxy, haveDirect)
  {
    OnlySizes(outs);
  }

  datatype GateError = TooFew | DuplicateTag | WrongType | UnexpectedTag | MissingPart | WrongCount
    | BadJson | HasExperimental | BadInbound

  /** One round of the loop: the new counter, or the refusal. */
  method CheckOne(allowed: set<string>, o: Out, seen: set<string>, nodes: nat) returns (r: Result<nat, GateError>)
    ensures r.Ok? <==> Passes(allowed, o, seen, nodes)
    ensures r.Ok? ==> r.value == NodesAfter(o, nodes)
  {
    if o.tag in seen {
      return Err(DuplicateTag);
    }
    if o.tag == DIRECT_TAG {
      if o.typ != "direct" {
        return Err(WrongType);
      }
      return Ok(nodes);
    } else if o.tag == PROXY_TAG {
      if o.typ == SELECTOR {
        return Ok(nodes);
      }
      if o.typ !in allowed {
        return Err(WrongType);
      }
      return Ok(nodes + 1);
    } else if o.tag == NodeTag(nodes) {
      if o.typ !in allowed {
        return Err(WrongType);
      }
      return Ok(nodes + 1);
    }
    return Err(UnexpectedTag);
  }

  method ScanOutbounds(allowed: set<string>, outs: seq<Out>) returns (r: Result<(), GateError>)
    requires SELECTOR !in allowed
    ensures r.Ok? <==> Shape(allowed, outs)
  {
    if |outs| < 2 {
      OnlySizes(outs);
      return Err(TooFew);
    }
    var seen: set<string> := {};
    var nodes: nat := 0;
    var haveProxy, haveDirect := false, false;
    for i := 0 to |outs|
      invariant Scanned(allowed, outs[..i], seen, nodes, haveProxy, haveDirect)
    {
      var o := outs[i];
      var checked := CheckOne(allowed, o, seen, nodes);
      if checked.Err? {
        RefusedHere(allowed, outs, i, seen, nodes, haveProxy, haveDirect);
        return Err(checked.error);
      }
      ScannedNext(allowed, outs, i, seen, nodes, haveProxy, haveDirect);
      seen, nodes := seen + {o.tag}, checked.value;
      haveProxy, haveDirect := haveProxy || RoleOf(o) == Proxy, haveDirect || RoleOf(o) == Direct;
    }
    assert outs[..|outs|] == outs;
    ScannedAll(allowed, outs, seen, nodes, haveProxy, haveDirect);
    r := CheckTotals(|outs|, nodes, haveProxy, haveDirect);
  }

  method CheckTotals(count: nat, nodes: nat, haveProxy: bool, haveDirect: bool) returns (r: Result<(), GateError>)
    ensures r.Ok? <==> Complete(count, nodes, haveProxy, haveDirect)
  {
    if !haveProxy || !haveDirect || nodes == 0 {
      return Err(MissingPart);
    }
    if count != nodes + 2 && count != 2 {
      return Err(WrongCount);
    }
    return Ok(());
  }

  ghost predicate SafeShape(outs: seq<Out>) { Shape(ALLOWED_TYPES, outs) }

  method AssertOutboundsSafe(outs: seq<Out>) returns (r: Result<(), GateError>)
    ensures r.Ok? <==> SafeShape(outs)
  {
    r := ScanOutbounds(ALLOWED_TYPES, outs);
  }

  // ---- What a safe list holds, entry by entry --------------------------------------------------------

  /** Two entries of one role keep their order among those of the role. */
  lemma {:induction false} OnlyKeepsOrder(outs: seq<Out>, i: nat, j: nat) returns (p: nat, q: nat)
    requires i <= j < |outs| && RoleOf(outs[i]) == RoleOf(outs[j])
    ensures var r := Only(outs, RoleOf(outs[i]));
      p < |r| && q < |r| && r[p] == outs[i] && r[q] == outs[j] && (i < j ==> p < q)
  {
    var n := |outs| - 1;
    var role := RoleOf(outs[i]);
    if j < n {
      p, q := OnlyKeepsOrder(outs[..n], i, j);
    } else {
      q := |Only(outs[..n], role)|;
      p := q;
      if i < n {
        p, q := OnlyKeepsOrder(outs[..n], i, i);
        q := |Only(outs[..n], role)|;
      }
    }
  }

  /** The eight protocols a candidate may speak. */
  predicate ProtocolType(typ: string) {
    || typ == "vless" || typ == "vmess" || typ == "trojan" || typ == "shadowsocks" || typ == "hysteria2"
    || typ == "tuic" || typ == "shadowtls" || typ == "anytls"
  }

  /** Of a safe list, "direct" is direct, "proxy" a selector or one of the protocols, and every other entry
      one of the protocols under a numbered name. */
  lemma SafeMeans(outs: seq<Out>, i: nat)
    requires SafeShape(outs) && i < |outs|
    ensures outs[i].tag == "direct" ==> outs[i].typ == "direct"
    ensures outs[i].tag == "proxy" ==> outs[i].typ == "selector" || ProtocolType(outs[i].typ)
    ensures outs[i].tag != "direct" && outs[i].tag != "proxy" ==>
      ProtocolType(outs[i].typ) && exists k: nat :: outs[i].tag == NodeTag(k)
  {
    var p, _ := OnlyKeepsOrder(outs, i, i);
    var role := RoleOf(outs[i]);
    assert Only(outs, role)[p] == outs[i];
    assert role == Candidate ==> outs[i].tag == NodeTag(p);
  }

  /** And no two entries share a tag. */
  lemma SafeTagsDistinct(outs: seq<Out>, i: nat, j: nat)
    requires SafeShape(outs) && i < j < |outs|
    ensures outs[i].tag != outs[j].tag
  {
    if outs[i].tag == outs[j].tag {
      var p, q := OnlyKeepsOrder(outs, i, j);
      var role := RoleOf(outs[i]);
      if role == Candidate {
        NodeTagInjective(p, q);
      }
    }
  }

  lemma {:induction false} OnlyMember(outs: seq<Out>, role: Role, k: nat)
    requires k < |Only(outs, role)|
    ensures exists i :: 0 <= i < |outs| && outs[i] == Only(outs, role)[k]
  {
    var n := |outs| - 1;
    if k < |Only(outs[..n], role)| {
      OnlyMember(outs[..n], role, k);
      var i :| 0 <= i < n && outs[..n][i] == Only(outs[..n], role)[k];
      assert outs[i] == Only(outs, role)[k];
    } else {
      assert outs[n] == Only(outs, role)[k];
    }
  }

  /** Both "direct" and "proxy" are there. */
  lemma SafeIsWhole(outs: seq<Out>)
    requires SafeShape(outs)
    ensures exists i :: 0 <= i < |outs| && outs[i].tag == "direct"
    ensures exists i :: 0 <= i < |outs| && outs[i].tag == "proxy"
  {
    OnlyMember(outs, Direct, 0);
    OnlyMember(outs, Proxy, 0);
  }

  lemma {:induction false} OnlyConcat(a: seq<Out>, b: seq<Out>, role: Role)
    ensures Only(a + b, role) == Only(a, role) + Only(b, role)
  {
    if b == [] {
      assert a + b == a;
    } else {
      OnlyConcat(a, b[..|b| - 1], role);
      assert (a + b)[..|a + b| - 1] == a + b[..|b| - 1];
    }
  }

  lemma OnlySwap(a: seq<Out>, x: Out, y: Out, b: seq<Out>, role: Role)
    requires RoleOf(x) != RoleOf(y)
    ensures Only(a + [x, y] + b, role) == Only(a + [y, x] + b, role)
  {
    OnlyConcat(a + [x, y], b, role);
    OnlyConcat(a, [x, y], role);
    OnlyConcat(a + [y, x], b, role);
    OnlyConcat(a, [y, x], role);
    OnlyPair(x, y, role);
    OnlyPair(y, x, role);
  }

  lemma OnlyPair(x: Out, y: Out, role: Role)
    ensures Only([x, y], role) == (if RoleOf(x) == role then [x] else []) + (if RoleOf(y) == role then [y] else [])
  {
    OnlyConcat([x], [y], role);
    assert [x] + [y] == [x, y];
    assert [x][..0] == [] && [y][..0] == [];
  }

  lemma SameParts(allowed: set<string>, s: seq<Out>, t: seq<Out>)
    requires Only(s, Direct) == Only(t, Direct) && Only(s, Proxy) == Only(t, Proxy)
    requires Only(s, Candidate) == Only(t, Candidate)
    ensures Shape(allowed, s) <==> Shape(allowed, t)
  {
  }

  /** The gate does not see how the three roles interleave: neighbours of different roles may
      change places. The two orders its comment lists are not the only ones it accepts. */
  lemma RolesCommute(a: seq<Out>, x: Out, y: Out, b: seq<Out>)
    requires RoleOf(x) != RoleOf(y)
    ensures SafeShape(a + [x, y] + b) <==> SafeShape(a + [y, x] + b)
  {
    OnlySwap(a, x, y, b, Direct);
    OnlySwap(a, x, y, b, Proxy);
    OnlySwap(a, x, y, b, Candidate);
    SameParts(ALLOWED_TYPES, a + [x, y] + b, a + [y, x] + b);
  }
}
