/** The backup nodes preloaded next to the chosen one: app/lib/state/candidates.dart. */
module Backups {
  import opened Wrappers
  import opened StableSort
  import Bridge

  /** What the ranking reads of a pool node. */
  datatype PoolNode = PoolNode(
    node: Bridge.Node, country: string, recommended: bool, alive: bool, hopSecure: bool, pingMs: Option<int>)

  const UNMEASURED := 0x10_0000

  function Tier(primary: PoolNode, n: PoolNode): nat {
    if n.country == primary.country then 0 else if n.recommended then 1 else 2
  }

  function Insecure(n: PoolNode): nat {
    if n.hopSecure then 0 else 1
  }

  function Ping(n: PoolNode): int {
    if n.pingMs.None? || n.pingMs.value <= 0 then UNMEASURED else n.pingMs.value
  }

  /** Tier first, then hop security, then ping. */
  predicate Precedes(primary: PoolNode, a: PoolNode, b: PoolNode) {
    Tier(primary, a) < Tier(primary, b)
    || (Tier(primary, a) == Tier(primary, b)
        && (Insecure(a) < Insecure(b) || (Insecure(a) == Insecure(b) && Ping(a) < Ping(b))))
  }

  function AtMost(primary: PoolNode): (PoolNode, PoolNode) -> bool {
    (a, b) => !Precedes(primary, b, a)
  }

  // ---- The order, in the nodes' own terms ----------------------------------------------------------

  predicate Abroad(primary: PoolNode, n: PoolNode) { n.country != primary.country }

  /** Neither country nor recommendation tells them apart. */
  predicate SameTier(primary: PoolNode, a: PoolNode, b: PoolNode) {
    Abroad(primary, a) == Abroad(primary, b) && (Abroad(primary, a) ==> a.recommended == b.recommended)
  }

  predicate Measured(n: PoolNode) { n.pingMs.Some? && n.pingMs.value > 0 }

  /** The order is strict. The primary's country comes first, then the recommended nodes of others; within
      those, a secure hop before an insecure one. */
  lemma TiersInOrder(primary: PoolNode, a: PoolNode, b: PoolNode)
    ensures Precedes(primary, a, b) ==> !Precedes(primary, b, a)
    ensures !Abroad(primary, a) && Abroad(primary, b) ==> Precedes(primary, a, b)
    ensures Abroad(primary, a) && Abroad(primary, b) && a.recommended && !b.recommended ==> Precedes(primary, a, b)
    ensures SameTier(primary, a, b) && a.hopSecure && !b.hopSecure ==> Precedes(primary, a, b)
  {
  }

  /** After those the lower ping. A node that was not measured comes last exactly as far as the others
      answered within 1048576 ms. */
  lemma PingsInOrder(primary: PoolNode, a: PoolNode, b: PoolNode)
    requires SameTier(primary, a, b) && a.hopSecure == b.hopSecure
    ensures Measured(a) && Measured(b) ==> (Precedes(primary, a, b) <==> a.pingMs.value < b.pingMs.value)
    ensures Measured(a) && !Measured(b) ==> (Precedes(primary, a, b) <==> a.pingMs.value < 1048576)
    ensures !Measured(a) && Measured(b) ==> (Precedes(primary, a, b) <==> b.pingMs.value > 1048576)
    ensures !Measured(a) && !Measured(b) ==> !Precedes(primary, a, b)
  {
  }

  lemma AtMostIsPreorder(primary: PoolNode)
    ensures TotalPreorder(AtMost(primary))
  {
  }

  predicate IsEligible(primary: PoolNode, n: PoolNode) {
    n.node.id != primary.node.id && n.alive
  }

  function Eligible(primary: PoolNode, pool: seq<PoolNode>): seq<PoolNode> {
    if pool == [] then []
    else (if IsEligible(primary, pool[0]) then [pool[0]] else []) + Eligible(primary, pool[1..])
  }

  /** An alive node other than the primary is eligible as often as the pool lists it, and no other is. */
  lemma {:induction false} EligibleAre(primary: PoolNode, pool: seq<PoolNode>, n: PoolNode)
    ensures multiset(Eligible(primary, pool))[n] ==
      if n.node.id != primary.node.id && n.alive then multiset(pool)[n] else 0
  {
    if pool != [] {
      EligibleAre(primary, pool[1..], n);
      assert pool == [pool[0]] + pool[1..];
    }
  }

  /** The library's sort promises order, not stability. */
  method SortUnstable(primary: PoolNode, s: seq<PoolNode>) returns (r: seq<PoolNode>)
    ensures Sorted(AtMost(primary), r) && multiset(r) == multiset(s) && |r| == |s|
  {
    AtMostIsPreorder(primary);
    SortSorted(AtMost(primary), s);
    return Sort(AtMost(primary), s);
  }

  /** `kept` are the best `limit` of the eligible nodes, best first, and `left` the others: no
      node left out strictly precedes a kept one. */
  ghost predicate Best(primary: PoolNode, eligible: seq<PoolNode>, limit: int, kept: seq<PoolNode>, left: seq<PoolNode>)
  {
    && multiset(kept + left) == multiset(eligible) && Sorted(AtMost(primary), kept)
    && |kept| == (if |eligible| <= limit then |eligible| else limit)
    && (forall k, out :: k in kept && out in left ==> !Precedes(primary, out, k))
  }

  lemma PrefixIsBest(primary: PoolNode, eligible: seq<PoolNode>, ranked: seq<PoolNode>, limit: nat)
    requires Sorted(AtMost(primary), ranked) && multiset(ranked) == multiset(eligible) && |ranked| == |eligible|
    ensures var n := if |ranked| <= limit then |ranked| else limit;
      Best(primary, eligible, limit, ranked[..n], ranked[n..])
  {
    var n := if |ranked| <= limit then |ranked| else limit;
    assert ranked[..n] + ranked[n..] == ranked;
    forall k, out | k in ranked[..n] && out in ranked[n..] ensures !Precedes(primary, out, k) {
      var i :| 0 <= i < |ranked[n..]| && ranked[n..][i] == out;
      var j :| 0 <= j < n && ranked[..n][j] == k;
      assert AtMost(primary)(ranked[j], ranked[n + i]);
    }
  }

  method CollectEligible(primary: PoolNode, pool: seq<PoolNode>) returns (r: seq<PoolNode>)
    ensures r == Eligible(primary, pool)
  {
    r := [];
    for i := 0 to |pool|
      invariant r + Eligible(primary, pool[i..]) == Eligible(primary, pool)
    {
      if IsEligible(primary, pool[i]) {
        r := r + [pool[i]];
      }
      assert pool[i..][1..] == pool[i + 1..];
    }
  }

  /** Err is the `RangeError` of a negative limit. `left` is only for the contract. */
  method BackupCandidates(primary: PoolNode, pool: seq<PoolNode>, limit: int)
    returns (r: Result<seq<PoolNode>, ()>, ghost left: seq<PoolNode>)
    ensures r.Ok? <==> limit >= 0
    ensures r.Ok? ==> Best(primary, Eligible(primary, pool), limit, r.value, left)
  {
    var eligible := CollectEligible(primary, pool);
    var ranked := SortUnstable(primary, eligible);
    left := [];
    if |ranked| <= limit {
      PrefixIsBest(primary, eligible, ranked, limit);
      assert ranked[..|ranked|] == ranked && ranked[|ranked|..] == [];
      return Ok(ranked), [];
    }
    if limit < 0 {
      return Err(()), [];
    }
    PrefixIsBest(primary, eligible, ranked, limit);
    return Ok(ranked[..limit]), ranked[limit..];
  }

  /** The bridge's own cap and deduplication (singbox_bridge.dart:230-238) drop none of the
      backups exactly if they fit the limit the app passes (providers.dart:299) and no id comes
      twice. */
  lemma {:induction false} CandidateSetKeepsAll(primary: Bridge.Node, backups: seq<Bridge.Node>)
    ensures Bridge.CandidateSet(primary, backups) == [primary] + backups
      <==> |backups| <= Bridge.MAX_CANDIDATES - 1 && Bridge.DistinctIds([primary] + backups)
  {
    Bridge.CandidateSetGood(primary, backups);
    if |backups| <= Bridge.MAX_CANDIDATES - 1 && Bridge.DistinctIds([primary] + backups) {
      if backups == [] {
        assert [primary] + backups == [primary];
      } else {
        var n := |backups| - 1;
        var before := [primary] + backups[..n];
        assert [primary] + backups == before + [backups[n]];
        assert forall i :: 0 <= i < |before| ==> before[i] == ([primary] + backups)[i];
        forall i | 0 <= i < |before| ensures before[i].id != backups[n].id {
          assert ([primary] + backups)[i].id != ([primary] + backups)[n + 1].id;
        }
        CandidateSetKeepsAll(primary, backups[..n]);
        Bridge.InIds(before, backups[n].id);
      }
    }
  }
}
