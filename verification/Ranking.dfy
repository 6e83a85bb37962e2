/** The recommended nodes of each country: `_mark_recommended` in
    collector/src/weronity_collector/pipeline/build.py. */
module Ranking {
  import opened Wrappers
  import opened StableSort

  const UNKNOWN := "??"
  const NO_PING := 9999

  /** What the ranking reads of a node: its country, its stability in thousandths, its ping. */
  datatype Card = Card(country: string, stability: int, ping: int)

  function CountryOf(country: Option<string>): string {
    if country.None? || country.value == "" then UNKNOWN else country.value
  }

  /** The key (-stability, ping or 9999), compared. */
  predicate Better(a: Card, b: Card) {
    a.stability > b.stability || (a.stability == b.stability && a.ping < b.ping)
  }

  // ---- Groups and their order, as positions in the list -----------------------------------------

  function GroupOf(cards: seq<Card>, country: string): seq<nat> {
    if cards == [] then []
    else
      var n := |cards| - 1;
      GroupOf(cards[..n], country) + (if cards[n].country == country then [n] else [])
  }

  function CardAt(cards: seq<Card>, i: nat): Card {
    if i < |cards| then cards[i] else Card("", 0, 0)
  }

  function AtMost(cards: seq<Card>): (nat, nat) -> bool {
    (i: nat, j: nat) => !Better(CardAt(cards, j), CardAt(cards, i))
  }

  function Ranked(cards: seq<Card>, country: string): seq<nat> {
    Sort(AtMost(cards), GroupOf(cards, country))
  }

  /** `s[:k]` for any k: a negative k counts from the end. */
  function SliceEnd(length: nat, k: int): (n: nat)
    ensures n <= length
  {
    if k >= 0 then (if k < length then k else length) else if length + k > 0 then length + k else 0
  }

  function Marked(cards: seq<Card>, country: string, k: int): seq<nat> {
    var r := Ranked(cards, country);
    r[..SliceEnd(|r|, k)]
  }

  lemma AtMostIsPreorder(cards: seq<Card>)
    ensures TotalPreorder(AtMost(cards))
  {
  }

  lemma {:induction false} GroupMembers(cards: seq<Card>, country: string, i: nat)
    ensures i in GroupOf(cards, country) <==> i < |cards| && cards[i].country == country
  {
    if cards != [] {
      GroupMembers(cards[..|cards| - 1], country, i);
    }
  }

  lemma {:induction false} GroupAscends(cards: seq<Card>, country: string, i: nat, j: nat)
    requires i < j < |GroupOf(cards, country)|
    ensures GroupOf(cards, country)[i] < GroupOf(cards, country)[j]
  {
    var before := cards[..|cards| - 1];
    if j < |GroupOf(before, country)| {
      GroupAscends(before, country, i, j);
    } else {
      GroupMembers(before, country, GroupOf(before, country)[i]);
    }
  }

  // ---- What being marked means ------------------------------------------------------------------------

  /** `i` comes before `j`: it is better, or as good and earlier in the list. */
  predicate Before(cards: seq<Card>, i: nat, j: nat) {
    Better(CardAt(cards, i), CardAt(cards, j)) || (!Better(CardAt(cards, j), CardAt(cards, i)) && i < j)
  }

  ghost predicate InTurn(cards: seq<Card>, s: seq<nat>) {
    forall p, q :: 0 <= p < q < |s| ==> Before(cards, s[p], s[q])
  }

  lemma BeforeChains(cards: seq<Card>, i: nat, j: nat, k: nat)
    requires Before(cards, i, j) && Before(cards, j, k)
    ensures Before(cards, i, k)
  {
  }

  lemma InTurnCons(cards: seq<Card>, y: nat, t: seq<nat>)
    requires InTurn(cards, t) && forall q :: 0 <= q < |t| ==> Before(cards, y, t[q])
    ensures InTurn(cards, [y] + t)
  {
  }

  lemma InsertMembers(cards: seq<Card>, x: nat, s: seq<nat>, y: nat)
    requires y in Insert(AtMost(cards), x, s)
    ensures y == x || y in s
  {
    assert y in multiset(Insert(AtMost(cards), x, s));
    assert y != x ==> y in multiset(s);
  }

  lemma {:induction false} InsertInTurn(cards: seq<Card>, x: nat, s: seq<nat>)
    requires InTurn(cards, s) && forall p :: 0 <= p < |s| ==> x < s[p]
    ensures InTurn(cards, Insert(AtMost(cards), x, s))
  {
    if s == [] {
    } else if AtMost(cards)(x, s[0]) {
      forall q | 0 <= q < |s| ensures Before(cards, x, s[q]) {
        if q > 0 {
          BeforeChains(cards, x, s[0], s[q]);
        }
      }
      InTurnCons(cards, x, s);
    } else {
      InsertInTurn(cards, x, s[1..]);
      var t := Insert(AtMost(cards), x, s[1..]);
      forall q | 0 <= q < |t| ensures Before(cards, s[0], t[q]) {
        InsertMembers(cards, x, s[1..], t[q]);
        if t[q] != x {
          var p :| 0 <= p < |s[1..]| && s[1..][p] == t[q];
          assert s[p + 1] == t[q];
        }
      }
      InTurnCons(cards, s[0], t);
    }
  }

  lemma {:induction false} SortInTurn(cards: seq<Card>, s: seq<nat>)
    requires forall i, j :: 0 <= i < j < |s| ==> s[i] < s[j]
    ensures InTurn(cards, Sort(AtMost(cards), s))
  {
    if s != [] {
      SortInTurn(cards, s[1..]);
      var t := Sort(AtMost(cards), s[1..]);
      forall q | 0 <= q < |t| ensures s[0] < t[q] {
        assert t[q] in multiset(t) && t[q] in multiset(s[1..]) && t[q] in s[1..];
      }
      InsertInTurn(cards, s[0], t);
    }
  }

  lemma RankedMembers(cards: seq<Card>, country: string, i: nat)
    ensures i in Ranked(cards, country) <==> i < |cards| && cards[i].country == country
  {
    GroupMembers(cards, country, i);
    assert i in multiset(Ranked(cards, country)) <==> i in multiset(GroupOf(cards, country));
    assert i in multiset(GroupOf(cards, country)) <==> i in GroupOf(cards, country);
    assert i in multiset(Ranked(cards, country)) <==> i in Ranked(cards, country);
  }

  lemma RankedInTurn(cards: seq<Card>, country: string)
    ensures InTurn(cards, Ranked(cards, country))
  {
    var g := GroupOf(cards, country);
    forall i, j | 0 <= i < j < |g| ensures g[i] < g[j] {
      GroupAscends(cards, country, i, j);
    }
    SortInTurn(cards, g);
  }

  /** The compatriots that come before `i`. */
  ghost function Ahead(cards: seq<Card>, i: nat): set<nat> {
    set j: nat | j < |cards| && cards[j].country == CardAt(cards, i).country && Before(cards, j, i)
  }

  lemma {:induction false} FirstOnes(cards: seq<Card>, s: seq<nat>, p: nat)
    requires InTurn(cards, s) && p <= |s|
    ensures |set q | 0 <= q < p :: s[q]| == p
  {
    if p > 0 {
      FirstOnes(cards, s, p - 1);
      var less, more := set q | 0 <= q < p - 1 :: s[q], set q | 0 <= q < p :: s[q];
      assert more == less + {s[p - 1]};
      assert s[p - 1] !in less by {
        forall q | 0 <= q < p - 1 ensures s[q] != s[p - 1] {
          assert Before(cards, s[q], s[p - 1]);
        }
      }
    }
  }

  lemma PlaceIsOrder(cards: seq<Card>, s: seq<nat>, p: nat, q: nat)
    requires InTurn(cards, s) && p < |s| && q < |s|
    ensures Before(cards, s[p], s[q]) <==> p < q
  {
  }

  /** A position's place in its country's order is the number of compatriots ahead of it. */
  lemma PlaceIsAhead(cards: seq<Card>, country: string, p: nat)
    requires p < |Ranked(cards, country)|
    ensures |Ahead(cards, Ranked(cards, country)[p])| == p
  {
    var r := Ranked(cards, country);
    RankedInTurn(cards, country);
    RankedMembers(cards, country, r[p]);
    forall j: nat ensures j in Ahead(cards, r[p]) <==> exists q :: 0 <= q < p && r[q] == j {
      RankedMembers(cards, country, j);
      if j in Ahead(cards, r[p]) {
        var q :| 0 <= q < |r| && r[q] == j;
        PlaceIsOrder(cards, r, q, p);
      }
      if q :| 0 <= q < p && r[q] == j {
        PlaceIsOrder(cards, r, q, p);
      }
    }
    FirstOnes(cards, r, p);
    assert Ahead(cards, r[p]) == set q | 0 <= q < p :: r[q];
  }

  /** The node at `i` is recommended exactly if fewer compatriots than the quota are ahead of
      it; the quota of a negative k is what a negative slice leaves. */
  lemma MarkedMeans(cards: seq<Card>, k: int, i: nat)
    requires i < |cards|
    ensures var c := cards[i].country;
      i in Marked(cards, c, k) <==> |Ahead(cards, i)| < SliceEnd(|GroupOf(cards, c)|, k)
  {
    var c := cards[i].country;
    var r := Ranked(cards, c);
    RankedMembers(cards, c, i);
    var p :| 0 <= p < |r| && r[p] == i;
    PlaceIsAhead(cards, c, p);
    RankedInTurn(cards, c);
    if i in Marked(cards, c, k) {
      var q :| 0 <= q < SliceEnd(|r|, k) && r[q] == i;
      PlaceIsOrder(cards, r, q, p);
      PlaceIsOrder(cards, r, p, q);
    }
    assert p < SliceEnd(|r|, k) ==> Marked(cards, c, k)[p] == i;
  }

  lemma InPrefix<T>(s: seq<T>, n: nat, q: nat)
    requires n <= |s| && q < |s|
    ensures q < n ==> s[q] in s[..n]
  {
    if q < n {
      assert s[..n][q] == s[q];
    }
  }

  lemma OutComesLater(cards: seq<Card>, country: string, k: int, i: nat, j: nat)
    requires i in Marked(cards, country, k) && j !in Marked(cards, country, k)
    requires j < |cards| && cards[j].country == country
    ensures Before(cards, i, j)
  {
    var r := Ranked(cards, country);
    RankedInTurn(cards, country);
    RankedMembers(cards, country, j);
    var p :| 0 <= p < SliceEnd(|r|, k) && r[p] == i;
    var q :| 0 <= q < |r| && r[q] == j;
    InPrefix(r, SliceEnd(|r|, k), q);
    PlaceIsOrder(cards, r, p, q);
  }

  /** Every country gets its quota, and no compatriot left out is strictly better than one
      that is recommended. */
  lemma QuotaOfTheBest(cards: seq<Card>, country: string, k: int, i: nat, j: nat)
    requires i < |cards| && j < |cards| && cards[i].country == country == cards[j].country
    requires i in Marked(cards, country, k) && j !in Marked(cards, country, k)
    ensures |Marked(cards, country, k)| == SliceEnd(|GroupOf(cards, country)|, k)
    ensures InTurn(cards, Marked(cards, country, k))
    ensures !Better(cards[j], cards[i])
  {
    RankedInTurn(cards, country);
    OutComesLater(cards, country, k, i, j);
  }

  /** Any stable sort gives this order, so nothing depends on which one the library runs. */
  lemma AnyStableSort(cards: seq<Card>, country: string, sorted: seq<nat>)
    requires Sorted(AtMost(cards), sorted) && Stable(AtMost(cards), GroupOf(cards, country), sorted)
    requires |sorted| == |GroupOf(cards, country)|
    ensures sorted == Ranked(cards, country)
  {
    AtMostIsPreorder(cards);
    SortSorted(AtMost(cards), GroupOf(cards, country));
    SortStable(AtMost(cards), GroupOf(cards, country));
    StableSortUnique(AtMost(cards), sorted, Ranked(cards, country));
  }

  // ---- The method ------------------------------------------------------------------------------------

  class PoolNode {
    const country: Option<string>
    const stability: int
    const pingMs: Option<int>
    var recommended: bool

    constructor (country: Option<string>, stability: int, pingMs: Option<int>)
      ensures this.country == country && this.stability == stability && this.pingMs == pingMs && !recommended
    {
      this.country, this.stability, this.pingMs, recommended := country, stability, pingMs, false;
    }

    function ToCard(): Card {
      Card(CountryOf(country), stability, pingMs.GetOr(NO_PING))
    }
  }

  function Cards(nodes: seq<PoolNode>): (r: seq<Card>)
    ensures |r| == |nodes| && forall i :: 0 <= i < |r| ==> r[i] == nodes[i].ToCard()
  {
    seq(|nodes|, i requires 0 <= i < |nodes| => nodes[i].ToCard())
  }

  predicate IsMarked(cards: seq<Card>, k: int, i: nat) {
    i < |cards| && i in Marked(cards, cards[i].country, k)
  }

  // ---- What is recommended, in the nodes' own terms -------------------------------------------------

  /** The node belongs to the country: its own, or "??" when it has none. */
  predicate Belongs(n: PoolNode, country: string) {
    (n.country == Some(country) && country != "") || ((n.country.None? || n.country == Some("")) && country == "??")
  }

  ghost predicate Chosen(nodes: seq<PoolNode>, k: int, country: string, i: nat) {
    i < |nodes| && Belongs(nodes[i], country) && IsMarked(Cards(nodes), k, i)
  }

  lemma BelongsIsCountry(n: PoolNode, country: string)
    ensures Belongs(n, country) <==> n.ToCard().country == country
  {
  }

  lemma ChosenAreMarked(nodes: seq<PoolNode>, k: int, country: string, i: nat)
    ensures Chosen(nodes, k, country, i) <==> i in Marked(Cards(nodes), country, k)
  {
    RankedMembers(Cards(nodes), country, i);
    if i < |nodes| {
      BelongsIsCountry(nodes[i], country);
    }
  }

  function Members(s: seq<nat>): set<nat> {
    set i | i in s
  }

  lemma {:induction false} DistinctCount(s: seq<nat>)
    requires forall p, q :: 0 <= p < q < |s| ==> s[p] != s[q]
    ensures |Members(s)| == |s|
  {
    if s == [] {
      assert Members(s) == {};
    } else {
      var n := |s| - 1;
      DistinctCount(s[..n]);
      assert s == s[..n] + [s[n]];
      assert Members(s) == Members(s[..n]) + {s[n]};
      assert s[n] !in s[..n];
    }
  }

  lemma MarkedCount(cards: seq<Card>, country: string, k: int)
    ensures |Members(Marked(cards, country, k))| == SliceEnd(|GroupOf(cards, country)|, k)
  {
    var m := Marked(cards, country, k);
    RankedInTurn(cards, country);
    forall p, q | 0 <= p < q < |m| ensures m[p] != m[q] {
      assert Before(cards, m[p], m[q]);
    }
    DistinctCount(m);
  }

  lemma GroupCount(cards: seq<Card>, country: string)
    ensures |Members(GroupOf(cards, country))| == |GroupOf(cards, country)|
  {
    var g := GroupOf(cards, country);
    forall p, q | 0 <= p < q < |g| ensures g[p] != g[q] {
      GroupAscends(cards, country, p, q);
    }
    DistinctCount(g);
  }

  /** The country's nodes, and those of them that are chosen. */
  ghost function Locals(nodes: seq<PoolNode>, country: string): set<nat> {
    set i: nat | i < |nodes| && Belongs(nodes[i], country)
  }

  ghost function ChosenLocals(nodes: seq<PoolNode>, k: int, country: string): set<nat> {
    set i: nat | i < |nodes| && Chosen(nodes, k, country, i)
  }

  lemma LocalsAreGroup(nodes: seq<PoolNode>, country: string)
    ensures Locals(nodes, country) == Members(GroupOf(Cards(nodes), country))
  {
    forall i: nat ensures i in Locals(nodes, country) <==> i in GroupOf(Cards(nodes), country) {
      GroupMembers(Cards(nodes), country, i);
      if i < |nodes| {
        BelongsIsCountry(nodes[i], country);
      }
    }
  }

  lemma ChosenLocalsAreMarked(nodes: seq<PoolNode>, k: int, country: string)
    ensures ChosenLocals(nodes, k, country) == Members(Marked(Cards(nodes), country, k))
  {
    forall i: nat ensures i in ChosenLocals(nodes, k, country) <==> i in Marked(Cards(nodes), country, k) {
      ChosenAreMarked(nodes, k, country, i);
    }
  }

  /** Of every country as many nodes are chosen as the quota, all of them if there are fewer; of a
      negative quota, all but that many. */
  lemma QuotaFilled(nodes: seq<PoolNode>, k: int, country: string)
    ensures var all := |Locals(nodes, country)|;
      |ChosenLocals(nodes, k, country)| ==
        if 0 <= k <= all then k else if k > all then all else if all + k < 0 then 0 else all + k
  {
    LocalsAreGroup(nodes, country);
    ChosenLocalsAreMarked(nodes, k, country);
    MarkedCount(Cards(nodes), country, k);
    GroupCount(Cards(nodes), country);
  }

  /** The ping a node is ranked by; one that was not measured counts as 9999 ms. */
  function PingOf(n: PoolNode): int {
    match n.pingMs
    case Some(ms) => ms
    case None => 9999
  }

  /** A node passed over is not ahead of a compatriot that is recommended: it is less stable, or as stable and
      slower, or equal in both and later in the list. */
  lemma ChosenAreBest(nodes: seq<PoolNode>, k: int, country: string, i: nat, j: nat)
    requires i < |nodes| && Chosen(nodes, k, country, i)
    requires j < |nodes| && Belongs(nodes[j], country) && !Chosen(nodes, k, country, j)
    ensures nodes[j].stability <= nodes[i].stability
    ensures nodes[j].stability == nodes[i].stability ==> PingOf(nodes[i]) <= PingOf(nodes[j])
    ensures nodes[j].stability == nodes[i].stability && PingOf(nodes[i]) == PingOf(nodes[j]) ==> i < j
  {
    var cards := Cards(nodes);
    ChosenAreMarked(nodes, k, country, i);
    ChosenAreMarked(nodes, k, country, j);
    BelongsIsCountry(nodes[i], country);
    BelongsIsCountry(nodes[j], country);
    OutComesLater(cards, country, k, i, j);
  }

  function Lookup(groups: map<string, seq<nat>>, country: string): seq<nat> {
    if country in groups then groups[country] else []
  }

  lemma GroupGrows(cards: seq<Card>, i: nat, country: string)
    requires i < |cards|
    ensures GroupOf(cards[..i + 1], country)
         == GroupOf(cards[..i], country) + (if cards[i].country == country then [i] else [])
  {
    assert cards[..i + 1][..i] == cards[..i];
  }

  ghost predicate Grouped(groups: map<string, seq<nat>>, cards: seq<Card>) {
    forall c :: Lookup(groups, c) == GroupOf(cards, c)
  }

  lemma GroupedGrows(groups: map<string, seq<nat>>, cards: seq<Card>, i: nat)
    requires i < |cards| && Grouped(groups, cards[..i])
    ensures var c := cards[i].country; Grouped(groups[c := Lookup(groups, c) + [i]], cards[..i + 1])
  {
    var country := cards[i].country;
    var more := groups[country := Lookup(groups, country) + [i]];
    forall c ensures Lookup(more, c) == GroupOf(cards[..i + 1], c) {
      GroupGrows(cards, i, c);
      assert Lookup(more, c) == Lookup(groups, c) + (if c == country then [i] else []);
    }
  }

  method GroupByCountry(cards: seq<Card>) returns (groups: map<string, seq<nat>>)
    ensures Grouped(groups, cards)
    ensures forall i :: 0 <= i < |cards| ==> cards[i].country in groups
  {
    groups := map[];
    for i := 0 to |cards|
      invariant Grouped(groups, cards[..i])
      invariant forall j :: 0 <= j < i ==> cards[j].country in groups
    {
      GroupedGrows(groups, cards, i);
      var country := cards[i].country;
      groups := groups[country := Lookup(groups, country) + [i]];
    }
    assert cards[..|cards|] == cards;
  }

  /** Marks the best `perCountry` nodes of every country and changes nothing else; a node
      already marked stays so. The list itself is a value, so its order cannot change. */
  method MarkRecommended(nodes: seq<PoolNode>, perCountry: int)
    requires forall i, j :: 0 <= i < j < |nodes| ==> nodes[i] != nodes[j]
    modifies nodes
    ensures forall i :: 0 <= i < |nodes| ==>
      nodes[i].recommended == (old(nodes[i].recommended) || IsMarked(Cards(nodes), perCountry, i))
  {
    var cards := Cards(nodes);
    var groups := GroupByCountry(cards);
    var rest := groups.Keys;
    while rest != {}
      invariant rest <= groups.Keys
      invariant forall i :: 0 <= i < |nodes| ==>
        nodes[i].recommended ==
        (old(nodes[i].recommended) || (cards[i].country !in rest && IsMarked(cards, perCountry, i)))
      decreases rest
    {
      var c :| c in rest;
      rest := rest - {c};
      var group := Sort(AtMost(cards), Lookup(groups, c));
      MarkAll(nodes, group[..SliceEnd(|group|, perCountry)], cards, c, perCountry);
    }
  }

  /** Marks one country's chosen positions. */
  method MarkAll(nodes: seq<PoolNode>, top: seq<nat>, cards: seq<Card>, country: string, k: int)
    requires forall i, j :: 0 <= i < j < |nodes| ==> nodes[i] != nodes[j]
    requires cards == Cards(nodes) && top == Marked(cards, country, k)
    modifies nodes
    ensures forall i :: 0 <= i < |nodes| ==>
      nodes[i].recommended == (old(nodes[i].recommended) || (cards[i].country == country && IsMarked(cards, k, i)))
  {
    forall i | i in top ensures i < |nodes| && cards[i].country == country {
      RankedMembers(cards, country, i);
    }
    for q := 0 to |top|
      invariant forall i :: 0 <= i < |nodes| ==> nodes[i].recommended == (old(nodes[i].recommended) || i in top[..q])
    {
      assert top[q] in top;
      nodes[top[q]].recommended := true;
      assert top[..q + 1] == top[..q] + [top[q]];
    }
    assert top[..|top|] == top;
  }
}
