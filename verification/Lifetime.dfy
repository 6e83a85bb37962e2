/** Observation history: collector/src/weronity_collector/pipeline/lifetime.py. Times are
    microseconds since the epoch; stored stamps are whole seconds. */
module Lifetime {
  import opened Wrappers

  const SECOND := 1_000_000
  const HOUR := 3600 * SECOND
  const FRESH_MAX_H := 24
  const SHORT_MAX_H := 72

  /** A stored node. `seen_runs` and `first_run` may be missing in an old file. */
  datatype Entry = Entry(firstSeen: int, lastSeen: int, seenRuns: Option<int>, firstRun: Option<int>)

  datatype Seen = Seen(runsTotal: int, windowH: int, nodes: map<string, Entry>)

  /** `now` with its microseconds dropped. */
  function Stamp(now: int): int {
    now - now % SECOND
  }

  function Cutoff(now: int, windowH: int): int {
    now - windowH * HOUR
  }

  function Get<T>(m: map<string, T>, id: string): Option<T> {
    if id in m then Some(m[id]) else None
  }

  // ---- One run ------------------------------------------------------------------------------

  function Touched(e: Option<Entry>, stamp: int, run: int): Entry {
    if e.None? then Entry(stamp, stamp, Some(1), Some(run))
    else e.value.(lastSeen := stamp, seenRuns := Some(e.value.seenRuns.GetOr(0) + 1))
  }

  function Recorded(s: Seen, present: set<string>, now: int): map<string, Entry> {
    map id | id in s.nodes.Keys + present ::
      if id in present then Touched(Get(s.nodes, id), Stamp(now), s.runsTotal + 1) else s.nodes[id]
  }

  function Pruned(nodes: map<string, Entry>, cutoff: int): map<string, Entry> {
    map id | id in nodes && nodes[id].lastSeen >= cutoff :: nodes[id]
  }

  function Observed(s: Seen, present: set<string>, now: int): Seen {
    Seen(s.runsTotal + 1, s.windowH, Pruned(Recorded(s, present, now), Cutoff(now, s.windowH)))
  }

  // ---- What is published ----------------------------------------------------------------------

  datatype Class = Fresh | ShortLived | LongLived

  function ClassifyAge(hours: int): Class {
    if hours < FRESH_MAX_H then Fresh else if hours <= SHORT_MAX_H then ShortLived else LongLived
  }

  /** `stability` in thousandths. */
  datatype Lifetime = Lifetime(
    firstSeen: int, lastSeen: int, ageHours: int, class_: Class, seenRuns: int, stability: int)

  function Max(a: int, b: int): int {
    if a < b then b else a
  }

  /** `n / d` rounded to the nearest thousandth; a tie goes up or down. */
  function Thousandths(n: int, d: int, tieUp: bool): (r: int)
    requires d > 0
  {
    var q, rest := 1000 * n / d, 1000 * n % d;
    if 2 * rest < d || (2 * rest == d && !tieUp) then q else q + 1
  }

  function FirstRun(e: Entry, runsTotal: int): int {
    e.firstRun.GetOr(runsTotal - e.seenRuns.GetOr(1) + 1)
  }

  function RunsSince(e: Entry, runsTotal: int): (r: int)
    ensures r >= 1
  {
    Max(1, runsTotal - Max(1, FirstRun(e, runsTotal)) + 1)
  }

  function Rounded(e: Entry, runsTotal: int, tieUp: bool): int {
    Thousandths(e.seenRuns.GetOr(1), RunsSince(e, runsTotal), tieUp)
  }

  function Published(e: Entry, runsTotal: int, now: int, tieUp: bool): Lifetime {
    var age := Max(0, (now - e.firstSeen) / HOUR);
    var stability := Rounded(e, runsTotal, tieUp);
    Lifetime(Stamp(e.firstSeen), Stamp(e.lastSeen), age, ClassifyAge(age), e.seenRuns.GetOr(1),
             if stability < 1000 then stability else 1000)
  }

  // ---- The class -----------------------------------------------------------------------------

  class SeenState {
    var runsTotal: int
    var windowH: int
    var nodes: map<string, Entry>

    function View(): Seen
      reads this
    {
      Seen(runsTotal, windowH, nodes)
    }

    constructor (runsTotal: int, windowH: int, nodes: map<string, Entry>)
      ensures View() == Seen(runsTotal, windowH, nodes)
    {
      this.runsTotal, this.windowH, this.nodes := runsTotal, windowH, nodes;
    }

    method Observe(present: set<string>, now: int)
      modifies this
      ensures View() == Observed(old(View()), present, now)
    {
      var stamp := Stamp(now);
      runsTotal := runsTotal + 1;
      ghost var target := Recorded(old(View()), present, now);
      var rest := present;
      while rest != {}
        invariant rest <= present && runsTotal == old(runsTotal) + 1 && windowH == old(windowH)
        invariant nodes.Keys == old(nodes).Keys + (present - rest)
        invariant forall id :: id in nodes ==> nodes[id] == if id in present - rest then target[id] else old(nodes)[id]
        decreases rest
      {
        var sid :| sid in rest;
        nodes := nodes[sid := Touched(Get(nodes, sid), stamp, runsTotal)];
        rest := rest - {sid};
      }
      assert nodes == target;
      Prune(now);
    }

    method Prune(now: int)
      modifies this
      ensures View() == old(View()).(nodes := Pruned(old(nodes), Cutoff(now, old(windowH))))
    {
      var cutoff := Cutoff(now, windowH);
      var drop := set id | id in nodes && nodes[id].lastSeen < cutoff;
      ghost var all := drop;
      while drop != {}
        invariant drop <= all && windowH == old(windowH) && runsTotal == old(runsTotal)
        invariant nodes == old(nodes) - (all - drop)
        decreases drop
      {
        var sid :| sid in drop;
        nodes := nodes - {sid};
        drop := drop - {sid};
      }
    }

    /** `KeyError` is None. */
    method LifetimeFor(sid: string, now: int, tieUp: bool) returns (l: Option<Lifetime>)
      ensures l == if sid in nodes then Some(Published(nodes[sid], runsTotal, now, tieUp)) else None
    {
      if sid !in nodes {
        return None;
      }
      var entry := nodes[sid];
      var hours := (now - entry.firstSeen) / HOUR;
      var age := Max(0, hours);
      var seenRuns := entry.seenRuns.GetOr(1);
      var firstRun := entry.firstRun.GetOr(runsTotal - seenRuns + 1);
      var runsSince := Max(1, runsTotal - Max(1, firstRun) + 1);
      var stability := Thousandths(seenRuns, runsSince, tieUp);
      if stability > 1000 {
        stability := 1000;
      }
      return Some(Lifetime(Stamp(entry.firstSeen), Stamp(entry.lastSeen), age, ClassifyAge(age), seenRuns, stability));
    }
  }

  // ---- The history as a function of the whole trace ------------------------------------------------

  datatype CiRun = CiRun(present: set<string>, now: int)

  function After(t: seq<CiRun>, windowH: int): (s: Seen)
    ensures s.runsTotal == |t| && s.windowH == windowH
  {
    if t == [] then Seen(0, windowH, map[])
    else Observed(After(t[..|t| - 1], windowH), t[|t| - 1].present, t[|t| - 1].now)
  }

  predicate PresentAt(t: seq<CiRun>, x: string, i: int) {
    0 <= i < |t| && x in t[i].present
  }

  /** The last run up to `j` in which `x` was present, or -1. */
  function LastAt(t: seq<CiRun>, x: string, j: int): (r: int)
    requires -1 <= j < |t|
    ensures -1 <= r <= j && (r >= 0 ==> PresentAt(t, x, r))
    decreases j + 1
  {
    if j < 0 || x in t[j].present then j else LastAt(t, x, j - 1)
  }

  /** At run `j`, the previous presence of `x` was older than the window. */
  predicate Expired(t: seq<CiRun>, windowH: int, x: string, j: int) {
    0 <= j < |t| && var i := LastAt(t, x, j); i >= 0 && Stamp(t[i].now) < Cutoff(t[j].now, windowH)
  }

  ghost predicate ExpiredIn(t: seq<CiRun>, windowH: int, x: string, from: int, to: int) {
    exists j :: from <= j < to && Expired(t, windowH, x, j)
  }

  /** The current streak of `x` begins at run `a`: its first presence after the last expiry. */
  ghost predicate StreakFrom(t: seq<CiRun>, windowH: int, x: string, a: int) {
    && PresentAt(t, x, a) && !ExpiredIn(t, windowH, x, a, |t|)
    && (forall i :: i < a && PresentAt(t, x, i) ==> ExpiredIn(t, windowH, x, i, a))
  }

  function Presences(t: seq<CiRun>, x: string, a: nat): (n: nat)
    ensures n <= if a <= |t| then |t| - a else 0
  {
    if |t| <= a then 0
    else Presences(t[..|t| - 1], x, a) + (if x in t[|t| - 1].present then 1 else 0)
  }

  function StreakEntry(t: seq<CiRun>, x: string, a: nat): Entry
    requires a < |t|
    requires LastAt(t, x, |t| - 1) >= 0
  {
    Entry(Stamp(t[a].now), Stamp(t[LastAt(t, x, |t| - 1)].now), Some(Presences(t, x, a)), Some(a + 1))
  }

  lemma {:induction false} LastAtLeast(t: seq<CiRun>, x: string, i: int, j: int)
    requires PresentAt(t, x, i) && i <= j < |t|
    ensures LastAt(t, x, j) >= i
    decreases j
  {
    if x !in t[j].present {
      LastAtLeast(t, x, i, j - 1);
    }
  }

  lemma {:induction false} LastAtPrefix(t: seq<CiRun>, n: nat, x: string, j: int)
    requires n <= |t| && -1 <= j < n
    ensures LastAt(t[..n], x, j) == LastAt(t, x, j)
    decreases j + 1
  {
    if j >= 0 && x !in t[j].present {
      LastAtPrefix(t, n, x, j - 1);
    }
  }

  lemma ExpiredPrefix(t: seq<CiRun>, n: nat, windowH: int, x: string, from: int, to: int)
    requires to <= n <= |t|
    ensures ExpiredIn(t[..n], windowH, x, from, to) <==> ExpiredIn(t, windowH, x, from, to)
  {
    forall j | from <= j < to ensures Expired(t[..n], windowH, x, j) <==> Expired(t, windowH, x, j) {
      if 0 <= j {
        LastAtPrefix(t, n, x, j);
      }
    }
  }

  /** A presence nothing expired since lies in a streak. */
  lemma {:induction false} StreakExists(t: seq<CiRun>, windowH: int, x: string, i: int) returns (a: int)
    requires PresentAt(t, x, i) && !ExpiredIn(t, windowH, x, i, |t|)
    ensures StreakFrom(t, windowH, x, a)
    decreases i
  {
    if k :| k < i && PresentAt(t, x, k) && !ExpiredIn(t, windowH, x, k, i) {
      a := StreakExists(t, windowH, x, k);
    } else {
      a := i;
    }
  }

  lemma StreakUnique(t: seq<CiRun>, windowH: int, x: string, a: int, b: int)
    requires StreakFrom(t, windowH, x, a) && StreakFrom(t, windowH, x, b)
    ensures a == b
  {
    if a < b {
      assert false;
    } else if b < a {
      assert false;
    }
  }

  /** What the state holds for `x` after the trace: the streak's entry, if there is a streak. */
  ghost predicate Describes(t: seq<CiRun>, windowH: int, x: string, e: Option<Entry>) {
    && (e.Some? <==> exists a :: StreakFrom(t, windowH, x, a))
    && (forall a :: StreakFrom(t, windowH, x, a) ==> LastAt(t, x, |t| - 1) >= 0 && e == Some(StreakEntry(t, x, a)))
  }

  /** What a run makes of one node's entry, before pruning and after. */
  function Marked(e: Option<Entry>, present: bool, run: int, now: int): Option<Entry> {
    if present then Some(Touched(e, Stamp(now), run)) else e
  }

  function NextEntry(e: Option<Entry>, present: bool, run: int, now: int, windowH: int): Option<Entry> {
    var marked := Marked(e, present, run, now);
    if marked.Some? && marked.value.lastSeen >= Cutoff(now, windowH) then marked else None
  }

  lemma ObservedAt(s: Seen, present: set<string>, now: int, x: string)
    ensures Get(Observed(s, present, now).nodes, x)
         == NextEntry(Get(s.nodes, x), x in present, s.runsTotal + 1, now, s.windowH)
  {
  }

  lemma StreakRestrict(t: seq<CiRun>, windowH: int, x: string, a: int)
    requires t != [] && a < |t| - 1 && !Expired(t, windowH, x, |t| - 1)
    ensures StreakFrom(t, windowH, x, a) <==> StreakFrom(t[..|t| - 1], windowH, x, a)
  {
    var n := |t| - 1;
    ExpiredPrefix(t, n, windowH, x, a, n);
    forall i | 0 <= i < a ensures ExpiredIn(t[..n], windowH, x, i, a) <==> ExpiredIn(t, windowH, x, i, a) {
      ExpiredPrefix(t, n, windowH, x, i, a);
    }
    assert forall i :: PresentAt(t[..n], x, i) <==> PresentAt(t, x, i) && i < n;
    assert ExpiredIn(t, windowH, x, a, n + 1) <==> ExpiredIn(t, windowH, x, a, n);
  }

  /** No streak survives a run that finds the previous presence too old. */
  lemma ExpiredEnds(t: seq<CiRun>, windowH: int, x: string)
    requires t != [] && Expired(t, windowH, x, |t| - 1)
    ensures forall a :: !StreakFrom(t, windowH, x, a)
  {
    forall a | StreakFrom(t, windowH, x, a) ensures false {
      assert ExpiredIn(t, windowH, x, a, |t|);
    }
  }

  lemma StreakLast(t: seq<CiRun>, windowH: int, x: string, a: int)
    requires StreakFrom(t, windowH, x, a)
    ensures LastAt(t, x, |t| - 1) >= a
  {
    LastAtLeast(t, x, a, |t| - 1);
  }

  /** A streak that began earlier goes on through the last run. */
  lemma Continues(t: seq<CiRun>, windowH: int, x: string, a: int)
    requires t != [] && a < |t| - 1 && StreakFrom(t, windowH, x, a) && StreakFrom(t[..|t| - 1], windowH, x, a)
    ensures LastAt(t, x, |t| - 1) >= 0 && LastAt(t[..|t| - 1], x, |t| - 2) >= 0
    ensures var r, old' := t[|t| - 1], StreakEntry(t[..|t| - 1], x, a);
      StreakEntry(t, x, a) == if x in r.present then Touched(Some(old'), Stamp(r.now), |t|) else old'
  {
    StreakLast(t, windowH, x, a);
    StreakLast(t[..|t| - 1], windowH, x, a);
    LastAtPrefix(t, |t| - 1, x, |t| - 2);
  }

  lemma Begins(t: seq<CiRun>, before: seq<CiRun>, windowH: int, x: string)
    requires t != [] && before == t[..|t| - 1] && x in t[|t| - 1].present && !Expired(t, windowH, x, |t| - 1)
    requires forall a :: !StreakFrom(before, windowH, x, a)
    ensures StreakFrom(t, windowH, x, |t| - 1)
    ensures StreakEntry(t, x, |t| - 1) == Touched(None, Stamp(t[|t| - 1].now), |t|)
  {
    var n := |t| - 1;
    forall i | i < n && PresentAt(t, x, i) ensures ExpiredIn(t, windowH, x, i, n) {
      ExpiredPrefix(t, n, windowH, x, i, n);
      if !ExpiredIn(t[..n], windowH, x, i, n) {
        assert PresentAt(t[..n], x, i);
        var a := StreakExists(t[..n], windowH, x, i);
        assert false;
      }
    }
  }

  lemma DescribedLast(t: seq<CiRun>, windowH: int, x: string, e: Option<Entry>)
    requires Describes(t, windowH, x, e) && e.Some?
    ensures LastAt(t, x, |t| - 1) >= 0 && e.value.lastSeen == Stamp(t[LastAt(t, x, |t| - 1)].now)
  {
    var a :| StreakFrom(t, windowH, x, a);
  }

  /** Before pruning, the entry carries the last presence's stamp, so it is pruned exactly
      when that presence is too old. */
  lemma MarkedLast(t: seq<CiRun>, windowH: int, x: string, before: Option<Entry>)
    requires t != [] && Describes(t[..|t| - 1], windowH, x, before)
    ensures var n := |t| - 1; var marked := Marked(before, x in t[n].present, n + 1, t[n].now);
      marked.Some? ==> LastAt(t, x, n) >= 0 && marked.value.lastSeen == Stamp(t[LastAt(t, x, n)].now)
  {
    var n := |t| - 1;
    if x !in t[n].present && before.Some? {
      DescribedLast(t[..n], windowH, x, before);
      LastAtPrefix(t, n, x, n - 1);
    }
  }

  lemma OneMoreRun(t: seq<CiRun>, windowH: int, x: string, before: Option<Entry>)
    requires t != [] && Describes(t[..|t| - 1], windowH, x, before)
    ensures var r := t[|t| - 1]; Describes(t, windowH, x, NextEntry(before, x in r.present, |t|, r.now, windowH))
  {
    var n := |t| - 1;
    MarkedLast(t, windowH, x, before);
    if Expired(t, windowH, x, n) {
      ExpiredEnds(t, windowH, x);
    } else if before.Some? {
      var a :| StreakFrom(t[..n], windowH, x, a);
      StreakRestrict(t, windowH, x, a);
      Continues(t, windowH, x, a);
      forall b | StreakFrom(t, windowH, x, b) ensures b == a {
        StreakUnique(t, windowH, x, a, b);
      }
    } else if x in t[n].present {
      Begins(t, t[..n], windowH, x);
      forall b | StreakFrom(t, windowH, x, b) ensures b == n {
        StreakUnique(t, windowH, x, n, b);
      }
    } else {
      forall a | StreakFrom(t, windowH, x, a) ensures false {
        StreakRestrict(t, windowH, x, a);
      }
    }
  }

  /** The incremental state is the trace's: after any runs from the empty state, whatever
      their clocks say, an id is tracked exactly if it has a current streak, and its entry is
      the streak's. */
  lemma {:induction false} HistoryRefines(t: seq<CiRun>, windowH: int, x: string)
    ensures Describes(t, windowH, x, Get(After(t, windowH).nodes, x))
  {
    if t != [] {
      var n := |t| - 1;
      HistoryRefines(t[..n], windowH, x);
      ObservedAt(After(t[..n], windowH), t[n].present, t[n].now, x);
      OneMoreRun(t, windowH, x, Get(After(t[..n], windowH).nodes, x));
    }
  }

  // ---- Stability -------------------------------------------------------------------------------------

  lemma {:induction false} PresencesAre(t: seq<CiRun>, x: string, a: nat)
    requires a < |t| && PresentAt(t, x, a)
    ensures 1 <= Presences(t, x, a) <= |t| - a
    ensures Presences(t, x, a) == |t| - a <==> forall i :: a <= i < |t| ==> PresentAt(t, x, i)
  {
    var n := |t| - 1;
    if a < n {
      PresencesAre(t[..n], x, a);
      assert forall i :: a <= i < n ==> (PresentAt(t[..n], x, i) <==> PresentAt(t, x, i));
      assert PresentAt(t, x, n) <==> x in t[n].present;
    }
  }

  lemma Monotone(p: int, q: int, d: int)
    requires d > 0 && p <= q
    ensures p * d <= q * d
  {
  }

  /** How a quotient compares with `k` is how its dividend compares with `k * d`. */
  lemma QuotientAgainst(m: int, q: int, rest: int, d: int, k: int)
    requires d > 0 && m == q * d + rest && 0 <= rest < d
    ensures m >= k * d <==> q >= k
    ensures m <= k * d <==> q < k || (q == k && rest == 0)
  {
    if q < k {
      Monotone(q, k - 1, d);
      assert (k - 1) * d == k * d - d;
    } else if q > k {
      Monotone(k + 1, q, d);
      assert (k + 1) * d == k * d + d;
    }
  }

  /** `Thousandths` is a nearest thousandth, on the same side of 0 and of 1. */
  lemma NearestThousandth(n: int, d: int, tieUp: bool)
    requires d > 0
    ensures var r := Thousandths(n, d, tieUp);
      && -d <= 2 * (1000 * n - r * d) <= d
      && (n >= 0 ==> r >= 0) && (n <= 0 ==> r <= 0) && (n <= d ==> r <= 1000) && (n >= d ==> r >= 1000)
  {
    var q, rest := 1000 * n / d, 1000 * n % d;
    assert (q + 1) * d == q * d + d;
    QuotientAgainst(1000 * n, q, rest, d, 0);
    QuotientAgainst(1000 * n, q, rest, d, 1000);
  }

  lemma TrackedHasStreak(t: seq<CiRun>, windowH: int, x: string) returns (a: nat)
    requires x in After(t, windowH).nodes
    ensures StreakFrom(t, windowH, x, a) && LastAt(t, x, |t| - 1) >= 0
    ensures After(t, windowH).nodes[x] == StreakEntry(t, x, a)
  {
    HistoryRefines(t, windowH, x);
    var b :| StreakFrom(t, windowH, x, b);
    a := b;
  }

  /** `stability` is, to the nearest thousandth, the share of the runs since the current streak
      began in which the node was present. Neither clamp ever acts. The share is full exactly
      if the node was present in all of those runs. */
  lemma StabilityIsShare(t: seq<CiRun>, windowH: int, x: string, now: int, tieUp: bool) returns (a: nat)
    requires x in After(t, windowH).nodes
    ensures StreakFrom(t, windowH, x, a)
    ensures var e, share, runs := After(t, windowH).nodes[x], Presences(t, x, a), |t| - a;
      && 1 <= share <= runs && e.seenRuns == Some(share) && RunsSince(e, |t|) == |t| - FirstRun(e, |t|) + 1 == runs
      && (share == runs <==> forall i :: a <= i < |t| ==> PresentAt(t, x, i))
      && var p := Published(e, |t|, now, tieUp).stability;
         p == Rounded(e, |t|, tieUp) && -runs <= 2 * (1000 * share - p * runs) <= runs
  {
    a := TrackedHasStreak(t, windowH, x);
    PresencesAre(t, x, a);
    NearestThousandth(Presences(t, x, a), |t| - a, tieUp);
  }

  /** An entry written before `first_run` existed is published with full stability if and only
      if it counts at least one run, however many runs go by: it does not decay. */
  lemma LegacyNeverDecays(e: Entry, runsTotal: int, now: int, tieUp: bool)
    requires e.firstRun.None?
    ensures e.seenRuns.GetOr(1) >= 1 <==> Published(e, runsTotal, now, tieUp).stability == 1000
  {
    var n, d := e.seenRuns.GetOr(1), RunsSince(e, runsTotal);
    NearestThousandth(n, d, tieUp);
  }

  /** And no later run gives it a `first_run`, unless it is pruned and seen anew. */
  lemma LegacyStaysLegacy(s: Seen, present: set<string>, now: int, x: string)
    requires x in s.nodes && s.nodes[x].firstRun.None?
    requires s.nodes[x].seenRuns.GetOr(1) >= 1
    ensures var s' := Observed(s, present, now);
      x in s'.nodes ==> s'.nodes[x].firstRun.None? && s'.nodes[x].seenRuns.GetOr(1) >= 1
  {
  }

  // ---- What is published, from the trace ------------------------------------------------------------

  lemma {:induction false} PresencesCount(t: seq<CiRun>, x: string, a: nat)
    ensures Presences(t, x, a) == |set i | a <= i < |t| && PresentAt(t, x, i)|
  {
    var all := set i | a <= i < |t| && PresentAt(t, x, i);
    if a < |t| {
      var n := |t| - 1;
      PresencesCount(t[..n], x, a);
      var before := set i | a <= i < |t[..n]| && PresentAt(t[..n], x, i);
      assert forall i :: PresentAt(t[..n], x, i) <==> PresentAt(t, x, i) && i < n;
      assert all == before + if x in t[n].present then {n} else {};
    } else {
      assert all == {};
    }
  }

  /** `stamp` is `time` to the second. */
  ghost predicate WholeSecond(stamp: int, time: int) {
    stamp % 1_000_000 == 0 && stamp <= time < stamp + 1_000_000
  }

  lemma StampIsWholeSecond(time: int)
    ensures WholeSecond(Stamp(time), time) && Stamp(Stamp(time)) == Stamp(time)
  {
  }

  /** `hours` are the whole hours from `from` to `to`, none if that is negative. */
  ghost predicate WholeHours(hours: int, from: int, to: int) {
    if to < from then hours == 0 else hours >= 0 && hours * 3_600_000_000 <= to - from < (hours + 1) * 3_600_000_000
  }

  lemma AgeInHours(first: int, now: int)
    ensures WholeHours(Max(0, (now - first) / HOUR), first, now)
  {
  }

  /** What is published of a tracked id: the streak's first and last presence to the second, the whole
      hours since the first, and how many runs of the streak it was present in. */
  lemma PublishedFromTrace(t: seq<CiRun>, windowH: int, x: string, now: int, tieUp: bool) returns (a: nat, b: nat)
    requires x in After(t, windowH).nodes
    ensures StreakFrom(t, windowH, x, a)
    ensures a <= b && PresentAt(t, x, b) && forall i :: b < i < |t| ==> !PresentAt(t, x, i)
    ensures var p := Published(After(t, windowH).nodes[x], |t|, now, tieUp);
      && WholeSecond(p.firstSeen, t[a].now) && WholeSecond(p.lastSeen, t[b].now)
      && WholeHours(p.ageHours, p.firstSeen, now)
      && p.seenRuns == |set i | a <= i < |t| && PresentAt(t, x, i)|
  {
    a := TrackedHasStreak(t, windowH, x);
    b := LastAt(t, x, |t| - 1);
    StreakLast(t, windowH, x, a);
    forall i | b < i < |t| ensures !PresentAt(t, x, i) {
      if PresentAt(t, x, i) {
        LastAtLeast(t, x, i, |t| - 1);
      }
    }
    StampIsWholeSecond(t[a].now);
    StampIsWholeSecond(t[b].now);
    AgeInHours(Stamp(t[a].now), now);
    PresencesCount(t, x, a);
  }

  /** A node is fresh for a day and long-lived from its 73rd hour on: the age compared with 72 hours
      has its minutes dropped. */
  lemma ClassMeans(e: Entry, runsTotal: int, now: int, tieUp: bool)
    ensures var c := Published(e, runsTotal, now, tieUp).class_;
      && (c == Fresh <==> now - e.firstSeen < 24 * 3_600_000_000)
      && (c == LongLived <==> now - e.firstSeen >= 73 * 3_600_000_000)
  {
    AgeInHours(e.firstSeen, now);
  }

  /** A run that sees a tracked id again counts it once more, from none if no count was kept, and leaves
      the beginning of its entry as it was. */
  lemma SeenAgain(s: Seen, present: set<string>, now: int, x: string)
    requires x in present && x in s.nodes && x in Observed(s, present, now).nodes
    ensures var e, e' := s.nodes[x], Observed(s, present, now).nodes[x];
      && e'.firstSeen == e.firstSeen && e'.firstRun == e.firstRun && WholeSecond(e'.lastSeen, now)
      && e'.seenRuns == match e.seenRuns { case Some(n) => Some(n + 1) case None => Some(1) }
  {
    ObservedAt(s, present, now, x);
    StampIsWholeSecond(now);
  }

  /** An id a run does not see keeps its entry exactly if it was last seen within the window. */
  lemma KeptWithinWindow(s: Seen, present: set<string>, now: int, x: string)
    requires x !in present
    ensures var s' := Observed(s, present, now);
      && (x in s'.nodes <==> x in s.nodes && now - s.nodes[x].lastSeen <= s.windowH * 3_600_000_000)
      && (x in s'.nodes ==> s'.nodes[x] == s.nodes[x])
  {
    ObservedAt(s, present, now, x);
  }

  // ---- Observe, then publish ------------------------------------------------------------------------

  /** An id just observed survives the prune of its own run exactly if the window reaches back
      over the microseconds its stamp dropped; any window of an hour or more does. */
  lemma SurvivesOwnPrune(s: Seen, present: set<string>, now: int, x: string)
    requires x in present
    ensures x in Observed(s, present, now).nodes <==> now % SECOND <= s.windowH * HOUR
    ensures now % SECOND <= s.windowH * HOUR <==> s.windowH >= 1 || (s.windowH == 0 && now % SECOND == 0)
  {
    ObservedAt(s, present, now, x);
  }

  /** `build_pool`: record the run, then derive the lifetime of every alive node. None is the
      `KeyError` of a node that its own run pruned. */
  method RecordRun(seen: SeenState, alive: seq<string>, now: int, tieUp: bool) returns (out: Option<seq<Lifetime>>)
    modifies seen
    ensures seen.View() == Observed(old(seen.View()), (set x | x in alive), now)
    ensures out.Some? <==> alive == [] || seen.windowH >= 1 || (seen.windowH == 0 && now % SECOND == 0)
    ensures out.Some? ==> |out.value| == |alive| && forall i :: 0 <= i < |alive| ==>
      alive[i] in seen.nodes && out.value[i] == Published(seen.nodes[alive[i]], seen.runsTotal, now, tieUp)
  {
    var present := set x | x in alive;
    seen.Observe(present, now);
    var nodes := [];
    for i := 0 to |alive|
      invariant seen.View() == Observed(old(seen.View()), present, now)
      invariant |nodes| == i && forall j :: 0 <= j < i ==>
        alive[j] in seen.nodes && nodes[j] == Published(seen.nodes[alive[j]], seen.runsTotal, now, tieUp)
    {
      SurvivesOwnPrune(old(seen.View()), present, now, alive[i]);
      var lifetime := seen.LifetimeFor(alive[i], now, tieUp);
      if lifetime.None? {
        return None;
      }
      nodes := nodes + [lifetime.value];
    }
    if alive != [] {
      SurvivesOwnPrune(old(seen.View()), present, now, alive[0]);
    }
    return Some(nodes);
  }
}
