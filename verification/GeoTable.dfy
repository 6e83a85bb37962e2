/** The offline country table: source rows, the gap-free record table and its meaning.
    Follows app/tool/build_geoip.py. */
module GeoTable {
  import opened Wrappers
  import opened StableSort
  import opened Sets

  const LAST_ADDRESS := 0xFFFF_FFFF

  /** A line of the source after `split`, `strip`, `upper` and `int`; `None` where the
      number did not parse or the line did not have three parts. */
  datatype Line = Malformed | Line(first: Option<int>, last: Option<int>, country: string)

  datatype Row = Row(start: int, end: int, cc: string)

  predicate Letter(c: char) { 'A' <= c <= 'Z' }

  predicate CountryCode(cc: string) { |cc| == 2 && Letter(cc[0]) && Letter(cc[1]) }

  predicate ValidRow(r: Row) {
    0 <= r.start <= r.end <= LAST_ADDRESS && CountryCode(r.cc)
  }

  ghost predicate ValidRows(rows: seq<Row>) {
    forall i :: 0 <= i < |rows| ==> ValidRow(rows[i])
  }

  function KeepLine(l: Line): Option<Row> {
    if l.Malformed? || l.first.None? || l.last.None? then None
    else
      var r := Row(l.first.value, l.last.value, l.country);
      if ValidRow(r) then Some(r) else None
  }

  function KeptRows(lines: seq<Line>): (rows: seq<Row>)
    ensures ValidRows(rows)
  {
    if lines == [] then []
    else
      var kept := KeepLine(lines[|lines| - 1]);
      KeptRows(lines[..|lines| - 1]) + if kept.Some? then [kept.value] else []
  }

  /** A line with three parts, both numbers, a two-letter code and a non-empty range of addresses. */
  predicate WellFormed(l: Line) {
    && l.Line? && l.first.Some? && l.last.Some? && 0 <= l.first.value <= l.last.value <= 0xFFFF_FFFF
    && |l.country| == 2 && forall i :: 0 <= i < 2 ==> 'A' <= l.country[i] <= 'Z'
  }

  function RowOf(l: Line): Row
    requires WellFormed(l)
  {
    Row(l.first.value, l.last.value, l.country)
  }

  /** A line is kept exactly if it is well-formed, with its own range and code. */
  lemma KeptLine(l: Line)
    ensures KeepLine(l) == if WellFormed(l) then Some(Row(l.first.value, l.last.value, l.country)) else None
  {
  }

  /** `rows` are the well-formed lines, which lie at `places`, in order. */
  ghost predicate Keeps(lines: seq<Line>, rows: seq<Row>, places: seq<nat>) {
    && |places| == |rows| && (forall p, q :: 0 <= p < q < |places| ==> places[p] < places[q])
    && (forall p :: 0 <= p < |places| ==>
          places[p] < |lines| && WellFormed(lines[places[p]]) && rows[p] == RowOf(lines[places[p]]))
    && forall i :: 0 <= i < |lines| && WellFormed(lines[i]) ==> i in places
  }

  lemma KeepsMore(lines: seq<Line>, i: nat, rows: seq<Row>, places: seq<nat>)
    requires i < |lines| && Keeps(lines[..i], rows, places)
    ensures if WellFormed(lines[i]) then Keeps(lines[..i + 1], rows + [RowOf(lines[i])], places + [i])
            else Keeps(lines[..i + 1], rows, places)
  {
  }

  method FilterRows(lines: seq<Line>) returns (rows: seq<Row>)
    ensures rows == KeptRows(lines)
    ensures exists places :: Keeps(lines, rows, places)
  {
    rows := [];
    ghost var places: seq<nat> := [];
    for i := 0 to |lines|
      invariant rows == KeptRows(lines[..i]) && Keeps(lines[..i], rows, places)
    {
      assert lines[..i + 1][..i] == lines[..i];
      KeptLine(lines[i]);
      KeepsMore(lines, i, rows, places);
      var kept := KeepLine(lines[i]);
      if kept.Some? {
        rows := rows + [kept.value];
        places := places + [i];
      }
    }
    assert lines[..|lines|] == lines;
  }

  // ---- The meaning of a list of rows --------------------------------------

  predicate Covers(r: Row, ip: int) { r.start <= ip <= r.end }

  predicate ByStart(a: Row, b: Row) { a.start <= b.start }

  /** The reference: among the rows covering `ip`, the one with the lowest start,
      the earliest in the file on a tie. */
  function NaiveRow(rows: seq<Row>, ip: int): (r: Option<Row>)
    ensures r.Some? ==> r.value in rows && Covers(r.value, ip)
  {
    if rows == [] then None
    else
      var rest := NaiveRow(rows[1..], ip);
      if Covers(rows[0], ip) && (rest.None? || rows[0].start <= rest.value.start) then Some(rows[0]) else rest
  }

  function Naive(rows: seq<Row>, ip: int): Option<string> {
    var r := NaiveRow(rows, ip);
    if r.Some? then Some(r.value.cc) else None
  }

  /** The first row of the list that covers `ip`. */
  function FirstCovering(rows: seq<Row>, ip: int): (r: Option<Row>)
    ensures r.None? <==> forall k :: 0 <= k < |rows| ==> !Covers(rows[k], ip)
    ensures r.Some? ==> r.value in rows && Covers(r.value, ip)
  {
    if rows == [] then None
    else if Covers(rows[0], ip) then Some(rows[0])
    else
      var rest := FirstCovering(rows[1..], ip);
      assert rest.None? ==> forall k :: 1 <= k < |rows| ==> rows[k] == rows[1..][k - 1];
      rest
  }

  lemma {:induction false} FirstCoveringInsert(r: Row, rows: seq<Row>, ip: int)
    requires Sorted(ByStart, rows)
    ensures FirstCovering(Insert(ByStart, r, rows), ip) ==
      var rest := FirstCovering(rows, ip);
      if Covers(r, ip) && (rest.None? || r.start <= rest.value.start) then Some(r) else rest
  {
    if rows != [] && !ByStart(r, rows[0]) {
      FirstCoveringInsert(r, rows[1..], ip);
    }
  }

  lemma {:induction false} NaiveIsFirstCovering(rows: seq<Row>, ip: int)
    ensures NaiveRow(rows, ip) == FirstCovering(Sort(ByStart, rows), ip)
  {
    if rows != [] {
      NaiveIsFirstCovering(rows[1..], ip);
      SortSorted(ByStart, rows[1..]);
      FirstCoveringInsert(rows[0], Sort(ByStart, rows[1..]), ip);
    }
  }

  lemma {:induction false} FirstCoveringAppend(rows: seq<Row>, r: Row, ip: int)
    ensures FirstCovering(rows + [r], ip) ==
      var before := FirstCovering(rows, ip);
      if before.Some? then before else if Covers(r, ip) then Some(r) else None
  {
    if rows != [] {
      FirstCoveringAppend(rows[1..], r, ip);
      assert (rows + [r])[1..] == rows[1..] + [r];
    }
  }

  // ---- The country code table ----------------------------------------------

  /** A dictionary whose values number its keys 0, 1, 2, … without gaps. */
  ghost predicate Numbering(index: map<string, nat>) {
    && (forall c :: c in index ==> index[c] < |index|)
    && (forall c, d :: c in index && d in index && index[c] == index[d] ==> c == d)
    && (forall i: nat :: i < |index| ==> Taken(index, i))
  }

  ghost predicate Taken(index: map<string, nat>, i: nat) {
    exists c :: c in index && index[c] == i
  }

  ghost predicate CodeIndexOf(index: map<string, nat>, rows: seq<Row>) {
    && Numbering(index)
    && "" in index && index[""] == 0
    && (forall r :: r in rows ==> r.cc in index)
    && (forall c :: c in index && c != "" ==> exists r :: r in rows && r.cc == c)
  }

  /** The `setdefault` loop: each new code takes the next free number. */
  method BuildCodeIndex(rows: seq<Row>) returns (index: map<string, nat>)
    ensures CodeIndexOf(index, rows)
  {
    index := map["" := 0];
    for i := 0 to |rows|
      invariant CodeIndexOf(index, rows[..i])
    {
      assert rows[..i + 1] == rows[..i] + [rows[i]];
      var cc := rows[i].cc;
      if cc !in index {
        ghost var before := index;
        index := index[cc := |index|];
        assert rows[i] in rows[..i + 1];
        forall n: nat | n < |index| ensures Taken(index, n) {
          if n < |before| {
            assert Taken(before, n);
            var c :| c in before && before[c] == n;
            assert index[c] == n;
          } else {
            assert index[cc] == n;
          }
        }
      }
    }
    assert rows[..|rows|] == rows;
  }

  /** Position i of the table holds the code numbered i. */
  ghost predicate CodeTableOf(codes: seq<string>, index: map<string, nat>) {
    && |codes| == |index|
    && forall i :: 0 <= i < |codes| ==> codes[i] in index && index[codes[i]] == i
  }

  /** `sorted(cc_index, key=cc_index.get)`. */
  method SortCodes(index: map<string, nat>) returns (codes: seq<string>)
    requires Numbering(index)
    ensures CodeTableOf(codes, index)
  {
    codes := [];
    while |codes| < |index|
      invariant |codes| <= |index|
      invariant forall i :: 0 <= i < |codes| ==> codes[i] in index && index[codes[i]] == i
    {
      assert Taken(index, |codes|);
      var c :| c in index && index[c] == |codes|;
      codes := codes + [c];
    }
  }

  // ---- No table of real codes can overflow the 16-bit count ----------------

  function CodeNumber(cc: string): int {
    if |cc| == 2 then 26 * (cc[0] as int - 'A' as int) + (cc[1] as int - 'A' as int) else -1
  }

  lemma {:induction false} DistinctBelow(s: set<int>, n: nat)
    requires forall x :: x in s ==> 0 <= x < n
    ensures |s| <= n
  {
    if n == 0 {
      assert forall x :: x !in s;
      assert s == {};
    } else {
      DistinctBelow(s - {n - 1}, n - 1);
    }
  }

  lemma {:induction false} ImageSize<A>(s: set<A>, f: A -> int)
    requires forall a, b :: a in s && b in s && f(a) == f(b) ==> a == b
    ensures |s| == |set a | a in s :: f(a)|
  {
    if s != {} {
      var a :| a in s;
      ImageSize(s - {a}, f);
      assert (set x | x in s :: f(x)) == (set x | x in s - {a} :: f(x)) + {f(a)};
    }
  }

  lemma FewKeys<A>(s: set<A>, f: A -> int, n: nat)
    requires forall a :: a in s ==> 0 <= f(a) < n
    requires forall a, b :: a in s && b in s && f(a) == f(b) ==> a == b
    ensures |s| <= n
  {
    ImageSize(s, f);
    DistinctBelow(set a | a in s :: f(a), n);
  }

  lemma CodeNumberInjective(a: string, b: string)
    requires CountryCode(a) && CountryCode(b)
    ensures 0 <= CodeNumber(a) < 676
    ensures CodeNumber(a) == CodeNumber(b) ==> a == b
  {
    assert a == [a[0], a[1]] && b == [b[0], b[1]];
  }

  /** 26 * 26 two-letter codes and the empty one: the "too many country codes"
      guard of the build can never fire. */
  lemma CodesFit(index: map<string, nat>, rows: seq<Row>)
    requires ValidRows(rows) && CodeIndexOf(index, rows)
    ensures |index| <= 677
  {
    var keys := index.Keys - {""};
    forall c, d | c in keys && d in keys
      ensures 0 <= CodeNumber(c) < 676 && (CodeNumber(c) == CodeNumber(d) ==> c == d)
    {
      assert (exists r :: r in rows && r.cc == c) && (exists r :: r in rows && r.cc == d);
      CodeNumberInjective(c, d);
    }
    FewKeys(keys, CodeNumber, 676);
    assert index.Keys == keys + {""};
    assert |index| == |index.Keys|;
  }

  // ---- The record table -----------------------------------------------------

  datatype Rec = Rec(start: int, idx: nat)

  ghost predicate Increasing(recs: seq<Rec>) {
    forall i, j :: 0 <= i < j < |recs| ==> recs[i].start < recs[j].start
  }

  /** A gap-free table of the 32-bit address space. */
  ghost predicate Table(recs: seq<Rec>) {
    && Increasing(recs)
    && (forall i :: 0 <= i < |recs| ==> 0 <= recs[i].start <= LAST_ADDRESS)
    && recs != [] && recs[0].start == 0
  }

  /** What a table says about `ip`: the index of its last record starting at or before it. */
  function At(recs: seq<Rec>, ip: int): Option<nat> {
    if recs == [] then None
    else if recs[|recs| - 1].start <= ip then Some(recs[|recs| - 1].idx)
    else At(recs[..|recs| - 1], ip)
  }

  lemma AtAppend(recs: seq<Rec>, r: Rec, ip: int)
    ensures At(recs + [r], ip) == if r.start <= ip then Some(r.idx) else At(recs, ip)
  {
    assert (recs + [r])[..|recs|] == recs;
  }

  lemma {:induction false} AtIndex(recs: seq<Rec>, k: nat, ip: int)
    requires k < |recs| && recs[k].start <= ip
    requires forall j :: k < j < |recs| ==> ip < recs[j].start
    ensures At(recs, ip) == Some(recs[k].idx)
  {
    if k < |recs| - 1 {
      AtIndex(recs[..|recs| - 1], k, ip);
    }
  }

  /** The code index the rows give to `ip`, 0 standing for "no row covers it". */
  function IndexFor(rows: seq<Row>, index: map<string, nat>, ip: int): nat
    requires forall r :: r in rows ==> r.cc in index
  {
    var r := FirstCovering(rows, ip);
    if r.Some? then index[r.value.cc] else 0
  }

  ghost predicate Agrees(recs: seq<Rec>, rows: seq<Row>, index: map<string, nat>, cursor: int)
    requires forall r :: r in rows ==> r.cc in index
  {
    forall ip :: 0 <= ip < cursor ==> At(recs, ip) == Some(IndexFor(rows, index, ip))
  }

  /** The state of the sweep after some rows: everything below `cursor` is settled. */
  ghost predicate Swept(recs: seq<Rec>, rows: seq<Row>, index: map<string, nat>, cursor: int)
    requires forall r :: r in rows ==> r.cc in index
  {
    && 0 <= cursor <= LAST_ADDRESS + 1
    && (if recs == [] then cursor == 0 else Table(recs) && recs[|recs| - 1].start < cursor)
    && |recs| <= 2 * |rows|
    && Agrees(recs, rows, index, cursor)
    && (forall k :: 0 <= k < |rows| ==> rows[k].end < cursor)
    // an address that was left as a hole lies before the start of the latest row
    && (forall ip :: 0 <= ip < cursor && FirstCovering(rows, ip).None? ==>
          rows != [] && ip < rows[|rows| - 1].start)
  }

  lemma SweptSkip(recs: seq<Rec>, rows: seq<Row>, index: map<string, nat>, cursor: int, r: Row)
    requires ValidRow(r) && r.cc in index && (forall q :: q in rows ==> q.cc in index)
    requires Swept(recs, rows, index, cursor)
    requires forall k :: 0 <= k < |rows| ==> rows[k].start <= r.start
    requires r.end < cursor
    ensures Swept(recs, rows + [r], index, cursor)
  {
    forall ip | 0 <= ip < cursor
      ensures FirstCovering(rows + [r], ip) == FirstCovering(rows, ip)
    {
      FirstCoveringAppend(rows, r, ip);
      if FirstCovering(rows, ip).None? {
        assert ip < rows[|rows| - 1].start <= r.start;
      }
    }
  }

  /** The records a row adds: an optional hole, then the part not yet covered. */
  function AddRow(recs: seq<Rec>, cursor: int, r: Row, idx: nat): seq<Rec> {
    if r.start > cursor then recs + [Rec(cursor, 0)] + [Rec(r.start, idx)]
    else recs + [Rec(cursor, idx)]
  }

  lemma AddRowAt(recs: seq<Rec>, cursor: int, r: Row, idx: nat, ip: int)
    ensures At(AddRow(recs, cursor, r, idx), ip) ==
            if ip >= r.start && ip >= cursor then Some(idx)
            else if ip >= cursor then Some(0)
            else At(recs, ip)
  {
    if r.start > cursor {
      AtAppend(recs, Rec(cursor, 0), ip);
      AtAppend(recs + [Rec(cursor, 0)], Rec(r.start, idx), ip);
    } else {
      AtAppend(recs, Rec(cursor, idx), ip);
    }
  }

  lemma SweptAdd(recs: seq<Rec>, rows: seq<Row>, index: map<string, nat>, cursor: int, r: Row)
    requires ValidRow(r) && r.cc in index && (forall q :: q in rows ==> q.cc in index)
    requires Swept(recs, rows, index, cursor)
    requires forall k :: 0 <= k < |rows| ==> rows[k].start <= r.start
    requires cursor <= r.end
    ensures Swept(AddRow(recs, cursor, r, index[r.cc]), rows + [r], index, r.end + 1)
  {
    var recs', rows' := AddRow(recs, cursor, r, index[r.cc]), rows + [r];
    forall ip | 0 <= ip < r.end + 1
      ensures At(recs', ip) == Some(IndexFor(rows', index, ip))
      ensures FirstCovering(rows', ip).None? ==> ip < r.start
    {
      AddRowAt(recs, cursor, r, index[r.cc], ip);
      FirstCoveringAppend(rows, r, ip);
      if ip < cursor && FirstCovering(rows, ip).None? {
        assert ip < rows[|rows| - 1].start <= r.start;
      }
    }
    assert Agrees(recs', rows', index, r.end + 1);
  }

  /** Records and cursor after one more row. */
  function SweepRow(recs: seq<Rec>, cursor: int, r: Row, idx: nat): (seq<Rec>, int) {
    if r.end < cursor then (recs, cursor) else (AddRow(recs, cursor, r, idx), r.end + 1)
  }

  lemma SweptRow(recs: seq<Rec>, rows: seq<Row>, i: nat, index: map<string, nat>, cursor: int)
    requires ValidRows(rows) && Sorted(ByStart, rows) && (forall r :: r in rows ==> r.cc in index)
    requires i < |rows| && Swept(recs, rows[..i], index, cursor)
    ensures var (recs', cursor') := SweepRow(recs, cursor, rows[i], index[rows[i].cc]);
      Swept(recs', rows[..i + 1], index, cursor')
  {
    assert rows[..i + 1] == rows[..i] + [rows[i]];
    if rows[i].end < cursor {
      SweptSkip(recs, rows[..i], index, cursor, rows[i]);
    } else {
      SweptAdd(recs, rows[..i], index, cursor, rows[i]);
    }
  }

  /** After the last row one more record may cover the rest of the addresses. */
  lemma SweptEnd(recs: seq<Rec>, rows: seq<Row>, index: map<string, nat>, cursor: int)
    requires (forall r :: r in rows ==> r.cc in index) && Swept(recs, rows, index, cursor)
    ensures var all := if cursor <= LAST_ADDRESS then recs + [Rec(cursor, 0)] else recs;
      Table(all) && |all| <= 2 * |rows| + 1 && Agrees(all, rows, index, LAST_ADDRESS + 1)
  {
    if cursor <= LAST_ADDRESS {
      forall ip | 0 <= ip <= LAST_ADDRESS
        ensures At(recs + [Rec(cursor, 0)], ip) == Some(IndexFor(rows, index, ip))
      {
        AtAppend(recs, Rec(cursor, 0), ip);
      }
    }
  }

  /** Flattens sorted, possibly overlapping rows to a gap-free table. */
  method Sweep(rows: seq<Row>, index: map<string, nat>) returns (recs: seq<Rec>)
    requires ValidRows(rows) && Sorted(ByStart, rows)
    requires forall r :: r in rows ==> r.cc in index
    ensures Table(recs)
    ensures |recs| <= 2 * |rows| + 1
    ensures forall ip :: 0 <= ip <= LAST_ADDRESS ==> At(recs, ip) == Some(IndexFor(rows, index, ip))
  {
    recs := [];
    var cursor := 0;
    for i := 0 to |rows|
      invariant Swept(recs, rows[..i], index, cursor)
    {
      SweptRow(recs, rows, i, index, cursor);
      ghost var before := recs;
      var r := rows[i];
      if r.start > cursor {
        recs := recs + [Rec(cursor, 0)];
      }
      var s := if r.start > cursor then r.start else cursor;
      if s > r.end {
        continue;
      }
      recs := recs + [Rec(s, index[r.cc])];
      assert recs == AddRow(before, cursor, r, index[r.cc]);
      cursor := r.end + 1;
    }
    assert rows[..|rows|] == rows;
    SweptEnd(recs, rows, index, cursor);
    if cursor <= LAST_ADDRESS {
      recs := recs + [Rec(cursor, 0)];
    }
  }

  // ---- Coalescing -------------------------------------------------------------

  ghost predicate Coalesced(recs: seq<Rec>) {
    forall i :: 0 < i < |recs| ==> recs[i - 1].idx != recs[i].idx
  }

  /** Drops each record whose predecessor names the same country. */
  method Coalesce(recs: seq<Rec>) returns (dedup: seq<Rec>)
    requires Table(recs)
    ensures Table(dedup) && Coalesced(dedup)
    ensures |dedup| <= |recs|
    ensures forall ip :: At(dedup, ip) == At(recs, ip)
  {
    dedup := [];
    for i := 0 to |recs|
      invariant i == 0 <==> dedup == []
      invariant dedup != [] ==> Table(dedup) && dedup[|dedup| - 1].start <= recs[i - 1].start
      invariant Coalesced(dedup) && |dedup| <= i
      invariant forall ip :: At(dedup, ip) == At(recs[..i], ip)
    {
      var r := recs[i];
      assert recs[..i + 1] == recs[..i] + [r];
      forall ip ensures At(recs[..i + 1], ip) == if r.start <= ip then Some(r.idx) else At(recs[..i], ip)
                ensures At(dedup + [r], ip) == if r.start <= ip then Some(r.idx) else At(dedup, ip)
      {
        AtAppend(recs[..i], r, ip);
        AtAppend(dedup, r, ip);
      }
      if dedup != [] && dedup[|dedup| - 1].idx == r.idx {
        continue;
      }
      dedup := dedup + [r];
    }
    assert recs[..|recs|] == recs;
  }

  // ---- No smaller table says the same -----------------------------------------

  ghost predicate Distinct(codes: seq<string>) {
    forall i, j :: 0 <= i < j < |codes| ==> codes[i] != codes[j]
  }

  /** The table names a code of the list for `ip`. */
  function NameAt(codes: seq<string>, recs: seq<Rec>, ip: int): Option<string> {
    if At(recs, ip).Some? && At(recs, ip).value < |codes| then Some(codes[At(recs, ip).value]) else None
  }

  /** Two tables, each with its own list of codes, name the same country for every address. */
  ghost predicate SameMeaning(codes: seq<string>, a: seq<Rec>, codes': seq<string>, b: seq<Rec>) {
    forall ip :: 0 <= ip <= LAST_ADDRESS ==> NameAt(codes, a, ip).Some? && NameAt(codes, a, ip) == NameAt(codes', b, ip)
  }

  function Starts(recs: seq<Rec>): set<int> {
    set i | 0 <= i < |recs| :: recs[i].start
  }

  lemma {:induction false} StartsSize(recs: seq<Rec>)
    requires Increasing(recs)
    ensures |Starts(recs)| == |recs|
  {
    if recs != [] {
      var n := |recs| - 1;
      StartsSize(recs[..n]);
      assert Starts(recs) == Starts(recs[..n]) + {recs[n].start};
    }
  }

  /** A table answers differently at `ip` than just before only where a record starts. */
  lemma {:induction false} ChangeIsStart(recs: seq<Rec>, ip: int)
    requires At(recs, ip) != At(recs, ip - 1)
    ensures ip in Starts(recs)
  {
    var n := |recs| - 1;
    if recs[n].start != ip {
      ChangeIsStart(recs[..n], ip);
      var i :| 0 <= i < n && recs[..n][i].start == ip;
      assert recs[i].start == ip;
    }
  }

  /** Every record of a coalesced table after the first marks a change of country. */
  lemma CoalescedChanges(d: seq<Rec>, k: nat)
    requires Table(d) && Coalesced(d) && 0 < k < |d|
    ensures At(d, d[k].start) != At(d, d[k].start - 1)
  {
    AtIndex(d, k, d[k].start);
    AtIndex(d, k - 1, d[k].start - 1);
  }

  /** And so of country named. */
  lemma NameChanges(codes: seq<string>, d: seq<Rec>, codes': seq<string>, t: seq<Rec>, k: nat)
    requires Table(d) && Coalesced(d) && Distinct(codes) && SameMeaning(codes, d, codes', t) && 0 < k < |d|
    ensures At(t, d[k].start) != At(t, d[k].start - 1)
  {
    CoalescedChanges(d, k);
    var ip := d[k].start;
    assert d[k - 1].start < ip;
    assert NameAt(codes, d, ip) == NameAt(codes', t, ip) && NameAt(codes, d, ip - 1) == NameAt(codes', t, ip - 1);
  }

  /** No gap-free table, whatever its list of codes, names the same countries with fewer records. */
  lemma CoalescedIsMinimal(codes: seq<string>, d: seq<Rec>, codes': seq<string>, t: seq<Rec>)
    requires Table(d) && Coalesced(d) && Distinct(codes)
    requires Table(t) && SameMeaning(codes, d, codes', t)
    ensures |d| <= |t|
  {
    forall s | s in Starts(d) ensures s in Starts(t) {
      var k :| 0 <= k < |d| && d[k].start == s;
      if k == 0 {
        assert t[0].start == s;
      } else {
        NameChanges(codes, d, codes', t, k);
        ChangeIsStart(t, s);
      }
    }
    StartsSize(d);
    StartsSize(t);
    SubsetSize(Starts(d), Starts(t));
  }
}
