/** The build and the lookup together. */
module GeoIndex {
  import opened Wrappers
  import opened StableSort
  import opened GeoTable
  import opened GeoAsset
  import opened GeoService

  ghost predicate Fits(codes: seq<string>, recs: seq<Rec>) {
    TableCodes(codes) && |codes| < 0x1_0000 && Packable(recs) && |recs| < 0x1_0000_0000
  }

  lemma NoError(codes: seq<string>, recs: seq<Rec>)
    requires Fits(codes, recs)
    ensures FirstError(Asset(codes, recs)).None?
    ensures U16(Asset(codes, recs), 4) == |codes| && U32(Asset(codes, recs), 6 + 2 * |codes|) == |recs|
  {
    AssetHeader(codes, recs);
  }

  lemma CodesRead(codes: seq<string>, recs: seq<Rec>, s: GeoIpService)
    requires Fits(codes, recs) && FirstError(Asset(codes, recs)).None? && ReadFrom(s, Asset(codes, recs))
    ensures s.codes == codes
  {
    NoError(codes, recs);
    forall i | 0 <= i < |codes| ensures s.codes[i] == codes[i] {
      AssetCode(codes, recs, i);
    }
  }

  lemma RecordsRead(codes: seq<string>, recs: seq<Rec>, s: GeoIpService)
    requires Fits(codes, recs) && FirstError(Asset(codes, recs)).None? && ReadFrom(s, Asset(codes, recs))
    ensures |s.starts| == |s.codeIndex| && s.Records() == recs
  {
    NoError(codes, recs);
    forall i | 0 <= i < |recs| ensures s.starts[i] == recs[i].start && s.codeIndex[i] == recs[i].idx {
      AssetRecord(codes, recs, i);
    }
    assert |s.Records()| == |recs|;
  }

  /** `parseBytes` undoes packing: same codes, same records. */
  lemma ParseUndoesPack(codes: seq<string>, recs: seq<Rec>, s: GeoIpService)
    requires TableCodes(codes) && |codes| < 0x1_0000
    requires Packable(recs) && |recs| < 0x1_0000_0000
    ensures FirstError(Asset(codes, recs)).None?
    ensures ReadFrom(s, Asset(codes, recs)) ==> s.codes == codes && s.Records() == recs
  {
    NoError(codes, recs);
    if ReadFrom(s, Asset(codes, recs)) {
      CodesRead(codes, recs, s);
      RecordsRead(codes, recs, s);
    }
  }

  /** The parts of an asset: magic, two bytes of count, the codes, four bytes of count, the records. */
  ghost predicate LaidOut(b: seq<byte>, nCc: seq<byte>, codes: seq<byte>, count: seq<byte>, records: seq<byte>,
                          rest: seq<byte>) {
    && b == ['W' as int, 'G' as int, 'I' as int, '2' as int] + nCc + codes + count + records + rest
    && |nCc| == 2 && |codes| == 2 * Little(nCc) && |count| == 4 && |records| == 6 * Little(count)
  }

  lemma LittleAt(b: seq<byte>, off: nat)
    ensures off + 2 <= |b| ==> Little(b[off..off + 2]) == U16(b, off)
    ensures off + 4 <= |b| ==> Little(b[off..off + 4]) == U32(b, off)
  {
    if off + 2 <= |b| {
      LittleTwo(b[off], b[off + 1], []);
      assert b[off..off + 2] == [b[off], b[off + 1]] + [];
    }
    if off + 4 <= |b| {
      var t := b[off + 2..off + 4];
      LittleTwo(b[off], b[off + 1], t);
      LittleTwo(t[0], t[1], []);
      assert t == [t[0], t[1]] + [] && b[off..off + 4] == [b[off], b[off + 1]] + t;
    }
  }

  lemma ParsesIfLaidOut(b: seq<byte>, nCc: seq<byte>, codes: seq<byte>, count: seq<byte>, records: seq<byte>,
                        rest: seq<byte>)
    requires LaidOut(b, nCc, codes, count, records, rest)
    ensures FirstError(b).None?
  {
    PartsAt(MAGIC, nCc, codes, count, records + rest, b);
    LittleAt(b, 4);
    LittleAt(b, 6 + |codes|);
  }

  lemma LaidOutIfParses(b: seq<byte>, n: nat, m: nat)
    requires FirstError(b).None? && n == 6 + 2 * U16(b, 4) && m == n + 4 + 6 * U32(b, n)
    ensures 6 <= n && n + 4 <= m <= |b| && LaidOut(b, b[4..6], b[6..n], b[n..n + 4], b[n + 4..m], b[m..])
  {
    LittleAt(b, 4);
    LittleAt(b, n);
    SixParts(b, n, m);
  }

  lemma SixParts<T>(b: seq<T>, n: nat, m: nat)
    requires 6 <= n && n + 4 <= m <= |b|
    ensures b == b[..4] + b[4..6] + b[6..n] + b[n..n + 4] + b[n + 4..m] + b[m..]
  {
    assert b == b[..4] + b[4..];
    assert b[..4] + b[4..6] == b[..6];
    assert b[..6] + b[6..n] == b[..n];
    assert b[..n] + b[n..n + 4] == b[..n + 4];
    assert b[..n + 4] + b[n + 4..m] == b[..m];
    assert b[..m] + b[m..] == b;
  }

  /** The parser accepts exactly the byte strings with these parts, and whatever follows them. */
  lemma ParsesExactly(b: seq<byte>)
    ensures FirstError(b).None? <==>
      exists nCc, codes, count, records, rest :: LaidOut(b, nCc, codes, count, records, rest)
  {
    if FirstError(b).None? {
      var n := 6 + 2 * U16(b, 4);
      var m := n + 4 + 6 * U32(b, n);
      LaidOutIfParses(b, n, m);
      assert LaidOut(b, b[4..6], b[6..n], b[n..n + 4], b[n + 4..m], b[m..]);
    }
    forall nCc, codes, count, records, rest | LaidOut(b, nCc, codes, count, records, rest) ensures FirstError(b).None? {
      ParsesIfLaidOut(b, nCc, codes, count, records, rest);
    }
  }

  /** The table names, for every address, the country of the row the reference picks. */
  ghost predicate Names(codes: seq<string>, recs: seq<Rec>, rows: seq<Row>) {
    forall ip :: 0 <= ip <= LAST_ADDRESS ==> NameAt(codes, recs, ip) == Some(Naive(rows, ip).GetOr(""))
  }

  /** The code table of `rows`: "" first and nowhere else, every row's code at its number. */
  ghost predicate CodesFor(codes: seq<string>, index: map<string, nat>, rows: seq<Row>) {
    && TableCodes(codes) && Distinct(codes) && 0 < |codes| <= 677
    && codes[0] == "" && (forall i :: 0 < i < |codes| ==> CountryCode(codes[i]))
    && forall r :: r in rows ==> r.cc in index && index[r.cc] < |codes| && codes[index[r.cc]] == r.cc
  }

  lemma CodesPackable(codes: seq<string>, index: map<string, nat>, rows: seq<Row>)
    requires ValidRows(rows) && CodeIndexOf(index, rows) && CodeTableOf(codes, index)
    ensures CodesFor(codes, index, rows)
  {
    CodesFit(index, rows);
    forall i | 0 <= i < |codes| ensures codes[i] == "" || CountryCode(codes[i]) {
      if codes[i] != "" {
        assert exists r :: r in rows && r.cc == codes[i];
      }
    }
    assert |index| > 0 by { assert "" in index; }
  }

  method NumberCodes(rows: seq<Row>) returns (index: map<string, nat>, codes: seq<string>)
    requires ValidRows(rows)
    ensures CodesFor(codes, index, rows) && |codes| == |index|
  {
    index := BuildCodeIndex(rows);
    codes := SortCodes(index);
    CodesPackable(codes, index, rows);
  }

  /** What the finished table holds: every country once, a gap-free table that names what the
      reference picks, and neighbours that name different countries. */
  ghost predicate TableFor(codes: seq<string>, recs: seq<Rec>, rows: seq<Row>) {
    && TableCodes(codes) && Distinct(codes) && 0 < |codes| <= 677
    && codes[0] == "" && (forall i :: 0 < i < |codes| ==> CountryCode(codes[i]))
    && Table(recs) && Coalesced(recs) && |recs| <= 2 * |rows| + 1
    && Names(codes, recs, rows)
  }

  lemma IndexNamed(codes: seq<string>, recs: seq<Rec>, rows: seq<Row>, k: nat)
    requires TableFor(codes, recs, rows) && k < |recs|
    ensures recs[k].idx < |codes|
  {
    AtIndex(recs, k, recs[k].start);
    assert NameAt(codes, recs, recs[k].start).Some?;
  }

  lemma NeighboursDiffer(codes: seq<string>, recs: seq<Rec>, rows: seq<Row>, k: nat)
    requires TableFor(codes, recs, rows) && 0 < k < |recs|
    ensures recs[k - 1].idx < |codes| && recs[k].idx < |codes| && codes[recs[k - 1].idx] != codes[recs[k].idx]
  {
    IndexNamed(codes, recs, rows, k - 1);
    IndexNamed(codes, recs, rows, k);
  }

  /** No gap-free table with any code list of its own that names the same countries has fewer
      records. */
  lemma BuiltIsMinimal(codes: seq<string>, recs: seq<Rec>, rows: seq<Row>, codes': seq<string>, recs': seq<Rec>)
    requires TableFor(codes, recs, rows) && Table(recs') && Names(codes', recs', rows)
    ensures |recs| <= |recs'|
  {
    CoalescedIsMinimal(codes, recs, codes', recs');
  }

  lemma RecordsNameCodes(codes: seq<string>, recs: seq<Rec>, rows: seq<Row>)
    requires TableFor(codes, recs, rows)
    ensures Packable(recs) && forall k :: 0 <= k < |recs| ==> recs[k].idx < |codes|
  {
    forall k | 0 <= k < |recs| ensures recs[k].idx < |codes| {
      IndexNamed(codes, recs, rows, k);
    }
  }

  lemma SortedRowsSameMembers(rows: seq<Row>)
    ensures forall row :: row in Sort(ByStart, rows) <==> row in rows
  {
    var sorted := Sort(ByStart, rows);
    forall row ensures row in sorted <==> row in rows {
      assert row in sorted <==> row in multiset(sorted);
      assert row in rows <==> row in multiset(rows);
    }
  }

  lemma SweptTableMeaning(codes: seq<string>, recs: seq<Rec>, rows: seq<Row>, index: map<string, nat>)
    requires CodesFor(codes, index, Sort(ByStart, rows))
    requires Table(recs) && Coalesced(recs) && |recs| <= 2 * |rows| + 1
    requires forall ip :: 0 <= ip <= LAST_ADDRESS ==> At(recs, ip) == Some(IndexFor(Sort(ByStart, rows), index, ip))
    ensures TableFor(codes, recs, rows)
  {
    forall ip | 0 <= ip <= LAST_ADDRESS
      ensures NameAt(codes, recs, ip) == Some(Naive(rows, ip).GetOr(""))
    {
      NaiveIsFirstCovering(rows, ip);
    }
  }

  /** The table half of `main`: sort, number the codes, sweep, coalesce. */
  method BuildTable(rows: seq<Row>) returns (r: Result<(seq<string>, seq<Rec>), BuildError>)
    requires ValidRows(rows)
    ensures r.Ok? && TableFor(r.value.0, r.value.1, rows)
  {
    var sorted := Sort(ByStart, rows);
    SortSorted(ByStart, rows);
    SortedRowsSameMembers(rows);
    assert ValidRows(sorted) by {
      assert forall i :: 0 <= i < |sorted| ==> sorted[i] in sorted;
    }
    var index, codes := NumberCodes(sorted);
    if |index| > 0xFFFF {
      return Err(TooManyCodes);
    }
    var recs := Sweep(sorted, index);
    var dedup := Coalesce(recs);
    SweptTableMeaning(codes, dedup, rows, index);
    return Ok((codes, dedup));
  }

  method BuildAsset(rows: seq<Row>)
    returns (r: Result<seq<byte>, BuildError>, ghost codes: seq<string>, ghost recs: seq<Rec>)
    requires ValidRows(rows)
    ensures TableFor(codes, recs, rows) && Packable(recs)
    ensures r.Ok? <==> |recs| < 0x1_0000_0000
    ensures r.Ok? ==> r.value == Asset(codes, recs)
  {
    var built := BuildTable(rows);
    codes, recs := built.value.0, built.value.1;
    RecordsNameCodes(codes, recs, rows);
    r := Pack(built.value.0, built.value.1);
  }

  // ---- The answer in terms of the source lines --------------------------------------------------------

  predicate LineCovers(l: Line, ip: int) {
    WellFormed(l) && l.first.value <= ip <= l.last.value
  }

  /** Line `i` covers `ip`, and no other line that does starts lower, or as low and earlier. */
  ghost predicate Wins(lines: seq<Line>, ip: int, i: nat) {
    && i < |lines| && LineCovers(lines[i], ip)
    && forall j :: 0 <= j < |lines| && LineCovers(lines[j], ip) ==>
         lines[i].first.value < lines[j].first.value || (lines[i].first.value == lines[j].first.value && i <= j)
  }

  lemma {:induction false} NaiveAppend(rows: seq<Row>, r: Row, ip: int)
    ensures NaiveRow(rows + [r], ip) ==
      var before := NaiveRow(rows, ip);
      if before.Some? && (before.value.start <= r.start || !Covers(r, ip)) then before
      else if Covers(r, ip) then Some(r) else None
  {
    if rows == [] {
      assert ([] + [r])[1..] == [];
    } else {
      NaiveAppend(rows[1..], r, ip);
      assert (rows + [r])[1..] == rows[1..] + [r];
    }
  }

  /** The line that wins against one more line. */
  function Better(lines: seq<Line>, w: int, l: Line, ip: int): int
    requires w < |lines|
    requires w >= 0 ==> WellFormed(lines[w])
  {
    if LineCovers(l, ip) && (w < 0 || l.first.value < lines[w].first.value) then |lines| else w
  }

  ghost predicate Winner(lines: seq<Line>, ip: int, w: int) {
    if w < 0 then forall i :: 0 <= i < |lines| ==> !LineCovers(lines[i], ip) else Wins(lines, ip, w)
  }

  lemma WinnerOfMore(lines: seq<Line>, l: Line, ip: int, w: int)
    requires Winner(lines, ip, w)
    ensures Winner(lines + [l], ip, Better(lines, w, l, ip))
  {
  }

  lemma KeptRowsOfMore(lines: seq<Line>, l: Line)
    ensures KeptRows(lines + [l]) == if WellFormed(l) then KeptRows(lines) + [RowOf(l)] else KeptRows(lines)
  {
    assert (lines + [l])[..|lines|] == lines;
    KeptLine(l);
  }

  /** The scan of the kept rows answers with the line that wins, and with none exactly if no line
      covers the address. */
  lemma {:induction false} ScanFindsWinner(lines: seq<Line>, ip: int) returns (w: int)
    ensures if w < 0 then forall i :: 0 <= i < |lines| ==> !LineCovers(lines[i], ip) else Wins(lines, ip, w)
    ensures NaiveRow(KeptRows(lines), ip) == if w < 0 then None else Some(RowOf(lines[w]))
  {
    if lines == [] {
      w := -1;
    } else {
      var n := |lines| - 1;
      var init, l := lines[..n], lines[n];
      var before := ScanFindsWinner(init, ip);
      assert lines == init + [l];
      w := Better(init, before, l, ip);
      WinnerOfMore(init, l, ip, before);
      KeptRowsOfMore(init, l);
      if WellFormed(l) {
        NaiveAppend(KeptRows(init), RowOf(l), ip);
      }
      assert 0 <= w < n ==> lines[w] == init[w];
    }
  }

  ghost predicate AnswersLines(lines: seq<Line>, ip: int, answer: Option<string>) {
    if answer.Some? then exists i: nat :: Wins(lines, ip, i) && answer.value == lines[i].country
    else forall i :: 0 <= i < |lines| ==> !LineCovers(lines[i], ip)
  }

  /** From source lines to a looked-up country: the answer of the packed index is the code of the
      well-formed line with the lowest start that covers the address, the earliest on a tie, and none
      exactly if no line covers it. */
  method IndexAnswersAsScan(lines: seq<Line>, ip: int) returns (r: Result<Option<string>, BuildError>)
    requires 0 <= ip <= LAST_ADDRESS
    ensures 2 * |KeptRows(lines)| + 1 < 0x1_0000_0000 ==> r.Ok?
    ensures r.Ok? ==> r.value == Naive(KeptRows(lines), ip) && AnswersLines(lines, ip, r.value)
  {
    var rows := FilterRows(lines);
    var asset, codes, recs := BuildAsset(rows);
    if asset.Err? {
      return Err(asset.error);
    }
    ghost var any := GeoIpService([], [], []);
    ParseUndoesPack(codes, recs, any);
    var parsed := ParseBytes(asset.value);
    ParseUndoesPack(codes, recs, parsed.value);
    RecordsNameCodes(codes, recs, rows);
    var service := parsed.value;
    ghost var read := service.Records();
    forall i | 0 <= i < |service.codeIndex| ensures service.codeIndex[i] < |service.codes| {
      assert read[i].idx == service.codeIndex[i];
    }
    var answer := service.LookupIp(ip);
    assert Naive(rows, ip).Some? ==> CountryCode(Naive(rows, ip).value);
    var winner := ScanFindsWinner(lines, ip);
    assert winner >= 0 ==> Wins(lines, ip, winner);
    return Ok(answer.value);
  }
}
