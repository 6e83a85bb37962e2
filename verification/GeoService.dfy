/** Parsing and searching the asset. Follows app/lib/data/geoip_service.dart. */
module GeoService {
  import opened Wrappers
  import opened GeoTable
  import opened GeoAsset

  datatype ParseError = BadMagic | OutOfRange | Truncated

  predicate GoodMagic(b: seq<byte>) { |b| >= 10 && b[..4] == MAGIC }

  /** The first error the reader would meet, if any. */
  function FirstError(b: seq<byte>): Option<ParseError> {
    if !GoodMagic(b) then Some(BadMagic)
    else if 10 + 2 * U16(b, 4) > |b| then Some(OutOfRange)
    else if 10 + 2 * U16(b, 4) + 6 * U32(b, 6 + 2 * U16(b, 4)) > |b| then Some(Truncated)
    else None
  }

  /** `s` holds exactly what the layout places in `b`. */
  ghost predicate ReadFrom(s: GeoIpService, b: seq<byte>)
    requires FirstError(b).None?
  {
    var n := U16(b, 4);
    && |s.codes| == n
    && (forall i :: 0 <= i < n ==> s.codes[i] == CodeOf(b[6 + 2 * i], b[7 + 2 * i]))
    && |s.starts| == |s.codeIndex| == U32(b, 6 + 2 * n)
    && (forall i :: 0 <= i < |s.starts| ==>
          && s.starts[i] == U32(b, 10 + 2 * n + 6 * i)
          && s.codeIndex[i] == U16(b, 14 + 2 * n + 6 * i))
  }

  method ReadRecords(b: seq<byte>, base: nat, count: nat) returns (starts: array<int>, idx: array<nat>)
    requires base + 6 * count <= |b|
    ensures starts.Length == idx.Length == count
    ensures forall i :: 0 <= i < count ==>
              starts[i] == U32(b, base + 6 * i) && idx[i] == U16(b, base + 6 * i + 4)
  {
    starts, idx := new int[count], new nat[count];
    var off := base;
    for i := 0 to count
      invariant off == base + 6 * i
      invariant forall k :: 0 <= k < i ==>
        starts[k] == U32(b, base + 6 * k) && idx[k] == U16(b, base + 6 * k + 4)
    {
      starts[i] := U32(b, off);
      idx[i] := U16(b, off + 4);
      off := off + 6;
    }
  }

  method ParseBytes(b: seq<byte>) returns (r: Result<GeoIpService, ParseError>)
    ensures r.Ok? <==> FirstError(b).None?
    ensures r.Err? ==> FirstError(b) == Some(r.error)
    ensures r.Ok? ==> ReadFrom(r.value, b)
  {
    if |b| < 10 || b[0] != 0x57 || b[1] != 0x47 || b[2] != 0x49 || b[3] != 0x32 {
      return Err(BadMagic);
    }
    var nCc := U16(b, 4);
    var off := 6;
    var codes: seq<string> := [];
    for i := 0 to nCc
      invariant off == 6 + 2 * i && |codes| == i
      invariant off <= |b|
      invariant forall k :: 0 <= k < i ==> codes[k] == CodeOf(b[6 + 2 * k], b[7 + 2 * k])
    {
      if off + 1 >= |b| {
        return Err(OutOfRange);
      }
      codes := codes + [CodeOf(b[off], b[off + 1])];
      off := off + 2;
    }
    if off + 4 > |b| {
      return Err(OutOfRange);
    }
    var count := U32(b, off);
    off := off + 4;
    if off + count * 6 > |b| {
      return Err(Truncated);
    }
    var starts, idx := ReadRecords(b, off, count);
    return Ok(GeoIpService(starts[..], idx[..], codes));
  }

  datatype GeoIpService = GeoIpService(starts: seq<int>, codeIndex: seq<nat>, codes: seq<string>)
  {
    function Records(): seq<Rec>
      requires |starts| == |codeIndex|
    {
      seq(|starts|, i requires 0 <= i < |starts| => Rec(starts[i], codeIndex[i]))
    }

    /** What a table answers: nothing before its first record, nothing for code "". */
    function Answer(ip: int): Option<string>
      requires |starts| == |codeIndex|
      requires forall i :: 0 <= i < |codeIndex| ==> codeIndex[i] < |codes|
    {
      var at := At(Records(), ip);
      if at.None? || at.value >= |codes| || codes[at.value] == "" then None else Some(codes[at.value])
    }

    /** The binary search; an index beyond the code table is a range error. */
    method LookupIp(ip: int) returns (r: Result<Option<string>, ParseError>)
      requires |starts| == |codeIndex|
      ensures (forall i :: 0 <= i < |codeIndex| ==> codeIndex[i] < |codes|) ==> r.Ok?
      ensures Increasing(Records()) && (forall i :: 0 <= i < |codeIndex| ==> codeIndex[i] < |codes|) ==>
                r == Ok(Answer(ip))
    {
      ghost var recs := Records();
      if |starts| == 0 {
        return Ok(None);
      }
      var lo, hi := 0, |starts| - 1;
      if ip < starts[0] {
        NothingBefore(recs, ip);
        return Ok(None);
      }
      while lo < hi
        invariant 0 <= lo <= hi < |starts|
        invariant Increasing(recs) ==> starts[lo] <= ip
        invariant Increasing(recs) ==> forall j :: hi < j < |starts| ==> ip < recs[j].start
      {
        var mid := (lo + hi + 1) / 2;
        if starts[mid] <= ip {
          lo := mid;
        } else {
          assert forall j :: mid <= j < |starts| && Increasing(recs) ==> recs[mid].start <= recs[j].start;
          hi := mid - 1;
        }
      }
      if codeIndex[lo] >= |codes| {
        return Err(OutOfRange);
      }
      if Increasing(recs) {
        AtIndex(recs, lo, ip);
      }
      var code := codes[codeIndex[lo]];
      return Ok(if code == "" then None else Some(code));
    }
  }

  lemma {:induction false} NothingBefore(recs: seq<Rec>, ip: int)
    requires recs != [] && ip < recs[0].start
    ensures Increasing(recs) ==> At(recs, ip).None?
  {
    if |recs| > 1 && Increasing(recs) {
      NothingBefore(recs[..|recs| - 1], ip);
    }
  }
}
