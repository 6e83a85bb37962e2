/** The packed asset, little-endian: "WGI2", uint16 n_cc, n_cc two-byte codes, uint32
    count, count records of (uint32 start, uint16 code index). The writer is in
    app/tool/build_geoip.py, the reader in app/lib/data/geoip_service.dart. */
module GeoAsset {
  import opened Wrappers
  import opened GeoTable

  type byte = b: int | 0 <= b < 256

  const MAGIC: seq<byte> := [0x57, 0x47, 0x49, 0x32]

  function LE16(n: nat): (r: seq<byte>)
    requires n < 0x1_0000
  {
    [n % 256, n / 256]
  }

  function LE32(n: nat): (r: seq<byte>)
    requires n < 0x1_0000_0000
  {
    LE16(n % 0x1_0000) + LE16(n / 0x1_0000)
  }

  function U16(b: seq<byte>, off: nat): nat
    requires off + 2 <= |b|
  {
    (b[off] as int) + 256 * (b[off + 1] as int)
  }

  function U32(b: seq<byte>, off: nat): nat
    requires off + 4 <= |b|
  {
    U16(b, off) + 0x1_0000 * U16(b, off + 2)
  }

  /** The number written with the least significant byte first. */
  function Little(b: seq<byte>): int {
    if b == [] then 0 else (b[0] as int) + 256 * Little(b[1..])
  }

  /** The least significant byte comes first. */
  lemma LittleEndian(n: nat)
    requires n < 0x1_0000_0000
    ensures |LE32(n)| == 4 && n == Little(LE32(n))
    ensures n < 0x1_0000 ==> |LE16(n)| == 2 && n == Little(LE16(n))
  {
    var low, high := n % 0x1_0000, n / 0x1_0000;
    LittleTwo(low % 256, low / 256, LE16(high));
    LittleTwo(high % 256, high / 256, []);
    assert LE16(high) == [high % 256, high / 256] + [];
    assert LE32(n) == [low % 256, low / 256] + LE16(high);
    if n < 0x1_0000 {
      LittleTwo(n % 256, n / 256, []);
      assert LE16(n) == [n % 256, n / 256] + [];
    }
  }

  lemma LittleTwo(x: byte, y: byte, t: seq<byte>)
    ensures Little([x, y] + t) == x as int + 256 * y as int + 0x1_0000 * Little(t)
  {
    var s := [x, y] + t;
    assert s[1..] == [y] + t && s[1..][1..] == t;
  }

  lemma ReadLE16(b: seq<byte>, off: nat, n: nat)
    requires n < 0x1_0000 && off + 2 <= |b| && b[off..off + 2] == LE16(n)
    ensures U16(b, off) == n
  {
    assert b[off] == b[off..off + 2][0] && b[off + 1] == b[off..off + 2][1];
  }

  lemma ReadLE32(b: seq<byte>, off: nat, n: nat)
    requires n < 0x1_0000_0000 && off + 4 <= |b| && b[off..off + 4] == LE32(n)
    ensures U32(b, off) == n
  {
    assert b[off..off + 2] == b[off..off + 4][..2] == LE16(n % 0x1_0000);
    assert b[off + 2..off + 4] == b[off..off + 4][2..] == LE16(n / 0x1_0000);
    ReadLE16(b, off, n % 0x1_0000);
    ReadLE16(b, off + 2, n / 0x1_0000);
  }

  // ---- Codes ------------------------------------------------------------------

  predicate TableCode(cc: string) { cc == "" || CountryCode(cc) }

  ghost predicate TableCodes(codes: seq<string>) {
    forall i :: 0 <= i < |codes| ==> TableCode(codes[i])
  }

  function CodeBytes(cc: string): (r: seq<byte>)
    requires TableCode(cc)
    ensures |r| == 2
  {
    if cc == "" then [0, 0] else [cc[0] as int, cc[1] as int]
  }

  function CodeOf(a: byte, b: byte): string {
    if a == 0 then "" else [a as char, b as char]
  }

  function CodesBytes(codes: seq<string>): (r: seq<byte>)
    requires TableCodes(codes)
    ensures |r| == 2 * |codes|
  {
    if codes == [] then [] else CodesBytes(codes[..|codes| - 1]) + CodeBytes(codes[|codes| - 1])
  }

  lemma {:induction false} CodesBytesAt(codes: seq<string>, i: nat)
    requires TableCodes(codes) && i < |codes|
    ensures CodesBytes(codes)[2 * i..2 * i + 2] == CodeBytes(codes[i])
  {
    var n := |codes| - 1;
    if i < n {
      CodesBytesAt(codes[..n], i);
      assert CodesBytes(codes)[2 * i..2 * i + 2] == CodesBytes(codes[..n])[2 * i..2 * i + 2];
    }
  }

  // ---- Records ------------------------------------------------------------------

  ghost predicate Packable(recs: seq<Rec>) {
    forall i :: 0 <= i < |recs| ==> 0 <= recs[i].start <= LAST_ADDRESS && recs[i].idx < 0x1_0000
  }

  function RecBytes(r: Rec): (b: seq<byte>)
    requires 0 <= r.start <= LAST_ADDRESS && r.idx < 0x1_0000
    ensures |b| == 6
  {
    LE32(r.start) + LE16(r.idx)
  }

  function RecsBytes(recs: seq<Rec>): (b: seq<byte>)
    requires Packable(recs)
    ensures |b| == 6 * |recs|
  {
    if recs == [] then [] else RecsBytes(recs[..|recs| - 1]) + RecBytes(recs[|recs| - 1])
  }

  lemma {:induction false} RecsBytesAt(recs: seq<Rec>, i: nat)
    requires Packable(recs) && i < |recs|
    ensures RecsBytes(recs)[6 * i..6 * i + 6] == RecBytes(recs[i])
  {
    var n := |recs| - 1;
    if i < n {
      RecsBytesAt(recs[..n], i);
      assert RecsBytes(recs)[6 * i..6 * i + 6] == RecsBytes(recs[..n])[6 * i..6 * i + 6];
    }
  }

  // ---- The whole asset -------------------------------------------------------------

  function Asset(codes: seq<string>, recs: seq<Rec>): seq<byte>
    requires TableCodes(codes) && |codes| < 0x1_0000
    requires Packable(recs) && |recs| < 0x1_0000_0000
  {
    MAGIC + LE16(|codes|) + CodesBytes(codes) + LE32(|recs|) + RecsBytes(recs)
  }

  datatype BuildError = TooManyCodes | CountOverflow

  method PackCodes(codes: seq<string>) returns (out: seq<byte>)
    requires TableCodes(codes)
    ensures out == CodesBytes(codes)
  {
    out := [];
    for i := 0 to |codes|
      invariant out == CodesBytes(codes[..i])
    {
      assert codes[..i + 1][..i] == codes[..i];
      out := out + CodeBytes(codes[i]);
    }
    assert codes[..|codes|] == codes;
  }

  method PackRecs(recs: seq<Rec>) returns (out: seq<byte>)
    requires Packable(recs)
    ensures out == RecsBytes(recs)
  {
    out := [];
    for i := 0 to |recs|
      invariant out == RecsBytes(recs[..i])
    {
      assert recs[..i + 1][..i] == recs[..i];
      out := out + RecBytes(recs[i]);
    }
    assert recs[..|recs|] == recs;
  }

  /** Writes the asset; `struct.pack` refuses a record count beyond 32 bits. */
  method Pack(codes: seq<string>, recs: seq<Rec>) returns (r: Result<seq<byte>, BuildError>)
    requires TableCodes(codes) && |codes| < 0x1_0000 && Packable(recs)
    ensures r.Ok? <==> |recs| < 0x1_0000_0000
    ensures r.Ok? ==> r.value == Asset(codes, recs)
  {
    var table := PackCodes(codes);
    if |recs| >= 0x1_0000_0000 {
      return Err(CountOverflow);
    }
    var records := PackRecs(recs);
    return Ok(MAGIC + LE16(|codes|) + table + LE32(|recs|) + records);
  }

  // ---- Where the parts of an asset lie ------------------------------------------------

  lemma PartsAt<T>(a: seq<T>, b: seq<T>, c: seq<T>, d: seq<T>, e: seq<T>, all: seq<T>)
    requires all == a + b + c + d + e
    ensures var i := |a| + |b|; var j := i + |c|; var k := j + |d|;
      k <= |all| && all[..|a|] == a && all[|a|..i] == b && all[i..j] == c && all[j..k] == d && all[k..] == e
  {
  }

  lemma AssetHeader(codes: seq<string>, recs: seq<Rec>)
    requires TableCodes(codes) && |codes| < 0x1_0000
    requires Packable(recs) && |recs| < 0x1_0000_0000
    ensures var b, n := Asset(codes, recs), |codes|;
      && |b| == 10 + 2 * n + 6 * |recs|
      && b[..4] == MAGIC && U16(b, 4) == n && U32(b, 6 + 2 * n) == |recs|
      && b[6..6 + 2 * n] == CodesBytes(codes) && b[10 + 2 * n..] == RecsBytes(recs)
  {
    var b, n := Asset(codes, recs), |codes|;
    PartsAt(MAGIC, LE16(n), CodesBytes(codes), LE32(|recs|), RecsBytes(recs), b);
    ReadLE16(b, 4, n);
    ReadLE32(b, 6 + 2 * n, |recs|);
  }

  lemma AssetCode(codes: seq<string>, recs: seq<Rec>, i: nat)
    requires TableCodes(codes) && |codes| < 0x1_0000
    requires Packable(recs) && |recs| < 0x1_0000_0000
    requires i < |codes|
    ensures var b, off := Asset(codes, recs), 6 + 2 * i;
      && off + 2 <= |b| && CodeOf(b[off], b[off + 1]) == codes[i]
      && (if codes[i] == "" then b[off] == 0 else b[off] == codes[i][0] as int && b[off + 1] == codes[i][1] as int)
  {
    AssetHeader(codes, recs);
    CodesBytesAt(codes, i);
    var b, n, off := Asset(codes, recs), |codes|, 6 + 2 * i;
    assert b[off] == b[6..6 + 2 * n][2 * i] == CodesBytes(codes)[2 * i..2 * i + 2][0];
    assert b[off + 1] == b[6..6 + 2 * n][2 * i + 1] == CodesBytes(codes)[2 * i..2 * i + 2][1];
  }

  lemma ReadRecord(b: seq<byte>, off: nat, r: Rec)
    requires 0 <= r.start <= LAST_ADDRESS && r.idx < 0x1_0000
    requires off + 6 <= |b| && b[off..off + 6] == RecBytes(r)
    ensures U32(b, off) == r.start && U16(b, off + 4) == r.idx
  {
    assert b[off..off + 4] == b[off..off + 6][..4] == LE32(r.start);
    assert b[off + 4..off + 6] == b[off..off + 6][4..] == LE16(r.idx);
    ReadLE32(b, off, r.start);
    ReadLE16(b, off + 4, r.idx);
  }

  lemma SliceOfTail<T>(b: seq<T>, base: nat, from: nat, to: nat)
    requires from <= to && base + to <= |b|
    ensures b[base + from..base + to] == b[base..][from..to]
  {
  }

  lemma RecordBytesAt(codes: seq<string>, recs: seq<Rec>, i: nat)
    requires TableCodes(codes) && |codes| < 0x1_0000
    requires Packable(recs) && |recs| < 0x1_0000_0000
    requires i < |recs|
    ensures var b, off := Asset(codes, recs), 10 + 2 * |codes| + 6 * i;
      off + 6 <= |b| && b[off..off + 6] == RecBytes(recs[i])
  {
    AssetHeader(codes, recs);
    RecsBytesAt(recs, i);
    SliceOfTail(Asset(codes, recs), 10 + 2 * |codes|, 6 * i, 6 * i + 6);
  }

  lemma AssetRecord(codes: seq<string>, recs: seq<Rec>, i: nat)
    requires TableCodes(codes) && |codes| < 0x1_0000
    requires Packable(recs) && |recs| < 0x1_0000_0000
    requires i < |recs|
    ensures var b, off := Asset(codes, recs), 10 + 2 * |codes| + 6 * i;
      off + 6 <= |b| && U32(b, off) == recs[i].start && U16(b, off + 4) == recs[i].idx
  {
    RecordBytesAt(codes, recs, i);
    ReadRecord(Asset(codes, recs), 10 + 2 * |codes| + 6 * i, recs[i]);
  }
}
