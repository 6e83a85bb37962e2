/** The few string functions of Go's library that the core relies on. */
module Text {

  /** Lower case, exact for every character whose lower case is ASCII. */
  function LowerChar(c: char): char {
    if 'A' <= c <= 'Z' then (c as int + 32) as char
    else if c == '\U{212A}' then 'k'
    else if c == '\U{0130}' then 'i'
    else c
  }

  function Lower(s: string): (r: string)
    ensures |r| == |s|
  {
    seq(|s|, i requires 0 <= i < |s| => LowerChar(s[i]))
  }

  predicate IsSpace(c: char) {
    || '\t' <= c <= '\r' || c == ' ' || c == '\U{0085}' || c == '\U{00A0}' || c == '\U{1680}'
    || '\U{2000}' <= c <= '\U{200A}' || c == '\U{2028}' || c == '\U{2029}'
    || c == '\U{202F}' || c == '\U{205F}' || c == '\U{3000}'
  }

  function TrimLeft(s: string): (r: string)
    ensures r != [] ==> !IsSpace(r[0])
    ensures s == [] || !IsSpace(s[0]) ==> r == s
  {
    if s != [] && IsSpace(s[0]) then TrimLeft(s[1..]) else s
  }

  function TrimRight(s: string): (r: string)
    ensures r != [] ==> !IsSpace(r[|r| - 1])
    ensures s == [] || !IsSpace(s[|s| - 1]) ==> r == s
    ensures r <= s
  {
    if s != [] && IsSpace(s[|s| - 1]) then TrimRight(s[..|s| - 1]) else s
  }

  function TrimSpace(s: string): (r: string)
    ensures r != [] ==> !IsSpace(r[0]) && !IsSpace(r[|r| - 1])
    ensures s == [] || (!IsSpace(s[0]) && !IsSpace(s[|s| - 1])) ==> r == s
  {
    TrimRight(TrimLeft(s))
  }

  function Normal(s: string): string { Lower(TrimSpace(s)) }

  lemma LowerCharTwice(c: char)
    ensures LowerChar(LowerChar(c)) == LowerChar(c) && IsSpace(LowerChar(c)) == IsSpace(c)
  {
  }

  lemma NormalTwice(s: string)
    ensures Normal(Normal(s)) == Normal(s)
  {
    var t := TrimSpace(s);
    forall c ensures LowerChar(LowerChar(c)) == LowerChar(c) && IsSpace(LowerChar(c)) == IsSpace(c) {
      LowerCharTwice(c);
    }
    assert Lower(Lower(t)) == Lower(t);
  }

  predicate HasSuffix(s: string, suffix: string) {
    |s| >= |suffix| && s[|s| - |suffix|..] == suffix
  }

  predicate Contains(s: string, needle: string) {
    needle <= s || (s != [] && Contains(s[1..], needle))
  }

  function TrimSuffix(s: string, suffix: string): string {
    if HasSuffix(s, suffix) then s[..|s| - |suffix|] else s
  }

  /** `strings.Trim(s, "[]")`. */
  function TrimBrackets(s: string): string {
    if s == [] then []
    else if s[0] == '[' || s[0] == ']' then TrimBrackets(s[1..])
    else if s[|s| - 1] == '[' || s[|s| - 1] == ']' then TrimBrackets(s[..|s| - 1])
    else s
  }

  /** An ASCII control character, as `hasCtrl` looks for. */
  predicate HasCtrl(s: string) {
    exists i :: 0 <= i < |s| && (s[i] < ' ' || s[i] == '\U{007F}')
  }

  /** The length in UTF-8 bytes, which is what Go's `len` counts. */
  function ByteLength(s: string): nat {
    if s == [] then 0
    else
      var c := s[0];
      var size := if c < '\U{0080}' then 1 else if c < '\U{0800}' then 2 else if c < '\U{10000}' then 3 else 4;
      size + ByteLength(s[1..])
  }

  /** A character in UTF-8, section 3 of RFC 3629. */
  function Utf8(c: char): seq<int> {
    var n := c as int;
    if n <= 0x7F then [n]
    else if n <= 0x7FF then [0xC0 + n / 64, 0x80 + n % 64]
    else if n <= 0xFFFF then [0xE0 + n / 4096, 0x80 + n / 64 % 64, 0x80 + n % 64]
    else [0xF0 + n / 262144, 0x80 + n / 4096 % 64, 0x80 + n / 64 % 64, 0x80 + n % 64]
  }

  function Encoded(s: string): seq<int> {
    if s == [] then [] else Encoded(s[..|s| - 1]) + Utf8(s[|s| - 1])
  }

  lemma {:induction false} BytesAppend(s: string, c: char)
    ensures ByteLength(s + [c]) == ByteLength(s) + |Utf8(c)|
  {
    if s == [] {
      assert ([] + [c])[1..] == [];
    } else {
      BytesAppend(s[1..], c);
      assert (s + [c])[1..] == s[1..] + [c];
    }
  }

  /** The length counted is that of the encoding. */
  lemma {:induction false} BytesAreEncoded(s: string)
    ensures ByteLength(s) == |Encoded(s)|
  {
    if s != [] {
      var n := |s| - 1;
      BytesAreEncoded(s[..n]);
      BytesAppend(s[..n], s[n]);
      assert s == s[..n] + [s[n]];
    }
  }

  predicate IsBracket(c: char) { c == '[' || c == ']' }

  /** Every bracket at either end goes, and nothing else. */
  lemma {:induction false} BracketsGone(pre: string, s: string, post: string)
    requires (forall i :: 0 <= i < |pre| ==> IsBracket(pre[i])) && (forall i :: 0 <= i < |post| ==> IsBracket(post[i]))
    requires s != [] && !IsBracket(s[0]) && !IsBracket(s[|s| - 1])
    ensures TrimBrackets(pre + s + post) == s
    decreases |pre| + |post|
  {
    var all := pre + s + post;
    if pre != [] {
      assert all[1..] == pre[1..] + s + post;
      BracketsGone(pre[1..], s, post);
    } else if post != [] {
      assert all[..|all| - 1] == pre + s + post[..|post| - 1];
      BracketsGone(pre, s, post[..|post| - 1]);
    } else {
      assert all == s;
    }
  }

  // ---- Decimal numbers ---------------------------------------------------------

  function Decimal(n: nat): (s: string)
    ensures s != [] && forall i :: 0 <= i < |s| ==> '0' <= s[i] <= '9'
  {
    var digit := ('0' as int + n % 10) as char;
    if n < 10 then [digit] else Decimal(n / 10) + [digit]
  }

  function DecimalValue(s: string): int {
    if s == [] then 0 else 10 * DecimalValue(s[..|s| - 1]) + (s[|s| - 1] as int - '0' as int)
  }

  lemma {:induction false} DecimalRoundTrip(n: nat)
    ensures DecimalValue(Decimal(n)) == n
  {
    var digit := ('0' as int + n % 10) as char;
    if n >= 10 {
      DecimalRoundTrip(n / 10);
      assert (Decimal(n / 10) + [digit])[..|Decimal(n / 10)|] == Decimal(n / 10);
    }
  }

  // ---- IP literals ---------------------------------------------------------------

  function Split(s: string, sep: char): (parts: seq<string>)
    ensures parts != []
  {
    if s == [] then [[]]
    else
      var rest := Split(s[1..], sep);
      if s[0] == sep then [[]] + rest else [[s[0]] + rest[0]] + rest[1..]
  }

  predicate Octet(s: string) {
    && 1 <= |s| <= 3 && (forall i :: 0 <= i < |s| ==> '0' <= s[i] <= '9')
    && (|s| > 1 ==> s[0] != '0') && DecimalValue(s) <= 255
  }

  predicate V4Literal(s: string) {
    var p := Split(s, '.');
    |p| == 4 && forall i :: 0 <= i < 4 ==> Octet(p[i])
  }

  function V4Byte(s: string, i: nat): int
    requires V4Literal(s) && i < 4
  {
    DecimalValue(Split(s, '.')[i])
  }

  datatype AddressClass = NotAnAddress | Loopback | Unroutable | Routable

  /** Classifies the literals that contain a colon; a library function left abstract. */
  type V6Table = string -> AddressClass

  function V4Class(a: int, b: int, c: int, d: int): AddressClass {
    if a == 127 then Loopback
    else if 224 <= a <= 239 || (a == 169 && b == 254) then Unroutable
    else if a == 0 && b == 0 && c == 0 && d == 0 then Unroutable
    else Routable
  }

  /** What `net.ParseIP` and the class predicates of the result say together. */
  function Classify(s: string, v6: V6Table): AddressClass {
    if V4Literal(s) then V4Class(V4Byte(s, 0), V4Byte(s, 1), V4Byte(s, 2), V4Byte(s, 3))
    else if ':' in s then v6(s)
    else NotAnAddress
  }

  lemma {:induction false} SplitNoSeparator(s: string, sep: char)
    requires sep !in s
    ensures Split(s, sep) == [s]
  {
    if s != [] {
      SplitNoSeparator(s[1..], sep);
      assert s == [s[0]] + s[1..];
    }
  }

  lemma {:induction false} SplitAtSeparator(part: string, rest: string, sep: char)
    requires sep !in part
    ensures Split(part + [sep] + rest, sep) == [part] + Split(rest, sep)
  {
    var s := part + [sep] + rest;
    if part == [] {
      assert s[1..] == rest;
    } else {
      assert s[1..] == part[1..] + [sep] + rest;
      SplitAtSeparator(part[1..], rest, sep);
      assert part == [part[0]] + part[1..];
    }
  }

  /** Four numbers written in decimal, with dots between. */
  function Dotted(a: nat, b: nat, c: nat, d: nat): string {
    Decimal(a) + ['.'] + (Decimal(b) + ['.'] + (Decimal(c) + ['.'] + Decimal(d)))
  }

  lemma DottedParts(a: nat, b: nat, c: nat, d: nat)
    ensures Split(Dotted(a, b, c, d), '.') == [Decimal(a), Decimal(b), Decimal(c), Decimal(d)]
  {
    var last := Decimal(d);
    var two := Decimal(c) + ['.'] + last;
    SplitNoSeparator(last, '.');
    SplitAtSeparator(Decimal(c), last, '.');
    SplitAtSeparator(Decimal(b), two, '.');
    SplitAtSeparator(Decimal(a), Decimal(b) + ['.'] + two, '.');
  }

  lemma DecimalSize(n: nat)
    requires n < 256
    ensures 1 <= |Decimal(n)| <= 3 && (n >= 10 ==> Decimal(n)[0] != '0') && (n < 10 ==> |Decimal(n)| == 1)
  {
    if n >= 100 {
      assert n / 10 / 10 < 10 && Decimal(n)[0] == Decimal(n / 10)[0] == Decimal(n / 10 / 10)[0];
    } else if n >= 10 {
      assert Decimal(n)[0] == Decimal(n / 10)[0];
    }
  }

  lemma DecimalIsOctet(n: nat)
    requires n < 256
    ensures Octet(Decimal(n)) && DecimalValue(Decimal(n)) == n
  {
    DecimalSize(n);
    DecimalRoundTrip(n);
  }

  lemma PartsRead(s: string, p: seq<string>)
    requires Split(s, '.') == p && |p| == 4 && Octet(p[0]) && Octet(p[1]) && Octet(p[2]) && Octet(p[3])
    ensures V4Literal(s) && forall i :: 0 <= i < 4 ==> V4Byte(s, i) == DecimalValue(p[i])
  {
  }

  /** How the library classifies a dotted IPv4 literal, in terms of its bytes. */
  lemma DottedClass(a: nat, b: nat, c: nat, d: nat, v6: V6Table)
    requires a < 256 && b < 256 && c < 256 && d < 256
    ensures Classify(Dotted(a, b, c, d), v6) == V4Class(a, b, c, d)
  {
    var p := [Decimal(a), Decimal(b), Decimal(c), Decimal(d)];
    DottedParts(a, b, c, d);
    DecimalIsOctet(a);
    DecimalIsOctet(b);
    DecimalIsOctet(c);
    DecimalIsOctet(d);
    PartsRead(Dotted(a, b, c, d), p);
    assert V4Byte(Dotted(a, b, c, d), 0) == DecimalValue(p[0]) && V4Byte(Dotted(a, b, c, d), 1) == DecimalValue(p[1]);
    assert V4Byte(Dotted(a, b, c, d), 2) == DecimalValue(p[2]) && V4Byte(Dotted(a, b, c, d), 3) == DecimalValue(p[3]);
  }

  lemma LocalhostIsLoopback(v6: V6Table)
    ensures Classify("127.0.0.1", v6) == Loopback
  {
    assert Decimal(127) == "127" && Decimal(0) == "0" && Decimal(1) == "1" by {
      assert Decimal(12) == "12";
    }
    assert Dotted(127, 0, 0, 1) == "127.0.0.1";
    DottedClass(127, 0, 0, 1, v6);
  }

  predicate IsDigit(c: char) { '0' <= c <= '9' }

  /** Digits and dots, a digit at both ends. */
  ghost predicate DottedText(s: string) {
    s != [] && IsDigit(s[0]) && IsDigit(s[|s| - 1]) && forall i :: 0 <= i < |s| ==> IsDigit(s[i]) || s[i] == '.'
  }

  lemma DottedTextJoin(n: nat, rest: string)
    requires DottedText(rest)
    ensures DottedText(Decimal(n) + ['.'] + rest)
  {
  }

  lemma DottedIsText(a: nat, b: nat, c: nat, d: nat)
    ensures DottedText(Dotted(a, b, c, d))
  {
    assert DottedText(Decimal(d));
    DottedTextJoin(c, Decimal(d));
    DottedTextJoin(b, Decimal(c) + ['.'] + Decimal(d));
    DottedTextJoin(a, Decimal(b) + ['.'] + (Decimal(c) + ['.'] + Decimal(d)));
  }

  lemma NormalKeeps(s: string)
    requires s != [] && !IsSpace(s[0]) && !IsSpace(s[|s| - 1]) && forall i :: 0 <= i < |s| ==> LowerChar(s[i]) == s[i]
    ensures Normal(s) == s
  {
  }

  lemma DotTrimmed(s: string)
    requires s != [] && s[|s| - 1] != '.'
    ensures TrimSuffix(s, ".") == s && TrimSuffix(s + ['.'], ".") == s
  {
    assert s[|s| - 1..] == [s[|s| - 1]];
    assert (s + ['.'])[|s|..] == ".";
  }

  lemma BracketsTrimmed(s: string)
    requires DottedText(s)
    ensures TrimBrackets(s) == s && TrimBrackets(['['] + s + [']']) == s
  {
    var all := ['['] + s + [']'];
    assert all[1..] == s + [']'];
    assert (s + [']'])[..|s|] == s;
  }

  // ---- Spellings ------------------------------------------------------------------------------------

  /** `c` is the lower-case character `low`, or a capital of it. The Kelvin sign and the dotted capital
      I are capitals of k and i. */
  predicate SameLetter(c: char, low: char) {
    || c == low || ('a' <= low <= 'z' && c as int + 32 == low as int)
    || (low == 'k' && c == '\U{212A}') || (low == 'i' && c == '\U{0130}')
  }

  ghost predicate CaseVariant(s: string, low: string) {
    |s| == |low| && forall i :: 0 <= i < |s| ==> SameLetter(s[i], low[i])
  }

  ghost predicate AllSpace(s: string) {
    forall i :: 0 <= i < |s| ==> IsSpace(s[i])
  }

  /** `s` is `low` in any mix of case, with space around it. */
  ghost predicate Spells(s: string, low: string) {
    exists pre, mid, post :: s == pre + mid + post && AllSpace(pre) && AllSpace(post) && CaseVariant(mid, low)
  }

  /** A word without capitals or spaces, such as the types, modes and names compared with. */
  ghost predicate PlainWord(low: string) {
    low != [] && forall i :: 0 <= i < |low| ==> ' ' < low[i] < '\U{007F}' && !('A' <= low[i] <= 'Z')
  }

  lemma {:induction false} TrimLeftOver(pre: string, rest: string)
    requires AllSpace(pre) && (rest == [] || !IsSpace(rest[0]))
    ensures TrimLeft(pre + rest) == rest
  {
    if pre == [] {
      assert pre + rest == rest;
    } else {
      assert (pre + rest)[1..] == pre[1..] + rest;
      TrimLeftOver(pre[1..], rest);
    }
  }

  lemma {:induction false} TrimRightOver(rest: string, post: string)
    requires AllSpace(post) && (rest == [] || !IsSpace(rest[|rest| - 1]))
    ensures TrimRight(rest + post) == rest
  {
    if post == [] {
      assert rest + post == rest;
    } else {
      var n := |post| - 1;
      assert (rest + post)[..|rest + post| - 1] == rest + post[..n];
      TrimRightOver(rest, post[..n]);
    }
  }

  lemma TrimSpaceOver(pre: string, mid: string, post: string)
    requires AllSpace(pre) && AllSpace(post) && mid != [] && !IsSpace(mid[0]) && !IsSpace(mid[|mid| - 1])
    ensures TrimSpace(pre + mid + post) == mid
  {
    assert pre + mid + post == pre + (mid + post);
    TrimLeftOver(pre, mid + post);
    TrimRightOver(mid, post);
  }

  lemma {:induction false} TrimLeftSplits(s: string) returns (pre: string)
    ensures AllSpace(pre) && s == pre + TrimLeft(s)
  {
    if s != [] && IsSpace(s[0]) {
      var rest := TrimLeftSplits(s[1..]);
      pre := [s[0]] + rest;
      assert s == [s[0]] + s[1..];
    } else {
      pre := [];
    }
  }

  lemma {:induction false} TrimRightSplits(s: string) returns (post: string)
    ensures AllSpace(post) && s == TrimRight(s) + post
  {
    if s != [] && IsSpace(s[|s| - 1]) {
      var n := |s| - 1;
      var rest := TrimRightSplits(s[..n]);
      post := rest + [s[n]];
      assert s == s[..n] + [s[n]];
    } else {
      post := [];
    }
  }

  lemma LetterLower(c: char, low: char)
    requires ' ' < low < '\U{007F}' && !('A' <= low <= 'Z')
    ensures LowerChar(c) == low <==> SameLetter(c, low)
    ensures SameLetter(c, low) ==> !IsSpace(c)
  {
  }

  lemma VariantLower(mid: string, low: string)
    requires PlainWord(low)
    ensures Lower(mid) == low <==> CaseVariant(mid, low)
    ensures CaseVariant(mid, low) ==> mid != [] && !IsSpace(mid[0]) && !IsSpace(mid[|mid| - 1])
  {
    forall i | 0 <= i < |mid| && i < |low|
      ensures LowerChar(mid[i]) == low[i] <==> SameLetter(mid[i], low[i])
      ensures SameLetter(mid[i], low[i]) ==> !IsSpace(mid[i])
    {
      LetterLower(mid[i], low[i]);
    }
    if Lower(mid) == low {
      forall i | 0 <= i < |mid| ensures SameLetter(mid[i], low[i]) {
        assert Lower(mid)[i] == LowerChar(mid[i]);
      }
    }
  }

  lemma TrimSpaceSplits(s: string) returns (pre: string, post: string)
    ensures AllSpace(pre) && AllSpace(post) && s == pre + TrimSpace(s) + post
  {
    pre := TrimLeftSplits(s);
    post := TrimRightSplits(TrimLeft(s));
  }

  lemma SpellingIsNormal(s: string, low: string)
    requires PlainWord(low) && Spells(s, low)
    ensures Normal(s) == low
  {
    var pre, mid, post :| s == pre + mid + post && AllSpace(pre) && AllSpace(post) && CaseVariant(mid, low);
    VariantLower(mid, low);
    TrimSpaceOver(pre, mid, post);
  }

  /** Trimming and lower-casing give a plain word exactly if the text spells it. */
  lemma NormalSpells(s: string, low: string)
    requires PlainWord(low)
    ensures Normal(s) == low <==> Spells(s, low)
  {
    if Spells(s, low) {
      SpellingIsNormal(s, low);
    }
    if Normal(s) == low {
      var pre, post := TrimSpaceSplits(s);
      VariantLower(TrimSpace(s), low);
    }
  }

  lemma LowerParts(a: string, b: string)
    ensures Lower(a + b) == Lower(a) + Lower(b)
  {
  }
}
