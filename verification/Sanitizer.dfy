/** Rebuilding an untrusted outbound from allowlists. Follows `denied`, `sanitizeHeaders`,
    `pick`, `checkServerAddr` and `sanitizeOutbound` in native/weronity_core/config.go. */
module Sanitizer {
  import opened Wrappers
  import opened Sets
  import opened Text
  import opened Json
  import opened Gate

  const DENYLIST: set<string> := {
    "detour", "bind_interface", "bind_address", "inet4_bind_address", "inet6_bind_address",
    "routing_mark", "netns", "network_strategy", "network_namespace", "plugin", "plugin_opts",
    "tls_fragment", "process_name", "outbound", "inbounds", "outbounds", "route", "experimental",
    "log", "dns", "services", "endpoints", "certificate_provider" }

  predicate Denied(key: string) {
    || key in DENYLIST
    || HasSuffix(Lower(key), "_path") || HasSuffix(Lower(key), "_command") || Contains(Lower(key), "exec")
  }

  /** The names by which an outbound could leave its own connection, or bring code along. */
  predicate Harmful(key: string) {
    || key == "detour" || key == "bind_interface" || key == "bind_address" || key == "inet4_bind_address"
    || key == "inet6_bind_address" || key == "routing_mark" || key == "netns" || key == "network_strategy"
    || key == "network_namespace" || key == "plugin" || key == "plugin_opts" || key == "tls_fragment"
    || key == "process_name" || key == "certificate_provider"
  }

  /** Or the name of a part of a whole configuration. */
  predicate ConfigPart(key: string) {
    || key == "outbound" || key == "inbounds" || key == "outbounds" || key == "route" || key == "experimental"
    || key == "log" || key == "dns" || key == "services" || key == "endpoints"
  }

  /** `key` ends in `low`, in any case. */
  ghost predicate EndsLike(key: string, low: string) {
    |key| >= |low| && CaseVariant(key[|key| - |low|..], low)
  }

  ghost predicate LikeAt(key: string, i: int, low: string) {
    0 <= i && i + |low| <= |key| && CaseVariant(key[i..i + |low|], low)
  }

  /** `key` holds `low` somewhere, in any case. */
  ghost predicate HoldsLike(key: string, low: string) {
    exists i :: LikeAt(key, i, low)
  }

  predicate OccursAt(s: string, i: int, needle: string) {
    0 <= i && i + |needle| <= |s| && s[i..i + |needle|] == needle
  }

  lemma LikeIsLower(key: string, i: int, low: string)
    requires PlainWord(low)
    ensures OccursAt(Lower(key), i, low) <==> LikeAt(key, i, low)
  {
    if 0 <= i && i + |low| <= |key| {
      assert Lower(key)[i..i + |low|] == Lower(key[i..i + |low|]);
      VariantLower(key[i..i + |low|], low);
    }
  }

  lemma SuffixLike(key: string, low: string)
    requires PlainWord(low)
    ensures HasSuffix(Lower(key), low) <==> EndsLike(key, low)
  {
    var i := |key| - |low|;
    LikeIsLower(key, i, low);
    if i >= 0 {
      assert key[i..] == key[i..i + |low|] && Lower(key)[i..] == Lower(key)[i..i + |low|];
    }
  }

  lemma OccursLater(s: string, i: int, needle: string)
    requires s != [] && i > 0
    ensures OccursAt(s, i, needle) <==> OccursAt(s[1..], i - 1, needle)
  {
    if i + |needle| <= |s| {
      assert s[i..i + |needle|] == s[1..][i - 1..i - 1 + |needle|];
    }
  }

  lemma {:induction false} ContainsAt(s: string, needle: string)
    requires needle != ""
    ensures Contains(s, needle) <==> exists i :: OccursAt(s, i, needle)
  {
    if needle <= s {
      assert OccursAt(s, 0, needle);
    } else if s != [] {
      ContainsAt(s[1..], needle);
      if Contains(s[1..], needle) {
        var i :| OccursAt(s[1..], i, needle);
        OccursLater(s, i + 1, needle);
        assert OccursAt(s, i + 1, needle);
      }
      if i :| OccursAt(s, i, needle) {
        assert !OccursAt(s, 0, needle);
        OccursLater(s, i, needle);
      }
    }
  }

  lemma ContainsLike(key: string, low: string)
    requires PlainWord(low)
    ensures Contains(Lower(key), low) <==> HoldsLike(key, low)
  {
    ContainsAt(Lower(key), low);
    forall i ensures OccursAt(Lower(key), i, low) <==> LikeAt(key, i, low) {
      LikeIsLower(key, i, low);
    }
  }

  /** Denied are exactly the harmful names, the parts of a configuration, and, in any case, what ends
      in `_path` or `_command` or holds `exec`. */
  lemma DeniedMeans(key: string)
    ensures Denied(key) <==>
      Harmful(key) || ConfigPart(key) || EndsLike(key, "_path") || EndsLike(key, "_command") || HoldsLike(key, "exec")
  {
    SuffixLike(key, "_path");
    SuffixLike(key, "_command");
    ContainsLike(key, "exec");
    NamesDenied(key);
  }

  lemma NamesDenied(key: string)
    ensures key in DENYLIST <==> Harmful(key) || ConfigPart(key)
  {
  }

  // ---- Headers -------------------------------------------------------------------

  const MAX_HEADERS := 24
  const MAX_HEADER_KEY := 128
  const MAX_HEADER_VALUE := 512

  predicate HeaderText(s: string) { ByteLength(s) <= MAX_HEADER_VALUE && !HasCtrl(s) }

  predicate HeaderKey(k: string) {
    k != "" && ByteLength(k) <= MAX_HEADER_KEY && !HasCtrl(k) && !Denied(Lower(k))
  }

  function KeepTexts(items: seq<Json>): (r: seq<Json>)
    ensures forall i :: 0 <= i < |r| ==> r[i].JStr? && HeaderText(r[i].s)
  {
    if items == [] then []
    else
      var last := items[|items| - 1];
      KeepTexts(items[..|items| - 1]) + if last.JStr? && HeaderText(last.s) then [last] else []
  }

  lemma {:induction false} KeepTextsTwice(items: seq<Json>)
    requires forall i :: 0 <= i < |items| ==> items[i].JStr? && HeaderText(items[i].s)
    ensures KeepTexts(items) == items
  {
    if items != [] {
      KeepTextsTwice(items[..|items| - 1]);
    }
  }

  /** The value a header keeps, if it keeps one. */
  function CleanHeader(v: Json): Option<Json> {
    match v
    case JStr(s) => if HeaderText(s) then Some(v) else None
    case JArr(items) => var kept := KeepTexts(items); if kept == [] then None else Some(JArr(kept))
    case _ => None
  }

  function HeaderResult(k: string, v: Json): Option<Json> {
    if HeaderKey(k) then CleanHeader(v) else None
  }

  /** At most `max` bytes of UTF-8, and no control character. */
  ghost predicate CleanText(s: string, max: nat) {
    ByteLength(s) <= max && forall i :: 0 <= i < |s| ==> 32 <= s[i] as int != 127
  }

  lemma {:induction false} TextsKept(items: seq<Json>, x: Json)
    ensures x in KeepTexts(items) <==> x in items && x.JStr? && CleanText(x.s, 512)
  {
    if items != [] {
      TextsKept(items[..|items| - 1], x);
      assert x in items <==> x in items[..|items| - 1] || x == items[|items| - 1];
    }
  }

  /** A header is kept exactly under a clean name of 1 to 128 bytes that is not denied: a clean text of
      at most 512 bytes as it is, of a list the clean texts, if there are any. */
  lemma HeaderMeans(k: string, v: Json)
    ensures HeaderResult(k, v).Some? ==> k != "" && CleanText(k, 128) && !Denied(Lower(k))
    ensures k != "" && CleanText(k, 128) && !Denied(Lower(k)) ==>
      match v
      case JStr(s) => HeaderResult(k, v) == if CleanText(s, 512) then Some(v) else None
      case JArr(items) =>
        && (HeaderResult(k, v).Some? <==> exists x :: x in items && x.JStr? && CleanText(x.s, 512))
        && (HeaderResult(k, v).Some? ==> HeaderResult(k, v).value == JArr(KeepTexts(items)))
      case _ => HeaderResult(k, v).None?
  {
    if v.JArr? {
      forall x ensures x in KeepTexts(v.items) <==> x in v.items && x.JStr? && CleanText(x.s, 512) {
        TextsKept(v.items, x);
      }
      if KeepTexts(v.items) != [] {
        assert KeepTexts(v.items)[0] in KeepTexts(v.items);
      }
    }
  }

  lemma HeaderResultTwice(k: string, v: Json)
    requires HeaderResult(k, v).Some?
    ensures HeaderResult(k, HeaderResult(k, v).value) == HeaderResult(k, v)
    ensures !HeaderResult(k, v).value.JObj?
  {
    if v.JArr? {
      KeepTextsTwice(KeepTexts(v.items));
    }
  }

  /** Which keys are refused outright and what a header becomes: the fixed rules of the
      file, passed along so that the recursion below can be stated over any of them. */
  datatype Rules = Rules(denied: string -> bool, header: (string, Json) -> Option<Json>)

  const RULES := Rules(Denied, HeaderResult)

  function KeptHeaders(rules: Rules, src: Obj): set<string> {
    set k | k in src && rules.header(k, src[k]).Some?
  }

  /** Every result the loop can produce, whatever order the map is walked in: the kept
      headers with their clean values, any 24 of them when there are more. */
  ghost predicate HeadersOutcome(rules: Rules, src: Obj, out: Obj) {
    var kept := KeptHeaders(rules, src);
    && out.Keys <= kept
    && (forall k :: k in out ==> Some(out[k]) == rules.header(k, src[k]))
    && |out| == if |kept| <= MAX_HEADERS then |kept| else MAX_HEADERS
  }

  /** The loop's map while the keys in `rest` are still to be visited. */
  ghost predicate HeadersSoFar(rules: Rules, src: Obj, rest: set<string>, out: Obj) {
    && rest <= src.Keys
    && out.Keys == KeptHeaders(rules, src) - rest
    && forall k :: k in out ==> Some(out[k]) == rules.header(k, src[k])
  }

  lemma HeadersVisit(rules: Rules, src: Obj, rest: set<string>, out: Obj, k: string)
    requires HeadersSoFar(rules, src, rest, out) && k in rest
    ensures var clean := rules.header(k, src[k]);
      var out' := if clean.Some? then out[k := clean.value] else out;
      HeadersSoFar(rules, src, rest - {k}, out') && |out'| <= |out| + 1
  {
  }

  lemma HeadersDone(rules: Rules, src: Obj, rest: set<string>, out: Obj)
    requires HeadersSoFar(rules, src, rest, out)
    requires |out| == MAX_HEADERS || (|out| < MAX_HEADERS && rest == {})
    ensures HeadersOutcome(rules, src, out)
  {
    var kept := KeptHeaders(rules, src);
    assert |out| == |out.Keys|;
    SubsetSize(out.Keys, kept);
    assert rest == {} ==> kept - rest == kept;
  }

  method SanitizeHeaders(rules: Rules, src: Obj) returns (out: Obj)
    ensures HeadersOutcome(rules, src, out)
  {
    out := map[];
    var rest := src.Keys;
    while rest != {}
      invariant HeadersSoFar(rules, src, rest, out) && |out| <= MAX_HEADERS
      decreases |rest|
    {
      if |out| >= MAX_HEADERS {
        break;
      }
      var k :| k in rest;
      HeadersVisit(rules, src, rest, out, k);
      rest := rest - {k};
      var clean := rules.header(k, src[k]);
      if clean.Some? {
        out := out[k := clean.value];
      }
    }
    HeadersDone(rules, src, rest, out);
  }

  /** Cleaning a header again changes nothing. */
  ghost predicate Settled(rules: Rules) {
    forall k, v :: rules.header(k, v).Some? ==>
      rules.header(k, rules.header(k, v).value) == rules.header(k, v)
  }

  lemma HeadersTwice(rules: Rules, src: Obj, once: Obj, twice: Obj)
    requires Settled(rules)
    requires HeadersOutcome(rules, src, once) && HeadersOutcome(rules, once, twice)
    ensures twice == once
  {
    forall k | k in once ensures rules.header(k, once[k]) == Some(once[k]) {
      assert k in KeptHeaders(rules, src);
    }
    assert KeptHeaders(rules, once) == once.Keys;
    assert |once| == |once.Keys| && |twice| == |twice.Keys|;
    SubsetSize(twice.Keys, once.Keys);
  }

  // ---- The recursive pick ------------------------------------------------------------

  type Allow = map<string, set<string>>

  /** What the key `k` of `src` becomes in `out`. */
  ghost predicate PickedKey(rules: Rules, src: Json, fields: set<string>, allow: Allow, k: string, out: Obj)
    requires src.JObj? && k in src.fields
    decreases src, 0
  {
    if rules.denied(k) || k !in fields then k !in out
    else if !src.fields[k].JObj? then k in out && out[k] == src.fields[k]
    else if k == "headers" then
      if k in out then
        out[k].JObj? && out[k].fields != map[] && HeadersOutcome(rules, src.fields[k].fields, out[k].fields)
      else HeadersOutcome(rules, src.fields[k].fields, map[])
    else if k in allow then
      k in out && out[k].JObj? && Picked(rules, src.fields[k], allow[k], allow, out[k].fields)
    else k !in out
  }

  ghost predicate Picked(rules: Rules, src: Json, fields: set<string>, allow: Allow, out: Obj)
    requires src.JObj?
    decreases src, 1
  {
    && out.Keys <= src.fields.Keys
    && forall k :: k in src.fields ==> PickedKey(rules, src, fields, allow, k, out)
  }

  lemma PickedKeyFrame(rules: Rules, src: Json, fields: set<string>, allow: Allow, k: string, a: Obj, b: Obj)
    requires src.JObj? && k in src.fields && PickedKey(rules, src, fields, allow, k, a)
    requires k in a <==> k in b
    requires k in a ==> a[k] == b[k]
    ensures PickedKey(rules, src, fields, allow, k, b)
  {
  }

  /** One round of the loop: what an allowed key contributes. */
  method PickValue(rules: Rules, src: Json, fields: set<string>, allow: Allow, k: string, out: Obj) returns (r: Obj)
    requires src.JObj? && k in src.fields && k !in out
    ensures r.Keys <= out.Keys + {k} && (forall j :: j in out ==> j in r && r[j] == out[j])
    ensures PickedKey(rules, src, fields, allow, k, r)
    decreases src, 0
  {
    r := out;
    if rules.denied(k) || k !in fields {
      return;
    }
    match src.fields[k]
    case JObj(child) =>
      if k == "headers" {
        var h := SanitizeHeaders(rules, child);
        if |h| > 0 {
          r := r[k := JObj(h)];
        }
      } else if k in allow {
        var sub := Pick(rules, src.fields[k], allow[k], allow);
        r := r[k := JObj(sub)];
      }
    case v => r := r[k := v];
  }

  /** The loop's map while the keys in `rest` are still to be visited. */
  ghost predicate PickedSoFar(rules: Rules, src: Json, fields: set<string>, allow: Allow, rest: set<string>, out: Obj)
    requires src.JObj?
  {
    && rest <= src.fields.Keys
    && out.Keys <= src.fields.Keys - rest
    && forall k :: k in src.fields && k !in rest ==> PickedKey(rules, src, fields, allow, k, out)
  }

  lemma PickedVisit(rules: Rules, src: Json, fields: set<string>, allow: Allow, rest: set<string>, out: Obj,
                    k: string, out': Obj)
    requires src.JObj? && PickedSoFar(rules, src, fields, allow, rest, out) && k in rest
    requires out'.Keys <= out.Keys + {k} && (forall j :: j in out ==> j in out' && out'[j] == out[j])
    requires PickedKey(rules, src, fields, allow, k, out')
    ensures PickedSoFar(rules, src, fields, allow, rest - {k}, out')
  {
    forall j | j in src.fields && j !in rest ensures PickedKey(rules, src, fields, allow, j, out') {
      PickedKeyFrame(rules, src, fields, allow, j, out, out');
    }
  }

  method Pick(rules: Rules, src: Json, fields: set<string>, allow: Allow) returns (out: Obj)
    requires src.JObj?
    ensures Picked(rules, src, fields, allow, out)
    decreases src, 1
  {
    out := map[];
    var rest := src.fields.Keys;
    while rest != {}
      invariant PickedSoFar(rules, src, fields, allow, rest, out)
      decreases |rest|
    {
      var k :| k in rest;
      ghost var before := out;
      out := PickValue(rules, src, fields, allow, k, out);
      PickedVisit(rules, src, fields, allow, rest, before, k, out);
      rest := rest - {k};
    }
  }
}
