/** `sanitizeOutbound`: what it accepts, what it returns, and that it is settled after
    one pass. Follows native/weronity_core/config.go. */
module Outbound {
  import opened Wrappers
  import opened Text
  import opened Json
  import opened Gate
  import opened Sanitizer

  // ---- Field allowlists -------------------------------------------------------------

  const COMMON_FIELDS: set<string> := {
    "server", "server_port", "server_ports", "hop_interval", "network",
    "tcp_fast_open", "udp_fragment", "connect_timeout", "tls", "transport", "multiplex" }

  const TYPE_FIELDS: map<string, set<string>> := map[
    "vless" := {"uuid", "flow", "packet_encoding"},
    "vmess" := {"uuid", "security", "alter_id", "global_padding", "authenticated_length", "packet_encoding"},
    "trojan" := {"password"},
    "shadowsocks" := {"method", "password", "udp_over_tcp"},
    "hysteria2" := {"password", "up_mbps", "down_mbps", "obfs", "brutal_debug"},
    "tuic" := {"uuid", "password", "congestion_control", "udp_relay_mode",
               "udp_over_stream", "zero_rtt_handshake", "heartbeat"},
    "shadowtls" := {"version", "password"},
    "anytls" := {"password", "idle_session_check_interval", "idle_session_timeout", "min_idle_session"}]

  const OBJECT_FIELDS: Allow := map[
    "tls" := {"enabled", "disable_sni", "server_name", "insecure", "alpn",
              "min_version", "max_version", "cipher_suites", "utls", "reality", "ech"},
    "utls" := {"enabled", "fingerprint"},
    "reality" := {"enabled", "public_key", "short_id"},
    "ech" := {"enabled", "config"},
    "transport" := {"type", "path", "host", "headers", "method", "service_name", "idle_timeout",
                    "ping_timeout", "permit_without_stream", "max_early_data", "early_data_header_name"},
    "multiplex" := {"enabled", "protocol", "max_connections", "min_streams", "max_streams", "padding", "brutal"},
    "brutal" := {"enabled", "up_mbps", "down_mbps"},
    "obfs" := {"type", "password"}]

  function FieldsFor(typ: string): set<string> {
    COMMON_FIELDS + if typ in TYPE_FIELDS then TYPE_FIELDS[typ] else {}
  }

  /** The keys the sanitiser sets itself. */
  const FIXED_KEYS: set<string> := {"type", "tag", "domain_resolver"}

  // ---- A second pick changes nothing ---------------------------------------------------

  lemma {:induction false} KeyTwice(rules: Rules, src: Json, fields: set<string>, allow: Allow, k: string,
                                    once: Obj, again: Json, twice: Obj)
    requires Settled(rules) && src.JObj? && k in src.fields && k in once
    requires PickedKey(rules, src, fields, allow, k, once)
    requires again.JObj? && k in again.fields && again.fields[k] == once[k]
    requires PickedKey(rules, again, fields, allow, k, twice)
    ensures k in twice && twice[k] == once[k]
    decreases src, 0
  {
    if once[k].JObj? {
      if k == "headers" {
        var h := once[k].fields;
        if k in twice {
          HeadersTwice(rules, src.fields[k].fields, h, twice[k].fields);
        } else {
          HeadersTwice(rules, src.fields[k].fields, h, map[]);
        }
      } else {
        PickTwice(rules, src.fields[k], allow[k], allow, once[k].fields, twice[k].fields);
      }
    }
  }

  lemma {:induction false} PickTwice(rules: Rules, src: Json, fields: set<string>, allow: Allow, once: Obj, twice: Obj)
    requires Settled(rules) && src.JObj?
    requires Picked(rules, src, fields, allow, once)
    requires Picked(rules, JObj(once), fields, allow, twice)
    ensures twice == once
    decreases src, 1
  {
    forall k | k in once ensures k in twice && twice[k] == once[k] {
      assert PickedKey(rules, src, fields, allow, k, once);
      assert PickedKey(rules, JObj(once), fields, allow, k, twice);
      KeyTwice(rules, src, fields, allow, k, once, JObj(once), twice);
    }
  }

  // ---- Only allowed keys survive, at every depth ------------------------------------------

  /** Header objects: at most 24 entries, each one the rules keep as it is, none an object. */
  ghost predicate HeadersWithin(rules: Rules, h: Obj) {
    |h| <= 24 && forall k :: k in h ==> rules.header(k, h[k]) == Some(h[k]) && !h[k].JObj?
  }

  /** Every object reached from `o` through objects has only keys allowed for its field,
      and none that is denied. */
  ghost predicate Within(rules: Rules, o: Json, fields: set<string>, allow: Allow)
    requires o.JObj?
    decreases o
  {
    forall k :: k in o.fields ==>
      && k in fields && !rules.denied(k)
      && (o.fields[k].JObj? ==>
            if k == "headers" then HeadersWithin(rules, o.fields[k].fields)
            else k in allow && Within(rules, o.fields[k], allow[k], allow))
  }

  ghost predicate FlatHeaders(rules: Rules) {
    forall k, v :: rules.header(k, v).Some? ==> !rules.header(k, v).value.JObj?
  }

  lemma OutcomeWithin(rules: Rules, src: Obj, h: Obj)
    requires Settled(rules) && FlatHeaders(rules) && HeadersOutcome(rules, src, h)
    ensures HeadersWithin(rules, h)
  {
    forall k | k in h ensures rules.header(k, h[k]) == Some(h[k]) && !h[k].JObj? {
      assert k in KeptHeaders(rules, src);
    }
  }

  lemma {:induction false} PickWithin(rules: Rules, src: Json, fields: set<string>, allow: Allow, out: Obj)
    requires Settled(rules) && FlatHeaders(rules)
    requires src.JObj? && Picked(rules, src, fields, allow, out)
    ensures Within(rules, JObj(out), fields, allow)
    decreases src
  {
    forall k | k in out
      ensures k in fields && !rules.denied(k)
      ensures out[k].JObj? ==>
        if k == "headers" then HeadersWithin(rules, out[k].fields)
        else k in allow && Within(rules, out[k], allow[k], allow)
    {
      assert PickedKey(rules, src, fields, allow, k, out);
      if out[k].JObj? {
        if k == "headers" {
          OutcomeWithin(rules, src.fields[k].fields, out[k].fields);
        } else {
          PickWithin(rules, src.fields[k], allow[k], allow, out[k].fields);
          assert JObj(out[k].fields) == out[k];
        }
      }
    }
  }

  lemma RulesSettled()
    ensures Settled(RULES) && FlatHeaders(RULES)
  {
    forall k, v | RULES.header(k, v).Some?
      ensures RULES.header(k, RULES.header(k, v).value) == RULES.header(k, v)
      ensures !RULES.header(k, v).value.JObj?
    {
      HeaderResultTwice(k, v);
    }
  }

  // ---- sanitizeOutbound -------------------------------------------------------------------

  datatype SanitizeError = EmptyOutbound | NoType | TypeNotAllowed | NoServer | UnroutableServer | NoPort

  datatype SanitizeResult = SanitizeResult(outbound: Obj, warnsInsecure: bool)

  function TypeOf(raw: Obj): string {
    if Field(raw, "type").JStr? then Normal(raw["type"].s) else ""
  }

  lemma AllowedIsPlain(typ: string)
    requires typ in ALLOWED_TYPES
    ensures PlainWord(typ)
  {
  }

  /** The type is an allowed one exactly if the text spells it, in any case and with space around. */
  lemma TypeSpelled(raw: Obj, typ: string)
    requires typ in ALLOWED_TYPES
    ensures TypeOf(raw) == typ <==> Field(raw, "type").JStr? && Spells(raw["type"].s, typ)
  {
    AllowedIsPlain(typ);
    if Field(raw, "type").JStr? {
      NormalSpells(raw["type"].s, typ);
    }
  }

  function TextField(o: Obj, k: string): string {
    if Field(o, k).JStr? then o[k].s else ""
  }

  /** A field that `pick` keeps although no object allowlist names it: anything but an object. */
  predicate Plain(o: Obj, k: string) { k in o && !o[k].JObj? }

  predicate UnroutableAddress(server: string, v6: V6Table) {
    var host := TrimSuffix(Normal(server), ".");
    || host == "localhost" || HasSuffix(host, ".localhost")
    || Classify(TrimBrackets(host), v6) in {Loopback, Unroutable}
  }

  /** Why an outbound is refused, if it is. */
  function Problem(raw: Option<Obj>, v6: V6Table): Option<SanitizeError> {
    if raw.None? then Some(EmptyOutbound)
    else if TypeOf(raw.value) == "" then Some(NoType)
    else if TypeOf(raw.value) !in ALLOWED_TYPES then Some(TypeNotAllowed)
    else if TextField(raw.value, "server") == "" then Some(NoServer)
    else if UnroutableAddress(TextField(raw.value, "server"), v6) then Some(UnroutableServer)
    else if !Plain(raw.value, "server_port") && !Plain(raw.value, "server_ports") then Some(NoPort)
    else None
  }

  function Finish(picked: Obj, typ: string, tag: string): Obj {
    picked["type" := JStr(typ)]["tag" := JStr(tag)]["domain_resolver" := JStr("dns-local")]
          ["connect_timeout" := JStr("10s")]
  }

  ghost predicate Sanitized(raw: Obj, tag: string, clean: Obj) {
    exists picked ::
      Picked(RULES, JObj(raw), FieldsFor(TypeOf(raw)), OBJECT_FIELDS, picked)
      && clean == Finish(picked, TypeOf(raw), tag)
  }

  lemma {:induction false} ContainsLetter(s: string, needle: string, c: char)
    requires c in needle
    ensures Contains(s, needle) ==> c in s
  {
    if needle <= s {
      var i :| 0 <= i < |needle| && needle[i] == c;
      assert s[i] == c;
    } else if s != [] {
      ContainsLetter(s[1..], needle, c);
    }
  }

  lemma SuffixLast(s: string, suffix: string)
    requires suffix != "" && s != ""
    ensures HasSuffix(s, suffix) ==> s[|s| - 1] == suffix[|suffix| - 1]
  {
    if HasSuffix(s, suffix) {
      assert s[|s| - 1] == s[|s| - |suffix|..][|suffix| - 1];
    }
  }

  /** A key without an "x" that ends in neither "h" nor "d" is denied only by name. */
  lemma PlainKey(k: string)
    requires k != "" && k !in DENYLIST
    requires forall i :: 0 <= i < |k| ==> LowerChar(k[i]) != 'x'
    requires LowerChar(k[|k| - 1]) != 'h' && LowerChar(k[|k| - 1]) != 'd'
    ensures !Denied(k)
  {
    var l := Lower(k);
    SuffixLast(l, "_path");
    SuffixLast(l, "_command");
    assert "exec"[1] == 'x';
    ContainsLetter(l, "exec", 'x');
  }

  lemma SuffixLastButOne(s: string, suffix: string)
    requires |suffix| >= 2 && |s| >= 2
    ensures HasSuffix(s, suffix) ==> s[|s| - 2] == suffix[|suffix| - 2]
  {
    if HasSuffix(s, suffix) {
      assert s[|s| - 2] == s[|s| - |suffix|..][|suffix| - 2];
    }
  }

  /** Nor is one whose last letter but one is neither a "t" nor an "n". */
  lemma PlainEnding(k: string)
    requires |k| >= 2 && k !in DENYLIST
    requires forall i :: 0 <= i < |k| ==> LowerChar(k[i]) != 'x'
    requires LowerChar(k[|k| - 2]) != 't' && LowerChar(k[|k| - 2]) != 'n'
    ensures !Denied(k)
  {
    var l := Lower(k);
    SuffixLastButOne(l, "_path");
    SuffixLastButOne(l, "_command");
    assert "exec"[1] == 'x';
    ContainsLetter(l, "exec", 'x');
  }

  lemma TypeAndTagNotDenied()
    ensures !Denied("type") && !Denied("tag")
  {
    PlainKey("type");
    PlainKey("tag");
  }

  lemma ResolverNotDenied()
    ensures !Denied("domain_resolver")
  {
    PlainKey("domain_resolver");
  }

  lemma TimeoutNotDenied()
    ensures !Denied("connect_timeout")
  {
    PlainKey("connect_timeout");
  }

  lemma ServerNotDenied()
    ensures !Denied("server")
  {
    PlainKey("server");
  }

  lemma PortNotDenied()
    ensures !Denied("server_port")
  {
    PlainKey("server_port");
  }

  lemma PortsNotDenied()
    ensures !Denied("server_ports")
  {
    PlainKey("server_ports");
  }

  /** A plain field with an undenied allowed key is copied verbatim. */
  lemma PickedPlain(rules: Rules, raw: Obj, fields: set<string>, allow: Allow, picked: Obj, k: string)
    requires Picked(rules, JObj(raw), fields, allow, picked)
    requires k in fields && !rules.denied(k) && k != "headers" && k !in allow
    ensures k in picked <==> Plain(raw, k)
    ensures k in picked ==> picked[k] == raw[k]
  {
    if k in raw {
      assert PickedKey(rules, JObj(raw), fields, allow, k, picked);
    }
  }

  lemma ServerFieldsAllowed(typ: string)
    ensures "server" in FieldsFor(typ) && "server_port" in FieldsFor(typ) && "server_ports" in FieldsFor(typ)
  {
  }

  lemma ServerFieldsPlain()
    ensures "server" !in OBJECT_FIELDS && "server_port" !in OBJECT_FIELDS && "server_ports" !in OBJECT_FIELDS
  {
  }

  lemma PickedServer(raw: Obj, typ: string, picked: Obj)
    requires Picked(RULES, JObj(raw), FieldsFor(typ), OBJECT_FIELDS, picked)
    ensures TextField(picked, "server") == TextField(raw, "server")
  {
    ServerNotDenied();
    ServerFieldsAllowed(typ);
    ServerFieldsPlain();
    PickedPlain(RULES, raw, FieldsFor(typ), OBJECT_FIELDS, picked, "server");
  }

  lemma PickedPort(raw: Obj, typ: string, picked: Obj)
    requires Picked(RULES, JObj(raw), FieldsFor(typ), OBJECT_FIELDS, picked)
    ensures "server_port" in picked <==> Plain(raw, "server_port")
  {
    PortNotDenied();
    ServerFieldsAllowed(typ);
    ServerFieldsPlain();
    PickedPlain(RULES, raw, FieldsFor(typ), OBJECT_FIELDS, picked, "server_port");
  }

  lemma PickedPorts(raw: Obj, typ: string, picked: Obj)
    requires Picked(RULES, JObj(raw), FieldsFor(typ), OBJECT_FIELDS, picked)
    ensures "server_ports" in picked <==> Plain(raw, "server_ports")
  {
    PortsNotDenied();
    ServerFieldsAllowed(typ);
    ServerFieldsPlain();
    PickedPlain(RULES, raw, FieldsFor(typ), OBJECT_FIELDS, picked, "server_ports");
  }

  // ---- What a working node keeps ------------------------------------------------------------------------

  /** What a protocol authenticates with. */
  predicate IsCredential(typ: string, k: string) {
    match typ
    case "vless" => k == "uuid" || k == "flow"
    case "vmess" => k == "uuid" || k == "security" || k == "alter_id"
    case "trojan" => k == "password"
    case "shadowsocks" => k == "method" || k == "password"
    case "hysteria2" => k == "password"
    case "tuic" => k == "uuid" || k == "password"
    case "shadowtls" => k == "version" || k == "password"
    case "anytls" => k == "password"
    case _ => false
  }

  lemma CredentialIsField(typ: string, k: string)
    requires IsCredential(typ, k)
    ensures typ in TYPE_FIELDS && k in TYPE_FIELDS[typ]
  {
  }

  predicate CredentialName(k: string) {
    k in {"uuid", "flow", "security", "alter_id", "password", "method", "version"}
  }

  lemma CredentialIsPlain(k: string)
    requires CredentialName(k)
    ensures k !in OBJECT_FIELDS && k != "headers" && k !in OWN_KEYS
  {
  }

  lemma CredentialNotDenied(k: string)
    requires CredentialName(k)
    ensures !Denied(k)
  {
    if k == "version" || k == "security" {
      PlainKey(k);
    } else {
      PlainEnding(k);
    }
  }

  /** Sanitising leaves a node what its protocol authenticates with. */
  lemma CredentialsSurvive(raw: Obj, tag: string, clean: Obj, k: string)
    requires Sanitized(raw, tag, clean) && IsCredential(TypeOf(raw), k) && Plain(raw, k)
    ensures k in clean && clean[k] == raw[k]
  {
    var typ := TypeOf(raw);
    var picked :| Picked(RULES, JObj(raw), FieldsFor(typ), OBJECT_FIELDS, picked) && clean == Finish(picked, typ, tag);
    CredentialIsField(typ, k);
    CredentialIsPlain(k);
    CredentialNotDenied(k);
    PickedPlain(RULES, raw, FieldsFor(typ), OBJECT_FIELDS, picked, k);
    FinishKeeps(picked, typ, tag, k);
  }

  lemma FinishKeeps(picked: Obj, typ: string, tag: string, k: string)
    requires k !in OWN_KEYS
    ensures k in Finish(picked, typ, tag) <==> k in picked
    ensures k in picked ==> Finish(picked, typ, tag)[k] == picked[k]
  {
  }

  /** What the sanitiser sets itself: the tag asked for, the local resolver and a bounded timeout. */
  lemma OwnKeys(raw: Obj, tag: string, clean: Obj)
    requires Sanitized(raw, tag, clean)
    ensures Field(clean, "type") == JStr(TypeOf(raw)) && Field(clean, "tag") == JStr(tag)
    ensures Field(clean, "domain_resolver") == JStr("dns-local") && Field(clean, "connect_timeout") == JStr("10s")
  {
    var picked :| Picked(RULES, JObj(raw), FieldsFor(TypeOf(raw)), OBJECT_FIELDS, picked)
      && clean == Finish(picked, TypeOf(raw), tag);
  }

  /** The settings of a TLS layer that decide whom it trusts. */
  predicate IsTrust(k: string) {
    k == "enabled" || k == "server_name" || k == "insecure" || k == "alpn"
  }

  lemma TlsAllowed(typ: string, k: string)
    requires IsTrust(k)
    ensures "tls" in FieldsFor(typ) && "tls" in OBJECT_FIELDS && k in OBJECT_FIELDS["tls"]
    ensures k !in OBJECT_FIELDS && k != "headers"
  {
  }

  lemma TlsNotDenied(k: string)
    ensures !Denied("tls") && (IsTrust(k) ==> !Denied(k))
  {
    PlainKey("tls");
    if IsTrust(k) {
      PlainEnding(k);
    }
  }

  /** They are what the node said; and a node without a TLS object gets none. */
  lemma TlsKept(raw: Obj, typ: string, picked: Obj, k: string)
    requires Picked(RULES, JObj(raw), FieldsFor(typ), OBJECT_FIELDS, picked) && IsTrust(k)
    ensures Field(picked, "tls").JObj? <==> Field(raw, "tls").JObj?
    ensures Field(raw, "tls").JObj? && !Field(raw["tls"].fields, k).JObj? ==>
      Field(picked["tls"].fields, k) == Field(raw["tls"].fields, k)
    ensures Field(raw, "tls").JObj? && Field(raw["tls"].fields, k).JObj? ==> k !in picked["tls"].fields
  {
    TlsAllowed(typ, k);
    TlsNotDenied(k);
    if "tls" in raw {
      assert PickedKey(RULES, JObj(raw), FieldsFor(typ), OBJECT_FIELDS, "tls", picked);
      if raw["tls"].JObj? {
        PickedPlain(RULES, raw["tls"].fields, OBJECT_FIELDS["tls"], OBJECT_FIELDS, picked["tls"].fields, k);
      }
    }
  }

  /** The ways an address literal may be written: in brackets, with a trailing dot. */
  function Written(literal: string, brackets: bool, dot: bool): string {
    (if brackets then ['['] + literal + [']'] else literal) + if dot then ['.'] else []
  }

  lemma WrittenNormal(literal: string, brackets: bool, dot: bool)
    requires DottedText(literal)
    ensures Normal(Written(literal, brackets, dot)) == Written(literal, brackets, dot)
  {
    NormalKeeps(Written(literal, brackets, dot));
  }

  lemma HostOf(literal: string, brackets: bool, dot: bool)
    requires DottedText(literal)
    ensures TrimSuffix(Normal(Written(literal, brackets, dot)), ".") == Written(literal, brackets, false)
  {
    WrittenNormal(literal, brackets, dot);
    var host := Written(literal, brackets, false);
    assert host[|host| - 1] == if brackets then ']' else literal[|literal| - 1];
    DotTrimmed(host);
    assert Written(literal, brackets, dot) == if dot then host + ['.'] else host;
  }

  lemma NotLocalhost(host: string)
    requires host != [] && host[|host| - 1] != 't'
    ensures host != "localhost" && !HasSuffix(host, ".localhost")
  {
    SuffixLast(host, ".localhost");
  }

  lemma RefusedByClass(server: string, host: string, literal: string, v6: V6Table)
    requires TrimSuffix(Normal(server), ".") == host && host != "localhost" && !HasSuffix(host, ".localhost")
    requires TrimBrackets(host) == literal
    ensures UnroutableAddress(server, v6) <==> Classify(literal, v6) == Loopback || Classify(literal, v6) == Unroutable
  {
  }

  /** How an address with colons is written, in lower case. */
  predicate ColonText(s: string) {
    ':' in s && forall i :: 0 <= i < |s| ==> IsDigit(s[i]) || 'a' <= s[i] <= 'f' || s[i] == ':'
  }

  /** An address with colons, in lower case, is refused exactly if the library classes it as off limits,
      with brackets around it or without. */
  lemma ColonServer(pre: string, literal: string, post: string, v6: V6Table)
    requires ColonText(literal)
    requires (forall i :: 0 <= i < |pre| ==> IsBracket(pre[i])) && (forall i :: 0 <= i < |post| ==> IsBracket(post[i]))
    ensures UnroutableAddress(pre + literal + post, v6) <==> v6(literal) == Loopback || v6(literal) == Unroutable
  {
    var all := pre + literal + post;
    var j := |pre| + |literal|;
    forall i | 0 <= i < |all|
      ensures !IsSpace(all[i]) && LowerChar(all[i]) == all[i] && all[i] != '.' && all[i] != 't'
    {
      assert all[i] == if i < |pre| then pre[i] else if i < j then literal[i - |pre|] else post[i - j];
    }
    NormalKeeps(all);
    DotTrimmed(all);
    NotLocalhost(all);
    BracketsGone(pre, literal, post);
    SplitNoSeparator(literal, '.');
    RefusedByClass(all, all, literal, v6);
  }

  /** Loopback, multicast, link-local or unspecified. */
  predicate OffLimits(a: nat, b: nat, c: nat, d: nat) {
    a == 127 || 224 <= a <= 239 || (a == 169 && b == 254) || (a == 0 && b == 0 && c == 0 && d == 0)
  }

  /** A dotted IPv4 server, however written, is refused exactly if it is a loopback, multicast or
      link-local address or 0.0.0.0. */
  lemma DottedServer(a: nat, b: nat, c: nat, d: nat, brackets: bool, dot: bool, v6: V6Table)
    requires a < 256 && b < 256 && c < 256 && d < 256
    ensures UnroutableAddress(Written(Dotted(a, b, c, d), brackets, dot), v6)
      <==> OffLimits(a, b, c, d)
  {
    DottedIsText(a, b, c, d);
    DottedClass(a, b, c, d, v6);
    TextServer(Dotted(a, b, c, d), brackets, dot, v6);
  }

  lemma TextServer(literal: string, brackets: bool, dot: bool, v6: V6Table)
    requires DottedText(literal)
    ensures UnroutableAddress(Written(literal, brackets, dot), v6)
      <==> Classify(literal, v6) == Loopback || Classify(literal, v6) == Unroutable
  {
    var host := Written(literal, brackets, false);
    HostOf(literal, brackets, dot);
    NotLocalhost(host);
    BracketsTrimmed(literal);
    assert host == if brackets then ['['] + literal + [']'] else literal;
    RefusedByClass(Written(literal, brackets, dot), host, literal, v6);
  }

  /** `localhost`, or a name that ends in `.localhost`: any mix of case, space around it, perhaps a
      trailing dot. */
  ghost predicate LoopbackName(server: string) {
    exists pre, name, tail, dot, post :: LoopbackParts(server, pre, name, tail, dot, post)
  }

  ghost predicate LoopbackParts(server: string, pre: string, name: string, tail: string, dot: string, post: string) {
    && server == pre + (name + tail + dot) + post && AllSpace(pre) && AllSpace(post) && (dot == "" || dot == ".")
    && (|| (name == "" && CaseVariant(tail, "localhost"))
        || ((name == "" || !IsSpace(name[0])) && CaseVariant(tail, ".localhost")))
  }

  lemma LoopbackWords()
    ensures PlainWord("localhost") && PlainWord(".localhost")
  {
  }

  lemma LoopbackHost(name: string, tail: string, dot: string)
    requires dot == "" || dot == "."
    requires (name == "" && CaseVariant(tail, "localhost")) || CaseVariant(tail, ".localhost")
    ensures var host := TrimSuffix(Lower(name + tail + dot), "."); host == "localhost" || HasSuffix(host, ".localhost")
  {
    LoopbackWords();
    VariantLower(tail, "localhost");
    VariantLower(tail, ".localhost");
    LowerParts(name + tail, dot);
    LowerParts(name, tail);
    DotTrimmed(Lower(name + tail));
    assert Lower(name + tail) + "" == Lower(name + tail);
  }

  lemma LoopbackRefused(server: string, pre: string, name: string, tail: string, dot: string, post: string, v6: V6Table)
    requires LoopbackParts(server, pre, name, tail, dot, post)
    ensures UnroutableAddress(server, v6)
  {
    LoopbackWords();
    VariantLower(tail, "localhost");
    VariantLower(tail, ".localhost");
    var mid := name + tail + dot;
    assert mid[|mid| - 1] == if dot == "." then '.' else tail[|tail| - 1];
    TrimSpaceOver(pre, mid, post);
    LoopbackHost(name, tail, dot);
  }

  /** What trimming the dot leaves of a text in lower case, and what it takes away. */
  lemma HostSplits(t: string, host: string)
    requires host == TrimSuffix(Lower(t), ".")
    ensures |host| <= |t| && host == Lower(t)[..|host|] && (t[|host|..] == "" || t[|host|..] == ".")
  {
    if |host| < |t| {
      assert Lower(t)[|t| - 1..] == ".";
      assert Lower(t)[|t| - 1] == '.' == LowerChar(t[|t| - 1]);
      LetterLower(t[|t| - 1], '.');
      assert t[|host|..] == [t[|t| - 1]];
    }
  }

  lemma LowerSlice(t: string, from: nat, to: nat)
    requires from <= to <= |t|
    ensures Lower(t[from..to]) == Lower(t)[from..to]
  {
  }

  lemma TailIsVariant(tail: string, low: string)
    requires (low == "localhost" || low == ".localhost") && Lower(tail) == low
    ensures CaseVariant(tail, low)
  {
    LoopbackWords();
    VariantLower(tail, low);
  }

  lemma ThreeParts(t: string, k: nat, m: nat)
    requires k <= m <= |t|
    ensures t[..k] + t[k..m] + t[m..] == t && (k > 0 ==> t[..k][0] == t[0])
  {
  }

  lemma SuffixOf(host: string) returns (low: string)
    requires host == "localhost" || HasSuffix(host, ".localhost")
    ensures low == "localhost" || low == ".localhost"
    ensures |low| <= |host| && host[|host| - |low|..] == low && (low == "localhost" ==> host == low)
  {
    low := if host == "localhost" then "localhost" else ".localhost";
  }

  lemma LoopbackFrom(server: string, pre: string, name: string, tail: string, dot: string, post: string, low: string)
    requires server == pre + (name + tail + dot) + post && AllSpace(pre) && AllSpace(post) && (dot == "" || dot == ".")
    requires (low == "localhost" && name == "") || (low == ".localhost" && (name == "" || !IsSpace(name[0])))
    requires CaseVariant(tail, low)
    ensures LoopbackName(server)
  {
    assert LoopbackParts(server, pre, name, tail, dot, post);
  }

  lemma HostIsLoopback(server: string, pre: string, t: string, post: string, host: string)
    requires server == pre + t + post && AllSpace(pre) && AllSpace(post) && (t == "" || !IsSpace(t[0]))
    requires host == TrimSuffix(Lower(t), ".") && (host == "localhost" || HasSuffix(host, ".localhost"))
    ensures LoopbackName(server)
  {
    var low := SuffixOf(host);
    HostSplits(t, host);
    var m := |host|;
    var k := m - |low|;
    LowerSlice(t, k, m);
    TailIsVariant(t[k..m], low);
    ThreeParts(t, k, m);
    LoopbackFrom(server, pre, t[..k], t[k..m], t[m..], post, low);
  }

  lemma RefusedIsLoopback(server: string)
    requires var host := TrimSuffix(Normal(server), "."); host == "localhost" || HasSuffix(host, ".localhost")
    ensures LoopbackName(server)
  {
    var pre, post := TrimSpaceSplits(server);
    HostIsLoopback(server, pre, TrimSpace(server), post, TrimSuffix(Normal(server), "."));
  }

  /** A name is refused exactly if it is a loopback name; other names are left to the resolver. */
  lemma NamedServer(server: string, v6: V6Table)
    requires var host := TrimBrackets(TrimSuffix(Normal(server), ".")); !V4Literal(host) && ':' !in host
    ensures UnroutableAddress(server, v6) <==> LoopbackName(server)
  {
    if LoopbackName(server) {
      var pre, name, tail, dot, post :| LoopbackParts(server, pre, name, tail, dot, post);
      LoopbackRefused(server, pre, name, tail, dot, post, v6);
    }
    if UnroutableAddress(server, v6) {
      RefusedIsLoopback(server);
    }
  }

  /** Refuses loopback names and the dotted addresses off limits; every other dotted address and
      every other name passes. */
  method CheckServerAddr(server: string, v6: V6Table) returns (ok: bool)
    ensures ok <==> !UnroutableAddress(server, v6)
    ensures LoopbackName(server) ==> !ok
    ensures forall a, b, c, d, brackets, dot ::
      0 <= a < 256 && 0 <= b < 256 && 0 <= c < 256 && 0 <= d < 256
      && server == Written(Dotted(a, b, c, d), brackets, dot)
      ==> (ok <==> !OffLimits(a, b, c, d))
  {
    forall a, b, c, d, brackets, dot |
      0 <= a < 256 && 0 <= b < 256 && 0 <= c < 256 && 0 <= d < 256
      && server == Written(Dotted(a, b, c, d), brackets, dot)
      ensures UnroutableAddress(server, v6) <==> OffLimits(a, b, c, d)
    {
      DottedServer(a, b, c, d, brackets, dot, v6);
    }
    if LoopbackName(server) {
      var pre, name, tail, dot, post :| LoopbackParts(server, pre, name, tail, dot, post);
      LoopbackRefused(server, pre, name, tail, dot, post, v6);
    }
    var host := TrimSuffix(Normal(server), ".");
    if host == "localhost" || HasSuffix(host, ".localhost") {
      return false;
    }
    var kind := Classify(TrimBrackets(host), v6);
    ok := kind == NotAnAddress || kind == Routable;
  }

  method SanitizeOutbound(raw: Option<Obj>, tag: string, v6: V6Table) returns (r: Result<SanitizeResult, SanitizeError>)
    ensures r.Ok? <==> Problem(raw, v6).None?
    ensures r.Err? ==> Problem(raw, v6) == Some(r.error)
    ensures r.Ok? ==> Sanitized(raw.value, tag, r.value.outbound)
    ensures r.Ok? ==>
      (r.value.warnsInsecure <==>
       Field(raw.value, "tls").JObj? && Field(raw.value["tls"].fields, "insecure") == JBool(true))
  {
    if raw.None? {
      return Err(EmptyOutbound);
    }
    var typ := TypeOf(raw.value);
    if typ == "" {
      return Err(NoType);
    }
    if typ !in ALLOWED_TYPES {
      return Err(TypeNotAllowed);
    }
    var picked := Pick(RULES, JObj(raw.value), FieldsFor(typ), OBJECT_FIELDS);
    PickedServer(raw.value, typ, picked);
    PickedPort(raw.value, typ, picked);
    PickedPorts(raw.value, typ, picked);
    TlsKept(raw.value, typ, picked, "insecure");
    var server := TextField(picked, "server");
    if server == "" {
      return Err(NoServer);
    }
    var routable := CheckServerAddr(server, v6);
    if !routable {
      return Err(UnroutableServer);
    }
    if "server_port" !in picked && "server_ports" !in picked {
      return Err(NoPort);
    }
    var tls := Field(picked, "tls");
    var insecure := tls.JObj? && Field(tls.fields, "insecure") == JBool(true);
    return Ok(SanitizeResult(Finish(picked, typ, tag), insecure));
  }

  /** Accepted are exactly the outbounds of an allowed type, however spelled, with the text of a server
      that is not off limits and a port or a port list that is not an object. */
  lemma AcceptedMeans(raw: Obj, v6: V6Table)
    ensures Problem(Some(raw), v6).None? <==>
      && (exists typ :: typ in ALLOWED_TYPES && Field(raw, "type").JStr? && Spells(raw["type"].s, typ))
      && Field(raw, "server").JStr? && raw["server"].s != "" && !UnroutableAddress(raw["server"].s, v6)
      && (|| ("server_port" in raw && !raw["server_port"].JObj?)
          || ("server_ports" in raw && !raw["server_ports"].JObj?))
  {
    forall typ | typ in ALLOWED_TYPES
      ensures TypeOf(raw) == typ <==> Field(raw, "type").JStr? && Spells(raw["type"].s, typ)
    {
      TypeSpelled(raw, typ);
    }
    assert "" !in ALLOWED_TYPES;
  }

  // ---- One pass settles an outbound ------------------------------------------------------

  const OWN_KEYS: set<string> := {"type", "tag", "domain_resolver", "connect_timeout"}

  ghost predicate AgreeOutside(own: set<string>, a: Obj, b: Obj) {
    forall k :: k !in own ==> (k in a <==> k in b) && (k in a ==> a[k] == b[k])
  }

  lemma PickAgain(rules: Rules, raw: Obj, fields: set<string>, allow: Allow, once: Obj, again: Obj, twice: Obj,
                  own: set<string>)
    requires Settled(rules)
    requires Picked(rules, JObj(raw), fields, allow, once) && Picked(rules, JObj(again), fields, allow, twice)
    requires AgreeOutside(own, once, again)
    ensures AgreeOutside(own, once, twice)
  {
    forall k | k !in own && k in once ensures k in twice && twice[k] == once[k] {
      assert PickedKey(rules, JObj(raw), fields, allow, k, once);
      assert PickedKey(rules, JObj(again), fields, allow, k, twice);
      KeyTwice(rules, JObj(raw), fields, allow, k, once, JObj(again), twice);
    }
  }

  lemma FinishAgrees(a: Obj, b: Obj, typ: string, tag: string)
    ensures AgreeOutside(OWN_KEYS, a, Finish(a, typ, tag))
    ensures AgreeOutside(OWN_KEYS, a, b) ==> Finish(a, typ, tag) == Finish(b, typ, tag)
  {
  }

  lemma FinishReads(picked: Obj, typ: string, tag: string)
    ensures TypeOf(Finish(picked, typ, tag)) == Normal(typ)
    ensures TextField(Finish(picked, typ, tag), "server") == TextField(picked, "server")
    ensures Plain(Finish(picked, typ, tag), "server_port") <==> Plain(picked, "server_port")
    ensures Plain(Finish(picked, typ, tag), "server_ports") <==> Plain(picked, "server_ports")
  {
  }

  lemma PickedPortsPlain(raw: Obj, typ: string, picked: Obj)
    requires Picked(RULES, JObj(raw), FieldsFor(typ), OBJECT_FIELDS, picked)
    ensures Plain(raw, "server_port") ==> Plain(picked, "server_port")
    ensures Plain(raw, "server_ports") ==> Plain(picked, "server_ports")
  {
    PickedPort(raw, typ, picked);
    PickedPorts(raw, typ, picked);
    if Plain(raw, "server_port") {
      assert PickedKey(RULES, JObj(raw), FieldsFor(typ), OBJECT_FIELDS, "server_port", picked);
    }
    if Plain(raw, "server_ports") {
      assert PickedKey(RULES, JObj(raw), FieldsFor(typ), OBJECT_FIELDS, "server_ports", picked);
    }
  }

  /** All that `Problem` reads of an outbound. */
  lemma SameProblem(a: Obj, b: Obj, v6: V6Table)
    requires Problem(Some(a), v6).None? && TypeOf(a) == TypeOf(b) && TextField(a, "server") == TextField(b, "server")
    requires Plain(a, "server_port") ==> Plain(b, "server_port")
    requires Plain(a, "server_ports") ==> Plain(b, "server_ports")
    ensures Problem(Some(b), v6).None?
  {
  }

  lemma FinishedPasses(raw: Obj, tag: string, picked: Obj, v6: V6Table)
    requires Problem(Some(raw), v6).None?
    requires Picked(RULES, JObj(raw), FieldsFor(TypeOf(raw)), OBJECT_FIELDS, picked)
    ensures var once := Finish(picked, TypeOf(raw), tag); Problem(Some(once), v6).None? && TypeOf(once) == TypeOf(raw)
  {
    var typ := TypeOf(raw);
    NormalTwice(raw["type"].s);
    FinishReads(picked, typ, tag);
    PickedServer(raw, typ, picked);
    PickedPortsPlain(raw, typ, picked);
    SameProblem(raw, Finish(picked, typ, tag), v6);
  }

  lemma FinishedTwice(raw: Obj, typ: string, tag: string, picked: Obj, again: Obj)
    requires Picked(RULES, JObj(raw), FieldsFor(typ), OBJECT_FIELDS, picked)
    requires Picked(RULES, JObj(Finish(picked, typ, tag)), FieldsFor(typ), OBJECT_FIELDS, again)
    ensures Finish(again, typ, tag) == Finish(picked, typ, tag)
  {
    RulesSettled();
    FinishAgrees(picked, picked, typ, tag);
    PickAgain(RULES, raw, FieldsFor(typ), OBJECT_FIELDS, picked, Finish(picked, typ, tag), again, OWN_KEYS);
    FinishAgrees(picked, again, typ, tag);
  }

  /** Sanitising a sanitised outbound with the same tag succeeds and gives it back,
      whatever order either pass walks its maps in. */
  lemma SanitizeTwice(raw: Obj, tag: string, once: Obj, v6: V6Table)
    requires Problem(Some(raw), v6).None? && Sanitized(raw, tag, once)
    ensures Problem(Some(once), v6).None?
    ensures forall twice :: Sanitized(once, tag, twice) ==> twice == once
  {
    var typ := TypeOf(raw);
    var picked :| Picked(RULES, JObj(raw), FieldsFor(typ), OBJECT_FIELDS, picked) && once == Finish(picked, typ, tag);
    FinishedPasses(raw, tag, picked, v6);
    forall twice | Sanitized(once, tag, twice) ensures twice == once {
      var again :| Picked(RULES, JObj(once), FieldsFor(typ), OBJECT_FIELDS, again) && twice == Finish(again, typ, tag);
      FinishedTwice(raw, typ, tag, picked, again);
    }
  }

  lemma FinishWithin(rules: Rules, picked: Obj, fields: set<string>, allow: Allow, typ: string, tag: string)
    requires Within(rules, JObj(picked), fields, allow)
    requires "connect_timeout" in fields && !rules.denied("connect_timeout")
    requires !rules.denied("type") && !rules.denied("tag") && !rules.denied("domain_resolver")
    ensures Within(rules, JObj(Finish(picked, typ, tag)), fields + FIXED_KEYS, allow)
  {
  }

  /** A sanitised outbound holds only allowed keys and no denied one, at every depth
      reached through objects. */
  lemma SanitizedIsContained(raw: Obj, tag: string, clean: Obj)
    requires Sanitized(raw, tag, clean)
    ensures Within(RULES, JObj(clean), FieldsFor(TypeOf(raw)) + FIXED_KEYS, OBJECT_FIELDS)
  {
    var typ := TypeOf(raw);
    var picked :| Picked(RULES, JObj(raw), FieldsFor(typ), OBJECT_FIELDS, picked) && clean == Finish(picked, typ, tag);
    RulesSettled();
    PickWithin(RULES, JObj(raw), FieldsFor(typ), OBJECT_FIELDS, picked);
    TypeAndTagNotDenied();
    ResolverNotDenied();
    TimeoutNotDenied();
    TimeoutAllowed(typ);
    FinishWithin(RULES, picked, FieldsFor(typ), OBJECT_FIELDS, typ, tag);
  }

  lemma TimeoutAllowed(typ: string)
    ensures "connect_timeout" in FieldsFor(typ)
  {
  }
}
