# Weronity: a verified model of its hard parts

This project models five components of Weronity and proves what they are for.

**The session protocol.** `SingBoxBridge` (Dart) drives the sing-box engine through requests that a
helper isolate carries out. `Bridge` cuts the bridge at its awaits: one function per uninterrupted
stretch of code. `Core` is the engine as its callers see it. `Session` puts both together as a
transition system: user calls, the poll, the core serving one outstanding request, a suspended call
going on. Any enabled event may come next, so requests are served one at a time in any order. An
invariant over every run gives: one start at a time and never on a running engine; no engine left
behind; the node shown is the node used; a restart keeps the session's mode; a call that a disconnect
overtook never ends protected; everything drains; a disconnect wins. `Live` is the class `SingBoxBridge` itself: its methods change
the fields as the source does, keep that invariant as their `Valid()`, and `Live.SingBoxBridge.Drive`
runs any legal sequence of events through them.

A protected session can lose its engine with no user action only through a late stop. A disconnect is
careless when it asks for a stop while another one, which no suspended call waits for, is still
outstanding. If no disconnect is careless, protected means running, shown and safe, for every order of
service (`Session.ProtectedIsProtected`); and a careless one is dangerous, always
(`Session.DangerIsCareless`). A caller that tests `isActive` first, as every caller in the app does
(home_screen.dart:26, tray_host.dart:83, singbox_bridge.dart:345), is never careless
(`Session.ActiveGuardProtects`).

**The engine.** `Engine` follows `startEngine`, `stopEngine` and `selectCandidate` as methods of a
class that also keeps the set of handles acquired and not yet released. Vetting, failure points,
panics, the relay's port and the free port are inputs of a start. Its caller's view of each method is
the function `Core` gives the session protocol, and the candidate in use is the one whose sanitised
form carries the traffic: what a box dials at boot is read from its generated configuration.

**The GeoIP index.** `GeoTable` sweeps possibly overlapping country ranges into a gap-free, minimal
table, `GeoAsset` lays it out in bytes, `GeoService` parses and searches it, and `GeoIndex` proves
that the search answers as a scan of the source lines does.

**The configuration generator, its gate and the sanitiser.** `Sanitizer` and `Outbound` rebuild an
untrusted outbound from allowlists (map iteration order is arbitrary), `Gate` gives the exact meaning
of `assertOutboundsSafe`, and `Config` shows that what the two builders generate always passes.

**The collector.** `Lifetime` proves the incremental observation history equal to a function of the
whole trace of runs; `QuicProbe` covers forced version negotiation (section 6 of RFC 9000), Salamander
and the retransmitting exchange; `Ranking` and `Backups` prove the two top-k selections optimal, on
top of `StableSort`.

## Findings

- A panic inside `box.New` (engine.go:157) loses the cancel function made just before it: the
  deferred clean-up of `startEngine` knows only what `newBox` returned. `Engine.LosesCancel` names
  exactly the starts this happens to, `Engine.LosingStart` is one; every other handle is released or
  held. `Engine.StartEngine` states both.
- `disconnect` called while the status is disconnected already can end a later session: the bridge
  remembers only the latest stop (singbox_bridge.dart:260), and the one before, served late, stops the
  engine of the next session while the status stays protected until the next poll
  (`Session.TwoDisconnects`, `Session.PollFindsDeath`). The guard is `isActive`, which `disconnect`
  does not test itself.
- The comment on `assertOutboundsSafe` (config.go:619-625) lists two orders of the outbounds; the code
  accepts every interleaving of the three roles: `Gate.RolesCommute`. The model follows the code.
- The comment in `lifetime_for` (lifetime.py:131-132) says that entries without `first_run` decay from
  1.0; they stay at 1.0 for good: `Lifetime.LegacyNeverDecays`. The model follows the code.
- `stability` is published to three decimals, so a share below half a thousandth is published as 0;
  the share itself is always above 0.
- A node is long-lived from its 73rd hour on, not beyond 72 hours as the comment says (lifetime.py:34):
  the age compared has its minutes dropped (`Lifetime.ClassMeans`). The model follows the code.
- "Nodes with no measurement sort last" (candidates.dart:51) holds exactly as far as the measured ones
  answered within 1048576 ms (`Backups.PingsInOrder`).
- The guard "too many country codes" (build_geoip.py:77) cannot fire: `GeoTable.CodesFit`.

## Assumptions

- Session: a start future completes with the core's return code or throws without having taken effect;
  a stop future completes after the stop took effect; nobody else drives the core.
- The awaits of a call whose future is already complete still suspend it, as in Dart.
- Times and timeouts are exact; a report at the very moment of a deadline may fall on either side.

## Model

| member | source | states |
|---|---|---|
| GeoTable.FilterRows | app/tool/build_geoip.py:54-69 | The rows kept are, in order and with their own first, last and code, exactly the well-formed lines: three parts, both numbers, a two-letter code, a non-empty range within 32 bits |
| GeoTable.KeptLine | app/tool/build_geoip.py:56-69 | A line is kept exactly if it is well-formed, as the row of its own two addresses and code |
| GeoTable.NaiveIsFirstCovering | app/tool/build_geoip.py:71-94 | The reference scan (lowest start wins, file order on a tie) is the first covering row of the stably sorted list |
| GeoTable.BuildCodeIndex | app/tool/build_geoip.py:73-76 | The dictionary numbers "" and exactly the codes of the rows 0, 1, 2, … without gaps or repeats |
| GeoTable.SortCodes | app/tool/build_geoip.py:105 | Position i of the code table holds the code numbered i |
| GeoTable.CodesFit | app/tool/build_geoip.py:77-79 | Valid rows never have more than 677 codes, so the guard cannot fire |
| GeoTable.Sweep | app/tool/build_geoip.py:84-96 | Overlapping and nested ranges flatten to a gap-free increasing table from 0 that gives every address its first covering row's code, or 0 |
| GeoTable.Coalesce | app/tool/build_geoip.py:98-103 | Same answer for every address, and neighbours differ |
| GeoTable.CoalescedIsMinimal | app/tool/build_geoip.py:98-103 | A coalesced table over distinct codes has no more records than any gap-free table, with any code list, that names the same country for every address |
| GeoAsset.Pack | app/tool/build_geoip.py:107-115 | The bytes written are the documented layout; it fails exactly when the count does not fit 32 bits |
| GeoAsset.LittleEndian | app/tool/build_geoip.py:107-115 | Counts, starts and indices are written with the least significant byte first |
| GeoAsset.AssetHeader | app/lib/data/geoip_service.dart:14-20 | Length, magic, both counts and both tables lie where the layout says |
| GeoAsset.AssetCode | app/lib/data/geoip_service.dart:64-70 | The i-th two bytes of the code table are the i-th code's letters, or begin with zero for "", and read back as that code |
| GeoAsset.AssetRecord | app/lib/data/geoip_service.dart:78-82 | The i-th six bytes of the records read back as the i-th start and index |
| GeoService.ReadRecords | app/lib/data/geoip_service.dart:76-82 | Both arrays hold what the layout places at each record |
| GeoService.ParseBytes | app/lib/data/geoip_service.dart:53-84 | Succeeds exactly on bytes with the magic and complete tables, otherwise the first error met; the result holds what the bytes say |
| GeoIndex.ParsesExactly | app/lib/data/geoip_service.dart:53-84 | The parser accepts exactly the byte strings made of the magic, a two-byte count, that many codes, a four-byte count and that many records, and whatever follows |
| GeoService.GeoIpService.LookupIp | app/lib/data/geoip_service.dart:100-114 | On an increasing table the binary search answers for the last record at or before the address, null for none and for the empty code |
| GeoIndex.ParseUndoesPack | app/lib/data/geoip_service.dart:53-84 | Parsing packed bytes gives back the same codes, starts and indices |
| GeoIndex.NumberCodes | app/tool/build_geoip.py:73-105 | "" is at index 0 and only there, every row's code at its number |
| GeoIndex.BuildTable | app/tool/build_geoip.py:71-105 | For any valid rows, overlapping or nested: codes all distinct, a gap-free table from 0 that names, for every address, the country the reference scan picks |
| GeoIndex.NeighboursDiffer | app/tool/build_geoip.py:98-103 | Neighbouring records of the built table name different countries |
| GeoIndex.BuiltIsMinimal | app/tool/build_geoip.py:84-103 | No gap-free table, whatever its code list, names the scan's countries with fewer records than the built one |
| GeoIndex.BuildAsset | app/tool/build_geoip.py:71-115 | Packs that table; fails exactly on a count of 2^32 or more |
| GeoIndex.ScanFindsWinner | app/tool/build_geoip.py:54-94 | The scan of the kept rows answers with the well-formed source line of the lowest start that covers the address, the earliest on a tie, and with none exactly if no line covers it |
| GeoIndex.IndexAnswersAsScan | app/lib/data/geoip_service.dart:100-114 | From source lines to the lookup: the packed, parsed, searched index answers, for every 32-bit address, with the country of the well-formed line of the lowest start that covers it, the earliest on a tie, and with none exactly if no line does |
| Gate.NodeTagInjective | native/weronity_core/config.go:401-402 | Different candidates have different tags |
| Gate.CheckOne | native/weronity_core/config.go:637-665 | One round lets an outbound through exactly if its tag is new and fits its role, its type and the counter |
| Gate.SafePasses | native/weronity_core/config.go:637-665 | No round refuses an outbound of a safe list: the counter is where the tag expects it, whatever the interleaving |
| Gate.ScannedAll | native/weronity_core/config.go:666-677 | After the loop the final checks hold exactly of the safe lists |
| Gate.ScanOutbounds | native/weronity_core/config.go:626-679 | The one-pass scan accepts a list if and only if it has a safe shape |
| Gate.AssertOutboundsSafe | native/weronity_core/config.go:619-679 | Accepts exactly: one `direct` of type direct, one `proxy`, and either no candidate and a protocol-typed proxy, or `node-0`… in order, of allowed types, with a selector-typed proxy |
| Gate.SafeMeans | native/weronity_core/config.go:637-665 | Of an accepted list, "direct" is of type direct, "proxy" a selector or one of the eight protocols, and every other entry one of them under a numbered tag |
| Gate.SafeTagsDistinct | native/weronity_core/config.go:637-640 | No two entries of an accepted list share a tag |
| Gate.SafeIsWhole | native/weronity_core/config.go:666-671 | An accepted list has a "direct" and a "proxy" |
| Gate.RolesCommute | native/weronity_core/config.go:619-625 | Outbounds of different roles may change places: more orders pass than the two listed |
| Text.LocalhostIsLoopback | native/weronity_core/config.go:612-614 | The generated listen address counts as loopback |
| Text.NormalSpells | native/weronity_core/config.go:222-285 | Trimmed and lower-cased, a text is a given plain word exactly if it is that word in any mix of case with space around it |
| Text.BytesAreEncoded | native/weronity_core/config.go:151-165 | The length the header limits count is that of the UTF-8 encoding (section 3 of RFC 3629) |
| Sanitizer.DeniedMeans | native/weronity_core/config.go:118-126 | Denied are exactly the harmful names and the parts of a configuration, and, in any case, what ends in `_path` or `_command` or holds `exec` |
| Sanitizer.HeaderMeans | native/weronity_core/config.go:151-176 | A header is kept exactly under a clean, undenied name of 1 to 128 bytes: a clean text of at most 512 bytes as it is, of a list its clean texts |
| Sanitizer.TextsKept | native/weronity_core/config.go:162-172 | Of a list value exactly the clean texts of at most 512 bytes are kept |
| Sanitizer.SanitizeHeaders | native/weronity_core/config.go:151-178 | Whatever the walk order: only clean headers with clean values, all of them up to 24, any 24 beyond that |
| Sanitizer.PickValue | native/weronity_core/config.go:190-211 | What one key contributes, and that it disturbs no other |
| Sanitizer.Pick | native/weronity_core/config.go:184-213 | At any depth and in any order, each key is dropped, copied, cleaned or recursed into as its field's allowlist says |
| Sanitizer.HeadersTwice | native/weronity_core/config.go:146-178 | Cleaning cleaned headers changes nothing |
| Outbound.PickTwice | native/weronity_core/config.go:180-213 | Picking from a picked object changes nothing, at any depth |
| Outbound.PickWithin | native/weronity_core/config.go:180-213 | Every object reached through objects has only keys allowed for its field and none denied |
| Outbound.CheckServerAddr | native/weronity_core/config.go:280-298 | Every spelling of `localhost` or of a name ending in `.localhost` is refused; a dotted server, plain, in brackets or with a trailing dot, passes exactly if it is not 127.x, 224-239.x, 169.254.x or 0.0.0.0 |
| Outbound.DottedServer | native/weronity_core/config.go:289-296 | The same of any four bytes, written in any of those ways |
| Outbound.NamedServer | native/weronity_core/config.go:284-292 | A name is refused exactly if it is `localhost` or ends in `.localhost`: in any mix of case, with space around it, perhaps with a trailing dot |
| Outbound.LoopbackRefused | native/weronity_core/config.go:284-288 | Each such spelling is refused, whatever the library says of addresses |
| Outbound.ColonServer | native/weronity_core/config.go:289-296 | An address with colons, with or without brackets, is refused exactly if the library classes it as off limits |
| Outbound.TypeSpelled | native/weronity_core/config.go:222-230 | The type is an allowed one exactly if the text spells it, in any mix of case and with space around it |
| Text.DottedClass | native/weronity_core/config.go:289-296 | A dotted text is classified by its four bytes: splitting and reading the decimals gives them back |
| Outbound.SanitizeOutbound | native/weronity_core/config.go:215-278 | Succeeds exactly when none of the six reasons applies, otherwise reports the first; the result is the picked object with the keys the sanitiser sets itself |
| Outbound.AcceptedMeans | native/weronity_core/config.go:218-268 | Accepted are exactly the outbounds of an allowed type however spelled, with the text of a server that is not off limits and a port or port list that is not an object |
| Outbound.CredentialsSurvive | native/weronity_core/config.go:73-91 | What a protocol authenticates with is in the result as it was in the input |
| Outbound.TlsKept | native/weronity_core/config.go:93-96 | The settings by which a TLS layer trusts its peer survive as they were; none appear that were not there |
| Outbound.OwnKeys | native/weronity_core/config.go:249-275 | The result has its own type, the tag asked for, the local resolver and a 10 s connect timeout |
| Outbound.SanitizeTwice | native/weronity_core/config.go:215-278 | Sanitising a sanitised outbound with its tag succeeds and gives the same object, for any walk orders |
| Outbound.SanitizedIsContained | native/weronity_core/config.go:218-278 | A sanitised outbound holds only allowed keys and no denied one, at every depth reached through objects |
| Config.AssertConfigSafe | native/weronity_core/config.go:568-617 | Accepts exactly: decodable, no experimental block, one inbound of the mode's kind, outbounds of a safe shape |
| Config.VpnInboundMeans | native/weronity_core/config.go:594-602 | In vpn mode an inbound passes exactly if it is a tun with `auto_route` and no `listen` |
| Config.ProxyInboundMeans | native/weronity_core/config.go:603-615 | In proxy mode an inbound on a dotted address passes exactly if it is no tun and the address is 127.x |
| Config.ProxyInboundListens | native/weronity_core/config.go:603-615 | and one without an address to listen on is refused |
| Config.OutboundMeans | native/weronity_core/config.go:571-592 | The gate reads an outbound by its type and tag |
| Config.SafeConfigHolds | native/weronity_core/config.go:571-617 | An accepted configuration has one inbound, at least two outbounds and no experimental block |
| Config.ModesExclude | native/weronity_core/config.go:594-615 | No configuration passes in both modes |
| Config.BuildOutbounds | native/weronity_core/config.go:408-440 | One candidate stands as `proxy`, several become `node-i` under a selector whose default is the first; only the empty list fails |
| Config.FirstIsDialled | native/weronity_core/config.go:408-440 | What the "proxy" of the generated outbounds dials at boot (a lone outbound itself, or the member the selector's default names) is the first candidate |
| Config.OutboundsExist | native/weronity_core/config.go:415-440 | "proxy" and each candidate's tag find an outbound of the list, and the selector has every candidate as a member |
| Config.ReadyIsSafe | native/weronity_core/config.go:408-440 | Built from tagged, sanitised candidates, the outbounds have a safe shape |
| Config.GeneratedIsSafe | native/weronity_core/config.go:463-566 | Both generated configurations pass the gate in their mode, for any port, level and binding |
| Config.BuildBoundProxyConfig | native/weronity_core/config.go:463-501 | With tagged, sanitised candidates it succeeds exactly for a port in 1..65535 |
| Config.BuildTunConfig | native/weronity_core/config.go:523-566 | With tagged, sanitised candidates it always succeeds |
| Config.ProxyConfigAsked | native/weronity_core/config.go:463-501 | The proxy configuration listens on 127.0.0.1 at the port asked for, logs at the level asked for, routes to "proxy" and binds as asked |
| Config.RouteAsked | native/weronity_core/config.go:471-479 | Sockets are bound to the interface named, or to the detected one exactly if none is named and that was asked for |
| Config.TunConfigAsked | native/weronity_core/config.go:523-566 | The tunnel configuration takes the routes, as strictly as asked for, and routes to "proxy" |
| Config.ResolversExist | native/weronity_core/config.go:387-399 | The resolver that outbounds are pinned to exists, is local and goes through no outbound; the final one goes through "proxy" |
| Engine.AcceptedPass | native/weronity_core/engine.go:246-266 | Accepted positions ascend and each passed |
| Engine.AcceptedAll | native/weronity_core/engine.go:246-266 | Every candidate that passes is accepted |
| Engine.VerdictMeans | native/weronity_core/engine.go:171-182 | A candidate passes exactly if it sanitises and its throwaway box is created and closed without an error |
| Engine.AcceptedExactly | native/weronity_core/engine.go:246-266 | The accepted positions are, in order, exactly those of the candidates that do |
| Engine.StartSucceedsMeans | native/weronity_core/engine.go:193-358 | A start succeeds exactly if its first candidate passes, vetting the others does not panic, the box is created and boots, and a proxy session finds its ports |
| Engine.WinningStart | native/weronity_core/engine.go:193-372 | Such a start exists |
| Engine.CandidatesAre | native/weronity_core/engine.go:234-241 | The candidates are the first 32 outbounds given, or the single one of the older form |
| Engine.ModeMeans | native/weronity_core/config.go:338-343 | The mode is vpn exactly if the text spells it; every other text is proxy |
| Engine.PortMeans | native/weronity_core/config.go:346-351 | The public port is the one given if it is within 0..65535, else 55555 |
| Engine.LevelMeans | native/weronity_core/config.go:373-380 | The level is the one given, in any mix of case, if it is one of seven, else `info` |
| Engine.OutcomeIsPossible | native/weronity_core/engine.go:243-276 | A start that succeeds keeps the first candidate, ascending positions, none beyond 32: what the session protocol relies on |
| Engine.TagsDistinct | native/weronity_core/engine.go:267-276 | No two survivors share a tag |
| Engine.GroupMember | native/weronity_core/engine.go:267-276 | In a group, "proxy" finds the selector, each survivor's tag finds its own outbound, and the selector has it as a member |
| Engine.MemberIsSanitised | native/weronity_core/engine.go:135-141 | The p-th tag leads to the sanitised form of the candidate the caller numbered acceptedIdx[p], whatever was dropped |
| Engine.TagSurvivors | native/weronity_core/engine.go:267-276 | A single survivor is tagged `proxy`, several `node-0`…, nothing else about them changes |
| Engine.Engine.NewBox | native/weronity_core/engine.go:146-163 | A box comes with its cancel function or neither stays open; only a panic loses the cancel function |
| Engine.Engine.TryBox | native/weronity_core/engine.go:176-181 | A throwaway box leaves nothing open, whatever happens; the candidate passes exactly if the box was created and closed without an error |
| Engine.Engine.OutboundConstructs | native/weronity_core/engine.go:165-182 | A sanitised candidate never fails on its one-node configuration: it passes exactly if its box is created and closed without an error |
| Engine.Engine.VetCandidates | native/weronity_core/engine.go:243-266 | Succeeds exactly if the first passes and nothing panics; then the accepted are exactly the candidates that sanitise and whose box is created and closed, each with its sanitised outbound |
| Engine.Engine.GenerateConfig | native/weronity_core/engine.go:278-296 | Vetted candidates are never refused by the gate: only the port can fail; the result is safe for the mode and has the candidates' outbounds |
| Engine.Engine.OpenRelay | native/weronity_core/engine.go:316-329 | Opens one relay or none, falling back to any port unless any port was asked for |
| Engine.Engine.Acquire | native/weronity_core/engine.go:298-332 | What is open is exactly what it returns, at every failure point up to the commit, a panic after the relay opened included |
| Engine.Engine.CleanUp | native/weronity_core/engine.go:208-225 | Whatever was acquired is released, once |
| Engine.Engine.Boot | native/weronity_core/engine.go:202-332 | The session's box, cancel function and relay, or nothing of them |
| Engine.Engine.Launch | native/weronity_core/engine.go:298-358 | Commits a session that is consistent, its box dialling the tag recorded as active, or leaves the engine stopped with nothing open |
| Engine.Engine.Prepare | native/weronity_core/engine.go:227-296 | Nothing stays open before the session's own box, at any failure point |
| Engine.Engine.Commit | native/weronity_core/engine.go:340-358 | The session takes over exactly what is open, and its box, read from its configuration, dials the first survivor |
| Engine.FirstTagDialled | native/weronity_core/engine.go:340-358 | The configuration generated for a session dials its first tag, which the commit records as the active one |
| Engine.Engine.BootedBox | native/weronity_core/engine.go:298-314 | A box has the outbounds of its configuration and dials what that configuration says |
| Engine.Engine.StartWith | native/weronity_core/engine.go:227-372 | Succeeds exactly under the stated condition; a failure leaves the engine stopped with nothing open |
| Engine.Engine.StartEngine | native/weronity_core/engine.go:184-372 | A running engine stays as it is. Otherwise the session of exactly the candidates that sanitise and construct, or none; a cancel function is lost exactly on a panic in `newBox` |
| Engine.FirstPanic | native/weronity_core/engine.go:246-252 | Vetting stops at its first panic, and that one decides whether a cancel function is lost |
| Engine.LosesCancelMeans | native/weronity_core/engine.go:154-161 | A cancel function is lost exactly if creating a box is the first panic of the start: a vetting box, with the first candidate not refused, or the session's own |
| Engine.LosingStart | native/weronity_core/engine.go:154-161 | A start that loses one: a single good candidate, and a panic in the box that vets it |
| Engine.Engine.StopEngine | native/weronity_core/engine.go:374-405 | Afterwards nothing is open and there is no session; each handle was released once |
| Engine.Engine.PositionIn | native/weronity_core/engine.go:433-442 | Finds the caller's index among the accepted ones, or reports that it is not there |
| Engine.Engine.MoveTo | native/weronity_core/engine.go:453-459 | Only the candidate in use changes |
| Engine.Engine.UsedIsCarried | native/weronity_core/engine.go:135-141 | In every session the traffic goes through the sanitised form of the candidate in use, as the caller numbers it |
| Engine.Engine.SelectCandidate | native/weronity_core/engine.go:407-463 | Succeeds exactly if at least two survived and i is accepted; then the sanitised i-th input carries the traffic; a refusal changes nothing |
| Engine.Drive | native/weronity_core/engine.go:193-463 | Over any sequence of calls: what is open is what the session holds, nothing once stopped, the lost cancel functions are exactly counted, and the candidate in use carries the traffic |
| Bridge.CandidateSetGood | app/lib/core/singbox_bridge.dart:229-238 | Primary first, no id twice, at most 16; a backup is left out only for a present id or a full set |
| Bridge.CandidateSetInOrder | app/lib/core/singbox_bridge.dart:229-238 | After the primary come backups in the order given, of several with one id the first |
| Bridge.IndexOf | app/lib/core/singbox_bridge.dart:306 | The first position with that id, or -1 exactly if there is none |
| Live.SingBoxBridge.CollectCandidates | app/lib/core/singbox_bridge.dart:229-238 | The loop with its set of seen ids: primary first, then backups in order, of one id the first, no id twice, at most 16 |
| Live.SingBoxBridge.Connect | app/lib/core/singbox_bridge.dart:127-153 | Keeps the invariant; nothing happens while a session is up or an operation in flight, otherwise connecting to the node if there is one it may use, an error if not; no other field changes |
| Live.SingBoxBridge.SwitchTo | app/lib/core/singbox_bridge.dart:293-318 | Keeps the invariant and the status; nothing happens to the node in use or while an operation is in flight; a member of the running group is hot-swapped, shown and used on the same engine; any other node restarts it, in the session's own mode |
| Live.GroupIsHotSwapped | app/lib/core/singbox_bridge.dart:303-314 | Switching to a survivor of the running group that is not the one in use is done without a restart |
| Live.OthersRestart | app/lib/core/singbox_bridge.dart:316-320 | and only such a switch is |
| Live.SingBoxBridge.Disconnect | app/lib/core/singbox_bridge.dart:241-261 | Keeps the invariant; disconnected at once, every call in flight overtaken, and a stop outstanding exactly where the engine runs or is being started |
| Live.SingBoxBridge.Toggle | app/lib/core/singbox_bridge.dart:343-345 | The guarded disconnect is never careless: it keeps the invariant under which protected means running |
| Live.SingBoxBridge.Tick | app/lib/core/singbox_bridge.dart:355-363 | Between operations, protected afterwards exactly if the engine runs; during one, nothing |
| Live.SingBoxBridge.AfterStoppingAwait | app/lib/core/singbox_bridge.dart:153-158 | An engine that still runs is stopped; on a stopped one a start is asked for: this node, its backups in order, in the mode of the setting |
| Live.SingBoxBridge.AfterStopAwait | app/lib/core/singbox_bridge.dart:318-320 | The engine is stopped; an overtaken switch ends here, any other call asks for its start, a switch in the mode the session had |
| Live.SingBoxBridge.AfterStartAwait | app/lib/core/singbox_bridge.dart:211-219 | What is recorded is the list and mode the engine runs; a failed or overtaken start leaves no candidates, one that threw leaves all as it was |
| Live.SingBoxBridge.AfterStartReturned | app/lib/core/singbox_bridge.dart:159-185 | A call still wanted ends protected, this node shown and used, exactly if the engine runs, and in an error otherwise; an overtaken one stays disconnected and has an engine that came up stopped |
| Live.SingBoxBridge.AfterOrphanAwait | app/lib/core/singbox_bridge.dart:222-227 | The call ends disconnected with the engine stopped |
| Live.SingBoxBridge.Resume | app/lib/core/singbox_bridge.dart:153-185 | Keeps the invariant; an overtaken call never ends protected, and one that does shows the node in use |
| Live.SingBoxBridge.CoreServesCall | native/weronity_core/engine.go:193-198 | Keeps the invariant; a start is served on a stopped engine and boots the list and mode asked for, or nothing |
| Live.SingBoxBridge.DisconnectEnds | app/lib/core/singbox_bridge.dart:258-263 | Keeps the invariant; only its own stop is forgotten, and one still remembered is still outstanding or served |
| Live.SingBoxBridge.Drive | app/lib/core/singbox_bridge.dart:127-363 | Any legal run through the class keeps the invariant: at rest with the engine running, shown is used or a stop is coming; with no careless disconnect, protected means running |
| Session.StepKeeps | app/lib/core/singbox_bridge.dart:127-363 | The protocol's invariant survives every event |
| Session.RunKeeps | app/lib/core/singbox_bridge.dart:127-363 | and so every run, under any interleaving and service order |
| Session.OneStartAtATime | app/lib/core/singbox_bridge.dart:148-158 | At most one call is suspended; a start is outstanding only on a stopped engine, so "already running" (engine.go:196) is never answered |
| Session.NoOrphan | app/lib/core/singbox_bridge.dart:222-265 | At rest and not protected, a running engine still has a stop outstanding |
| Session.ShownIsUsed | app/lib/core/singbox_bridge.dart:82-85 | Protected and at rest with a running engine: the candidates are the engine's list, and the entry in use has the shown node's id, in the shown mode |
| Session.OvertakenNeverProtects | app/lib/core/singbox_bridge.dart:70-72 | A call whose epoch changed never ends protected, however late it goes on |
| Session.StartAsksFor | app/lib/core/singbox_bridge.dart:196-210 | A start asks for its node, then the backups in order, in the mode of the setting, or for a switch in the mode it noted |
| Session.SwitchKeepsMode | app/lib/core/singbox_bridge.dart:316-320 | Over every run, each start that a restarting switch asks for is in the mode the session had when it was called, whatever the setting says |
| Session.SwitchBootsMode | app/lib/core/singbox_bridge.dart:316-320 | and so is every engine it boots |
| Session.SwitchEndsInMode | app/lib/core/singbox_bridge.dart:316-331 | A switch that ends protected leaves the mode shown as it was |
| Session.SystemRunsEnd | app/lib/core/singbox_bridge.dart:241-265 | What bridge and core do on their own ends within a bounded number of steps |
| Session.NeverStuck | app/lib/core/singbox_bridge.dart:153-160 | Until all is drained, some request can be served or some call go on |
| Session.DisconnectWins | app/lib/core/singbox_bridge.dart:23-27 | After a disconnect, with no further call, the status stays disconnected and the engine is stopped once all is drained |
| Session.DiesOnlyByLateStop | app/lib/core/singbox_bridge.dart:258-263 | A protected session can lose its engine unasked if and only if a stop is outstanding |
| Session.PollFindsDeath | app/lib/core/singbox_bridge.dart:355-363 | and the poll then reports it |
| Session.ProtectedIsProtected | app/lib/core/singbox_bridge.dart:74-76 | If no disconnect of the run is careless, protected and at rest means running, shown and safe, for every order of service |
| Session.ActiveGuardProtects | app/lib/core/singbox_bridge.dart:101-104 | So it does if each disconnect is called only while `isActive` |
| Session.DangerIsCareless | app/lib/core/singbox_bridge.dart:256-263 | After such a run, a disconnect can cost a later session its engine if and only if it is careless |
| Session.CarelessKills | app/lib/core/singbox_bridge.dart:256-263 | From any careless disconnect, whatever is in flight, a run leads to protected, at rest and stopped |
| Session.TwoDisconnects | app/lib/core/singbox_bridge.dart:256-263 | Two disconnects in a row, the second while disconnected already, are such a case |
| Lifetime.SeenState.Observe | collector/src/weronity_collector/pipeline/lifetime.py:94-111 | The loop over the present ids and the prune give the state one run later |
| Lifetime.SeenState.Prune | collector/src/weronity_collector/pipeline/lifetime.py:113-121 | Drops exactly the entries last seen before the cutoff |
| Lifetime.SeenState.LifetimeFor | collector/src/weronity_collector/pipeline/lifetime.py:124-145 | The published lifetime of a tracked id; `KeyError` exactly for the others |
| Lifetime.HistoryRefines | collector/src/weronity_collector/pipeline/lifetime.py:94-121 | After any trace an id is tracked exactly if it has a current streak, and its entry is the streak's: first presence after the last expiry, last presence, number of presences |
| Lifetime.PublishedFromTrace | collector/src/weronity_collector/pipeline/lifetime.py:124-145 | Published are the first and last presence of the streak to the second, the whole hours since the first, and the number of presences |
| Lifetime.ClassMeans | collector/src/weronity_collector/pipeline/lifetime.py:33-45 | Fresh below 24 hours since the first presence, long-lived from 73 hours on |
| Lifetime.KeptWithinWindow | collector/src/weronity_collector/pipeline/lifetime.py:113-121 | An id the run does not see keeps its entry exactly if it was last seen within the window |
| Lifetime.SeenAgain | collector/src/weronity_collector/pipeline/lifetime.py:94-110 | An id seen again is counted once more, from none if no count was kept, and keeps its beginning |
| Lifetime.StreakUnique | collector/src/weronity_collector/pipeline/lifetime.py:94-121 | There is at most one current streak |
| Lifetime.StabilityIsShare | collector/src/weronity_collector/pipeline/lifetime.py:15-18 | Stability is the share of the runs since the streak began in which the node was present, to the nearest thousandth; the clamps never act; full exactly if present in all |
| Lifetime.LegacyNeverDecays | collector/src/weronity_collector/pipeline/lifetime.py:131-135 | Without `first_run` stability is 1.0 if and only if at least one run is counted |
| Lifetime.LegacyStaysLegacy | collector/src/weronity_collector/pipeline/lifetime.py:99-110 | and no later run changes that |
| Lifetime.SurvivesOwnPrune | collector/src/weronity_collector/pipeline/lifetime.py:111-119 | An id survives the prune of its own run exactly if the window covers the microseconds its stamp dropped |
| Lifetime.RecordRun | collector/src/weronity_collector/pipeline/build.py:112-120 | Every published node has its lifetime, exactly if the window is an hour or more, or 0 with a whole second, or nothing is alive |
| QuicProbe.ProbeShape | collector/src/weronity_collector/pipeline/ping.py:94-102 | 1200 bytes, long header, fixed bit, reserved version (sections 14.1, 15, 17.2 of RFC 9000), never itself an answer |
| QuicProbe.AcceptedShape | collector/src/weronity_collector/pipeline/ping.py:105-107 | Accepted is exactly a long header with version 0 and two bytes more |
| QuicProbe.AnswersAccepted | collector/src/weronity_collector/pipeline/ping.py:105-107 | Any laid-out long header is accepted exactly if its version is 0 (section 17.2.1 of RFC 9000) |
| QuicProbe.LaysUnique | collector/src/weronity_collector/pipeline/ping.py:96-102 | A packet has one reading as a long header |
| QuicProbe.SalamanderRoundTrip | collector/src/weronity_collector/pipeline/ping.py:110-124 | Deobfuscating an obfuscated packet gives it back, for every salt, key, 32-byte hash and packet, the empty one included |
| QuicProbe.SalamanderOnto | collector/src/weronity_collector/pipeline/ping.py:115-124 | Every datagram longer than a salt is an obfuscation of what it is read as |
| QuicProbe.WrapIsOnWire | collector/src/weronity_collector/pipeline/ping.py:110-124 | Without a password, or with an empty one, the packet is sent as it is; otherwise the salt and then each byte under the key byte of its place |
| QuicProbe.ConformingServerIsHeard | collector/src/weronity_collector/pipeline/ping.py:132-136 | A server that shares the key reads the probe's own header, and its conforming answer under a fresh salt counts |
| QuicProbe.Probe.Receive | collector/src/weronity_collector/pipeline/ping.py:132-140 | The answer is decided at most once, by a version negotiation packet or an error |
| QuicProbe.Probe.Wait | collector/src/weronity_collector/pipeline/ping.py:161-164 | One wait ends decided exactly if the first decisive report comes before its deadline |
| QuicProbe.Probe.SendAndWait | collector/src/weronity_collector/pipeline/ping.py:159-164 | What is sent reads back as the probe, and the wait is as above |
| QuicProbe.ProbeServer | collector/src/weronity_collector/pipeline/ping.py:143-172 | Success exactly if a version negotiation packet, once cleared, comes in time with no error before it and no send failed by then; at most two datagrams, each the probe, obfuscated exactly if the password is not empty, the second only if the first half brought no answer; at most one timeout; the time reported is the first answer's in whole milliseconds |
| QuicProbe.AnsweredMeans | collector/src/weronity_collector/pipeline/ping.py:132-140 | The first decisive report is an answer in time exactly if some answer comes in time with no error before it: useless datagrams cost nothing |
| QuicProbe.TimeOfAnswer | collector/src/weronity_collector/pipeline/ping.py:157-167 | The first decisive report, if an answer, is the first answer |
| QuicProbe.AnswerPassesFilter | collector/src/weronity_collector/pipeline/build.py:107 | The time of an answer in time never exceeds the limit in milliseconds |
| Ranking.GroupByCountry | collector/src/weronity_collector/pipeline/build.py:162-164 | Every country's group lists its nodes in order, "??" taking those without one |
| Ranking.RankedInTurn | collector/src/weronity_collector/pipeline/build.py:166-168 | A sorted group goes by stability down, ping up, then list order |
| Ranking.AnyStableSort | collector/src/weronity_collector/pipeline/build.py:166-168 | Any stable sort gives that order |
| Ranking.PlaceIsAhead | collector/src/weronity_collector/pipeline/build.py:166-168 | A node's place is the number of compatriots ahead of it |
| Ranking.MarkedMeans | collector/src/weronity_collector/pipeline/build.py:165-170 | A node is recommended exactly if fewer compatriots than the quota are ahead of it |
| Ranking.QuotaOfTheBest | collector/src/weronity_collector/pipeline/build.py:165-170 | Each country gets its quota and no compatriot left out is strictly better |
| Ranking.ChosenAreBest | collector/src/weronity_collector/pipeline/build.py:161-170 | A compatriot passed over is less stable than a chosen node, or as stable and slower (9999 ms if unmeasured), or equal in both and later in the list |
| Ranking.QuotaFilled | collector/src/weronity_collector/pipeline/build.py:162-170 | Of each country ("??" for nodes without one) the quota is chosen, all if there are fewer; of a negative quota, all but that many |
| Ranking.MarkAll | collector/src/weronity_collector/pipeline/build.py:169-170 | One country's choice is marked and nothing else |
| Ranking.MarkRecommended | collector/src/weronity_collector/pipeline/build.py:161-170 | Exactly the chosen nodes of every country become recommended |
| Backups.CollectEligible | app/lib/state/candidates.dart:27-30 | The nodes that count as eligible, in pool order |
| Backups.EligibleAre | app/lib/state/candidates.dart:27-30 | Eligible are exactly the alive nodes other than the primary, as often as the pool lists them |
| Backups.TiersInOrder | app/lib/state/candidates.dart:21-35 | The primary's country comes first, then recommended nodes of others, then the rest; within a tier a secure hop before an insecure one; the order is strict |
| Backups.PingsInOrder | app/lib/state/candidates.dart:32-54 | After those the lower ping; an unmeasured node ranks as 1048576 ms |
| Backups.BackupCandidates | app/lib/state/candidates.dart:16-39 | min(limit, eligible) nodes, in order, and no node left out strictly precedes a kept one, whatever the unstable sort does with ties; a negative limit is a range error |
| Backups.CandidateSetKeepsAll | app/lib/core/singbox_bridge.dart:229-238 | The bridge drops none of the backups exactly if there are at most 15 and no id comes twice |

## Left out

- JSON, CSV and text libraries: marshalling, `splitlines`, `strip`, `upper`, `int`, Go's
  case-insensitive key matching in `json.Unmarshal`, ISO time formatting. Trees, parsed lines and
  microseconds take their place.
- Text.Classify: IPv6 literals are classified by an arbitrary table; only dotted IPv4 is modelled.
- Text.Lower: exact wherever the lower case is ASCII, the Kelvin sign and the dotted capital I
  included; other letters keep their case, which no comparison in the modelled code can see.
- Outbound.SanitizeOutbound: says nothing of keys inside arrays, which `pick` copies as they are
  (config.go:208-209).
- Lifetime.LifetimeFor: the share is an exact fraction, and a tie between two thousandths may fall on
  either side. A float quotient of run counts below 10^12 is never that close to a tie without being
  one, so for these the two agree; beyond, they need not.
- Engine.StartEngine: panics after the commit point and inside the clean-up itself are not modelled,
  nor are logging, warnings, counters, the ping loop and the self-test.
- Session.ShownIsUsed: identifies nodes by id, as the bridge does; two nodes with one id are one.
- Session.NeverStuck: assumes that the core eventually serves what is asked, and a completed future
  eventually resumes its call.
- Live.SingBoxBridge.SwitchTo: the true or false that `select` and `switchTo` return to their
  callers is not modelled, nor are exceptions from settings, backups or a stop.
- `dispose()`, listeners that call back into the bridge, `select` when its node does not resolve, and
  the display fields (last error, traffic, history, selection): no protocol state.
- `parseV4`, `lookupHost` and its cache, `cachedCountry`: small parsing and a memo table.
- QuicProbe.ProbeServer: datagrams and errors come as a timeline; DNS and sockets are its inputs. The
  TCP and TLS probes are plain library calls.
- `preferSecure`, `_clean_tag`, `_is_public`, `_stats`, deduplication, the URI and Clash parsers: easy
  or without a counterpart to prove against.
- The user interface, sing-box itself, TUN devices, elevation, FFI marshalling and the `NativeCore`
  wrapper: requests and accept or reject outcomes stand for them.
