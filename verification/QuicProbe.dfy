/** The QUIC reachability probe of collector/src/weronity_collector/pipeline/ping.py: forced
    version negotiation, section 6 of RFC 9000, optionally behind Salamander obfuscation. */
module QuicProbe {
  import opened Wrappers

  type Bytes = seq<bv8>

  const QUIC_MIN_DATAGRAM := 1200
  const SALT_LEN := 8
  const KEY_LEN := 32
  const CID_LEN := 8
  const HEADER_LEN := 23
  const GREASE_VERSION: Bytes := [0x1a, 0x2a, 0x3a, 0x4a]
  const NEGOTIATION: Bytes := [0, 0, 0, 0]

  // ---- Packets -----------------------------------------------------------------------------------

  /** The probe, for the random bytes drawn. */
  function ProbePacket(dcid: Bytes, scid: Bytes, padding: Bytes): Bytes {
    [0xc0] + GREASE_VERSION + [8] + dcid + [8] + scid + padding
  }

  ghost predicate Drawn(dcid: Bytes, scid: Bytes, padding: Bytes) {
    |dcid| == CID_LEN && |scid| == CID_LEN && |padding| == QUIC_MIN_DATAGRAM - HEADER_LEN
  }

  predicate IsVersionNegotiation(datagram: Bytes) {
    |datagram| >= 7 && datagram[0] & 0x80 != 0 && datagram[1..5] == NEGOTIATION
  }

  /** A long header as section 17.2 of RFC 9000 lays it out, whatever its version. */
  datatype LongHeader = LongHeader(
    first: bv8, version: Bytes, dcidLen: bv8, dcid: Bytes, scidLen: bv8, scid: Bytes, rest: Bytes)

  ghost predicate Lays(h: LongHeader, packet: Bytes) {
    && h.first & 0x80 != 0 && |h.version| == 4
    && |h.dcid| == h.dcidLen as int && |h.scid| == h.scidLen as int
    && packet == [h.first] + h.version + [h.dcidLen] + h.dcid + [h.scidLen] + h.scid + h.rest
  }

  /** The packet a server answers with, section 17.2.1 of RFC 9000: version 0, the connection
      ids exchanged, then the versions it supports. */
  ghost predicate Negotiates(reply: Bytes, to: LongHeader) {
    exists h :: Lays(h, reply) && h.version == NEGOTIATION
                && h.dcid == to.scid && h.scid == to.dcid && |h.rest| % 4 == 0
  }

  /** A version reserved to force negotiation, section 15 of RFC 9000: 0x?a?a?a?a. */
  predicate Reserved(version: Bytes) {
    |version| == 4 && forall i :: 0 <= i < 4 ==> version[i] & 0x0f == 0x0a
  }

  /** The probe is a full-size datagram (section 14.1 of RFC 9000) with a long header, the fixed
      bit and a reserved version, and never itself counts as an answer. */
  lemma ProbeShape(dcid: Bytes, scid: Bytes, padding: Bytes)
    requires Drawn(dcid, scid, padding)
    ensures var p := ProbePacket(dcid, scid, padding);
      && |p| == QUIC_MIN_DATAGRAM && !IsVersionNegotiation(p)
      && Lays(LongHeader(0xc0, GREASE_VERSION, 8, dcid, 8, scid, padding), p)
      && Reserved(GREASE_VERSION) && p[0] & 0x40 != 0
  {
    var p := ProbePacket(dcid, scid, padding);
    assert p[1..5] == GREASE_VERSION;
    assert GREASE_VERSION[0] != NEGOTIATION[0];
  }

  /** What is accepted, exactly: a long header with version 0 and two bytes more. */
  lemma AcceptedShape(d: Bytes)
    ensures IsVersionNegotiation(d) <==>
      exists first: bv8, rest: Bytes :: first & 0x80 != 0 && |rest| >= 2 && d == [first] + NEGOTIATION + rest
  {
    if IsVersionNegotiation(d) {
      assert d == [d[0]] + NEGOTIATION + d[5..];
    }
    forall first: bv8, rest: Bytes | first & 0x80 != 0 && |rest| >= 2 && d == [first] + NEGOTIATION + rest
      ensures IsVersionNegotiation(d)
    {
      assert d[1..5] == NEGOTIATION;
    }
  }

  /** Any conforming answer, to any packet, is accepted; a long header of any other version is
      not. */
  lemma AnswersAccepted(reply: Bytes, h: LongHeader)
    requires Lays(h, reply)
    ensures IsVersionNegotiation(reply) <==> h.version == NEGOTIATION
  {
    assert reply[1..5] == h.version;
  }

  lemma Middle<T>(a: seq<T>, b: seq<T>, c: seq<T>)
    ensures (a + b + c)[|a|..|a| + |b|] == b && (a + b + c)[|a| + |b|..] == c
  {
  }

  /** Where the six parts that follow a first element lie. */
  lemma PartsAt<T>(x: T, u: seq<T>, y: T, v: seq<T>, z: T, w: seq<T>, rest: seq<T>, p: seq<T>)
    requires p == [x] + u + [y] + v + [z] + w + rest
    ensures var i, j := 1 + |u|, 2 + |u| + |v|; var k := j + 1 + |w|;
      && k <= |p| && p[0] == x && p[1..i] == u && p[i] == y && p[i + 1..j] == v
      && p[j] == z && p[j + 1..k] == w && p[k..] == rest
  {
    var head := [x] + u + [y];
    var ids := head + v + [z];
    assert p == ids + w + rest;
    assert p == head + v + ([z] + w + rest);
    Middle(head, v, [z] + w + rest);
    Middle(ids, w, rest);
  }

  /** A packet has one reading as a long header. */
  lemma LaysUnique(a: LongHeader, b: LongHeader, p: Bytes)
    requires Lays(a, p) && Lays(b, p)
    ensures a == b
  {
    PartsAt(a.first, a.version, a.dcidLen, a.dcid, a.scidLen, a.scid, a.rest, p);
    PartsAt(b.first, b.version, b.dcidLen, b.dcid, b.scidLen, b.scid, b.rest, p);
  }

  // ---- Salamander -----------------------------------------------------------------------------------

  /** The keyed hash: any function to 32 bytes. */
  type Key = k: Bytes | |k| == KEY_LEN witness seq(KEY_LEN, _ => 0)
  type Hash = Bytes -> Key

  function SalamanderXor(hash: Hash, psk: Bytes, salt: Bytes, data: Bytes): Bytes {
    var key := hash(psk + salt);
    seq(|data|, i requires 0 <= i < |data| => data[i] ^ key[i % KEY_LEN])
  }

  function Obfuscate(hash: Hash, psk: Bytes, salt: Bytes, packet: Bytes): Bytes {
    salt + SalamanderXor(hash, psk, salt, packet)
  }

  function Deobfuscate(hash: Hash, psk: Bytes, datagram: Bytes): Bytes {
    if |datagram| <= SALT_LEN then [] else SalamanderXor(hash, psk, datagram[..SALT_LEN], datagram[SALT_LEN..])
  }

  lemma XorTwice(a: bv8, k: bv8)
    ensures (a ^ k) ^ k == a
  {
  }

  lemma SalamanderRoundTrip(hash: Hash, psk: Bytes, salt: Bytes, packet: Bytes)
    requires |salt| == SALT_LEN
    ensures Deobfuscate(hash, psk, Obfuscate(hash, psk, salt, packet)) == packet
  {
    var d := Obfuscate(hash, psk, salt, packet);
    if packet != [] {
      assert d[..SALT_LEN] == salt && d[SALT_LEN..] == SalamanderXor(hash, psk, salt, packet);
      var back := Deobfuscate(hash, psk, d);
      forall i | 0 <= i < |packet| ensures back[i] == packet[i] {
        XorTwice(packet[i], hash(psk + salt)[i % KEY_LEN]);
      }
    }
  }

  /** And the other way: a datagram longer than a salt is its own salt's obfuscation. */
  lemma SalamanderOnto(hash: Hash, psk: Bytes, datagram: Bytes)
    requires |datagram| > SALT_LEN
    ensures Obfuscate(hash, psk, datagram[..SALT_LEN], Deobfuscate(hash, psk, datagram)) == datagram
  {
    var salt, packet := datagram[..SALT_LEN], Deobfuscate(hash, psk, datagram);
    var again := Obfuscate(hash, psk, salt, packet);
    forall i | SALT_LEN <= i < |datagram| ensures again[i] == datagram[i] {
      XorTwice(datagram[i], hash(psk + salt)[(i - SALT_LEN) % KEY_LEN]);
    }
  }

  /** What goes on the wire and how it is read back; the key is absent for an empty password. */
  function Wrap(hash: Hash, psk: Option<Bytes>, salt: Bytes, packet: Bytes): Bytes {
    if psk.Some? then Obfuscate(hash, psk.value, salt, packet) else packet
  }

  function Clear(hash: Hash, psk: Option<Bytes>, datagram: Bytes): Bytes {
    if psk.Some? then Deobfuscate(hash, psk.value, datagram) else datagram
  }

  function Psk(password: Option<Bytes>): Option<Bytes> {
    if password.None? || password.value == [] then None else password
  }

  /** What is sent of a packet: as it is without a password, or with an empty one; otherwise the salt
      and every byte of the packet under the key's byte for its place. */
  ghost predicate OnWire(hash: Hash, password: Option<Bytes>, salt: Bytes, packet: Bytes, d: Bytes) {
    if password.None? || |password.value| == 0 then d == packet
    else
      && |d| == 8 + |packet| && d[..8] == salt
      && forall i :: 0 <= i < |packet| ==> d[8 + i] == packet[i] ^ hash(password.value + salt)[i % 32]
  }

  lemma WrapIsOnWire(hash: Hash, password: Option<Bytes>, salt: Bytes, packet: Bytes)
    requires |salt| == SALT_LEN
    ensures OnWire(hash, password, salt, packet, Wrap(hash, Psk(password), salt, packet))
  {
  }

  lemma WrapClears(hash: Hash, psk: Option<Bytes>, salt: Bytes, packet: Bytes)
    requires |salt| == SALT_LEN
    ensures Clear(hash, psk, Wrap(hash, psk, salt, packet)) == packet && |Wrap(hash, psk, salt, packet)| >= |packet|
  {
    if psk.Some? {
      SalamanderRoundTrip(hash, psk.value, salt, packet);
    }
  }

  /** A conforming server that shares the key is understood: what it reads is the probe, and
      its answer, under a salt of its own, counts. */
  lemma ConformingServerIsHeard(hash: Hash, psk: Option<Bytes>, dcid: Bytes, scid: Bytes, padding: Bytes, salt: Bytes,
                                seen: LongHeader, reply: Bytes, salt': Bytes)
    requires Drawn(dcid, scid, padding) && |salt| == SALT_LEN && |salt'| == SALT_LEN
    requires Lays(seen, Clear(hash, psk, Wrap(hash, psk, salt, ProbePacket(dcid, scid, padding))))
    requires Negotiates(reply, seen)
    ensures seen == LongHeader(0xc0, GREASE_VERSION, 8, dcid, 8, scid, padding)
    ensures IsVersionNegotiation(Clear(hash, psk, Wrap(hash, psk, salt', reply)))
  {
    WrapClears(hash, psk, salt, ProbePacket(dcid, scid, padding));
    WrapClears(hash, psk, salt', reply);
    ProbeShape(dcid, scid, padding);
    LaysUnique(seen, LongHeader(0xc0, GREASE_VERSION, 8, dcid, 8, scid, padding), ProbePacket(dcid, scid, padding));
    var h :| Lays(h, reply) && h.version == NEGOTIATION;
    AnswersAccepted(reply, h);
  }

  // ---- The exchange -------------------------------------------------------------------------------------

  /** What the socket reports, at seconds after the first send. */
  datatype Report = Datagram(data: Bytes) | SocketError
  datatype Arrival = Arrival(at: real, report: Report)

  ghost predicate Timeline(arrivals: seq<Arrival>) {
    && (forall i :: 0 <= i < |arrivals| ==> 0.0 <= arrivals[i].at)
    && (forall i, j :: 0 <= i < j < |arrivals| ==> arrivals[i].at <= arrivals[j].at)
  }

  /** `edge` says whether a report at the very deadline still comes before the timer. */
  predicate InTime(a: Arrival, deadline: real, edge: bool) {
    a.at < deadline || (edge && a.at == deadline)
  }

  /** What a report decides: an answer yes, an error no, anything else nothing. */
  function Decides(hash: Hash, psk: Option<Bytes>, r: Report): Option<bool> {
    match r
    case SocketError => Some(false)
    case Datagram(data) => if IsVersionNegotiation(Clear(hash, psk, data)) then Some(true) else None
  }

  function Reading(hash: Hash, psk: Option<Bytes>): Report -> Option<bool> {
    r => Decides(hash, psk, r)
  }

  function FirstDecisive(decide: Report -> Option<bool>, arrivals: seq<Arrival>): (f: nat)
    ensures f <= |arrivals|
    ensures forall i :: 0 <= i < f ==> decide(arrivals[i].report).None?
    ensures f < |arrivals| ==> decide(arrivals[f].report).Some?
  {
    if arrivals == [] || decide(arrivals[0].report).Some? then 0
    else
      var rest := FirstDecisive(decide, arrivals[1..]);
      assert forall i :: 1 <= i < |arrivals| ==> arrivals[i] == arrivals[1..][i - 1];
      rest + 1
  }

  /** The first decisive report comes before the deadline. */
  predicate Due(decide: Report -> Option<bool>, arrivals: seq<Arrival>, deadline: real, edge: bool) {
    var f := FirstDecisive(decide, arrivals);
    f < |arrivals| && InTime(arrivals[f], deadline, edge)
  }

  predicate Yes(decide: Report -> Option<bool>, arrivals: seq<Arrival>) {
    var f := FirstDecisive(decide, arrivals);
    f < |arrivals| && decide(arrivals[f].report) == Some(true)
  }

  lemma YesOrNo(o: Option<bool>)
    ensures o.None? || o == Some(true) || o == Some(false)
  {
    match o
    case None =>
    case Some(yes) =>
      if yes {
        assert o == Some(true);
      } else {
        assert o == Some(false);
      }
  }

  // ---- What the first decisive report means ---------------------------------------------------------

  ghost predicate Answer(hash: Hash, psk: Option<Bytes>, r: Report) {
    r.Datagram? && IsVersionNegotiation(Clear(hash, psk, r.data))
  }

  /** A version negotiation packet, once cleared, comes before the deadline and before any error. */
  ghost predicate Answered(hash: Hash, psk: Option<Bytes>, arrivals: seq<Arrival>, deadline: real, edge: bool) {
    exists i :: 0 <= i < |arrivals| && Answer(hash, psk, arrivals[i].report) && InTime(arrivals[i], deadline, edge)
                && forall j :: 0 <= j < i ==> !arrivals[j].report.SocketError?
  }

  /** The first decisive report is a yes in time exactly if some yes comes in time with no no before
      it: a useless datagram costs nothing. */
  lemma AnswerInTime(decide: Report -> Option<bool>, arrivals: seq<Arrival>, deadline: real, edge: bool)
    requires Timeline(arrivals)
    ensures Yes(decide, arrivals) && Due(decide, arrivals, deadline, edge) <==>
      exists i :: 0 <= i < |arrivals| && decide(arrivals[i].report) == Some(true) && InTime(arrivals[i], deadline, edge)
                  && forall j :: 0 <= j < i ==> decide(arrivals[j].report) != Some(false)
  {
    var f := FirstDecisive(decide, arrivals);
    forall i | 0 <= i < |arrivals| && decide(arrivals[i].report) == Some(true) && InTime(arrivals[i], deadline, edge)
               && forall j :: 0 <= j < i ==> decide(arrivals[j].report) != Some(false)
      ensures Yes(decide, arrivals) && Due(decide, arrivals, deadline, edge)
    {
      assert f <= i && arrivals[f].at <= arrivals[i].at;
      assert f < i ==> decide(arrivals[f].report) != Some(false);
      YesOrNo(decide(arrivals[f].report));
    }
  }

  /** Yes is a version negotiation packet, once cleared; no is a socket error. */
  lemma ReadingMeans(hash: Hash, psk: Option<Bytes>, r: Report)
    ensures Reading(hash, psk)(r) == Some(true) <==> Answer(hash, psk, r)
    ensures Reading(hash, psk)(r) == Some(false) <==> r.SocketError?
  {
  }

  lemma AnsweredMeans(hash: Hash, psk: Option<Bytes>, arrivals: seq<Arrival>, deadline: real, edge: bool)
    requires Timeline(arrivals)
    ensures Answered(hash, psk, arrivals, deadline, edge)
      <==> Yes(Reading(hash, psk), arrivals) && Due(Reading(hash, psk), arrivals, deadline, edge)
  {
    var decide := Reading(hash, psk);
    AnswerInTime(decide, arrivals, deadline, edge);
    forall i | 0 <= i < |arrivals|
      ensures decide(arrivals[i].report) == Some(true) <==> Answer(hash, psk, arrivals[i].report)
      ensures decide(arrivals[i].report) == Some(false) <==> arrivals[i].report.SocketError?
    {
      ReadingMeans(hash, psk, arrivals[i].report);
    }
  }

  // ---- The class --------------------------------------------------------------------------------------

  /** A wait that began undecided: it ends with the first decisive report, or undecided. */
  ghost predicate WaitEnds(decide: Report -> Option<bool>, arrivals: seq<Arrival>, deadline: real, edge: bool,
                           answered: Option<bool>, next: nat)
  {
    var f := FirstDecisive(decide, arrivals);
    if Due(decide, arrivals, deadline, edge) then next == f + 1 && answered == decide(arrivals[f].report)
    else next <= f && answered.None?
  }

  class Probe {
    const hash: Hash
    const psk: Option<Bytes>
    var answered: Option<bool>

    constructor (hash: Hash, psk: Option<Bytes>)
      ensures this.hash == hash && this.psk == psk && answered == None
    {
      this.hash, this.psk, answered := hash, psk, None;
    }

    /** The answer is decided at most once. */
    method Receive(r: Report)
      modifies this
      ensures answered == if old(answered).Some? then old(answered) else Decides(hash, psk, r)
    {
      match r
      case Datagram(data) =>
        var clear := data;
        if psk.Some? {
          clear := Deobfuscate(hash, psk.value, data);
        }
        if IsVersionNegotiation(clear) && answered.None? {
          answered := Some(true);
        }
      case SocketError =>
        if answered.None? {
          answered := Some(false);
        }
    }

    /** One wait for the answer, until the deadline. */
    method Wait(arrivals: seq<Arrival>, from: nat, deadline: real, edge: bool) returns (next: nat)
      requires Timeline(arrivals) && answered.None? && from <= FirstDecisive(Reading(hash, psk), arrivals)
      modifies this
      ensures WaitEnds(Reading(hash, psk), arrivals, deadline, edge, answered, next)
    {
      next := from;
      ghost var f := FirstDecisive(Reading(hash, psk), arrivals);
      while next < |arrivals| && answered.None? && InTime(arrivals[next], deadline, edge)
        invariant answered.None? ==> next <= f
        invariant answered.Some? ==> f < |arrivals| && next == f + 1 && InTime(arrivals[f], deadline, edge)
        invariant answered.Some? ==> answered == Reading(hash, psk)(arrivals[f].report)
      {
        Receive(arrivals[next].report);
        next := next + 1;
      }
    }

    /** One of the two rounds: the probe sent, then a wait for the answer. */
    method SendAndWait(packet: Bytes, salt: Bytes, arrivals: seq<Arrival>, from: nat, deadline: real, edge: bool)
      returns (datagram: Bytes, next: nat)
      requires |salt| == SALT_LEN
      requires Timeline(arrivals) && answered.None? && from <= FirstDecisive(Reading(hash, psk), arrivals)
      modifies this
      ensures datagram == Wrap(hash, psk, salt, packet) && Clear(hash, psk, datagram) == packet
      ensures WaitEnds(Reading(hash, psk), arrivals, deadline, edge, answered, next)
    {
      WrapClears(hash, psk, salt, packet);
      datagram := Wrap(hash, psk, salt, packet);
      next := Wait(arrivals, from, deadline, edge);
    }
  }

  // ---- Two rounds --------------------------------------------------------------------------------------

  function Milliseconds(seconds: real): int {
    (1000.0 * seconds).Floor
  }

  /** A node that answered passes the ping filter of `build_pool` (build.py:107): the time
      reported is never above the limit the timeout came from. */
  lemma AnswerPassesFilter(at: real, timeoutMs: nat, edge: bool, report: Report)
    requires InTime(Arrival(at, report), 2.0 * (timeoutMs as real / 1000.0 / 2.0), edge)
    ensures Milliseconds(at) <= timeoutMs
  {
    assert 1000.0 * at <= timeoutMs as real;
  }

  datatype Outcome = Outcome(ok: bool, rttMs: Option<int>, waited: real, sent: seq<Bytes>)

  /** What two rounds of `half` seconds come to, for whatever decides. `sendFails`: which of the two
      sends raises. */
  ghost predicate Exchanged(decide: Report -> Option<bool>, arrivals: seq<Arrival>, half: real, edge: bool,
                            sendFails: seq<bool>, out: Outcome)
    requires |sendFails| == 2
  {
    && (out.ok <==>
          && !sendFails[0] && Yes(decide, arrivals)
          && (Due(decide, arrivals, half, edge) || (!sendFails[1] && Due(decide, arrivals, half + half, edge))))
    && out.rttMs == (if out.ok then Some(Milliseconds(arrivals[FirstDecisive(decide, arrivals)].at)) else None)
    && |out.sent| <= 2 && (|out.sent| == 2 ==> !Due(decide, arrivals, half, edge))
    && 0.0 <= out.waited <= half + half
  }

  function OutcomeOf(answer: bool, at: real, sent: seq<Bytes>): Outcome {
    if answer then Outcome(true, Some(Milliseconds(at)), at, sent) else Outcome(false, None, at, sent)
  }

  /** The wait that decides gives the outcome. */
  lemma Decided(decide: Report -> Option<bool>, arrivals: seq<Arrival>, half: real, edge: bool, sendFails: seq<bool>,
                deadline: real, sent: seq<Bytes>, answered: Option<bool>, next: nat)
    requires |sendFails| == 2 && Timeline(arrivals) && half >= 0.0 && !sendFails[0] && answered.Some?
    requires WaitEnds(decide, arrivals, deadline, edge, answered, next)
    requires
      || (|sent| == 1 && deadline == half)
      || (|sent| == 2 && deadline == half + half && !sendFails[1] && !Due(decide, arrivals, half, edge))
    ensures 1 <= next <= |arrivals|
    ensures Exchanged(decide, arrivals, half, edge, sendFails, OutcomeOf(answered.value, arrivals[next - 1].at, sent))
  {
    YesOrNo(answered);
  }

  /** The datagrams sent are the packet, wrapped under the salts in turn. */
  ghost predicate WrappedAll(hash: Hash, psk: Option<Bytes>, salts: seq<Bytes>, packet: Bytes, sent: seq<Bytes>) {
    |sent| <= |salts| && forall i :: 0 <= i < |sent| ==> sent[i] == Wrap(hash, psk, salts[i], packet)
  }

  method Exchange(probe: Probe, packet: Bytes, salts: seq<Bytes>, sendFails: seq<bool>, arrivals: seq<Arrival>,
                  half: real, edge: bool)
    returns (out: Outcome)
    requires |salts| == 2 == |sendFails| && (forall i :: 0 <= i < 2 ==> |salts[i]| == SALT_LEN)
    requires half >= 0.0 && Timeline(arrivals) && probe.answered.None?
    modifies probe
    ensures Exchanged(Reading(probe.hash, probe.psk), arrivals, half, edge, sendFails, out)
    ensures WrappedAll(probe.hash, probe.psk, salts, packet, out.sent)
  {
    ghost var decide := Reading(probe.hash, probe.psk);
    var sent: seq<Bytes> := [];
    var clock := 0.0;
    var next: nat := 0;
    for i := 0 to 2
      invariant probe.answered.None? && |sent| == i
      invariant WrappedAll(probe.hash, probe.psk, salts, packet, sent)
      invariant clock == if i == 0 then 0.0 else if i == 1 then half else half + half
      invariant next <= FirstDecisive(decide, arrivals)
      invariant i > 0 ==> !sendFails[0] && !Due(decide, arrivals, half, edge)
      invariant i > 1 ==> !sendFails[1] && !Due(decide, arrivals, half + half, edge)
    {
      if sendFails[i] {
        return Outcome(false, None, clock, sent);
      }
      var datagram;
      clock := clock + half;
      datagram, next := probe.SendAndWait(packet, salts[i], arrivals, next, clock, edge);
      sent := sent + [datagram];
      if probe.answered.Some? {
        Decided(decide, arrivals, half, edge, sendFails, clock, sent, probe.answered, next);
        return OutcomeOf(probe.answered.value, arrivals[next - 1].at, sent);
      }
    }
    return Outcome(false, None, clock, sent);
  }

  /** The probe of one server with a timeout of `2 * half` seconds. It succeeds exactly if an answer
      comes in time with no error before it and no send failed by then; the time reported is that
      answer's. At most two datagrams are sent, each the same probe, the second only if the first
      half brought no answer. */
  method ProbeServer(hash: Hash, password: Option<Bytes>, packet: Bytes, salts: seq<Bytes>, endpoint: bool,
                     sendFails: seq<bool>, arrivals: seq<Arrival>, half: real, edge: bool)
    returns (out: Outcome)
    requires |salts| == 2 == |sendFails| && (forall i :: 0 <= i < 2 ==> |salts[i]| == SALT_LEN)
    requires half >= 0.0 && Timeline(arrivals)
    ensures out.ok <==>
      && endpoint && !sendFails[0]
      && (|| Answered(hash, Psk(password), arrivals, half, edge)
          || (!sendFails[1] && Answered(hash, Psk(password), arrivals, half + half, edge)))
    ensures out.rttMs.Some? <==> out.ok
    ensures out.ok ==> AnswerTime(hash, Psk(password), arrivals, out.rttMs)
    ensures |out.sent| <= 2
    ensures forall i :: 0 <= i < |out.sent| ==>
      OnWire(hash, password, salts[i], packet, out.sent[i]) && Clear(hash, Psk(password), out.sent[i]) == packet
    ensures |out.sent| == 2 ==> !Answered(hash, Psk(password), arrivals, half, edge)
    ensures 0.0 <= out.waited <= half + half
  {
    if !endpoint {
      return Outcome(false, None, 0.0, []);
    }
    var psk := Psk(password);
    var probe := new Probe(hash, psk);
    out := Exchange(probe, packet, salts, sendFails, arrivals, half, edge);
    AnsweredMeans(hash, psk, arrivals, half, edge);
    AnsweredMeans(hash, psk, arrivals, half + half, edge);
    if out.ok {
      TimeOfAnswer(hash, psk, arrivals);
    }
    forall i | 0 <= i < |out.sent|
      ensures OnWire(hash, password, salts[i], packet, out.sent[i]) && Clear(hash, psk, out.sent[i]) == packet
    {
      WrapIsOnWire(hash, password, salts[i], packet);
      WrapClears(hash, psk, salts[i], packet);
    }
  }

  /** The time of the first answer, in whole milliseconds. */
  ghost predicate AnswerTime(hash: Hash, psk: Option<Bytes>, arrivals: seq<Arrival>, rttMs: Option<int>) {
    exists i :: 0 <= i < |arrivals| && Answer(hash, psk, arrivals[i].report)
                && rttMs.Some? && rttMs.value as real <= 1000.0 * arrivals[i].at < rttMs.value as real + 1.0
                && forall j :: 0 <= j < i ==> !Answer(hash, psk, arrivals[j].report) && !arrivals[j].report.SocketError?
  }

  lemma TimeOfAnswer(hash: Hash, psk: Option<Bytes>, arrivals: seq<Arrival>)
    requires Yes(Reading(hash, psk), arrivals)
    ensures var f := FirstDecisive(Reading(hash, psk), arrivals);
      AnswerTime(hash, psk, arrivals, Some(Milliseconds(arrivals[f].at)))
  {
    var f := FirstDecisive(Reading(hash, psk), arrivals);
    ReadingMeans(hash, psk, arrivals[f].report);
    forall j | 0 <= j < f ensures !Answer(hash, psk, arrivals[j].report) && !arrivals[j].report.SocketError? {
      ReadingMeans(hash, psk, arrivals[j].report);
    }
  }
}
