/**
 * The ICMP probe of scan_network.py (`icmp_ping`): the Echo Request it sends,
 * the reply it waits for, and the counters it updates.
 *
 * An echo message (RFC 792, "Echo or Echo Reply Message") is: type (8 for a
 * request, 0 for a reply), code 0, the two checksum bytes, a big-endian
 * identifier, a big-endian sequence number, and the data. `icmp_ping` builds
 * the request from a random identifier and `count`, and accepts a received
 * datagram as the answer when, after a 20-byte IPv4 header, it is exactly the
 * reply a host would send back for the same identifier, sequence and data.
 */
module Echo {
  import opened Wrappers
  import opened Checksum

  const EchoRequest: Byte := 8
  const EchoReply: Byte := 0

  /** Where `icmp_ping` expects the ICMP message: after an IPv4 header without options. */
  const IcmpOffset: nat := 20

  /** `struct.pack('!H', w)`: high byte first. */
  function BigEndian16(w: Word16): seq<Byte>
  {
    [w / 0x100, w % 0x100]
  }

  /** `struct.unpack('!H', ...)` of two bytes. */
  function ReadBigEndian16(hi: Byte, lo: Byte): Word16
  {
    hi as int * 0x100 + lo as int
  }

  lemma BigEndianRoundTrip(w: Word16)
    ensures |BigEndian16(w)| == 2
    ensures ReadBigEndian16(BigEndian16(w)[0], BigEndian16(w)[1]) == w
  {
  }

  lemma ReadBigEndianRoundTrip(hi: Byte, lo: Byte)
    ensures BigEndian16(ReadBigEndian16(hi, lo)) == [hi, lo]
  {
    SplitWord(hi, lo);
  }

  /** `struct.pack('!HH', ident, sequence) + data`. */
  function EchoPayload(ident: Word16, sequence: Word16, data: seq<Byte>): seq<Byte>
  {
    BigEndian16(ident) + BigEndian16(sequence) + data
  }

  /** An echo message of the given type, its checksum computed over a zero checksum field. */
  function EchoMessage(kind: Byte, payload: seq<Byte>): seq<Byte>
  {
    [kind, 0] + IcmpChecksum([kind, 0, 0, 0] + payload) + payload
  }

  /** The frame `icmp_ping` hands to `sendall`. */
  function Request(ident: Word16, sequence: Word16, data: seq<Byte>): seq<Byte>
  {
    EchoMessage(EchoRequest, EchoPayload(ident, sequence, data))
  }

  /** What `icmp_ping` compares the received bytes after the IP header with. */
  function ExpectedReply(payload: seq<Byte>): seq<Byte>
  {
    EchoMessage(EchoReply, payload)
  }

  // ---------------------------------------------------------------------------
  // The message layout
  // ---------------------------------------------------------------------------

  datatype EchoFields = EchoFields(kind: Byte, code: Byte, checksum: seq<Byte>, ident: Word16, sequence: Word16, data: seq<Byte>)

  /** Reads an echo message back into its fields; shorter than 8 bytes is not one. */
  function DecodeEcho(m: seq<Byte>): (r: Option<EchoFields>)
    ensures r.Some? <==> |m| >= 8
    ensures r.Some? ==> |r.value.checksum| == 2 && |r.value.data| == |m| - 8
  {
    if |m| < 8 then None
    else Some(EchoFields(m[0], m[1], m[2..4], ReadBigEndian16(m[4], m[5]), ReadBigEndian16(m[6], m[7]), m[8..]))
  }

  function EncodeEcho(f: EchoFields): seq<Byte>
  {
    [f.kind, f.code] + f.checksum + BigEndian16(f.ident) + BigEndian16(f.sequence) + f.data
  }

  /**
   * The request and the expected reply are `8 + |data|` bytes in the layout of
   * RFC 792: type, code 0, the checksum, then identifier, sequence and data.
   */
  lemma DecodeEchoMessage(kind: Byte, ident: Word16, sequence: Word16, data: seq<Byte>)
    ensures |EchoMessage(kind, EchoPayload(ident, sequence, data))| == 8 + |data|
    ensures DecodeEcho(EchoMessage(kind, EchoPayload(ident, sequence, data)))
         == Some(EchoFields(kind, 0, IcmpChecksum([kind, 0, 0, 0] + EchoPayload(ident, sequence, data)), ident, sequence, data))
  {
    var p := EchoPayload(ident, sequence, data);
    var m := EchoMessage(kind, p);
    var cs := IcmpChecksum([kind, 0, 0, 0] + p);
    assert m == [kind, 0] + cs + BigEndian16(ident) + BigEndian16(sequence) + data;
    assert m[2..4] == cs;
    assert m[8..] == data;
    BigEndianRoundTrip(ident);
    BigEndianRoundTrip(sequence);
  }

  /** Every message of at least 8 bytes is the encoding of the fields it decodes to. */
  lemma EncodeDecodeEcho(m: seq<Byte>)
    requires |m| >= 8
    ensures EncodeEcho(DecodeEcho(m).value) == m
  {
    ReadBigEndianRoundTrip(m[4], m[5]);
    ReadBigEndianRoundTrip(m[6], m[7]);
    assert m == [m[0], m[1]] + m[2..4] + [m[4], m[5]] + [m[6], m[7]] + m[8..];
  }

  /**
   * RFC 1071 section 1, verification: the checksum of a complete request or
   * reply is zero, so a receiver that checks it accepts the message.
   */
  lemma EchoMessageVerifies(kind: Byte, payload: seq<Byte>)
    requires |payload| <= MaxUnmasked - 4
    ensures IcmpChecksum(EchoMessage(kind, payload)) == [0, 0]
  {
    ChecksumOfCompletedMessage([kind, 0], payload);
    assert [kind, 0] + [0, 0] + payload == [kind, 0, 0, 0] + payload;
  }

  // ---------------------------------------------------------------------------
  // Receiving
  // ---------------------------------------------------------------------------

  /**
   * A datagram `icmp_ping` skips: shorter than an IPv4 header, or shorter than
   * the Total Length in bytes 2-3 of that header (RFC 791 section 3.1). The
   * first test guarantees the second reads inside the datagram.
   */
  predicate Skipped(dg: seq<Byte>)
  {
    |dg| < IcmpOffset || |dg| < ReadBigEndian16(dg[2], dg[3])
  }

  /** The answer `icmp_ping` waits for: not skipped, and the reply to `payload` after the header. */
  predicate Answers(dg: seq<Byte>, payload: seq<Byte>)
  {
    !Skipped(dg) && dg[IcmpOffset..] == ExpectedReply(payload)
  }

  /** A datagram answers exactly when it carries a type-0 code-0 reply with our identifier, sequence and data. */
  lemma AnswerFields(dg: seq<Byte>, ident: Word16, sequence: Word16, data: seq<Byte>)
    ensures Answers(dg, EchoPayload(ident, sequence, data))
        <==> !Skipped(dg)
             && DecodeEcho(dg[IcmpOffset..]) == Some(EchoFields(EchoReply, 0, IcmpChecksum([0, 0, 0, 0] + EchoPayload(ident, sequence, data)), ident, sequence, data))
  {
    var p := EchoPayload(ident, sequence, data);
    DecodeEchoMessage(EchoReply, ident, sequence, data);
    if !Skipped(dg) && DecodeEcho(dg[IcmpOffset..]) == DecodeEcho(ExpectedReply(p)) {
      EncodeDecodeEcho(dg[IcmpOffset..]);
      EncodeDecodeEcho(ExpectedReply(p));
    }
  }

  /** A reply that differs in identifier, sequence number or data never answers. */
  lemma AnswerIsUnique(dg: seq<Byte>, i1: Word16, s1: Word16, d1: seq<Byte>, i2: Word16, s2: Word16, d2: seq<Byte>)
    requires Answers(dg, EchoPayload(i1, s1, d1)) && Answers(dg, EchoPayload(i2, s2, d2))
    ensures i1 == i2 && s1 == s2 && d1 == d2
  {
    DecodeEchoMessage(EchoReply, i1, s1, d1);
    DecodeEchoMessage(EchoReply, i2, s2, d2);
  }

  /** An answer is exactly 28 bytes longer than the data (header, then 8 bytes of ICMP header). */
  lemma AnswerLength(dg: seq<Byte>, ident: Word16, sequence: Word16, data: seq<Byte>)
    requires Answers(dg, EchoPayload(ident, sequence, data))
    ensures |dg| == IcmpOffset + 8 + |data|
  {
    DecodeEchoMessage(EchoReply, ident, sequence, data);
  }

  /** Our own Echo Request, looped back, is never taken for the answer. */
  lemma RequestIsNoAnswer(dg: seq<Byte>, p: seq<Byte>, payload: seq<Byte>)
    requires |dg| >= IcmpOffset && dg[IcmpOffset..] == EchoMessage(EchoRequest, p)
    ensures !Answers(dg, payload)
  {
    assert dg[IcmpOffset..][0] == EchoRequest;
    assert ExpectedReply(payload)[0] == EchoReply;
  }

  /** The answer carries a valid ICMP checksum. */
  lemma AnswerVerifies(dg: seq<Byte>, payload: seq<Byte>)
    requires Answers(dg, payload) && |payload| <= MaxUnmasked - 4
    ensures IcmpChecksum(dg[IcmpOffset..]) == [0, 0]
  {
    EchoMessageVerifies(EchoReply, payload);
  }

  /** A host that echoes the request in a reply with a consistent Total Length is answering. */
  lemma ReplyIsAnswer(header: seq<Byte>, payload: seq<Byte>)
    requires |header| == IcmpOffset
    requires ReadBigEndian16(header[2], header[3]) <= IcmpOffset + |ExpectedReply(payload)|
    ensures Answers(header + ExpectedReply(payload), payload)
  {
    var dg := header + ExpectedReply(payload);
    assert dg[2] == header[2] && dg[3] == header[3];
    assert dg[IcmpOffset..] == ExpectedReply(payload);
  }

  // ---------------------------------------------------------------------------
  // The wait loop
  // ---------------------------------------------------------------------------

  /** The position of the first datagram that answers, if any. */
  function FirstAnswer(arrivals: seq<seq<Byte>>, payload: seq<Byte>): (r: Option<nat>)
    ensures r.Some? ==> r.value < |arrivals| && Answers(arrivals[r.value], payload)
    ensures r.Some? ==> forall j :: 0 <= j < r.value ==> !Answers(arrivals[j], payload)
    ensures r.None? ==> forall j :: 0 <= j < |arrivals| ==> !Answers(arrivals[j], payload)
  {
    if |arrivals| == 0 then None
    else if Answers(arrivals[0], payload) then Some(0)
    else match FirstAnswer(arrivals[1..], payload)
      case None => None
      case Some(k) => Some(k + 1)
  }

  /** What `icmp_ping` reports: False when connect fails, otherwise "is Up" or "is Down". */
  datatype Outcome = Unreachable | Up | Down

  /** The outcome for a target, given whether connect succeeded and what arrived before the deadline. */
  function Classify(connected: bool, payload: seq<Byte>, arrivals: seq<seq<Byte>>): Outcome
  {
    if !connected then Unreachable
    else if FirstAnswer(arrivals, payload).Some? then Up
    else Down
  }

  /** How many datagrams the wait loop reads: up to and including the first answer. */
  function Consumed(connected: bool, payload: seq<Byte>, arrivals: seq<seq<Byte>>): nat
  {
    if !connected then 0
    else match FirstAnswer(arrivals, payload)
      case Some(k) => k + 1
      case None => |arrivals|
  }

  /**
   * A connected probe ends Up or Down, never both: Up exactly when some datagram
   * answers, and then the loop stops right after the first one.
   */
  lemma ClassifyUpIffAnswered(payload: seq<Byte>, arrivals: seq<seq<Byte>>)
    ensures Classify(true, payload, arrivals) != Unreachable
    ensures Classify(true, payload, arrivals) == Up <==> exists j :: 0 <= j < |arrivals| && Answers(arrivals[j], payload)
    ensures Classify(true, payload, arrivals) == Up ==>
      var k := Consumed(true, payload, arrivals) - 1;
      0 <= k < |arrivals| && Answers(arrivals[k], payload) && forall j :: 0 <= j < k ==> !Answers(arrivals[j], payload)
  {
  }

  /** The three module-level counters of scan_network.py. */
  class Prober {
    var totalUp: nat
    var totalDown: nat
    var totalUnknown: nat

    constructor ()
      ensures totalUp == 0 && totalDown == 0 && totalUnknown == 0
    {
      totalUp, totalDown, totalUnknown := 0, 0, 0;
    }

    /**
     * One call of `icmp_ping`. `connected` and `sendOk` say whether connect and
     * sendall succeeded, `ident` is the random identifier, and `arrivals` are
     * the datagrams the raw socket delivers before the deadline, in order.
     */
    method Ping(connected: bool, sendOk: bool, ident: Word16, count: Word16, data: seq<Byte>, arrivals: seq<seq<Byte>>)
      returns (outcome: Outcome, request: seq<Byte>, consumed: nat)
      modifies this
      ensures outcome == Classify(connected, EchoPayload(ident, count, data), arrivals)
      ensures request == if connected then Request(ident, count, data) else []
      ensures consumed == Consumed(connected, EchoPayload(ident, count, data), arrivals)
      ensures totalUp == old(totalUp) + (if outcome == Up then 1 else 0)
      ensures totalDown == old(totalDown) + (if outcome == Down then 1 else 0)
      ensures totalUnknown == old(totalUnknown) + (if connected && !sendOk then 1 else 0)
    {
      var payload := EchoPayload(ident, count, data);
      if !connected {
        return Unreachable, [], 0;
      }
      request := [EchoRequest, 0] + IcmpChecksum([EchoRequest, 0, 0, 0] + payload) + payload;
      if !sendOk {
        totalUnknown := totalUnknown + 1;
      }
      var i := 0;
      while i < |arrivals|
        invariant 0 <= i <= |arrivals|
        invariant forall j :: 0 <= j < i ==> !Answers(arrivals[j], payload)
        invariant totalUp == old(totalUp) && totalDown == old(totalDown)
        invariant totalUnknown == old(totalUnknown) + (if !sendOk then 1 else 0)
      {
        var dg := arrivals[i];
        i := i + 1;
        if |dg| < IcmpOffset || |dg| < ReadBigEndian16(dg[2], dg[3]) {
          continue;
        }
        if dg[IcmpOffset..] == [0, 0] + IcmpChecksum([0, 0, 0, 0] + payload) + payload {
          totalUp := totalUp + 1;
          return Up, request, i;
        }
      }
      totalDown := totalDown + 1;
      outcome, consumed := Down, |arrivals|;
    }
  }

  // ---------------------------------------------------------------------------
  // A worked example
  // ---------------------------------------------------------------------------

  /** Identifier 0x1234, sequence 1, no data: the bytes `icmp_ping` sends. */
  lemma ExampleRequest()
    ensures Request(0x1234, 1, []) == [8, 0, 0xE5, 0xCA, 0x12, 0x34, 0, 1]
  {
    var m: seq<Byte> := [8, 0] + [0, 0] + ([0x12, 0x34] + [0, 1] + []);
    assert [EchoRequest, 0, 0, 0] + EchoPayload(0x1234, 1, []) == m;
    LittleSumOfHeader([8, 0], [0, 0], [0x12, 0x34] + [0, 1] + []);
    LittleSumOfHeader([0x12, 0x34], [0, 1], []);
    ChecksumWord(m);
    assert Fold(Fold(0x351A)) == 0x351A;
    assert ChecksumValue(m) == 0xCAE5;
  }

  /** A reply to that request answers it; the same reply to sequence 2 does not. */
  lemma ExampleReply(header: seq<Byte>)
    requires |header| == IcmpOffset && ReadBigEndian16(header[2], header[3]) == 28
    ensures Answers(header + [0, 0, 0xED, 0xCA, 0x12, 0x34, 0, 1], EchoPayload(0x1234, 1, []))
    ensures !Answers(header + [0, 0, 0xED, 0xCA, 0x12, 0x34, 0, 1], EchoPayload(0x1234, 2, []))
  {
    var m: seq<Byte> := [0, 0] + [0, 0] + ([0x12, 0x34] + [0, 1] + []);
    assert [EchoReply, 0, 0, 0] + EchoPayload(0x1234, 1, []) == m;
    LittleSumOfHeader([0, 0], [0, 0], [0x12, 0x34] + [0, 1] + []);
    LittleSumOfHeader([0x12, 0x34], [0, 1], []);
    ChecksumWord(m);
    assert Fold(Fold(0x3512)) == 0x3512;
    assert ChecksumValue(m) == 0xCAED;
    assert ExpectedReply(EchoPayload(0x1234, 1, [])) == [0, 0, 0xED, 0xCA, 0x12, 0x34, 0, 1];
    ReplyIsAnswer(header, EchoPayload(0x1234, 1, []));
    if Answers(header + [0, 0, 0xED, 0xCA, 0x12, 0x34, 0, 1], EchoPayload(0x1234, 2, [])) {
      AnswerIsUnique(header + [0, 0, 0xED, 0xCA, 0x12, 0x34, 0, 1], 0x1234, 1, [], 0x1234, 2, []);
    }
  }
}
