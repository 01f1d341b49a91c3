/**
 * AT+LMQTTPUB: a command head with the payload length, the payload as it is, and the closing quote,
 * sent as three writes within one command window.
 */
module Publish {
  import opened Basics
  import opened CStrings
  import opened Decimal
  import opened PairingWord
  import opened LineSyntax
  import opened EngineState
  import opened Engine
  import FinishOutcomes

  /** What one publish command says. */
  datatype Message = Message(tcid: nat, msgid: nat, qos: nat, retain: bool, topic: string, payload: string)

  // ---- the wire format ----

  const PUB_HEAD := "AT+LMQTTPUB="
  const PUB_TAIL := "\"\r\n"

  function RetainDigit(retain: bool): nat {
    if retain then 1 else 0
  }

  /** The part of the head behind the four numbers: the topic, the payload length, the opening quote. */
  function TopicPart(topic: string, len: nat): string {
    "\"" + topic + "\"," + Print(len) + ",\""
  }

  /** The format of the command head. */
  function Head(m: Message): string {
    PUB_HEAD + Print(m.tcid) + "," + Print(m.msgid) + "," + Print(m.qos) + "," +
    Print(RetainDigit(m.retain)) + "," + TopicPart(m.topic, |m.payload|)
  }

  function Encode(m: Message): string {
    Head(m) + m.payload + PUB_TAIL
  }

  // ---- an independent decoder: the length says where the payload ends ----

  /** A number and the character behind it. */
  function ReadNumber(s: string, stop: char): Option<(nat, string)> {
    var k := DigitRun(s);
    if 0 < k < |s| && s[k] == stop then Some((Value(s[..k]), s[k + 1..])) else None
  }

  function ReadPrefix(s: string, prefix: string): Option<string> {
    if StartsWith(s, prefix) then Some(s[|prefix|..]) else None
  }

  /** The payload of the given length between its quotes, then the end of the line. */
  function ReadCounted(s: string): Option<(string, string)> {
    match ReadNumber(s, ',')
    case None => None
    case Some((len, rest)) =>
      if |rest| < 1 + len || rest[0] != '"' then None else
        match ReadPrefix(rest[1 + len..], PUB_TAIL)
        case None => None
        case Some(after) => Some((rest[1..1 + len], after))
  }

  /** The topic between its quotes. */
  function ReadTopic(s: string): Option<(string, string)> {
    if s == "" || s[0] != '"' then None else
      var k := IndexOf(s[1..], '"');
      if k + 2 < |s| && s[k + 2] == ',' then Some((s[1..k + 1], s[k + 3..])) else None
  }

  function ReadBody(s: string, tcid: nat, msgid: nat, qos: nat, retain: nat): Option<(Message, string)> {
    match ReadTopic(s)
    case None => None
    case Some((topic, rest)) =>
      match ReadCounted(rest)
      case None => None
      case Some((payload, after)) => Some((Message(tcid, msgid, qos, retain == 1, topic, payload), after))
  }

  /** `k` numbers, each with a comma behind it. */
  function ReadNumbers(s: string, k: nat): Option<(seq<nat>, string)>
    decreases k
  {
    if k == 0 then Some(([], s)) else
      match ReadNumber(s, ',')
      case None => None
      case Some((v, rest)) =>
        match ReadNumbers(rest, k - 1)
        case None => None
        case Some((vs, after)) => Some(([v] + vs, after))
  }

  /** One publish command from the front of a byte stream, and the bytes behind it. */
  function Decode(s: string): Option<(Message, string)> {
    match ReadPrefix(s, PUB_HEAD)
    case None => None
    case Some(t) =>
      match ReadNumbers(t, 4)
      case None => None
      case Some((v, rest)) => if |v| == 4 then ReadBody(rest, v[0], v[1], v[2], v[3]) else None
  }

  lemma NumberRoundTrip(n: nat, stop: char, rest: string)
    requires !IsDigit(stop)
    ensures ReadNumber(Print(n) + [stop] + rest, stop) == Some((n, rest))
  {
    var digits := Print(n);
    var s := digits + [stop] + rest;
    assert s[..|digits|] == digits;
    DigitRunUnique(s, |digits|);
    ValuePrint(n);
  }

  lemma PrefixRoundTrip(prefix: string, rest: string)
    ensures ReadPrefix(prefix + rest, prefix) == Some(rest)
  {
    assert (prefix + rest)[..|prefix|] == prefix;
  }

  lemma CountedRoundTrip(payload: string, rest: string)
    ensures ReadCounted(Print(|payload|) + "," + ("\"" + payload + (PUB_TAIL + rest))) == Some((payload, rest))
  {
    hide ReadNumber, ReadPrefix, Print;
    var after := PUB_TAIL + rest;
    var text := "\"" + payload + after;
    NumberRoundTrip(|payload|, ',', text);
    PrefixRoundTrip(PUB_TAIL, rest);
    assert text[1..1 + |payload|] == payload;
    assert text[1 + |payload|..] == after;
  }

  lemma TopicRoundTrip(topic: string, rest: string)
    requires '"' !in topic
    ensures ReadTopic("\"" + topic + "\"," + rest) == Some((topic, rest))
  {
    var s := "\"" + topic + "\"," + rest;
    assert s[1..] == topic + ['"'] + ("," + rest);
    IndexOfField(topic, '"', "," + rest);
    assert s[1..][..|topic|] == s[1..|topic| + 1] && s[1..][|topic| + 1..] == s[|topic| + 2..];
    assert s[|topic| + 2..][1..] == s[|topic| + 3..];
  }

  /** What a decoded topic looks like, whatever the bytes were. */
  lemma TopicsReadHaveNoQuote(s: string)
    ensures ReadTopic(s).Some? ==> '"' !in ReadTopic(s).value.0
  {
    if ReadTopic(s).Some? {
      var k := IndexOf(s[1..], '"');
      assert s[1..k + 1] == s[1..][..k];
    }
  }

  lemma NumbersRoundTrip(a: nat, b: nat, c: nat, d: nat, rest: string)
    ensures ReadNumbers(Print(a) + "," + Print(b) + "," + Print(c) + "," + Print(d) + "," + rest, 4)
            == Some(([a, b, c, d], rest))
  {
    hide ReadNumber, Print;
    var s3 := Print(d) + "," + rest;
    var s2 := Print(c) + "," + s3;
    var s1 := Print(b) + "," + s2;
    assert Print(a) + "," + Print(b) + "," + Print(c) + "," + Print(d) + "," + rest == Print(a) + "," + s1;
    NumberRoundTrip(a, ',', s1);
    NumberRoundTrip(b, ',', s2);
    NumberRoundTrip(c, ',', s3);
    NumberRoundTrip(d, ',', rest);
    assert ReadNumbers(rest, 0) == Some(([], rest));
    assert [d] + [] == [d] && [c] + [d] == [c, d] && [b] + [c, d] == [b, c, d] && [a] + [b, c, d] == [a, b, c, d];
    assert ReadNumbers(s3, 1) == Some(([d], rest));
    assert ReadNumbers(s2, 2) == Some(([c, d], rest));
    assert ReadNumbers(s1, 3) == Some(([b, c, d], rest));
  }

  /** The same bytes, cut where the decoder cuts them. */
  lemma EncodeParts(m: Message, rest: string)
    ensures Encode(m) + rest ==
            PUB_HEAD + (Print(m.tcid) + "," + Print(m.msgid) + "," + Print(m.qos) + "," +
                        Print(RetainDigit(m.retain)) + "," +
                        ("\"" + m.topic + "\"," +
                         (Print(|m.payload|) + "," + ("\"" + m.payload + (PUB_TAIL + rest)))))
  {
    hide Print;
    assert TopicPart(m.topic, |m.payload|) == "\"" + m.topic + "\"," + (Print(|m.payload|) + "," + "\"");
  }

  /** The bytes of a publish as the manual writes them. */
  lemma EncodeLiteral(m: Message)
    ensures Encode(m) == "AT+LMQTTPUB=" + Print(m.tcid) + "," + Print(m.msgid) + "," + Print(m.qos) + "," +
                         (if m.retain then "1" else "0") + "," +
                         ("\"" + m.topic + "\"," + Print(|m.payload|) + ",\"" + m.payload) + "\"\r\n"
  {
    EncodeNumbers(m);
    assert Print(1) == "1" && Print(0) == "0";
    hide Print, Encode;
  }

  /** For example. */
  lemma EncodeExample()
    ensures Encode(Message(0, 1024, 1, false, "t", "abcd")) ==
            "AT+LMQTTPUB=0,1024,1,0," + "\"t\",4,\"abcd" + "\"\r\n"
  {
    PrintedNumbers();
    assert Print(0) == "0" && Print(1) == "1" && Print(4) == "4";
    hide Print, Encode;
    EncodeLiteral(Message(0, 1024, 1, false, "t", "abcd"));
    ExampleNumbers();
    ExampleTopic();
  }

  lemma ExampleNumbers()
    ensures "AT+LMQTTPUB=" + "0" + "," + "1024" + "," + "1" + "," + "0" + "," == "AT+LMQTTPUB=0,1024,1,0,"
  {
  }

  lemma ExampleTopic()
    ensures "\"" + "t" + "\"," + "4" + ",\"" + "abcd" == "\"t\",4,\"abcd"
  {
  }

  /**
   * The encoding is unambiguous exactly for quote-free topics: a decoder that takes the topic up to
   * its closing quote and then as many payload bytes as announced gets the message back, whatever
   * the payload bytes are and whatever follows on the line, if and only if the topic has no quote.
   */
  lemma PubRoundTrip(m: Message, rest: string)
    ensures Decode(Encode(m) + rest) == Some((m, rest)) <==> '"' !in m.topic
  {
    hide Print, ReadNumber, ReadPrefix, ReadTopic, ReadCounted, ReadNumbers, Encode;
    if '"' !in m.topic {
      var counted := Print(|m.payload|) + "," + ("\"" + m.payload + (PUB_TAIL + rest));
      var body := "\"" + m.topic + "\"," + counted;
      EncodeParts(m, rest);
      CountedRoundTrip(m.payload, rest);
      TopicRoundTrip(m.topic, counted);
      NumbersRoundTrip(m.tcid, m.msgid, m.qos, RetainDigit(m.retain), body);
      PrefixRoundTrip(PUB_HEAD, Print(m.tcid) + "," + Print(m.msgid) + "," + Print(m.qos) + "," +
                                Print(RetainDigit(m.retain)) + "," + body);
    } else {
      DecodedTopicsHaveNoQuote(Encode(m) + rest);
    }
  }

  lemma DecodedTopicsHaveNoQuote(s: string)
    ensures Decode(s).Some? ==> '"' !in Decode(s).value.0.topic
  {
    if Decode(s).Some? {
      var numbers := ReadNumbers(ReadPrefix(s, PUB_HEAD).value, 4).value;
      TopicsReadHaveNoQuote(numbers.1);
      hide ReadTopic, ReadNumbers, ReadPrefix, ReadCounted;
    }
  }

  /** Two publish commands with quote-free topics never look the same, even as prefixes of a stream. */
  lemma PubInjective(m: Message, rest: string, m': Message, rest': string)
    requires '"' !in m.topic && '"' !in m'.topic
    requires Encode(m) + rest == Encode(m') + rest'
    ensures m == m' && rest == rest'
  {
    hide Decode, Encode;
    PubRoundTrip(m, rest);
    PubRoundTrip(m', rest');
  }

  /**
   * With quotes in topics different messages can be the same bytes: any payload of the form
   * `b","<n>","c` can be read as payload `c` of a longer topic instead.
   */
  lemma QuotedTopicIsAmbiguous(m': Message, b: string, c: string)
    requires m'.payload == b + "\"," + Print(|c|) + ",\"" + c
    ensures var m := m'.(topic := m'.topic + "\"," + Print(|m'.payload|) + ",\"" + b, payload := c);
            m != m' && Encode(m) == Encode(m')
  {
    hide Print;
    var m := m'.(topic := m'.topic + "\"," + Print(|m'.payload|) + ",\"" + b, payload := c);
    var numbers := PUB_HEAD + Print(m.tcid) + "," + Print(m.msgid) + "," + Print(m.qos) + "," +
                   Print(RetainDigit(m.retain)) + ",";
    QuoteShift(m'.topic, Print(|m'.payload|), b, Print(|c|), c);
    EncodeNumbers(m);
    EncodeNumbers(m');
    hide Encode;
  }

  /** The same text read with the quotes paired in two ways. */
  lemma QuoteShift(t: string, l: string, b: string, n: string, c: string)
    ensures "\"" + (t + "\"," + l + ",\"" + b) + "\"," + n + ",\"" + c ==
            "\"" + t + "\"," + l + ",\"" + (b + "\"," + n + ",\"" + c)
  {
    var q, close, open := "\"", "\",", ",\"";
    var front := t + close + l + open;
    Associate(q, t, close);
    Associate(q, t + close, l);
    Associate(q, t + close + l, open);
    Associate(q, front, b);
    Associate(q + front, b, close);
    Associate(q + front, b + close, n);
    Associate(q + front, b + close + n, open);
    Associate(q + front, b + close + n + open, c);
  }

  lemma Associate(x: string, y: string, z: string)
    ensures x + y + z == x + (y + z)
  {
  }

  lemma EncodeNumbers(m: Message)
    ensures Encode(m) == PUB_HEAD + Print(m.tcid) + "," + Print(m.msgid) + "," + Print(m.qos) + "," +
                         Print(RetainDigit(m.retain)) + "," +
                         ("\"" + m.topic + "\"," + Print(|m.payload|) + ",\"" + m.payload) + PUB_TAIL
  {
    hide Print;
  }

  /** The head of an accepted publish fits the head buffer, so its overflow branch is never taken. */
  lemma HeadFits(cfg: Config, m: Message)
    requires m.tcid < 0x100 && m.msgid < 0x1_0000 && m.qos < 0x1_0000_0000
    requires |m.topic| <= TOPIC_MAX && |m.payload| <= PUB_INLINE_MAX
    ensures |Head(m)| <= 300 < LineMax(cfg)
    ensures m.tcid < 10 && m.qos < 10 ==> |Head(m)| <= 289
  {
    assert TenTo(1) == 10 && TenTo(3) == 1000;
    assert TenTo(4) == 10000 && TenTo(5) == 100000;
    assert TenTo(7) == 10000000;
    assert TenTo(10) == 10000000000;
    PrintLength(m.tcid, 1);
    PrintLength(m.tcid, 3);
    PrintLength(m.msgid, 5);
    PrintLength(m.qos, 1);
    PrintLength(m.qos, 10);
    PrintLength(RetainDigit(m.retain), 1);
    PrintLength(|m.payload|, 4);
    hide Print, TenTo;
  }

  // ---- lmqtt_pub ----

  /** The pieces behind the head. */
  function BodyPieces(m: Message): (pieces: seq<string>)
    ensures |pieces| <= 2
  {
    if m.payload == "" then [PUB_TAIL] else [m.payload, PUB_TAIL]
  }

  function Pieces(m: Message): (pieces: seq<string>)
    ensures |pieces| <= 3
  {
    [Head(m)] + BodyPieces(m)
  }

  lemma FlatPieces(m: Message)
    ensures Flat(Pieces(m)) == Encode(m)
  {
    hide Head;
    assert [PUB_TAIL][1..] == [] && [m.payload, PUB_TAIL][1..] == [PUB_TAIL];
    assert Flat([PUB_TAIL]) == PUB_TAIL + "" == PUB_TAIL;
    assert Flat([m.payload, PUB_TAIL]) == m.payload + PUB_TAIL;
    assert Pieces(m)[1..] == BodyPieces(m);
    assert Flat(Pieces(m)) == Head(m) + (m.payload + PUB_TAIL);
  }

  /** A publish whose writes go through puts exactly the encoded message on the line. */
  lemma SentIsEncoded(lineMax: nat, s: State, m: Message, writes: seq<Write>)
    requires |writes| >= 3 && SendAll(lineMax, s, Pieces(m), writes).1
    ensures SentBytes(Pieces(m), writes) == Encode(m)
  {
    FinishOutcomes.SentIffAccepted(lineMax, s, Pieces(m), writes);
    FinishOutcomes.SentWhole(Pieces(m), writes);
    FlatPieces(m);
    hide Pieces, SendAll, SentBytes, Encode;
  }

  /** The arguments of lmqtt_pub; the pointers may be NULL. */
  datatype Args = Args(tcid: nat, msgid: MsgId, qos: nat, retain: bool,
                       topic: Option<string>, payload: Option<string>, len: nat)

  /** What the C types and the caller's buffers guarantee. */
  predicate ArgsOk(a: Args) {
    && a.tcid < 0x100 && a.qos < 0x1_0000_0000
    && (a.topic.Some? ==> NulFree(a.topic.value))
    && (a.payload.Some? ==> a.len <= |a.payload.value|)
  }

  function MessageOf(a: Args): Message
    requires ArgsOk(a) && a.topic.Some?
  {
    Message(a.tcid, a.msgid, a.qos, a.retain, a.topic.value,
            if a.payload.None? then "" else a.payload.value[..a.len])
  }

  /** The argument checks of lmqtt_pub: the code returned before anything is sent, or LMQTT_OK. */
  function CheckArgs(lineMax: nat, a: Args): int
    requires ArgsOk(a)
  {
    if a.topic.None? || (a.payload.None? && a.len > 0) || a.msgid == 0 then ERR_PARAM
    else if |a.topic.value| > TOPIC_MAX || a.len > PUB_INLINE_MAX then ERR_OVERFLOW
    else if |Head(MessageOf(a))| >= lineMax then ERR_OVERFLOW
    else LMQTT_OK
  }

  /** lmqtt_pub accepts both of two colliding messages, as long as the longer topic is within its limit. */
  lemma AcceptedQuotesCollide(cfg: Config, a': Args, b: string, c: string)
    requires ArgsOk(a') && CheckArgs(LineMax(cfg), a') == LMQTT_OK && NulFree(b)
    requires MessageOf(a').payload == b + "\"," + Print(|c|) + ",\"" + c
    requires |a'.topic.value| + |Print(a'.len)| + |b| + 4 <= TOPIC_MAX
    ensures var topic := a'.topic.value + "\"," + Print(a'.len) + ",\"" + b;
            var a := a'.(topic := Some(topic), payload := Some(c), len := |c|);
            && ArgsOk(a) && CheckArgs(LineMax(cfg), a) == LMQTT_OK
            && MessageOf(a) != MessageOf(a') && Encode(MessageOf(a)) == Encode(MessageOf(a'))
  {
    hide Print, Encode, Head, NulFree;
    var topic := a'.topic.value + "\"," + Print(a'.len) + ",\"" + b;
    var a := a'.(topic := Some(topic), payload := Some(c), len := |c|);
    LongerTopic(a'.topic.value, a'.len, b);
    PayloadLength(a');
    assert c[..|c|] == c;
    QuotedTopicIsAmbiguous(MessageOf(a'), b, c);
    HeadFits(cfg, MessageOf(a));
  }

  lemma LongerTopic(topic: string, n: nat, b: string)
    requires NulFree(topic) && NulFree(b)
    ensures NulFree(topic + "\"," + Print(n) + ",\"" + b)
  {
    PrintNulFree(n);
    hide Print;
  }

  lemma PayloadLength(a: Args)
    requires ArgsOk(a) && a.topic.Some? && (a.payload.None? ==> a.len == 0)
    ensures |MessageOf(a).payload| == a.len
  {
  }

  lemma PrintNulFree(n: nat)
    ensures NulFree(Print(n))
  {
    assert !IsDigit(NUL);
  }

  /** A pair of publishes that are both accepted, say different things and are the same bytes. */
  lemma CollisionIsAccepted(cfg: Config)
    ensures exists a, a' :: ArgsOk(a) && ArgsOk(a')
              && CheckArgs(LineMax(cfg), a) == LMQTT_OK && CheckArgs(LineMax(cfg), a') == LMQTT_OK
              && MessageOf(a) != MessageOf(a') && Encode(MessageOf(a)) == Encode(MessageOf(a'))
  {
    var payload := "y" + "\"," + Print(1) + ",\"" + "z";
    var a' := Args(0, 1, 1, false, Some("x"), Some(payload), 7);
    assert |payload| == 7 && |Print(7)| == 1;
    assert payload[..7] == payload;
    hide Print, Encode, Head;
    HeadFits(cfg, MessageOf(a'));
    AcceptedQuotesCollide(cfg, a', "y", "z");
  }

  /** The argument checks in both configurations: each code exactly for its arguments, and no others. */
  lemma CheckArgsExact(cfg: Config, a: Args)
    requires ArgsOk(a)
    ensures var bad := a.topic.None? || (a.payload.None? && a.len > 0) || a.msgid == 0;
            && (bad <==> CheckArgs(LineMax(cfg), a) == -1)
            && (!bad && (|a.topic.value| > 256 || a.len > 1024) <==> CheckArgs(LineMax(cfg), a) == -7)
            && (!bad && |a.topic.value| <= 256 && a.len <= 1024 <==> CheckArgs(LineMax(cfg), a) == 0)
  {
    hide Head;
    if a.topic.Some? && (a.payload.None? ==> a.len == 0) && |a.topic.value| <= 256 && a.len <= 1024 {
      PayloadLength(a);
      HeadFits(cfg, MessageOf(a));
    }
  }

  function AddBadAcks(s: State, k: nat): State {
    s.(core := s.core.(counts := s.core.counts.(badPubAcks := s.core.counts.badPubAcks + k)))
  }

  /** The transaction of an accepted publish, from begin to finish or abort. */
  function PubOutcome(lineMax: nat, s: State, m: Message, io: Traffic): Outcome
    requires m.msgid < 0x1_0000 && |io.writes| >= 3
  {
    Transact(lineMax, s.(core := Begin(s.core, KIND_PUB, m.msgid, None, 0)), Pieces(m), io)
  }

  /** A finish that ends well in a publish window has claimed a result. */
  lemma {:induction false} PubClaims(lineMax: nat, s: State, m: Message, io: Traffic)
    requires m.msgid < 0x1_0000 && |io.writes| >= 3
    ensures PubOutcome(lineMax, s, m, io).rc == LMQTT_OK ==> PubOutcome(lineMax, s, m, io).out.Some?
  {
    PubOutcomePending(lineMax, s.(core := Begin(s.core, KIND_PUB, m.msgid, None, 0)), Pieces(m), io);
    PackUnpack(KIND_PUB, m.msgid);
  }

  /** Sending pieces and receiving bytes leaves the pairing word alone. */
  lemma {:induction false} SendKeepsPending(lineMax: nat, s: State, pieces: seq<string>, writes: seq<Write>)
    requires |pieces| <= |writes|
    ensures SendAll(lineMax, s, pieces, writes).0.core.cmd.pending == s.core.cmd.pending
    decreases |pieces|
  {
    if pieces != [] {
      FeedKeepsPending(lineMax, s, writes[0].arriving);
      SendKeepsPending(lineMax, Feed(lineMax, s, writes[0].arriving), pieces[1..], writes[1..]);
    }
  }

  lemma {:induction false} FeedKeepsPending(lineMax: nat, s: State, bytes: string)
    ensures Feed(lineMax, s, bytes).core.cmd.pending == s.core.cmd.pending
    decreases |bytes|
  {
    hide FeedByte;
    if bytes != "" {
      FeedKeepsPending(lineMax, s, bytes[..|bytes| - 1]);
      ByteKeepsPending(lineMax, Feed(lineMax, s, bytes[..|bytes| - 1]), bytes[|bytes| - 1]);
    }
  }

  lemma ByteKeepsPending(lineMax: nat, s: State, c: char)
    ensures FeedByte(lineMax, s, c).core.cmd.pending == s.core.cmd.pending
  {
    hide Classify;
  }

  lemma PubOutcomePending(lineMax: nat, start: State, pieces: seq<string>, io: Traffic)
    requires |pieces| <= |io.writes|
    requires KindOf(start.core.cmd.pending) != KIND_NONE && KindOf(start.core.cmd.pending) != KIND_RAW
    ensures Transact(lineMax, start, pieces, io).rc == LMQTT_OK ==> Transact(lineMax, start, pieces, io).out.Some?
  {
    SendKeepsPending(lineMax, start, pieces, io.writes);
    hide Feed, Wait, Ready, SendAll;
  }

  lemma PiecesSplit(m: Message)
    ensures [Head(m)] + BodyPieces(m) == Pieces(m)
  {
  }

  /** The sends of lmqtt_pub: the payload is sent only when there is one. */
  method SendPieces(engine: Engine, head: string, m: Message, writes: seq<Write>) returns (rc: int)
    requires engine.Valid() && |writes| >= 3 && head == Head(m)
    modifies engine`cmd, engine`counts, engine`connected, engine`rawLen, engine`rawLines, engine.rawOut,
             engine`lineLen, engine`lineOver, engine.line, engine`downOffset, engine`downIdx,
             engine`downReady, engine`downDrops, engine.down0, engine.down1, engine`wire
    ensures engine.Valid() && (rc == LMQTT_OK || rc == ERR_IO)
    ensures (engine.FullState(), rc == LMQTT_OK) ==
            SendAll(LineMax(engine.cfg), old(engine.FullState()), Pieces(m), writes)
    ensures engine.wire == old(engine.wire) + SentBytes(Pieces(m), writes)
  {
    PiecesSplit(m);
    hide Pieces, Head, BodyPieces, SendAll, SentBytes, Feed, WrittenPart;
    SendFirst(LineMax(engine.cfg), engine.FullState(), head, BodyPieces(m), writes);
    rc := engine.CmdSend(head, writes[0]);
    if rc == LMQTT_OK {
      rc := SendBody(engine, m, writes[1..]);
    }
  }

  lemma BodySplit(m: Message)
    ensures BodyPieces(m) == if |m.payload| > 0 then [m.payload] + [PUB_TAIL] else [PUB_TAIL]
    ensures [PUB_TAIL] + [] == [PUB_TAIL]
  {
  }

  /** The payload, when there is one, and the closing quote with the line end. */
  method SendBody(engine: Engine, m: Message, writes: seq<Write>) returns (rc: int)
    requires engine.Valid() && |writes| >= 2
    modifies engine`cmd, engine`counts, engine`connected, engine`rawLen, engine`rawLines, engine.rawOut,
             engine`lineLen, engine`lineOver, engine.line, engine`downOffset, engine`downIdx,
             engine`downReady, engine`downDrops, engine.down0, engine.down1, engine`wire
    ensures engine.Valid() && (rc == LMQTT_OK || rc == ERR_IO)
    ensures (engine.FullState(), rc == LMQTT_OK) ==
            SendAll(LineMax(engine.cfg), old(engine.FullState()), BodyPieces(m), writes)
    ensures engine.wire == old(engine.wire) + SentBytes(BodyPieces(m), writes)
  {
    hide BodyPieces, SendAll, SentBytes, Feed, WrittenPart;
    BodySplit(m);
    rc := LMQTT_OK;
    var unused := writes;
    if |m.payload| > 0 {
      SendFirst(LineMax(engine.cfg), engine.FullState(), m.payload, [PUB_TAIL], unused);
      rc := engine.CmdSend(m.payload, unused[0]);
      unused := unused[1..];
    }
    if rc == LMQTT_OK {
      SendFirst(LineMax(engine.cfg), engine.FullState(), PUB_TAIL, [], unused);
      SendNothing(LineMax(engine.cfg), unused[1..]);
      rc := engine.CmdSend(PUB_TAIL, unused[0]);
    }
  }

  lemma SendNothing(lineMax: nat, writes: seq<Write>)
    ensures SentBytes([], writes) == ""
    ensures forall s: State :: SendAll(lineMax, s, [], writes) == (s, true)
  {
  }

  /** lmqtt_pub */
  method Pub(engine: Engine, a: Args, io: Traffic) returns (rc: int)
    requires engine.Valid() && !engine.locked && |io.writes| >= 3 && ArgsOk(a)
    modifies engine, engine.line, engine.down0, engine.down1
    ensures engine.Valid() && !engine.locked
    ensures CheckArgs(LineMax(engine.cfg), a) != LMQTT_OK ==>
              rc == CheckArgs(LineMax(engine.cfg), a)
              && engine.FullState() == old(engine.FullState()) && engine.wire == old(engine.wire)
    ensures CheckArgs(LineMax(engine.cfg), a) == LMQTT_OK ==>
              var o := PubOutcome(LineMax(engine.cfg), old(engine.FullState()), MessageOf(a), io);
              && (o.rc != 0 ==> rc == o.rc && engine.FullState() == o.s)
              && (o.rc == 0 ==>
                    && o.out.Some?
                    && rc == (if o.out.value.0 == 0 || o.out.value.0 == 1 then 0 else -4)
                    && engine.FullState() == AddBadAcks(o.s, if o.out.value.0 == 1 then 1 else 0))
              && engine.wire == old(engine.wire) + SentBytes(Pieces(MessageOf(a)), io.writes)
              && (o.rc != ERR_IO ==> engine.wire == old(engine.wire) + Encode(MessageOf(a)))
  {
    hide Head, Encode, SentBytes, Transact, Pieces, Pack;
    if a.topic.None? || (a.payload.None? && a.len > 0) {
      return ERR_PARAM;
    }
    if a.msgid == 0 {
      return ERR_PARAM;
    }
    if |a.topic.value| > TOPIC_MAX {
      return ERR_OVERFLOW;
    }
    if a.len > PUB_INLINE_MAX {
      return ERR_OVERFLOW;
    }
    var m := MessageOf(a);
    var head := new char[LineMax(engine.cfg)];
    var headLen := Format(head, Head(m));
    if headLen >= head.Length {
      return ERR_OVERFLOW;
    }
    HeadNulFree(m);
    PackUnpack(KIND_PUB, a.msgid);
    engine.CmdBegin(KIND_PUB, a.msgid, null, 0);
    rc := Exchange(engine, CStr(head[..]), m, io);
  }

  /** The sends and the finish of lmqtt_pub inside its window, and the reading of the result. */
  method Exchange(engine: Engine, head: string, m: Message, io: Traffic) returns (rc: int)
    requires engine.Valid() && engine.locked && |io.writes| >= 3 && head == Head(m) && engine.rawOut == null
    requires KindOf(engine.cmd.pending) == KIND_PUB
    modifies engine, engine.line, engine.down0, engine.down1
    ensures engine.Valid() && !engine.locked
    ensures var o := Transact(LineMax(engine.cfg), old(engine.FullState()), Pieces(m), io);
            && (o.rc != 0 ==> rc == o.rc && engine.FullState() == o.s)
            && (o.rc == 0 ==>
                  && o.out.Some?
                  && rc == (if o.out.value.0 == 0 || o.out.value.0 == 1 then 0 else -4)
                  && engine.FullState() == AddBadAcks(o.s, if o.out.value.0 == 1 then 1 else 0))
            && engine.wire == old(engine.wire) + SentBytes(Pieces(m), io.writes)
            && (o.rc != ERR_IO ==> engine.wire == old(engine.wire) + Encode(m))
  {
    hide Head, SentBytes, SendAll, Finish, Feed, Encode, Pieces;
    PubOutcomePending(LineMax(engine.cfg), engine.FullState(), Pieces(m), io);
    rc := SendPieces(engine, head, m, io.writes);
    if rc != LMQTT_OK {
      engine.CmdAbort();
      return;
    }
    SentIsEncoded(LineMax(engine.cfg), old(engine.FullState()), m, io.writes);
    var out;
    rc, out := engine.CmdFinish(io.atAck, io.atUrc);
    if rc != LMQTT_OK {
      return;
    }
    if out.Some? && out.value.0 != 0 && out.value.0 != 1 {
      return ERR_RESULT;
    }
    if out.Some? && out.value.0 == 1 {
      engine.counts := engine.counts.(badPubAcks := engine.counts.badPubAcks + 1);
    }
    return LMQTT_OK;
  }

  lemma HeadNulFree(m: Message)
    requires NulFree(m.topic)
    ensures CStr(Head(m)) == Head(m)
  {
    assert forall n: nat :: NulFree(Print(n)) by {
      forall n: nat ensures NulFree(Print(n)) {
        PrintNulFree(n);
      }
    }
    hide Print;
    CStrOfNulFree(Head(m));
  }
}
