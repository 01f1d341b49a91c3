/** The downlink path end to end: from received bytes to the texts a take returns. */
module Downlink {
  import opened Basics
  import opened CStrings
  import opened Decimal
  import opened LineSyntax
  import opened EngineState
  import opened Framing

  const URC_PREFIX := "+LMQTTURC: "

  /** `RECV,<id>,<msgid>,"<topic>",<payload>`, the payload as it stands on the line. */
  function RecvText(id: nat, msgid: nat, topic: string, wirePayload: string): string {
    "RECV" + [','] + (Print(id) + [','] + (Print(msgid) + [','] + TopicText(topic, wirePayload)))
  }

  function TopicText(topic: string, wirePayload: string): string {
    ['"'] + (topic + ['"'] + ([','] + wirePayload))
  }

  /** Which payload the engine delivers for the payload text on the line. */
  predicate Denotes(wirePayload: string, payload: string) {
    payload != "" &&
    ((wirePayload == payload && payload[0] != ' '
      && !(|payload| >= 2 && payload[0] == '"' && payload[|payload| - 1] == '"'))
     || wirePayload == "\"" + payload + "\"")
  }

  lemma SkipPrintedField(n: nat, rest: string)
    requires rest != "" ==> rest[0] != ' '
    ensures SkipField(Print(n) + [','] + rest) == Some(rest)
  {
    assert ',' !in Print(n);
    IndexOfField(Print(n), ',', rest);
  }

  lemma ParsePayloadText(wirePayload: string, payload: string)
    requires Denotes(wirePayload, payload)
    ensures ParsePayload([','] + wirePayload) == payload
  {
    assert ([','] + wirePayload)[1..] == wirePayload;
    if wirePayload == "\"" + payload + "\"" {
      assert wirePayload[1..|wirePayload| - 1] == payload;
    }
  }

  /** A payload sent without quotes is delivered as it is, exactly unless it starts with a space or is enclosed. */
  lemma BarePayloadExact(payload: string)
    requires payload != ""
    ensures ParsePayload([','] + payload) == payload <==>
            payload[0] != ' ' && !(|payload| >= 2 && payload[0] == '"' && payload[|payload| - 1] == '"')
  {
    assert ([','] + payload)[1..] == payload;
    if payload[0] == ' ' {
      SkipsSpace(payload);
    }
  }

  lemma SkipsSpace(s: string)
    requires s != "" && s[0] == ' '
    ensures |SkipSpaces(s)| < |s|
  {
  }

  lemma ParseTopicText(topic: string, wirePayload: string, payload: string)
    requires topic != "" && '"' !in topic && Denotes(wirePayload, payload)
    ensures ParseTopicPayload(TopicText(topic, wirePayload)) == Some((topic, payload))
  {
    var rest := [','] + wirePayload;
    assert TopicText(topic, wirePayload)[1..] == topic + ['"'] + rest;
    IndexOfField(topic, '"', rest);
    ParsePayloadText(wirePayload, payload);
  }

  lemma ParseRecvText(id: nat, msgid: nat, topic: string, wirePayload: string, payload: string)
    requires topic != "" && '"' !in topic && Denotes(wirePayload, payload)
    ensures ParseRecv(RecvText(id, msgid, topic, wirePayload)) == Some((topic, payload))
  {
    var t3 := TopicText(topic, wirePayload);
    var t2 := Print(msgid) + [','] + t3;
    var t1 := Print(id) + [','] + t2;
    assert forall n :: Print(n)[0] in Print(n);
    IndexOfField("RECV", ',', t1);
    SkipPrintedField(id, t2);
    SkipPrintedField(msgid, t3);
    var data := RecvText(id, msgid, topic, wirePayload);
    assert SkipField(data) == Some(t1);
    assert SkipFields(t1, 2) == SkipFields(t2, 1) == SkipFields(t3, 0);
    ParseTopicText(topic, wirePayload, payload);
  }

  lemma ClassifyRecvLine(data: string)
    requires NulFree(URC_PREFIX + data) && StartsWith(data, "RECV")
    ensures Classify(URC_PREFIX + data) == RecvLine(data)
  {
    var line := URC_PREFIX + data;
    CStrOfNulFree(line);
    assert line[..11] == URC_PREFIX && line[11..] == data;
    assert URC_PREFIX[..6] == "+LMQTT";
    assert line[..6] == URC_PREFIX[..6];
    assert IsLmqtt(line);
  }

  lemma ClassifyRecvText(id: nat, msgid: nat, topic: string, wirePayload: string, payload: string)
    requires topic != "" && '"' !in topic && Denotes(wirePayload, payload)
    requires NulFree(URC_PREFIX + RecvText(id, msgid, topic, wirePayload))
    ensures Classify(URC_PREFIX + RecvText(id, msgid, topic, wirePayload)) == Recv(topic, payload)
  {
    var data := RecvText(id, msgid, topic, wirePayload);
    var line := URC_PREFIX + data;
    ClassifyRecvLine(data);
    ParseRecvText(id, msgid, topic, wirePayload, payload);
  }

  /**
   * Neither capacity comparison of lmqtt_downlink_put can reject a downlink the framer let through:
   * it is dropped only because the mailbox is busy or the topic is longer than 256 bytes.
   */
  lemma DropReasons(cfg: Config, line: string, m: Mail)
    requires |line| < LineMax(cfg) && Classify(line).Recv? && Capacity(m) == DownMax(cfg)
    ensures var topic, payload := Classify(line).topic, Classify(line).payload;
            && |topic| + 1 < DownMax(cfg)
            && |payload| < DownMax(cfg) - |topic| - 1
            && (Accepts(m, |topic|, |payload|) <==> !m.ready && |topic| <= TOPIC_MAX)
  {
    assert IsLmqtt(line);
    var data := CStr(line)[11..];
    assert ParseRecv(data) == Some((Classify(line).topic, Classify(line).payload));
  }

  /** A put that is accepted is what the next take hands out. */
  lemma TakeAfterPut(m: Mail, topic: string, payload: string)
    requires Accepts(m, |topic|, |payload|) && NulFree(topic) && NulFree(payload)
    ensures var (m', b) := Take(Put(m, topic, payload));
            b.Some? && ReadBorrow(m', b.value) == (topic, payload)
  {
    var slot := 1 - m.idx;
    var rest := m.cells[slot][|topic| + |payload| + 2..];
    var cell := Put(m, topic, payload).cells[slot];
    assert cell == topic + [NUL] + (payload + [NUL] + rest);
    assert cell[|topic| + 1..] == payload + [NUL] + rest;
    CStrOfTerminated(topic, payload + [NUL] + rest);
    CStrOfTerminated(payload, rest);
  }

  /** A whole line and its CRLF, fed to a fresh framer in any chunks, is one dispatch. */
  lemma LineThroughFramer(lineMax: nat, core: Core, line: string, chunks: seq<string>)
    requires Concat(chunks) == line + "\r\n"
    requires '\r' !in line && '\n' !in line && 0 < |line| < lineMax
    ensures FeedChunks(lineMax, State(Frame("", false), core), chunks) ==
            State(Frame("", false), Dispatch(core, line))
  {
    ChunkingIsInvisible(lineMax, State(Frame("", false), core), chunks);
    var segment := line + "\r";
    var bytes := line + "\r\n";
    FramerRefines(lineMax, core, "", bytes);
    assert "" + bytes == bytes && bytes[..|bytes| - 1] == segment;
    SplitWithoutLf(segment);
    assert Split(bytes) == ([segment], "");
    assert segment[..|segment| - 1] == line;
    CleanOfClean(line);
    assert [segment][..0] == [];
    assert DeliverAll(lineMax, core, [segment]) == Deliver(lineMax, DeliverAll(lineMax, core, []), segment);
  }

  /**
   * Downlink round trip: whatever the chunking, the take after the line returns exactly the topic
   * and payload that were sent, bare or inside one pair of quotes.
   */
  lemma DownlinkRoundTrip(cfg: Config, core: Core, chunks: seq<string>,
                          id: nat, msgid: nat, topic: string, wirePayload: string, payload: string)
    requires topic != "" && |topic| <= TOPIC_MAX && '"' !in topic && Denotes(wirePayload, payload)
    requires var line := URC_PREFIX + RecvText(id, msgid, topic, wirePayload);
             && Concat(chunks) == line + "\r\n" && |line| < LineMax(cfg)
             && NulFree(line) && '\r' !in line && '\n' !in line
    requires !core.mail.ready && Capacity(core.mail) == DownMax(cfg)
    ensures var s := FeedChunks(LineMax(cfg), State(Frame("", false), core), chunks);
            var (m', b) := Take(s.core.mail);
            && b.Some? && ReadBorrow(m', b.value) == (topic, payload)
            && s.core.mail.drops == core.mail.drops
  {
    var line := URC_PREFIX + RecvText(id, msgid, topic, wirePayload);
    LineThroughFramer(LineMax(cfg), core, line, chunks);
    ClassifyRecvText(id, msgid, topic, wirePayload, payload);
    DropReasons(cfg, line, core.mail);
    assert forall c | c in topic :: c in line;
    assert forall c | c in payload :: c in wirePayload && c in line;
    TakeAfterPut(core.mail, topic, payload);
  }
}
