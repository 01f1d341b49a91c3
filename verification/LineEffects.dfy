/**
 * What single lines do, told by their text: which lines are which, and what each leaves in the engine.
 * Every text is spelled out here; `p <= t` says that the text `t` begins with `p`.
 */
module LineEffects {
  import opened Basics
  import opened CStrings
  import opened Decimal
  import opened PairingWord
  import opened LineSyntax
  import opened EngineState
  import opened Framing
  import opened Downlink
  import opened ResultUrcs

  // ---- which line is which ----

  lemma BeginsIs(t: string, p: string)
    ensures StartsWith(t, p) <==> p <= t
  {
  }

  /** The four branches of lmqtt_line_dispatch, by the text of the line as a C string. */
  lemma BranchByText(line: string)
    ensures var t, l := CStr(line), Classify(line);
            var lmqtt := |line| > 7 && "+LMQTT" <= t;
            && (l.Ok? <==> line == "OK")
            && (l.Error? <==> !lmqtt && ("ERROR" <= t || "+CME ERROR" <= t))
            && (l.Ordinary? <==> !lmqtt && line != "OK" && !("ERROR" <= t) && !("+CME ERROR" <= t))
            && (l.Ordinary? ==> l.text == line)
  {
    var t := CStr(line);
    BeginsIs(t, "+LMQTT");
    BeginsIs(t, "ERROR");
    BeginsIs(t, "+CME ERROR");
    LmqttBranch(line);
    if line == "OK" {
      CStrOfNulFree(line);
    }
    hide CStr, StartsWith, ClassifyLmqtt, ParseCme;
  }

  lemma LmqttBranch(line: string)
    ensures var l := ClassifyLmqtt(line); !l.Ok? && !l.Error? && !l.Ordinary?
  {
  }

  /** A C string read from a known beginning without NUL. */
  lemma CStrAfter(p: string, t: string)
    requires NulFree(p)
    ensures CStr(p + t) == p + CStr(t)
  {
    var i := |p| + IndexOf(t, NUL);
    assert (p + t)[..i] == p + t[..IndexOf(t, NUL)];
    IndexOfUnique(p + t, NUL, i);
  }

  // ---- terminators ----

  /** An OK: fenced, outside any window, the first of its window, or a further one. */
  lemma OkEffect(s: Core)
    ensures var c, n := s.cmd, s.counts;
            Dispatch(s, "OK") ==
            if c.busy && !c.written then s.(counts := n.(earlyAcks := n.earlyAcks + 1))
            else s.(cmd := c.(acked := true, token := true),
                    counts := if !c.busy then n.(strayOks := n.strayOks + 1)
                              else if c.acked then n.(extraAcks := n.extraAcks + 1) else n)
  {
    OnlyOkIsOk("OK");
    hide Classify;
  }

  /** What an error line does once its number is counted. */
  function Rejected(s: Core): Core {
    var c, n := s.cmd, s.counts;
    if c.busy && !c.written then s.(counts := n.(earlyErrs := n.earlyErrs + 1))
    else s.(cmd := c.(rejected := true, token := true),
            counts := if !c.busy then n.(strayErrs := n.strayErrs + 1)
                      else if c.rejected then n.(extraErrs := n.extraErrs + 1) else n)
  }

  lemma ErrorApplies(s: Core, cme: Cme)
    ensures Apply(s, Error(cme)) == Rejected(s.(counts := CountCme(s.counts, cme)))
  {
  }

  /** A line that begins with ERROR: outside the fence it rejects and wakes the command; no number is counted. */
  lemma ErrorEffect(s: Core, t: string)
    ensures var c, n, after := s.cmd, s.counts, Dispatch(s, "ERROR" + t);
            && (c.busy && !c.written ==> after == s.(counts := n.(earlyErrs := n.earlyErrs + 1)))
            && (!(c.busy && !c.written) ==>
                  after == s.(cmd := c.(rejected := true, token := true), counts := after.counts))
            && (!c.busy ==> after.counts == n.(strayErrs := n.strayErrs + 1))
            && (c.busy && c.written ==>
                  after.counts == if c.rejected then n.(extraErrs := n.extraErrs + 1) else n)
  {
    var line := "ERROR" + t;
    CStrAfter("ERROR", t);
    assert NulFree("ERROR");
    assert CStr(line)[0] == 'E' && line[0] == 'E';
    BranchByText(line);
    assert Classify(line) == Error(NotCme);
    ErrorApplies(s, NotCme);
    hide Classify;
  }

  /** The same for +CME ERROR: the line is counted, and without a number the last code stays. */
  lemma CmeWithoutNumber(s: Core, t: string)
    requires t != "" ==> t[0] != ' ' && t[0] != ':' && !IsDigit(t[0])
    ensures Dispatch(s, "+CME ERROR: " + t) ==
            Rejected(s.(counts := s.counts.(cmeErrs := s.counts.cmeErrs + 1)))
  {
    BareLine(t);
    ErrorApplies(s, CmeBare);
    hide Classify, Rejected, Apply;
  }

  lemma FirstOfCStr(t: string)
    ensures CStr(t) != "" ==> t != "" && CStr(t)[0] == t[0]
  {
  }

  lemma BareLine(t: string)
    requires t != "" ==> t[0] != ' ' && t[0] != ':' && !IsDigit(t[0])
    ensures Classify("+CME ERROR: " + t) == Error(CmeBare)
  {
    assert NulFree("+CME ERROR: ");
    hide Classify, ParseCme, CStr, NulFree;
    FirstOfCStr(t);
    CStrAfter("+CME ERROR: ", t);
    BareNumber(CStr(t));
    CmeIsError("+CME ERROR: " + t, CStr(t));
  }

  lemma CmeIsError(line: string, u: string)
    requires CStr(line) == "+CME ERROR: " + u
    ensures Classify(line) == Error(ParseCme(CStr(line)))
  {
    assert CStr(line)[1] == 'C';
    assert "+CME ERROR" <= CStr(line) by {
      assert CStr(line)[..10] == "+CME ERROR";
    }
    BranchByText(line);
    hide ParseCme, CStr, ClassifyLmqtt;
  }

  lemma BareNumber(u: string)
    requires u != "" ==> u[0] != ' ' && u[0] != ':' && !IsDigit(u[0])
    ensures ParseCme("+CME ERROR: " + u) == CmeBare
    ensures "+CME ERROR" <= "+CME ERROR: " + u
  {
    var text := "+CME ERROR: " + u;
    assert text[..10] == "+CME ERROR" && text[10..] == ": " + u;
    NoDigitsFollow(u);
    hide CmeDigits, SkipSeparators;
  }

  lemma NoDigitsFollow(u: string)
    requires u != "" ==> u[0] != ' ' && u[0] != ':' && !IsDigit(u[0])
    ensures CmeDigits(SkipSeparators(": " + u)) == 0
  {
    assert (": " + u)[1..] == " " + u && (" " + u)[1..] == u;
    assert SkipSeparators(u) == u == SkipSeparators(" " + u);
    assert DigitRun(u) == 0;
  }

  // ---- ordinary lines ----

  /** Any other line is counted once, told apart by two beginnings, and offered to an open RAW window. */
  lemma OrdinaryEffect(s: Core, line: string)
    requires !(|line| > 7 && "+LMQTT" <= CStr(line)) && line != "OK"
    requires !("ERROR" <= CStr(line)) && !("+CME ERROR" <= CStr(line))
    ensures var t, n := CStr(line), s.counts;
            Dispatch(s, line) ==
            s.(raw := if KindOf(s.cmd.pending) == KIND_RAW then RawAppend(s.raw, line) else s.raw,
               counts := n.(rxOther := n.rxOther + 1,
                            pwrDowns := n.pwrDowns + (if "NORMAL POWER DOWN" <= t then 1 else 0),
                            boots := n.boots + (if "^boot.rom" <= t then 1 else 0)))
  {
    BranchByText(line);
    BeginsIs(CStr(line), "NORMAL POWER DOWN");
    BeginsIs(CStr(line), "^boot.rom");
    hide Classify, CStr, StartsWith;
  }

  /** A response line such as the signal quality is ordinary. */
  lemma CsqIsOrdinary(t: string)
    ensures Classify("+CSQ: " + t) == Ordinary("+CSQ: " + t)
  {
    var line := "+CSQ: " + t;
    assert NulFree("+CSQ: ");
    CStrAfter("+CSQ: ", t);
    assert line[2] == 'S' && CStr(line)[2] == 'S';
    BranchByText(line);
    hide Classify;
  }

  // ---- result URCs ----

  /** The seven spellings of the manual, the command each answers, and whether it carries a msgID. */
  predicate Documented(prefix: string, kind: Kind, withMsgId: bool) {
    || (prefix == "+LMQTTOPEN: " && kind == KIND_OPEN && !withMsgId)
    || (prefix == "+LMQTTCLOSE: " && kind == KIND_CLOSE && !withMsgId)
    || (prefix == "+LMQTTCONN: " && kind == KIND_CONN && !withMsgId)
    || (prefix == "+LMQTTDISC: " && kind == KIND_DISC && !withMsgId)
    || (prefix == "+LMQTTSUBUNSUB: " && kind == KIND_SUBUNSUB && withMsgId)
    || (prefix == "+LMQTTUNSUNSUB: " && kind == KIND_SUBUNSUB && withMsgId)
    || (prefix == "+LMQTTPUB: " && kind == KIND_PUB && withMsgId)
  }

  lemma DocumentedRow(prefix: string, kind: Kind, withMsgId: bool) returns (j: nat)
    requires Documented(prefix, kind, withMsgId)
    ensures j < |RESULT_URCS| && RESULT_URCS[j] == UrcEntry(prefix, kind, withMsgId)
  {
    j := if prefix == "+LMQTTOPEN: " then 0
         else if prefix == "+LMQTTCLOSE: " then 1
         else if prefix == "+LMQTTCONN: " then 2
         else if prefix == "+LMQTTDISC: " then 3
         else if prefix == "+LMQTTSUBUNSUB: " then 4
         else if prefix == "+LMQTTUNSUNSUB: " then 5 else 6;
  }

  /** What the printed result URC of a kind, with these values, does to the engine. */
  predicate Answers(s: Core, line: string, kind: Kind, withMsgId: bool, msgid: MsgId, result: int, extend: int) {
    var w, after := s.cmd.pending, Dispatch(s, line);
    && (KindOf(w) == kind && (!withMsgId || MsgIdOf(w) == 0 || MsgIdOf(w) == msgid) ==>
          after == s.(cmd := s.cmd.(result := result, extra := extend, delivered := w, got := true, token := true)))
    && (KindOf(w) == kind && withMsgId && MsgIdOf(w) != 0 && MsgIdOf(w) != msgid ==>
          after == s.(counts := s.counts.(staleUrcs := s.counts.staleUrcs + 1)))
    && (KindOf(w) != kind ==> after == s)
  }

  lemma RowAnswers(s: Core, prefix: string, kind: Kind, withMsgId: bool, id: nat, msgid: MsgId,
                   result: Int32, extend: Option<Int32>)
    requires Documented(prefix, kind, withMsgId)
    ensures Answers(s, prefix + FieldText(withMsgId, id, msgid, result, extend), kind, withMsgId, msgid,
                    result, ExtendValue(extend))
  {
    var j := DocumentedRow(prefix, kind, withMsgId);
    var e := RESULT_URCS[j];
    hide Classify, FieldText, RESULT_URCS, Documented;
    ResultUrcRoundTrip(s, j, e, id, msgid, result, extend, RowText(e, id, msgid, result, extend));
  }

  lemma Associate(x: string, y: string, z: string)
    ensures x + y + z == x + (y + z)
  {
  }

  lemma LongText(p: string, withMsgId: bool, id: nat, msgid: MsgId, result: int, extend: int)
    ensures p + FieldText(withMsgId, id, msgid, result, Some(extend)) ==
            if withMsgId then p + PrintInt(id) + "," + PrintInt(msgid) + "," + PrintInt(result) + "," + PrintInt(extend)
            else p + PrintInt(id) + "," + PrintInt(result) + "," + PrintInt(extend)
  {
    ShortText(p, withMsgId, id, msgid, result);
    hide PrintInt;
    var front := FieldText(withMsgId, id, msgid, result, None);
    Associate(front, ",", PrintInt(extend));
    Associate(p, front, "," + PrintInt(extend));
    Associate(p + front, ",", PrintInt(extend));
    FieldTextLonger(withMsgId, id, msgid, result, extend);
  }

  lemma FieldTextLonger(withMsgId: bool, id: nat, msgid: MsgId, result: int, extend: int)
    ensures FieldText(withMsgId, id, msgid, result, Some(extend)) ==
            FieldText(withMsgId, id, msgid, result, None) + "," + PrintInt(extend)
  {
    hide PrintInt;
  }

  lemma ShortText(p: string, withMsgId: bool, id: nat, msgid: MsgId, result: int)
    ensures p + FieldText(withMsgId, id, msgid, result, None) ==
            if withMsgId then p + PrintInt(id) + "," + PrintInt(msgid) + "," + PrintInt(result)
            else p + PrintInt(id) + "," + PrintInt(result)
  {
    hide PrintInt;
  }

  /**
   * Each of the seven result URCs, as it stands on the line with its extend, answers its own command:
   * in a window of its kind, and of its msgID where both have one, it stores the two values, signs them
   * and wakes the command.
   */
  lemma ResultUrcAnswers(s: Core, prefix: string, kind: Kind, withMsgId: bool, id: nat, msgid: MsgId,
                         result: Int32, extend: Int32, line: string)
    requires Documented(prefix, kind, withMsgId)
    requires line == if withMsgId then prefix + PrintInt(id) + "," + PrintInt(msgid) + "," + PrintInt(result)
                                       + "," + PrintInt(extend)
                     else prefix + PrintInt(id) + "," + PrintInt(result) + "," + PrintInt(extend)
    ensures Answers(s, line, kind, withMsgId, msgid, result, extend)
  {
    RowAnswers(s, prefix, kind, withMsgId, id, msgid, result, Some(extend));
    hide PrintInt, Answers, Dispatch;
    LongText(prefix, withMsgId, id, msgid, result, extend);
  }

  /** And without an extend, which then counts as 0. */
  lemma ShortUrcAnswers(s: Core, prefix: string, kind: Kind, withMsgId: bool, id: nat, msgid: MsgId,
                        result: Int32, line: string)
    requires Documented(prefix, kind, withMsgId)
    requires line == if withMsgId then prefix + PrintInt(id) + "," + PrintInt(msgid) + "," + PrintInt(result)
                     else prefix + PrintInt(id) + "," + PrintInt(result)
    ensures Answers(s, line, kind, withMsgId, msgid, result, 0)
  {
    RowAnswers(s, prefix, kind, withMsgId, id, msgid, result, None);
    hide PrintInt, Answers, Dispatch;
    ShortText(prefix, withMsgId, id, msgid, result);
  }

  /** A row that ends before its result is consumed and changes nothing at all. */
  lemma UrcWithoutResult(s: Core, prefix: string, kind: Kind, withMsgId: bool, id: nat, msgid: MsgId, line: string)
    requires Documented(prefix, kind, withMsgId)
    requires line == prefix + PrintInt(id) || (withMsgId && line == prefix + PrintInt(id) + "," + PrintInt(msgid))
    ensures Dispatch(s, line) == s
  {
    var j := DocumentedRow(prefix, kind, withMsgId);
    PrefixNulFree(j);
    PrintIntNulFree(id);
    PrintIntNulFree(msgid);
    var one := line == prefix + PrintInt(id);
    hide Classify, PrintInt, RESULT_URCS, ParseResultFields, Documented;
    var data := if one then PrintInt(id) else PrintInt(id) + "," + PrintInt(msgid);
    assert line == prefix + data;
    RowIsResult(j, data);
    TooFewFields(RESULT_URCS[j], id, msgid, data);
  }

  lemma TooFewFields(e: UrcEntry, id: nat, msgid: MsgId, data: string)
    requires data == PrintInt(id) || (e.hasMsgId && data == PrintInt(id) + "," + PrintInt(msgid))
    ensures ParseResultFields(e, data) == ResultMalformed
  {
    var k := if e.hasMsgId then 4 else 3;
    ScanFieldsLast(id, k);
    ScanFieldsCons(id, PrintInt(msgid), k);
    ScanFieldsLast(msgid, k - 1);
    hide ScanFields, PrintInt;
  }

  /** A line of the +LMQTT branch with any other beginning is counted as unmatched, and only that. */
  lemma UnmatchedEffect(s: Core, line: string)
    requires var t := CStr(line);
             && |line| > 7 && "+LMQTT" <= t && !("+LMQTTURC: RECV" <= t) && !("+LMQTTURC: STATS" <= t)
             && !("+LMQTTOPEN: " <= t) && !("+LMQTTCLOSE: " <= t) && !("+LMQTTCONN: " <= t)
             && !("+LMQTTDISC: " <= t) && !("+LMQTTSUBUNSUB: " <= t) && !("+LMQTTUNSUNSUB: " <= t)
             && !("+LMQTTPUB: " <= t)
    ensures Dispatch(s, line) == s.(counts := s.counts.(unmatchedUrcs := s.counts.unmatchedUrcs + 1))
  {
    var t := CStr(line);
    BeginsIs(t, "+LMQTT");
    NotUrc(t);
    NoRow(t);
    hide CStr, StartsWith, ParseResult, RecvLine, ParseStats;
  }

  lemma NotUrc(t: string)
    requires !("+LMQTTURC: RECV" <= t) && !("+LMQTTURC: STATS" <= t)
    ensures StartsWith(t, "+LMQTTURC: ") ==> !StartsWith(t[11..], "RECV") && !StartsWith(t[11..], "STATS")
  {
  }

  lemma NoRow(t: string)
    requires !("+LMQTTOPEN: " <= t) && !("+LMQTTCLOSE: " <= t) && !("+LMQTTCONN: " <= t)
    requires !("+LMQTTDISC: " <= t) && !("+LMQTTSUBUNSUB: " <= t) && !("+LMQTTUNSUNSUB: " <= t)
    requires !("+LMQTTPUB: " <= t)
    ensures ParseResult(t) == Unmatched
  {
    var j := FindEntry(RESULT_URCS, t, 0);
    if j < |RESULT_URCS| {
      BeginsIs(t, RESULT_URCS[j].prefix);
      assert false;
    }
  }

  // ---- downlinks that are not delivered ----

  /** A RECV line that does not parse changes nothing. */
  lemma RecvIgnoredEffect(s: Core, data: string)
    requires NulFree(URC_PREFIX + data) && StartsWith(data, "RECV") && ParseRecv(data).None?
    ensures Dispatch(s, URC_PREFIX + data) == s
  {
    ClassifyRecvLine(data);
    hide Classify, ParseRecv, NulFree;
  }

  lemma ThreeFields(id: nat, msgid: nat, rest: string)
    requires rest != "" ==> rest[0] != ' '
    ensures var data := "RECV" + "," + (Print(id) + "," + (Print(msgid) + "," + rest));
            StartsWith(data, "RECV") && ParseRecv(data) == ParseTopicPayload(rest)
  {
    var t2 := Print(msgid) + "," + rest;
    var t1 := Print(id) + "," + t2;
    PrintStarts(id);
    PrintStarts(msgid);
    IndexOfField("RECV", ',', t1);
    SkipPrintedField(id, t2);
    SkipPrintedField(msgid, rest);
    var data := "RECV" + "," + t1;
    assert data[..4] == "RECV";
    hide Print, IndexOf, ParseTopicPayload;
    assert SkipField(data) == Some(t1);
    assert SkipFields(t1, 2) == SkipFields(t2, 1) == SkipFields(rest, 0);
  }

  /** In the mode that only announces a message, the line ends behind its msgID: nothing is delivered. */
  lemma AnnouncementIgnored(s: Core, id: nat, msgid: nat)
    ensures Dispatch(s, "+LMQTTURC: RECV," + Print(id) + "," + Print(msgid)) == s
  {
    hide Print, ParseRecv, Dispatch, NulFree, StartsWith;
    TwoFields(id, msgid);
    PrintNulFree(id);
    PrintNulFree(msgid);
    RecvJoin(Print(id), Print(msgid));
    RecvIgnoredEffect(s, "RECV" + "," + (Print(id) + "," + Print(msgid)));
  }

  /** The same line, cut behind the prefix and the fields. */
  lemma RecvJoin(a: string, b: string)
    requires NulFree(a) && NulFree(b)
    ensures "+LMQTTURC: RECV," + a + "," + b == URC_PREFIX + ("RECV" + "," + (a + "," + b))
    ensures NulFree("+LMQTTURC: RECV," + a + "," + b)
  {
    assert NulFree("+LMQTTURC: RECV,");
    Associate("+LMQTTURC: RECV,", a, "," + b);
    Associate("+LMQTTURC: RECV," + a, ",", b);
    Associate(a, ",", b);
    assert "+LMQTTURC: RECV," == URC_PREFIX + "RECV" + ",";
    Associate(URC_PREFIX, "RECV", ",");
    Associate(URC_PREFIX, "RECV" + ",", a + "," + b);
  }

  lemma PrintNulFree(n: nat)
    ensures NulFree(Print(n))
  {
    assert !IsDigit(NUL);
  }

  lemma TwoFields(id: nat, msgid: nat)
    ensures var data := "RECV" + "," + (Print(id) + "," + Print(msgid));
            StartsWith(data, "RECV") && ParseRecv(data).None?
  {
    NoComma(msgid);
    PrintStarts(msgid);
    hide Print, IndexOf, SkipSpaces;
    var t1 := Print(id) + "," + Print(msgid);
    var data := "RECV" + "," + t1;
    assert data[..4] == "RECV";
    FirstField(id, Print(msgid));
    SkipPrintedField(id, Print(msgid));
    assert SkipFields(t1, 2) == SkipFields(Print(msgid), 1) == None;
  }

  lemma FirstField(id: nat, rest: string)
    ensures var t1 := Print(id) + "," + rest; SkipField("RECV" + "," + t1) == Some(t1)
  {
    var t1 := Print(id) + "," + rest;
    PrintStarts(id);
    IndexOfField("RECV", ',', t1);
    hide Print, IndexOf;
  }

  /** A number is not followed by another field. */
  lemma NoComma(n: nat)
    ensures SkipField(Print(n)) == None
  {
    var digits := Print(n);
    assert ',' !in digits && digits[..|digits|] == digits;
    hide Print;
    IndexOfUnique(digits, ',', |digits|);
  }

  /**
   * A message with an empty topic, or with nothing behind its topic but a comma, blanks and an empty pair
   * of quotes, is not delivered and not counted as a drop either.
   */
  lemma EmptyMessageIgnored(s: Core, id: nat, msgid: nat, topic: string, rest: string)
    requires NulFree(topic) && NulFree(rest) && '"' !in topic
    requires topic == "" || rest == "" || rest == "," || rest == ", " || rest == ",\"\"" || rest == ", \"\""
    ensures Dispatch(s, "+LMQTTURC: RECV," + Print(id) + "," + Print(msgid) + ",\"" + topic + "\"" + rest) == s
  {
    hide Print, ParseRecv, ParseTopicPayload, Dispatch, StartsWith, NulFree;
    var message := "\"" + topic + "\"" + rest;
    ThreeFields(id, msgid, message);
    EmptyMessage(topic, rest);
    PrintNulFree(id);
    PrintNulFree(msgid);
    MessageNulFree(Print(msgid), topic, rest);
    MessageJoin("+LMQTTURC: RECV," + Print(id) + "," + Print(msgid), topic, rest);
    Associate("+LMQTTURC: RECV," + Print(id) + ",", Print(msgid), "," + message);
    Associate(Print(msgid), ",", message);
    RecvJoin(Print(id), Print(msgid) + "," + message);
    RecvIgnoredEffect(s, "RECV" + "," + (Print(id) + "," + (Print(msgid) + "," + message)));
  }

  lemma MessageNulFree(b: string, topic: string, rest: string)
    requires NulFree(b) && NulFree(topic) && NulFree(rest)
    ensures NulFree(b + "," + ("\"" + topic + "\"" + rest))
  {
  }

  lemma MessageJoin(front: string, topic: string, rest: string)
    ensures front + ",\"" + topic + "\"" + rest == front + ("," + ("\"" + topic + "\"" + rest))
  {
  }

  lemma EmptyMessage(topic: string, rest: string)
    requires '"' !in topic
    requires topic == "" || rest == "" || rest == "," || rest == ", " || rest == ",\"\"" || rest == ", \"\""
    ensures ParseTopicPayload("\"" + topic + "\"" + rest) == None
  {
    var s := "\"" + topic + "\"" + rest;
    assert s[1..] == topic + ['"'] + rest;
    IndexOfField(topic, '"', rest);
    if topic != "" && rest != "" {
      assert rest[1..] == "" || rest[1..] == " " || rest[1..] == "\"\"" || rest[1..] == " \"\"";
      assert " "[1..] == "" && " \"\""[1..] == "\"\"" && "\"\""[1..1] == "";
      assert SkipSpaces(rest[1..]) == "" || SkipSpaces(rest[1..]) == "\"\"";
    }
  }

  // ---- downlinks that are delivered ----

  /**
   * The downlink round trip with the line spelled out: fed in any chunks to a fresh framer with an empty
   * mailbox, a message comes out of the next take as its topic and its payload, which stood on the line
   * either bare or inside one pair of quotes.
   */
  lemma DownlinkDelivered(cfg: Config, core: Core, chunks: seq<string>, line: string,
                          id: nat, msgid: nat, topic: string, wire: string, payload: string)
    requires line == "+LMQTTURC: RECV," + Print(id) + "," + Print(msgid) + ",\"" + topic + "\"," + wire
    requires 0 < |topic| <= 256 && '"' !in topic && payload != ""
    requires || wire == "\"" + payload + "\""
             || (wire == payload && payload[0] != ' '
                 && !(|payload| >= 2 && payload[0] == '"' && payload[|payload| - 1] == '"'))
    requires Concat(chunks) == line + "\r\n" && |line| < LineMax(cfg)
    requires NulFree(line) && '\r' !in line && '\n' !in line
    requires !core.mail.ready && Capacity(core.mail) == DownMax(cfg)
    ensures var s := FeedChunks(LineMax(cfg), State(Frame("", false), core), chunks);
            var (m', b) := Take(s.core.mail);
            && b.Some? && ReadBorrow(m', b.value) == (topic, payload)
            && s.core.mail.drops == core.mail.drops
  {
    hide Print, FeedChunks, Take, ReadBorrow, Concat;
    var rest := "," + wire;
    var message := "\"" + topic + "\"" + rest;
    QuoteComma("+LMQTTURC: RECV," + Print(id) + "," + Print(msgid) + ",\"" + topic, wire);
    MessageJoin("+LMQTTURC: RECV," + Print(id) + "," + Print(msgid), topic, rest);
    Associate("+LMQTTURC: RECV," + Print(id) + ",", Print(msgid), "," + message);
    Associate(Print(msgid), ",", message);
    LineNulFree(id, msgid, topic, wire, line);
    RecvJoin(Print(id), Print(msgid) + "," + message);
    RecvTextIs(id, msgid, topic, wire);
    DownlinkRoundTrip(cfg, core, chunks, id, msgid, topic, wire, payload);
  }

  lemma QuoteComma(front: string, wire: string)
    ensures front + "\"," + wire == front + "\"" + ("," + wire)
  {
  }

  lemma LineNulFree(id: nat, msgid: nat, topic: string, wire: string, line: string)
    requires line == "+LMQTTURC: RECV," + Print(id) + "," + Print(msgid) + ",\"" + topic + "\"," + wire && NulFree(line)
    ensures NulFree(Print(id)) && NulFree(Print(msgid) + "," + ("\"" + topic + "\"" + ("," + wire)))
  {
    PrintNulFree(id);
    PrintNulFree(msgid);
    hide Print;
    assert forall c | c in topic :: c in line;
    assert forall c | c in wire :: c in line;
    MessageNulFree(Print(msgid), topic, "," + wire);
  }

  lemma RecvTextIs(id: nat, msgid: nat, topic: string, wire: string)
    ensures RecvText(id, msgid, topic, wire) ==
            "RECV" + "," + (Print(id) + "," + (Print(msgid) + "," + ("\"" + topic + "\"" + ("," + wire))))
  {
    Associate("\"", topic, "\"");
    Associate("\"", topic + "\"", "," + wire);
    hide Print;
  }

  // ---- limits ----

  /** The longest line that is dispatched has 511 or 319 bytes; a longer one is only counted. */
  lemma LongestLine(cfg: Config, core: Core, line: string)
    requires line != "" && '\r' !in line && '\n' !in line
    ensures Feed(LineMax(cfg), State(Frame("", false), core), line + "\n") ==
            State(Frame("", false),
                  if |line| <= (if cfg.Full? then 511 else 319) then Dispatch(core, line)
                  else core.(counts := core.counts.(lineDrops := core.counts.lineDrops + 1)))
  {
    OneSegment(LineMax(cfg), core, line);
    CleanOfClean(line);
    hide Feed, Dispatch, Clean;
  }

  lemma OneSegment(lineMax: nat, core: Core, segment: string)
    requires lineMax > 1 && '\n' !in segment
    ensures Feed(lineMax, State(Frame("", false), core), segment + "\n") ==
            State(Frame("", false), Deliver(lineMax, core, segment))
  {
    var bytes := segment + "\n";
    hide Feed, Deliver;
    FramerRefines(lineMax, core, "", bytes);
    assert "" + bytes == bytes && bytes[..|bytes| - 1] == segment;
    SplitWithoutLf(segment);
    assert Split(bytes) == ([segment], "");
    assert [segment][..0] == [];
    assert DeliverAll(lineMax, core, [segment]) == Deliver(lineMax, DeliverAll(lineMax, core, []), segment);
  }

  /** The mailbox takes what fits a slot of 512 or 320 bytes with both terminators, topics up to 256. */
  lemma MailboxAccepts(cfg: Config, m: Mail, topic: string, payload: string)
    requires Capacity(m) == DownMax(cfg)
    ensures var m' := Put(m, topic, payload);
            if !m.ready && |topic| <= 256 && |topic| + |payload| + 2 <= (if cfg.Full? then 512 else 320)
            then m'.ready && m'.drops == m.drops && m'.idx == 1 - m.idx && m'.cells[m.idx] == m.cells[m.idx]
            else m' == m.(drops := m.drops + 1)
  {
    hide Overwrite;
  }
}
