/**
 * What one received line says. `Classify` is the parsing half of lmqtt_line_dispatch; the state it
 * changes is described in EngineState.
 */
module LineSyntax {
  import opened Basics
  import opened CStrings
  import opened Decimal
  import opened PairingWord

  datatype Cme = NotCme | CmeBare | CmeCode(code: nat)

  datatype Line =
    | Recv(topic: string, payload: string)
    | RecvIgnored
    | Stats(stat: int)
    | StatsIgnored
    | Result(kind: Kind, hasMsgId: bool, msgid: nat, result: int, extend: int)
    | ResultMalformed
    | Unmatched
    | Ok
    | Error(cme: Cme)
    | Ordinary(text: string)

  // ---- downlink URC: RECV,<id>,<msgid>,"<topic>",<payload> ----

  /** Past the next comma and the blanks after it. */
  function SkipField(s: string): (r: Option<string>)
    ensures r.Some? ==> |r.value| < |s|
  {
    var i := IndexOf(s, ',');
    if i == |s| then None else Some(SkipSpaces(s[i + 1..]))
  }

  function SkipFields(s: string, k: nat): (r: Option<string>)
    ensures r.Some? ==> |r.value| + k <= |s|
    decreases k
  {
    if k == 0 then Some(s) else
      match SkipField(s)
      case None => None
      case Some(t) => SkipFields(t, k - 1)
  }

  /** A payload that is wholly inside one pair of quotes loses that pair, any other is kept verbatim. */
  function Unquote(p: string): (q: string)
    ensures |q| <= |p|
  {
    if |p| >= 2 && p[0] == '"' && p[|p| - 1] == '"' then p[1..|p| - 1] else p
  }

  /** What follows the topic's closing quote: a comma, blanks, the payload. */
  function ParsePayload(rest: string): (payload: string)
    ensures payload != "" ==> |payload| < |rest|
  {
    if rest == "" || rest[0] != ',' then "" else Unquote(SkipSpaces(rest[1..]))
  }

  /** The quoted topic and the payload that follow the three skipped fields. */
  function ParseTopicPayload(s: string): (r: Option<(string, string)>)
    ensures r.Some? ==> |r.value.0| + |r.value.1| + 3 <= |s|
  {
    if s == "" || s[0] != '"' then None else
      var body := s[1..];
      var q := IndexOf(body, '"');
      if q == |body| || q == 0 then None else
        var payload := ParsePayload(body[q + 1..]);
        if payload == "" then None else Some((body[..q], payload))
  }

  function ParseRecv(data: string): Option<(string, string)> {
    match SkipFields(data, 3)
    case None => None
    case Some(s) => ParseTopicPayload(s)
  }

  function RecvLine(data: string): (l: Line)
    ensures l.Recv? || l.RecvIgnored?
  {
    match ParseRecv(data)
    case None => RecvIgnored
    case Some((topic, payload)) => Recv(topic, payload)
  }

  // ---- result URCs ----

  datatype UrcEntry = UrcEntry(prefix: string, kind: Kind, hasMsgId: bool)

  const RESULT_URCS: seq<UrcEntry> := [
    UrcEntry("+LMQTTOPEN: ", KIND_OPEN, false),
    UrcEntry("+LMQTTCLOSE: ", KIND_CLOSE, false),
    UrcEntry("+LMQTTCONN: ", KIND_CONN, false),
    UrcEntry("+LMQTTDISC: ", KIND_DISC, false),
    UrcEntry("+LMQTTSUBUNSUB: ", KIND_SUBUNSUB, true),
    UrcEntry("+LMQTTUNSUNSUB: ", KIND_SUBUNSUB, true),
    UrcEntry("+LMQTTPUB: ", KIND_PUB, true)
  ]

  /** Index of the first table row from `i` on whose prefix starts the text. */
  function FindEntry(table: seq<UrcEntry>, text: string, i: nat): (j: nat)
    requires i <= |table|
    ensures i <= j <= |table|
    ensures j < |table| ==> StartsWith(text, table[j].prefix)
    ensures forall k | i <= k < j :: !StartsWith(text, table[k].prefix)
    decreases |table| - i
  {
    if i == |table| || StartsWith(text, table[i].prefix) then i else FindEntry(table, text, i + 1)
  }

  /** The value scanf stores through %u. */
  function Unsigned32(v: int): nat {
    v % 0x1_0000_0000
  }

  /** `<id>[,<msgID>],<result>[,<extend>]`; the id field is read and discarded. */
  function ParseResultFields(e: UrcEntry, data: string): (l: Line)
    ensures l.ResultMalformed? || (l.Result? && l.kind == e.kind)
  {
    var k := if e.hasMsgId then 1 else 0;
    var f := ScanFields(data, k + 3);
    if |f| < k + 2 then ResultMalformed
    else Result(e.kind, e.hasMsgId, if e.hasMsgId then Unsigned32(f[1]) else 0,
                f[k + 1], if |f| > k + 2 then f[k + 2] else 0)
  }

  /** Every row waits for one of the six kinds that have a result URC. */
  predicate KindsHaveUrc(table: seq<UrcEntry>) {
    forall e | e in table :: KIND_OPEN <= e.kind <= KIND_PUB
  }

  function ParseResultIn(table: seq<UrcEntry>, text: string): (l: Line)
    ensures l.Result? || l.ResultMalformed? || l.Unmatched?
    ensures l.Result? && KindsHaveUrc(table) ==> KIND_OPEN <= l.kind <= KIND_PUB
  {
    var j := FindEntry(table, text, 0);
    if j == |table| then Unmatched else ParseResultFields(table[j], text[|table[j].prefix|..])
  }

  function ParseResult(text: string): (l: Line)
    ensures l.Result? || l.ResultMalformed? || l.Unmatched?
    ensures l.Result? ==> KIND_OPEN <= l.kind <= KIND_PUB
  {
    assert KindsHaveUrc(RESULT_URCS);
    ParseResultIn(RESULT_URCS, text)
  }

  // ---- STATS, terminators and the rest ----

  function ParseStats(data: string): (l: Line)
    ensures l.Stats? || l.StatsIgnored?
  {
    if !StartsWith(data, "STATS,") then StatsIgnored else
      var f := ScanFields(data[6..], 3);
      if |f| < 2 then StatsIgnored else Stats(f[1])
  }

  function SkipSeparators(s: string): (t: string)
    ensures |t| <= |s|
    ensures t != "" ==> t[0] != ' ' && t[0] != ':'
  {
    if s != "" && (s[0] == ' ' || s[0] == ':') then SkipSeparators(s[1..]) else s
  }

  /** How many digits of the error number are read: at most six. */
  function CmeDigits(s: string): (k: nat)
    ensures k <= |s| && AllDigits(s[..k])
  {
    var run := DigitRun(s);
    assert forall c | c in s[..if run < 6 then run else 6] :: c in s[..run];
    if run < 6 then run else 6
  }

  function ParseCme(text: string): Cme {
    if !StartsWith(text, "+CME ERROR") then NotCme else
      var s := SkipSeparators(text[10..]);
      var k := CmeDigits(s);
      if k == 0 then CmeBare else CmeCode(Value(s[..k]))
  }

  predicate IsLmqtt(line: string) {
    |line| > 7 && StartsWith(CStr(line), "+LMQTT")
  }

  predicate IsErrorText(text: string) {
    StartsWith(text, "ERROR") || StartsWith(text, "+CME ERROR")
  }

  function ClassifyLmqtt(line: string): (l: Line)
    ensures l.Result? ==> KIND_OPEN <= l.kind <= KIND_PUB
  {
    var text := CStr(line);
    if |line| > 11 && StartsWith(text, "+LMQTTURC: ") && StartsWith(text[11..], "RECV") then
      RecvLine(text[11..])
    else if |line| > 11 && StartsWith(text, "+LMQTTURC: ") && StartsWith(text[11..], "STATS") then
      ParseStats(text[11..])
    else
      ParseResult(text)
  }

  /** The branch lmqtt_line_dispatch takes on a line, with the values parsed from it. */
  function Classify(line: string): (l: Line)
    ensures l.Result? ==> KIND_OPEN <= l.kind <= KIND_PUB
  {
    if IsLmqtt(line) then ClassifyLmqtt(line)
    else if line == "OK" then Ok
    else if IsErrorText(CStr(line)) then Error(ParseCme(CStr(line)))
    else Ordinary(line)
  }

  /** Only the exact two bytes are an acceptance. */
  lemma OnlyOkIsOk(line: string)
    ensures Classify(line) == Ok <==> line == "OK"
  {
  }

  /** A line is dispatched as ordinary exactly when it is no +LMQTT line and no terminator. */
  lemma OrdinaryLines(line: string)
    ensures Classify(line).Ordinary? <==> !IsLmqtt(line) && line != "OK" && !IsErrorText(CStr(line))
    ensures Classify(line).Ordinary? ==> Classify(line).text == line
  {
  }
}
