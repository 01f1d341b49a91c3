/** Result URCs and error codes as text: what is printed by the modem is what lands in the slot. */
module ResultUrcs {
  import opened Basics
  import opened CStrings
  import opened Decimal
  import opened PairingWord
  import opened LineSyntax
  import opened EngineState
  import opened Downlink

  type Int32 = v: int | -0x8000_0000 <= v < 0x8000_0000

  /** `<id>[,<msgID>],<result>[,<extend>]` */
  function FieldText(hasMsgId: bool, id: nat, msgid: MsgId, result: int, extend: Option<int>): string {
    PrintInt(id) + "," + if hasMsgId then PrintInt(msgid) + "," + ResultText(result, extend)
                         else ResultText(result, extend)
  }

  function ResultText(result: int, extend: Option<int>): string {
    match extend
    case None => PrintInt(result)
    case Some(v) => PrintInt(result) + "," + PrintInt(v)
  }

  function ExtendValue(extend: Option<int>): int {
    if extend.Some? then extend.value else 0
  }

  lemma ScanResultText(result: int, extend: Option<int>)
    ensures ScanFields(ResultText(result, extend), 2) ==
            if extend.Some? then [result, extend.value] else [result]
  {
    match extend {
      case None => ScanFieldsLast(result, 2);
      case Some(v) =>
        ScanFieldsLast(v, 1);
        ScanFieldsCons(result, PrintInt(v), 2);
    }
  }

  lemma ScanFieldText(hasMsgId: bool, id: nat, msgid: MsgId, result: int, extend: Option<int>)
    ensures var tail := if extend.Some? then [result, extend.value] else [result];
            ScanFields(FieldText(hasMsgId, id, msgid, result, extend), if hasMsgId then 4 else 3) ==
            if hasMsgId then [id] + ([msgid as int] + tail) else [id] + tail
  {
    hide ScanFields, ResultText;
    var tail := ResultText(result, extend);
    ScanResultText(result, extend);
    if hasMsgId {
      ScanFieldsCons(msgid, tail, 3);
      ScanFieldsCons(id, PrintInt(msgid) + "," + tail, 4);
    } else {
      ScanFieldsCons(id, tail, 3);
    }
  }

  lemma ParseFieldText(e: UrcEntry, id: nat, msgid: MsgId, result: int, extend: Option<int>, data: string)
    requires data == FieldText(e.hasMsgId, id, msgid, result, extend)
    ensures ParseResultFields(e, data) ==
            Result(e.kind, e.hasMsgId, if e.hasMsgId then msgid else 0, result, ExtendValue(extend))
  {
    hide ScanFields, FieldText;
    ScanFieldText(e.hasMsgId, id, msgid, result, extend);
  }

  lemma PrefixMiddle(text: string, p: string)
    requires |p| >= 8
    ensures StartsWith(text, p) ==> |text| >= 8 && text[6..8] == p[6..8]
  {
    if StartsWith(text, p) {
      assert text[6..8] == text[..|p|][6..8];
    }
  }

  lemma OnlyOnePrefix(text: string, p: string, q: string)
    requires |p| >= 8 && |q| >= 8 && p[6..8] != q[6..8] && StartsWith(text, p)
    ensures !StartsWith(text, q)
  {
    PrefixMiddle(text, p);
    PrefixMiddle(text, q);
  }

  /** The two characters after `+LMQTT` tell all rows apart, and from `+LMQTTURC: `. */
  lemma PrefixesDistinct(j: nat)
    requires j < |RESULT_URCS|
    ensures |RESULT_URCS[j].prefix| >= 8 && RESULT_URCS[j].prefix[..6] == "+LMQTT"
    ensures RESULT_URCS[j].prefix[6..8] != URC_PREFIX[6..8]
    ensures forall k | 0 <= k < j ::
              |RESULT_URCS[k].prefix| >= 8 && RESULT_URCS[j].prefix[6..8] != RESULT_URCS[k].prefix[6..8]
  {
    assert forall i | 0 <= i < |RESULT_URCS| :: |RESULT_URCS[i].prefix| >= 8
             && RESULT_URCS[i].prefix[6] == RESULT_URCS[i].prefix[6..8][0]
             && RESULT_URCS[i].prefix[7] == RESULT_URCS[i].prefix[6..8][1];
    assert URC_PREFIX[6] == URC_PREFIX[6..8][0] && URC_PREFIX[7] == URC_PREFIX[6..8][1];
  }

  lemma FindOwnRow(j: nat, data: string)
    requires j < |RESULT_URCS|
    ensures FindEntry(RESULT_URCS, RESULT_URCS[j].prefix + data, 0) == j
  {
    var p := RESULT_URCS[j].prefix;
    var text := p + data;
    assert text[..|p|] == p;
    PrefixesDistinct(j);
    forall k | 0 <= k < j ensures !StartsWith(text, RESULT_URCS[k].prefix) {
      OnlyOnePrefix(text, p, RESULT_URCS[k].prefix);
    }
  }

  lemma RowIsResult(j: nat, data: string)
    requires j < |RESULT_URCS| && NulFree(RESULT_URCS[j].prefix + data)
    ensures Classify(RESULT_URCS[j].prefix + data) == ParseResultFields(RESULT_URCS[j], data)
  {
    var p := RESULT_URCS[j].prefix;
    var text := p + data;
    CStrOfNulFree(text);
    PrefixesDistinct(j);
    assert text[..|p|] == p && text[..6] == p[..6] && text[|p|..] == data;
    OnlyOnePrefix(text, p, URC_PREFIX);
    FindOwnRow(j, data);
  }

  lemma PrintIntNulFree(v: int)
    ensures NulFree(PrintInt(v))
  {
  }

  lemma FieldTextNulFree(hasMsgId: bool, id: nat, msgid: MsgId, result: int, extend: Option<int>)
    ensures NulFree(FieldText(hasMsgId, id, msgid, result, extend))
  {
    PrintIntNulFree(id);
    PrintIntNulFree(msgid);
    PrintIntNulFree(result);
    PrintIntNulFree(ExtendValue(extend));
  }

  function RowText(e: UrcEntry, id: nat, msgid: MsgId, result: int, extend: Option<int>): string {
    e.prefix + FieldText(e.hasMsgId, id, msgid, result, extend)
  }

  /** What a printed row says when it is read back. */
  function RowLine(e: UrcEntry, msgid: MsgId, result: int, extend: Option<int>): Line {
    Result(e.kind, e.hasMsgId, if e.hasMsgId then msgid else 0, result, ExtendValue(extend))
  }

  lemma PrefixNulFree(j: nat)
    requires j < |RESULT_URCS|
    ensures NulFree(RESULT_URCS[j].prefix)
  {
    assert forall i | 0 <= i < |RESULT_URCS| :: NulFree(RESULT_URCS[i].prefix);
  }

  lemma ClassifyRow(j: nat, id: nat, msgid: MsgId, result: int, extend: Option<int>)
    requires j < |RESULT_URCS|
    ensures Classify(RowText(RESULT_URCS[j], id, msgid, result, extend)) ==
            RowLine(RESULT_URCS[j], msgid, result, extend)
  {
    PrefixNulFree(j);
    hide Classify, ParseResultFields, FieldText, RESULT_URCS;
    var e := RESULT_URCS[j];
    var data := FieldText(e.hasMsgId, id, msgid, result, extend);
    FieldTextNulFree(e.hasMsgId, id, msgid, result, extend);
    RowIsResult(j, data);
    ParseFieldText(e, id, msgid, result, extend, data);
  }

  /** What a result line does to the whole engine, told by the window's pairing word. */
  lemma ApplyResult(s: Core, l: Line)
    requires l.Result? && l.kind != KIND_NONE
    ensures var w := s.cmd.pending;
            Apply(s, l) ==
            if KindOf(w) != l.kind then s
            else if l.hasMsgId && MsgIdOf(w) != 0 && MsgIdOf(w) != l.msgid then
              s.(counts := s.counts.(staleUrcs := s.counts.staleUrcs + 1))
            else
              s.(cmd := s.cmd.(result := l.result, extra := l.extend,
                               delivered := w, got := true, token := true))
  {
  }

  lemma KindsOfRows(j: nat)
    requires j < |RESULT_URCS|
    ensures RESULT_URCS[j].kind != KIND_NONE
  {
  }

  /**
   * Result URC round trip: in the window of a command, the printed URC leaves the slot holding
   * exactly the printed values, signed with the window's pairing word. A different msgID changes
   * nothing but `stale_urcs`; another kind changes nothing at all.
   */
  lemma ResultUrcRoundTrip(s: Core, j: nat, e: UrcEntry, id: nat, msgid: MsgId,
                           result: Int32, extend: Option<Int32>, line: string)
    requires j < |RESULT_URCS| && e == RESULT_URCS[j] && line == RowText(e, id, msgid, result, extend)
    ensures Classify(line) == RowLine(e, msgid, result, extend)
    ensures var w := s.cmd.pending;
            Apply(s, Classify(line)) ==
            if KindOf(w) != e.kind then s
            else if e.hasMsgId && MsgIdOf(w) != 0 && MsgIdOf(w) != msgid then
              s.(counts := s.counts.(staleUrcs := s.counts.staleUrcs + 1))
            else
              s.(cmd := s.cmd.(result := result, extra := ExtendValue(extend),
                               delivered := w, got := true, token := true))
  {
    ClassifyRow(j, id, msgid, result, extend);
    KindsOfRows(j);
    ApplyResult(s, RowLine(e, msgid, result, extend));
  }

  /** `+LMQTTOPEN: 0,0` as the modem prints it. */
  lemma OpenedLine() returns (line: string)
    ensures Classify(line) == Result(KIND_OPEN, false, 0, 0, 0)
  {
    line := RowText(RESULT_URCS[0], 0, 0, 0, None);
    ClassifyRow(0, 0, 0, 0, None);
  }

  // ---- STATS ----

  const STATS_PREFIX := "STATS,"

  lemma ClassifyStats(data: string)
    requires NulFree(data) && StartsWith(data, STATS_PREFIX)
    ensures Classify(URC_PREFIX + data) == ParseStats(data)
  {
    var line := URC_PREFIX + data;
    CStrOfNulFree(line);
    StatsIsNoRecv(data);
    UrcPrefixed(data);
    hide ParseStats, ParseResult, RecvLine, StartsWith, CStr;
  }

  lemma StatsIsNoRecv(data: string)
    requires StartsWith(data, STATS_PREFIX)
    ensures StartsWith(data, "STATS") && !StartsWith(data, "RECV")
  {
    assert data[..5] == data[..6][..5] && data[..6][0] == data[0];
    assert |data| >= 4 ==> data[..4][0] == data[0];
  }

  lemma UrcPrefixed(data: string)
    ensures StartsWith(URC_PREFIX + data, URC_PREFIX) && StartsWith(URC_PREFIX + data, "+LMQTT")
    ensures (URC_PREFIX + data)[11..] == data
  {
    assert (URC_PREFIX + data)[..11] == URC_PREFIX;
    assert (URC_PREFIX + data)[..6] == URC_PREFIX[..6] == "+LMQTT";
  }

  lemma ParseStatsText(id: nat, stat: int, extend: Option<int>)
    ensures ParseStats(STATS_PREFIX + FieldText(false, id, 0, stat, extend)) == Stats(stat)
  {
    hide FieldText, ScanFields;
    var fields := FieldText(false, id, 0, stat, extend);
    var data := STATS_PREFIX + fields;
    assert data[..6] == "STATS," && data[6..] == fields;
    ScanFieldText(false, id, 0, stat, extend);
  }

  /** A printed STATS line sets the connected flag exactly for status zero, and changes nothing else. */
  lemma StatsRoundTrip(s: Core, id: nat, stat: int, extend: Option<int>)
    ensures Dispatch(s, URC_PREFIX + (STATS_PREFIX + FieldText(false, id, 0, stat, extend)))
            == s.(connected := stat == 0)
  {
    hide FieldText, Classify, ParseStats;
    var data := STATS_PREFIX + FieldText(false, id, 0, stat, extend);
    FieldTextNulFree(false, id, 0, stat, extend);
    assert data[..6] == STATS_PREFIX;
    ClassifyStats(data);
    ParseStatsText(id, stat, extend);
  }

  /** A STATS line that ends before its status changes nothing. */
  lemma StatsWithoutStatus(s: Core, id: nat)
    ensures Dispatch(s, URC_PREFIX + (STATS_PREFIX + PrintInt(id))) == s
  {
    var data := STATS_PREFIX + PrintInt(id);
    PrintIntNulFree(id);
    assert data[..6] == STATS_PREFIX && data[6..] == PrintInt(id);
    ClassifyStats(data);
    ScanFieldsLast(id, 3);
    hide Classify, ScanFields, PrintInt;
  }

  // ---- +CME ERROR: <n> (section 9.2 of 3GPP TS 27.007) ----

  /**
   * The number being accumulated never exceeds six digits, after any number of digits of any line,
   * so it fits 32 bits; neither does the code in the end.
   */
  lemma CmeCodeBounded(text: string, k: nat)
    requires StartsWith(text, "+CME ERROR") && k <= CmeDigits(SkipSeparators(text[10..]))
    ensures AllDigits(SkipSeparators(text[10..])[..k])
    ensures Value(SkipSeparators(text[10..])[..k]) <= 999999
    ensures ParseCme(text).CmeCode? ==> ParseCme(text).code <= 999999
  {
    var s := SkipSeparators(text[10..]);
    var n := CmeDigits(s);
    assert s[..n][..k] == s[..k];
    ValueBelow(s[..n]);
    ValueBelow(s[..k]);
    TenToUpToSix(n);
    TenToUpToSix(k);
  }

  lemma TenToUpToSix(k: nat)
    requires k <= 6
    ensures TenTo(k) <= 1000000
  {
    assert TenTo(6) == 1000000 && TenTo(5) == 100000 && TenTo(4) == 10000 && TenTo(3) == 1000;
  }

  lemma SkipBeforeDigits(digits: string)
    requires digits != "" && IsDigit(digits[0])
    ensures SkipSeparators(": " + digits) == digits
  {
    assert (": " + digits)[1..] == " " + digits && (" " + digits)[1..] == digits;
    assert SkipSeparators(digits) == digits == SkipSeparators(" " + digits);
  }

  lemma CmeDigitsOfPrint(n: nat)
    ensures CmeDigits(Print(n)) > 0
    ensures n <= 999999 ==> CmeDigits(Print(n)) == |Print(n)|
  {
    var digits := Print(n);
    assert digits[..|digits|] == digits;
    DigitRunUnique(digits, |digits|);
    PrintLength(n, 6);
    assert TenTo(6) == 1000000;
  }

  lemma ParseCmeText(n: nat)
    ensures var cme := ParseCme("+CME ERROR: " + Print(n));
            cme.CmeCode? && (cme.code == n <==> n <= 999999)
  {
    hide CmeDigits, SkipSeparators, Print;
    var digits := Print(n);
    var text := "+CME ERROR: " + digits;
    assert text[..10] == "+CME ERROR";
    assert text[10..] == ": " + digits;
    assert digits[0] in digits;
    SkipBeforeDigits(digits);
    CmeDigitsOfPrint(n);
    assert digits[..|digits|] == digits;
    ValuePrint(n);
    CmeCodeBounded(text, 0);
  }

  lemma ClassifyCmeText(text: string)
    requires NulFree(text) && StartsWith(text, "+CME ERROR")
    ensures Classify(text) == Error(ParseCme(text))
  {
    CStrOfNulFree(text);
    assert text[..10][1] == text[1] == 'C';
    assert |text| > 7 ==> text[..6][1] == 'C';
  }

  /** The printed error number is recovered exactly when it has at most six digits. */
  lemma CmeRoundTrip(s: Core, n: nat, text: string)
    requires text == "+CME ERROR: " + Print(n)
    ensures var after := Dispatch(s, text);
            && after.counts.cmeErrs == s.counts.cmeErrs + 1
            && (after.counts.lastCmeCode == n <==> n <= 999999)
  {
    assert NulFree(text);
    assert text[..10] == "+CME ERROR";
    ParseCmeText(n);
    ClassifyCmeText(text);
  }
}
