/**
 * The AT engine as the object it is: lmqtt_t with its buffers, flags and counters updated in place.
 * Every operation is proved against the function of EngineState that names its effect.
 */
module Engine {
  import opened Basics
  import opened CStrings
  import opened Decimal
  import opened PairingWord
  import opened LineSyntax
  import opened EngineState

  /** memcpy of `src` to `dst + at`. */
  method Copy(dst: array<char>, at: nat, src: string)
    requires at + |src| <= dst.Length
    modifies dst
    ensures dst[..] == Overwrite(old(dst[..]), at, src)
  {
    for i := 0 to |src|
      invariant dst[..] == old(dst[..at]) + src[..i] + old(dst[at + i..])
    {
      dst[at + i] := src[i];
    }
  }

  method Terminate(dst: array<char>, at: nat)
    requires at < dst.Length
    modifies dst
    ensures dst[..] == Overwrite(old(dst[..]), at, [NUL])
  {
    dst[at] := NUL;
  }

  /** vsnprintf and snprintf: what fits of the text, terminated, and the length of all of it. */
  method Format(dst: array<char>, text: string) returns (len: nat)
    modifies dst
    ensures len == |text|
    ensures len < dst.Length ==> CStr(dst[..]) == CStr(text)
  {
    len := |text|;
    if dst.Length > 0 {
      var n := if len < dst.Length then len else dst.Length - 1;
      ghost var before := dst[..];
      Copy(dst, 0, text[..n]);
      Terminate(dst, n);
      OverwriteAdjacent(before, 0, text[..n], [NUL]);
      OverwriteStart(before, text[..n] + [NUL]);
      hide Overwrite, CStr;
      CStrOfPrefix(text[..n], before[n + 1..]);
      assert text[..|text|] == text;
    }
  }

  /** The number after `+CME ERROR`, read by a skip loop and a digit loop. */
  method ReadCme(text: string) returns (cme: Cme)
    requires StartsWith(text, "+CME ERROR")
    ensures cme == ParseCme(text)
  {
    var p := 10;
    while p < |text| && (text[p] == ' ' || text[p] == ':')
      invariant 10 <= p <= |text|
      invariant SkipSeparators(text[p..]) == SkipSeparators(text[10..])
    {
      assert text[p..][1..] == text[p + 1..];
      p := p + 1;
    }
    ghost var s := text[p..];
    var v, got := 0, 0;
    while p < |text| && '0' <= text[p] <= '9' && got < 6
      invariant got <= 6 && got <= |s| && p <= |text| && text[p..] == s[got..]
      invariant AllDigits(s[..got]) && v == Value(s[..got])
      decreases |text| - p
    {
      assert s[..got + 1][..got] == s[..got] && s[..got + 1][got] == text[p];
      v, got := v * 10 + DigitValue(text[p]), got + 1;
      p := p + 1;
    }
    CmeDigitsReached(s, got);
    cme := if got > 0 then CmeCode(v) else CmeBare;
  }

  lemma CmeDigitsReached(s: string, got: nat)
    requires got <= 6 && got <= |s| && AllDigits(s[..got])
    requires got == 6 || got == |s| || !IsDigit(s[got])
    ensures CmeDigits(s) == got
  {
    DigitRunAtLeast(s, got);
    if got < 6 {
      DigitRunUnique(s, got);
    }
  }

  /** Past the next comma and the blanks after it; false when there is no comma. */
  method SkipFieldAt(data: string, start: nat) returns (found: bool, p: nat)
    requires start <= |data|
    ensures start <= p <= |data|
    ensures SkipField(data[start..]) == if found then Some(data[p..]) else None
  {
    var cut := IndexOf(data[start..], ',');
    if cut == |data[start..]| {
      return false, start;
    }
    p := start + cut + 1;
    ghost var rest := data[p..];
    assert data[start..][cut + 1..] == rest;
    p := SkipBlanks(data, p);
    found := true;
  }

  method SkipBlanks(data: string, start: nat) returns (p: nat)
    requires start <= |data|
    ensures start <= p <= |data| && data[p..] == SkipSpaces(data[start..])
  {
    p := start;
    while p < |data| && data[p] == ' '
      invariant start <= p <= |data|
      invariant SkipSpaces(data[p..]) == SkipSpaces(data[start..])
    {
      assert data[p..][1..] == data[p + 1..];
      p := p + 1;
    }
  }

  /** The closing quote of the topic: the first quote from `start` on. */
  method FindQuote(data: string, start: nat) returns (p: nat)
    requires start <= |data|
    ensures start <= p <= |data| && p - start == IndexOf(data[start..], '"')
  {
    p := start;
    while p < |data| && data[p] != '"'
      invariant start <= p <= |data|
      invariant '"' !in data[start..p]
    {
      p := p + 1;
    }
    assert data[start..][..p - start] == data[start..p];
    IndexOfUnique(data[start..], '"', p - start);
  }

  /** The payload behind the topic's closing quote; empty when there is none. */
  method ReadPayload(data: string, start: nat) returns (payload: string)
    requires start <= |data|
    ensures payload == ParsePayload(data[start..])
  {
    if start == |data| || data[start] != ',' {
      return "";
    }
    assert data[start..][1..] == data[start + 1..];
    var p := SkipBlanks(data, start + 1);
    payload := data[p..];
    if |payload| >= 2 && payload[0] == '"' && payload[|payload| - 1] == '"' {
      payload := payload[1..|payload| - 1];
    }
  }

  /** Locating the topic between its quotes, and the payload behind it. */
  method ReadTopicPayload(data: string, start: nat) returns (r: Option<(string, string)>)
    requires start <= |data|
    ensures r == ParseTopicPayload(data[start..])
  {
    if start == |data| || data[start] != '"' {
      return None;
    }
    var quote := FindQuote(data, start + 1);
    assert data[start..][1..] == data[start + 1..];
    if quote == |data| || quote == start + 1 {
      return None;
    }
    assert data[start + 1..][quote - start..] == data[quote + 1..];
    assert data[start + 1..][..quote - start - 1] == data[start + 1..quote];
    var payload := ReadPayload(data, quote + 1);
    r := if payload == "" then None else Some((data[start + 1..quote], payload));
  }

  /** The parsing half of lmqtt_urc_recv. */
  method ReadRecv(data: string) returns (r: Option<(string, string)>)
    ensures r == ParseRecv(data)
  {
    var p := 0;
    assert data[0..] == data;
    for k := 0 to 3
      invariant p <= |data|
      invariant SkipFields(data, 3) == SkipFields(data[p..], 3 - k)
    {
      var found, next := SkipFieldAt(data, p);
      if !found {
        return None;
      }
      p := next;
    }
    r := ReadTopicPayload(data, p);
  }

  /** Both texts of a downlink written to a slot, each with its terminator. */
  method FillSlot(cell: array<char>, topic: string, data: string)
    requires |topic| + |data| + 2 <= cell.Length
    modifies cell
    ensures cell[..] == Overwrite(old(cell[..]), 0, SlotText(topic, data))
  {
    hide Overwrite;
    ghost var s := cell[..];
    Copy(cell, 0, topic);
    OverwriteAdjacent(s, 0, topic, [NUL]);
    Terminate(cell, |topic|);
    OverwriteAdjacent(s, 0, topic + [NUL], data);
    Copy(cell, |topic| + 1, data);
    OverwriteAdjacent(s, 0, topic + [NUL] + data, [NUL]);
    Terminate(cell, |topic| + 1 + |data|);
  }

  class Engine {
    const cfg: Config

    // line framing
    const line: array<char>
    var lineLen: nat
    var lineOver: bool

    // current command
    var cmd: Cmd
    var rawOut: array?<char>
    var rawOutsz: nat
    var rawLen: nat
    var rawLines: nat

    // downlink delivery
    const down0: array<char>
    const down1: array<char>
    var downOffset: seq<nat>
    var downIdx: nat
    var downReady: bool
    var downDrops: nat

    var counts: Counters
    var connected: bool

    // the port: the command mutex and the bytes written to the serial line
    var locked: bool
    var wire: string

    ghost predicate LineValid()
      reads `lineLen
    {
      line.Length == LineMax(cfg) && lineLen < line.Length
    }

    ghost predicate RawValid()
      reads `rawOut, `rawOutsz, `rawLen
    {
      && (rawOut != null ==> rawLen <= rawOutsz <= rawOut.Length)
      && rawOut != line && rawOut != down0 && rawOut != down1
    }

    ghost predicate MailValid()
      reads `downOffset, `downIdx
    {
      && down0.Length == DownMax(cfg) == down1.Length
      && |downOffset| == 2 && downIdx < 2
      && downOffset[0] <= DownMax(cfg) && downOffset[1] <= DownMax(cfg)
      && line != down0 && line != down1 && down0 != down1
    }

    ghost predicate Valid()
      reads `lineLen, `rawOut, `rawOutsz, `rawLen, `downOffset, `downIdx
    {
      LineValid() && RawValid() && MailValid()
    }

    ghost function RawState(): Raw
      requires RawValid()
      reads `rawOut, `rawOutsz, `rawLen, `rawLines, rawOut
    {
      RawFields(if rawOut == null then None else Some(rawOut[..]), rawOutsz, rawLen, rawLines)
    }

    ghost function MailState(): Mail
      requires MailValid()
      reads `downOffset, `downIdx, `downReady, `downDrops, down0, down1
    {
      MailFields([down0[..], down1[..]], downOffset, downIdx, downReady, downDrops)
    }

    ghost function FrameState(): Frame
      requires LineValid()
      reads `lineLen, `lineOver, line
    {
      Frame(line[..lineLen], lineOver)
    }

    ghost function CoreState(): Core
      requires Valid()
      reads this, down0, down1, rawOut
    {
      Core(cmd, RawState(), MailState(), counts, connected)
    }

    ghost function FullState(): State
      requires Valid()
      reads this, line, down0, down1, rawOut
    {
      State(FrameState(), CoreState())
    }

    /** lmqtt_init, after the memset. */
    constructor (cfg: Config)
      ensures Valid() && fresh(line) && fresh(down0) && fresh(down1) && this.cfg == cfg
      ensures FullState().frame == Frame("", false) && !downReady && !locked && wire == ""
      ensures cmd == Cmd(IDLE, 0, 0, IDLE, false, false, false, false, false, StageNone, false)
      ensures counts == NO_COUNTS && rawOut == null && downDrops == 0 && !connected
    {
      this.cfg := cfg;
      line := new char[LineMax(cfg)];
      lineLen, lineOver := 0, false;
      cmd := Cmd(IDLE, 0, 0, IDLE, false, false, false, false, false, StageNone, false);
      rawOut, rawOutsz, rawLen, rawLines := null, 0, 0, 0;
      down0 := new char[DownMax(cfg)];
      down1 := new char[DownMax(cfg)];
      downOffset, downIdx, downReady, downDrops := [0, 0], 0, false, 0;
      counts, connected := NO_COUNTS, false;
      locked, wire := false, "";
    }

    // ---- downlink ----

    method DownlinkPut(topic: string, data: string)
      requires Valid()
      modifies `downOffset, `downIdx, `downReady, `downDrops, down0, down1
      ensures Valid() && MailState() == Put(old(MailState()), topic, data)
    {
      if downReady || |topic| > TOPIC_MAX || |topic| + 1 >= DownMax(cfg)
         || |data| >= DownMax(cfg) - |topic| - 1 {
        downDrops := downDrops + 1;
        return;
      }
      var slot := 1 - downIdx;
      FillSlot(if slot == 0 then down0 else down1, topic, data);
      downOffset := downOffset[slot := |topic| + 1];
      downIdx := slot;
      downReady := true;
    }

    method TakeDownlink() returns (r: Option<Borrow>)
      requires Valid()
      modifies `downReady
      ensures Valid() && (MailState(), r) == Take(old(MailState()))
    {
      if !downReady {
        return None;
      }
      var slot := downIdx;
      downReady := false;
      return Some(Borrow(slot, downOffset[slot]));
    }

    // ---- URC parsing ----

    /** lmqtt_urc_recv on the C string after `+LMQTTURC: `. */
    method UrcRecv(data: string)
      requires Valid()
      modifies `downOffset, `downIdx, `downReady, `downDrops, down0, down1
      ensures Valid()
      ensures MailState() == MailAfter(old(MailState()), RecvLine(data))
    {
      var parsed := ReadRecv(data);
      if parsed.Some? {
        DownlinkPut(parsed.value.0, parsed.value.1);
      }
    }

    /** lmqtt_urc_stats; the callback is not part of the model. */
    method UrcStats(data: string)
      requires Valid()
      modifies `connected
      ensures Valid() && CoreState() == Apply(old(CoreState()), ParseStats(data))
    {
      var parsed := ParseStats(data);
      if parsed.Stats? {
        connected := parsed.stat == 0;
      }
    }

    /** The filter and the write back of lmqtt_match_result_urc, on one snapshot of the pairing word. */
    method DeliverResult(pend: Word, parsed: Line)
      requires parsed.Result? && pend == cmd.pending
      modifies `cmd, `counts
      ensures cmd == CmdAfter(old(cmd), parsed)
      ensures counts == CountersAfter(old(cmd), old(counts), parsed)
    {
      hide KindOf, MsgIdOf;
      var kind, msgid := KindOf(pend), MsgIdOf(pend);
      if parsed.hasMsgId && kind == parsed.kind && msgid != 0 && parsed.msgid != msgid {
        counts := counts.(staleUrcs := counts.staleUrcs + 1);
        return;
      }
      if kind == parsed.kind && kind != KIND_NONE && cmd.pending == pend {
        cmd := cmd.(result := parsed.result);
        cmd := cmd.(extra := parsed.extend);
        cmd := cmd.(delivered := pend);
        cmd := cmd.(got := true);
        cmd := cmd.(token := true);
      }
    }

    /** lmqtt_match_result_urc: true when the line is consumed. */
    method MatchResultUrc(table: seq<UrcEntry>, text: string) returns (consumed: bool)
      modifies `cmd, `counts
      ensures consumed == !ParseResultIn(table, text).Unmatched?
      ensures cmd == CmdAfter(old(cmd), ParseResultIn(table, text))
      ensures counts == if consumed then CountersAfter(old(cmd), old(counts), ParseResultIn(table, text))
                        else old(counts)
    {
      var pend := cmd.pending;
      for i := 0 to |table|
        invariant FindEntry(table, text, 0) == FindEntry(table, text, i)
        invariant cmd == old(cmd) && counts == old(counts)
      {
        if StartsWith(text, table[i].prefix) {
          var parsed := ParseResultFields(table[i], text[|table[i].prefix|..]);
          if parsed.Result? {
            DeliverResult(pend, parsed);
          }
          return true;
        }
      }
      return false;
    }

    // ---- RAW capture and line dispatch ----

    method AppendRaw(text: string)
      requires Valid()
      modifies `rawLen, `rawLines, rawOut
      ensures Valid() && RawState() == RawAppend(old(RawState()), text)
    {
      var need := |text| + 1;
      if rawOut == null || rawLen + need > rawOutsz {
        return;
      }
      hide Overwrite;
      OverwriteAdjacent(rawOut[..], rawLen, text, [NUL]);
      Copy(rawOut, rawLen, text);
      rawLen := rawLen + |text|;
      Terminate(rawOut, rawLen);
      rawLen := rawLen + 1;
      rawLines := (rawLines + 1) % 0x1_0000;
    }

    method DispatchOk()
      modifies `cmd, `counts
      ensures cmd == CmdAfter(old(cmd), Ok) && counts == CountersAfter(old(cmd), old(counts), Ok)
    {
      if cmd.busy && !cmd.written {
        counts := counts.(earlyAcks := counts.earlyAcks + 1);
        return;
      }
      if cmd.busy {
        if cmd.acked {
          counts := counts.(extraAcks := counts.extraAcks + 1);
        }
      } else {
        counts := counts.(strayOks := counts.strayOks + 1);
      }
      cmd := cmd.(acked := true);
      cmd := cmd.(token := true);
    }

    method DispatchError(text: string)
      modifies `cmd, `counts
      ensures cmd == CmdAfter(old(cmd), Error(ParseCme(text)))
      ensures counts == CountersAfter(old(cmd), old(counts), Error(ParseCme(text)))
    {
      if StartsWith(text, "+CME ERROR") {
        var cme := ReadCme(text);
        counts := counts.(cmeErrs := counts.cmeErrs + 1);
        if cme.CmeCode? {
          counts := counts.(lastCmeCode := cme.code);
        }
      }
      if cmd.busy && !cmd.written {
        counts := counts.(earlyErrs := counts.earlyErrs + 1);
        return;
      }
      if cmd.busy {
        if cmd.rejected {
          counts := counts.(extraErrs := counts.extraErrs + 1);
        }
      } else {
        counts := counts.(strayErrs := counts.strayErrs + 1);
      }
      cmd := cmd.(rejected := true);
      cmd := cmd.(token := true);
    }

    method DispatchLmqtt(text: string)
      requires Valid() && IsLmqtt(text)
      modifies `cmd, `counts, `connected, `downOffset, `downIdx, `downReady, `downDrops, down0, down1
      ensures Valid() && CoreState() == Apply(old(CoreState()), ClassifyLmqtt(text))
    {
      hide RecvLine, ParseStats, ParseResultIn, Put, LineMax, DownMax;
      var s := CStr(text);
      if |text| > 11 && StartsWith(s, "+LMQTTURC: ") {
        var data := s[11..];
        if StartsWith(data, "RECV") {
          UrcRecv(data);
          return;
        }
        if StartsWith(data, "STATS") {
          UrcStats(data);
          return;
        }
      }
      var consumed := MatchResultUrc(RESULT_URCS, s);
      if !consumed {
        counts := counts.(unmatchedUrcs := counts.unmatchedUrcs + 1);
      }
    }

    method DispatchOrdinary(text: string)
      requires Valid()
      modifies `counts, `rawLen, `rawLines, rawOut
      ensures Valid() && CoreState() == Apply(old(CoreState()), Ordinary(text))
    {
      hide StartsWith, CStr;
      if StartsWith(CStr(text), "NORMAL POWER DOWN") {
        counts := counts.(pwrDowns := counts.pwrDowns + 1);
      }
      if StartsWith(CStr(text), "^boot.rom") {
        counts := counts.(boots := counts.boots + 1);
      }
      counts := counts.(rxOther := counts.rxOther + 1);
      if KindOf(cmd.pending) == KIND_RAW {
        AppendRaw(text);
      }
    }

    method LineDispatch(text: string)
      requires Valid()
      modifies `cmd, `counts, `connected, `rawLen, `rawLines, rawOut,
               `downOffset, `downIdx, `downReady, `downDrops, down0, down1
      ensures Valid() && CoreState() == Dispatch(old(CoreState()), text)
    {
      hide ParseCme, ClassifyLmqtt;
      if |text| > 7 && StartsWith(CStr(text), "+LMQTT") {
        DispatchLmqtt(text);
        return;
      }
      if text == "OK" {
        DispatchOk();
        return;
      }
      if StartsWith(CStr(text), "ERROR") || StartsWith(CStr(text), "+CME ERROR") {
        DispatchError(CStr(text));
        return;
      }
      DispatchOrdinary(text);
    }

    // ---- receive path ----

    method RxFeed(bytes: string)
      requires Valid()
      modifies `cmd, `counts, `connected, `rawLen, `rawLines, rawOut, `lineLen, `lineOver, line,
               `downOffset, `downIdx, `downReady, `downDrops, down0, down1
      ensures Valid() && FullState() == Feed(LineMax(cfg), old(FullState()), bytes)
    {
      for i := 0 to |bytes|
        invariant Valid() && FullState() == Feed(LineMax(cfg), old(FullState()), bytes[..i])
      {
        assert bytes[..i + 1][..i] == bytes[..i];
        FeedOne(bytes[i]);
      }
      assert bytes[..|bytes|] == bytes;
    }

    /** The body of the loop of lmqtt_rx_feed. */
    method FeedOne(c: char)
      requires Valid()
      modifies `cmd, `counts, `connected, `rawLen, `rawLines, rawOut, `lineLen, `lineOver, line,
               `downOffset, `downIdx, `downReady, `downDrops, down0, down1
      ensures Valid() && FullState() == FeedByte(LineMax(cfg), old(FullState()), c)
    {
      if c == '\n' {
        if lineOver {
          counts := counts.(lineDrops := counts.lineDrops + 1);
        } else if lineLen > 0 {
          line[lineLen] := NUL;
          LineDispatch(line[..lineLen]);
        }
        lineLen := 0;
        lineOver := false;
      } else if c != '\r' {
        if lineLen < LineMax(cfg) - 1 {
          line[lineLen] := c;
          lineLen := lineLen + 1;
        } else {
          lineOver := true;
        }
      }
    }

    // ---- command transactions ----

    /** cmd_begin_common; a held mutex makes the caller wait, so it is free when the body runs. */
    method CmdBegin(kind: Kind, msgid: MsgId, out: array?<char>, outsz: nat)
      requires Valid() && !locked
      requires out != null ==> outsz <= out.Length
      requires out != line && out != down0 && out != down1
      modifies `cmd, `rawOut, `rawOutsz, `rawLen, `rawLines, `locked
      ensures Valid() && locked && rawOut == out
      ensures FullState() == old(FullState()).(core := Begin(old(CoreState()), kind, msgid,
                if out == null then None else Some(out[..]), outsz))
    {
      hide Pack, LineMax, DownMax;
      locked := true;
      ResetSlot();
      SetRaw(out, outsz);
      OpenWindow(Pack(kind, msgid));
    }

    /** The middle stores of begin: the RAW destination is in place before the window opens. */
    method SetRaw(out: array?<char>, outsz: nat)
      requires out != null ==> outsz <= out.Length
      requires out != line && out != down0 && out != down1
      modifies `rawOut, `rawOutsz, `rawLen, `rawLines
      ensures RawValid() && rawOut == out
      ensures RawState() == RawFields(if out == null then None else Some(out[..]), outsz, 0, 0)
    {
      rawOut := out;
      rawOutsz := outsz;
      rawLen := 0;
      rawLines := 0;
    }

    /** The first stores of begin: nothing of the previous command is left before the window opens. */
    method ResetSlot()
      modifies `cmd
      ensures cmd == old(cmd).(result := -1, extra := 0, delivered := IDLE, got := false,
                               acked := false, rejected := false, stage := StageNone)
    {
      cmd := cmd.(result := -1);
      cmd := cmd.(extra := 0);
      cmd := cmd.(delivered := IDLE);
      cmd := cmd.(got := false);
      cmd := cmd.(acked := false);
      cmd := cmd.(rejected := false);
      cmd := cmd.(stage := StageNone);
    }

    /** The last stores of begin: open the window and publish the pairing word last. */
    method OpenWindow(word: Word)
      modifies `cmd
      ensures cmd == old(cmd).(written := false, busy := true, pending := word, token := false)
    {
      cmd := cmd.(written := false);
      cmd := cmd.(busy := true);
      cmd := cmd.(pending := word);
      cmd := cmd.(token := false);
    }

    method CmdAbort()
      requires Valid() && locked
      modifies `cmd, `locked
      ensures Valid() && !locked && FullState() == old(FullState()).(core := Abort(old(CoreState())))
    {
      cmd := cmd.(busy := false);
      cmd := cmd.(pending := IDLE);
      locked := false;
    }

    /** lmqtt_cmd_send; `w` says what the port does with the write. */
    method CmdSend(piece: string, w: Write) returns (rc: int)
      requires Valid()
      modifies `cmd, `counts, `connected, `rawLen, `rawLines, rawOut, `lineLen, `lineOver, line,
               `downOffset, `downIdx, `downReady, `downDrops, down0, down1, `wire
      ensures Valid() && FullState() == Feed(LineMax(cfg), old(FullState()), w.arriving)
      ensures wire == old(wire) + WrittenPart(piece, w.accepted)
      ensures rc == if w.accepted == |piece| then LMQTT_OK else ERR_IO
    {
      wire := wire + WrittenPart(piece, w.accepted);
      RxFeed(w.arriving);
      rc := if w.accepted != |piece| then ERR_IO else LMQTT_OK;
    }

    /** sem_take while `arriving` is received: true when the semaphore was taken. */
    method SemTake(arriving: string) returns (taken: bool)
      requires Valid()
      modifies `cmd, `counts, `connected, `rawLen, `rawLines, rawOut, `lineLen, `lineOver, line,
               `downOffset, `downIdx, `downReady, `downDrops, down0, down1
      ensures Valid() && (FullState(), taken) == Wait(LineMax(cfg), old(FullState()), arriving)
    {
      RxFeed(arriving);
      taken := cmd.token;
      cmd := cmd.(token := false);
    }

    method CmdFinish(atAck: string, atUrc: string) returns (rc: int, out: Option<(int, int)>)
      requires Valid() && locked
      modifies `cmd, `counts, `connected, `rawLen, `rawLines, rawOut, `lineLen, `lineOver, line,
               `downOffset, `downIdx, `downReady, `downDrops, down0, down1, `locked
      ensures Valid() && !locked
      ensures Outcome(FullState(), rc, out) == Finish(LineMax(cfg), old(FullState()), atAck, atUrc)
    {
      hide Feed, Wait, Judge, LineMax, DownMax;
      cmd := cmd.(written := true);
      var pend := cmd.pending;
      var taken := SemTake(atAck);
      rc, out := Verdict(pend, taken, atUrc);
      CmdAbort();
    }

    /** The branches between the first wait and the common exit of lmqtt_cmd_finish. */
    method Verdict(pend: Word, taken: bool, atUrc: string) returns (rc: int, out: Option<(int, int)>)
      requires Valid()
      modifies `cmd, `counts, `connected, `rawLen, `rawLines, rawOut, `lineLen, `lineOver, line,
               `downOffset, `downIdx, `downReady, `downDrops, down0, down1
      ensures Valid()
      ensures var r := Judge(LineMax(cfg), old(FullState()), pend, taken, atUrc);
              && rc == r.rc && out == r.out
              && FullState().(core := Abort(CoreState())) == r.s
    {
      out := None;
      if !taken && !Ready(cmd, pend) {
        cmd := cmd.(stage := AckTmo);
        return ERR_TIMEOUT, None;
      }
      if cmd.rejected {
        return ERR_AT, None;
      }
      var kind := KindOf(pend);
      if kind == KIND_NONE || kind == KIND_RAW {
        return LMQTT_OK, None;
      }
      rc, out := ClaimResult(pend, atUrc);
    }

    /** The second half of lmqtt_cmd_finish: wait for the result URC and claim the result slot. */
    method ClaimResult(pend: Word, atUrc: string) returns (rc: int, out: Option<(int, int)>)
      requires Valid()
      modifies `cmd, `counts, `connected, `rawLen, `rawLines, rawOut, `lineLen, `lineOver, line,
               `downOffset, `downIdx, `downReady, `downDrops, down0, down1
      ensures Valid()
      ensures var r := AwaitResult(LineMax(cfg), old(FullState()), pend, atUrc);
              && rc == r.rc && out == r.out
              && FullState().(core := Abort(CoreState())) == r.s
    {
      hide Feed, Wait;
      out := None;
      if !Ready(cmd, pend) {
        cmd := cmd.(token := false);
        var taken := SemTake(atUrc);
        if !taken && !Ready(cmd, pend) {
          cmd := cmd.(stage := UrcTmo);
          rc := ERR_TIMEOUT;
          return;
        }
      }
      if !Ready(cmd, pend) {
        cmd := cmd.(stage := StaleSlot);
        rc := ERR_TIMEOUT;
        return;
      }
      out := Some((cmd.result, cmd.extra));
      rc := LMQTT_OK;
    }

    /** lmqtt_cmd_exec */
    method CmdExec(kind: Kind, msgid: MsgId, text: string, io: Traffic)
      returns (rc: int, out: Option<(int, int)>)
      requires Valid() && !locked && |io.writes| >= 2
      modifies this, line, down0, down1
      ensures Valid() && !locked && rawOut == null
      ensures Outcome(FullState(), rc, out) ==
              Exec(LineMax(cfg), old(FullState()), kind, msgid, None, 0, text, io)
      ensures wire == old(wire) + SentBytes([text, CRLF], io.writes)
    {
      CmdBegin(kind, msgid, null, 0);
      rc, out := SendAndFinish(text, io);
    }

    /** The two sends and the exit shared by lmqtt_cmd_exec and lmqtt_cmd_exec_raw. */
    method SendAndFinish(text: string, io: Traffic) returns (rc: int, out: Option<(int, int)>)
      requires Valid() && locked && |io.writes| >= 2
      modifies `cmd, `counts, `connected, `rawLen, `rawLines, rawOut, `lineLen, `lineOver, line,
               `downOffset, `downIdx, `downReady, `downDrops, down0, down1, `locked, `wire
      ensures Valid() && !locked
      ensures Outcome(FullState(), rc, out) == Transact(LineMax(cfg), old(FullState()), [text, CRLF], io)
      ensures wire == old(wire) + SentBytes([text, CRLF], io.writes)
    {
      rc := SendPair(text, CRLF, io.writes);
      if rc != LMQTT_OK {
        CmdAbort();
        return rc, None;
      }
      rc, out := CmdFinish(io.atAck, io.atUrc);
    }

    method SendPair(first: string, second: string, writes: seq<Write>) returns (rc: int)
      requires Valid() && |writes| >= 2
      modifies `cmd, `counts, `connected, `rawLen, `rawLines, rawOut, `lineLen, `lineOver, line,
               `downOffset, `downIdx, `downReady, `downDrops, down0, down1, `wire
      ensures Valid() && (rc == LMQTT_OK || rc == ERR_IO)
      ensures (FullState(), rc == LMQTT_OK) == SendAll(LineMax(cfg), old(FullState()), [first, second], writes)
      ensures wire == old(wire) + SentBytes([first, second], writes)
    {
      SendFirst(LineMax(cfg), FullState(), first, [second], writes);
      assert [first] + [second] == [first, second];
      rc := CmdSend(first, writes[0]);
      if rc == LMQTT_OK {
        SendFirst(LineMax(cfg), FullState(), second, [], writes[1..]);
        assert [second] + [] == [second];
        rc := CmdSend(second, writes[1]);
      }
    }

    /** lmqtt_cmd_exec_raw */
    method CmdExecRaw(text: string, dest: array?<char>, outsz: nat, io: Traffic)
      returns (rc: int, outLen: nat, outLines: nat)
      requires Valid() && !locked && |io.writes| >= 2
      requires dest != null ==> outsz <= dest.Length
      requires dest != line && dest != down0 && dest != down1
      modifies this, line, down0, down1, dest
      ensures Valid() && !locked && rawOut == dest
      ensures var done := Exec(LineMax(cfg), old(FullState()), KIND_RAW, 0,
                               if dest == null then None else Some(old(dest[..])), outsz, text, io);
              FullState() == done.s && rc == done.rc
      ensures outLen == rawLen && outLines == rawLines
    {
      CmdBegin(KIND_RAW, 0, dest, outsz);
      var out;
      rc, out := SendAndFinish(text, io);
      outLen := rawLen;
      outLines := rawLines;
    }
  }
}
