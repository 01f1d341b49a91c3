/**
 * The engine's state as a value, and what each whole operation does to it. The class in Engine
 * updates the same state in place and is proved against these functions; the transition systems
 * split the same operations into their single loads and stores.
 */
module EngineState {
  import opened Basics
  import opened CStrings
  import opened PairingWord
  import opened LineSyntax

  // ---- command context ----

  /** lmqtt_cmd_ctx_t without its RAW destination; `token` is the binary semaphore. */
  datatype Cmd = Cmd(
    pending: Word, result: int, extra: int, delivered: Word, got: bool,
    acked: bool, rejected: bool, busy: bool, written: bool, stage: Stage, token: bool)

  /** A late URC: right kind, but the msgID it carries is not the one being waited for. */
  predicate IsStale(w: Word, l: Line) {
    l.Result? && l.hasMsgId && KindOf(w) == l.kind && MsgIdOf(w) != 0 && l.msgid != MsgIdOf(w)
  }

  /** The line is a result URC for the command that published `w`. */
  predicate Matches(w: Word, l: Line) {
    l.Result? && KindOf(w) == l.kind && KindOf(w) != KIND_NONE && !IsStale(w, l)
  }

  /** An OK or ERROR that arrives now is in the window but before the command was written. */
  predicate Fenced(c: Cmd) {
    c.busy && !c.written
  }

  /** lmqtt_result_ready */
  predicate Ready(c: Cmd, pend: Word) {
    c.got && c.delivered == pend
  }

  function StoreResult(c: Cmd, l: Line): Cmd
    requires l.Result?
  {
    c.(result := l.result, extra := l.extend, delivered := c.pending, got := true, token := true)
  }

  function CmdAfter(c: Cmd, l: Line): Cmd {
    match l
    case Ok => if Fenced(c) then c else c.(acked := true, token := true)
    case Error(_) => if Fenced(c) then c else c.(rejected := true, token := true)
    case Result(_, _, _, _, _) => if Matches(c.pending, l) then StoreResult(c, l) else c
    case _ => c
  }

  // ---- RAW destination ----

  datatype RawFields = RawFields(out: Option<string>, outsz: nat, len: nat, lines: nat)

  predicate RawFits(r: RawFields) {
    r.out.Some? ==> r.len <= r.outsz <= |r.out.value|
  }

  /** raw_out, raw_outsz, raw_len, raw_lines; the buffer is given by its contents. */
  type Raw = r: RawFields | RawFits(r) witness RawFields(None, 0, 0, 0)

  /** memcpy of `t` to `s + at`. */
  function Overwrite(s: string, at: nat, t: string): (r: string)
    requires at + |t| <= |s|
    ensures |r| == |s|
  {
    s[..at] + t + s[at + |t|..]
  }

  /** Two writes next to each other are one write. */
  lemma OverwriteAdjacent(s: string, at: nat, a: string, b: string)
    requires at + |a| + |b| <= |s|
    ensures Overwrite(Overwrite(s, at, a), at + |a|, b) == Overwrite(s, at, a + b)
  {
  }

  /** What is in front of a write, the write, and what is behind it. */
  lemma OverwriteParts(s: string, at: nat, t: string)
    requires at + |t| <= |s|
    ensures Overwrite(s, at, t)[..at + |t|] == s[..at] + t
    ensures Overwrite(s, at, t)[at + |t|..] == s[at + |t|..]
  {
  }

  lemma OverwriteStart(s: string, t: string)
    requires |t| <= |s|
    ensures Overwrite(s, 0, t) == t + s[|t|..]
  {
  }

  /** lmqtt_raw_append: the line and its terminator, or nothing at all. */
  function RawAppend(r: Raw, line: string): Raw {
    if r.out.None? || r.len + |line| + 1 > r.outsz then r
    else RawFields(Some(Overwrite(r.out.value, r.len, line + [NUL])), r.outsz,
                   r.len + |line| + 1, (r.lines + 1) % 0x1_0000)
  }

  function RawAfter(pending: Word, r: Raw, l: Line): Raw {
    if l.Ordinary? && KindOf(pending) == KIND_RAW then RawAppend(r, l.text) else r
  }

  // ---- downlink mailbox ----

  datatype MailFields = MailFields(
    cells: seq<string>, offsets: seq<nat>, idx: nat, ready: bool, drops: nat)

  predicate MailShape(m: MailFields) {
    && |m.cells| == 2 && |m.offsets| == 2 && m.idx < 2
    && |m.cells[0]| == |m.cells[1]| && m.offsets[0] <= |m.cells[0]| && m.offsets[1] <= |m.cells[1]|
  }

  /** down[2][DOWN_MAX], down_payload_offset[2], down_idx, down_ready, down_drops. */
  type Mail = m: MailFields | MailShape(m) witness MailFields(["", ""], [0, 0], 0, false, 0)

  function Capacity(m: Mail): nat {
    |m.cells[0]|
  }

  predicate Accepts(m: Mail, topicLen: nat, len: nat) {
    !m.ready && topicLen <= TOPIC_MAX && topicLen + 1 < Capacity(m) && len < Capacity(m) - topicLen - 1
  }

  /** A slot holds the topic and the payload, each terminated. */
  function SlotText(topic: string, payload: string): string {
    topic + [NUL] + payload + [NUL]
  }

  /** lmqtt_downlink_put */
  function Put(m: Mail, topic: string, payload: string): Mail {
    if !Accepts(m, |topic|, |payload|) then m.(drops := m.drops + 1) else
      var slot := 1 - m.idx;
      m.(cells := m.cells[slot := Overwrite(m.cells[slot], 0, SlotText(topic, payload))],
         offsets := m.offsets[slot := |topic| + 1],
         idx := slot, ready := true)
  }

  /** The pointers a take returns: the start of a slot and the payload offset within it. */
  datatype Borrow = Borrow(slot: nat, offset: nat)

  /** lmqtt_take_downlink_with_topic */
  function Take(m: Mail): (r: (Mail, Option<Borrow>))
    ensures r.1.Some? ==> r.1.value.slot < 2 && r.1.value.offset <= Capacity(r.0)
  {
    if !m.ready then (m, None)
    else (m.(ready := false), Some(Borrow(m.idx, m.offsets[m.idx])))
  }

  /** What the caller reads through the two returned pointers. */
  function ReadBorrow(m: Mail, b: Borrow): (string, string)
    requires b.slot < 2 && b.offset <= Capacity(m)
  {
    (CStr(m.cells[b.slot]), CStr(m.cells[b.slot][b.offset..]))
  }

  function MailAfter(m: Mail, l: Line): Mail {
    if l.Recv? then Put(m, l.topic, l.payload) else m
  }

  // ---- counters ----

  datatype Counters = Counters(
    lineDrops: nat, unmatchedUrcs: nat, badPubAcks: nat,
    strayOks: nat, strayErrs: nat, extraAcks: nat, extraErrs: nat, earlyAcks: nat, earlyErrs: nat,
    staleUrcs: nat, rxOther: nat, cmeErrs: nat, lastCmeCode: nat, pwrDowns: nat, boots: nat)

  const NO_COUNTS := Counters(0, 0, 0, 0, 0, 0, 0, 0, 0, 0, 0, 0, 0, 0, 0)

  function CountOk(c: Cmd, n: Counters): Counters {
    if Fenced(c) then n.(earlyAcks := n.earlyAcks + 1)
    else if !c.busy then n.(strayOks := n.strayOks + 1)
    else if c.acked then n.(extraAcks := n.extraAcks + 1)
    else n
  }

  function CountError(c: Cmd, n: Counters): Counters {
    if Fenced(c) then n.(earlyErrs := n.earlyErrs + 1)
    else if !c.busy then n.(strayErrs := n.strayErrs + 1)
    else if c.rejected then n.(extraErrs := n.extraErrs + 1)
    else n
  }

  function CountCme(n: Counters, cme: Cme): Counters {
    match cme
    case NotCme => n
    case CmeBare => n.(cmeErrs := n.cmeErrs + 1)
    case CmeCode(code) => n.(cmeErrs := n.cmeErrs + 1, lastCmeCode := code)
  }

  function CountOrdinary(n: Counters, text: string): Counters {
    n.(rxOther := n.rxOther + 1,
       pwrDowns := n.pwrDowns + if StartsWith(CStr(text), "NORMAL POWER DOWN") then 1 else 0,
       boots := n.boots + if StartsWith(CStr(text), "^boot.rom") then 1 else 0)
  }

  function CountersAfter(c: Cmd, n: Counters, l: Line): Counters {
    match l
    case Ok => CountOk(c, n)
    case Error(cme) => CountError(c, CountCme(n, cme))
    case Result(_, _, _, _, _) => if IsStale(c.pending, l) then n.(staleUrcs := n.staleUrcs + 1) else n
    case Unmatched => n.(unmatchedUrcs := n.unmatchedUrcs + 1)
    case Ordinary(text) => CountOrdinary(n, text)
    case _ => n
  }

  // ---- line dispatch and byte feed ----

  datatype Core = Core(cmd: Cmd, raw: Raw, mail: Mail, counts: Counters, connected: bool)

  /** The effect of one line. */
  function Apply(s: Core, l: Line): Core {
    Core(CmdAfter(s.cmd, l), RawAfter(s.cmd.pending, s.raw, l), MailAfter(s.mail, l),
         CountersAfter(s.cmd, s.counts, l), if l.Stats? then l.stat == 0 else s.connected)
  }

  /** lmqtt_line_dispatch */
  function Dispatch(s: Core, line: string): Core {
    Apply(s, Classify(line))
  }

  /** line, line_len and line_over. */
  datatype Frame = Frame(buf: string, over: bool)

  datatype State = State(frame: Frame, core: Core)

  function CountLineDrop(s: Core): Core {
    s.(counts := s.counts.(lineDrops := s.counts.lineDrops + 1))
  }

  /** One iteration of the loop of lmqtt_rx_feed. */
  function FeedByte(lineMax: nat, s: State, c: char): State {
    if c == '\n' then
      State(Frame("", false),
            if s.frame.over then CountLineDrop(s.core)
            else if s.frame.buf != "" then Dispatch(s.core, s.frame.buf)
            else s.core)
    else if c == '\r' then s
    else if |s.frame.buf| + 1 < lineMax then s.(frame := s.frame.(buf := s.frame.buf + [c]))
    else s.(frame := s.frame.(over := true))
  }

  /** lmqtt_rx_feed */
  function Feed(lineMax: nat, s: State, bytes: string): State {
    if bytes == "" then s
    else FeedByte(lineMax, Feed(lineMax, s, bytes[..|bytes| - 1]), bytes[|bytes| - 1])
  }

  // ---- command transactions ----

  /** cmd_begin_common */
  function Begin(s: Core, kind: Kind, msgid: MsgId, out: Option<string>, outsz: nat): Core
    requires out.Some? ==> outsz <= |out.value|
  {
    s.(cmd := Cmd(Pack(kind, msgid), -1, 0, IDLE, false, false, false, true, false, StageNone, false),
       raw := RawFields(out, outsz, 0, 0))
  }

  /** lmqtt_cmd_abort */
  function Abort(s: Core): Core {
    s.(cmd := s.cmd.(busy := false, pending := IDLE))
  }

  function SetWritten(s: State): State {
    s.(core := s.core.(cmd := s.core.cmd.(written := true)))
  }

  function SetToken(s: State, token: bool): State {
    s.(core := s.core.(cmd := s.core.cmd.(token := token)))
  }

  datatype Outcome = Outcome(s: State, rc: int, out: Option<(int, int)>)

  /** The common exit of lmqtt_cmd_finish. */
  function Close(s: State, stage: Stage, rc: int, out: Option<(int, int)>): Outcome {
    Outcome(s.(core := Abort(s.core.(cmd := s.core.cmd.(stage := stage)))), rc, out)
  }

  /** Waiting on the semaphore while `bytes` arrive and are fed: the state, and whether it was taken. */
  function Wait(lineMax: nat, s: State, bytes: string): (State, bool) {
    var fed := Feed(lineMax, s, bytes);
    (SetToken(fed, false), fed.core.cmd.token)
  }

  /** Claiming the result slot, the last part of lmqtt_cmd_finish. */
  function Claim(s: State, pend: Word): Outcome {
    var c := s.core.cmd;
    if !Ready(c, pend) then Close(s, StaleSlot, ERR_TIMEOUT, None)
    else Close(s, c.stage, LMQTT_OK, Some((c.result, c.extra)))
  }

  /** The wait for the result URC in lmqtt_cmd_finish. */
  function AwaitResult(lineMax: nat, s: State, pend: Word, atUrc: string): Outcome {
    if Ready(s.core.cmd, pend) then Claim(s, pend) else
      var (s', taken) := Wait(lineMax, SetToken(s, false), atUrc);
      if !taken && !Ready(s'.core.cmd, pend) then Close(s', UrcTmo, ERR_TIMEOUT, None)
      else Claim(s', pend)
  }

  /** The verdict of lmqtt_cmd_finish once the first wait is over. */
  function Judge(lineMax: nat, s: State, pend: Word, taken: bool, atUrc: string): Outcome {
    var c := s.core.cmd;
    if !taken && !Ready(c, pend) then Close(s, AckTmo, ERR_TIMEOUT, None)
    else if c.rejected then Close(s, c.stage, ERR_AT, None)
    else if KindOf(pend) == KIND_NONE || KindOf(pend) == KIND_RAW then Close(s, c.stage, LMQTT_OK, None)
    else AwaitResult(lineMax, s, pend, atUrc)
  }

  /** lmqtt_cmd_finish with the bytes that arrive during its two waits. */
  function Finish(lineMax: nat, s: State, atAck: string, atUrc: string): Outcome {
    var (s', taken) := Wait(lineMax, SetWritten(s), atAck);
    Judge(lineMax, s', s.core.cmd.pending, taken, atUrc)
  }

  /** One port write: the count it returns, and the bytes received before it returns. */
  datatype Write = Write(accepted: int, arriving: string)

  /** What the line does during one command: each write, and the arrivals during the two waits. */
  datatype Traffic = Traffic(writes: seq<Write>, atAck: string, atUrc: string)

  /** Sending the pieces of a command one after the other until a write falls short. */
  function SendAll(lineMax: nat, s: State, pieces: seq<string>, writes: seq<Write>): (State, bool)
    requires |pieces| <= |writes|
    decreases |pieces|
  {
    if pieces == [] then (s, true) else
      var fed := Feed(lineMax, s, writes[0].arriving);
      if writes[0].accepted != |pieces[0]| then (fed, false)
      else SendAll(lineMax, fed, pieces[1..], writes[1..])
  }

  function WrittenPart(piece: string, accepted: int): string {
    if accepted < 0 then "" else if accepted > |piece| then piece else piece[..accepted]
  }

  /** The bytes SendAll puts on the line. */
  function SentBytes(pieces: seq<string>, writes: seq<Write>): string
    requires |pieces| <= |writes|
  {
    if pieces == [] then "" else
      WrittenPart(pieces[0], writes[0].accepted) +
      if writes[0].accepted != |pieces[0]| then "" else SentBytes(pieces[1..], writes[1..])
  }

  /** The pieces one after the other. */
  function Flat(pieces: seq<string>): string {
    if pieces == [] then "" else pieces[0] + Flat(pieces[1..])
  }

  /** A whole command: open the window, send, then finish or give up. */
  function Transact(lineMax: nat, start: State, pieces: seq<string>, io: Traffic): Outcome
    requires |pieces| <= |io.writes|
  {
    var (s, sent) := SendAll(lineMax, start, pieces, io.writes);
    if !sent then Outcome(s.(core := Abort(s.core)), ERR_IO, None)
    else Finish(lineMax, s, io.atAck, io.atUrc)
  }

  /** Sending one piece, then the rest. */
  lemma SendFirst(lineMax: nat, s: State, piece: string, rest: seq<string>, writes: seq<Write>)
    requires 1 + |rest| <= |writes|
    ensures var w := writes[0];
            var fed := Feed(lineMax, s, w.arriving);
            && SendAll(lineMax, s, [piece] + rest, writes) ==
               (if w.accepted != |piece| then (fed, false) else SendAll(lineMax, fed, rest, writes[1..]))
            && SentBytes([piece] + rest, writes) ==
               WrittenPart(piece, w.accepted) +
               (if w.accepted != |piece| then "" else SentBytes(rest, writes[1..]))
  {
    assert ([piece] + rest)[1..] == rest;
  }

  const CRLF := "\r\n"

  /** lmqtt_cmd_exec and lmqtt_cmd_exec_raw. */
  function Exec(lineMax: nat, s: State, kind: Kind, msgid: MsgId, out: Option<string>, outsz: nat,
                text: string, io: Traffic): Outcome
    requires out.Some? ==> outsz <= |out.value|
    requires |io.writes| >= 2
  {
    Transact(lineMax, s.(core := Begin(s.core, kind, msgid, out, outsz)), [text, CRLF], io)
  }
}
