/**
 * The pairing protocol with every line dispatch atomic (the receive task runs to completion) and the
 * command side split at every shared access, for any number of command tasks. This is where the
 * acknowledgement claims live: the write fence, the timeouts and their stages, and RAW capture.
 */
module AtomicDispatch {
  import opened Basics
  import opened CStrings
  import opened PairingWord
  import opened LineSyntax
  import opened EngineState
  import opened CommandSteps
  import opened EventLog
  import opened RawCapture
  import ResultUrcs

  /**
   * Log positions at which the running command passed a statement: the lines dispatched before the
   * statement are those below the mark. `dest` is the RAW buffer as it was at publication.
   */
  datatype Marks = Marks(
    armed: nat, published: nat, written: nat, acked: nat, judged: nat, reset: nat, taken: nat,
    checked: nat, readResult: nat, readExtra: nat, closed: nat, dest: string)

  function MarkStep(m: Marks, sh: Shared, pc: Pc, n: nat): Marks {
    if pc == PC_RESET_REJECTED then m.(armed := n)
    else if pc == PC_PUBLISH then m.(published := n, dest := Contents(sh))
    else if pc == PC_RAISE_WRITTEN then m.(written := n)
    else if pc == PC_TAKE_ACK then m.(acked := n)
    else if pc == PC_READ_REJECTED then m.(judged := n)
    else if pc == PC_SEM_RESET2 then m.(reset := n)
    else if pc == PC_TAKE_URC then m.(taken := n)
    else if pc == PC_ACK_GOT || pc == PC_ACK_DELIVERED || pc == PC_URC_GOT || pc == PC_URC_DELIVERED
            || pc == PC_CLAIM_GOT || pc == PC_CLAIM_DELIVERED then m.(checked := n)
    else if pc == PC_READ_RESULT then m.(readResult := n)
    else if pc == PC_READ_EXTRA then m.(readExtra := n)
    else if pc == PC_CLEAR_PENDING then m.(closed := n)
    else m
  }

  /** The contents of the buffer raw_out points to. */
  function Contents(sh: Shared): string {
    if sh.rawOut.Some? && sh.rawOut.value in sh.mem then sh.mem[sh.rawOut.value] else ""
  }

  // ---- the receive side ----

  /** lmqtt_raw_append on the shared buffers; a write outside the buffer would raise `fault`. */
  function RawStep(sh: Shared, text: string): Shared {
    if sh.rawOut.None? || sh.rawLen + |text| + 1 > sh.rawOutsz then sh
    else if sh.rawLen + |text| + 1 > |Contents(sh)| then sh.(fault := true)
    else sh.(mem := sh.mem[sh.rawOut.value := Overwrite(Contents(sh), sh.rawLen, text + [NUL])],
             rawLen := sh.rawLen + |text| + 1, rawLines := (sh.rawLines + 1) % 0x1_0000)
  }

  function ReceiveStep(sh: Shared, l: Line): Shared {
    var s := if l.Ordinary? && KindOf(sh.cmd.pending) == KIND_RAW then RawStep(sh, l.text) else sh;
    s.(cmd := CmdAfter(sh.cmd, l))
  }

  // ---- the system ----

  datatype Sys = Sys(sh: Shared, tasks: seq<Task>, owner: Option<nat>, log: seq<Line>, m: Marks)

  datatype Choice =
    | Start(task: nat, kind: Kind, msgid: MsgId, buf: Option<nat>, bufsz: nat, sends: nat)
    | Run(task: nat, fails: bool)
    | Receive(line: string)

  /** A transaction can start: the task is idle, the mutex free and the buffer as big as it says. */
  predicate CanStart(s: Sys, c: Choice)
    requires c.Start?
  {
    && c.task < |s.tasks| && s.tasks[c.task].pc == PC_IDLE && s.owner.None?
    && (c.buf.Some? ==> c.buf.value in s.sh.mem && c.bufsz <= |s.sh.mem[c.buf.value]|)
  }

  /** One step of the schedule; a choice that is not enabled changes nothing. */
  function Step(s: Sys, c: Choice): Sys {
    match c
    case Start(i, kind, msgid, buf, bufsz, sends) =>
      if !CanStart(s, c) then s
      else s.(tasks := s.tasks[i := Enter(s.tasks[i], kind, msgid, buf, bufsz, sends)], owner := Some(i))
    case Run(i, fails) =>
      if i >= |s.tasks| || s.owner != Some(i) then s else
        var t := s.tasks[i];
        var (sh', t') := CmdStep(s.sh, t, fails);
        Sys(sh', s.tasks[i := t'], if t.pc == PC_UNLOCK then None else s.owner, s.log,
            MarkStep(s.m, s.sh, t.pc, |s.log|))
    case Receive(line) =>
      s.(sh := ReceiveStep(s.sh, Classify(line)), log := s.log + [Classify(line)])
  }

  function Steps(s: Sys, schedule: seq<Choice>): Sys {
    if schedule == [] then s
    else Step(Steps(s, schedule[..|schedule| - 1]), schedule[|schedule| - 1])
  }

  /** After lmqtt_init: `n` command tasks, none of them in a transaction. */
  function Init(n: nat, mem: map<nat, string>): Sys {
    Sys(Shared(Cmd(IDLE, 0, 0, IDLE, false, false, false, false, false, StageNone, false),
               None, 0, 0, 0, mem, false),
        seq(n, i => IDLE_TASK), None, [], Marks(0, 0, 0, 0, 0, 0, 0, 0, 0, 0, 0, ""))
  }

  // ---- the inductive invariant, one aspect at a time ----

  predicate Shows(c: Cmd, w: Word, last: Option<Line>) {
    match last
    case None => !c.got && c.result == -1 && c.extra == 0 && c.delivered == IDLE
    case Some(l) => l.Result? && c.got && c.result == l.result && c.extra == l.extend && c.delivered == w
  }

  /** The result slot holds the last matching URC since publication, or its reset values. */
  predicate Slot(c: Cmd, t: Task, log: seq<Line>, m: Marks) {
    && (PC_RESET_RESULT < t.pc <= PC_PUBLISH ==> c.result == -1)
    && (PC_RESET_EXTRA < t.pc <= PC_PUBLISH ==> c.extra == 0)
    && (PC_RESET_DELIVERED < t.pc <= PC_PUBLISH ==> c.delivered == IDLE)
    && (PC_RESET_GOT < t.pc <= PC_PUBLISH ==> !c.got)
    && (PC_PUBLISH < t.pc <= PC_CLEAR_PENDING ==>
          m.published <= |log| && Shows(c, t.word, LastMatch(t.word, log[m.published..])))
    && (t.pc == PC_UNLOCK ==>
          m.published <= m.closed <= |log| && Shows(c, t.word, LastMatch(t.word, log[m.published..m.closed])))
  }

  /** Where the token and the acknowledgement flags can have come from. */
  predicate Fence(c: Cmd, t: Task, log: seq<Line>, m: Marks) {
    var n := |log|;
    && (PC_RESET_REJECTED < t.pc ==> m.armed <= n && (c.rejected ==> ErrIn(log, m.armed, n)))
    && (PC_SEM_RESET < t.pc <= PC_RAISE_WRITTEN ==> (c.token ==> MatchIn(log, t.word, m.published, n)))
    && (PC_RAISE_WRITTEN < t.pc <= PC_TAKE_ACK ==>
          && (c.token ==> AckIn(log, m.written, n) || MatchIn(log, t.word, m.published, n))
          && (AckIn(log, m.written, n) ==> c.token))
    && (PC_RAISE_WRITTEN < t.pc < PC_CLEAR_BUSY ==>
          m.written <= n && (ErrIn(log, m.written, n) ==> c.rejected))
    && (t.pc == PC_TAKE_URC ==>
          && m.reset <= n && (AckIn(log, m.reset, n) ==> c.token)
          && (c.token ==> AckIn(log, m.reset, n) || MatchIn(log, t.word, m.published, n)))
  }

  /** The last readiness check was made, and no matching URC had been dispatched before it. */
  predicate CheckedEmpty(t: Task, log: seq<Line>, m: Marks) {
    m.published <= m.checked <= |log| && !MatchIn(log, t.word, m.published, m.checked)
  }

  /** A second wait has ended, after an accepted OK. */
  predicate SecondWait(log: seq<Line>, m: Marks, acks: bool) {
    && OkIn(log, m.written, m.acked) && m.acked <= m.taken && m.reset <= m.taken <= |log|
    && (AckIn(log, m.reset, m.taken) <==> acks)
  }

  /** `got` was read true and nothing else has been decided since. */
  predicate SawGot(pc: Pc) {
    pc == PC_ACK_DELIVERED || pc == PC_NEED_DELIVERED || pc == PC_URC_DELIVERED
    || PC_CLAIM_DELIVERED == pc || pc == PC_READ_RESULT || pc == PC_READ_EXTRA
  }

  predicate GivingUp(pc: Pc) {
    pc == PC_STORE_ACK_TMO || pc == PC_STORE_URC_TMO || pc == PC_STORE_STALE
  }

  /** What lmqtt_cmd_finish knows at each of its statements. */
  predicate Progress(t: Task, log: seq<Line>, m: Marks) {
    var n := |log|;
    && (PC_TAKE_ACK < t.pc < PC_CLEAR_BUSY ==> m.written <= m.acked <= n)
    && (PC_ACK_GOT <= t.pc <= PC_STORE_ACK_TMO ==> !AckIn(log, m.written, m.acked))
    && (t.pc == PC_READ_REJECTED ==>
          AckIn(log, m.written, m.acked) || MatchIn(log, t.word, m.published, n))
    && (PC_READ_REJECTED < t.pc < PC_CLEAR_BUSY ==>
          && !NoResultUrc(t.word) && m.acked <= m.judged <= n && !ErrIn(log, m.written, m.judged)
          && (OkIn(log, m.written, m.acked) || MatchIn(log, t.word, m.published, n)))
    && (PC_SEM_RESET2 <= t.pc <= PC_STORE_URC_TMO ==> OkIn(log, m.written, m.acked))
    && (PC_TAKE_URC < t.pc <= PC_STORE_URC_TMO ==> SecondWait(log, m, false))
    && (PC_CLAIM_GOT <= t.pc <= PC_CLAIM_DELIVERED ==>
          MatchIn(log, t.word, m.published, n) || SecondWait(log, m, true))
    && (t.pc == PC_STORE_STALE ==> SecondWait(log, m, true))
    && (GivingUp(t.pc) ==> CheckedEmpty(t, log, m) && m.acked <= m.checked)
    && (t.pc == PC_STORE_URC_TMO || t.pc == PC_STORE_STALE ==> m.taken <= m.checked)
    && (t.pc == PC_READ_EXTRA ==> Read(log, t.word, m, m.readResult, t.outResult, false))
    && (SawGot(t.pc) ==> MatchIn(log, t.word, m.published, n))
  }

  /** The value was read from the slot when the last matching URC in it was a line of the log. */
  predicate Read(log: seq<Line>, w: Word, m: Marks, at: nat, value: int, extend: bool) {
    && m.published <= at <= |log|
    && var last := LastMatch(w, log[m.published..at]);
       last.Some? && value == if extend then last.value.extend else last.value.result
  }

  /** The second wait was given up, after an acknowledgement that was no rejection. */
  predicate SecondGiveUp(t: Task, log: seq<Line>, m: Marks, acks: bool) {
    && !NoResultUrc(t.word) && SecondWait(log, m, acks) && m.taken <= m.checked
    && m.acked <= m.judged <= |log| && !ErrIn(log, m.written, m.judged)
  }

  /** What each return code of lmqtt_cmd_finish says about the lines that were dispatched. */
  predicate Verdict(stage: Stage, t: Task, log: seq<Line>, m: Marks) {
    if t.rc == LMQTT_OK then
      && m.written <= m.acked <= m.judged <= |log| && !ErrIn(log, m.written, m.judged)
      && if NoResultUrc(t.word) then OkIn(log, m.written, m.acked)
         else Read(log, t.word, m, m.readResult, t.outResult, false)
              && Read(log, t.word, m, m.readExtra, t.outExtra, true)
    else if t.rc == ERR_TIMEOUT then
      && CheckedEmpty(t, log, m) && m.written <= m.acked <= m.checked
      && (match stage
          case StageNone => false
          case AckTmo => !AckIn(log, m.written, m.acked)
          case UrcTmo => SecondGiveUp(t, log, m, false)
          case StaleSlot => SecondGiveUp(t, log, m, true))
    else
      t.rc == ERR_AT ==> m.armed <= m.judged <= |log| && ErrIn(log, m.armed, m.judged)
  }

  predicate Finished(c: Cmd, t: Task, log: seq<Line>, m: Marks) {
    && (PC_CLEAR_BUSY <= t.pc ==> Verdict(c.stage, t, log, m))
    && (t.pc == PC_UNLOCK && t.rc == ERR_TIMEOUT ==> m.checked <= m.closed <= |log|)
  }

  /** The window of the running task, all aspects together but RAW capture. */
  predicate Good(c: Cmd, t: Task, log: seq<Line>, m: Marks) {
    Window(c, t) && Slot(c, t, log, m) && Fence(c, t, log, m) && Progress(t, log, m) && Finished(c, t, log, m)
  }

  // ---- receiving a line ----

  lemma ReceiveKeepsWindow(c: Cmd, t: Task, l: Line)
    requires Window(c, t)
    ensures Window(CmdAfter(c, l), t)
  {
  }

  lemma ReceiveKeepsSlot(c: Cmd, t: Task, log: seq<Line>, m: Marks, l: Line)
    requires Window(c, t) && Slot(c, t, log, m)
    ensures Slot(CmdAfter(c, l), t, log + [l], m)
  {
    if PC_PUBLISH < t.pc <= PC_CLEAR_PENDING {
      LastMatchGrows(log, l, t.word, m.published);
    }
    if t.pc == PC_UNLOCK {
      assert (log + [l])[m.published..m.closed] == log[m.published..m.closed];
    }
  }

  lemma ReceiveKeepsFence(c: Cmd, t: Task, log: seq<Line>, m: Marks, l: Line)
    requires Window(c, t) && Slot(c, t, log, m) && Fence(c, t, log, m)
    ensures Fence(CmdAfter(c, l), t, log + [l], m)
  {
    hide OkIn, ErrIn, MatchIn, Slot, IsStale;
    ErrGrows(log, l, m.armed, 0);
    OkGrows(log, l, m.written, 0);
    ErrGrows(log, l, m.written, 0);
    OkGrows(log, l, m.reset, 0);
    ErrGrows(log, l, m.reset, 0);
    MatchGrows(log, l, t.word, m.published, 0);
    PublishedBefore(c, t, log, m);
  }

  lemma PublishedBefore(c: Cmd, t: Task, log: seq<Line>, m: Marks)
    requires Slot(c, t, log, m)
    ensures PC_PUBLISH < t.pc <= PC_CLEAR_PENDING ==> m.published <= |log|
  {
  }

  lemma ReadGrows(log: seq<Line>, l: Line, w: Word, m: Marks, at: nat, value: int, extend: bool)
    requires Read(log, w, m, at, value, extend)
    ensures Read(log + [l], w, m, at, value, extend)
  {
    assert (log + [l])[m.published..at] == log[m.published..at];
  }

  lemma ReceiveKeepsProgress(t: Task, log: seq<Line>, m: Marks, l: Line)
    requires Progress(t, log, m) && (PC_PUBLISH < t.pc <= PC_CLEAR_PENDING ==> m.published <= |log|)
    ensures Progress(t, log + [l], m)
  {
    hide OkIn, ErrIn, MatchIn, Matches, Read;
    OkGrows(log, l, m.written, m.acked);
    ErrGrows(log, l, m.written, m.acked);
    ErrGrows(log, l, m.written, m.judged);
    OkGrows(log, l, m.reset, m.taken);
    ErrGrows(log, l, m.reset, m.taken);
    MatchGrows(log, l, t.word, m.published, m.checked);
    if Read(log, t.word, m, m.readResult, t.outResult, false) {
      ReadGrows(log, l, t.word, m, m.readResult, t.outResult, false);
    }
  }

  lemma ReceiveKeepsFinished(c: Cmd, t: Task, log: seq<Line>, m: Marks, l: Line)
    requires Finished(c, t, log, m)
    ensures Finished(CmdAfter(c, l), t, log + [l], m)
  {
    hide OkIn, ErrIn, MatchIn, Matches, Read;
    OkGrows(log, l, m.written, m.acked);
    ErrGrows(log, l, m.written, m.acked);
    ErrGrows(log, l, m.written, m.judged);
    ErrGrows(log, l, m.armed, m.judged);
    OkGrows(log, l, m.reset, m.taken);
    ErrGrows(log, l, m.reset, m.taken);
    MatchGrows(log, l, t.word, m.published, m.checked);
    if Read(log, t.word, m, m.readResult, t.outResult, false) {
      ReadGrows(log, l, t.word, m, m.readResult, t.outResult, false);
    }
    if Read(log, t.word, m, m.readExtra, t.outExtra, true) {
      ReadGrows(log, l, t.word, m, m.readExtra, t.outExtra, true);
    }
  }

  lemma ReceiveKeepsGood(c: Cmd, t: Task, log: seq<Line>, m: Marks, l: Line)
    requires Good(c, t, log, m)
    ensures Good(CmdAfter(c, l), t, log + [l], m)
  {
    hide Window, Slot, Fence, Progress, Finished, CmdAfter;
    ReceiveKeepsWindow(c, t, l);
    ReceiveKeepsSlot(c, t, log, m, l);
    ReceiveKeepsFence(c, t, log, m, l);
    PublishedBefore(c, t, log, m);
    ReceiveKeepsProgress(t, log, m, l);
    ReceiveKeepsFinished(c, t, log, m, l);
  }

  // ---- command steps ----

  /** The log holds only lines the parser produces: result URCs of the six kinds that have one. */
  predicate Parsed(log: seq<Line>) {
    forall l | l in log :: l.Result? ==> KIND_OPEN <= l.kind <= KIND_PUB
  }

  /** Inside the window `got` says exactly that a matching URC has been dispatched. */
  lemma GotMeansMatched(c: Cmd, t: Task, log: seq<Line>, m: Marks)
    requires Parsed(log) && Slot(c, t, log, m) && PC_PUBLISH < t.pc <= PC_CLEAR_PENDING
    ensures m.published <= |log|
    ensures c.got <==> MatchIn(log, t.word, m.published, |log|)
    ensures c.got ==> c.delivered == t.word
    ensures NoResultUrc(t.word) ==> !c.got
    ensures c.got ==> LastMatch(t.word, log[m.published..|log|]).Some?
  {
    assert log[m.published..] == log[m.published..|log|];
    LastMatchIsMatch(log, t.word, m.published, |log|);
  }

  lemma ResetKeepsGood(sh: Shared, t: Task, log: seq<Line>, m: Marks)
    requires PC_IDLE < t.pc <= PC_RESET_STAGE && Good(sh.cmd, t, log, m)
    ensures var (sh', t') := ResetStep(sh, t); Good(sh'.cmd, t', log, MarkStep(m, sh, t.pc, |log|))
  {
    hide OkIn, ErrIn, MatchIn, LastMatch, Window, Verdict, SecondWait, CheckedEmpty, Read;
    ResetKeepsWindow(sh, t);
  }

  lemma OpenKeepsGood(sh: Shared, t: Task, log: seq<Line>, m: Marks)
    requires PC_SET_RAW_OUT <= t.pc <= PC_SEM_RESET && Good(sh.cmd, t, log, m)
    ensures var (sh', t') := OpenStep(sh, t); Good(sh'.cmd, t', log, MarkStep(m, sh, t.pc, |log|))
  {
    hide OkIn, ErrIn, MatchIn;
    OpenKeepsWindow(sh, t);
    assert log[|log|..] == [];
  }

  lemma AckKeepsGood(sh: Shared, t: Task, log: seq<Line>, m: Marks)
    requires PC_RAISE_WRITTEN <= t.pc <= PC_STORE_ACK_TMO && Parsed(log) && Good(sh.cmd, t, log, m)
    ensures var (sh', t') := AckStep(sh, t); Good(sh'.cmd, t', log, MarkStep(m, sh, t.pc, |log|))
  {
    hide MatchIn, LastMatch, Window;
    AckKeepsWindow(sh, t);
    GotMeansMatched(sh.cmd, t, log, m);
    PendIsWord(sh.cmd, t);
  }

  lemma PendIsWord(c: Cmd, t: Task)
    requires Window(c, t)
    ensures PC_READ_PEND < t.pc < PC_CLEAR_BUSY ==> t.pend == t.word
    ensures PC_RESET_STAGE < t.pc < PC_CLEAR_BUSY ==> c.stage == StageNone
  {
  }

  lemma UrcKeepsGood(sh: Shared, t: Task, log: seq<Line>, m: Marks)
    requires PC_READ_REJECTED <= t.pc <= PC_STORE_URC_TMO && Parsed(log) && Good(sh.cmd, t, log, m)
    ensures var (sh', t') := UrcStep(sh, t); Good(sh'.cmd, t', log, MarkStep(m, sh, t.pc, |log|))
  {
    hide MatchIn, LastMatch, Window;
    UrcKeepsWindow(sh, t);
    GotMeansMatched(sh.cmd, t, log, m);
    PendIsWord(sh.cmd, t);
  }

  lemma ClaimKeepsGood(sh: Shared, t: Task, log: seq<Line>, m: Marks)
    requires PC_CLAIM_GOT <= t.pc <= PC_READ_EXTRA && Parsed(log) && Good(sh.cmd, t, log, m)
    ensures var (sh', t') := ClaimStep(sh, t); Good(sh'.cmd, t', log, MarkStep(m, sh, t.pc, |log|))
  {
    hide OkIn, ErrIn, MatchIn, LastMatch, Window;
    ClaimKeepsWindow(sh, t);
    GotMeansMatched(sh.cmd, t, log, m);
    PendIsWord(sh.cmd, t);
    assert log[m.published..] == log[m.published..|log|];
  }

  lemma OuterKeepsGood(sh: Shared, t: Task, fails: bool, log: seq<Line>, m: Marks)
    requires t.pc == PC_SENDING || PC_CLEAR_BUSY <= t.pc < PC_UNLOCK
    requires Good(sh.cmd, t, log, m)
    ensures var (sh', t') := OuterStep(sh, t, fails); Good(sh'.cmd, t', log, MarkStep(m, sh, t.pc, |log|))
  {
    hide OkIn, ErrIn, MatchIn, LastMatch;
    OuterKeepsWindow(sh, t, fails);
    assert t.pc == PC_CLEAR_PENDING ==> log[m.published..] == log[m.published..|log|];
  }

  lemma StepKeepsGood(sh: Shared, t: Task, fails: bool, log: seq<Line>, m: Marks)
    requires t.pc != PC_IDLE && t.pc != PC_UNLOCK && Parsed(log) && Good(sh.cmd, t, log, m)
    ensures var (sh', t') := CmdStep(sh, t, fails); Good(sh'.cmd, t', log, MarkStep(m, sh, t.pc, |log|))
  {
    hide Good, MarkStep, ResetStep, OpenStep, OuterStep, AckStep, UrcStep, ClaimStep;
    if t.pc <= PC_RESET_STAGE {
      ResetKeepsGood(sh, t, log, m);
    } else if t.pc <= PC_SEM_RESET {
      OpenKeepsGood(sh, t, log, m);
    } else if t.pc == PC_SENDING || t.pc >= PC_CLEAR_BUSY {
      OuterKeepsGood(sh, t, fails, log, m);
    } else if t.pc <= PC_STORE_ACK_TMO {
      AckKeepsGood(sh, t, log, m);
    } else if t.pc <= PC_STORE_URC_TMO {
      UrcKeepsGood(sh, t, log, m);
    } else {
      ClaimKeepsGood(sh, t, log, m);
    }
  }

  lemma EnterIsGood(c: Cmd, t: Task, kind: Kind, msgid: MsgId, buf: Option<nat>, bufsz: nat, sends: nat,
                    log: seq<Line>, m: Marks)
    requires Closed(c)
    ensures Good(c, Enter(t, kind, msgid, buf, bufsz, sends), log, m)
  {
  }

  // ---- RAW capture ----

  /** The RAW destination of the running command, by contents. */
  function RawOf(sh: Shared): RawFields {
    RawFields(Some(Contents(sh)), sh.rawOutsz, sh.rawLen, sh.rawLines)
  }

  /** The lines the open RAW window has been offered. */
  function WindowTexts(t: Task, log: seq<Line>, from: nat, to: nat): seq<string>
    requires from <= to <= |log|
  {
    if KindOf(t.word) == KIND_RAW then OrdinaryTexts(log[from..to]) else []
  }

  predicate Captured(sh: Shared, dest: string, bufsz: nat, offered: seq<string>) {
    RawFits(RawOf(sh)) && bufsz <= |dest| && Holds(RawOf(sh), dest, bufsz, offered)
  }

  /** The destination fields belong to the running task, and hold what its window was offered. */
  predicate RawWindow(sh: Shared, t: Task, log: seq<Line>, m: Marks) {
    && !sh.fault
    && (t.buf.Some? ==> t.buf.value in sh.mem && t.bufsz <= |sh.mem[t.buf.value]|)
    && (PC_SET_RAW_OUT < t.pc ==> sh.rawOut == t.buf)
    && (PC_SET_RAW_OUTSZ < t.pc ==> sh.rawOutsz == t.bufsz)
    && (PC_SET_RAW_LEN < t.pc <= PC_PUBLISH ==> sh.rawLen == 0)
    && (PC_SET_RAW_LINES < t.pc <= PC_PUBLISH ==> sh.rawLines == 0)
    && (PC_PUBLISH < t.pc <= PC_CLEAR_PENDING ==>
          m.published <= |log| && (t.buf.Some? ==>
            Captured(sh, m.dest, t.bufsz, WindowTexts(t, log, m.published, |log|))))
    && (t.pc == PC_UNLOCK ==>
          m.published <= m.closed <= |log| && (t.buf.Some? ==>
            Captured(sh, m.dest, t.bufsz, WindowTexts(t, log, m.published, m.closed))))
  }

  /** An append inside a capturing window stays inside its buffer and keeps the capture exact. */
  lemma RawStepCaptures(sh: Shared, dest: string, bufsz: nat, offered: seq<string>, text: string)
    requires sh.rawOut.Some? && sh.rawOut.value in sh.mem && !sh.fault
    requires Captured(sh, dest, bufsz, offered)
    ensures var sh' := RawStep(sh, text);
            && !sh'.fault && sh'.rawOut == sh.rawOut && sh'.rawOutsz == sh.rawOutsz
            && Captured(sh', dest, bufsz, offered + [text])
            && |Contents(sh')| == |Contents(sh)|
            && sh'.mem == sh.mem[sh.rawOut.value := Contents(sh')]
  {
    hide Holds;
    AppendHolds(RawOf(sh), dest, bufsz, offered, text);
    assert sh.rawOutsz == bufsz by { CapturedSize(sh, dest, bufsz, offered); }
    if sh.rawLen + |text| + 1 > sh.rawOutsz {
      assert sh.mem == sh.mem[sh.rawOut.value := Contents(sh)];
    }
    assert RawOf(RawStep(sh, text)) == RawAppend(RawOf(sh), text);
  }

  lemma CapturedSize(sh: Shared, dest: string, bufsz: nat, offered: seq<string>)
    requires Captured(sh, dest, bufsz, offered)
    ensures sh.rawOutsz == bufsz
  {
  }

  lemma OrdinaryTextsGrow(log: seq<Line>, l: Line, from: nat)
    requires from <= |log|
    ensures OrdinaryTexts((log + [l])[from..|log| + 1]) ==
            OrdinaryTexts(log[from..|log|]) + (if l.Ordinary? then [l.text] else [])
  {
    var lines := (log + [l])[from..|log| + 1];
    assert lines[|lines| - 1] == l && lines[..|lines| - 1] == log[from..|log|];
  }

  /** Capture depends only on the destination fields and the buffer they point to. */
  lemma CapturedElsewhere(sh: Shared, sh': Shared, dest: string, bufsz: nat, offered: seq<string>)
    requires Captured(sh, dest, bufsz, offered) && RawOf(sh') == RawOf(sh)
    ensures Captured(sh', dest, bufsz, offered)
  {
  }

  lemma ReceiveKeepsRaw(sh: Shared, t: Task, log: seq<Line>, m: Marks, l: Line)
    requires Window(sh.cmd, t) && RawWindow(sh, t, log, m)
    ensures RawWindow(ReceiveStep(sh, l), t, log + [l], m)
  {
    hide Captured, CmdAfter;
    var sh' := ReceiveStep(sh, l);
    if PC_PUBLISH < t.pc <= PC_CLEAR_PENDING && t.buf.Some? {
      var offered := WindowTexts(t, log, m.published, |log|);
      OrdinaryTextsGrow(log, l, m.published);
      if l.Ordinary? && KindOf(t.word) == KIND_RAW {
        RawStepCaptures(sh, m.dest, t.bufsz, offered, l.text);
        var stepped := RawStep(sh, l.text);
        CapturedElsewhere(stepped, sh', m.dest, t.bufsz, offered + [l.text]);
      } else {
        assert WindowTexts(t, log + [l], m.published, |log| + 1) == offered;
        CapturedElsewhere(sh, sh', m.dest, t.bufsz, offered);
      }
    } else if t.pc == PC_UNLOCK {
      assert (log + [l])[m.published..m.closed] == log[m.published..m.closed];
      if t.buf.Some? {
        CapturedElsewhere(sh, sh', m.dest, t.bufsz, WindowTexts(t, log, m.published, m.closed));
      }
    }
  }

  lemma StepKeepsRaw(sh: Shared, t: Task, fails: bool, log: seq<Line>, m: Marks)
    requires t.pc != PC_IDLE && t.pc != PC_UNLOCK && RawWindow(sh, t, log, m)
    ensures var (sh', t') := CmdStep(sh, t, fails);
            RawWindow(sh', t', log, MarkStep(m, sh, t.pc, |log|))
  {
    hide Captured;
    var (sh', t') := CmdStep(sh, t, fails);
    StepTouchesCmdOnly(sh, t, fails);
    if t.pc == PC_PUBLISH && t.buf.Some? {
      assert log[|log|..|log|] == [];
      StartsCapturing(sh', t');
    } else if PC_PUBLISH < t.pc && t.buf.Some? {
      CapturedElsewhere(sh, sh', m.dest, t.bufsz, WindowTexts(t, log, m.published, |log|));
    }
  }

  lemma StartsCapturing(sh: Shared, t: Task)
    requires sh.rawOutsz == t.bufsz <= |Contents(sh)| && sh.rawLen == 0 && sh.rawLines == 0
    ensures Captured(sh, Contents(sh), t.bufsz, [])
  {
  }

  // ---- every reachable state ----

  predicate Inv(s: Sys) {
    && Exclusive(s.tasks, s.owner) && Parsed(s.log) && !s.sh.fault
    && if s.owner.None? then Closed(s.sh.cmd)
       else Good(s.sh.cmd, s.tasks[s.owner.value], s.log, s.m)
            && RawWindow(s.sh, s.tasks[s.owner.value], s.log, s.m)
  }

  lemma StartKeepsInv(s: Sys, c: Choice)
    requires c.Start? && CanStart(s, c) && Inv(s)
    ensures Inv(Step(s, c))
  {
    hide Good;
    EnterIsGood(s.sh.cmd, s.tasks[c.task], c.kind, c.msgid, c.buf, c.bufsz, c.sends, s.log, s.m);
  }

  lemma GoodHasWindow(c: Cmd, t: Task, log: seq<Line>, m: Marks)
    requires Good(c, t, log, m)
    ensures Window(c, t)
  {
  }

  lemma RunKeepsInv(s: Sys, i: nat, fails: bool)
    requires i < |s.tasks| && s.owner == Some(i) && Inv(s)
    ensures Inv(Step(s, Run(i, fails)))
  {
    hide Good, RawWindow, Window, CmdStep, MarkStep;
    var t := s.tasks[i];
    GoodHasWindow(s.sh.cmd, t, s.log, s.m);
    StepKeepsWindow(s.sh, t, fails);
    StepTouchesCmdOnly(s.sh, t, fails);
    if t.pc != PC_UNLOCK {
      StepKeepsGood(s.sh, t, fails, s.log, s.m);
      StepKeepsRaw(s.sh, t, fails, s.log, s.m);
      RawNeverFaults(s.sh, t, s.log, s.m);
    }
  }

  lemma RawNeverFaults(sh: Shared, t: Task, log: seq<Line>, m: Marks)
    requires RawWindow(sh, t, log, m)
    ensures !sh.fault
  {
  }

  lemma ReceiveKeepsInv(s: Sys, line: string)
    requires Inv(s)
    ensures Inv(Step(s, Receive(line)))
  {
    hide Good, RawWindow, Classify;
    var l := Classify(line);
    if s.owner.Some? {
      var t := s.tasks[s.owner.value];
      GoodHasWindow(s.sh.cmd, t, s.log, s.m);
      ReceiveKeepsGood(s.sh.cmd, t, s.log, s.m, l);
      ReceiveKeepsRaw(s.sh, t, s.log, s.m, l);
      RawNeverFaults(ReceiveStep(s.sh, l), t, s.log + [l], s.m);
    }
  }

  lemma StepKeepsInv(s: Sys, c: Choice)
    requires Inv(s)
    ensures Inv(Step(s, c))
  {
    hide Inv, CmdStep, ReceiveStep, MarkStep;
    if c.Start? && CanStart(s, c) {
      StartKeepsInv(s, c);
    } else if c.Run? && c.task < |s.tasks| && s.owner == Some(c.task) {
      RunKeepsInv(s, c.task, c.fails);
    } else if c.Receive? {
      ReceiveKeepsInv(s, c.line);
    }
  }

  /** The invariant holds after every schedule, for any number of tasks and any buffers. */
  lemma {:induction false} Reachable(n: nat, mem: map<nat, string>, schedule: seq<Choice>)
    ensures Inv(Steps(Init(n, mem), schedule))
  {
    hide Step;
    if schedule == [] {
      InitIsGood(n, mem);
    } else {
      Reachable(n, mem, schedule[..|schedule| - 1]);
      StepKeepsInv(Steps(Init(n, mem), schedule[..|schedule| - 1]), schedule[|schedule| - 1]);
    }
  }

  lemma InitIsGood(n: nat, mem: map<nat, string>)
    ensures Inv(Init(n, mem))
  {
  }

  // ---- the claims ----

  /**
   * Mutual exclusion and window ownership: an open window belongs to the one task that holds the
   * mutex, finish reads back the word that task published, and every begin is paired with exactly
   * one abort.
   */
  lemma WindowOwnership(n: nat, mem: map<nat, string>, schedule: seq<Choice>, i: nat)
    requires i < n
    ensures var s := Steps(Init(n, mem), schedule);
            && |s.tasks| == n
            && (s.sh.cmd.busy || s.sh.cmd.pending != IDLE ==> s.owner.Some?)
            && (s.tasks[i].pc != PC_IDLE <==> s.owner == Some(i))
            && (PC_READ_PEND < s.tasks[i].pc < PC_CLEAR_BUSY ==>
                  s.tasks[i].pend == s.tasks[i].word == s.sh.cmd.pending)
            && s.tasks[i].begins == s.tasks[i].aborts + (if s.owner == Some(i) then 1 else 0)
  {
    Reachable(n, mem, schedule);
    TaskCount(n, mem, schedule);
    var s := Steps(Init(n, mem), schedule);
    if s.owner.Some? {
      GoodHasWindow(s.sh.cmd, s.tasks[s.owner.value], s.log, s.m);
    }
    assert Balanced(s.tasks[i]);
  }

  lemma {:induction false} TaskCount(n: nat, mem: map<nat, string>, schedule: seq<Choice>)
    ensures |Steps(Init(n, mem), schedule).tasks| == n
  {
    hide CmdStep, ReceiveStep, MarkStep;
    if schedule != [] {
      TaskCount(n, mem, schedule[..|schedule| - 1]);
    }
  }

  /** The task about to return from its command, with the verdict its window supports. */
  lemma VerdictHolds(n: nat, mem: map<nat, string>, schedule: seq<Choice>, i: nat)
    requires i < n
    ensures var s := Steps(Init(n, mem), schedule);
            && |s.tasks| == n
            && (s.tasks[i].pc == PC_UNLOCK ==>
                  Window(s.sh.cmd, s.tasks[i]) && Slot(s.sh.cmd, s.tasks[i], s.log, s.m)
                  && Verdict(s.sh.cmd.stage, s.tasks[i], s.log, s.m)
                  && (s.tasks[i].rc == ERR_TIMEOUT ==> s.m.checked <= s.m.closed <= |s.log|))
  {
    hide Window, Slot, Verdict, Step;
    Reachable(n, mem, schedule);
    TaskCount(n, mem, schedule);
  }

  /**
   * Write fence: a command without a result URC succeeds only on an OK dispatched after its last
   * byte was written, and before the return.
   */
  lemma WriteFence(n: nat, mem: map<nat, string>, schedule: seq<Choice>, i: nat)
    requires i < n
    ensures var s := Steps(Init(n, mem), schedule);
            && |s.tasks| == n
            && (s.tasks[i].pc == PC_UNLOCK && NoResultUrc(s.tasks[i].word) && s.tasks[i].rc == LMQTT_OK ==>
                  && s.m.written <= s.m.acked <= |s.log|
                  && (exists j :: s.m.written <= j < s.m.acked && s.log[j] == Ok)
                  && (forall j :: s.m.written <= j < s.m.judged && j < |s.log| ==> !s.log[j].Error?))
  {
    hide Step;
    VerdictHolds(n, mem, schedule, i);
  }

  /** From the opening of the window to the fence, an OK or ERROR leaves the whole context alone. */
  lemma FencedLinesIgnored(c: Cmd, t: Task, l: Line)
    requires Window(c, t) && PC_SET_BUSY < t.pc <= PC_RAISE_WRITTEN && (l.Ok? || l.Error?)
    ensures CmdAfter(c, l) == c
  {
  }

  /** What was given before the window is gone: a command without result URC starts sending tokenless. */
  lemma {:induction false} NoTokenBeforeWritten(n: nat, mem: map<nat, string>, schedule: seq<Choice>, i: nat)
    requires i < n
    ensures var s := Steps(Init(n, mem), schedule);
            && |s.tasks| == n
            && (PC_SEM_RESET < s.tasks[i].pc <= PC_RAISE_WRITTEN && NoResultUrc(s.tasks[i].word) ==>
                  !s.sh.cmd.token)
  {
    hide Step, Window, Progress, Finished, RawWindow;
    Reachable(n, mem, schedule);
    TaskCount(n, mem, schedule);
    var s := Steps(Init(n, mem), schedule);
    var t := s.tasks[i];
    if PC_SEM_RESET < t.pc <= PC_RAISE_WRITTEN {
      GotMeansMatched(s.sh.cmd, t, s.log, s.m);
    }
  }

  /**
   * No false timeout: a matching result URC dispatched between the publication and the deciding
   * readiness check rules a timeout out, and readiness, once there, stays for the whole window.
   */
  lemma NoFalseTimeout(n: nat, mem: map<nat, string>, schedule: seq<Choice>, i: nat)
    requires i < n
    ensures var s := Steps(Init(n, mem), schedule);
            && |s.tasks| == n
            && (s.tasks[i].pc == PC_UNLOCK
                && MatchIn(s.log, s.tasks[i].word, s.m.published, s.m.checked) ==>
                  s.tasks[i].rc != ERR_TIMEOUT)
            && (PC_PUBLISH < s.tasks[i].pc <= PC_CLEAR_PENDING ==>
                  (MatchIn(s.log, s.tasks[i].word, s.m.published, |s.log|) <==>
                   s.sh.cmd.got && s.sh.cmd.delivered == s.tasks[i].word))
  {
    hide Step, Window, Progress, RawWindow, MatchIn;
    Reachable(n, mem, schedule);
    TaskCount(n, mem, schedule);
    VerdictHolds(n, mem, schedule, i);
    var s := Steps(Init(n, mem), schedule);
    var t := s.tasks[i];
    if PC_PUBLISH < t.pc <= PC_CLEAR_PENDING {
      GotMeansMatched(s.sh.cmd, t, s.log, s.m);
    }
  }

  /**
   * Stage exactness: the return is a timeout exactly when a stage is recorded, and the stage tells
   * which lines had and had not been dispatched before the take that failed. The deciding check
   * comes after that take, so no matching URC had been dispatched by either.
   */
  lemma StageExactness(n: nat, mem: map<nat, string>, schedule: seq<Choice>, i: nat)
    requires i < n
    ensures var s := Steps(Init(n, mem), schedule);
            && |s.tasks| == n
            && (s.tasks[i].pc == PC_UNLOCK ==>
                  var m, log, w := s.m, s.log, s.tasks[i].word;
                  && (s.tasks[i].rc == ERR_TIMEOUT <==> s.sh.cmd.stage != StageNone)
                  && (s.sh.cmd.stage != StageNone ==> !MatchIn(log, w, m.published, m.checked))
                  && (s.sh.cmd.stage == AckTmo ==>
                        && m.written <= m.acked <= m.checked <= |log|
                        && !AckIn(log, m.written, m.acked) && !MatchIn(log, w, m.published, m.acked))
                  && (s.sh.cmd.stage == UrcTmo ==>
                        && m.written <= m.acked <= m.taken <= m.checked <= |log|
                        && OkIn(log, m.written, m.acked) && !AckIn(log, m.reset, m.taken)
                        && !MatchIn(log, w, m.published, m.taken))
                  && (s.sh.cmd.stage == StaleSlot ==>
                        && m.written <= m.acked <= m.taken <= m.checked <= |log|
                        && OkIn(log, m.written, m.acked) && AckIn(log, m.reset, m.taken)
                        && !MatchIn(log, w, m.published, m.taken)))
  {
    hide Step, OkIn, ErrIn, MatchIn;
    VerdictHolds(n, mem, schedule, i);
    var s := Steps(Init(n, mem), schedule);
    NoMatchBefore(s.log, s.tasks[i].word, s.m.published, s.m.acked, s.m.checked);
    NoMatchBefore(s.log, s.tasks[i].word, s.m.published, s.m.taken, s.m.checked);
  }

  lemma NoMatchBefore(log: seq<Line>, w: Word, a: nat, b: nat, c: nat)
    ensures b <= c && !MatchIn(log, w, a, c) ==> !MatchIn(log, w, a, b)
  {
  }

  /**
   * A rejected command is told so: when the write went through, an ERROR between the raising of
   * `written` and the first take gives LMQTT_ERR_AT and nothing else. A write error is returned exactly
   * if a piece of the command was not written, and then the command was never marked written.
   */
  lemma RejectionIsReported(n: nat, mem: map<nat, string>, schedule: seq<Choice>, i: nat)
    requires i < n
    ensures var s := Steps(Init(n, mem), schedule);
            && |s.tasks| == n
            && (s.tasks[i].pc == PC_UNLOCK ==>
                  && s.tasks[i].rc in {0, -2, -3, -8}
                  && (s.tasks[i].rc == -8 <==> s.tasks[i].sends > 0)
                  && (s.tasks[i].rc == -8 <==> !s.sh.cmd.written)
                  && (s.tasks[i].sends == 0
                      && (exists j :: s.m.written <= j < s.m.acked && j < |s.log| && s.log[j].Error?) ==>
                        s.tasks[i].rc == -3)
                  && (s.tasks[i].rc == -3 ==>
                        exists j :: s.m.armed <= j < s.m.judged && j < |s.log| && s.log[j].Error?))
  {
    hide Step;
    VerdictHolds(n, mem, schedule, i);
  }

  /** A rejection is reported only for an ERROR dispatched after this command cleared the flag. */
  lemma RejectionHasCause(n: nat, mem: map<nat, string>, schedule: seq<Choice>, i: nat)
    requires i < n
    ensures var s := Steps(Init(n, mem), schedule);
            && |s.tasks| == n
            && (s.tasks[i].pc == PC_UNLOCK && s.tasks[i].rc == ERR_AT ==>
                  exists j :: s.m.armed <= j < s.m.judged && j < |s.log| && s.log[j].Error?)
  {
    hide Step;
    VerdictHolds(n, mem, schedule, i);
  }

  /** The values returned are those of the last matching URC at the two reads. */
  lemma ReturnsLastMatch(n: nat, mem: map<nat, string>, schedule: seq<Choice>, i: nat)
    requires i < n
    ensures var s := Steps(Init(n, mem), schedule);
            && |s.tasks| == n
            && (s.tasks[i].pc == PC_UNLOCK && !NoResultUrc(s.tasks[i].word)
                && s.tasks[i].rc == LMQTT_OK ==>
                  && s.m.published <= s.m.readResult <= |s.log| && s.m.published <= s.m.readExtra <= |s.log|
                  && var r := LastMatch(s.tasks[i].word, s.log[s.m.published..s.m.readResult]);
                     var e := LastMatch(s.tasks[i].word, s.log[s.m.published..s.m.readExtra]);
                     r.Some? && e.Some?
                     && s.tasks[i].outResult == r.value.result && s.tasks[i].outExtra == e.value.extend)
  {
    hide Step;
    VerdictHolds(n, mem, schedule, i);
  }

  /**
   * After a timeout the slot still shows its reset values unless a matching URC was dispatched
   * between the last check and the end of the window; then it shows the last of those. A line is
   * dispatched in one step here; SplitTimeouts has the deliveries that are preempted half way.
   */
  lemma TimeoutLeavesResetValues(n: nat, mem: map<nat, string>, schedule: seq<Choice>, i: nat)
    requires i < n
    ensures var s := Steps(Init(n, mem), schedule);
            && |s.tasks| == n
            && (s.tasks[i].pc == PC_UNLOCK && s.tasks[i].rc == ERR_TIMEOUT ==>
                  && s.m.published <= s.m.checked <= s.m.closed <= |s.log|
                  && (s.sh.cmd.got <==> MatchIn(s.log, s.tasks[i].word, s.m.checked, s.m.closed))
                  && (!s.sh.cmd.got ==> s.sh.cmd.result == -1 && s.sh.cmd.extra == 0)
                  && (s.sh.cmd.got ==>
                        var last := LastMatch(s.tasks[i].word, s.log[s.m.published..s.m.closed]);
                        last.Some? && s.sh.cmd.result == last.value.result
                        && s.sh.cmd.extra == last.value.extend))
  {
    hide Step;
    VerdictHolds(n, mem, schedule, i);
    var s := Steps(Init(n, mem), schedule);
    var t := s.tasks[i];
    if t.pc == PC_UNLOCK && t.rc == ERR_TIMEOUT {
      LastMatchIsMatch(s.log, t.word, s.m.published, s.m.closed);
    }
  }

  /**
   * That exception is real: from every reachable state in which a command is about to record a
   * timeout, a matching URC received at that moment leaves its values visible after the command has
   * returned ERR_TIMEOUT.
   */
  lemma {:induction false} LateUrcShowsThrough(n: nat, mem: map<nat, string>, schedule: seq<Choice>,
                                               i: nat, line: string)
    ensures var s, r := Steps(Init(n, mem), schedule), Run(i, false);
            var s' := Steps(Init(n, mem), schedule + [Receive(line), r, r, r]);
            && |s'.tasks| == |s.tasks|
            && (i < |s.tasks| && s.owner == Some(i) && GivingUp(s.tasks[i].pc)
                && Matches(s.tasks[i].word, Classify(line)) ==>
                  && s'.tasks[i].pc == PC_UNLOCK && s'.tasks[i].rc == ERR_TIMEOUT
                  && s'.tasks[i].word == s.tasks[i].word
                  && s'.sh.cmd.result == Classify(line).result && s'.sh.cmd.extra == Classify(line).extend)
  {
    hide Classify, Inv, CmdStep, ReceiveStep, Step, Steps, Window, Matches;
    var s, r := Steps(Init(n, mem), schedule), Run(i, false);
    var s1 := Step(s, Receive(line));
    var s2 := Step(s1, r);
    FourMore(Init(n, mem), schedule, Receive(line), r, r, r);
    TaskCount(n, mem, schedule);
    TaskCount(n, mem, schedule + [Receive(line), r, r, r]);
    if i < |s.tasks| && s.owner == Some(i) && GivingUp(s.tasks[i].pc)
       && Matches(s.tasks[i].word, Classify(line)) {
      Reachable(n, mem, schedule);
      OwnerHasWindow(s);
      LateReceive(s.sh, s.tasks[i], Classify(line));
      GiveUpAndClose(s1.sh, s.tasks[i]);
      ReceiveIs(s, line);
      RunIs(s1, i);
      RunIs(s2, i);
      RunIs(Step(s2, r), i);
    }
  }

  /** An OPEN that is started on a fresh engine and then runs on with nothing received. */
  function UnansweredOpen(k: nat): seq<Choice> {
    if k == 0 then [Start(0, KIND_OPEN, 0, None, 0, 0)] else UnansweredOpen(k - 1) + [Run(0, false)]
  }

  lemma {:induction false} UnansweredRuns(k: nat)
    requires k <= 20
    ensures var s := Steps(Init(1, map[]), UnansweredOpen(k));
            && |s.tasks| == 1 && s.owner == Some(0) && !s.sh.cmd.got && !s.sh.cmd.token
            && s.tasks[0].pc == (if k < 20 then k + 1 else PC_STORE_ACK_TMO)
            && s.tasks[0].word == Pack(KIND_OPEN, 0) && s.tasks[0].sends == 0
  {
    if k == 0 {
      assert UnansweredOpen(0)[..0] == [];
    } else {
      UnansweredRuns(k - 1);
      var before := UnansweredOpen(k - 1);
      assert UnansweredOpen(k) == before + [Run(0, false)];
      hide Steps, UnansweredOpen, CmdStep, Pack;
      var s := Steps(Init(1, map[]), before);
      StepsSnoc(Init(1, map[]), before, Run(0, false));
      UnansweredStep(s.sh, s.tasks[0]);
    }
  }

  lemma StepsSnoc(s: Sys, schedule: seq<Choice>, c: Choice)
    ensures Steps(s, schedule + [c]) == Step(Steps(s, schedule), c)
  {
    hide Step;
    assert (schedule + [c])[..|schedule|] == schedule;
  }

  /** Such a run from the start: an unanswered OPEN, and its URC just before the timeout is recorded. */
  lemma LateUrcHappens()
    ensures exists schedule ::
              var s := Steps(Init(1, map[]), schedule);
              && |s.tasks| == 1 && s.tasks[0].pc == PC_UNLOCK && s.tasks[0].rc == ERR_TIMEOUT
              && s.tasks[0].word == Pack(KIND_OPEN, 0) && s.sh.cmd.result == 0
  {
    hide *;
    var line := ResultUrcs.OpenedLine();
    UnansweredRuns(20);
    OpenMatches(Classify(line));
    TimeoutIsGivingUp();
    LateUrcShowsThrough(1, map[], UnansweredOpen(20), 0, line);
    var r := Run(0, false);
    var s := Steps(Init(1, map[]), UnansweredOpen(20) + [Receive(line), r, r, r]);
    assert |s.tasks| == 1 && s.tasks[0].pc == PC_UNLOCK && s.tasks[0].rc == ERR_TIMEOUT;
  }

  lemma OpenMatches(l: Line)
    requires l == Result(KIND_OPEN, false, 0, 0, 0)
    ensures Matches(Pack(KIND_OPEN, 0), l) && l.result == 0
  {
    PackUnpack(KIND_OPEN, 0);
  }

  lemma TimeoutIsGivingUp()
    ensures GivingUp(PC_STORE_ACK_TMO)
  {
  }

  lemma OwnerHasWindow(s: Sys)
    requires Inv(s) && s.owner.Some? && s.owner.value < |s.tasks|
    ensures Window(s.sh.cmd, s.tasks[s.owner.value])
  {
  }

  lemma ReceiveIs(s: Sys, line: string)
    ensures var s' := Step(s, Receive(line));
            s'.sh == ReceiveStep(s.sh, Classify(line)) && s'.tasks == s.tasks && s'.owner == s.owner
  {
  }

  lemma RunIs(s: Sys, i: nat)
    requires i < |s.tasks| && s.owner == Some(i) && s.tasks[i].pc != PC_UNLOCK
    ensures var s' := Step(s, Run(i, false));
            (s'.sh, s'.tasks[i]) == CmdStep(s.sh, s.tasks[i], false) && |s'.tasks| == |s.tasks|
            && s'.owner == s.owner
  {
    hide CmdStep;
  }

  lemma LateReceive(sh: Shared, t: Task, l: Line)
    requires Window(sh.cmd, t) && GivingUp(t.pc) && Matches(t.word, l)
    ensures ReceiveStep(sh, l).cmd.result == l.result && ReceiveStep(sh, l).cmd.extra == l.extend
  {
  }

  /** Recording a timeout and the two steps of the abort leave the result slot alone. */
  lemma GiveUpAndClose(sh: Shared, t: Task)
    requires GivingUp(t.pc)
    ensures var (sh1, t1) := CmdStep(sh, t, false);
            var (sh2, t2) := CmdStep(sh1, t1, false);
            var (sh3, t3) := CmdStep(sh2, t2, false);
            && t1.pc == PC_CLEAR_BUSY && t2.pc == PC_CLEAR_PENDING
            && t3.pc == PC_UNLOCK && t3.rc == ERR_TIMEOUT && t3.word == t.word
            && sh3.cmd.result == sh.cmd.result && sh3.cmd.extra == sh.cmd.extra
  {
  }

  lemma FourMore(s: Sys, schedule: seq<Choice>, a: Choice, b: Choice, c: Choice, d: Choice)
    ensures Steps(s, schedule + [a, b, c, d]) == Step(Step(Step(Step(Steps(s, schedule), a), b), c), d)
  {
    hide Step, Steps;
    assert schedule + [a, b, c, d] == schedule + [a] + [b] + [c] + [d];
    StepsSnoc(s, schedule, a);
    StepsSnoc(s, schedule + [a], b);
    StepsSnoc(s, schedule + [a] + [b], c);
    StepsSnoc(s, schedule + [a] + [b] + [c], d);
  }

  /**
   * RAW capture is exact under every interleaving: when a RAW command is about to return, its buffer
   * holds the greedy choice, by fit, of the ordinary lines dispatched while its pairing word was
   * published, and the rest of the buffer is as it was. The line count is exact up to its 16 bits,
   * and so the true count for nonempty lines in a buffer below 128 KiB.
   */
  lemma RawCaptureExact(n: nat, mem: map<nat, string>, schedule: seq<Choice>, i: nat)
    requires i < n
    ensures var s := Steps(Init(n, mem), schedule);
            && |s.tasks| == n
            && (var t := s.tasks[i];
                t.pc == PC_UNLOCK && KindOf(t.word) == KIND_RAW && t.buf.Some? ==>
                  && s.m.published <= s.m.closed <= |s.log|
                  && t.buf.value in s.sh.mem && t.bufsz <= |s.m.dest|
                  && var kept := Greedy(OrdinaryTexts(s.log[s.m.published..s.m.closed]), t.bufsz);
                     var buffer := s.sh.mem[t.buf.value];
                     && s.sh.rawLen == |Layout(kept)| <= |buffer| == |s.m.dest|
                     && buffer[..s.sh.rawLen] == Layout(kept)
                     && buffer[s.sh.rawLen..] == s.m.dest[s.sh.rawLen..]
                     && s.sh.rawLines == |kept| % 0x1_0000
                     && (t.bufsz < 131072 && (forall text | text in kept :: text != "") ==>
                           s.sh.rawLines == |kept|))
  {
    hide Step, Good;
    Reachable(n, mem, schedule);
    TaskCount(n, mem, schedule);
    var s := Steps(Init(n, mem), schedule);
    var t := s.tasks[i];
    if t.pc == PC_UNLOCK && KindOf(t.word) == KIND_RAW && t.buf.Some? && t.bufsz < 131072 {
      ShortCount(Greedy(OrdinaryTexts(s.log[s.m.published..s.m.closed]), t.bufsz), t.bufsz);
    }
  }

  lemma ShortCount(kept: seq<string>, bufsz: nat)
    requires |Layout(kept)| <= bufsz < 131072
    ensures (forall text | text in kept :: text != "") ==> |kept| % 0x1_0000 == |kept|
  {
    if forall text | text in kept :: text != "" {
      LayoutSize(kept);
    }
  }

  /**
   * RAW destination safety: a received line changes at most the buffer of the task whose RAW window
   * is open, only between the bytes already captured and the size that task gave, and never writes
   * outside it.
   */
  lemma {:induction false} RawDestinationSafe(n: nat, mem: map<nat, string>, schedule: seq<Choice>,
                                              line: string, b: nat)
    requires b in mem
    ensures var s := Steps(Init(n, mem), schedule);
            var s' := Step(s, Receive(line));
            && !s.sh.fault && !s'.sh.fault && b in s.sh.mem && b in s'.sh.mem
            && (s'.sh.mem[b] != s.sh.mem[b] ==>
                  && s.owner.Some? && s.owner.value < |s.tasks|
                  && var t := s.tasks[s.owner.value];
                     && KindOf(t.word) == KIND_RAW && t.buf == Some(b)
                     && PC_PUBLISH < t.pc <= PC_CLEAR_PENDING
                     && s.sh.rawLen < s'.sh.rawLen <= t.bufsz <= |s.sh.mem[b]| == |s'.sh.mem[b]|
                     && s'.sh.mem[b][..s.sh.rawLen] == s.sh.mem[b][..s.sh.rawLen]
                     && s'.sh.mem[b][s'.sh.rawLen..] == s.sh.mem[b][s'.sh.rawLen..])
  {
    hide Step, Classify, Good;
    Reachable(n, mem, schedule);
    BuffersStay(n, mem, schedule, b);
    var s := Steps(Init(n, mem), schedule);
    ReceiveKeepsInv(s, line);
    if s.owner.Some? {
      GoodHasWindow(s.sh.cmd, s.tasks[s.owner.value], s.log, s.m);
    }
    OneReceive(s, line, b);
  }

  lemma OneReceive(s: Sys, line: string, b: nat)
    requires Inv(s) && b in s.sh.mem
    requires s.owner.Some? ==> Window(s.sh.cmd, s.tasks[s.owner.value])
    ensures var s' := Step(s, Receive(line));
            && b in s'.sh.mem
            && (s'.sh.mem[b] != s.sh.mem[b] ==>
                  && s.owner.Some? && s.owner.value < |s.tasks|
                  && var t := s.tasks[s.owner.value];
                     && KindOf(t.word) == KIND_RAW && t.buf == Some(b)
                     && PC_PUBLISH < t.pc <= PC_CLEAR_PENDING
                     && s.sh.rawLen < s'.sh.rawLen <= t.bufsz <= |s.sh.mem[b]| == |s'.sh.mem[b]|
                     && s'.sh.mem[b][..s.sh.rawLen] == s.sh.mem[b][..s.sh.rawLen]
                     && s'.sh.mem[b][s'.sh.rawLen..] == s.sh.mem[b][s'.sh.rawLen..])
  {
    hide Classify, Good, Captured, CmdAfter;
    var l := Classify(line);
    if l.Ordinary? && KindOf(s.sh.cmd.pending) == KIND_RAW {
      assert s.owner.Some?;
      var sh' := RawStep(s.sh, l.text);
      if sh' != s.sh && s.sh.rawOut == Some(b) {
        assert sh'.mem[b] == Overwrite(s.sh.mem[b], s.sh.rawLen, l.text + [NUL]);
      }
    }
  }

  lemma {:induction false} BuffersStay(n: nat, mem: map<nat, string>, schedule: seq<Choice>, b: nat)
    requires b in mem
    ensures b in Steps(Init(n, mem), schedule).sh.mem
  {
    hide CmdStep, MarkStep, Classify;
    if schedule != [] {
      var s := Steps(Init(n, mem), schedule[..|schedule| - 1]);
      BuffersStay(n, mem, schedule[..|schedule| - 1], b);
      if s.owner.Some? && s.owner.value < |s.tasks| {
        StepTouchesCmdOnly(s.sh, s.tasks[s.owner.value], false);
        StepTouchesCmdOnly(s.sh, s.tasks[s.owner.value], true);
      }
    }
  }
}
