/**
 * The command side of the pairing protocol, one shared load or store per step. A task's `pc` names
 * the statement it executes next; the two receive-side models (AtomicDispatch, SplitDispatch)
 * interleave these steps with theirs.
 */
module CommandSteps {
  import opened Basics
  import opened PairingWord
  import opened EngineState

  type Pc = p: nat | p <= 38

  const PC_IDLE: Pc := 0
  const PC_RESET_RESULT: Pc := 1
  const PC_RESET_EXTRA: Pc := 2
  const PC_RESET_DELIVERED: Pc := 3
  const PC_RESET_GOT: Pc := 4
  const PC_RESET_ACKED: Pc := 5
  const PC_RESET_REJECTED: Pc := 6
  const PC_RESET_STAGE: Pc := 7
  const PC_SET_RAW_OUT: Pc := 8
  const PC_SET_RAW_OUTSZ: Pc := 9
  const PC_SET_RAW_LEN: Pc := 10
  const PC_SET_RAW_LINES: Pc := 11
  const PC_CLEAR_WRITTEN: Pc := 12
  const PC_SET_BUSY: Pc := 13
  const PC_PUBLISH: Pc := 14
  const PC_SEM_RESET: Pc := 15
  const PC_SENDING: Pc := 16
  const PC_RAISE_WRITTEN: Pc := 17
  const PC_READ_PEND: Pc := 18
  const PC_TAKE_ACK: Pc := 19
  const PC_ACK_GOT: Pc := 20
  const PC_ACK_DELIVERED: Pc := 21
  const PC_STORE_ACK_TMO: Pc := 22
  const PC_READ_REJECTED: Pc := 23
  const PC_NEED_GOT: Pc := 24
  const PC_NEED_DELIVERED: Pc := 25
  const PC_SEM_RESET2: Pc := 26
  const PC_TAKE_URC: Pc := 27
  const PC_URC_GOT: Pc := 28
  const PC_URC_DELIVERED: Pc := 29
  const PC_STORE_URC_TMO: Pc := 30
  const PC_CLAIM_GOT: Pc := 31
  const PC_CLAIM_DELIVERED: Pc := 32
  const PC_STORE_STALE: Pc := 33
  const PC_READ_RESULT: Pc := 34
  const PC_READ_EXTRA: Pc := 35
  const PC_CLEAR_BUSY: Pc := 36
  const PC_CLEAR_PENDING: Pc := 37
  const PC_UNLOCK: Pc := 38

  /** What both sides share: the command context, and the buffers RAW responses are written to. */
  datatype Shared = Shared(
    cmd: Cmd, rawOut: Option<nat>, rawOutsz: nat, rawLen: nat, rawLines: nat,
    mem: map<nat, string>, fault: bool)

  /** One command task: its parameters, locals and results, and how often it began and aborted. */
  datatype Task = Task(
    pc: Pc, word: Word, buf: Option<nat>, bufsz: nat, sends: nat,
    pend: Word, rc: int, outResult: int, outExtra: int, begins: nat, aborts: nat)

  const IDLE_TASK := Task(PC_IDLE, IDLE, None, 0, 0, IDLE, LMQTT_OK, 0, 0, 0, 0)

  predicate NoResultUrc(w: Word) {
    KindOf(w) == KIND_NONE || KindOf(w) == KIND_RAW
  }

  /** Entering cmd_begin_common: the mutex is taken. */
  function Enter(t: Task, kind: Kind, msgid: MsgId, buf: Option<nat>, bufsz: nat, sends: nat): Task {
    t.(pc := PC_RESET_RESULT, word := Pack(kind, msgid), buf := buf, bufsz := bufsz, sends := sends,
       begins := t.begins + 1)
  }

  function Goto(sh: Shared, t: Task, pc: Pc): (Shared, Task) {
    (sh, t.(pc := pc))
  }

  function Store(sh: Shared, cmd: Cmd, t: Task, pc: Pc): (Shared, Task) {
    (sh.(cmd := cmd), t.(pc := pc))
  }

  /** Leaving lmqtt_cmd_finish through its common exit. */
  function Exit(sh: Shared, t: Task, rc: int): (Shared, Task) {
    (sh, t.(pc := PC_CLEAR_BUSY, rc := rc))
  }

  function TimeOut(sh: Shared, t: Task, stage: Stage): (Shared, Task) {
    Exit(sh.(cmd := sh.cmd.(stage := stage)), t, ERR_TIMEOUT)
  }

  function ResetStep(sh: Shared, t: Task): (Shared, Task) {
    var c := sh.cmd;
    if t.pc == PC_RESET_RESULT then Store(sh, c.(result := -1), t, PC_RESET_EXTRA)
    else if t.pc == PC_RESET_EXTRA then Store(sh, c.(extra := 0), t, PC_RESET_DELIVERED)
    else if t.pc == PC_RESET_DELIVERED then Store(sh, c.(delivered := IDLE), t, PC_RESET_GOT)
    else if t.pc == PC_RESET_GOT then Store(sh, c.(got := false), t, PC_RESET_ACKED)
    else if t.pc == PC_RESET_ACKED then Store(sh, c.(acked := false), t, PC_RESET_REJECTED)
    else if t.pc == PC_RESET_REJECTED then Store(sh, c.(rejected := false), t, PC_RESET_STAGE)
    else if t.pc == PC_RESET_STAGE then Store(sh, c.(stage := StageNone), t, PC_SET_RAW_OUT)
    else (sh, t)
  }

  function OpenStep(sh: Shared, t: Task): (Shared, Task) {
    var c := sh.cmd;
    if t.pc == PC_SET_RAW_OUT then Goto(sh.(rawOut := t.buf), t, PC_SET_RAW_OUTSZ)
    else if t.pc == PC_SET_RAW_OUTSZ then Goto(sh.(rawOutsz := t.bufsz), t, PC_SET_RAW_LEN)
    else if t.pc == PC_SET_RAW_LEN then Goto(sh.(rawLen := 0), t, PC_SET_RAW_LINES)
    else if t.pc == PC_SET_RAW_LINES then Goto(sh.(rawLines := 0), t, PC_CLEAR_WRITTEN)
    else if t.pc == PC_CLEAR_WRITTEN then Store(sh, c.(written := false), t, PC_SET_BUSY)
    else if t.pc == PC_SET_BUSY then Store(sh, c.(busy := true), t, PC_PUBLISH)
    else if t.pc == PC_PUBLISH then Store(sh, c.(pending := t.word), t, PC_SEM_RESET)
    else if t.pc == PC_SEM_RESET then Store(sh, c.(token := false), t, PC_SENDING)
    else (sh, t)
  }

  /** Waiting for the acceptance. */
  function AckStep(sh: Shared, t: Task): (Shared, Task) {
    var c := sh.cmd;
    if t.pc == PC_RAISE_WRITTEN then Store(sh, c.(written := true), t, PC_READ_PEND)
    else if t.pc == PC_READ_PEND then (sh, t.(pc := PC_TAKE_ACK, pend := c.pending))
    else if t.pc == PC_TAKE_ACK then
      (if c.token then Store(sh, c.(token := false), t, PC_READ_REJECTED)
       else Goto(sh, t, PC_ACK_GOT))
    else if t.pc == PC_ACK_GOT then
      Goto(sh, t, if c.got then PC_ACK_DELIVERED else PC_STORE_ACK_TMO)
    else if t.pc == PC_ACK_DELIVERED then
      Goto(sh, t, if c.delivered == t.pend then PC_READ_REJECTED else PC_STORE_ACK_TMO)
    else if t.pc == PC_STORE_ACK_TMO then TimeOut(sh, t, AckTmo)
    else (sh, t)
  }

  /** Judging the acceptance and waiting for the result URC. */
  function UrcStep(sh: Shared, t: Task): (Shared, Task) {
    var c := sh.cmd;
    if t.pc == PC_READ_REJECTED then
      if c.rejected then Exit(sh, t, ERR_AT)
      else if NoResultUrc(t.pend) then Exit(sh, t, LMQTT_OK)
      else Goto(sh, t, PC_NEED_GOT)
    else if t.pc == PC_NEED_GOT then
      Goto(sh, t, if c.got then PC_NEED_DELIVERED else PC_SEM_RESET2)
    else if t.pc == PC_NEED_DELIVERED then
      Goto(sh, t, if c.delivered == t.pend then PC_CLAIM_GOT else PC_SEM_RESET2)
    else if t.pc == PC_SEM_RESET2 then Store(sh, c.(token := false), t, PC_TAKE_URC)
    else if t.pc == PC_TAKE_URC then
      (if c.token then Store(sh, c.(token := false), t, PC_CLAIM_GOT)
       else Goto(sh, t, PC_URC_GOT))
    else if t.pc == PC_URC_GOT then
      Goto(sh, t, if c.got then PC_URC_DELIVERED else PC_STORE_URC_TMO)
    else if t.pc == PC_URC_DELIVERED then
      Goto(sh, t, if c.delivered == t.pend then PC_CLAIM_GOT else PC_STORE_URC_TMO)
    else if t.pc == PC_STORE_URC_TMO then TimeOut(sh, t, UrcTmo)
    else (sh, t)
  }

  /** Claiming the result slot. */
  function ClaimStep(sh: Shared, t: Task): (Shared, Task) {
    var c := sh.cmd;
    if t.pc == PC_CLAIM_GOT then
      Goto(sh, t, if c.got then PC_CLAIM_DELIVERED else PC_STORE_STALE)
    else if t.pc == PC_CLAIM_DELIVERED then
      Goto(sh, t, if c.delivered == t.pend then PC_READ_RESULT else PC_STORE_STALE)
    else if t.pc == PC_STORE_STALE then TimeOut(sh, t, StaleSlot)
    else if t.pc == PC_READ_RESULT then (sh, t.(pc := PC_READ_EXTRA, outResult := c.result))
    else if t.pc == PC_READ_EXTRA then (sh, t.(pc := PC_CLEAR_BUSY, outExtra := c.extra, rc := LMQTT_OK))
    else (sh, t)
  }

  /** The sends, and lmqtt_cmd_abort; `fails` decides whether a pending write falls short. */
  function OuterStep(sh: Shared, t: Task, fails: bool): (Shared, Task) {
    if t.pc == PC_SENDING then
      if t.sends == 0 then Goto(sh, t, PC_RAISE_WRITTEN)
      else if fails then Exit(sh, t, ERR_IO)
      else (sh, t.(sends := t.sends - 1))
    else if t.pc == PC_CLEAR_BUSY then Store(sh, sh.cmd.(busy := false), t, PC_CLEAR_PENDING)
    else if t.pc == PC_CLEAR_PENDING then Store(sh, sh.cmd.(pending := IDLE), t, PC_UNLOCK)
    else if t.pc == PC_UNLOCK then (sh, t.(pc := PC_IDLE, aborts := t.aborts + 1))
    else (sh, t)
  }

  /**
   * One step of the task that holds the lock. PC_UNLOCK only leaves the critical region here: the lock
   * itself belongs to the system.
   */
  function CmdStep(sh: Shared, t: Task, fails: bool): (Shared, Task) {
    if t.pc <= PC_RESET_STAGE then ResetStep(sh, t)
    else if t.pc <= PC_SEM_RESET then OpenStep(sh, t)
    else if t.pc == PC_SENDING || t.pc >= PC_CLEAR_BUSY then OuterStep(sh, t, fails)
    else if t.pc <= PC_STORE_ACK_TMO then AckStep(sh, t)
    else if t.pc <= PC_STORE_URC_TMO then UrcStep(sh, t)
    else ClaimStep(sh, t)
  }

  // ---- the lock: any number of command tasks ----

  /** Who is inside a command transaction. `owner` is the holder of the mutex. */
  predicate Exclusive(tasks: seq<Task>, owner: Option<nat>) {
    && (forall i | 0 <= i < |tasks| :: tasks[i].pc != PC_IDLE <==> owner == Some(i))
    && (owner.Some? ==> owner.value < |tasks|)
    && (forall i | 0 <= i < |tasks| :: Balanced(tasks[i]))
  }

  /** Every begin is matched by exactly one abort, except while the transaction is running. */
  predicate Balanced(t: Task) {
    t.begins == t.aborts + (if t.pc == PC_IDLE then 0 else 1)
  }

  /** busy or a nonzero pairing word only while a task is inside, and then they are that task's. */
  predicate Window(c: Cmd, t: Task) {
    && (c.busy <==> PC_SET_BUSY < t.pc <= PC_CLEAR_BUSY)
    && c.pending == (if PC_PUBLISH < t.pc <= PC_CLEAR_PENDING then t.word else IDLE)
    && (PC_CLEAR_WRITTEN < t.pc <= PC_RAISE_WRITTEN ==> !c.written)
    && (PC_RAISE_WRITTEN < t.pc < PC_CLEAR_BUSY ==> c.written)
    && (PC_READ_PEND < t.pc < PC_CLEAR_BUSY ==> t.pend == t.word)
    && (PC_RESET_STAGE < t.pc < PC_CLEAR_BUSY ==> c.stage == StageNone)
    && (PC_CLEAR_BUSY <= t.pc ==> (t.rc == ERR_TIMEOUT <==> c.stage != StageNone))
    && (PC_CLEAR_BUSY <= t.pc ==> t.rc in {LMQTT_OK, ERR_TIMEOUT, ERR_AT, ERR_IO})
    && (PC_SENDING < t.pc < PC_CLEAR_BUSY ==> t.sends == 0)
    && (PC_CLEAR_BUSY <= t.pc ==> (t.rc == ERR_IO <==> t.sends > 0) && (t.rc == ERR_IO <==> !c.written))
  }

  predicate Closed(c: Cmd) {
    !c.busy && c.pending == IDLE
  }

  predicate Guarded(c: Cmd, tasks: seq<Task>, owner: Option<nat>) {
    && Exclusive(tasks, owner)
    && if owner.None? then Closed(c) else Window(c, tasks[owner.value])
  }

  /** What a step leaves of a task's identity, and that it only moves forward. */
  predicate Advances(t: Task, t': Task) {
    && t'.word == t.word && t'.buf == t.buf && t'.bufsz == t.bufsz
    && t'.begins == t.begins && t'.aborts == t.aborts && t'.pc >= t.pc
  }

  lemma ResetKeepsWindow(sh: Shared, t: Task)
    requires PC_IDLE < t.pc <= PC_RESET_STAGE && Window(sh.cmd, t)
    ensures var (sh', t') := ResetStep(sh, t); Window(sh'.cmd, t') && Advances(t, t')
  {
  }

  lemma OpenKeepsWindow(sh: Shared, t: Task)
    requires PC_SET_RAW_OUT <= t.pc <= PC_SEM_RESET && Window(sh.cmd, t)
    ensures var (sh', t') := OpenStep(sh, t); Window(sh'.cmd, t') && Advances(t, t')
  {
  }

  lemma AckKeepsWindow(sh: Shared, t: Task)
    requires PC_RAISE_WRITTEN <= t.pc <= PC_STORE_ACK_TMO && Window(sh.cmd, t)
    ensures var (sh', t') := AckStep(sh, t); Window(sh'.cmd, t') && Advances(t, t')
  {
  }

  lemma UrcKeepsWindow(sh: Shared, t: Task)
    requires PC_READ_REJECTED <= t.pc <= PC_STORE_URC_TMO && Window(sh.cmd, t)
    ensures var (sh', t') := UrcStep(sh, t); Window(sh'.cmd, t') && Advances(t, t')
  {
  }

  lemma ClaimKeepsWindow(sh: Shared, t: Task)
    requires PC_CLAIM_GOT <= t.pc <= PC_READ_EXTRA && Window(sh.cmd, t)
    ensures var (sh', t') := ClaimStep(sh, t); Window(sh'.cmd, t') && Advances(t, t')
  {
  }

  lemma OuterKeepsWindow(sh: Shared, t: Task, fails: bool)
    requires t.pc == PC_SENDING || t.pc >= PC_CLEAR_BUSY
    requires Window(sh.cmd, t)
    ensures var (sh', t') := OuterStep(sh, t, fails);
            if t.pc == PC_UNLOCK then t' == t.(pc := PC_IDLE, aborts := t.aborts + 1) && Closed(sh'.cmd)
            else Window(sh'.cmd, t') && Advances(t, t')
  {
  }

  lemma StepKeepsWindow(sh: Shared, t: Task, fails: bool)
    requires t.pc != PC_IDLE && Window(sh.cmd, t)
    ensures var (sh', t') := CmdStep(sh, t, fails);
            if t.pc == PC_UNLOCK then t' == t.(pc := PC_IDLE, aborts := t.aborts + 1) && Closed(sh'.cmd)
            else t'.pc != PC_IDLE && Window(sh'.cmd, t') && Advances(t, t')
  {
    hide ResetStep, OpenStep, AckStep, UrcStep, ClaimStep, OuterStep, Window;
    if t.pc <= PC_RESET_STAGE {
      ResetKeepsWindow(sh, t);
    } else if t.pc <= PC_SEM_RESET {
      OpenKeepsWindow(sh, t);
    } else if t.pc == PC_SENDING || t.pc >= PC_CLEAR_BUSY {
      OuterKeepsWindow(sh, t, fails);
    } else if t.pc <= PC_STORE_ACK_TMO {
      AckKeepsWindow(sh, t);
    } else if t.pc <= PC_STORE_URC_TMO {
      UrcKeepsWindow(sh, t);
    } else {
      ClaimKeepsWindow(sh, t);
    }
  }

  lemma EnterOpensWindow(c: Cmd, t: Task, kind: Kind, msgid: MsgId, buf: Option<nat>, bufsz: nat, sends: nat)
    requires Closed(c)
    ensures Window(c, Enter(t, kind, msgid, buf, bufsz, sends))
  {
  }

  /** From the publication on, a command step changes nothing of the RAW destination. */
  lemma StepTouchesCmdOnly(sh: Shared, t: Task, fails: bool)
    ensures var (sh', t') := CmdStep(sh, t, fails);
            && sh'.mem == sh.mem && sh'.fault == sh.fault
            && (t.pc > PC_SET_RAW_LINES ==> sh'.rawOut == sh.rawOut && sh'.rawOutsz == sh.rawOutsz
                                            && sh'.rawLen == sh.rawLen && sh'.rawLines == sh.rawLines)
  {
  }

  // ---- a command nobody answers ----

  predicate Unanswered(c: Cmd, t: Task) {
    && PC_IDLE < t.pc && !c.got && !c.token && t.sends == 0
    && (t.pc <= PC_ACK_GOT || t.pc == PC_STORE_ACK_TMO || PC_CLEAR_BUSY <= t.pc)
  }

  predicate UnansweredEffect(sh: Shared, t: Task, sh': Shared, t': Task) {
    && !sh'.cmd.got && !sh'.cmd.token && t'.sends == 0
    && t'.word == t.word && t'.buf == t.buf && t'.bufsz == t.bufsz
    && t'.pc == (if t.pc == PC_ACK_GOT then PC_STORE_ACK_TMO
                 else if t.pc == PC_STORE_ACK_TMO then PC_CLEAR_BUSY else t.pc + 1)
  }

  lemma UnansweredBegin(sh: Shared, t: Task)
    requires Unanswered(sh.cmd, t)
    ensures t.pc <= PC_RESET_STAGE ==> var (sh', t') := ResetStep(sh, t); UnansweredEffect(sh, t, sh', t')
    ensures PC_RESET_STAGE < t.pc <= PC_SEM_RESET ==>
              var (sh', t') := OpenStep(sh, t); UnansweredEffect(sh, t, sh', t')
  {
  }

  lemma UnansweredEnd(sh: Shared, t: Task)
    requires Unanswered(sh.cmd, t)
    ensures PC_SENDING < t.pc <= PC_STORE_ACK_TMO ==>
              var (sh', t') := AckStep(sh, t); UnansweredEffect(sh, t, sh', t')
    ensures t.pc == PC_SENDING || PC_CLEAR_BUSY <= t.pc < PC_UNLOCK ==>
              var (sh', t') := OuterStep(sh, t, false); UnansweredEffect(sh, t, sh', t')
  {
  }

  /** A command that gets no token and no result walks straight into its acknowledgement timeout. */
  lemma UnansweredStep(sh: Shared, t: Task)
    requires Unanswered(sh.cmd, t) && t.pc < PC_UNLOCK
    ensures var (sh', t') := CmdStep(sh, t, false); UnansweredEffect(sh, t, sh', t')
  {
    hide UnansweredEffect, ResetStep, OpenStep, AckStep, UrcStep, ClaimStep, OuterStep;
    UnansweredBegin(sh, t);
    UnansweredEnd(sh, t);
  }
}
