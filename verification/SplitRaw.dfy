/**
 * RAW capture with the append itself preemptible: the receive task decides to append on a pairing
 * word it has read, then checks the room, copies the line and updates the length, each time through
 * the shared destination fields. All other lines are dispatched in one step.
 */
module SplitRaw {
  import opened Basics
  import opened CStrings
  import opened PairingWord
  import opened LineSyntax
  import opened EngineState
  import opened CommandSteps

  type RxPc = p: nat | p <= 5

  const RX_IDLE: RxPc := 0
  const RX_FIT: RxPc := 1
  const RX_COPY: RxPc := 2
  const RX_ADVANCE: RxPc := 3
  const RX_TERMINATE: RxPc := 4
  const RX_COUNT: RxPc := 5

  /** The statement of lmqtt_raw_append the receive task executes next, and the line it appends. */
  datatype Rx = Rx(pc: RxPc, text: string)

  datatype Sys = Sys(sh: Shared, tasks: seq<Task>, owner: Option<nat>, rx: Rx)

  datatype Choice =
    | Start(task: nat, kind: Kind, msgid: MsgId, buf: Option<nat>, bufsz: nat, sends: nat)
    | Run(task: nat, fails: bool)
    | Receive(line: string)
    | RunRx

  function Contents(sh: Shared): string {
    if sh.rawOut.Some? && sh.rawOut.value in sh.mem then sh.mem[sh.rawOut.value] else ""
  }

  /** A store through raw_out + raw_len; one outside the buffer raises `fault`. */
  function StoreRaw(sh: Shared, text: string): Shared {
    if sh.rawOut.None? || sh.rawOut.value !in sh.mem || sh.rawLen + |text| > |Contents(sh)|
    then sh.(fault := true)
    else sh.(mem := sh.mem[sh.rawOut.value := Overwrite(Contents(sh), sh.rawLen, text)])
  }

  predicate Fits(sh: Shared, text: string) {
    sh.rawOut.Some? && sh.rawLen + |text| + 1 <= sh.rawOutsz
  }

  function RxStep(s: Sys): Sys {
    var sh, rx := s.sh, s.rx;
    if rx.pc == RX_FIT then s.(rx := rx.(pc := if Fits(sh, rx.text) then RX_COPY else RX_IDLE))
    else if rx.pc == RX_COPY then s.(rx := rx.(pc := RX_ADVANCE), sh := StoreRaw(sh, rx.text))
    else if rx.pc == RX_ADVANCE then s.(rx := rx.(pc := RX_TERMINATE), sh := sh.(rawLen := sh.rawLen + |rx.text|))
    else if rx.pc == RX_TERMINATE then
      s.(rx := rx.(pc := RX_COUNT), sh := StoreRaw(sh, [NUL]).(rawLen := sh.rawLen + 1))
    else if rx.pc == RX_COUNT then
      s.(rx := rx.(pc := RX_IDLE), sh := sh.(rawLines := (sh.rawLines + 1) % 0x1_0000))
    else s
  }

  function BeginLine(s: Sys, l: Line): Sys {
    if l.Ordinary? && KindOf(s.sh.cmd.pending) == KIND_RAW then s.(rx := Rx(RX_FIT, l.text))
    else s.(sh := s.sh.(cmd := CmdAfter(s.sh.cmd, l)))
  }

  predicate CanStart(s: Sys, c: Choice)
    requires c.Start?
  {
    && c.task < |s.tasks| && s.tasks[c.task].pc == PC_IDLE && s.owner.None?
    && (c.buf.Some? ==> c.buf.value in s.sh.mem && c.bufsz <= |s.sh.mem[c.buf.value]|)
  }

  /** One step of the schedule; a choice that is not enabled changes nothing. */
  function Step(s: Sys, c: Choice): Sys {
    match c
    case Start(i, kind, msgid, buf, bufsz, sends) =>
      if !CanStart(s, c) then s
      else s.(tasks := s.tasks[i := Enter(s.tasks[i], kind, msgid, buf, bufsz, sends)], owner := Some(i))
    case Run(i, fails) =>
      if i >= |s.tasks| || s.owner != Some(i) then s else
        var (sh', t') := CmdStep(s.sh, s.tasks[i], fails);
        s.(sh := sh', tasks := s.tasks[i := t'], owner := if s.tasks[i].pc == PC_UNLOCK then None else s.owner)
    case Receive(line) => if s.rx.pc == RX_IDLE then BeginLine(s, Classify(line)) else s
    case RunRx => RxStep(s)
  }

  function Steps(s: Sys, schedule: seq<Choice>): Sys {
    if schedule == [] then s
    else Step(Steps(s, schedule[..|schedule| - 1]), schedule[|schedule| - 1])
  }

  function Init(n: nat, mem: map<nat, string>): Sys {
    Sys(Shared(Cmd(IDLE, 0, 0, IDLE, false, false, false, false, false, StageNone, false),
               None, 0, 0, 0, mem, false),
        seq(n, i => IDLE_TASK), None, Rx(RX_IDLE, ""))
  }

  /** An append that is left alone is lmqtt_raw_append as a whole. */
  lemma AppendUninterrupted(s: Sys, text: string)
    requires s.rx == Rx(RX_FIT, text) && s.sh.rawOut.Some? && s.sh.rawOut.value in s.sh.mem
    requires s.sh.rawLen <= s.sh.rawOutsz <= |Contents(s.sh)|
    ensures var s' := RxStep(RxStep(RxStep(RxStep(RxStep(s)))));
            var r := RawFields(Some(Contents(s.sh)), s.sh.rawOutsz, s.sh.rawLen, s.sh.rawLines);
            && s'.rx.pc == RX_IDLE && s'.sh.rawOut == s.sh.rawOut && s'.sh.fault == s.sh.fault
            && RawFields(Some(Contents(s'.sh)), s'.sh.rawOutsz, s'.sh.rawLen, s'.sh.rawLines) == RawAppend(r, text)
  {
    if Fits(s.sh, text) {
      OverwriteAdjacent(Contents(s.sh), s.sh.rawLen, text, [NUL]);
    }
    hide Overwrite;
  }

  // ---- the condition ----

  /** The receive task is inside an append that can still store bytes. */
  predicate Appending(rx: Rx) {
    RX_FIT <= rx.pc <= RX_TERMINATE
  }

  /** A command returns while the receive task is inside an append. */
  predicate Abandons(s: Sys, c: Choice) {
    && c.Run? && c.task < |s.tasks| && s.owner == Some(c.task)
    && s.tasks[c.task].pc == PC_UNLOCK && Appending(s.rx)
  }

  predicate Patient(s: Sys, schedule: seq<Choice>) {
    schedule == [] ||
    (Patient(s, schedule[..|schedule| - 1])
     && !Abandons(Steps(s, schedule[..|schedule| - 1]), schedule[|schedule| - 1]))
  }

  // ---- with it every byte stays in the running command's buffer ----

  /** The destination fields as far as begin has stored them, and room for what is being appended. */
  predicate Home(sh: Shared, t: Task, rx: Rx) {
    && (t.buf.Some? ==> t.buf.value in sh.mem && t.bufsz <= |sh.mem[t.buf.value]|)
    && (PC_SET_RAW_OUT < t.pc ==> sh.rawOut == t.buf)
    && (PC_SET_RAW_OUTSZ < t.pc ==> sh.rawOutsz == t.bufsz)
    && (PC_SET_RAW_LEN < t.pc && t.buf.Some? ==> sh.rawLen <= t.bufsz)
    && (Appending(rx) ==> KindOf(t.word) == KIND_RAW && PC_PUBLISH < t.pc)
    && (RX_COPY <= rx.pc <= RX_ADVANCE ==> Fits(sh, rx.text))
    && (rx.pc == RX_TERMINATE ==> sh.rawOut.Some? && sh.rawLen + 1 <= sh.rawOutsz)
  }

  predicate Inv(s: Sys) {
    && Guarded(s.sh.cmd, s.tasks, s.owner) && !s.sh.fault
    && if s.owner.None? then !Appending(s.rx) else Home(s.sh, s.tasks[s.owner.value], s.rx)
  }

  lemma RxKeepsInv(s: Sys)
    requires Inv(s)
    ensures Inv(RxStep(s))
  {
    hide Guarded, Overwrite;
    GuardedOwner(s.sh.cmd, s.tasks, s.owner);
  }

  lemma GuardedOwner(c: Cmd, tasks: seq<Task>, owner: Option<nat>)
    requires Guarded(c, tasks, owner)
    ensures owner.Some? ==> owner.value < |tasks| && tasks[owner.value].pc != PC_IDLE && Window(c, tasks[owner.value])
    ensures owner.None? ==> Closed(c)
  {
    hide Window;
  }

  lemma RunKeepsInv(s: Sys, i: nat, fails: bool)
    requires Inv(s) && i < |s.tasks| && s.owner == Some(i) && !Abandons(s, Run(i, fails))
    ensures Inv(Step(s, Run(i, fails)))
  {
    hide Window;
    GuardedOwner(s.sh.cmd, s.tasks, s.owner);
    StepKeepsWindow(s.sh, s.tasks[i], fails);
    StepTouchesCmdOnly(s.sh, s.tasks[i], fails);
    StepKeepsHome(s.sh, s.tasks[i], fails, s.rx);
    hide CmdStep, Home;
  }

  lemma StepKeepsHome(sh: Shared, t: Task, fails: bool, rx: Rx)
    requires PC_IDLE < t.pc && Home(sh, t, rx) && Window(sh.cmd, t)
    ensures var (sh', t') := CmdStep(sh, t, fails); t.pc < PC_UNLOCK ==> Home(sh', t', rx)
  {
    hide Window;
    StepTouchesCmdOnly(sh, t, fails);
    StepKeepsWindow(sh, t, fails);
    if t.pc <= PC_SEM_RESET {
      hide AckStep, UrcStep, ClaimStep, OuterStep;
    } else {
      hide CmdStep;
    }
  }

  lemma ReceiveKeepsInv(s: Sys, l: Line)
    requires Inv(s) && s.rx.pc == RX_IDLE
    ensures Inv(BeginLine(s, l))
  {
    GuardedOwner(s.sh.cmd, s.tasks, s.owner);
    hide Exclusive, IsStale;
  }

  lemma StartKeepsInv(s: Sys, c: Choice)
    requires Inv(s) && c.Start?
    ensures Inv(Step(s, c))
  {
    if CanStart(s, c) {
      EnterOpensWindow(s.sh.cmd, s.tasks[c.task], c.kind, c.msgid, c.buf, c.bufsz, c.sends);
    }
    hide Window;
  }

  lemma StepKeepsInv(s: Sys, c: Choice)
    requires Inv(s) && !Abandons(s, c)
    ensures Inv(Step(s, c))
  {
    hide Inv, RxStep, BeginLine, CmdStep, Classify, Abandons;
    if c.Start? {
      StartKeepsInv(s, c);
    } else if c.Run? && c.task < |s.tasks| && s.owner == Some(c.task) {
      RunKeepsInv(s, c.task, c.fails);
    } else if c.Receive? && s.rx.pc == RX_IDLE {
      ReceiveKeepsInv(s, Classify(c.line));
    } else if c.RunRx? {
      RxKeepsInv(s);
    }
  }

  lemma {:induction false} Reachable(n: nat, mem: map<nat, string>, schedule: seq<Choice>)
    requires Patient(Init(n, mem), schedule)
    ensures Inv(Steps(Init(n, mem), schedule))
  {
    hide Step, Abandons;
    if schedule == [] {
      InitIsGood(n, mem);
    } else {
      Reachable(n, mem, schedule[..|schedule| - 1]);
      StepKeepsInv(Steps(Init(n, mem), schedule[..|schedule| - 1]), schedule[|schedule| - 1]);
    }
  }

  lemma InitIsGood(n: nat, mem: map<nat, string>)
    ensures Inv(Init(n, mem))
  {
  }

  /** What a receive step may write: the rest of the buffer of the task that holds the lock. */
  predicate WritesHome(s: Sys, s': Sys, b: nat)
    requires b in s.sh.mem && b in s'.sh.mem
  {
    s'.sh.mem[b] != s.sh.mem[b] ==>
      && s.owner.Some? && s.owner.value < |s.tasks|
      && var t := s.tasks[s.owner.value];
         && KindOf(t.word) == KIND_RAW && t.buf == Some(b) && PC_PUBLISH < t.pc
         && s.sh.rawLen < t.bufsz <= |s.sh.mem[b]| == |s'.sh.mem[b]|
         && s'.sh.mem[b][..s.sh.rawLen] == s.sh.mem[b][..s.sh.rawLen]
         && s'.sh.mem[b][t.bufsz..] == s.sh.mem[b][t.bufsz..]
  }

  /**
   * RAW destination safety with the append split: as long as no command returns while the receive
   * task is inside an append, every byte it stores lies in the buffer of the RAW command that holds
   * the lock, behind what is captured already and below the size that command gave.
   */
  lemma {:induction false} AppendStaysHome(n: nat, mem: map<nat, string>, schedule: seq<Choice>, b: nat)
    requires Patient(Init(n, mem), schedule)
    ensures var s := Steps(Init(n, mem), schedule);
            && !s.sh.fault && !RxStep(s).sh.fault
            && (b in s.sh.mem ==> b in RxStep(s).sh.mem && WritesHome(s, RxStep(s), b))
  {
    hide Step, Steps, Patient, Guarded;
    Reachable(n, mem, schedule);
    var s := Steps(Init(n, mem), schedule);
    RxKeepsInv(s);
    GuardedOwner(s.sh.cmd, s.tasks, s.owner);
    if b in s.sh.mem {
      RxWritesHome(s, b);
    }
  }

  lemma RxWritesHome(s: Sys, b: nat)
    requires Inv(s) && b in s.sh.mem && (s.owner.Some? ==> s.owner.value < |s.tasks|)
    ensures b in RxStep(s).sh.mem && WritesHome(s, RxStep(s), b)
  {
    hide Guarded, Overwrite;
    if s.rx.pc == RX_COPY || s.rx.pc == RX_TERMINATE {
      var text := if s.rx.pc == RX_COPY then s.rx.text else [NUL];
      StaysAround(Contents(s.sh), s.sh.rawLen, text, s.sh.rawOutsz);
    }
  }

  lemma StaysAround(s: string, at: nat, text: string, size: nat)
    requires at + |text| <= size <= |s|
    ensures Overwrite(s, at, text)[..at] == s[..at]
    ensures Overwrite(s, at, text)[size..] == s[size..]
  {
  }

  /** The next receive step stores a byte while no RAW window is open: nobody runs, or only begins. */
  predicate Abroad(s: Sys) {
    && (s.rx.pc == RX_COPY || s.rx.pc == RX_TERMINATE)
    && (s.owner.None? || (s.owner.value < |s.tasks| && s.tasks[s.owner.value].pc <= PC_PUBLISH))
  }

  /** While no command returns inside an append, no store is ever made outside a RAW window. */
  lemma {:induction false} PatientIsNeverAbroad(n: nat, mem: map<nat, string>, schedule: seq<Choice>)
    requires Patient(Init(n, mem), schedule)
    ensures !Abroad(Steps(Init(n, mem), schedule))
  {
    hide Step, Steps, Patient, Guarded;
    Reachable(n, mem, schedule);
  }

  // ---- and without it a store goes astray ----

  lemma StepsSnoc(s: Sys, schedule: seq<Choice>, c: Choice)
    ensures Steps(s, schedule + [c]) == Step(Steps(s, schedule), c)
  {
    hide Step;
    assert (schedule + [c])[..|schedule|] == schedule;
  }

  lemma {:induction false} StepsConcat(s: Sys, a: seq<Choice>, b: seq<Choice>)
    ensures Steps(s, a + b) == Steps(Steps(s, a), b)
    decreases |b|
  {
    hide Step;
    if b == [] {
      assert a + b == a;
    } else {
      StepsConcat(s, a, b[..|b| - 1]);
      assert (a + b)[..|a + b| - 1] == a + b[..|b| - 1];
    }
  }

  lemma OneStep(s: Sys, c: Choice)
    ensures Steps(s, [c]) == Step(s, c)
  {
    hide Step;
    assert [c][..0] == [];
    assert Steps(s, []) == s;
  }

  /** The return of the command leaves the append as it was. */
  lemma ReturnLeavesAppend(s: Sys, i: nat)
    requires Abandons(s, Run(i, false))
    ensures Step(s, Run(i, false)) ==
            s.(tasks := Step(s, Run(i, false)).tasks, owner := None)
    ensures |Step(s, Run(i, false)).tasks| == |s.tasks| && Step(s, Run(i, false)).tasks[i].pc == PC_IDLE
  {
  }

  /** The append will store once more, whatever its check finds: it is past it, or the line fits now. */
  predicate WillStore(s: Sys) {
    RX_COPY <= s.rx.pc <= RX_TERMINATE || (s.rx.pc == RX_FIT && Fits(s.sh, s.rx.text))
  }

  /** What the append stores next, and where. */
  function NextStore(s: Sys): (nat, string) {
    if s.rx.pc <= RX_COPY then (s.sh.rawLen, s.rx.text)
    else if s.rx.pc == RX_ADVANCE then (s.sh.rawLen + |s.rx.text|, [NUL])
    else (s.sh.rawLen, [NUL])
  }

  /**
   * From every reachable state in which a command is about to return while an append will store once
   * more, that store is made into the command's buffer after it has returned, with no command running.
   */
  lemma {:induction false} AbandonedAppendWrites(n: nat, mem: map<nat, string>, schedule: seq<Choice>, i: nat)
    requires Patient(Init(n, mem), schedule)
    requires var s := Steps(Init(n, mem), schedule); Abandons(s, Run(i, false)) && WillStore(s)
    ensures var s := Steps(Init(n, mem), schedule);
            var returned := Steps(Init(n, mem), schedule + [Run(i, false)]);
            var direct := s.rx.pc == RX_COPY || s.rx.pc == RX_TERMINATE;
            var stored := if direct then RxStep(returned) else RxStep(RxStep(returned));
            && s.tasks[i].buf.Some? && returned.owner.None? && stored.owner.None?
            && var b, (at, text) := s.tasks[i].buf.value, NextStore(s);
               && b in s.sh.mem && b in returned.sh.mem && b in stored.sh.mem
               && returned.sh.mem[b] == s.sh.mem[b] && at + |text| <= |s.sh.mem[b]|
               && stored.sh.mem[b] == Overwrite(s.sh.mem[b], at, text)
  {
    hide Step, Steps, Patient, Guarded, Overwrite;
    Reachable(n, mem, schedule);
    var s := Steps(Init(n, mem), schedule);
    StepsSnoc(Init(n, mem), schedule, Run(i, false));
    ReturnLeavesAppend(s, i);
  }

  // ---- a later command under a stalled append ----

  /**
   * Task `i` begins a command whose first write will fail, the receive task not moving: which of the
   * destination fields are its own already, and which still those found, `sz` and `len`.
   */
  predicate Preparing(s: Sys, i: nat, was: Sys, buf: Option<nat>, bufsz: nat) {
    && s.owner == Some(i) && i < |s.tasks| && s.rx == was.rx && s.sh.mem == was.sh.mem
    && s.sh.fault == was.sh.fault && |s.tasks| == |was.tasks|
    && var t := s.tasks[i];
       && t.buf == buf && t.bufsz == bufsz && t.sends == 1
       && (PC_RESET_RESULT <= t.pc <= PC_SENDING || PC_CLEAR_BUSY <= t.pc)
       && (PC_SET_RAW_OUT < t.pc ==> s.sh.rawOut == buf)
       && s.sh.rawOutsz == (if PC_SET_RAW_OUTSZ < t.pc then bufsz else was.sh.rawOutsz)
       && s.sh.rawLen == (if PC_SET_RAW_LEN < t.pc then 0 else was.sh.rawLen)
  }

  /** What each statement does to the destination fields. */
  lemma RawIsSet(sh: Shared, t: Task, fails: bool)
    ensures var (sh', t') := CmdStep(sh, t, fails);
            && (t.pc == PC_PUBLISH ==> sh'.cmd.pending == t.word)
            && sh'.rawOut == (if t.pc == PC_SET_RAW_OUT then t.buf else sh.rawOut)
            && sh'.rawOutsz == (if t.pc == PC_SET_RAW_OUTSZ then t.bufsz else sh.rawOutsz)
            && sh'.rawLen == (if t.pc == PC_SET_RAW_LEN then 0 else sh.rawLen)
  {
    if t.pc <= PC_SEM_RESET {
      hide AckStep, UrcStep, ClaimStep, OuterStep;
    } else {
      StepTouchesCmdOnly(sh, t, fails);
      hide CmdStep;
    }
  }

  lemma FailingStep(sh: Shared, t: Task)
    requires t.sends > 0 && (PC_RESET_RESULT <= t.pc <= PC_SENDING || PC_CLEAR_BUSY <= t.pc < PC_UNLOCK)
    ensures var (sh', t') := CmdStep(sh, t, true);
            && t'.buf == t.buf && t'.bufsz == t.bufsz && t'.sends == t.sends
            && t'.pc == (if t.pc == PC_SENDING then PC_CLEAR_BUSY else t.pc + 1)
  {
    hide AckStep, UrcStep, ClaimStep;
    if t.pc <= PC_RESET_DELIVERED {
    } else if t.pc <= PC_RESET_STAGE {
    } else if t.pc <= PC_SET_RAW_LINES {
    } else if t.pc <= PC_SEM_RESET {
    }
  }

  lemma PrepareStep(s: Sys, i: nat, was: Sys, buf: Option<nat>, bufsz: nat)
    requires Preparing(s, i, was, buf, bufsz) && s.tasks[i].pc < PC_UNLOCK
    ensures var s' := Step(s, Run(i, true));
            && Preparing(s', i, was, buf, bufsz) && s'.tasks[i].pc > s.tasks[i].pc
            && (s.tasks[i].pc < PC_SENDING ==> s'.tasks[i].pc == s.tasks[i].pc + 1)
  {
    hide CmdStep;
    RawIsSet(s.sh, s.tasks[i], true);
    FailingStep(s.sh, s.tasks[i]);
    StepTouchesCmdOnly(s.sh, s.tasks[i], true);
  }

  lemma RunPreparing(s: Sys, i: nat, was: Sys, buf: Option<nat>, bufsz: nat, target: Pc)
    returns (schedule: seq<Choice>)
    requires Preparing(s, i, was, buf, bufsz) && s.tasks[i].pc <= target
    requires target == PC_SET_RAW_OUTSZ || target == PC_UNLOCK
    ensures Preparing(Steps(s, schedule), i, was, buf, bufsz) && Steps(s, schedule).tasks[i].pc == target
    decreases PC_UNLOCK - s.tasks[i].pc
  {
    hide Step, Preparing;
    PreparingTask(s, i, was, buf, bufsz);
    if s.tasks[i].pc == target {
      schedule := [];
    } else {
      PrepareStep(s, i, was, buf, bufsz);
      PreparingTask(Step(s, Run(i, true)), i, was, buf, bufsz);
      var rest := RunPreparing(Step(s, Run(i, true)), i, was, buf, bufsz, target);
      OneStep(s, Run(i, true));
      StepsConcat(s, [Run(i, true)], rest);
      schedule := [Run(i, true)] + rest;
    }
  }

  lemma PreparingTask(s: Sys, i: nat, was: Sys, buf: Option<nat>, bufsz: nat)
    requires Preparing(s, i, was, buf, bufsz)
    ensures i < |s.tasks| && s.tasks[i].pc <= PC_UNLOCK
  {
  }

  /** An idle task begins a command with the given destination and gets as far as `target`. */
  lemma Prepare(s: Sys, i: nat, buf: Option<nat>, bufsz: nat, target: Pc) returns (schedule: seq<Choice>)
    requires i < |s.tasks| && s.tasks[i].pc == PC_IDLE && s.owner.None?
    requires buf.Some? ==> buf.value in s.sh.mem && bufsz <= |s.sh.mem[buf.value]|
    requires target == PC_SET_RAW_OUTSZ || target == PC_UNLOCK
    ensures Preparing(Steps(s, schedule), i, s, buf, bufsz) && Steps(s, schedule).tasks[i].pc == target
  {
    hide Steps;
    var start := Start(i, KIND_RAW, 0, buf, bufsz, 1);
    var rest := RunPreparing(Step(s, start), i, s, buf, bufsz, target);
    OneStep(s, start);
    StepsConcat(s, [start], rest);
    schedule := [start] + rest;
  }

  /** A RAW command without a buffer whose write fails: all it leaves behind is its size. */
  lemma LeaveSize(s: Sys, i: nat, size: nat) returns (schedule: seq<Choice>)
    requires i < |s.tasks| && s.tasks[i].pc == PC_IDLE && s.owner.None?
    ensures var s' := Steps(s, schedule);
            && |s'.tasks| == |s.tasks| && s'.tasks[i].pc == PC_IDLE && s'.owner.None?
            && s'.rx == s.rx && s'.sh.mem == s.sh.mem && s'.sh.fault == s.sh.fault
            && s'.sh.rawOutsz == size && s'.sh.rawLen == 0
  {
    hide Steps, Step;
    var a := Prepare(s, i, None, size, PC_UNLOCK);
    StepsSnoc(s, a, Run(i, true));
    Unlocks(Steps(s, a), i, s, size);
    schedule := a + [Run(i, true)];
  }

  lemma Unlocks(s: Sys, i: nat, was: Sys, size: nat)
    requires Preparing(s, i, was, None, size) && s.tasks[i].pc == PC_UNLOCK
    ensures var s' := Step(s, Run(i, true));
            && |s'.tasks| == |was.tasks| && s'.tasks[i].pc == PC_IDLE && s'.owner.None?
            && s'.rx == was.rx && s'.sh.mem == was.sh.mem && s'.sh.fault == was.sh.fault
            && s'.sh.rawOutsz == size && s'.sh.rawLen == 0
  {
    hide ResetStep, OpenStep, AckStep, UrcStep, ClaimStep;
  }

  /** A stalled check is led past: a size is left behind, then a begin has stored only its buffer. */
  lemma PassTheCheck(s: Sys, i: nat, b: nat) returns (schedule: seq<Choice>)
    requires i < |s.tasks| && s.tasks[i].pc == PC_IDLE && s.owner.None? && b in s.sh.mem && s.rx.pc == RX_FIT
    ensures var s' := Steps(s, schedule);
            && Abroad(s') && s'.rx == s.rx.(pc := RX_COPY) && s'.sh.rawOut == Some(b)
            && s'.sh.mem == s.sh.mem && s'.sh.rawLen == 0
  {
    hide Steps, Step;
    var a := LeaveSize(s, i, |s.rx.text| + 1);
    var s1 := Steps(s, a);
    var c := Prepare(s1, i, Some(b), 0, PC_SET_RAW_OUTSZ);
    var s2 := Steps(s1, c);
    StepsConcat(s, a, c);
    StepsSnoc(s, a + c, RunRx);
    ReceiveRuns(s2);
    schedule := a + c + [RunRx];
  }

  lemma ReceiveRuns(s: Sys)
    ensures Step(s, RunRx) == RxStep(s)
  {
  }

  /** A command that returns inside an append, at any point of it, lets a store go astray. */
  lemma AbandonedRun(s: Sys, i: nat, b: nat) returns (more: seq<Choice>)
    requires i < |s.tasks| && s.tasks[i].pc == PC_IDLE && s.owner.None? && b in s.sh.mem && Appending(s.rx)
    ensures Abroad(Steps(s, more))
  {
    hide Step, Steps;
    if s.rx.pc == RX_FIT {
      more := PassTheCheck(s, i, b);
    } else if s.rx.pc == RX_ADVANCE {
      more := [RunRx];
      OneStep(s, RunRx);
      ReceiveRuns(s);
    } else {
      more := [];
      NoSteps(s);
    }
  }

  lemma NoSteps(s: Sys)
    ensures Steps(s, []) == s
  {
  }

  lemma {:induction false} BuffersStay(n: nat, mem: map<nat, string>, schedule: seq<Choice>)
    ensures Steps(Init(n, mem), schedule).sh.mem.Keys == mem.Keys
  {
    hide CmdStep, Classify, CmdAfter, Overwrite;
    if schedule != [] {
      var s := Steps(Init(n, mem), schedule[..|schedule| - 1]);
      BuffersStay(n, mem, schedule[..|schedule| - 1]);
      if s.owner.Some? && s.owner.value < |s.tasks| {
        StepTouchesCmdOnly(s.sh, s.tasks[s.owner.value], false);
        StepTouchesCmdOnly(s.sh, s.tasks[s.owner.value], true);
      }
    }
  }

  /**
   * The condition is necessary: as soon as there is any buffer, from every reachable state in which a
   * command returns inside an append, wherever in it, some continuation makes a store while no RAW
   * window is open. A line that does not fit at the return is no exception: a command without a
   * buffer can leave a size behind, and the begin of the one after it stores its buffer before its size.
   */
  lemma {:induction false} AbandonedGoesAbroad(n: nat, mem: map<nat, string>, schedule: seq<Choice>, i: nat)
    requires mem != map[] && Abandons(Steps(Init(n, mem), schedule), Run(i, false))
    ensures exists more :: Abroad(Steps(Init(n, mem), schedule + [Run(i, false)] + more))
  {
    hide Step, Steps, Abroad;
    var b :| b in mem.Keys;
    BuffersStay(n, mem, schedule);
    var s := Steps(Init(n, mem), schedule);
    StepsSnoc(Init(n, mem), schedule, Run(i, false));
    ReturnLeavesAppend(s, i);
    var more := AbandonedRun(Step(s, Run(i, false)), i, b);
    StepsConcat(Init(n, mem), schedule + [Run(i, false)], more);
    assert Abroad(Steps(Init(n, mem), schedule + [Run(i, false)] + more));
  }

  // ---- and can leave its buffer ----

  /** How long a buffer must be for the next store of the append to stay inside it. */
  function Needs(s: Sys): nat {
    if s.rx.pc == RX_FIT then |s.rx.text| else NextStore(s).0 + |NextStore(s).1|
  }

  /** The append is at its copy or its terminator: one step of the receive task stores. */
  lemma OverrunsNow(s: Sys)
    requires s.rx.pc == RX_COPY || s.rx.pc == RX_TERMINATE
    requires s.sh.rawOut.Some? && s.sh.rawOut.value in s.sh.mem
    requires |s.sh.mem[s.sh.rawOut.value]| < NextStore(s).0 + |NextStore(s).1|
    ensures RxStep(s).sh.fault
  {
  }

  /** The next command's begin has stored a buffer that is too short for the stalled store. */
  lemma SwapBuffer(s: Sys, i: nat, b: nat) returns (more: seq<Choice>)
    requires i < |s.tasks| && s.tasks[i].pc == PC_IDLE && s.owner.None? && b in s.sh.mem
    requires s.rx.pc == RX_COPY || s.rx.pc == RX_TERMINATE
    requires |s.sh.mem[b]| < Needs(s)
    ensures Steps(s, more).sh.fault
  {
    hide Step, Steps;
    var a := Prepare(s, i, Some(b), 0, PC_SET_RAW_OUTSZ);
    StepsSnoc(s, a, RunRx);
    ReceiveRuns(Steps(s, a));
    OverrunsNow(Steps(s, a));
    more := a + [RunRx];
  }

  lemma OverrunRun(s: Sys, i: nat, b: nat) returns (more: seq<Choice>)
    requires i < |s.tasks| && s.tasks[i].pc == PC_IDLE && s.owner.None? && b in s.sh.mem && Appending(s.rx)
    requires |s.sh.mem[b]| < Needs(s)
    ensures Steps(s, more).sh.fault
  {
    hide Step, Steps, Abroad;
    if s.rx.pc == RX_FIT {
      var a := PassTheCheck(s, i, b);
      StepsSnoc(s, a, RunRx);
      ReceiveRuns(Steps(s, a));
      OverrunsNow(Steps(s, a));
      more := a + [RunRx];
    } else if s.rx.pc == RX_ADVANCE {
      OneStep(s, RunRx);
      ReceiveRuns(s);
      var rest := SwapBuffer(RxStep(s), i, b);
      StepsConcat(s, [RunRx], rest);
      more := [RunRx] + rest;
    } else {
      more := SwapBuffer(s, i, b);
    }
  }

  /**
   * Nor do the stores stay inside buffers then: if some buffer is too short for the next store of the
   * abandoned append, a command that begins with it lets that store run over its end.
   */
  lemma {:induction false} AbandonedCanOverrun(n: nat, mem: map<nat, string>, schedule: seq<Choice>, i: nat, b: nat)
    requires var s := Steps(Init(n, mem), schedule);
             Abandons(s, Run(i, false)) && b in s.sh.mem && |s.sh.mem[b]| < Needs(s)
    ensures exists more :: Steps(Init(n, mem), schedule + [Run(i, false)] + more).sh.fault
  {
    hide Step, Steps;
    var s := Steps(Init(n, mem), schedule);
    StepsSnoc(Init(n, mem), schedule, Run(i, false));
    ReturnLeavesAppend(s, i);
    var more := OverrunRun(Step(s, Run(i, false)), i, b);
    StepsConcat(Init(n, mem), schedule + [Run(i, false)], more);
    assert Steps(Init(n, mem), schedule + [Run(i, false)] + more).sh.fault;
  }

  // ---- such a run ----

  const TWO_BUFFERS: map<nat, string> := map[0 := "....", 1 := "."]

  /** A RAW command runs unanswered up to its statement `k`; a line is received once it is published. */
  function Stalling(k: nat): seq<Choice> {
    if k == 0 then [Start(0, KIND_RAW, 0, Some(0), 4, 0)]
    else if k == PC_SEM_RESET then Stalling(k - 1) + [Receive("xy")]
    else Stalling(k - 1) + [Run(0, false)]
  }

  /** The statement reached: the line takes one step, and the unanswered wait jumps to its exit. */
  function Reached(k: nat): nat {
    if k < PC_SEM_RESET then k + 1
    else if k <= PC_ACK_GOT then k
    else if k == PC_ACK_GOT + 1 then PC_STORE_ACK_TMO
    else k + 14
  }

  predicate Stalled(s: Sys, k: nat) {
    && |s.tasks| == 1 && s.owner == Some(0) && s.sh.mem == TWO_BUFFERS
    && s.tasks[0].pc == Reached(k) && s.tasks[0].word == Pack(KIND_RAW, 0) && s.tasks[0].sends == 0
    && s.tasks[0].buf == Some(0) && s.tasks[0].bufsz == 4 && !s.sh.cmd.got && !s.sh.cmd.token
    && (PC_SET_RAW_OUT < s.tasks[0].pc ==> s.sh.rawOut == Some(0))
    && (PC_SET_RAW_OUTSZ < s.tasks[0].pc ==> s.sh.rawOutsz == 4)
    && (PC_SET_RAW_LEN < s.tasks[0].pc ==> s.sh.rawLen == 0)
    && (PC_PUBLISH < s.tasks[0].pc <= PC_SEM_RESET ==> s.sh.cmd.pending == Pack(KIND_RAW, 0))
    && s.rx == (if k < PC_SEM_RESET then Rx(RX_IDLE, "") else Rx(RX_FIT, "xy"))
  }

  /** One statement of the unanswered command. */
  lemma StalledStep(s: Sys, k: nat)
    requires Stalled(s, k) && k < 24 && k + 1 != PC_SEM_RESET
    ensures Stalled(Step(s, Run(0, false)), k + 1) && !Abandons(s, Run(0, false))
  {
    hide Pack, CmdStep;
    var t := s.tasks[0];
    UnansweredStep(s.sh, t);
    StepTouchesCmdOnly(s.sh, t, false);
    RawIsSet(s.sh, t, false);
  }

  lemma StalledReceives(s: Sys)
    requires Stalled(s, PC_SEM_RESET - 1)
    ensures Stalled(Step(s, Receive("xy")), PC_SEM_RESET)
  {
    PackUnpack(KIND_RAW, 0);
    OrdinaryLines("xy");
    hide Pack, Classify;
  }

  lemma StallingBegins()
    ensures Stalled(Steps(Init(1, TWO_BUFFERS), Stalling(0)), 0) && Patient(Init(1, TWO_BUFFERS), Stalling(0))
  {
    hide Pack;
    var start, first := Init(1, TWO_BUFFERS), Stalling(0);
    assert first[..0] == [];
    assert Patient(start, []) && Steps(start, []) == start;
  }

  lemma PatientSnoc(s: Sys, schedule: seq<Choice>, c: Choice)
    requires Patient(s, schedule) && !Abandons(Steps(s, schedule), c)
    ensures Patient(s, schedule + [c])
  {
    hide Abandons, Steps;
    assert (schedule + [c])[..|schedule|] == schedule;
  }

  lemma {:induction false} StallingRuns(k: nat)
    requires k <= 24
    ensures Stalled(Steps(Init(1, TWO_BUFFERS), Stalling(k)), k) && Patient(Init(1, TWO_BUFFERS), Stalling(k))
  {
    hide Steps, Step, Stalled, Abandons, Patient, Init;
    if k == 0 {
      StallingBegins();
    } else {
      StallingRuns(k - 1);
      var before := Stalling(k - 1);
      var c := if k == PC_SEM_RESET then Receive("xy") else Run(0, false);
      var s := Steps(Init(1, TWO_BUFFERS), before);
      if k == PC_SEM_RESET {
        StalledReceives(s);
        NoReceiveAbandons(s, "xy");
      } else {
        StalledStep(s, k - 1);
      }
      StepsSnoc(Init(1, TWO_BUFFERS), before, c);
      PatientSnoc(Init(1, TWO_BUFFERS), before, c);
    }
  }

  lemma NoReceiveAbandons(s: Sys, line: string)
    ensures !Abandons(s, Receive(line))
  {
  }

  /** It happens: a RAW command times out with a line half way in, and its buffer changes afterwards. */
  lemma LateAppendHappens()
    ensures exists schedule ::
              var returned := Steps(Init(1, TWO_BUFFERS), schedule);
              var copied := RxStep(RxStep(returned));
              && returned.owner.None? && copied.owner.None? && returned.sh.mem == TWO_BUFFERS
              && 0 in copied.sh.mem && copied.sh.mem[0] == "xy.."
  {
    StallingRuns(24);
    var s := Steps(Init(1, TWO_BUFFERS), Stalling(24));
    hide Steps, Step, RxStep, Patient;
    AbandonedAppendWrites(1, TWO_BUFFERS, Stalling(24), 0);
    var returned := Steps(Init(1, TWO_BUFFERS), Stalling(24) + [Run(0, false)]);
    StepsSnoc(Init(1, TWO_BUFFERS), Stalling(24), Run(0, false));
    ReturnLeavesAppend(s, 0);
    assert returned.sh.mem == TWO_BUFFERS && RxStep(RxStep(returned)).owner.None?;
    assert Overwrite("....", 0, "xy") == "xy..";
  }

  /** It happens too: the line half way in goes over the end of the next command's shorter buffer. */
  lemma OverrunHappens()
    ensures exists schedule :: Steps(Init(1, TWO_BUFFERS), schedule).sh.fault
  {
    StallingRuns(24);
    hide Steps, Step, Patient;
    AbandonedCanOverrun(1, TWO_BUFFERS, Stalling(24), 0, 1);
  }
}
