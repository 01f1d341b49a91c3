/**
 * The pairing protocol with both sides split at every shared access: who owns the result slot. The
 * receive task snapshots the pairing word, filters the line on the snapshot, checks that the word
 * has not been replaced, and only then writes the slot field by field; it can be preempted anywhere.
 */
module SplitDispatch {
  import opened Basics
  import opened PairingWord
  import opened LineSyntax
  import opened EngineState
  import opened CommandSteps
  import opened ResultUrcs

  /** One result URC on its way to the slot: its snapshot, and how many words had been published then. */
  datatype Delivery = Delivery(id: nat, word: Word, epoch: nat, line: Line)

  type RxPc = p: nat | p <= 9

  const RX_IDLE: RxPc := 0
  const RX_CHECK: RxPc := 1
  const RX_RESULT: RxPc := 2
  const RX_EXTRA: RxPc := 3
  const RX_DELIVERED: RxPc := 4
  const RX_GOT: RxPc := 5
  const RX_GIVE: RxPc := 6
  const RX_BUSY: RxPc := 7
  const RX_WRITTEN: RxPc := 8
  const RX_FLAG: RxPc := 9

  /**
   * The receive task: the statement it executes next, the result URC it is delivering, and whether
   * the acknowledgement it is handling is an OK.
   */
  datatype Rx = Rx(pc: RxPc, d: Delivery, isOk: bool)

  /** Which delivery last wrote a field of the slot; none since the command's reset. */
  datatype Origin = Origin(result: Option<Delivery>, extra: Option<Delivery>)

  /**
   * `epoch` counts publications; `log` lists every delivery that was started. `origin` and `out` say
   * where the slot's two values, and the two values finish has read, came from; `used` are the words
   * published so far.
   */
  datatype Sys = Sys(
    sh: Shared, tasks: seq<Task>, owner: Option<nat>, rx: Rx,
    epoch: nat, used: set<Word>, log: seq<Delivery>, origin: Origin, out: Origin)

  datatype Choice =
    | Start(task: nat, kind: Kind, msgid: MsgId, sends: nat)
    | Run(task: nat, fails: bool)
    | Receive(line: string)
    | RunRx

  // ---- steps ----

  /** What a command step does to the bookkeeping. */
  function Note(s: Sys, pc: Pc, word: Word): Sys {
    if pc == PC_RESET_RESULT then s.(origin := s.origin.(result := None))
    else if pc == PC_RESET_EXTRA then s.(origin := s.origin.(extra := None))
    else if pc == PC_PUBLISH then s.(epoch := s.epoch + 1, used := s.used + {word})
    else if pc == PC_READ_RESULT then s.(out := s.out.(result := s.origin.result))
    else if pc == PC_READ_EXTRA then s.(out := s.out.(extra := s.origin.extra))
    else s
  }

  function RunStep(s: Sys, i: nat, fails: bool): Sys
    requires i < |s.tasks|
  {
    var t := s.tasks[i];
    var (sh', t') := CmdStep(s.sh, t, fails);
    Note(s, t.pc, t.word).(sh := sh', tasks := s.tasks[i := t'], owner := if t.pc == PC_UNLOCK then None else s.owner)
  }

  /** The receive task picks up its next line. */
  function BeginLine(s: Sys, l: Line): Sys {
    match l
    case Result(_, _, _, _, _) =>
      if !Matches(s.sh.cmd.pending, l) then s else
        var d := Delivery(|s.log|, s.sh.cmd.pending, s.epoch, l);
        s.(rx := s.rx.(pc := RX_CHECK, d := d), log := s.log + [d])
    case Ok => s.(rx := s.rx.(pc := RX_BUSY, isOk := true))
    case Error(_) => s.(rx := s.rx.(pc := RX_BUSY, isOk := false))
    case _ => s
  }

  /** The store the receive task makes into the command context. */
  function RxStores(rx: Rx, c: Cmd): Cmd {
    if rx.pc == RX_RESULT && rx.d.line.Result? then c.(result := rx.d.line.result)
    else if rx.pc == RX_EXTRA && rx.d.line.Result? then c.(extra := rx.d.line.extend)
    else if rx.pc == RX_DELIVERED then c.(delivered := rx.d.word)
    else if rx.pc == RX_GOT then c.(got := true)
    else if rx.pc == RX_GIVE then c.(token := true)
    else if rx.pc == RX_FLAG then (if rx.isOk then c.(acked := true) else c.(rejected := true))
    else c
  }

  /** Where the receive task goes next, after the load it makes. */
  function RxNext(rx: Rx, c: Cmd): RxPc {
    if rx.pc == RX_CHECK then (if c.pending == rx.d.word then RX_RESULT else RX_IDLE)
    else if RX_RESULT <= rx.pc <= RX_GOT then rx.pc + 1
    else if rx.pc == RX_BUSY then (if c.busy then RX_WRITTEN else RX_FLAG)
    else if rx.pc == RX_WRITTEN then (if c.written then RX_FLAG else RX_IDLE)
    else if rx.pc == RX_FLAG then RX_GIVE
    else RX_IDLE
  }

  function RxOrigin(rx: Rx, o: Origin): Origin {
    if rx.pc == RX_RESULT then o.(result := Some(rx.d))
    else if rx.pc == RX_EXTRA then o.(extra := Some(rx.d))
    else o
  }

  function RxStep(s: Sys): Sys {
    s.(sh := s.sh.(cmd := RxStores(s.rx, s.sh.cmd)), rx := s.rx.(pc := RxNext(s.rx, s.sh.cmd)),
       origin := RxOrigin(s.rx, s.origin))
  }

  /** One step of the schedule; a choice that is not enabled changes nothing. */
  function Step(s: Sys, c: Choice): Sys {
    match c
    case Start(i, kind, msgid, sends) =>
      if i < |s.tasks| && s.tasks[i].pc == PC_IDLE && s.owner.None?
      then s.(tasks := s.tasks[i := Enter(s.tasks[i], kind, msgid, None, 0, sends)], owner := Some(i))
      else s
    case Run(i, fails) => if i < |s.tasks| && s.owner == Some(i) then RunStep(s, i, fails) else s
    case Receive(line) => if s.rx.pc == RX_IDLE then BeginLine(s, Classify(line)) else s
    case RunRx => RxStep(s)
  }

  function Steps(s: Sys, schedule: seq<Choice>): Sys {
    if schedule == [] then s
    else Step(Steps(s, schedule[..|schedule| - 1]), schedule[|schedule| - 1])
  }

  function Init(n: nat): Sys {
    Sys(Shared(Cmd(IDLE, 0, 0, IDLE, false, false, false, false, false, StageNone, false),
               None, 0, 0, 0, map[], false),
        seq(n, i => IDLE_TASK), None, Rx(RX_IDLE, Delivery(0, IDLE, 0, Ok), false), 0, {}, [],
        Origin(None, None), Origin(None, None))
  }

  /** The receive task, left alone, is lmqtt_line_dispatch as far as the command context goes. */
  lemma RxUninterrupted(s: Sys, l: Line)
    requires s.rx.pc == RX_IDLE
    ensures var s' := RxStep(RxStep(RxStep(RxStep(RxStep(RxStep(BeginLine(s, l)))))));
            s'.rx.pc == RX_IDLE && s'.sh.cmd == CmdAfter(s.sh.cmd, l) && s'.tasks == s.tasks
  {
    var s1 := BeginLine(s, l);
    RxRests(s1);
    if s1.rx.pc == RX_CHECK {
      DeliversWhole(s1);
    } else if s1.rx.pc == RX_BUSY {
      AcknowledgesWhole(s1);
    }
    hide RxStep, Matches;
  }

  lemma RxRests(s: Sys)
    ensures s.rx.pc == RX_IDLE ==> RxStep(s) == s
  {
  }

  lemma DeliversWhole(s: Sys)
    requires s.rx.pc == RX_CHECK && s.rx.d.word == s.sh.cmd.pending && s.rx.d.line.Result?
    ensures var s' := RxStep(RxStep(RxStep(RxStep(RxStep(RxStep(s))))));
            s'.rx.pc == RX_IDLE && s'.sh.cmd == StoreResult(s.sh.cmd, s.rx.d.line) && s'.tasks == s.tasks
  {
  }

  lemma AcknowledgesWhole(s: Sys)
    requires s.rx.pc == RX_BUSY
    ensures var s' := RxStep(RxStep(RxStep(RxStep(RxStep(RxStep(s))))));
            && s'.rx.pc == RX_IDLE && s'.tasks == s.tasks
            && s'.sh.cmd == (if Fenced(s.sh.cmd) then s.sh.cmd
                             else if s.rx.isOk then s.sh.cmd.(acked := true, token := true)
                             else s.sh.cmd.(rejected := true, token := true))
  {
  }

  // ---- the condition ----

  /** The receive task is preempted inside a delivery that has not signed the slot yet. */
  predicate Unsigned(rx: Rx) {
    RX_CHECK <= rx.pc <= RX_DELIVERED
  }

  /**
   * The only harmful moment: a command clears `delivered` while such a delivery holds a snapshot
   * equal to the word the command is about to publish.
   */
  predicate Harmful(s: Sys, c: Choice) {
    && c.Run? && c.task < |s.tasks| && s.owner == Some(c.task)
    && s.tasks[c.task].pc == PC_RESET_DELIVERED && !NoResultUrc(s.tasks[c.task].word)
    && Unsigned(s.rx) && s.rx.d.word == s.tasks[c.task].word
  }

  /** No step of the schedule is harmful. Caller-unique msgIDs give this for SUBUNSUB and PUB. */
  predicate Clean(s: Sys, schedule: seq<Choice>) {
    schedule == [] ||
    (Clean(s, schedule[..|schedule| - 1])
     && !Harmful(Steps(s, schedule[..|schedule| - 1]), schedule[|schedule| - 1]))
  }

  // ---- the invariant ----

  /** A delivery that snapshotted the running command's word after its publication. */
  predicate Own(d: Delivery, w: Word, epoch: nat) {
    d.word == w && d.epoch == epoch && Matches(w, d.line)
  }

  predicate OwnOrigin(o: Option<Delivery>, w: Word, epoch: nat) {
    o.Some? && Own(o.value, w, epoch)
  }

  /** The slot of the running command, once it has cleared the signature. */
  predicate Slot(c: Cmd, t: Task, rx: Rx, epoch: nat, origin: Origin) {
    && (PC_RESET_DELIVERED < t.pc <= PC_PUBLISH ==>
          c.delivered != t.word && (Unsigned(rx) ==> rx.d.word != t.word))
    && (PC_PUBLISH < t.pc ==>
          && (Unsigned(rx) && rx.d.word == t.word ==> rx.d.epoch == epoch)
          && (Unsigned(rx) && rx.d.word != t.word ==> c.delivered != t.word)
          && (rx.pc == RX_EXTRA && rx.d.word == t.word ==> origin.result == Some(rx.d))
          && (rx.pc == RX_DELIVERED && rx.d.word == t.word ==>
                origin.result == Some(rx.d) && origin.extra == Some(rx.d))
          && (c.delivered == t.word ==>
                OwnOrigin(origin.result, t.word, epoch) && OwnOrigin(origin.extra, t.word, epoch)))
  }

  /** What finish has read is the running command's own. */
  predicate Claimed(c: Cmd, t: Task, epoch: nat, out: Origin) {
    && (PC_READ_RESULT <= t.pc <= PC_READ_EXTRA ==> c.delivered == t.word)
    && (PC_READ_EXTRA == t.pc ==>
          OwnOrigin(out.result, t.word, epoch) && t.outResult == out.result.value.line.result)
    && (PC_CLEAR_BUSY <= t.pc && t.rc == LMQTT_OK ==>
          && OwnOrigin(out.result, t.word, epoch) && t.outResult == out.result.value.line.result
          && OwnOrigin(out.extra, t.word, epoch) && t.outExtra == out.extra.value.line.extend)
  }

  /** The bookkeeping is truthful: origins name the deliveries whose values the slot holds. */
  predicate Truthful(s: Sys) {
    var c := s.sh.cmd;
    && (s.origin.result.Some? ==> Logged(s, s.origin.result.value) && c.result == s.origin.result.value.line.result)
    && (s.origin.extra.Some? ==> Logged(s, s.origin.extra.value) && c.extra == s.origin.extra.value.line.extend)
    && (s.out.result.Some? ==> Logged(s, s.out.result.value))
    && (s.out.extra.Some? ==> Logged(s, s.out.extra.value))
    && (Unsigned(s.rx) ==> Logged(s, s.rx.d))
  }

  /** A recorded delivery of a line that matched the word it snapshotted. */
  predicate Logged(s: Sys, d: Delivery) {
    d.id < |s.log| && s.log[d.id] == d && d.epoch <= s.epoch && d.line.Result? && Matches(d.word, d.line)
  }

  predicate Inv(s: Sys) {
    && Guarded(s.sh.cmd, s.tasks, s.owner) && Truthful(s)
    && (s.owner.Some? && !NoResultUrc(s.tasks[s.owner.value].word) ==>
          && Slot(s.sh.cmd, s.tasks[s.owner.value], s.rx, s.epoch, s.origin)
          && Claimed(s.sh.cmd, s.tasks[s.owner.value], s.epoch, s.out))
  }

  // ---- receive steps ----

  lemma WindowIgnoresSlot(c: Cmd, c': Cmd, t: Task)
    requires Window(c, t)
    requires c'.busy == c.busy && c'.pending == c.pending && c'.written == c.written && c'.stage == c.stage
    ensures Window(c', t)
  {
  }

  lemma RxKeepsTruthful(s: Sys)
    requires Truthful(s)
    ensures Truthful(RxStep(s))
  {
    hide Matches;
  }

  lemma RxKeepsSlot(s: Sys, t: Task)
    requires Truthful(s) && Slot(s.sh.cmd, t, s.rx, s.epoch, s.origin)
    ensures var s' := RxStep(s); Slot(s'.sh.cmd, t, s'.rx, s'.epoch, s'.origin)
  {
    hide Matches;
  }

  lemma RxKeepsClaimed(s: Sys, t: Task)
    requires Slot(s.sh.cmd, t, s.rx, s.epoch, s.origin) && Claimed(s.sh.cmd, t, s.epoch, s.out)
    ensures var s' := RxStep(s); Claimed(s'.sh.cmd, t, s'.epoch, s'.out)
  {
    hide OwnOrigin;
  }

  /** A receive step never touches what the command side alone writes. */
  lemma RxLeavesWindow(rx: Rx, c: Cmd)
    ensures var c' := RxStores(rx, c);
            c'.busy == c.busy && c'.pending == c.pending && c'.written == c.written && c'.stage == c.stage
  {
    if RX_RESULT <= rx.pc <= RX_EXTRA {
    } else if rx.pc == RX_DELIVERED {
    } else if RX_GOT <= rx.pc <= RX_GIVE {
    }
  }

  lemma RxKeepsInv(s: Sys)
    requires Inv(s)
    ensures Inv(RxStep(s))
  {
    hide RxStores, RxNext, RxOrigin, Truthful, Slot, Claimed, Window, Exclusive;
    var s' := RxStep(s);
    RxLeavesWindow(s.rx, s.sh.cmd);
    RxKeepsTruthful(s);
    if s.owner.Some? {
      ExclusiveOwner(s.tasks, s.owner);
      var t := s.tasks[s.owner.value];
      WindowIgnoresSlot(s.sh.cmd, s'.sh.cmd, t);
      if !NoResultUrc(t.word) {
        RxKeepsSlot(s, t);
        RxKeepsClaimed(s, t);
      }
    }
  }

  lemma ExclusiveOwner(tasks: seq<Task>, owner: Option<nat>)
    requires Exclusive(tasks, owner) && owner.Some?
    ensures owner.value < |tasks| && tasks[owner.value].pc != PC_IDLE
  {
  }

  lemma ReceiveKeepsSlot(s: Sys, t: Task, l: Line)
    requires s.rx.pc == RX_IDLE && Window(s.sh.cmd, t) && !NoResultUrc(t.word)
    requires Slot(s.sh.cmd, t, s.rx, s.epoch, s.origin)
    ensures var s' := BeginLine(s, l); Slot(s'.sh.cmd, t, s'.rx, s'.epoch, s'.origin)
  {
    hide OwnOrigin, IsStale;
  }

  lemma ReceiveKeepsTruthful(s: Sys, l: Line)
    requires Truthful(s) && s.rx.pc == RX_IDLE
    ensures Truthful(BeginLine(s, l))
  {
    hide IsStale;
  }

  lemma ReceiveKeepsInv(s: Sys, line: string)
    requires Inv(s) && s.rx.pc == RX_IDLE
    ensures Inv(BeginLine(s, Classify(line)))
  {
    hide Classify, Truthful, Slot, Claimed, Matches, Window, Exclusive;
    ReceiveKeepsTruthful(s, Classify(line));
    if s.owner.Some? {
      ExclusiveOwner(s.tasks, s.owner);
      if !NoResultUrc(s.tasks[s.owner.value].word) {
        ReceiveKeepsSlot(s, s.tasks[s.owner.value], Classify(line));
      }
    }
  }

  // ---- command steps ----

  /** What a command step does to the slot: after the reset of `extra`, only the signature is cleared. */
  predicate SlotEffect(sh: Shared, t: Task, sh': Shared, t': Task) {
    && sh'.cmd.result == sh.cmd.result && sh'.cmd.extra == sh.cmd.extra
    && sh'.cmd.delivered == (if t.pc == PC_RESET_DELIVERED then IDLE else sh.cmd.delivered)
    && t'.word == t.word
    && (t.pc < PC_PUBLISH ==> t'.pc == t.pc + 1)
    && (PC_PUBLISH <= t.pc ==> PC_PUBLISH < t'.pc)
  }

  lemma BeginOnSlot(sh: Shared, t: Task)
    ensures PC_RESET_EXTRA < t.pc <= PC_RESET_STAGE ==>
              var (sh', t') := ResetStep(sh, t); SlotEffect(sh, t, sh', t')
    ensures PC_RESET_STAGE < t.pc <= PC_SEM_RESET ==>
              var (sh', t') := OpenStep(sh, t); SlotEffect(sh, t, sh', t')
  {
  }

  lemma WaitOnSlot(sh: Shared, t: Task)
    ensures PC_SENDING < t.pc <= PC_STORE_ACK_TMO ==>
              var (sh', t') := AckStep(sh, t); SlotEffect(sh, t, sh', t')
    ensures PC_STORE_ACK_TMO < t.pc <= PC_STORE_URC_TMO ==>
              var (sh', t') := UrcStep(sh, t); SlotEffect(sh, t, sh', t')
  {
  }

  lemma EndOnSlot(sh: Shared, t: Task, fails: bool)
    ensures PC_STORE_URC_TMO < t.pc <= PC_READ_EXTRA ==>
              var (sh', t') := ClaimStep(sh, t); SlotEffect(sh, t, sh', t')
    ensures t.pc == PC_SENDING || PC_CLEAR_BUSY <= t.pc < PC_UNLOCK ==>
              var (sh', t') := OuterStep(sh, t, fails); SlotEffect(sh, t, sh', t')
  {
  }

  lemma StepOnSlot(sh: Shared, t: Task, fails: bool)
    requires PC_RESET_EXTRA < t.pc < PC_UNLOCK
    ensures var (sh', t') := CmdStep(sh, t, fails); SlotEffect(sh, t, sh', t')
  {
    hide SlotEffect, ResetStep, OpenStep, AckStep, UrcStep, ClaimStep, OuterStep;
    BeginOnSlot(sh, t);
    WaitOnSlot(sh, t);
    EndOnSlot(sh, t, fails);
  }

  lemma StepKeepsSlot(sh: Shared, t: Task, fails: bool, rx: Rx, epoch: nat, origin: Origin)
    requires PC_RESET_EXTRA < t.pc < PC_UNLOCK && !NoResultUrc(t.word) && Window(sh.cmd, t)
    requires Slot(sh.cmd, t, rx, epoch, origin)
    requires t.pc == PC_RESET_DELIVERED ==> !(Unsigned(rx) && rx.d.word == t.word)
    ensures var (sh', t') := CmdStep(sh, t, fails);
            Slot(sh'.cmd, t', rx, if t.pc == PC_PUBLISH then epoch + 1 else epoch, origin)
  {
    hide OwnOrigin, CmdStep;
    StepOnSlot(sh, t, fails);
  }

  lemma StepKeepsClaimed(sh: Shared, t: Task, fails: bool, rx: Rx, epoch: nat, origin: Origin, out: Origin)
    requires PC_IDLE < t.pc < PC_UNLOCK && !NoResultUrc(t.word) && Window(sh.cmd, t)
    requires Slot(sh.cmd, t, rx, epoch, origin) && Claimed(sh.cmd, t, epoch, out)
    requires origin.result.Some? ==> origin.result.value.line.Result?
                                     && sh.cmd.result == origin.result.value.line.result
    requires origin.extra.Some? ==> origin.extra.value.line.Result?
                                    && sh.cmd.extra == origin.extra.value.line.extend
    ensures var (sh', t') := CmdStep(sh, t, fails);
            var out' := if t.pc == PC_READ_RESULT then out.(result := origin.result)
                        else if t.pc == PC_READ_EXTRA then out.(extra := origin.extra) else out;
            Claimed(sh'.cmd, t', if t.pc == PC_PUBLISH then epoch + 1 else epoch, out')
  {
  }

  /** The two reset stores that come before the signature is cleared. */
  lemma FirstResets(sh: Shared, t: Task, fails: bool)
    requires t.pc == PC_RESET_RESULT || t.pc == PC_RESET_EXTRA
    ensures var (sh', t') := CmdStep(sh, t, fails);
            && t'.pc == t.pc + 1 && t'.word == t.word
            && (t.pc == PC_RESET_RESULT ==> sh'.cmd.extra == sh.cmd.extra)
            && (t.pc == PC_RESET_EXTRA ==> sh'.cmd.result == sh.cmd.result)
  {
  }

  lemma LastStep(sh: Shared, t: Task, fails: bool)
    requires t.pc == PC_UNLOCK
    ensures CmdStep(sh, t, fails).0 == sh
  {
  }

  lemma RunKeepsTruthful(s: Sys, i: nat, fails: bool)
    requires i < |s.tasks| && s.tasks[i].pc != PC_IDLE && Truthful(s)
    ensures Truthful(RunStep(s, i, fails))
  {
    hide CmdStep, RunStep, Truthful, SlotEffect;
    var t := s.tasks[i];
    if t.pc <= PC_RESET_EXTRA {
      FirstResets(s.sh, t, fails);
      ResetKeepsTruthful(s, i, fails);
    } else {
      if t.pc < PC_UNLOCK {
        StepOnSlot(s.sh, t, fails);
        EffectKeepsValues(s.sh, t, CmdStep(s.sh, t, fails).0, CmdStep(s.sh, t, fails).1);
      } else {
        LastStep(s.sh, t, fails);
      }
      LaterKeepsTruthful(s, i, fails);
    }
  }

  lemma EffectKeepsValues(sh: Shared, t: Task, sh': Shared, t': Task)
    requires SlotEffect(sh, t, sh', t')
    ensures sh'.cmd.result == sh.cmd.result && sh'.cmd.extra == sh.cmd.extra
  {
  }

  lemma ResetKeepsTruthful(s: Sys, i: nat, fails: bool)
    requires i < |s.tasks| && Truthful(s)
    requires var t, sh' := s.tasks[i], CmdStep(s.sh, s.tasks[i], fails).0;
             || (t.pc == PC_RESET_RESULT && sh'.cmd.extra == s.sh.cmd.extra)
             || (t.pc == PC_RESET_EXTRA && sh'.cmd.result == s.sh.cmd.result)
    ensures Truthful(RunStep(s, i, fails))
  {
    hide CmdStep, Matches;
  }

  lemma LaterKeepsTruthful(s: Sys, i: nat, fails: bool)
    requires i < |s.tasks| && Truthful(s) && s.tasks[i].pc > PC_RESET_EXTRA
    requires var sh' := CmdStep(s.sh, s.tasks[i], fails).0;
             sh'.cmd.result == s.sh.cmd.result && sh'.cmd.extra == s.sh.cmd.extra
    ensures Truthful(RunStep(s, i, fails))
  {
    hide CmdStep, Matches;
  }

  lemma RunKeepsOwner(s: Sys, i: nat, fails: bool)
    requires i < |s.tasks| && s.owner == Some(i) && Guarded(s.sh.cmd, s.tasks, s.owner)
    ensures var s' := RunStep(s, i, fails); Guarded(s'.sh.cmd, s'.tasks, s'.owner)
  {
    hide CmdStep, Window;
    StepKeepsWindow(s.sh, s.tasks[i], fails);
  }

  lemma RunKeepsInv(s: Sys, i: nat, fails: bool)
    requires i < |s.tasks| && s.owner == Some(i) && Inv(s) && !Harmful(s, Run(i, fails))
    ensures Inv(RunStep(s, i, fails))
  {
    hide CmdStep, Truthful, Slot, Claimed, Window, Exclusive;
    var t := s.tasks[i];
    ExclusiveOwner(s.tasks, s.owner);
    RunKeepsTruthful(s, i, fails);
    RunKeepsOwner(s, i, fails);
    StepKeepsWindow(s.sh, t, fails);
    if !NoResultUrc(t.word) && t.pc < PC_UNLOCK {
      OriginsAreResults(s);
      StepKeepsClaimed(s.sh, t, fails, s.rx, s.epoch, s.origin, s.out);
      if t.pc <= PC_RESET_EXTRA {
        FirstResets(s.sh, t, fails);
        SlotBeforeSignature(RunStep(s, i, fails).sh.cmd, CmdStep(s.sh, t, fails).1, s.rx, s.epoch,
                            RunStep(s, i, fails).origin);
      } else {
        StepKeepsSlot(s.sh, t, fails, s.rx, s.epoch, s.origin);
      }
    }
  }

  lemma OriginsAreResults(s: Sys)
    requires Truthful(s)
    ensures s.origin.result.Some? ==> s.origin.result.value.line.Result?
                                      && s.sh.cmd.result == s.origin.result.value.line.result
    ensures s.origin.extra.Some? ==> s.origin.extra.value.line.Result?
                                     && s.sh.cmd.extra == s.origin.extra.value.line.extend
  {
  }

  lemma SlotBeforeSignature(c: Cmd, t: Task, rx: Rx, epoch: nat, origin: Origin)
    requires t.pc <= PC_RESET_DELIVERED
    ensures Slot(c, t, rx, epoch, origin)
  {
  }

  lemma StartKeepsInv(s: Sys, c: Choice)
    requires c.Start? && Inv(s)
    ensures Inv(Step(s, c))
  {
    hide Matches, OwnOrigin;
    if c.task < |s.tasks| && s.owner.None? {
      EnterOpensWindow(s.sh.cmd, s.tasks[c.task], c.kind, c.msgid, None, 0, c.sends);
    }
  }

  lemma StepKeepsInv(s: Sys, c: Choice)
    requires Inv(s) && !Harmful(s, c)
    ensures Inv(Step(s, c))
  {
    hide Inv, RunStep, RxStep, BeginLine, Harmful;
    if c.Start? {
      StartKeepsInv(s, c);
    } else if c.Run? && c.task < |s.tasks| && s.owner == Some(c.task) {
      RunKeepsInv(s, c.task, c.fails);
    } else if c.Receive? && s.rx.pc == RX_IDLE {
      ReceiveKeepsInv(s, c.line);
    } else if c.RunRx? {
      RxKeepsInv(s);
    }
  }

  lemma {:induction false} Reachable(n: nat, schedule: seq<Choice>)
    requires Clean(Init(n), schedule)
    ensures Inv(Steps(Init(n), schedule))
  {
    hide Step, Harmful;
    if schedule == [] {
      InitIsGood(n);
    } else {
      Reachable(n, schedule[..|schedule| - 1]);
      StepKeepsInv(Steps(Init(n), schedule[..|schedule| - 1]), schedule[|schedule| - 1]);
    }
  }

  lemma InitIsGood(n: nat)
    ensures Inv(Init(n))
  {
  }

  // ---- the claims ----

  /**
   * Claim safety: under every interleaving without a harmful moment, a command that returns LMQTT_OK
   * with a result returns values that were each written by a delivery which snapshotted this
   * command's word after this command published it, from a line of the matching kind and msgID.
   */
  lemma {:induction false} ClaimSafety(n: nat, schedule: seq<Choice>, i: nat)
    requires Clean(Init(n), schedule)
    ensures var s := Steps(Init(n), schedule);
            i < |s.tasks| && s.tasks[i].pc == PC_UNLOCK && s.tasks[i].rc == LMQTT_OK
            && !NoResultUrc(s.tasks[i].word) ==>
              var t, r, e := s.tasks[i], s.out.result, s.out.extra;
              && OwnOrigin(r, t.word, s.epoch) && t.outResult == r.value.line.result
              && OwnOrigin(e, t.word, s.epoch) && t.outExtra == e.value.line.extend
              && r.value in s.log && e.value in s.log
  {
    hide Step, Clean, Slot, Window, Matches, NoResultUrc;
    Reachable(n, schedule);
  }

  predicate AtMostOne(log: seq<Delivery>, w: Word, epoch: nat) {
    forall a, b | a in log && b in log && Own(a, w, epoch) && Own(b, w, epoch) :: a == b
  }

  /** With exactly one delivery of the command's own, both values come from the same line. */
  lemma {:induction false} SingleDeliverySameLine(n: nat, schedule: seq<Choice>, i: nat)
    requires Clean(Init(n), schedule)
    ensures var s := Steps(Init(n), schedule);
            i < |s.tasks| && s.tasks[i].pc == PC_UNLOCK && s.tasks[i].rc == LMQTT_OK
            && !NoResultUrc(s.tasks[i].word) && AtMostOne(s.log, s.tasks[i].word, s.epoch) ==>
              exists d :: d in s.log && Own(d, s.tasks[i].word, s.epoch)
                          && s.tasks[i].outResult == d.line.result && s.tasks[i].outExtra == d.line.extend
  {
    hide Step, Clean, Matches, NoResultUrc;
    ClaimSafety(n, schedule, i);
  }

  // ---- the condition is met by callers that never reuse a word ----

  predicate WordsUsed(s: Sys) {
    && Guarded(s.sh.cmd, s.tasks, s.owner)
    && (s.sh.cmd.pending != IDLE ==> s.sh.cmd.pending in s.used)
    && (Unsigned(s.rx) ==> s.rx.d.word in s.used)
  }

  /** Every command with a result URC runs under a pairing word that was not published before. */
  predicate FreshWords(s: Sys, schedule: seq<Choice>) {
    schedule == [] ||
    (FreshWords(s, schedule[..|schedule| - 1]) &&
     var before := Steps(s, schedule[..|schedule| - 1]);
     before.owner.Some? && before.owner.value < |before.tasks|
     && before.tasks[before.owner.value].pc == PC_RESET_DELIVERED
     && !NoResultUrc(before.tasks[before.owner.value].word) ==>
       before.tasks[before.owner.value].word !in before.used)
  }

  lemma PublishedWord(sh: Shared, t: Task, fails: bool)
    requires t.pc != PC_IDLE
    ensures var c := CmdStep(sh, t, fails).0.cmd;
            c.pending == sh.cmd.pending || c.pending == IDLE || (t.pc == PC_PUBLISH && c.pending == t.word)
  {
    hide ResetStep, OpenStep, AckStep, UrcStep, ClaimStep, OuterStep;
    ResetPending(sh, t);
    OpenPending(sh, t);
    AckPending(sh, t);
    UrcPending(sh, t);
    EndPending(sh, t, fails);
  }

  lemma ResetPending(sh: Shared, t: Task)
    ensures var (sh', t') := ResetStep(sh, t); sh'.cmd.pending == sh.cmd.pending
  {
    if t.pc <= PC_RESET_DELIVERED {
    } else if t.pc <= PC_RESET_ACKED {
    }
  }

  lemma OpenPending(sh: Shared, t: Task)
    ensures var (sh', t') := OpenStep(sh, t);
            sh'.cmd.pending == if t.pc == PC_PUBLISH then t.word else sh.cmd.pending
  {
  }

  lemma AckPending(sh: Shared, t: Task)
    ensures var (sh', t') := AckStep(sh, t); sh'.cmd.pending == sh.cmd.pending
  {
  }

  lemma UrcPending(sh: Shared, t: Task)
    ensures var (sh', t') := UrcStep(sh, t); sh'.cmd.pending == sh.cmd.pending
  {
    if t.pc <= PC_NEED_GOT {
    } else if t.pc <= PC_TAKE_URC {
    }
  }

  lemma EndPending(sh: Shared, t: Task, fails: bool)
    ensures var (sh', t') := ClaimStep(sh, t); sh'.cmd.pending == sh.cmd.pending
    ensures var (sh', t') := OuterStep(sh, t, fails);
            sh'.cmd.pending == if t.pc == PC_CLEAR_PENDING then IDLE else sh.cmd.pending
  {
  }

  lemma StepKeepsWordsUsed(s: Sys, c: Choice)
    requires WordsUsed(s)
    ensures WordsUsed(Step(s, c))
  {
    hide CmdStep, RxStores, RxOrigin, Window, Classify, IsStale;
    if c.Start? && c.task < |s.tasks| && s.owner.None? {
      EnterOpensWindow(s.sh.cmd, s.tasks[c.task], c.kind, c.msgid, None, 0, c.sends);
    } else if c.Run? && c.task < |s.tasks| && s.owner == Some(c.task) {
      PublishedWord(s.sh, s.tasks[c.task], c.fails);
      RunKeepsOwner(s, c.task, c.fails);
    } else if c.RunRx? {
      RxLeavesWindow(s.rx, s.sh.cmd);
      if s.owner.Some? {
        WindowIgnoresSlot(s.sh.cmd, RxStores(s.rx, s.sh.cmd), s.tasks[s.owner.value]);
      }
    }
  }

  /** Commands that use fresh pairing words, such as caller-unique msgIDs give, are never harmed. */
  lemma {:induction false} FreshWordsAreClean(n: nat, schedule: seq<Choice>)
    requires FreshWords(Init(n), schedule)
    ensures Clean(Init(n), schedule) && WordsUsed(Steps(Init(n), schedule))
  {
    hide Step;
    if schedule != [] {
      FreshWordsAreClean(n, schedule[..|schedule| - 1]);
      StepKeepsWordsUsed(Steps(Init(n), schedule[..|schedule| - 1]), schedule[|schedule| - 1]);
    }
  }

  // ---- and it cannot be weakened ----

  lemma {:induction false} StepsCons(s: Sys, c: Choice, rest: seq<Choice>)
    ensures Steps(s, [c] + rest) == Steps(Step(s, c), rest)
    decreases |rest|
  {
    hide Step;
    var all := [c] + rest;
    if rest == [] {
      assert all[..0] == [];
      assert Steps(s, all[..0]) == s;
    } else {
      var front := rest[..|rest| - 1];
      assert all[..|all| - 1] == [c] + front;
      StepsCons(s, c, front);
    }
  }

  /** No delivery was started after the latest publication but those of the epoch it opened. */
  predicate EpochsBounded(s: Sys) {
    forall d | d in s.log :: d.epoch <= s.epoch
  }

  lemma {:induction false} EpochsAreBounded(n: nat, schedule: seq<Choice>)
    ensures EpochsBounded(Steps(Init(n), schedule))
    ensures Guarded(Steps(Init(n), schedule).sh.cmd, Steps(Init(n), schedule).tasks, Steps(Init(n), schedule).owner)
  {
    hide CmdStep, RxStores, RxNext, RxOrigin, Matches, Classify, Guarded, WordsUsed;
    if schedule == [] {
      InitIsGood(n);
    } else {
      EpochsAreBounded(n, schedule[..|schedule| - 1]);
    }
    WordsAreUsed(n, schedule);
    WordsUsedGuards(Steps(Init(n), schedule));
  }

  lemma WordsUsedGuards(s: Sys)
    requires WordsUsed(s)
    ensures Guarded(s.sh.cmd, s.tasks, s.owner)
  {
  }

  lemma {:induction false} WordsAreUsed(n: nat, schedule: seq<Choice>)
    ensures WordsUsed(Steps(Init(n), schedule))
  {
    hide Step;
    if schedule != [] {
      WordsAreUsed(n, schedule[..|schedule| - 1]);
      StepKeepsWordsUsed(Steps(Init(n), schedule[..|schedule| - 1]), schedule[|schedule| - 1]);
    }
  }

  /**
   * On the way from the cleared signature to the fence, the receive task not moving. `signed` says
   * that the slot already carries the word the command is about to publish.
   */
  predicate Opening(s: Sys, i: nat, w: Word, rx: Rx, log: seq<Delivery>, epoch: nat, signed: bool) {
    && s.owner == Some(i) && i < |s.tasks| && s.rx == rx && s.log == log
    && var t := s.tasks[i];
       && t.word == w && PC_RESET_DELIVERED <= t.pc <= PC_RAISE_WRITTEN
       && (PC_RESET_REJECTED < t.pc ==> !s.sh.cmd.rejected)
       && (PC_PUBLISH < t.pc ==> s.sh.cmd.pending == w && s.epoch == epoch + 1)
       && (t.pc <= PC_PUBLISH ==> s.epoch == epoch)
       && (signed ==> PC_RESET_GOT < t.pc && s.sh.cmd.got && s.sh.cmd.delivered == w)
  }

  lemma OpeningStep(s: Sys, i: nat, w: Word, rx: Rx, log: seq<Delivery>, epoch: nat, signed: bool)
    requires Opening(s, i, w, rx, log, epoch, signed) && s.tasks[i].pc < PC_RAISE_WRITTEN
    ensures var s' := Step(s, Run(i, false));
            && Opening(s', i, w, rx, log, epoch, signed)
            && (s'.tasks[i].pc == s.tasks[i].pc + 1
                || (s.tasks[i].pc == s'.tasks[i].pc == PC_SENDING && s'.tasks[i].sends < s.tasks[i].sends))
            && (s.tasks[i].pc < PC_SENDING ==> s'.tasks[i].sends == s.tasks[i].sends)
  {
    hide CmdStep;
    OpeningCmd(s.sh, s.tasks[i]);
  }

  /** What the opening steps do to the fields the continuation depends on. */
  predicate OpeningEffect(sh: Shared, t: Task, sh': Shared, t': Task) {
    && (t'.pc == t.pc + 1 || (t.pc == t'.pc == PC_SENDING && t'.sends < t.sends)) && t'.word == t.word
    && sh'.cmd.rejected == (if t.pc == PC_RESET_REJECTED then false else sh.cmd.rejected)
    && sh'.cmd.pending == (if t.pc == PC_PUBLISH then t.word else sh.cmd.pending)
    && (PC_RESET_GOT < t.pc ==> sh'.cmd.got == sh.cmd.got && sh'.cmd.delivered == sh.cmd.delivered)
    && (t.pc < PC_SENDING ==> t'.sends == t.sends)
  }

  lemma OpeningCmd(sh: Shared, t: Task)
    requires PC_RESET_DELIVERED <= t.pc < PC_RAISE_WRITTEN
    ensures var (sh', t') := CmdStep(sh, t, false); OpeningEffect(sh, t, sh', t')
  {
    hide AckStep, UrcStep, ClaimStep, ResetStep, OpenStep;
    OpeningCmdBegin(sh, t);
  }

  lemma OpeningCmdBegin(sh: Shared, t: Task)
    ensures PC_RESET_DELIVERED <= t.pc <= PC_RESET_STAGE ==>
              var (sh', t') := ResetStep(sh, t); OpeningEffect(sh, t, sh', t')
    ensures PC_RESET_STAGE < t.pc <= PC_SEM_RESET ==>
              var (sh', t') := OpenStep(sh, t); OpeningEffect(sh, t, sh', t')
  {
  }

  lemma RunOpening(s: Sys, i: nat, w: Word, rx: Rx, log: seq<Delivery>, epoch: nat, signed: bool, target: Pc)
    returns (schedule: seq<Choice>)
    requires Opening(s, i, w, rx, log, epoch, signed) && s.tasks[i].pc <= target <= PC_RAISE_WRITTEN
    ensures var s' := Steps(s, schedule);
            && Opening(s', i, w, rx, log, epoch, signed) && s'.tasks[i].pc == target
            && (target <= PC_SENDING ==> s'.tasks[i].sends == s.tasks[i].sends)
    decreases target - s.tasks[i].pc, s.tasks[i].sends
  {
    hide Step;
    if s.tasks[i].pc == target {
      schedule := [];
    } else {
      OpeningStep(s, i, w, rx, log, epoch, signed);
      var rest := RunOpening(Step(s, Run(i, false)), i, w, rx, log, epoch, signed, target);
      StepsCons(s, Run(i, false), rest);
      schedule := [Run(i, false)] + rest;
    }
  }

  /** The stalled delivery resumes while the command side does not move, and signs the slot. */
  predicate Resuming(s: Sys, i: nat, t: Task, d: Delivery, log: seq<Delivery>, epoch: nat,
                     pending: Word, rejected: bool) {
    && s.owner == Some(i) && i < |s.tasks| && s.log == log && s.epoch == epoch && s.tasks[i] == t
    && s.sh.cmd.pending == pending && s.sh.cmd.rejected == rejected
    && (Unsigned(s.rx) ==> s.rx.d == d) && s.rx.pc <= RX_GIVE
    && (s.rx.pc == RX_CHECK ==> pending == d.word)
    && (!Unsigned(s.rx) ==> s.sh.cmd.delivered == d.word)
    && (s.rx.pc == RX_GIVE || s.rx.pc == RX_IDLE ==> s.sh.cmd.got)
  }

  lemma RunToSigned(s: Sys, i: nat, t: Task, d: Delivery, log: seq<Delivery>, epoch: nat,
                    pending: Word, rejected: bool)
    returns (schedule: seq<Choice>)
    requires Resuming(s, i, t, d, log, epoch, pending, rejected)
    ensures var s' := Steps(s, schedule);
            Resuming(s', i, t, d, log, epoch, pending, rejected) && s'.rx.pc == RX_IDLE
    decreases if s.rx.pc == RX_IDLE then 0 else 7 - s.rx.pc
  {
    hide CmdStep;
    if s.rx.pc == RX_IDLE {
      schedule := [];
    } else {
      var rest := RunToSigned(Step(s, RunRx), i, t, d, log, epoch, pending, rejected);
      StepsCons(s, RunRx, rest);
      schedule := [RunRx] + rest;
    }
  }

  /** With a signed slot and no rejection, the rest of the command is a success. */
  predicate Succeeding(s: Sys, i: nat, w: Word, log: seq<Delivery>, epoch: nat) {
    && s.owner == Some(i) && i < |s.tasks| && s.log == log && s.epoch == epoch && !NoResultUrc(w)
    && PC_RAISE_WRITTEN <= s.tasks[i].pc && Winning(s.sh.cmd, s.tasks[i], w)
  }

  predicate Winning(c: Cmd, t: Task, w: Word) {
    && t.word == w && c.got && c.delivered == w && !c.rejected
    && (t.pc <= PC_READ_PEND ==> c.pending == w)
    && (PC_READ_PEND < t.pc ==> t.pend == w)
    && (PC_CLEAR_BUSY <= t.pc ==> t.rc == LMQTT_OK)
    && (PC_RAISE_WRITTEN <= t.pc <= PC_ACK_DELIVERED || PC_READ_REJECTED <= t.pc <= PC_NEED_DELIVERED
        || t.pc == PC_CLAIM_GOT || t.pc == PC_CLAIM_DELIVERED || PC_READ_RESULT <= t.pc)
  }

  lemma WinningAck(sh: Shared, t: Task, w: Word)
    requires Winning(sh.cmd, t, w) && PC_RAISE_WRITTEN <= t.pc <= PC_ACK_DELIVERED
    ensures var (sh', t') := AckStep(sh, t); Winning(sh'.cmd, t', w) && t'.pc > t.pc
  {
  }

  lemma WinningUrc(sh: Shared, t: Task, w: Word)
    requires Winning(sh.cmd, t, w) && !NoResultUrc(w) && PC_READ_REJECTED <= t.pc <= PC_NEED_DELIVERED
    ensures var (sh', t') := UrcStep(sh, t); Winning(sh'.cmd, t', w) && t'.pc > t.pc
  {
  }

  lemma WinningEnd(sh: Shared, t: Task, w: Word)
    requires Winning(sh.cmd, t, w) && PC_CLAIM_GOT <= t.pc < PC_UNLOCK
    ensures var (sh', t') := CmdStep(sh, t, false); Winning(sh'.cmd, t', w) && t'.pc > t.pc
  {
    hide ResetStep, OpenStep, AckStep, UrcStep;
  }

  lemma WinningStep(sh: Shared, t: Task, w: Word)
    requires Winning(sh.cmd, t, w) && !NoResultUrc(w) && PC_RAISE_WRITTEN <= t.pc < PC_UNLOCK
    ensures var (sh', t') := CmdStep(sh, t, false); Winning(sh'.cmd, t', w) && t'.pc > t.pc
  {
    hide ResetStep, OpenStep, AckStep, UrcStep, ClaimStep, OuterStep;
    if t.pc <= PC_ACK_DELIVERED {
      WinningAck(sh, t, w);
    } else if t.pc <= PC_NEED_DELIVERED {
      WinningUrc(sh, t, w);
    } else {
      WinningEnd(sh, t, w);
    }
  }

  lemma RunToSuccess(s: Sys, i: nat, w: Word, log: seq<Delivery>, epoch: nat)
    returns (schedule: seq<Choice>)
    requires Succeeding(s, i, w, log, epoch)
    ensures var s' := Steps(s, schedule);
            Succeeding(s', i, w, log, epoch) && s'.tasks[i].pc == PC_UNLOCK
    decreases PC_UNLOCK - s.tasks[i].pc
  {
    hide CmdStep, Winning;
    if s.tasks[i].pc == PC_UNLOCK {
      schedule := [];
    } else {
      WinningStep(s.sh, s.tasks[i], w);
      var rest := RunToSuccess(Step(s, Run(i, false)), i, w, log, epoch);
      StepsCons(s, Run(i, false), rest);
      schedule := [Run(i, false)] + rest;
    }
  }

  lemma {:induction false} StepsConcat(s: Sys, a: seq<Choice>, b: seq<Choice>)
    ensures Steps(s, a + b) == Steps(Steps(s, a), b)
    decreases |b|
  {
    hide Step;
    if b == [] {
      assert a + b == a;
    } else {
      StepsConcat(s, a, b[..|b| - 1]);
      assert (a + b)[..|a + b| - 1] == a + b[..|b| - 1];
    }
  }

  /** The task returned LMQTT_OK although not one delivery of its own had even been started. */
  predicate Cheated(s: Sys, i: nat) {
    && i < |s.tasks| && s.tasks[i].pc == PC_UNLOCK && s.tasks[i].rc == LMQTT_OK
    && !NoResultUrc(s.tasks[i].word)
    && forall d | d in s.log :: !Own(d, s.tasks[i].word, s.epoch)
  }

  lemma HarmOpens(s: Sys, i: nat)
    requires Harmful(s, Run(i, false)) && Guarded(s.sh.cmd, s.tasks, s.owner)
    ensures Opening(s, i, s.tasks[i].word, s.rx, s.log, s.epoch, false)
  {
  }

  lemma OpeningResumes(s: Sys, i: nat, w: Word, rx: Rx, log: seq<Delivery>, epoch: nat)
    requires Opening(s, i, w, rx, log, epoch, false) && Unsigned(rx) && rx.d.word == w
    requires rx.pc == RX_CHECK ==> s.tasks[i].pc == PC_RAISE_WRITTEN
    ensures Resuming(s, i, s.tasks[i], rx.d, log, s.epoch, s.sh.cmd.pending, s.sh.cmd.rejected)
  {
  }

  lemma ResumingIsSigned(s: Sys, i: nat, t: Task, d: Delivery, log: seq<Delivery>, epoch: nat, before: Sys)
    requires Opening(before, i, d.word, before.rx, log, epoch, false)
    requires t == before.tasks[i] && PC_RESET_GOT < t.pc && s.rx.pc == RX_IDLE
    requires Resuming(s, i, t, d, log, before.epoch, before.sh.cmd.pending, before.sh.cmd.rejected)
    ensures Opening(s, i, d.word, s.rx, log, epoch, true)
  {
  }

  lemma SignedSucceeds(s: Sys, i: nat, w: Word, rx: Rx, log: seq<Delivery>, epoch: nat)
    requires Opening(s, i, w, rx, log, epoch, true) && s.tasks[i].pc == PC_RAISE_WRITTEN && !NoResultUrc(w)
    ensures Succeeding(s, i, w, log, epoch + 1)
  {
  }

  lemma SucceedingCheats(s: Sys, i: nat, w: Word, log: seq<Delivery>, epoch: nat)
    requires Succeeding(s, i, w, log, epoch + 1) && s.tasks[i].pc == PC_UNLOCK
    requires forall d | d in log :: d.epoch <= epoch
    ensures Cheated(s, i) && s.epoch == epoch + 1
  {
  }

  /** From a harmful state: hold the receive task until `pc`, let it finish there, then run to the end. */
  lemma HarmVia(s: Sys, i: nat, pc: Pc) returns (a: seq<Choice>, b: seq<Choice>)
    requires Harmful(s, Run(i, false)) && Guarded(s.sh.cmd, s.tasks, s.owner) && EpochsBounded(s)
    requires PC_RESET_GOT < pc <= PC_RAISE_WRITTEN && (s.rx.pc == RX_CHECK ==> pc == PC_RAISE_WRITTEN)
    ensures Opening(Steps(s, a), i, s.tasks[i].word, Steps(s, a).rx, s.log, s.epoch, true)
    ensures Steps(s, a).tasks[i].pc == pc && Steps(s, a).rx.pc == RX_IDLE
    ensures Cheated(Steps(s, a + b), i) && Steps(s, a + b).epoch == s.epoch + 1
  {
    hide Step, Own, Opening, Resuming, Succeeding;
    var w := s.tasks[i].word;
    HarmOpens(s, i);
    var a1 := RunOpening(s, i, w, s.rx, s.log, s.epoch, false, pc);
    var s1 := Steps(s, a1);
    OpeningKeepsRx(s1, i, w, s.rx, s.log, s.epoch);
    OpeningResumes(s1, i, w, s.rx, s.log, s.epoch);
    var a2 := RunToSigned(s1, i, s1.tasks[i], s.rx.d, s.log, s1.epoch, s1.sh.cmd.pending, s1.sh.cmd.rejected);
    var s2 := Steps(s1, a2);
    ResumingIsSigned(s2, i, s1.tasks[i], s.rx.d, s.log, s.epoch, s1);
    ResumingKeepsTask(s2, i, s1.tasks[i], s.rx.d, s.log, s1.epoch, s1.sh.cmd.pending, s1.sh.cmd.rejected);
    StepsConcat(s, a1, a2);
    a := a1 + a2;
    var b1 := RunOpening(s2, i, w, s2.rx, s.log, s.epoch, true, PC_RAISE_WRITTEN);
    var s3 := Steps(s2, b1);
    SignedSucceeds(s3, i, w, s2.rx, s.log, s.epoch);
    var b2 := RunToSuccess(s3, i, w, s.log, s.epoch + 1);
    StepsConcat(s2, b1, b2);
    b := b1 + b2;
    StepsConcat(s, a, b);
    SucceedingCheats(Steps(s, a + b), i, w, s.log, s.epoch);
  }

  lemma OpeningKeepsRx(s: Sys, i: nat, w: Word, rx: Rx, log: seq<Delivery>, epoch: nat)
    requires Opening(s, i, w, rx, log, epoch, false)
    ensures s.rx == rx && i < |s.tasks|
  {
  }

  lemma ResumingKeepsTask(s: Sys, i: nat, t: Task, d: Delivery, log: seq<Delivery>, epoch: nat,
                          pending: Word, rejected: bool)
    requires Resuming(s, i, t, d, log, epoch, pending, rejected)
    ensures i < |s.tasks| && s.tasks[i] == t
  {
  }

  /**
   * The condition is exact: from every reachable state in which a step is harmful there is a
   * continuation in which the command returns LMQTT_OK with no delivery of its own.
   */
  lemma HarmIsReal(n: nat, schedule: seq<Choice>, i: nat)
    requires Harmful(Steps(Init(n), schedule), Run(i, false))
    ensures exists more :: Cheated(Steps(Init(n), schedule + more), i)
  {
    hide Step, Own, Cheated;
    var s := Steps(Init(n), schedule);
    EpochsAreBounded(n, schedule);
    var a, b := HarmVia(s, i, PC_RAISE_WRITTEN);
    StepsConcat(Init(n), schedule, a + b);
    assert Cheated(Steps(Init(n), schedule + (a + b)), i);
  }

  /**
   * Asking only that no delivery is stalled when the word is published is too weak: one that was
   * stalled past its check when the signature was cleared can sign the slot before the publication,
   * be gone by then, and still be claimed.
   */
  lemma PublicationIsTooLate(n: nat, schedule: seq<Choice>, i: nat)
    requires Harmful(Steps(Init(n), schedule), Run(i, false))
    requires Steps(Init(n), schedule).rx.pc != RX_CHECK
    ensures exists a, b ::
              var before := Steps(Init(n), schedule + a);
              && i < |before.tasks| && before.tasks[i].pc == PC_PUBLISH && before.rx.pc == RX_IDLE
              && Cheated(Steps(Init(n), schedule + a + b), i)
  {
    hide Step, Own, Cheated;
    var s := Steps(Init(n), schedule);
    EpochsAreBounded(n, schedule);
    var a, b := HarmVia(s, i, PC_PUBLISH);
    StepsConcat(Init(n), schedule, a);
    StepsConcat(Init(n), schedule, a + b);
    assert schedule + (a + b) == schedule + a + b;
    assert Cheated(Steps(Init(n), schedule + a + b), i);
  }

  // ---- and harmful states are reachable ----

  /** Starting a command and running it up to the store that clears the signature. */
  lemma StartRun(s: Sys, kind: Kind, msgid: MsgId, sends: nat) returns (schedule: seq<Choice>)
    requires |s.tasks| == 1 && s.tasks[0].pc == PC_IDLE && s.owner.None?
    ensures var s' := Steps(s, schedule);
            && Opening(s', 0, Pack(kind, msgid), s.rx, s.log, s.epoch, false)
            && s'.tasks[0].pc == PC_RESET_DELIVERED && s'.tasks[0].sends == sends && |s'.tasks| == 1
  {
    hide CmdStep;
    var start, r := Start(0, kind, msgid, sends), Run(0, false);
    var s1 := Step(s, start);
    var s2 := Step(s1, r);
    TwoResets(s1.sh, s1.tasks[0]);
    StepsCons(s2, r, []);
    StepsCons(s1, r, [r]);
    StepsCons(s, start, [r, r]);
    assert [r] + [] == [r] && [r] + [r] == [r, r];
    schedule := [start] + [r, r];
  }

  lemma TwoResets(sh: Shared, t: Task)
    requires t.pc == PC_RESET_RESULT
    ensures var (sh1, t1) := CmdStep(sh, t, false);
            var (sh2, t2) := CmdStep(sh1, t1, false);
            t1.pc == PC_RESET_EXTRA && t2 == t.(pc := PC_RESET_DELIVERED)
  {
    hide OpenStep, AckStep, UrcStep, ClaimStep, OuterStep;
  }

  /** A failing write makes the command give up at once. */
  lemma FailRun(s: Sys) returns (schedule: seq<Choice>)
    requires |s.tasks| == 1 && s.owner == Some(0) && s.tasks[0].pc == PC_SENDING && s.tasks[0].sends > 0
    ensures var s' := Steps(s, schedule);
            |s'.tasks| == 1 && s'.tasks[0].pc == PC_IDLE && s'.owner.None? && s'.rx == s.rx
  {
    hide CmdStep;
    var f, r := Run(0, true), Run(0, false);
    var s1 := Step(s, f);
    var s2 := Step(s1, r);
    var s3 := Step(s2, r);
    FourFailing(s.sh, s.tasks[0]);
    StepsCons(s3, r, []);
    StepsCons(s2, r, [r]);
    StepsCons(s1, r, [r, r]);
    StepsCons(s, f, [r, r, r]);
    assert [r] + [] == [r] && [r] + [r] == [r, r] && [r] + [r, r] == [r, r, r];
    schedule := [f] + [r, r, r];
  }

  lemma FourFailing(sh: Shared, t: Task)
    requires t.pc == PC_SENDING && t.sends > 0
    ensures var (sh1, t1) := CmdStep(sh, t, true);
            var (sh2, t2) := CmdStep(sh1, t1, false);
            var (sh3, t3) := CmdStep(sh2, t2, false);
            t1.pc == PC_CLEAR_BUSY && t2.pc == PC_CLEAR_PENDING && t3.pc == PC_UNLOCK
            && CmdStep(sh3, t3, false).1.pc == PC_IDLE
  {
    hide ResetStep, OpenStep, AckStep, UrcStep, ClaimStep;
  }

  /** The receive task picks up the result URC of the command in flight and passes its check. */
  lemma StallRun(s: Sys, line: string) returns (schedule: seq<Choice>)
    requires Classify(line) == Result(KIND_OPEN, false, 0, 0, 0) && s.rx.pc == RX_IDLE
    requires s.sh.cmd.pending == Pack(KIND_OPEN, 0)
    ensures var s' := Steps(s, schedule);
            && s'.rx.pc == RX_RESULT && s'.rx.d.word == Pack(KIND_OPEN, 0) && s'.rx.d.line == Classify(line)
            && s'.tasks == s.tasks && s'.owner == s.owner
  {
    hide Classify;
    PackUnpack(KIND_OPEN, 0);
    var c := Receive(line);
    var s1 := Step(s, c);
    assert s1.rx.pc == RX_CHECK;
    StepsCons(s1, RunRx, []);
    StepsCons(s, c, [RunRx]);
    assert [RunRx] + [] == [RunRx];
    schedule := [c] + [RunRx];
  }

  /** An OPEN whose write fails, and its late URC stalled past its check. */
  lemma StalledOpen() returns (schedule: seq<Choice>)
    ensures var s := Steps(Init(1), schedule);
            && |s.tasks| == 1 && s.tasks[0].pc == PC_IDLE && s.owner.None?
            && s.rx.pc == RX_RESULT && s.rx.d.word == Pack(KIND_OPEN, 0)
            && s.rx.d.line == Result(KIND_OPEN, false, 0, 0, 0)
  {
    hide Step, Opening, Classify;
    var w := Pack(KIND_OPEN, 0);
    PackUnpack(KIND_OPEN, 0);
    var s0 := Init(1);
    var a := StartRun(s0, KIND_OPEN, 0, 1);
    var s1 := Steps(s0, a);
    var b := RunOpening(s1, 0, w, s0.rx, [], 0, false, PC_SENDING);
    var s2 := Steps(s1, b);
    OpeningAtSending(s2, w, s0.rx);
    OneTask(s1, b);
    var line := OpenedLine();
    var c := StallRun(s2, line);
    var s3 := Steps(s2, c);
    var d := FailRun(s3);
    StepsConcat(s0, a, b);
    StepsConcat(s0, a + b, c);
    StepsConcat(s0, a + b + c, d);
    schedule := a + b + c + d;
  }

  /** The condition is not vacuous: after that the next OPEN reaches the harmful moment. */
  lemma HarmIsReachable()
    ensures exists schedule ::
              Harmful(Steps(Init(1), schedule), Run(0, false)) && Steps(Init(1), schedule).rx.pc == RX_RESULT
  {
    hide Step, Opening, Classify;
    var a := StalledOpen();
    PackUnpack(KIND_OPEN, 0);
    var s := Steps(Init(1), a);
    var b := StartRun(s, KIND_OPEN, 0, 1);
    OpeningKeepsRx(Steps(s, b), 0, Pack(KIND_OPEN, 0), s.rx, s.log, s.epoch);
    OpeningIsOwned(Steps(s, b), Pack(KIND_OPEN, 0), s.rx, s.log, s.epoch);
    StepsConcat(Init(1), a, b);
    assert Harmful(Steps(Init(1), a + b), Run(0, false));
  }

  lemma OpeningAtSending(s: Sys, w: Word, rx: Rx)
    requires Opening(s, 0, w, rx, [], 0, false) && s.tasks[0].pc == PC_SENDING
    ensures s.rx == rx && s.owner == Some(0) && s.sh.cmd.pending == w
  {
  }

  lemma OpeningIsOwned(s: Sys, w: Word, rx: Rx, log: seq<Delivery>, epoch: nat)
    requires Opening(s, 0, w, rx, log, epoch, false)
    ensures s.owner == Some(0) && s.tasks[0].word == w
  {
  }

  lemma {:induction false} OneTask(s: Sys, schedule: seq<Choice>)
    ensures |Steps(s, schedule).tasks| == |s.tasks|
  {
    hide CmdStep, RxStores, RxNext, RxOrigin, Classify, Matches;
    if schedule != [] {
      OneTask(s, schedule[..|schedule| - 1]);
    }
  }
}
