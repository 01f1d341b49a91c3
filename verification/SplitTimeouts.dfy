/**
 * What a command leaves in the result slot when both sides are preempted at every shared access: the
 * reset values, or the values of a result URC dispatched in its own window, unless a delivery of an
 * earlier command is stalled between its check and its last value while the slot is being reset.
 */
module SplitTimeouts {
  import opened Basics
  import opened PairingWord
  import opened LineSyntax
  import opened EngineState
  import opened CommandSteps
  import opened SplitDispatch

  // ---- the condition ----

  /** The receive task holds a delivery whose result, or whose extend, it can still store. */
  predicate HoldsResult(rx: Rx, w: Word) {
    rx.d.line.Result? && (rx.pc == RX_RESULT || (rx.pc == RX_CHECK && rx.d.word == w))
  }

  predicate HoldsExtra(rx: Rx, w: Word) {
    HoldsResult(rx, w) || (rx.d.line.Result? && rx.pc == RX_EXTRA)
  }

  /** Where a command with word `w` starts its resets, such a delivery has other values than theirs. */
  predicate Spoils(rx: Rx, w: Word) {
    (HoldsResult(rx, w) && rx.d.line.result != -1) || (HoldsExtra(rx, w) && rx.d.line.extend != 0)
  }

  /** No result URC for the running command has been dispatched since its publication. */
  predicate NoneOwn(s: Sys, w: Word) {
    forall d | d in s.log :: !Own(d, w, s.epoch)
  }

  /** Task `i` is about to return from its `b`-th command, which timed out. */
  predicate TimedOut(s: Sys, i: nat, b: nat) {
    i < |s.tasks| && s.tasks[i].begins == b && s.tasks[i].pc == PC_UNLOCK && s.tasks[i].rc == ERR_TIMEOUT
  }

  // ---- without it the slot keeps its reset values ----

  /** A value is the one the reset stored, or that of a result URC dispatched in the command's window. */
  predicate ResultExplained(log: seq<Delivery>, epoch: nat, w: Word, published: bool, value: int) {
    value == -1
    || (published && exists d :: d in log && Own(d, w, epoch) && value == d.line.result)
  }

  predicate ExtraExplained(log: seq<Delivery>, epoch: nat, w: Word, published: bool, value: int) {
    value == 0
    || (published && exists d :: d in log && Own(d, w, epoch) && value == d.line.extend)
  }

  /** The `b`-th command of task `i`: what is in the slot, and what the receive task can still store. */
  predicate Explained(s: Sys, t: Task, w: Word) {
    var published := PC_PUBLISH < t.pc;
    && t.word == w
    && (HoldsResult(s.rx, w) ==> ResultExplained(s.log, s.epoch, w, published, s.rx.d.line.result))
    && (HoldsExtra(s.rx, w) ==> ExtraExplained(s.log, s.epoch, w, published, s.rx.d.line.extend))
    && (PC_RESET_RESULT < t.pc ==> ResultExplained(s.log, s.epoch, w, published, s.sh.cmd.result))
    && (PC_RESET_EXTRA < t.pc ==> ExtraExplained(s.log, s.epoch, w, published, s.sh.cmd.extra))
  }

  predicate Kept(s: Sys, i: nat, w: Word, b: nat) {
    && i < |s.tasks| && s.tasks[i].begins >= b
    && (s.tasks[i].begins == b && s.tasks[i].pc != PC_IDLE ==> Explained(s, s.tasks[i], w))
  }

  lemma BeginLineExplained(s: Sys, t: Task, w: Word, l: Line)
    requires Explained(s, t, w) && Window(s.sh.cmd, t) && s.rx.pc == RX_IDLE
    ensures Explained(BeginLine(s, l), t, w)
  {
    hide IsStale, Window;
    var s' := BeginLine(s, l);
    PendingIs(s.sh.cmd, t);
    assert forall d | d in s.log :: d in s'.log;
    if s'.rx.pc == RX_CHECK {
      assert s'.rx.d in s'.log;
    }
  }

  lemma PendingIs(c: Cmd, t: Task)
    requires Window(c, t)
    ensures c.pending == (if PC_PUBLISH < t.pc <= PC_CLEAR_PENDING then t.word else IDLE)
  {
  }

  /** What a receive step stores, and what it can still store afterwards. */
  lemma RxOnValues(rx: Rx, c: Cmd, w: Word)
    requires rx.pc == RX_CHECK ==> rx.d.line.Result? && (c.pending == w || c.pending != rx.d.word)
    ensures var c', rx' := RxStores(rx, c), rx.(pc := RxNext(rx, c));
            && (HoldsResult(rx', w) ==> HoldsResult(rx, w))
            && (HoldsExtra(rx', w) ==> HoldsExtra(rx, w))
            && (c'.result == c.result || (HoldsResult(rx, w) && c'.result == rx.d.line.result))
            && (c'.extra == c.extra || (HoldsExtra(rx, w) && c'.extra == rx.d.line.extend))
  {
    if rx.pc <= RX_CHECK {
    } else if rx.pc <= RX_EXTRA {
    } else if rx.pc <= RX_GOT {
    }
  }

  lemma RxExplained(s: Sys, t: Task, w: Word)
    requires Explained(s, t, w) && Window(s.sh.cmd, t) && Truthful(s)
    ensures Explained(RxStep(s), t, w)
  {
    hide Window, ResultExplained, ExtraExplained, Truthful, RxStores, RxNext, RxOrigin, HoldsResult, HoldsExtra;
    PendingIs(s.sh.cmd, t);
    if s.rx.pc == RX_CHECK {
      CheckedWord(s);
    }
    RxOnValues(s.rx, s.sh.cmd, w);
  }

  /** A delivery never holds the idle word, so its check fails while no command is published. */
  lemma CheckedWord(s: Sys)
    requires Truthful(s) && s.rx.pc == RX_CHECK
    ensures s.rx.d.word != IDLE && s.rx.d.line.Result?
  {
    hide IsStale;
  }

  lemma RunExplained(s: Sys, i: nat, fails: bool, w: Word)
    requires i < |s.tasks| && Explained(s, s.tasks[i], w)
    requires PC_IDLE < s.tasks[i].pc < PC_UNLOCK
    ensures Explained(RunStep(s, i, fails), RunStep(s, i, fails).tasks[i], w)
  {
    hide CmdStep, Own, HoldsResult;
    var t := s.tasks[i];
    if t.pc <= PC_RESET_EXTRA {
      ResetValues(s.sh, t, fails);
    } else {
      StepOnSlot(s.sh, t, fails);
    }
  }

  lemma ResetValues(sh: Shared, t: Task, fails: bool)
    requires t.pc == PC_RESET_RESULT || t.pc == PC_RESET_EXTRA
    ensures var (sh', t') := CmdStep(sh, t, fails);
            && t'.pc == t.pc + 1 && t'.word == t.word
            && sh'.cmd.result == (if t.pc == PC_RESET_RESULT then -1 else sh.cmd.result)
            && sh'.cmd.extra == (if t.pc == PC_RESET_EXTRA then 0 else sh.cmd.extra)
  {
  }

  /** What holds in every reachable state, harmful steps or not. */
  predicate Sane(s: Sys) {
    Guarded(s.sh.cmd, s.tasks, s.owner) && Truthful(s)
  }

  lemma StepKeepsTruthful(s: Sys, c: Choice)
    requires Sane(s)
    ensures Truthful(Step(s, c))
  {
    hide Truthful, RunStep, RxStep, BeginLine, Classify, Window;
    if c.Start? {
      StartKeepsTruthful(s, c);
    } else if c.Run? && c.task < |s.tasks| && s.owner == Some(c.task) {
      ExclusiveOwner(s.tasks, s.owner);
      RunKeepsTruthful(s, c.task, c.fails);
    } else if c.Receive? && s.rx.pc == RX_IDLE {
      ReceiveKeepsTruthful(s, Classify(c.line));
    } else if c.RunRx? {
      RxKeepsTruthful(s);
    }
  }

  lemma StartKeepsTruthful(s: Sys, c: Choice)
    requires c.Start? && Truthful(s)
    ensures Truthful(Step(s, c))
  {
    hide Matches;
  }

  lemma {:induction false} AlwaysSane(n: nat, schedule: seq<Choice>)
    ensures Sane(Steps(Init(n), schedule))
  {
    hide Step, Guarded, Truthful;
    EpochsAreBounded(n, schedule);
    if schedule == [] {
      InitIsTruthful(n);
    } else {
      AlwaysSane(n, schedule[..|schedule| - 1]);
      StepKeepsTruthful(Steps(Init(n), schedule[..|schedule| - 1]), schedule[|schedule| - 1]);
    }
  }

  lemma InitIsTruthful(n: nat)
    ensures Truthful(Init(n))
  {
  }

  lemma RunKeepsKept(s: Sys, j: nat, fails: bool, i: nat, w: Word, b: nat)
    requires Sane(s) && Kept(s, i, w, b) && j < |s.tasks| && s.owner == Some(j)
    ensures Kept(RunStep(s, j, fails), i, w, b)
  {
    hide CmdStep, Window, Truthful, Explained;
    ExclusiveOwner(s.tasks, s.owner);
    StepKeepsWindow(s.sh, s.tasks[j], fails);
    if j == i && s.tasks[i].pc < PC_UNLOCK && s.tasks[i].begins == b {
      RunExplained(s, i, fails, w);
    }
  }

  lemma OwnerWindow(s: Sys, i: nat)
    requires Sane(s) && i < |s.tasks| && s.tasks[i].pc != PC_IDLE
    ensures s.owner == Some(i) && Window(s.sh.cmd, s.tasks[i])
  {
    hide Truthful, Window;
  }

  lemma StepKeepsKept(s: Sys, c: Choice, i: nat, w: Word, b: nat)
    requires Sane(s) && Kept(s, i, w, b)
    ensures Kept(Step(s, c), i, w, b)
  {
    hide Sane, RunStep, Explained, Classify, Window;
    if i < |s.tasks| && s.tasks[i].pc != PC_IDLE {
      OwnerWindow(s, i);
    }
    var live := s.tasks[i].pc != PC_IDLE && s.tasks[i].begins == b;
    if c.Run? && c.task < |s.tasks| && s.owner == Some(c.task) {
      RunKeepsKept(s, c.task, c.fails, i, w, b);
    } else if c.Receive? && s.rx.pc == RX_IDLE && live {
      BeginLineExplained(s, s.tasks[i], w, Classify(c.line));
    } else if c.RunRx? && live {
      SaneIsTruthful(s);
      RxExplained(s, s.tasks[i], w);
    } else if c.Start? && live {
      StartElsewhere(s, c, i);
    }
  }

  lemma SaneIsTruthful(s: Sys)
    requires Sane(s)
    ensures Truthful(s)
  {
  }

  lemma StartElsewhere(s: Sys, c: Choice, i: nat)
    requires c.Start? && i < |s.tasks| && s.owner == Some(i)
    ensures Step(s, c) == s
  {
  }

  /** The values seen at any later moment of a command that started its resets unspoiled. */
  lemma {:induction false} StaysKept(n: nat, schedule: seq<Choice>, more: seq<Choice>, i: nat, w: Word, b: nat)
    requires Kept(Steps(Init(n), schedule), i, w, b)
    ensures Kept(Steps(Init(n), schedule + more), i, w, b)
    decreases |more|
  {
    hide Step, Kept, Sane;
    if more == [] {
      assert schedule + more == schedule;
    } else {
      var front := more[..|more| - 1];
      StaysKept(n, schedule, front, i, w, b);
      AlwaysSane(n, schedule + front);
      StepKeepsKept(Steps(Init(n), schedule + front), more[|more| - 1], i, w, b);
      assert (schedule + more)[..|schedule + more| - 1] == schedule + front;
    }
  }

  /**
   * A command that starts its resets while no stalled delivery holds other values returns with the
   * reset values -1 and 0, or with values of result URCs dispatched in its own window; with no such
   * URC, whatever it returns, the slot shows exactly the reset values.
   */
  lemma {:induction false} ResetValuesStay(n: nat, schedule: seq<Choice>, more: seq<Choice>, i: nat)
    requires var s := Steps(Init(n), schedule);
             i < |s.tasks| && s.tasks[i].pc == PC_RESET_RESULT && !Spoils(s.rx, s.tasks[i].word)
    ensures var s, s' := Steps(Init(n), schedule), Steps(Init(n), schedule + more);
            i < |s'.tasks| && s'.tasks[i].begins == s.tasks[i].begins && s'.tasks[i].pc == PC_UNLOCK ==>
              var w := s.tasks[i].word;
              && s'.tasks[i].word == w
              && ResultExplained(s'.log, s'.epoch, w, true, s'.sh.cmd.result)
              && ExtraExplained(s'.log, s'.epoch, w, true, s'.sh.cmd.extra)
              && (NoneOwn(s', w) ==> s'.sh.cmd.result == -1 && s'.sh.cmd.extra == 0)
  {
    hide Step, Steps, Own;
    var s := Steps(Init(n), schedule);
    StaysKept(n, schedule, more, i, s.tasks[i].word, s.tasks[i].begins);
  }

  // ---- with it a timeout can show the values of an earlier command ----

  /** Task `i` on its way to an acknowledgement timeout, the receive task not moving. */
  predicate Starved(s: Sys, i: nat, w: Word, b: nat, rx: Rx, log: seq<Delivery>, epoch: nat) {
    && s.owner == Some(i) && i < |s.tasks| && s.rx == rx && s.log == log
    && s.tasks[i].word == w && s.tasks[i].begins == b && Hungry(s.sh.cmd, s.tasks[i])
    && s.epoch == (if PC_PUBLISH < s.tasks[i].pc then epoch + 1 else epoch)
  }

  predicate Hungry(c: Cmd, t: Task) {
    && (PC_RESET_RESULT <= t.pc <= PC_ACK_GOT || t.pc == PC_STORE_ACK_TMO
        || (PC_CLEAR_BUSY <= t.pc && t.rc == ERR_TIMEOUT))
    && (PC_RESET_GOT < t.pc <= PC_ACK_GOT ==> !c.got)
    && (PC_SEM_RESET < t.pc <= PC_TAKE_ACK ==> !c.token)
    && (PC_PUBLISH < t.pc <= PC_RAISE_WRITTEN ==> c.pending == t.word)
  }

  predicate HungryEffect(sh: Shared, t: Task, sh': Shared, t': Task) {
    && Hungry(sh'.cmd, t') && t'.word == t.word && t'.begins == t.begins
    && (t'.pc > t.pc || (t.pc == t'.pc == PC_SENDING && t'.sends < t.sends))
    && (t.pc < PC_RAISE_WRITTEN ==> t'.pc <= t.pc + 1)
    && (t.pc != PC_PUBLISH ==> (PC_PUBLISH < t'.pc <==> PC_PUBLISH < t.pc))
    && (t.pc == PC_PUBLISH ==> PC_PUBLISH < t'.pc)
    && (PC_RESET_EXTRA < t.pc ==> sh'.cmd.result == sh.cmd.result && sh'.cmd.extra == sh.cmd.extra)
  }

  lemma HungryBegin(sh: Shared, t: Task)
    requires Hungry(sh.cmd, t)
    ensures t.pc <= PC_RESET_STAGE ==> var (sh', t') := ResetStep(sh, t); HungryEffect(sh, t, sh', t')
    ensures PC_RESET_STAGE < t.pc <= PC_SEM_RESET ==> var (sh', t') := OpenStep(sh, t); HungryEffect(sh, t, sh', t')
  {
  }

  lemma HungryEnd(sh: Shared, t: Task)
    requires Hungry(sh.cmd, t)
    ensures PC_SENDING < t.pc <= PC_STORE_ACK_TMO ==> var (sh', t') := AckStep(sh, t); HungryEffect(sh, t, sh', t')
    ensures t.pc == PC_SENDING || PC_CLEAR_BUSY <= t.pc < PC_UNLOCK ==>
              var (sh', t') := OuterStep(sh, t, false); HungryEffect(sh, t, sh', t')
  {
  }

  lemma HungryStep(sh: Shared, t: Task)
    requires Hungry(sh.cmd, t) && t.pc < PC_UNLOCK
    ensures var (sh', t') := CmdStep(sh, t, false); HungryEffect(sh, t, sh', t')
  {
    hide HungryEffect, ResetStep, OpenStep, AckStep, UrcStep, ClaimStep, OuterStep;
    HungryBegin(sh, t);
    HungryEnd(sh, t);
  }

  lemma StarvedStep(s: Sys, i: nat, w: Word, b: nat, rx: Rx, log: seq<Delivery>, epoch: nat)
    requires Starved(s, i, w, b, rx, log, epoch) && s.tasks[i].pc < PC_UNLOCK
    ensures var s' := Step(s, Run(i, false));
            && Starved(s', i, w, b, rx, log, epoch)
            && HungryEffect(s.sh, s.tasks[i], s'.sh, s'.tasks[i])
  {
    hide CmdStep, Hungry;
    HungryStep(s.sh, s.tasks[i]);
  }

  lemma RunStarved(s: Sys, i: nat, w: Word, b: nat, rx: Rx, log: seq<Delivery>, epoch: nat, target: Pc)
    returns (schedule: seq<Choice>)
    requires Starved(s, i, w, b, rx, log, epoch) && s.tasks[i].pc <= target
    requires target == PC_RAISE_WRITTEN || target == PC_UNLOCK
    ensures var s' := Steps(s, schedule);
            && Starved(s', i, w, b, rx, log, epoch) && s'.tasks[i].pc == target
            && (PC_RESET_EXTRA < s.tasks[i].pc ==>
                  s'.sh.cmd.result == s.sh.cmd.result && s'.sh.cmd.extra == s.sh.cmd.extra)
    decreases PC_UNLOCK - s.tasks[i].pc, s.tasks[i].sends
  {
    hide Step, Hungry;
    if s.tasks[i].pc == target {
      schedule := [];
    } else {
      StarvedStep(s, i, w, b, rx, log, epoch);
      var rest := RunStarved(Step(s, Run(i, false)), i, w, b, rx, log, epoch, target);
      StepsCons(s, Run(i, false), rest);
      schedule := [Run(i, false)] + rest;
    }
  }

  /**
   * The stalled delivery resumes while the command waits, stores its values and stalls again before it
   * signs them. `whole` says that it had not stored its result yet.
   */
  predicate Storing(s: Sys, i: nat, t: Task, d: Delivery, log: seq<Delivery>, epoch: nat, whole: bool) {
    && s.owner == Some(i) && i < |s.tasks| && s.tasks[i] == t && s.log == log && s.epoch == epoch
    && s.rx.d == d && d.line.Result? && RX_CHECK <= s.rx.pc <= RX_DELIVERED && Hungry(s.sh.cmd, t)
    && t.pc == PC_RAISE_WRITTEN && (s.rx.pc == RX_CHECK ==> s.sh.cmd.pending == d.word)
    && (RX_EXTRA <= s.rx.pc && whole ==> s.sh.cmd.result == d.line.result)
    && (s.rx.pc == RX_DELIVERED ==> s.sh.cmd.extra == d.line.extend)
  }

  lemma RunStoring(s: Sys, i: nat, t: Task, d: Delivery, log: seq<Delivery>, epoch: nat, whole: bool)
    returns (schedule: seq<Choice>)
    requires Storing(s, i, t, d, log, epoch, whole)
    ensures var s' := Steps(s, schedule);
            Storing(s', i, t, d, log, epoch, whole) && s'.rx.pc == RX_DELIVERED && s'.rx.isOk == s.rx.isOk
    decreases RX_DELIVERED - s.rx.pc
  {
    hide CmdStep;
    if s.rx.pc == RX_DELIVERED {
      schedule := [];
    } else {
      var rest := RunStoring(Step(s, RunRx), i, t, d, log, epoch, whole);
      StepsCons(s, RunRx, rest);
      schedule := [RunRx] + rest;
    }
  }

  /** The command timed out without a result URC of its own, and the slot shows other than reset values. */
  predicate ShowsStale(s: Sys, i: nat, b: nat) {
    TimedOut(s, i, b) && NoneOwn(s, s.tasks[i].word) && !(s.sh.cmd.result == -1 && s.sh.cmd.extra == 0)
  }

  lemma SpoiledRun(s: Sys, i: nat) returns (schedule: seq<Choice>)
    requires Sane(s) && EpochsBounded(s) && i < |s.tasks| && s.tasks[i].pc == PC_RESET_RESULT
    requires Spoils(s.rx, s.tasks[i].word)
    ensures var s' := Steps(s, schedule);
            ShowsStale(s', i, s.tasks[i].begins) && s'.tasks[i].word == s.tasks[i].word && s'.rx.d == s.rx.d
            && (HoldsResult(s.rx, s.tasks[i].word) ==> s'.sh.cmd.result == s.rx.d.line.result)
            && s'.sh.cmd.extra == s.rx.d.line.extend
  {
    hide Step, Sane;
    var t := s.tasks[i];
    var w, b, d, whole := t.word, t.begins, s.rx.d, HoldsResult(s.rx, t.word);
    OwnerWindow(s, i);
    var a1 := RunStarved(s, i, w, b, s.rx, s.log, s.epoch, PC_RAISE_WRITTEN);
    var s1 := Steps(s, a1);
    var a2 := RunStoring(s1, i, s1.tasks[i], d, s.log, s.epoch + 1, whole);
    var s2 := Steps(s1, a2);
    var a3 := RunStarved(s2, i, w, b, s2.rx, s.log, s.epoch, PC_UNLOCK);
    StepsConcat(s, a1, a2);
    StepsConcat(s, a1 + a2, a3);
    schedule := a1 + a2 + a3;
  }

  /**
   * The condition is exact: a command that starts its resets can time out, with no result URC of its
   * own dispatched, and show other values than -1 and 0 afterwards, if and only if at that moment the
   * receive task is stalled in a delivery with other values, past its check or about to pass it.
   */
  lemma {:induction false} StaleTimeoutIffSpoiled(n: nat, schedule: seq<Choice>, i: nat)
    requires var s := Steps(Init(n), schedule); i < |s.tasks| && s.tasks[i].pc == PC_RESET_RESULT
    ensures var s := Steps(Init(n), schedule);
            (exists more :: ShowsStale(Steps(Init(n), schedule + more), i, s.tasks[i].begins))
            <==> Spoils(s.rx, s.tasks[i].word)
  {
    hide Step, Steps, Spoils, Own;
    var s := Steps(Init(n), schedule);
    if Spoils(s.rx, s.tasks[i].word) {
      AlwaysSane(n, schedule);
      EpochsAreBounded(n, schedule);
      var more := SpoiledRun(s, i);
      StepsConcat(Init(n), schedule, more);
      assert ShowsStale(Steps(Init(n), schedule + more), i, s.tasks[i].begins);
    } else {
      forall more ensures !ShowsStale(Steps(Init(n), schedule + more), i, s.tasks[i].begins) {
        ResetValuesStay(n, schedule, more, i);
      }
    }
  }

  /**
   * It happens: an OPEN whose write fails leaves its late URC stalled; the CLOSE that follows times
   * out, no line having been dispatched for it, and the last result is the OPEN's 0. The stalled
   * delivery has another word than the CLOSE, so this is not a harmful moment of SplitDispatch.
   */
  lemma StaleTimeoutHappens()
    ensures exists schedule ::
              var s := Steps(Init(1), schedule);
              && |s.tasks| > 0 && ShowsStale(s, 0, s.tasks[0].begins) && s.tasks[0].word == Pack(KIND_CLOSE, 0)
              && s.rx.d.word == Pack(KIND_OPEN, 0) && s.rx.d.line == Result(KIND_OPEN, false, 0, 0, 0)
              && s.sh.cmd.result == 0
  {
    hide Step, Steps, NoneOwn, Sane, EpochsBounded, Pack;
    var a := StalledOpen();
    var c := Start(0, KIND_CLOSE, 0, 0);
    var s := Steps(Init(1), a + [c]);
    StepsSnoc(Init(1), a, c);
    StartsResets(Steps(Init(1), a), c);
    AlwaysSane(1, a + [c]);
    EpochsAreBounded(1, a + [c]);
    var b := SpoiledRun(s, 0);
    StepsConcat(Init(1), a + [c], b);
    var s' := Steps(Init(1), a + [c] + b);
    assert ShowsStale(s', 0, s'.tasks[0].begins);
  }

  lemma StepsSnoc(s: Sys, schedule: seq<Choice>, c: Choice)
    ensures Steps(s, schedule + [c]) == Step(Steps(s, schedule), c)
  {
    hide Step;
    assert (schedule + [c])[..|schedule|] == schedule;
  }

  lemma StartsResets(s: Sys, c: Choice)
    requires c.Start? && c.task < |s.tasks| && s.tasks[c.task].pc == PC_IDLE && s.owner.None?
    ensures var s' := Step(s, c);
            && |s'.tasks| == |s.tasks| && s'.rx == s.rx
            && s'.tasks[c.task].pc == PC_RESET_RESULT && s'.tasks[c.task].word == Pack(c.kind, c.msgid)
  {
  }
}
