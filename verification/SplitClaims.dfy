/**
 * Claim safety command by command: whether a command can claim a result that is not its own is
 * decided at its own clearing of the signature, whatever happened to the commands before it.
 */
module SplitClaims {
  import opened Basics
  import opened PairingWord
  import opened LineSyntax
  import opened EngineState
  import opened CommandSteps
  import opened SplitDispatch
  import opened SplitTimeouts

  /**
   * Task `i` is about to return LMQTT_OK from the command that was the next to publish after `epoch`
   * publications.
   */
  predicate Succeeded(s: Sys, i: nat, epoch: nat) {
    && i < |s.tasks| && s.tasks[i].pc == PC_UNLOCK && s.tasks[i].rc == LMQTT_OK
    && s.epoch == epoch + 1
  }

  /** The values it returns are those of deliveries that snapshotted its word after it published it. */
  predicate ClaimsOwn(s: Sys, i: nat, w: Word)
    requires i < |s.tasks|
  {
    var t, r, e := s.tasks[i], s.out.result, s.out.extra;
    && t.word == w && OwnOrigin(r, w, s.epoch) && t.outResult == r.value.line.result
    && OwnOrigin(e, w, s.epoch) && t.outExtra == e.value.line.extend
    && r.value in s.log && e.value in s.log
  }

  /** From its clearing of the signature to its return, the command keeps the invariant. */
  predicate Following(s: Sys, i: nat, w: Word, epoch: nat) {
    && s.epoch >= epoch && i < |s.tasks|
    && (s.epoch == epoch ==>
          && s.owner == Some(i) && PC_RESET_DELIVERED <= s.tasks[i].pc <= PC_PUBLISH
          && s.tasks[i].word == w && Inv(s)
          && (s.tasks[i].pc == PC_RESET_DELIVERED ==> !(Unsigned(s.rx) && s.rx.d.word == w)))
    && (s.epoch == epoch + 1 && PC_PUBLISH < s.tasks[i].pc ==> s.tasks[i].word == w && Inv(s))
  }

  /** Where the signature is being cleared the invariant asks nothing of the past. */
  lemma InvAtReset(s: Sys, i: nat)
    requires Sane(s) && i < |s.tasks| && s.tasks[i].pc == PC_RESET_DELIVERED
    ensures Inv(s) && s.owner == Some(i)
  {
    hide Truthful, Window;
  }

  lemma RunFollows(s: Sys, i: nat, w: Word, epoch: nat, fails: bool)
    requires Following(s, i, w, epoch) && s.owner == Some(i) && !NoResultUrc(w)
    requires Sane(s) && s.tasks[i].pc != PC_IDLE
    ensures Following(RunStep(s, i, fails), i, w, epoch)
  {
    hide CmdStep, Inv, Window, Truthful, Exclusive, NoResultUrc;
    var t := s.tasks[i];
    OwnerWindow(s, i);
    StepKeepsWindow(s.sh, t, fails);
    if t.pc <= PC_RESET_EXTRA {
      FirstResets(s.sh, t, fails);
    } else if t.pc < PC_UNLOCK {
      StepOnSlot(s.sh, t, fails);
    }
    if s.epoch == epoch || (s.epoch == epoch + 1 && PC_PUBLISH < t.pc) {
      RunKeepsInv(s, i, fails);
    }
  }

  /** While no word is published no delivery can be started, and one that is checked is dropped. */
  lemma RxFollows(s: Sys, i: nat, w: Word, epoch: nat)
    requires Following(s, i, w, epoch)
    ensures Following(RxStep(s), i, w, epoch)
  {
    hide Inv, RxStores, RxOrigin;
    if s.epoch == epoch || (s.epoch == epoch + 1 && PC_PUBLISH < s.tasks[i].pc) {
      RxKeepsInv(s);
    }
  }

  lemma ReceiveFollows(s: Sys, i: nat, w: Word, epoch: nat, line: string)
    requires Following(s, i, w, epoch) && Sane(s) && s.rx.pc == RX_IDLE
    ensures Following(BeginLine(s, Classify(line)), i, w, epoch)
  {
    hide Inv, Classify, Truthful, Window, IsStale;
    if s.epoch == epoch {
      OwnerWindow(s, i);
      PendingIs(s.sh.cmd, s.tasks[i]);
    }
    if s.epoch == epoch || (s.epoch == epoch + 1 && PC_PUBLISH < s.tasks[i].pc) {
      ReceiveKeepsInv(s, line);
    }
  }

  lemma StepFollows(s: Sys, c: Choice, i: nat, w: Word, epoch: nat)
    requires Following(s, i, w, epoch) && Sane(s) && !NoResultUrc(w)
    ensures Following(Step(s, c), i, w, epoch)
  {
    hide Inv, Sane, RunStep, RxStep, BeginLine, Classify, NoResultUrc;
    if c.Run? && c.task < |s.tasks| && s.owner == Some(c.task) {
      if c.task == i {
        OwnerRuns(s, i);
        RunFollows(s, i, w, epoch, c.fails);
      } else {
        OthersFollow(s, c.task, c.fails, i, w, epoch);
      }
    } else if c.Receive? && s.rx.pc == RX_IDLE {
      ReceiveFollows(s, i, w, epoch, c.line);
    } else if c.RunRx? {
      RxFollows(s, i, w, epoch);
    } else if c.Start? {
      StartFollows(s, c, i, w, epoch);
    }
  }

  lemma OwnerRuns(s: Sys, i: nat)
    requires Sane(s) && s.owner == Some(i)
    ensures i < |s.tasks| && s.tasks[i].pc != PC_IDLE
  {
    hide Truthful, Window;
  }

  /** Another task holds the lock, so task `i` is outside. */
  lemma OthersFollow(s: Sys, j: nat, fails: bool, i: nat, w: Word, epoch: nat)
    requires Following(s, i, w, epoch) && Sane(s) && j != i && j < |s.tasks| && s.owner == Some(j)
    ensures Following(RunStep(s, j, fails), i, w, epoch)
  {
    hide Truthful, Window, CmdStep, Inv;
  }

  lemma StartFollows(s: Sys, c: Choice, i: nat, w: Word, epoch: nat)
    requires c.Start? && Following(s, i, w, epoch) && Sane(s)
    ensures Following(Step(s, c), i, w, epoch)
  {
    hide Truthful, Window, Inv;
  }

  lemma {:induction false} StaysFollowing(n: nat, schedule: seq<Choice>, more: seq<Choice>, i: nat, w: Word, epoch: nat)
    requires Following(Steps(Init(n), schedule), i, w, epoch) && !NoResultUrc(w)
    ensures Following(Steps(Init(n), schedule + more), i, w, epoch)
    decreases |more|
  {
    hide Step, Following, Sane, NoResultUrc;
    if more == [] {
      assert schedule + more == schedule;
    } else {
      var front := more[..|more| - 1];
      StaysFollowing(n, schedule, front, i, w, epoch);
      AlwaysSane(n, schedule + front);
      StepFollows(Steps(Init(n), schedule + front), more[|more| - 1], i, w, epoch);
      assert (schedule + more)[..|schedule + more| - 1] == schedule + front;
    }
  }

  /**
   * Claim safety of one command: if the step that clears the signature is not harmful, every return
   * of that command with LMQTT_OK has values of its own deliveries, however harmful the steps of
   * earlier and later commands are.
   */
  lemma {:induction false} OwnResetDecides(n: nat, schedule: seq<Choice>, more: seq<Choice>, i: nat)
    requires var s := Steps(Init(n), schedule);
             && i < |s.tasks| && s.tasks[i].pc == PC_RESET_DELIVERED && !NoResultUrc(s.tasks[i].word)
             && !Harmful(s, Run(i, false))
    ensures var s, s' := Steps(Init(n), schedule), Steps(Init(n), schedule + more);
            Succeeded(s', i, s.epoch) ==> ClaimsOwn(s', i, s.tasks[i].word)
  {
    hide Step, Steps, Sane, NoResultUrc, Inv;
    var s := Steps(Init(n), schedule);
    AlwaysSane(n, schedule);
    InvAtReset(s, i);
    StaysFollowing(n, schedule, more, i, s.tasks[i].word, s.epoch);
    var s' := Steps(Init(n), schedule + more);
    if Succeeded(s', i, s.epoch) {
      AlwaysSane(n, schedule + more);
      OwnerWindow(s', i);
      InvClaims(s', i);
    }
  }

  lemma InvClaims(s: Sys, i: nat)
    requires Inv(s) && s.owner == Some(i) && i < |s.tasks| && !NoResultUrc(s.tasks[i].word)
    requires s.tasks[i].pc == PC_UNLOCK && s.tasks[i].rc == LMQTT_OK
    ensures ClaimsOwn(s, i, s.tasks[i].word)
  {
    hide Slot, Guarded, Matches, NoResultUrc;
  }

  /** A return of the command with LMQTT_OK although no delivery of its own had even been started. */
  predicate ClaimsStale(s: Sys, i: nat, epoch: nat) {
    Succeeded(s, i, epoch) && Cheated(s, i)
  }

  /**
   * The condition is exact for every single command, in every reachable state: it can return LMQTT_OK
   * with no delivery of its own if and only if its clearing of the signature is a harmful step.
   */
  lemma {:induction false} StaleClaimIffHarmful(n: nat, schedule: seq<Choice>, i: nat)
    requires var s := Steps(Init(n), schedule);
             i < |s.tasks| && s.tasks[i].pc == PC_RESET_DELIVERED && !NoResultUrc(s.tasks[i].word)
    ensures var s := Steps(Init(n), schedule);
            (exists more :: ClaimsStale(Steps(Init(n), schedule + more), i, s.epoch))
            <==> Harmful(s, Run(i, false))
  {
    hide Step, Steps, Own, Harmful, Cheated, NoResultUrc;
    var s := Steps(Init(n), schedule);
    if Harmful(s, Run(i, false)) {
      EpochsAreBounded(n, schedule);
      var a, b := HarmVia(s, i, PC_RAISE_WRITTEN);
      StepsConcat(Init(n), schedule, a + b);
      CheatedReturns(Steps(s, a + b), i);
      assert ClaimsStale(Steps(Init(n), schedule + (a + b)), i, s.epoch);
    } else {
      forall more ensures !ClaimsStale(Steps(Init(n), schedule + more), i, s.epoch) {
        OwnResetDecides(n, schedule, more, i);
        OwnIsNoCheat(Steps(Init(n), schedule + more), i, s.tasks[i].word);
      }
    }
  }

  lemma CheatedReturns(s: Sys, i: nat)
    requires Cheated(s, i)
    ensures i < |s.tasks| && s.tasks[i].pc == PC_UNLOCK && s.tasks[i].rc == LMQTT_OK
  {
  }

  lemma OwnIsNoCheat(s: Sys, i: nat, w: Word)
    ensures i < |s.tasks| && ClaimsOwn(s, i, w) ==> !Cheated(s, i)
  {
    hide Own;
  }
}
