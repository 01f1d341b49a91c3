/**
 * The single steps of the command side put together again: run without interruption they are the
 * whole operations of EngineState, so both descriptions are of the same code.
 */
module WholeCommands {
  import opened Basics
  import opened PairingWord
  import opened EngineState
  import opened LineSyntax
  import opened Framing
  import opened CommandSteps

  type Point = (Shared, Task)

  function Next(p: Point): Point {
    CmdStep(p.0, p.1, false)
  }

  function Alone(p: Point, n: nat): Point
    decreases n
  {
    if n == 0 then p else Alone(Next(p), n - 1)
  }

  // ---- cmd_begin_common ----

  /** The command context once begin is through, whatever its statement `pc` still finds in it. */
  function BegunCmd(c: Cmd, pc: Pc, word: Word): Cmd {
    Cmd(word,
        if pc <= PC_RESET_RESULT then -1 else c.result,
        if pc <= PC_RESET_EXTRA then 0 else c.extra,
        if pc <= PC_RESET_DELIVERED then IDLE else c.delivered,
        if pc <= PC_RESET_GOT then false else c.got,
        if pc <= PC_RESET_ACKED then false else c.acked,
        if pc <= PC_RESET_REJECTED then false else c.rejected,
        true,
        if pc <= PC_CLEAR_WRITTEN then false else c.written,
        if pc <= PC_RESET_STAGE then StageNone else c.stage,
        false)
  }

  function Begun(p: Point): Point {
    var (sh, t) := p;
    (sh.(cmd := BegunCmd(sh.cmd, t.pc, t.word),
         rawOut := if t.pc <= PC_SET_RAW_OUT then t.buf else sh.rawOut,
         rawOutsz := if t.pc <= PC_SET_RAW_OUTSZ then t.bufsz else sh.rawOutsz,
         rawLen := if t.pc <= PC_SET_RAW_LEN then 0 else sh.rawLen,
         rawLines := if t.pc <= PC_SET_RAW_LINES then 0 else sh.rawLines),
     t.(pc := PC_SENDING))
  }

  /** What begin has stored by the statement it is at, as far as the rest does not store it again. */
  predicate Beginning(p: Point) {
    var (sh, t) := p;
    && PC_RESET_RESULT <= t.pc <= PC_SENDING
    && (PC_SET_BUSY < t.pc ==> sh.cmd.busy) && (PC_PUBLISH < t.pc ==> sh.cmd.pending == t.word)
    && (PC_SEM_RESET < t.pc ==> !sh.cmd.token)
  }

  lemma BeginNext(p: Point)
    requires Beginning(p) && p.1.pc < PC_SENDING
    ensures Beginning(Next(p)) && Next(p).1.pc == p.1.pc + 1 && Begun(Next(p)) == Begun(p)
  {
    hide AckStep, UrcStep, ClaimStep, OuterStep;
  }

  lemma {:induction false} BeginsAlone(p: Point)
    requires Beginning(p)
    ensures Alone(p, PC_SENDING - p.1.pc) == Begun(p)
    decreases PC_SENDING - p.1.pc
  {
    if p.1.pc < PC_SENDING {
      hide Next, Begun, Beginning;
      BeginNext(p);
      BeginsAlone(Next(p));
    }
  }

  /** Fifteen uninterrupted steps are cmd_begin_common: they publish last, over a fully reset slot. */
  lemma BeginUninterrupted(p: Point, s: Core, kind: Kind, msgid: MsgId)
    requires p.1.pc == PC_RESET_RESULT && p.1.word == Pack(kind, msgid)
    ensures Alone(p, 15).0.cmd == Begin(s, kind, msgid, None, 0).cmd
    ensures Alone(p, 15).0.rawOut == p.1.buf && Alone(p, 15).0.rawOutsz == p.1.bufsz
    ensures Alone(p, 15).0.rawLen == 0 && Alone(p, 15).0.rawLines == 0
    ensures Alone(p, 15).1 == p.1.(pc := PC_SENDING)
  {
    BeginsAlone(p);
    hide Alone, Pack;
  }

  // ---- lmqtt_cmd_finish ----

  /** `base` with another command context. */
  function With(base: State, c: Cmd): State {
    base.(core := base.core.(cmd := c))
  }

  /**
   * A command that runs without interruption but for what is received just before each of its two
   * takes. The command context is the one in `p`; `base` is the rest of the engine.
   */
  datatype Run = Run(base: State, p: Point, atAck: string, atUrc: string)

  function Whole(r: Run): State {
    With(r.base, r.p.0.cmd)
  }

  function Arrive(lineMax: nat, r: Run, bytes: string): Run {
    var fed := Feed(lineMax, Whole(r), bytes);
    r.(base := fed, p := (r.p.0.(cmd := fed.core.cmd), r.p.1))
  }

  function Continue(lineMax: nat, r: Run): Run {
    if r.p.1.pc == PC_TAKE_ACK && r.atAck != "" then Arrive(lineMax, r, r.atAck).(atAck := "")
    else if r.p.1.pc == PC_TAKE_URC && r.atUrc != "" then Arrive(lineMax, r, r.atUrc).(atUrc := "")
    else r.(p := Next(r.p))
  }

  function Continued(lineMax: nat, r: Run, n: nat): Run
    decreases n
  {
    if n == 0 then r else Continued(lineMax, Continue(lineMax, r), n - 1)
  }

  /** The command context after the lines have been dispatched one by one. */
  function Dispatched(c: Cmd, lines: seq<string>): Cmd {
    if lines == [] then c
    else CmdAfter(Dispatched(c, lines[..|lines| - 1]), Classify(lines[|lines| - 1]))
  }

  lemma {:induction false} DeliverAllDispatches(lineMax: nat, s: Core, segments: seq<string>)
    ensures DeliverAll(lineMax, s, segments).cmd == Dispatched(s.cmd, Emitted(lineMax, segments))
  {
    hide Classify;
    if segments != [] {
      var front := segments[..|segments| - 1];
      DeliverAllDispatches(lineMax, s, front);
      var lines, line := Emitted(lineMax, front), Clean(segments[|segments| - 1]);
      assert (lines + [line])[..|lines|] == lines;
    }
  }

  /** What arrives acts on the command context as the dispatches of its complete lines, in order. */
  lemma ArrivalIsDispatches(lineMax: nat, s: State, pending: string, bytes: string)
    requires lineMax > 1 && '\n' !in pending && s.frame == FrameOf(lineMax, pending)
    ensures Feed(lineMax, s, bytes).core.cmd ==
            Dispatched(s.core.cmd, Emitted(lineMax, Split(pending + bytes).0))
  {
    hide Feed, FrameOf, DeliverAll, Dispatched;
    FramerRefines(lineMax, s.core, pending, bytes);
    DeliverAllDispatches(lineMax, s.core, Split(pending + bytes).0);
  }

  /** From the first take on. */
  function AfterAck(lineMax: nat, s: State, pend: Word, atAck: string, atUrc: string): Outcome {
    var (s', taken) := Wait(lineMax, s, atAck);
    Judge(lineMax, s', pend, taken, atUrc)
  }

  function GiveUpOrClaim(s: State, pend: Word): Outcome {
    if !Ready(s.core.cmd, pend) then Close(s, UrcTmo, ERR_TIMEOUT, None) else Claim(s, pend)
  }

  /** The first half of what lmqtt_cmd_finish has left to do. */
  function RestOfAck(lineMax: nat, r: Run): Outcome {
    var (s, t) := (Whole(r), r.p.1);
    if t.pc == PC_RAISE_WRITTEN then Finish(lineMax, s, r.atAck, r.atUrc)
    else if t.pc == PC_READ_PEND then AfterAck(lineMax, s, s.core.cmd.pending, r.atAck, r.atUrc)
    else if t.pc == PC_TAKE_ACK then AfterAck(lineMax, s, t.pend, r.atAck, r.atUrc)
    else if t.pc <= PC_ACK_DELIVERED then Judge(lineMax, s, t.pend, false, r.atUrc)
    else if t.pc == PC_STORE_ACK_TMO then Close(s, AckTmo, ERR_TIMEOUT, None)
    else Judge(lineMax, s, t.pend, true, r.atUrc)
  }

  function RestOfUrc(lineMax: nat, r: Run): Outcome {
    var (s, t) := (Whole(r), r.p.1);
    if t.pc <= PC_SEM_RESET2 then AwaitResult(lineMax, s, t.pend, r.atUrc)
    else if t.pc == PC_TAKE_URC then
      var (s', taken) := Wait(lineMax, s, r.atUrc);
      if taken then Claim(s', t.pend) else GiveUpOrClaim(s', t.pend)
    else if t.pc <= PC_URC_DELIVERED then GiveUpOrClaim(s, t.pend)
    else Close(s, UrcTmo, ERR_TIMEOUT, None)
  }

  function RestOfClaim(r: Run): Outcome {
    var (s, t) := (Whole(r), r.p.1);
    var c := s.core.cmd;
    if t.pc <= PC_CLAIM_DELIVERED then Claim(s, t.pend)
    else if t.pc == PC_STORE_STALE then Close(s, StaleSlot, ERR_TIMEOUT, None)
    else if t.pc == PC_READ_RESULT then Close(s, c.stage, LMQTT_OK, Some((c.result, c.extra)))
    else if t.pc == PC_READ_EXTRA then Close(s, c.stage, LMQTT_OK, Some((t.outResult, c.extra)))
    else Outcome(s.(core := Abort(s.core)), t.rc,
                 if t.rc == LMQTT_OK && !NoResultUrc(t.pend) then Some((t.outResult, t.outExtra)) else None)
  }

  function Rest(lineMax: nat, r: Run): Outcome {
    if r.p.1.pc <= PC_READ_REJECTED then RestOfAck(lineMax, r)
    else if r.p.1.pc <= PC_STORE_URC_TMO then RestOfUrc(lineMax, r)
    else RestOfClaim(r)
  }

  /** What the branch taken to `pc` has established; nothing arrives there, so it still holds. */
  predicate Finishing(p: Point) {
    var (c, t) := (p.0.cmd, p.1);
    && PC_RAISE_WRITTEN <= t.pc <= PC_UNLOCK
    && (t.pc in {PC_ACK_DELIVERED, PC_NEED_DELIVERED, PC_URC_DELIVERED, PC_CLAIM_DELIVERED} ==> c.got)
    && (t.pc == PC_SEM_RESET2 ==> !Ready(c, t.pend))
    && (t.pc == PC_STORE_ACK_TMO || t.pc == PC_STORE_URC_TMO || t.pc == PC_STORE_STALE ==> !Ready(c, t.pend))
    && (PC_READ_REJECTED < t.pc <= PC_READ_EXTRA ==> !NoResultUrc(t.pend))
    && (PC_CLEAR_BUSY < t.pc ==> !c.busy) && (PC_CLEAR_PENDING < t.pc ==> c.pending == IDLE)
  }

  /** Anything that arrives has arrived before the statement after the take. */
  predicate Arrived(r: Run) {
    (r.p.1.pc == PC_TAKE_ACK ==> r.atAck == "") && (r.p.1.pc == PC_TAKE_URC ==> r.atUrc == "")
  }

  lemma AckNext(lineMax: nat, r: Run)
    requires Finishing(r.p) && r.p.1.pc <= PC_STORE_ACK_TMO && Arrived(r)
    ensures var r' := r.(p := AckStep(r.p.0, r.p.1));
            Finishing(r'.p) && r'.p.1.pc > r.p.1.pc && Rest(lineMax, r') == Rest(lineMax, r)
  {
  }

  lemma UrcNext(lineMax: nat, r: Run)
    requires Finishing(r.p) && PC_STORE_ACK_TMO < r.p.1.pc <= PC_STORE_URC_TMO && Arrived(r)
    ensures var r' := r.(p := UrcStep(r.p.0, r.p.1));
            Finishing(r'.p) && r'.p.1.pc > r.p.1.pc && Rest(lineMax, r') == Rest(lineMax, r)
  {
  }

  lemma ClaimNext(lineMax: nat, r: Run)
    requires Finishing(r.p) && PC_STORE_URC_TMO < r.p.1.pc <= PC_READ_EXTRA
    ensures var r' := r.(p := ClaimStep(r.p.0, r.p.1));
            Finishing(r'.p) && r'.p.1.pc > r.p.1.pc && Rest(lineMax, r') == Rest(lineMax, r)
  {
  }

  lemma AbortNext(lineMax: nat, r: Run)
    requires Finishing(r.p) && PC_READ_EXTRA < r.p.1.pc < PC_UNLOCK
    ensures var r' := r.(p := OuterStep(r.p.0, r.p.1, false));
            Finishing(r'.p) && r'.p.1.pc > r.p.1.pc && Rest(lineMax, r') == Rest(lineMax, r)
  {
  }

  lemma FinishNext(lineMax: nat, r: Run)
    requires Finishing(r.p) && r.p.1.pc < PC_UNLOCK && Arrived(r)
    ensures var r' := r.(p := Next(r.p));
            Finishing(r'.p) && r'.p.1.pc > r.p.1.pc && Rest(lineMax, r') == Rest(lineMax, r)
  {
    hide Finishing, Rest, ResetStep, OpenStep, AckStep, UrcStep, ClaimStep, OuterStep;
    FinishingRange(r.p);
    if r.p.1.pc <= PC_STORE_ACK_TMO {
      AckNext(lineMax, r);
    } else if r.p.1.pc <= PC_STORE_URC_TMO {
      UrcNext(lineMax, r);
    } else if r.p.1.pc <= PC_READ_EXTRA {
      ClaimNext(lineMax, r);
    } else {
      AbortNext(lineMax, r);
    }
  }

  lemma FinishingRange(p: Point)
    requires Finishing(p)
    ensures PC_RAISE_WRITTEN <= p.1.pc <= PC_UNLOCK
  {
  }

  lemma ArrivalNext(lineMax: nat, r: Run)
    requires Finishing(r.p) && !Arrived(r)
    ensures var r' := Continue(lineMax, r);
            && Finishing(r'.p) && r'.p.1 == r.p.1 && Rest(lineMax, r') == Rest(lineMax, r)
            && |r'.atAck| + |r'.atUrc| < |r.atAck| + |r.atUrc|
  {
    FeedNothing(lineMax, Feed(lineMax, Whole(r), if r.p.1.pc == PC_TAKE_ACK then r.atAck else r.atUrc));
    hide Feed, Judge, Claim, GiveUpOrClaim, CmdStep;
  }

  lemma FeedNothing(lineMax: nat, s: State)
    ensures Feed(lineMax, s, "") == s
  {
  }

  lemma {:induction false} FinishesAlone(lineMax: nat, r: Run) returns (n: nat)
    requires Finishing(r.p)
    ensures var r' := Continued(lineMax, r, n);
            Finishing(r'.p) && r'.p.1.pc == PC_UNLOCK && Rest(lineMax, r') == Rest(lineMax, r)
    decreases PC_UNLOCK - r.p.1.pc, |r.atAck| + |r.atUrc|
  {
    hide Next, Rest, Arrive, Finishing;
    FinishingRange(r.p);
    if r.p.1.pc == PC_UNLOCK {
      return 0;
    }
    if Arrived(r) {
      FinishNext(lineMax, r);
    } else {
      ArrivalNext(lineMax, r);
    }
    n := FinishesAlone(lineMax, Continue(lineMax, r));
    n := n + 1;
  }

  /**
   * From the raising of `written` on, the single steps of a command, with any bytes received before
   * each of its two takes, end where the whole lmqtt_cmd_finish ends: same engine state, return code
   * and outputs.
   */
  lemma FinishUninterrupted(lineMax: nat, r: Run) returns (n: nat)
    requires r.p.1.pc == PC_RAISE_WRITTEN
    ensures var r' := Continued(lineMax, r, n);
            var o, t := Finish(lineMax, Whole(r), r.atAck, r.atUrc), r'.p.1;
            && t.pc == PC_UNLOCK && Whole(r') == o.s && t.rc == o.rc
            && o.out == (if t.rc == LMQTT_OK && !NoResultUrc(t.pend) then Some((t.outResult, t.outExtra)) else None)
  {
    n := FinishesAlone(lineMax, r);
    hide Finish, Continued;
  }
}
