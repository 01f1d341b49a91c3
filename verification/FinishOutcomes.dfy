/**
 * What a whole command returns, told by the writes that went through and the lines that arrived while
 * it waited, in their order.
 */
module FinishOutcomes {
  import opened Basics
  import opened PairingWord
  import opened LineSyntax
  import opened EngineState
  import opened Framing
  import opened EventLog
  import opened RawCapture
  import opened WholeCommands

  // ---- the lines of one wait ----

  /** What lines have done to a command context outside the fence. */
  predicate Heard(c: Cmd, c': Cmd, log: seq<Line>) {
    var n, last := |log|, LastMatch(c.pending, log);
    && c'.pending == c.pending && c'.busy == c.busy && c'.written == c.written && c'.stage == c.stage
    && (c'.rejected <==> c.rejected || ErrIn(log, 0, n))
    && (c'.token <==> c.token || OkIn(log, 0, n) || ErrIn(log, 0, n) || last.Some?)
    && (if last.Some? then c'.result == last.value.result && c'.extra == last.value.extend
                           && c'.delivered == c.pending && c'.got
        else c'.result == c.result && c'.extra == c.extra && c'.delivered == c.delivered && c'.got == c.got)
  }

  lemma HeardMore(c: Cmd, c': Cmd, log: seq<Line>, l: Line)
    requires c.written && Heard(c, c', log)
    ensures Heard(c, CmdAfter(c', l), log + [l])
  {
    hide OkIn, ErrIn, Matches;
    OkGrows(log, l, 0, 0);
    ErrGrows(log, l, 0, 0);
    assert (log + [l])[..|log|] == log;
    if Matches(c.pending, l) {
      MatchIsResult(c.pending, l);
    }
  }

  lemma MatchIsResult(w: Word, l: Line)
    requires Matches(w, l)
    ensures l.Result?
  {
  }

  lemma {:induction false} DispatchedHeard(c: Cmd, lines: seq<string>)
    requires c.written
    ensures Heard(c, Dispatched(c, lines), ClassifyAll(lines))
  {
    hide Heard, Classify;
    if lines == [] {
      HeardNothing(c);
    } else {
      var front := lines[..|lines| - 1];
      DispatchedHeard(c, front);
      HeardMore(c, Dispatched(c, front), ClassifyAll(front), Classify(lines[|lines| - 1]));
    }
  }

  lemma HeardNothing(c: Cmd)
    ensures Heard(c, c, [])
  {
  }

  /** The lines completed by `bytes` behind the unterminated text `pending`. */
  function Arriving(lineMax: nat, pending: string, bytes: string): seq<Line> {
    ClassifyAll(Emitted(lineMax, Split(pending + bytes).0))
  }

  /** The unterminated text left by them. */
  function Left(pending: string, bytes: string): string {
    Split(pending + bytes).1
  }

  lemma FedHeard(lineMax: nat, s: State, pending: string, bytes: string)
    requires lineMax > 1 && '\n' !in pending && s.frame == FrameOf(lineMax, pending) && s.core.cmd.written
    ensures var fed := Feed(lineMax, s, bytes);
            && Heard(s.core.cmd, fed.core.cmd, Arriving(lineMax, pending, bytes))
            && fed.frame == FrameOf(lineMax, Left(pending, bytes)) && '\n' !in Left(pending, bytes)
  {
    hide Heard, Dispatched, Feed, FrameOf, DeliverAll, Classify;
    ArrivalIsDispatches(lineMax, s, pending, bytes);
    DispatchedHeard(s.core.cmd, Emitted(lineMax, Split(pending + bytes).0));
    FramerRefines(lineMax, s.core, pending, bytes);
    SplitJoin(pending + bytes);
  }

  // ---- the outcome ----

  /** A return code, the recorded stage and the output. */
  datatype Verdict = Verdict(rc: int, stage: Stage, out: Option<(int, int)>)

  /** The values of the last matching URC among the lines, or those in the slot before. */
  function Values(c: Cmd, log: seq<Line>): (int, int) {
    var last := LastMatch(c.pending, log);
    if last.Some? then (last.value.result, last.value.extend) else (c.result, c.extra)
  }

  /**
   * The verdict on a written command by the lines `first` of its first and `second` of its second wait:
   * timed out unacknowledged; rejected; accepted with nothing more to come; answered already; answered in
   * the second wait; given up after a further acknowledgement, or after silence.
   */
  function ByLines(c: Cmd, first: seq<Line>, second: seq<Line>): Verdict {
    var (a, b) := (|first|, |second|);
    var ready := LastMatch(c.pending, first).Some? || (c.got && c.delivered == c.pending);
    var answer := LastMatch(c.pending, second);
    if !c.token && !OkIn(first, 0, a) && !ErrIn(first, 0, a) && !ready then Verdict(-2, AckTmo, None)
    else if c.rejected || ErrIn(first, 0, a) then Verdict(-3, c.stage, None)
    else if KindOf(c.pending) == KIND_NONE || KindOf(c.pending) == KIND_RAW then Verdict(0, c.stage, None)
    else if ready then Verdict(0, c.stage, Some(Values(c, first)))
    else if answer.Some? then Verdict(0, c.stage, Some((answer.value.result, answer.value.extend)))
    else if OkIn(second, 0, b) || ErrIn(second, 0, b) then Verdict(-2, StaleSlot, None)
    else Verdict(-2, UrcTmo, None)
  }

  /** The second half, from a slot that does not carry this command's word. */
  lemma AwaitByLines(lineMax: nat, s: State, pend: Word, pending: string, atUrc: string)
    requires lineMax > 1 && '\n' !in pending && s.frame == FrameOf(lineMax, pending) && s.core.cmd.written
    requires s.core.cmd.pending == pend && !Ready(s.core.cmd, pend)
    ensures var o, log := AwaitResult(lineMax, s, pend, atUrc), Arriving(lineMax, pending, atUrc);
            var answer := LastMatch(pend, log);
            && !o.s.core.cmd.busy && o.s.core.cmd.pending == 0
            && (answer.Some? ==>
                  o.rc == 0 && o.s.core.cmd.stage == s.core.cmd.stage
                  && o.out == Some((answer.value.result, answer.value.extend)))
            && (answer.None? ==>
                  o.rc == -2 && o.out == None
                  && o.s.core.cmd.stage ==
                     if OkIn(log, 0, |log|) || ErrIn(log, 0, |log|) then StaleSlot else UrcTmo)
  {
    hide Feed, FrameOf, Arriving, Left, OkIn, ErrIn, LastMatch;
    FedHeard(lineMax, SetToken(s, false), pending, atUrc);
  }

  /**
   * lmqtt_cmd_finish returns what the lines say, for any bytes that arrive in its two waits, in any
   * chunks, and leaves its window closed.
   */
  lemma FinishByLines(lineMax: nat, s: State, pending: string, atAck: string, atUrc: string)
    requires lineMax > 1 && '\n' !in pending && s.frame == FrameOf(lineMax, pending)
    ensures var o := Finish(lineMax, s, atAck, atUrc);
            var first := Arriving(lineMax, pending, atAck);
            var second := Arriving(lineMax, Left(pending, atAck), atUrc);
            && Verdict(o.rc, o.s.core.cmd.stage, o.out) == ByLines(s.core.cmd, first, second)
            && !o.s.core.cmd.busy && o.s.core.cmd.pending == 0
  {
    hide Feed, FrameOf, Arriving, Left, OkIn, ErrIn, LastMatch, AwaitResult;
    FedHeard(lineMax, SetWritten(s), pending, atAck);
    var fed := Feed(lineMax, SetWritten(s), atAck);
    var s' := SetToken(fed, false);
    var pend := s.core.cmd.pending;
    if Ready(s'.core.cmd, pend) {
      ReadyAwaits(lineMax, s', pend, atUrc);
    } else {
      AwaitByLines(lineMax, s', pend, Left(pending, atAck), atUrc);
    }
  }

  /** A command that is answered already claims at once. */
  lemma ReadyAwaits(lineMax: nat, s: State, pend: Word, atUrc: string)
    requires Ready(s.core.cmd, pend)
    ensures AwaitResult(lineMax, s, pend, atUrc) ==
            Close(s, s.core.cmd.stage, 0, Some((s.core.cmd.result, s.core.cmd.extra)))
  {
  }

  // ---- writes ----

  /** The command goes out as a whole exactly if every write accepts its whole piece. */
  lemma {:induction false} SentIffAccepted(lineMax: nat, s: State, pieces: seq<string>, writes: seq<Write>)
    requires |pieces| <= |writes|
    ensures SendAll(lineMax, s, pieces, writes).1 <==>
            forall k | 0 <= k < |pieces| :: writes[k].accepted == |pieces[k]|
    decreases |pieces|
  {
    hide Feed;
    if pieces != [] {
      SentIffAccepted(lineMax, Feed(lineMax, s, writes[0].arriving), pieces[1..], writes[1..]);
      assert forall k | 0 <= k < |pieces| - 1 :: writes[1..][k] == writes[k + 1] && pieces[1..][k] == pieces[k + 1];
      assert forall k | 0 < k < |pieces| :: writes[k] == writes[1..][k - 1] && pieces[k] == pieces[1..][k - 1];
    }
  }

  /** What has been put on the line up to a first short write: the whole pieces before it and its part. */
  lemma {:induction false} SentUpTo(pieces: seq<string>, writes: seq<Write>, k: nat)
    requires k < |pieces| <= |writes| && writes[k].accepted != |pieces[k]|
    requires forall j | 0 <= j < k :: writes[j].accepted == |pieces[j]|
    ensures SentBytes(pieces, writes) == Flat(pieces[..k]) + WrittenPart(pieces[k], writes[k].accepted)
    decreases k
  {
    if k > 0 {
      assert forall j | 0 <= j < k - 1 :: writes[1..][j] == writes[j + 1] && pieces[1..][j] == pieces[j + 1];
      SentUpTo(pieces[1..], writes[1..], k - 1);
      assert pieces[..k][1..] == pieces[1..][..k - 1];
      assert pieces[0][..|pieces[0]|] == pieces[0];
      Rejoin(pieces[0], Flat(pieces[1..][..k - 1]), WrittenPart(pieces[k], writes[k].accepted));
    }
  }

  lemma Rejoin(a: string, b: string, c: string)
    ensures a + (b + c) == a + b + c
  {
  }

  /** The whole command on the line, and nothing else. */
  lemma {:induction false} SentWhole(pieces: seq<string>, writes: seq<Write>)
    requires |pieces| <= |writes| && forall k | 0 <= k < |pieces| :: writes[k].accepted == |pieces[k]|
    ensures SentBytes(pieces, writes) == Flat(pieces)
    decreases |pieces|
  {
    if pieces != [] {
      assert forall k | 0 <= k < |pieces| - 1 :: writes[1..][k] == writes[k + 1] && pieces[1..][k] == pieces[k + 1];
      SentWhole(pieces[1..], writes[1..]);
      assert pieces[0][..|pieces[0]|] == pieces[0];
    }
  }

  /** A command text and its line end. */
  lemma ExecPutsLine(text: string, writes: seq<Write>)
    requires |writes| >= 2 && writes[0].accepted == |text| && writes[1].accepted == 2
    ensures SentBytes([text, CRLF], writes) == text + "\r\n"
  {
    var pieces := [text, CRLF];
    SentWhole(pieces, writes);
    assert pieces[1..] == [CRLF] && [CRLF][1..] == [];
    assert Flat([CRLF]) == CRLF + "" == CRLF;
  }

  /**
   * A command with a short write returns the write error whatever has arrived, with its window closed,
   * its pairing word cleared and no output; what the arriving lines did otherwise stays.
   */
  lemma ShortWriteGivesUp(lineMax: nat, start: State, pieces: seq<string>, io: Traffic, k: nat)
    requires k < |pieces| <= |io.writes| && io.writes[k].accepted != |pieces[k]|
    ensures var o, sent := Transact(lineMax, start, pieces, io), SendAll(lineMax, start, pieces, io.writes).0;
            && o.rc == -8 && o.out == None
            && o.s == sent.(core := sent.core.(cmd := sent.core.cmd.(busy := false, pending := 0)))
  {
    SentIffAccepted(lineMax, start, pieces, io.writes);
    hide SendAll;
  }

  /** And with every write whole, what it returns is what finish returns. */
  lemma WholeWriteFinishes(lineMax: nat, start: State, pieces: seq<string>, io: Traffic)
    requires |pieces| <= |io.writes| && forall k | 0 <= k < |pieces| :: io.writes[k].accepted == |pieces[k]|
    ensures Transact(lineMax, start, pieces, io) ==
            Finish(lineMax, SendAll(lineMax, start, pieces, io.writes).0, io.atAck, io.atUrc)
  {
    SentIffAccepted(lineMax, start, pieces, io.writes);
    hide SendAll;
  }
}
