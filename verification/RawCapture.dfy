/**
 * RAW response capture: which received lines end up in the caller's buffer, and how they are laid
 * out there for the line reader.
 */
module RawCapture {
  import opened Basics
  import opened CStrings
  import opened PairingWord
  import opened LineSyntax
  import opened EngineState
  import opened Framing

  /** Lines stored back to back, each with its terminator. */
  function Layout(lines: seq<string>): string {
    if lines == [] then "" else Layout(lines[..|lines| - 1]) + (lines[|lines| - 1] + [NUL])
  }

  /** Of the lines offered, those that still fit when their turn comes. */
  function Greedy(offered: seq<string>, cap: nat): (kept: seq<string>)
    ensures |Layout(kept)| <= cap
    ensures forall l | l in kept :: l in offered
  {
    if offered == [] then [] else
      var kept := Greedy(offered[..|offered| - 1], cap);
      var line := offered[|offered| - 1];
      if |Layout(kept)| + |line| + 1 <= cap then
        assert (kept + [line])[..|kept|] == kept;
        kept + [line]
      else kept
  }

  /** The texts of the ordinary lines among those dispatched. */
  function OrdinaryTexts(lines: seq<Line>): seq<string> {
    if lines == [] then [] else
      var front := OrdinaryTexts(lines[..|lines| - 1]);
      var l := lines[|lines| - 1];
      if l.Ordinary? then front + [l.text] else front
  }

  /** The RAW destination holds exactly the lines of `offered` that fit; the rest of `dest` is untouched. */
  predicate Holds(r: Raw, dest: string, outsz: nat, offered: seq<string>)
    requires outsz <= |dest|
  {
    var kept := Greedy(offered, outsz);
    && r.out.Some? && r.outsz == outsz && |r.out.value| == |dest|
    && r.len == |Layout(kept)| && r.lines == |kept| % 0x1_0000
    && r.out.value[..r.len] == Layout(kept)
    && r.out.value[r.len..] == dest[r.len..]
  }

  lemma GreedySnoc(offered: seq<string>, cap: nat, line: string)
    ensures var kept := Greedy(offered, cap);
            if |Layout(kept)| + |line| + 1 <= cap
            then Greedy(offered + [line], cap) == kept + [line]
                 && Layout(kept + [line]) == Layout(kept) + (line + [NUL])
            else Greedy(offered + [line], cap) == kept
  {
    var more, kept := offered + [line], Greedy(offered, cap);
    assert more[..|more| - 1] == offered;
    assert (kept + [line])[..|kept|] == kept;
  }

  lemma TailOfTail(s: string, t: string, a: nat, b: nat)
    requires a <= b <= |s| == |t| && s[a..] == t[a..]
    ensures s[b..] == t[b..]
  {
    assert s[b..] == s[a..][b - a..];
    assert t[b..] == t[a..][b - a..];
  }

  /** One append keeps the destination exact; a line that does not fit changes nothing. */
  lemma AppendHolds(r: Raw, dest: string, outsz: nat, offered: seq<string>, line: string)
    requires outsz <= |dest| && Holds(r, dest, outsz, offered)
    ensures Holds(RawAppend(r, line), dest, outsz, offered + [line])
    ensures |Layout(Greedy(offered, outsz))| + |line| + 1 > outsz ==> RawAppend(r, line) == r
  {
    GreedySnoc(offered, outsz, line);
    hide Greedy, Layout, Overwrite;
    if r.len + |line| + 1 <= outsz {
      OverwriteParts(r.out.value, r.len, line + [NUL]);
      TailOfTail(r.out.value, dest, r.len, r.len + |line| + 1);
    }
  }

  lemma {:induction false} LayoutSize(lines: seq<string>)
    requires forall l | l in lines :: l != ""
    ensures 2 * |lines| <= |Layout(lines)|
  {
    if lines != [] {
      var front := lines[..|lines| - 1];
      assert forall l | l in front :: l in lines;
      assert lines[|lines| - 1] in lines;
      LayoutSize(front);
    }
  }

  /** The 16-bit line counter is the true count while the buffer is below 128 KiB. */
  lemma LineCountDoesNotWrap(r: Raw, dest: string, outsz: nat, offered: seq<string>)
    requires outsz <= |dest| && outsz < 131072 && Holds(r, dest, outsz, offered)
    requires forall l | l in offered :: l != ""
    ensures r.lines == |Greedy(offered, outsz)|
  {
    LayoutSize(Greedy(offered, outsz));
  }

  // ---- capture during a whole RAW command ----

  function ClassifyAll(lines: seq<string>): seq<Line> {
    if lines == [] then [] else ClassifyAll(lines[..|lines| - 1]) + [Classify(lines[|lines| - 1])]
  }

  /** The ordinary lines among the complete segments received. */
  function Offered(lineMax: nat, segments: seq<string>): seq<string> {
    OrdinaryTexts(ClassifyAll(Emitted(lineMax, segments)))
  }

  /** Delivering one more segment offers at most one more line. */
  lemma OfferedSnoc(lineMax: nat, segments: seq<string>, segment: string)
    ensures var line := Clean(segment);
            Offered(lineMax, segments + [segment]) ==
            if 0 < |line| < lineMax && Classify(line).Ordinary? then Offered(lineMax, segments) + [line]
            else Offered(lineMax, segments)
  {
    var line := Clean(segment);
    assert (segments + [segment])[..|segments|] == segments;
    if 0 < |line| < lineMax {
      var lines := Emitted(lineMax, segments);
      assert (lines + [line])[..|lines|] == lines;
      var cs := ClassifyAll(lines);
      assert (cs + [Classify(line)])[..|cs|] == cs;
      OrdinaryLines(line);
    }
  }

  lemma DeliverHolds(lineMax: nat, s: Core, dest: string, outsz: nat, offered: seq<string>, segment: string)
    requires outsz <= |dest| && KindOf(s.cmd.pending) == KIND_RAW
    requires Holds(s.raw, dest, outsz, offered)
    ensures var line := Clean(segment);
            var after := Deliver(lineMax, s, segment);
            after.cmd.pending == s.cmd.pending &&
            Holds(after.raw, dest, outsz,
                  if 0 < |line| < lineMax && Classify(line).Ordinary? then offered + [line] else offered)
  {
    hide Holds, Classify;
    var line := Clean(segment);
    if 0 < |line| < lineMax && Classify(line).Ordinary? {
      OrdinaryLines(line);
      AppendHolds(s.raw, dest, outsz, offered, line);
    }
  }

  /** A RAW window in which the bytes `received` have been framed since the last complete line. */
  predicate Capturing(lineMax: nat, s: State, received: string, dest: string, outsz: nat)
    requires lineMax > 1 && outsz <= |dest|
  {
    var (segments, tail) := Split(received);
    && s.frame == FrameOf(lineMax, tail)
    && KindOf(s.core.cmd.pending) == KIND_RAW
    && Holds(s.core.raw, dest, outsz, Offered(lineMax, segments))
  }

  lemma ByteCaptures(lineMax: nat, s: State, received: string, c: char, dest: string, outsz: nat)
    requires lineMax > 1 && outsz <= |dest| && Capturing(lineMax, s, received, dest, outsz)
    ensures Capturing(lineMax, FeedByte(lineMax, s, c), received + [c], dest, outsz)
    ensures FeedByte(lineMax, s, c).core.cmd.pending == s.core.cmd.pending
  {
    var (segments, tail) := Split(received);
    var more := received + [c];
    assert more[..|more| - 1] == received;
    ByteRefines(lineMax, s.core, tail, c);
    if c == '\n' {
      OfferedSnoc(lineMax, segments, tail);
      DeliverHolds(lineMax, s.core, dest, outsz, Offered(lineMax, segments), tail);
    }
  }

  lemma {:induction false} FeedCaptures(lineMax: nat, s: State, received: string, bytes: string,
                                        dest: string, outsz: nat)
    requires lineMax > 1 && outsz <= |dest| && Capturing(lineMax, s, received, dest, outsz)
    ensures Capturing(lineMax, Feed(lineMax, s, bytes), received + bytes, dest, outsz)
    ensures Feed(lineMax, s, bytes).core.cmd.pending == s.core.cmd.pending
    decreases |bytes|
  {
    hide Capturing, FeedByte;
    if bytes == "" {
      assert received + bytes == received;
    } else {
      var front, c := bytes[..|bytes| - 1], bytes[|bytes| - 1];
      FeedCaptures(lineMax, s, received, front, dest, outsz);
      assert received + bytes == received + front + [c];
      ByteCaptures(lineMax, Feed(lineMax, s, front), received + front, c, dest, outsz);
    }
  }

  /**
   * RAW capture over a whole command: whatever arrives while the command is sent and acknowledged,
   * the buffer ends up with exactly the ordinary lines that fit, in order, and nothing else in it
   * has changed. `pending` is the unterminated text received before the command.
   */
  lemma {:induction false} RawExecCaptures(lineMax: nat, core: Core, pending: string, text: string,
                                           dest: string, outsz: nat, io: Traffic)
    requires lineMax > 1 && '\n' !in pending && outsz <= |dest|
    requires |io.writes| >= 2 && io.writes[0].accepted == |text| && io.writes[1].accepted == |CRLF|
    ensures var received := pending + io.writes[0].arriving + io.writes[1].arriving + io.atAck;
            var done := Exec(lineMax, State(FrameOf(lineMax, pending), core), KIND_RAW, 0,
                             Some(dest), outsz, text, io);
            Holds(done.s.core.raw, dest, outsz, Offered(lineMax, Split(received).0))
  {
    var s0 := State(FrameOf(lineMax, pending), Begin(core, KIND_RAW, 0, Some(dest), outsz));
    var w0, w1 := io.writes[0], io.writes[1];
    SplitWithoutLf(pending);
    FeedCaptures(lineMax, s0, pending, w0.arriving, dest, outsz);
    var s1 := Feed(lineMax, s0, w0.arriving);
    FeedCaptures(lineMax, s1, pending + w0.arriving, w1.arriving, dest, outsz);
    var s2 := Feed(lineMax, s1, w1.arriving);
    var written := SetWritten(s2);
    FeedCaptures(lineMax, written, pending + w0.arriving + w1.arriving, io.atAck, dest, outsz);
    PackUnpack(KIND_RAW, 0);
    RawTransact(lineMax, s0, text, io);
  }

  /** A RAW command never waits for a result URC: its state is the one after the first wait. */
  lemma RawTransact(lineMax: nat, s: State, text: string, io: Traffic)
    requires |io.writes| >= 2 && io.writes[0].accepted == |text| && io.writes[1].accepted == |CRLF|
    requires var s2 := Feed(lineMax, Feed(lineMax, s, io.writes[0].arriving), io.writes[1].arriving);
             KindOf(s2.core.cmd.pending) == KIND_RAW
    ensures var s2 := Feed(lineMax, Feed(lineMax, s, io.writes[0].arriving), io.writes[1].arriving);
            Transact(lineMax, s, [text, CRLF], io).s.core.raw ==
            Feed(lineMax, SetWritten(s2), io.atAck).core.raw
  {
    SendFirst(lineMax, s, text, [CRLF], io.writes);
    SendFirst(lineMax, Feed(lineMax, s, io.writes[0].arriving), CRLF, [], io.writes[1..]);
    assert [text] + [CRLF] == [text, CRLF] && [CRLF] + [] == [CRLF];
  }
}
