/**
 * Acknowledgement conservation: every line the engine receives is counted exactly once, over any
 * interleaving of received bytes with command windows whose begin and abort are whole steps.
 */
module Conservation {
  import opened Basics
  import opened CStrings
  import opened PairingWord
  import opened LineSyntax
  import opened EngineState
  import opened Framing

  /** A received byte, or what a command task does to the shared state. */
  datatype Event =
    | Byte(c: char)
    | Began(kind: Kind, msgid: MsgId, out: Option<string>, outsz: nat)
    | Wrote
    | TokenSet(token: bool)
    | Staged(stage: Stage)
    | Aborted

  predicate Sound(e: Event) {
    e.Began? && e.out.Some? ==> e.outsz <= |e.out.value|
  }

  type Run = events: seq<Event> | forall e | e in events :: Sound(e) witness []

  function Front(r: Run): Run
    requires r != []
  {
    assert forall e | e in r[..|r| - 1] :: e in r;
    r[..|r| - 1]
  }

  function Last(r: Run): (e: Event)
    requires r != []
    ensures Sound(e)
  {
    r[|r| - 1]
  }

  function Happen(lineMax: nat, s: State, e: Event): State
    requires Sound(e)
  {
    match e
    case Byte(c) => FeedByte(lineMax, s, c)
    case Began(kind, msgid, out, outsz) => s.(core := Begin(s.core, kind, msgid, out, outsz))
    case Wrote => SetWritten(s)
    case TokenSet(token) => SetToken(s, token)
    case Staged(stage) => s.(core := s.core.(cmd := s.core.cmd.(stage := stage)))
    case Aborted => s.(core := Abort(s.core))
  }

  function After(lineMax: nat, s: State, r: Run): State
    decreases |r|
  {
    if r == [] then s else Happen(lineMax, After(lineMax, s, Front(r)), Last(r))
  }

  // ---- what happened, read off the events alone ----

  /** The bytes since the last LF. */
  function Tail(r: Run): string
    decreases |r|
  {
    if r == [] then ""
    else if !Last(r).Byte? then Tail(Front(r))
    else if Last(r).c == '\n' then ""
    else Tail(Front(r)) + [Last(r).c]
  }

  /** The line dispatched by the last event, if it dispatched one. */
  function LineAt(lineMax: nat, r: Run): Option<string>
    requires r != []
  {
    var line := Clean(Tail(Front(r)));
    if Last(r) == Byte('\n') && 0 < |line| < lineMax then Some(line) else None
  }

  /** The index of the begin that opened the current window. */
  function OpenAt(r: Run): (w: Option<nat>)
    ensures w.Some? ==> w.value < |r| && r[w.value].Began?
    decreases |r|
  {
    if r == [] then None
    else if Last(r).Began? then Some(|r| - 1)
    else if Last(r).Aborted? then None
    else OpenAt(Front(r))
  }

  /** The command was marked written since the last begin. */
  predicate WrittenSince(r: Run)
    decreases |r|
  {
    r != [] && (Last(r).Wrote? || (!Last(r).Began? && WrittenSince(Front(r))))
  }

  /** The two terminators, the lines of the +LMQTT branch, and everything else. */
  datatype Sort = OkLine | ErrorLine | LmqttLine | OrdinaryLine

  function SortOf(line: string): Sort {
    if IsLmqtt(line) then LmqttLine
    else if line == "OK" then OkLine
    else if IsErrorText(CStr(line)) then ErrorLine
    else OrdinaryLine
  }

  predicate IsSortAt(lineMax: nat, r: Run, sort: Sort)
    requires r != []
  {
    LineAt(lineMax, r).Some? && SortOf(LineAt(lineMax, r).value) == sort
  }

  /** How many lines of a sort were dispatched. */
  function Lines(lineMax: nat, r: Run, sort: Sort): nat
    decreases |r|
  {
    if r == [] then 0
    else Lines(lineMax, Front(r), sort) + if IsSortAt(lineMax, r, sort) then 1 else 0
  }

  /** The LF bytes received, and those of them that ended an empty or an overlong line. */
  function Lfs(r: Run): nat
    decreases |r|
  {
    if r == [] then 0 else Lfs(Front(r)) + if Last(r) == Byte('\n') then 1 else 0
  }

  function Empties(r: Run): nat
    decreases |r|
  {
    if r == [] then 0
    else Empties(Front(r)) + if Last(r) == Byte('\n') && Clean(Tail(Front(r))) == "" then 1 else 0
  }

  function Overlong(lineMax: nat, r: Run): nat
    decreases |r|
  {
    if r == [] then 0 else
      Overlong(lineMax, Front(r)) +
      if Last(r) == Byte('\n') && |Clean(Tail(Front(r)))| >= lineMax then 1 else 0
  }

  /** The windows that received a terminator of a sort after their command was written. */
  function Accepting(lineMax: nat, r: Run, sort: Sort): (ws: set<nat>)
    ensures forall w | w in ws :: w < |r|
    decreases |r|
  {
    if r == [] then {} else
      var before := Accepting(lineMax, Front(r), sort);
      var w := OpenAt(Front(r));
      if w.Some? && WrittenSince(Front(r)) && IsSortAt(lineMax, r, sort) then before + {w.value} else before
  }

  // ---- conservation ----

  /** The framer and the window flags say what the events say. */
  predicate Tracks(lineMax: nat, s: State, r: Run)
    requires lineMax > 1
  {
    && s.frame == FrameOf(lineMax, Tail(r))
    && (s.core.cmd.busy <==> OpenAt(r).Some?)
    && (OpenAt(r).Some? ==>
          && (s.core.cmd.written <==> WrittenSince(r))
          && (s.core.cmd.acked <==> OpenAt(r).value in Accepting(lineMax, r, OkLine))
          && (s.core.cmd.rejected <==> OpenAt(r).value in Accepting(lineMax, r, ErrorLine)))
  }

  /** The terminators counted, as opposed to accepted by a window. */
  function Counted(n: Counters, sort: Sort): nat {
    match sort
    case OkLine => n.earlyAcks + n.strayOks + n.extraAcks
    case ErrorLine => n.earlyErrs + n.strayErrs + n.extraErrs
    case _ => 0
  }

  /** A terminator that arrives now is the first of its sort that the window accepts. */
  predicate Accepted(c: Cmd, sort: Sort) {
    c.busy && c.written &&
    match sort
    case OkLine => !c.acked
    case ErrorLine => !c.rejected
    case _ => false
  }

  predicate Balanced(lineMax: nat, n0: Counters, n: Counters, r: Run, sort: Sort) {
    Counted(n, sort) + |Accepting(lineMax, r, sort)| == Counted(n0, sort) + Lines(lineMax, r, sort)
  }

  lemma LmqttIsNoTerminator(line: string)
    ensures !ClassifyLmqtt(line).Ok? && !ClassifyLmqtt(line).Error? && !ClassifyLmqtt(line).Ordinary?
  {
  }

  /** A line changes the window flags and the terminator counters only by its sort. */
  lemma LineBySort(s: Core, line: string)
    ensures var s', sort := Dispatch(s, line), SortOf(line);
            && s'.counts.rxOther == s.counts.rxOther + (if sort.OrdinaryLine? then 1 else 0)
            && s'.counts.lineDrops == s.counts.lineDrops
            && s'.cmd.busy == s.cmd.busy && s'.cmd.written == s.cmd.written
            && s'.cmd.acked == (s.cmd.acked || (sort.OkLine? && !Fenced(s.cmd)))
            && s'.cmd.rejected == (s.cmd.rejected || (sort.ErrorLine? && !Fenced(s.cmd)))
            && (forall t: Sort :: Counted(s'.counts, t) == Counted(s.counts, t) +
                  if t == sort && (t.OkLine? || t.ErrorLine?) && !Accepted(s.cmd, t) then 1 else 0)
  {
    LmqttIsNoTerminator(line);
    hide IsLmqtt, IsErrorText, CStr, ClassifyLmqtt, ParseCme, RawAfter, MailAfter, Matches;
    var l := Classify(line);
    match l
    case Ok =>
    case Error(_) =>
    case Ordinary(_) =>
    case _ =>
  }

  /** Both sorts of terminators balance, and the flags say what the events say. */
  predicate Books(lineMax: nat, n0: Counters, s: State, r: Run)
    requires lineMax > 1
  {
    && Tracks(lineMax, s, r)
    && Balanced(lineMax, n0, s.core.counts, r, OkLine) && Balanced(lineMax, n0, s.core.counts, r, ErrorLine)
    && s.core.counts.rxOther == n0.rxOther + Lines(lineMax, r, OrdinaryLine)
    && s.core.counts.lineDrops == n0.lineDrops + Overlong(lineMax, r)
  }

  /** A line adds to the accepting windows exactly when its window had not accepted that sort yet. */
  lemma AcceptingGrows(lineMax: nat, s: State, r: Run, sort: Sort)
    requires lineMax > 1 && r != [] && Tracks(lineMax, s, Front(r)) && LineAt(lineMax, r).Some?
    requires sort.OkLine? || sort.ErrorLine?
    ensures |Accepting(lineMax, r, sort)| == |Accepting(lineMax, Front(r), sort)| +
              if IsSortAt(lineMax, r, sort) && Accepted(s.core.cmd, sort) then 1 else 0
  {
    hide FrameOf, Clean, SortOf;
    var before := Accepting(lineMax, Front(r), sort);
    var w := OpenAt(Front(r));
    if w.Some? && w.value in before {
      assert before + {w.value} == before;
    }
  }

  lemma LineKeepsTracks(lineMax: nat, s: State, r: Run)
    requires lineMax > 1 && r != [] && Tracks(lineMax, s, Front(r)) && LineAt(lineMax, r).Some?
    ensures Tracks(lineMax, Happen(lineMax, s, Last(r)), r)
    ensures Happen(lineMax, s, Last(r)).core == Dispatch(s.core, LineAt(lineMax, r).value)
  {
    hide Dispatch, SortOf, FeedByte, FrameOf, Clean, Counted;
    ByteRefines(lineMax, s.core, Tail(Front(r)), Last(r).c);
    LineBySort(s.core, LineAt(lineMax, r).value);
  }

  lemma LineKeepsBooks(lineMax: nat, n0: Counters, s: State, r: Run)
    requires lineMax > 1 && r != [] && Books(lineMax, n0, s, Front(r)) && LineAt(lineMax, r).Some?
    ensures Books(lineMax, n0, Happen(lineMax, s, Last(r)), r)
  {
    LineKeepsTracks(lineMax, s, r);
    LineBySort(s.core, LineAt(lineMax, r).value);
    AcceptingGrows(lineMax, s, r, OkLine);
    AcceptingGrows(lineMax, s, r, ErrorLine);
    hide Dispatch, SortOf, Happen, Tracks, Counted, Accepted, Accepting;
  }

  /** An event that dispatches no line changes no terminator counter. */
  lemma QuietKeepsBalance(lineMax: nat, n0: Counters, s: State, r: Run, sort: Sort)
    requires lineMax > 1 && r != [] && Balanced(lineMax, n0, s.core.counts, Front(r), sort)
    requires LineAt(lineMax, r).None? && s.frame == FrameOf(lineMax, Tail(Front(r)))
    ensures var n, n' := s.core.counts, Happen(lineMax, s, Last(r)).core.counts;
            && Balanced(lineMax, n0, n', r, sort) && n'.rxOther == n.rxOther
            && n'.lineDrops - n.lineDrops == Overlong(lineMax, r) - Overlong(lineMax, Front(r))
  {
    hide Dispatch, SortOf, FeedByte, FrameOf, Clean, Accepting, Pack;
    QuietKeepsAccepting(lineMax, r, sort);
    if Last(r).Byte? {
      ByteRefines(lineMax, s.core, Tail(Front(r)), Last(r).c);
    }
  }

  lemma QuietKeepsAccepting(lineMax: nat, r: Run, sort: Sort)
    requires r != [] && LineAt(lineMax, r).None?
    ensures Accepting(lineMax, r, sort) == Accepting(lineMax, Front(r), sort)
  {
    hide Clean, SortOf;
  }

  lemma QuietKeepsTracks(lineMax: nat, s: State, r: Run)
    requires lineMax > 1 && r != [] && Tracks(lineMax, s, Front(r)) && LineAt(lineMax, r).None?
    ensures Tracks(lineMax, Happen(lineMax, s, Last(r)), r)
  {
    hide Dispatch, SortOf, FrameOf, Clean;
    if Last(r).Byte? {
      ByteRefines(lineMax, s.core, Tail(Front(r)), Last(r).c);
      hide FeedByte;
    } else {
      hide FeedByte, Pack;
    }
  }

  /**
   * Conservation over every run from an idle engine: every OK and every ERROR line is either the
   * first its window accepted after the write, or in exactly one of the early, stray and extra
   * counters; the ordinary lines are those in rx_other; the overlong ones those in line_drops.
   */
  lemma {:induction false} AcksConserved(lineMax: nat, s: State, r: Run)
    requires lineMax > 1 && s.frame == Frame("", false) && !s.core.cmd.busy
    ensures Books(lineMax, s.core.counts, After(lineMax, s, r), r)
    decreases |r|
  {
    if r != [] {
      hide Happen, Balanced;
      AcksConserved(lineMax, s, Front(r));
      var n0, before := s.core.counts, After(lineMax, s, Front(r));
      if LineAt(lineMax, r).Some? {
        LineKeepsBooks(lineMax, n0, before, r);
      } else {
        QuietKeepsTracks(lineMax, before, r);
        QuietKeepsBalance(lineMax, n0, before, r, OkLine);
        QuietKeepsBalance(lineMax, n0, before, r, ErrorLine);
      }
    }
  }

  lemma {:induction false} LfsBySort(lineMax: nat, r: Run)
    requires lineMax > 1
    ensures Lfs(r) == Empties(r) + Overlong(lineMax, r) + Lines(lineMax, r, OkLine) + Lines(lineMax, r, ErrorLine)
                      + Lines(lineMax, r, LmqttLine) + Lines(lineMax, r, OrdinaryLine)
    decreases |r|
  {
    hide Clean, SortOf;
    if r != [] {
      LfsBySort(lineMax, Front(r));
    }
  }

  /**
   * Every LF byte is accounted for by the counters: it ended an empty line, a line of the +LMQTT branch,
   * a terminator accepted by its window, or a line that one of line_drops, rx_other and the early,
   * stray and extra counters has gone up for.
   */
  lemma LfsConserved(lineMax: nat, s: State, r: Run)
    requires lineMax > 1 && s.frame == Frame("", false) && !s.core.cmd.busy
    ensures var n0, n := s.core.counts, After(lineMax, s, r).core.counts;
            Lfs(r) == Empties(r) + Lines(lineMax, r, LmqttLine)
                      + (n.lineDrops - n0.lineDrops) + (n.rxOther - n0.rxOther)
                      + (n.earlyAcks - n0.earlyAcks) + (n.strayOks - n0.strayOks) + (n.extraAcks - n0.extraAcks)
                      + |Accepting(lineMax, r, OkLine)|
                      + (n.earlyErrs - n0.earlyErrs) + (n.strayErrs - n0.strayErrs) + (n.extraErrs - n0.extraErrs)
                      + |Accepting(lineMax, r, ErrorLine)|
  {
    AcksConserved(lineMax, s, r);
    LfsBySort(lineMax, r);
    hide After, Accepting, Lines, Lfs, Empties, Overlong, Tracks;
  }

  // ---- every command is such a run ----

  ghost predicate Reaches(lineMax: nat, s: State, s': State) {
    exists r: Run :: After(lineMax, s, r) == s'
  }

  function Append(r: Run, e: Event): (r': Run)
    requires Sound(e)
    ensures r' != [] && Front(r') == r && Last(r') == e
  {
    r + [e]
  }

  lemma ReachesNext(lineMax: nat, s: State, s': State, e: Event)
    requires Reaches(lineMax, s, s') && Sound(e)
    ensures Reaches(lineMax, s, Happen(lineMax, s', e))
  {
    hide Happen;
    var r: Run :| After(lineMax, s, r) == s';
    assert After(lineMax, s, Append(r, e)) == Happen(lineMax, s', e);
  }

  lemma ReachesItself(lineMax: nat, s: State)
    ensures Reaches(lineMax, s, s)
  {
    assert After(lineMax, s, []) == s;
  }

  lemma {:induction false} ReachesFed(lineMax: nat, s: State, s': State, bytes: string)
    requires Reaches(lineMax, s, s')
    ensures Reaches(lineMax, s, Feed(lineMax, s', bytes))
    decreases |bytes|
  {
    hide Reaches, FeedByte;
    if bytes != "" {
      var front := bytes[..|bytes| - 1];
      ReachesFed(lineMax, s, s', front);
      ReachesNext(lineMax, s, Feed(lineMax, s', front), Byte(bytes[|bytes| - 1]));
    }
  }

  lemma {:induction false} ReachesSent(lineMax: nat, s: State, s': State, pieces: seq<string>, writes: seq<Write>)
    requires |pieces| <= |writes| && Reaches(lineMax, s, s')
    ensures Reaches(lineMax, s, SendAll(lineMax, s', pieces, writes).0)
    decreases |pieces|
  {
    hide Reaches, Feed;
    if pieces != [] {
      ReachesFed(lineMax, s, s', writes[0].arriving);
      ReachesSent(lineMax, s, Feed(lineMax, s', writes[0].arriving), pieces[1..], writes[1..]);
    }
  }

  lemma ReachesWaited(lineMax: nat, s: State, s': State, bytes: string)
    requires Reaches(lineMax, s, s')
    ensures Reaches(lineMax, s, Wait(lineMax, s', bytes).0)
  {
    hide Reaches, Feed;
    ReachesFed(lineMax, s, s', bytes);
    ReachesNext(lineMax, s, Feed(lineMax, s', bytes), TokenSet(false));
  }

  lemma ReachesClosed(lineMax: nat, s: State, s': State, stage: Stage, rc: int, out: Option<(int, int)>)
    requires Reaches(lineMax, s, s')
    ensures Reaches(lineMax, s, Close(s', stage, rc, out).s)
  {
    hide Reaches;
    ReachesNext(lineMax, s, s', Staged(stage));
    ReachesNext(lineMax, s, Happen(lineMax, s', Staged(stage)), Aborted);
  }

  lemma ReachesClaimed(lineMax: nat, s: State, s': State, pend: Word)
    requires Reaches(lineMax, s, s')
    ensures Reaches(lineMax, s, Claim(s', pend).s)
  {
    hide Reaches, Ready;
    var c := s'.core.cmd;
    ReachesClosed(lineMax, s, s', StaleSlot, ERR_TIMEOUT, None);
    ReachesClosed(lineMax, s, s', c.stage, LMQTT_OK, Some((c.result, c.extra)));
  }

  lemma ReachesJudged(lineMax: nat, s: State, s': State, pend: Word, taken: bool, atUrc: string)
    requires Reaches(lineMax, s, s')
    ensures Reaches(lineMax, s, Judge(lineMax, s', pend, taken, atUrc).s)
  {
    hide Reaches, Ready, Wait, Claim, Close;
    var c := s'.core.cmd;
    ReachesClosed(lineMax, s, s', AckTmo, ERR_TIMEOUT, None);
    ReachesClosed(lineMax, s, s', c.stage, ERR_AT, None);
    ReachesClosed(lineMax, s, s', c.stage, LMQTT_OK, None);
    ReachesClaimed(lineMax, s, s', pend);
    ReachesNext(lineMax, s, s', TokenSet(false));
    ReachesWaited(lineMax, s, SetToken(s', false), atUrc);
    var waited := Wait(lineMax, SetToken(s', false), atUrc).0;
    ReachesClosed(lineMax, s, waited, UrcTmo, ERR_TIMEOUT, None);
    ReachesClaimed(lineMax, s, waited, pend);
  }

  /** Begin, any number of sends, finish or abort: a whole command is one of the runs above. */
  lemma CommandIsRun(lineMax: nat, s: State, kind: Kind, msgid: MsgId, out: Option<string>, outsz: nat,
                     pieces: seq<string>, io: Traffic)
    requires (out.Some? ==> outsz <= |out.value|) && |pieces| <= |io.writes|
    ensures Reaches(lineMax, s, Transact(lineMax, s.(core := Begin(s.core, kind, msgid, out, outsz)), pieces, io).s)
  {
    hide Reaches, SendAll, Wait, Judge, Begin;
    var begun := s.(core := Begin(s.core, kind, msgid, out, outsz));
    ReachesItself(lineMax, s);
    ReachesNext(lineMax, s, s, Began(kind, msgid, out, outsz));
    ReachesSent(lineMax, s, begun, pieces, io.writes);
    var sent := SendAll(lineMax, begun, pieces, io.writes).0;
    ReachesNext(lineMax, s, sent, Aborted);
    ReachesNext(lineMax, s, sent, Wrote);
    ReachesWaited(lineMax, s, SetWritten(sent), io.atAck);
    var (acked, taken) := Wait(lineMax, SetWritten(sent), io.atAck);
    ReachesJudged(lineMax, s, acked, sent.core.cmd.pending, taken, io.atUrc);
  }
}
