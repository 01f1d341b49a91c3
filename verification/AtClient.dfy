/**
 * The response object of the AT client: the engine fills its buffer during a RAW command, and the
 * line readers walk the buffer afterwards.
 */
module AtClient {
  import opened Basics
  import opened CStrings
  import opened PairingWord
  import opened EngineState
  import opened Engine
  import opened Framing
  import opened RawCapture

  const AT_ERR_PERM := -1
  const AT_ERR_NOBUF := -105

  /** Where the string after `k` terminated strings starts; None when the buffer has fewer of them. */
  function Start(s: string, k: nat): (p: Option<nat>)
    ensures p.Some? ==> p.value <= |s|
  {
    if k == 0 then Some(0) else
      var q := Start(s, k - 1);
      if q.None? then None else
        var n := IndexOf(s[q.value..], NUL);
        if n == |s[q.value..]| then None else Some(q.value + n + 1)
  }

  /** What a C program reads at offset `p`. */
  function StringAt(s: string, p: nat): string
    requires p <= |s|
  {
    CStr(s[p..])
  }

  /** strlen never runs past the buffer while the first `n` strings are walked. */
  predicate Walkable(s: string, n: nat) {
    Start(s, n).Some?
  }

  lemma StartEarlier(s: string, k: nat, n: nat)
    requires k <= n && Walkable(s, n)
    ensures Walkable(s, k)
    decreases n
  {
    if k < n {
      StartEarlier(s, k, n - 1);
    }
  }

  /** at_response */
  class Response {
    const buf: array<char>
    var bufLen: nat
    var lineCounts: nat

    /** at_create_resp; the buffer it gets is uninitialised memory. */
    constructor (bufSize: nat)
      ensures fresh(buf) && buf.Length == bufSize && bufLen == 0 && lineCounts == 0
    {
      buf := new char[bufSize];
      bufLen, lineCounts := 0, 0;
    }

    /** The contents of the response buffer. */
    function Bytes(): string
      reads buf
    {
      buf[..]
    }

    /** at_resp_get_line: the offset of line `respLine`, counted from one. */
    method GetLine(respLine: nat) returns (r: Option<nat>)
      requires Walkable(Bytes(), lineCounts)
      ensures r == if 1 <= respLine <= lineCounts then Start(Bytes(), respLine - 1) else None
      ensures r.Some? <==> 1 <= respLine <= lineCounts
    {
      hide *;
      if respLine > lineCounts || respLine <= 0 {
        return None;
      }
      StartAtZero(Bytes());
      var p := 0;
      for lineNum := 1 to lineCounts + 1
        invariant lineNum <= respLine && Start(Bytes(), lineNum - 1) == Some(p)
      {
        if respLine == lineNum {
          return Some(p);
        }
        StartEarlier(Bytes(), lineNum, lineCounts);
        var n := StringLength(p, lineNum);
        p := p + n + 1;
      }
      assert false;
    }

    /** at_resp_get_line_by_kw: the offset of the first stored line containing the keyword. */
    method GetLineByKw(keyword: string) returns (r: Option<nat>)
      requires Walkable(Bytes(), lineCounts)
      ensures r == FirstWith(Bytes(), lineCounts, keyword, 0)
      ensures IsFirstWith(Bytes(), lineCounts, keyword, r)
    {
      hide *;
      KeywordFound(Bytes(), lineCounts, keyword);
      StartAtZero(Bytes());
      var p := 0;
      for lineNum := 1 to lineCounts + 1
        invariant Start(Bytes(), lineNum - 1) == Some(p)
        invariant FirstWith(Bytes(), lineCounts, keyword, 0) == FirstWith(Bytes(), lineCounts, keyword, lineNum - 1)
      {
        FirstWithStep(Bytes(), lineCounts, keyword, lineNum - 1);
        if Contains(StringAt(Bytes(), p), keyword) {
          return Some(p);
        }
        StartEarlier(Bytes(), lineNum, lineCounts);
        var n := StringLength(p, lineNum);
        p := p + n + 1;
      }
      FirstWithStep(Bytes(), lineCounts, keyword, lineCounts);
      return None;
    }

    /** strlen(resp_buf) */
    method StringLength(p: nat, ghost k: nat) returns (n: nat)
      requires k > 0 && Walkable(Bytes(), k) && Start(Bytes(), k - 1) == Some(p)
      ensures Start(Bytes(), k) == Some(p + n + 1) && n == |StringAt(Bytes(), p)|
    {
      StartIsNext(Bytes(), k);
      ghost var i := IndexOf(Bytes()[p..], NUL);
      assert buf[p + i] == Bytes()[p + i];
      hide *;
      n := 0;
      while buf[p + n] != NUL
        invariant n <= i
        decreases i - n
      {
        n := n + 1;
      }
    }
  }

  lemma StartIsNext(s: string, k: nat)
    requires k > 0 && Walkable(s, k)
    ensures Start(s, k - 1).Some?
    ensures var p := Start(s, k - 1).value;
            var n := IndexOf(s[p..], NUL);
            p + n < |s| && s[p + n] == NUL && Start(s, k) == Some(p + n + 1) && n == |StringAt(s, p)|
  {
    hide IndexOf;
  }

  lemma StartAtZero(s: string)
    ensures Start(s, 0) == Some(0)
  {
  }

  lemma FirstWithStep(s: string, n: nat, keyword: string, k: nat)
    requires Start(s, k).Some?
    ensures FirstWith(s, n, keyword, k) ==
            if k >= n then None
            else if Contains(StringAt(s, Start(s, k).value), keyword) then Start(s, k)
            else FirstWith(s, n, keyword, k + 1)
  {
  }

  /** The keyword stands somewhere in the text. */
  ghost predicate Occurs(keyword: string, text: string) {
    exists a, b :: text == a + keyword + b
  }

  /** It stands in the string that follows `k` others. */
  ghost predicate OccursAt(s: string, k: nat, keyword: string) {
    Start(s, k).Some? && Occurs(keyword, StringAt(s, Start(s, k).value))
  }

  lemma ContainsOccurs(s: string, keyword: string)
    ensures Contains(s, keyword) <==> Occurs(keyword, s)
  {
    if Contains(s, keyword) {
      var i :| 0 <= i <= |s| && StartsWith(s[i..], keyword);
      assert s == s[..i] + keyword + s[i + |keyword|..];
    }
    if Occurs(keyword, s) {
      var a, b :| s == a + keyword + b;
      assert s[|a|..][..|keyword|] == keyword;
      assert StartsWith(s[|a|..], keyword);
    }
  }

  lemma OccursHere(s: string, k: nat, n: nat, keyword: string)
    requires k <= n && Walkable(s, n)
    ensures Start(s, k).Some?
    ensures OccursAt(s, k, keyword) <==> Contains(StringAt(s, Start(s, k).value), keyword)
  {
    StartEarlier(s, k, n);
    ContainsOccurs(StringAt(s, Start(s, k).value), keyword);
    hide Start, StringAt, Contains, Occurs;
  }

  /** String `j` is the first of `k..n` the keyword stands in. */
  ghost predicate FirstAt(s: string, n: nat, keyword: string, k: nat, j: nat) {
    k <= j < n && OccursAt(s, j, keyword) && forall i | k <= i < j :: !OccursAt(s, i, keyword)
  }

  /** The keyword walk finds the first string the keyword stands in, and nothing only if there is none. */
  lemma {:induction false} FirstWithFinds(s: string, n: nat, keyword: string, k: nat) returns (j: nat)
    requires k <= n && Walkable(s, n)
    ensures FirstWith(s, n, keyword, k).Some? ==>
              FirstAt(s, n, keyword, k, j) && Start(s, j) == FirstWith(s, n, keyword, k)
    ensures FirstWith(s, n, keyword, k).None? ==> forall i | k <= i < n :: !OccursAt(s, i, keyword)
    decreases n - k
  {
    hide Start, StringAt, Contains, OccursAt, FirstWith, Walkable;
    OccursHere(s, k, n, keyword);
    FirstWithStep(s, n, keyword, k);
    j := k;
    if k < n && !OccursAt(s, k, keyword) {
      j := FirstWithFinds(s, n, keyword, k + 1);
    }
  }

  /** `r` is the start of the first of `n` strings with the keyword, and None exactly if none has it. */
  ghost predicate IsFirstWith(s: string, n: nat, keyword: string, r: Option<nat>) {
    && (r.Some? ==> exists k :: FirstAt(s, n, keyword, 0, k) && Start(s, k) == r)
    && (r.None? <==> forall k | 0 <= k < n :: !OccursAt(s, k, keyword))
  }

  lemma KeywordFound(s: string, n: nat, keyword: string)
    requires Walkable(s, n)
    ensures IsFirstWith(s, n, keyword, FirstWith(s, n, keyword, 0))
  {
    hide Start, OccursAt, FirstWith, Walkable;
    var k := FirstWithFinds(s, n, keyword, 0);
  }

  /** The start of the first of the strings `k..n` that contains the keyword. */
  function FirstWith(s: string, n: nat, keyword: string, k: nat): Option<nat>
    decreases n - k
  {
    if k >= n || Start(s, k).None? then None
    else if Contains(StringAt(s, Start(s, k).value), keyword) then Start(s, k)
    else FirstWith(s, n, keyword, k + 1)
  }

  // ---- the readers find what the capture stored ----

  /** The first `k` stored lines occupy the first `k` strings of the buffer. */
  lemma {:induction false} StartInLayout(lines: seq<string>, rest: string, k: nat)
    requires k <= |lines| && (forall l | l in lines :: NulFree(l))
    ensures Start(Layout(lines) + rest, k) == Some(|Layout(lines[..k])|)
    decreases k
  {
    if k > 0 {
      assert lines[k - 1] in lines;
      hide *;
      StartInLayout(lines, rest, k - 1);
      OneLineFurther(lines, rest, k - 1);
    }
  }

  lemma OneLineFurther(lines: seq<string>, rest: string, k: nat)
    requires k < |lines| && NulFree(lines[k])
    requires Start(Layout(lines) + rest, k) == Some(|Layout(lines[..k])|)
    ensures Start(Layout(lines) + rest, k + 1) == Some(|Layout(lines[..k + 1])|)
  {
    hide *;
    var s, p := Layout(lines) + rest, |Layout(lines[..k])|;
    LayoutCut(lines, rest, k);
    StartNext(s, k, p, lines[k], s[p + |lines[k]| + 1..]);
  }

  lemma StartNext(s: string, k: nat, p: nat, line: string, after: string)
    requires Start(s, k) == Some(p) && NulFree(line) && s[p..] == line + [NUL] + after
    ensures Start(s, k + 1) == Some(p + |line| + 1)
  {
    IndexOfField(line, NUL, after);
  }

  /** The string that starts there is line `k`. */
  lemma LineInLayout(lines: seq<string>, rest: string, k: nat)
    requires k < |lines| && NulFree(lines[k])
    ensures |Layout(lines[..k])| <= |Layout(lines) + rest|
    ensures StringAt(Layout(lines) + rest, |Layout(lines[..k])|) == lines[k]
  {
    LayoutCut(lines, rest, k);
    var s, p := Layout(lines) + rest, |Layout(lines[..k])|;
    CStrOfTerminated(lines[k], s[p + |lines[k]| + 1..]);
  }

  /** The buffer from the start of line `k` on. */
  lemma {:induction false} LayoutCut(lines: seq<string>, rest: string, k: nat)
    requires k < |lines|
    ensures var s, p := Layout(lines) + rest, |Layout(lines[..k])|;
            p + |lines[k]| + 1 <= |s| && |Layout(lines[..k + 1])| == p + |lines[k]| + 1
            && s[p..] == lines[k] + [NUL] + s[p + |lines[k]| + 1..]
    decreases |lines|
  {
    var n := |lines| - 1;
    var front, last := lines[..n], lines[n];
    assert lines[..k + 1][..k] == lines[..k];
    assert Layout(lines) + rest == Layout(front) + (last + [NUL] + rest);
    if k < n {
      LayoutCut(front, last + [NUL] + rest, k);
      assert front[..k] == lines[..k] && front[..k + 1] == lines[..k + 1];
    }
  }

  lemma {:induction false} FirstWithInLayout(lines: seq<string>, rest: string, keyword: string, k: nat)
    requires k <= |lines| && (forall l | l in lines :: NulFree(l))
    ensures FirstWith(Layout(lines) + rest, |lines|, keyword, k) ==
            match FirstLine(lines, keyword, k)
            case None => None
            case Some(i) => Some(|Layout(lines[..i])|)
    decreases |lines| - k
  {
    if k < |lines| {
      StartInLayout(lines, rest, k);
      LineInLayout(lines, rest, k);
      FirstWithInLayout(lines, rest, keyword, k + 1);
    }
  }

  /** The first of the lines from `k` on that contains the keyword. */
  function FirstLine(lines: seq<string>, keyword: string, k: nat): (r: Option<nat>)
    ensures r.None? ==> forall j | k <= j < |lines| :: !Occurs(keyword, lines[j])
    ensures r.Some? ==> k <= r.value < |lines| && Occurs(keyword, lines[r.value])
    ensures r.Some? ==> forall j | k <= j < r.value :: !Occurs(keyword, lines[j])
    decreases |lines| - k
  {
    if k >= |lines| then None else
      ContainsOccurs(lines[k], keyword);
      if Contains(lines[k], keyword) then Some(k) else FirstLine(lines, keyword, k + 1)
  }

  /** Text received without NUL bytes gives only nonempty lines without NUL bytes. */
  lemma {:induction false} OfferedNulFree(lineMax: nat, segments: seq<string>)
    requires forall g | g in segments :: NulFree(g)
    ensures forall l | l in Offered(lineMax, segments) :: l != "" && NulFree(l)
  {
    if segments != [] {
      var front, g := segments[..|segments| - 1], segments[|segments| - 1];
      assert front + [g] == segments;
      assert (forall x | x in front :: NulFree(x)) && NulFree(g);
      hide *;
      OfferedNulFree(lineMax, front);
      OfferedSnoc(lineMax, front, g);
      CleanNulFree(g);
    }
  }

  lemma CleanNulFree(segment: string)
    requires NulFree(segment)
    ensures NulFree(Clean(segment))
  {
    if segment != "" {
      CleanNulFree(segment[..|segment| - 1]);
    }
  }

  lemma {:induction false} SplitNulFree(bytes: string)
    requires NulFree(bytes)
    ensures forall g | g in Split(bytes).0 :: NulFree(g)
    ensures NulFree(Split(bytes).1)
    decreases |bytes|
  {
    if bytes != "" {
      SplitNulFree(bytes[..|bytes| - 1]);
    }
  }

  /**
   * RAW capture round trip. After a RAW command whose two writes went through, with a buffer below
   * 128 KiB and no NUL received, the response object holds exactly the lines that fit: every line
   * number up to the line count (from zero here) reads the line of that number, and the keyword search finds
   * the first stored line with the keyword.
   */
  lemma RawRoundTrip(lineMax: nat, core: Core, pending: string, text: string,
                     dest: string, outsz: nat, io: Traffic, keyword: string)
    requires lineMax > 1 && '\n' !in pending && outsz <= |dest| && outsz < 131072
    requires |io.writes| >= 2 && io.writes[0].accepted == |text| && io.writes[1].accepted == |CRLF|
    requires NulFree(pending + io.writes[0].arriving + io.writes[1].arriving + io.atAck)
    ensures var received := pending + io.writes[0].arriving + io.writes[1].arriving + io.atAck;
            var kept := Greedy(Offered(lineMax, Split(received).0), outsz);
            var r := Exec(lineMax, State(FrameOf(lineMax, pending), core), KIND_RAW, 0,
                          Some(dest), outsz, text, io).s.core.raw;
            && r.out.Some? && r.len == |Layout(kept)| && r.lines == |kept|
            && Walkable(r.out.value, r.lines)
            && (forall k | 0 <= k < r.lines ::
                  Start(r.out.value, k) == Some(|Layout(kept[..k])|)
                  && StringAt(r.out.value, |Layout(kept[..k])|) == kept[k])
            && FirstWith(r.out.value, r.lines, keyword, 0) ==
               match FirstLine(kept, keyword, 0)
               case None => None
               case Some(i) => Some(|Layout(kept[..i])|)
  {
    hide Exec, Split, Offered, Start, StringAt, FirstWith, Greedy, Layout;
    var received := pending + io.writes[0].arriving + io.writes[1].arriving + io.atAck;
    var offered := Offered(lineMax, Split(received).0);
    RawExecCaptures(lineMax, core, pending, text, dest, outsz, io);
    var r := Exec(lineMax, State(FrameOf(lineMax, pending), core), KIND_RAW, 0,
                  Some(dest), outsz, text, io).s.core.raw;
    SplitNulFree(received);
    OfferedNulFree(lineMax, Split(received).0);
    LineCountDoesNotWrap(r, dest, outsz, offered);
    var kept := Greedy(offered, outsz);
    var rest := r.out.value[r.len..];
    assert r.out.value == Layout(kept) + rest;
    forall k | 0 <= k <= |kept|
      ensures Start(r.out.value, k) == Some(|Layout(kept[..k])|)
      ensures k < |kept| ==> StringAt(r.out.value, |Layout(kept[..k])|) == kept[k]
    {
      StartInLayout(kept, rest, k);
      if k < |kept| {
        LineInLayout(kept, rest, k);
      }
    }
    FirstWithInLayout(kept, rest, keyword, 0);
  }

  // ---- at_obj_exec_cmd ----

  /** at_client: the buffer the command text is formatted into. */
  class Client {
    const sendBuf: array<char>

    constructor (sendBufsz: nat)
      ensures fresh(sendBuf) && sendBuf.Length == sendBufsz
    {
      sendBuf := new char[sendBufsz];
    }
  }

  /** at_obj_exec_cmd, with lmqtt_cmd_exec_raw as the port's AT channel. */
  method ExecCmd(engine: Engine, client: Client?, resp: Response?, text: string, io: Traffic) returns (rc: int)
    requires engine.Valid() && !engine.locked && |io.writes| >= 2
    requires resp != null ==> resp.buf != engine.line && resp.buf != engine.down0 && resp.buf != engine.down1
    requires client != null ==> client.sendBuf != engine.line
    requires client != null ==> client.sendBuf != engine.down0 && client.sendBuf != engine.down1
    requires client != null && engine.rawOut != null ==> client.sendBuf != engine.rawOut
    requires client != null && resp != null ==> client.sendBuf != resp.buf
    modifies engine, engine.line, engine.down0, engine.down1
    modifies if resp == null then {} else {resp, resp.buf}
    modifies if client == null then {} else {client.sendBuf}
    ensures engine.Valid() && !engine.locked
    ensures client == null ==> rc == -1
    ensures client != null && !(0 < |text| < client.sendBuf.Length) ==> rc == -105
    ensures client == null || !(0 < |text| < client.sendBuf.Length) ==>
              engine.FullState() == old(engine.FullState()) && engine.wire == old(engine.wire)
              && (resp != null ==> resp.bufLen == old(resp.bufLen) && resp.lineCounts == old(resp.lineCounts)
                                   && resp.buf[..] == old(resp.buf[..]))
    ensures client != null && 0 < |text| < client.sendBuf.Length ==>
              var done := Exec(LineMax(engine.cfg), old(engine.FullState()), KIND_RAW, 0,
                               if resp == null then None else Some(old(resp.buf[..])),
                               if resp == null then 0 else resp.buf.Length, CStr(text), io);
              && engine.FullState() == done.s && rc == done.rc
              && (resp != null ==> Some(resp.buf[..]) == done.s.core.raw.out
                                   && resp.bufLen == done.s.core.raw.len
                                   && resp.lineCounts == done.s.core.raw.lines)
  {
    if client == null {
      return AT_ERR_PERM;
    }
    var len := Format(client.sendBuf, text);
    if len == 0 || len >= client.sendBuf.Length {
      return AT_ERR_NOBUF;
    }
    var cmd := CStr(client.sendBuf[..]);
    hide Exec, Overwrite, CStr;
    var outLen, outLines;
    if resp != null {
      rc, outLen, outLines := engine.CmdExecRaw(cmd, resp.buf, resp.buf.Length, io);
      resp.bufLen := outLen;
      resp.lineCounts := outLines;
    } else {
      rc, outLen, outLines := engine.CmdExecRaw(cmd, null, 0, io);
    }
  }
}
