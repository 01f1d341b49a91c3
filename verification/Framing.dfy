/**
 * Line framing (a lax form of section 5.7.1 of ITU-T V.250): what lmqtt_rx_feed makes of a byte
 * stream, said without its buffer. The stream is cut at every LF; CRs are deleted; empty lines are
 * skipped; lines that do not fit the buffer are dropped whole.
 */
module Framing {
  import opened EngineState

  /** The segments ended by an LF, and the unterminated rest. */
  function Split(bytes: string): (r: (seq<string>, string))
    decreases |bytes|
  {
    if bytes == "" then ([], "") else
      var (segments, tail) := Split(bytes[..|bytes| - 1]);
      var c := bytes[|bytes| - 1];
      if c == '\n' then (segments + [tail], "") else (segments, tail + [c])
  }

  function Join(segments: seq<string>): string {
    if segments == [] then "" else Join(segments[..|segments| - 1]) + segments[|segments| - 1] + "\n"
  }

  predicate NoLf(segments: seq<string>) {
    forall s | s in segments :: '\n' !in s
  }

  /** `Split` is the only way to cut the stream at its LFs. */
  lemma {:induction false} SplitJoin(bytes: string)
    ensures var (segments, tail) := Split(bytes);
            Join(segments) + tail == bytes && NoLf(segments) && '\n' !in tail
    decreases |bytes|
  {
    if bytes != "" {
      var front, c := bytes[..|bytes| - 1], bytes[|bytes| - 1];
      SplitJoin(front);
      var (segments, tail) := Split(front);
      assert bytes == Join(segments) + tail + [c];
      if c == '\n' {
        assert (segments + [tail])[..|segments|] == segments;
      } else {
        assert Join(segments) + (tail + [c]) == bytes;
      }
    }
  }

  function Clean(segment: string): (line: string)
    ensures '\r' !in line
    ensures '\n' !in segment ==> '\n' !in line
  {
    if segment == "" then "" else
      var front, c := segment[..|segment| - 1], segment[|segment| - 1];
      if c == '\r' then Clean(front) else Clean(front) + [c]
  }

  lemma {:induction false} CleanOfClean(segment: string)
    requires '\r' !in segment
    ensures Clean(segment) == segment
  {
    if segment != "" {
      CleanOfClean(segment[..|segment| - 1]);
    }
  }

  /** A CR anywhere in the segment leaves no trace. */
  lemma {:induction false} CleanDeletesCr(a: string, b: string)
    ensures Clean(a + "\r" + b) == Clean(a + b)
    decreases |b|
  {
    if b == "" {
      assert (a + "\r" + b)[..|a|] == a && a + b == a;
    } else {
      var front := b[..|b| - 1];
      CleanDeletesCr(a, front);
      assert (a + "\r" + b)[..|a + "\r" + b| - 1] == a + "\r" + front;
      assert (a + b)[..|a + b| - 1] == a + front;
    }
  }

  /** What one complete segment does to the engine. */
  function Deliver(lineMax: nat, s: Core, segment: string): Core {
    var line := Clean(segment);
    if line == "" then s
    else if |line| >= lineMax then CountLineDrop(s)
    else Dispatch(s, line)
  }

  function DeliverAll(lineMax: nat, s: Core, segments: seq<string>): Core {
    if segments == [] then s
    else Deliver(lineMax, DeliverAll(lineMax, s, segments[..|segments| - 1]), segments[|segments| - 1])
  }

  /** The lines dispatched for complete segments, in order. */
  function Emitted(lineMax: nat, segments: seq<string>): (lines: seq<string>)
    ensures forall l | l in lines :: 0 < |l| < lineMax && '\r' !in l
  {
    if segments == [] then [] else
      var front := Emitted(lineMax, segments[..|segments| - 1]);
      var line := Clean(segments[|segments| - 1]);
      if 0 < |line| < lineMax then front + [line] else front
  }

  /** The framer state that stands for an unterminated rest. */
  function FrameOf(lineMax: nat, tail: string): (f: Frame)
    requires lineMax > 0
    ensures |f.buf| < lineMax
  {
    var line := Clean(tail);
    if |line| >= lineMax then Frame(line[..lineMax - 1], true) else Frame(line, false)
  }

  /** One byte, seen from the segment being received. */
  lemma ByteRefines(lineMax: nat, core: Core, tail: string, c: char)
    requires lineMax > 1
    ensures FeedByte(lineMax, State(FrameOf(lineMax, tail), core), c) ==
            if c == '\n' then State(FrameOf(lineMax, ""), Deliver(lineMax, core, tail))
            else State(FrameOf(lineMax, tail + [c]), core)
  {
    if c != '\n' {
      var longer := tail + [c];
      assert longer[..|longer| - 1] == tail;
    }
  }

  /**
   * The framer refines its declarative description, for any stream and from any reachable framer
   * state: `pending` is the unterminated text already received.
   */
  lemma {:induction false} FramerRefines(lineMax: nat, core: Core, pending: string, bytes: string)
    requires lineMax > 1 && '\n' !in pending
    ensures var (segments, tail) := Split(pending + bytes);
            Feed(lineMax, State(FrameOf(lineMax, pending), core), bytes) ==
            State(FrameOf(lineMax, tail), DeliverAll(lineMax, core, segments))
    decreases |bytes|
  {
    hide FeedByte, Deliver, FrameOf;
    var s := State(FrameOf(lineMax, pending), core);
    if bytes == "" {
      SplitWithoutLf(pending);
      assert pending + bytes == pending;
    } else {
      var front, c := bytes[..|bytes| - 1], bytes[|bytes| - 1];
      FramerRefines(lineMax, core, pending, front);
      var (segments, tail) := Split(pending + front);
      var all := pending + bytes;
      assert all[..|all| - 1] == pending + front;
      ByteRefines(lineMax, DeliverAll(lineMax, core, segments), tail, c);
      if c == '\n' {
        assert (segments + [tail])[..|segments|] == segments;
      }
    }
  }

  lemma {:induction false} SplitWithoutLf(text: string)
    requires '\n' !in text
    ensures Split(text) == ([], text)
  {
    if text != "" {
      var front, c := text[..|text| - 1], text[|text| - 1];
      assert text == front + [c];
      SplitWithoutLf(front);
    }
  }

  /** Feeding two chunks is feeding their concatenation, so chunk boundaries are invisible. */
  lemma {:induction false} FeedConcat(lineMax: nat, s: State, a: string, b: string)
    ensures Feed(lineMax, Feed(lineMax, s, a), b) == Feed(lineMax, s, a + b)
    decreases |b|
  {
    if b == "" {
      assert a + b == a;
    } else {
      var front := b[..|b| - 1];
      FeedConcat(lineMax, s, a, front);
      assert (a + b)[..|a + b| - 1] == a + front;
    }
  }

  function FeedChunks(lineMax: nat, s: State, chunks: seq<string>): State {
    if chunks == [] then s
    else Feed(lineMax, FeedChunks(lineMax, s, chunks[..|chunks| - 1]), chunks[|chunks| - 1])
  }

  function Concat(chunks: seq<string>): string {
    if chunks == [] then "" else Concat(chunks[..|chunks| - 1]) + chunks[|chunks| - 1]
  }

  lemma {:induction false} ChunkingIsInvisible(lineMax: nat, s: State, chunks: seq<string>)
    ensures FeedChunks(lineMax, s, chunks) == Feed(lineMax, s, Concat(chunks))
  {
    if chunks != [] {
      var front := chunks[..|chunks| - 1];
      ChunkingIsInvisible(lineMax, s, front);
      FeedConcat(lineMax, s, Concat(front), chunks[|chunks| - 1]);
    }
  }

  /** After an LF nothing of the earlier bytes is left in the framer, whatever state it was in. */
  lemma LfResetsFramer(lineMax: nat, s: State, bytes: string)
    ensures Feed(lineMax, s, bytes + "\n").frame == Frame("", false)
  {
    var all := bytes + "\n";
    assert all[..|all| - 1] == bytes;
  }

  /** The terminator is written at an index inside the buffer: the text never fills it. */
  lemma {:induction false} BufferInBounds(lineMax: nat, s: State, bytes: string)
    requires |s.frame.buf| < lineMax
    ensures |Feed(lineMax, s, bytes).frame.buf| < lineMax
    decreases |bytes|
  {
    if bytes != "" {
      BufferInBounds(lineMax, s, bytes[..|bytes| - 1]);
    }
  }
}
