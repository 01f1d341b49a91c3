/** What has been received, as a log of dispatched lines, and the questions asked about it. */
module EventLog {
  import opened Basics
  import opened PairingWord
  import opened LineSyntax
  import opened EngineState

  /** An OK was dispatched at a log position in [a, b). */
  predicate OkIn(log: seq<Line>, a: nat, b: nat) {
    exists j :: a <= j < b && j < |log| && log[j].Ok?
  }

  /** An ERROR or +CME ERROR was dispatched at a log position in [a, b). */
  predicate ErrIn(log: seq<Line>, a: nat, b: nat) {
    exists j :: a <= j < b && j < |log| && log[j].Error?
  }

  predicate AckIn(log: seq<Line>, a: nat, b: nat) {
    OkIn(log, a, b) || ErrIn(log, a, b)
  }

  /** A result URC for the command that published `w` was dispatched at a log position in [a, b). */
  predicate MatchIn(log: seq<Line>, w: Word, a: nat, b: nat) {
    exists j :: a <= j < b && j < |log| && Matches(w, log[j])
  }

  /** The most recent result URC for `w` among the lines. */
  function LastMatch(w: Word, lines: seq<Line>): (r: Option<Line>)
    ensures r.Some? ==> r.value.Result?
  {
    if lines == [] then None
    else if Matches(w, lines[|lines| - 1]) then Some(lines[|lines| - 1])
    else LastMatch(w, lines[..|lines| - 1])
  }

  lemma OkGrows(log: seq<Line>, l: Line, a: nat, b: nat)
    ensures b <= |log| ==> OkIn(log + [l], a, b) == OkIn(log, a, b)
    ensures a <= |log| ==> OkIn(log + [l], a, |log| + 1) == (OkIn(log, a, |log|) || l.Ok?)
  {
    assert l.Ok? ==> (log + [l])[|log|].Ok?;
    assert forall j | 0 <= j < |log| :: (log + [l])[j] == log[j];
  }

  lemma ErrGrows(log: seq<Line>, l: Line, a: nat, b: nat)
    ensures b <= |log| ==> ErrIn(log + [l], a, b) == ErrIn(log, a, b)
    ensures a <= |log| ==> ErrIn(log + [l], a, |log| + 1) == (ErrIn(log, a, |log|) || l.Error?)
  {
    assert l.Error? ==> (log + [l])[|log|].Error?;
    assert forall j | 0 <= j < |log| :: (log + [l])[j] == log[j];
  }

  lemma MatchGrows(log: seq<Line>, l: Line, w: Word, a: nat, b: nat)
    ensures b <= |log| ==> MatchIn(log + [l], w, a, b) == MatchIn(log, w, a, b)
    ensures a <= |log| ==> MatchIn(log + [l], w, a, |log| + 1) == (MatchIn(log, w, a, |log|) || Matches(w, l))
  {
    hide Matches;
    assert Matches(w, l) ==> Matches(w, (log + [l])[|log|]);
    assert forall j | 0 <= j < |log| :: (log + [l])[j] == log[j];
  }

  lemma {:induction false} LastMatchIsMatch(log: seq<Line>, w: Word, a: nat, b: nat)
    requires a <= b <= |log|
    ensures LastMatch(w, log[a..b]).Some? <==> MatchIn(log, w, a, b)
    decreases b
  {
    hide Matches;
    var lines := log[a..b];
    if a < b {
      assert lines[|lines| - 1] == log[b - 1];
      if !Matches(w, log[b - 1]) {
        assert lines[..|lines| - 1] == log[a..b - 1];
        LastMatchIsMatch(log, w, a, b - 1);
        assert MatchIn(log, w, a, b) ==> MatchIn(log, w, a, b - 1);
      }
    }
  }

  lemma LastMatchGrows(log: seq<Line>, l: Line, w: Word, a: nat)
    requires a <= |log|
    ensures LastMatch(w, (log + [l])[a..]) == if Matches(w, l) then Some(l) else LastMatch(w, log[a..])
  {
    assert (log + [l])[a..] == log[a..] + [l];
    assert (log[a..] + [l])[..|log[a..]|] == log[a..];
  }
}
