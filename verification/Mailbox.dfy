/**
 * The double-buffered downlink mailbox with producer and consumer split at every load, store and
 * copied byte: no lock, one flag, and a slot the consumer may keep reading after the take.
 */
module Mailbox {
  import opened Basics
  import opened CStrings
  import opened EngineState

  /** Where lmqtt_downlink_put is: the statement it executes next. */
  type PutPc = p: nat | p <= 7

  const PUT_IDLE: PutPc := 0
  const PUT_CHECK: PutPc := 1
  const PUT_CHOOSE: PutPc := 2
  const PUT_TOPIC: PutPc := 3
  const PUT_OFFSET: PutPc := 4
  const PUT_DATA: PutPc := 5
  const PUT_INDEX: PutPc := 6
  const PUT_READY: PutPc := 7

  /** Where lmqtt_take_downlink_with_topic is. */
  type TakePc = p: nat | p <= 4

  const TAKE_IDLE: TakePc := 0
  const TAKE_CHECK: TakePc := 1
  const TAKE_INDEX: TakePc := 2
  const TAKE_CLEAR: TakePc := 3
  const TAKE_OFFSET: TakePc := 4

  datatype Entry = Entry(topic: string, payload: string)

  function Text(e: Entry): string {
    SlotText(e.topic, e.payload)
  }

  /** The producer: what it is putting, the slot it chose, and how many bytes it has copied. */
  datatype Producer = Producer(pc: PutPc, e: Entry, slot: nat, k: nat)

  datatype Consumer = Consumer(pc: TakePc, slot: nat)

  /** What a take's caller finds behind the two pointers: the bytes of the slot and the payload offset. */
  datatype Seen = Seen(bytes: string, offset: nat)

  /**
   * `held` are the pointers the last non-NULL take returned, good until the next take claims an
   * entry. `accepted` are the entries made ready, in order, `taken` counts the claims, `returned` is
   * what the slots contained when the takes returned, and `puts` counts the calls of put.
   */
  datatype Sys = Sys(m: Mail, p: Producer, c: Consumer, held: Option<Borrow>,
                     accepted: seq<Entry>, taken: nat, returned: seq<Seen>, puts: nat)

  datatype Choice = CallPut(e: Entry) | RunPut | CallTake | RunTake

  function WriteByte(m: Mail, slot: nat, k: nat, c: char): Mail
    requires slot < 2 && k < Capacity(m)
  {
    m.(cells := m.cells[slot := m.cells[slot][k := c]])
  }

  function PutStep(s: Sys): Sys {
    var m, p := s.m, s.p;
    if p.pc == PUT_CHECK then
      if Accepts(m, |p.e.topic|, |p.e.payload|) then s.(p := p.(pc := PUT_CHOOSE))
      else s.(p := p.(pc := PUT_IDLE), m := m.(drops := m.drops + 1))
    else if p.pc == PUT_CHOOSE then s.(p := p.(pc := PUT_TOPIC, slot := 1 - m.idx, k := 0))
    else if p.pc == PUT_TOPIC || p.pc == PUT_DATA then
      if p.pc == PUT_TOPIC && p.k == |p.e.topic| + 1 then s.(p := p.(pc := PUT_OFFSET))
      else if p.k >= |Text(p.e)| then s.(p := p.(pc := PUT_INDEX))
      else if p.slot >= 2 || p.k >= Capacity(m) then s
      else s.(p := p.(k := p.k + 1), m := WriteByte(m, p.slot, p.k, Text(p.e)[p.k]))
    else if p.pc == PUT_OFFSET then
      if p.slot >= 2 || |p.e.topic| + 1 > Capacity(m) then s
      else s.(p := p.(pc := PUT_DATA), m := m.(offsets := m.offsets[p.slot := |p.e.topic| + 1]))
    else if p.pc == PUT_INDEX then
      if p.slot >= 2 then s else s.(p := p.(pc := PUT_READY), m := m.(idx := p.slot))
    else if p.pc == PUT_READY then
      s.(p := p.(pc := PUT_IDLE), m := m.(ready := true), accepted := s.accepted + [p.e])
    else s
  }

  function SeenIn(m: Mail, slot: nat): Seen
    requires slot < 2
  {
    Seen(m.cells[slot], m.offsets[slot])
  }

  /** The caller gives up the previous borrow when a take claims the next entry. */
  function TakeStep(s: Sys): Sys {
    var m, c := s.m, s.c;
    if c.pc == TAKE_CHECK then s.(c := c.(pc := if m.ready then TAKE_INDEX else TAKE_IDLE))
    else if c.pc == TAKE_INDEX then s.(c := c.(pc := TAKE_CLEAR, slot := m.idx))
    else if c.pc == TAKE_CLEAR then
      s.(c := c.(pc := TAKE_OFFSET), m := m.(ready := false), held := None, taken := s.taken + 1)
    else if c.pc == TAKE_OFFSET && c.slot < 2 then
      s.(c := c.(pc := TAKE_IDLE), held := Some(Borrow(c.slot, m.offsets[c.slot])),
         returned := s.returned + [SeenIn(m, c.slot)])
    else s
  }

  /** One step of the schedule; a choice that is not enabled changes nothing. */
  function Step(s: Sys, choice: Choice): Sys {
    match choice
    case CallPut(e) =>
      if s.p.pc == PUT_IDLE then s.(p := s.p.(pc := PUT_CHECK, e := e), puts := s.puts + 1) else s
    case RunPut => PutStep(s)
    case CallTake => if s.c.pc == TAKE_IDLE then s.(c := s.c.(pc := TAKE_CHECK)) else s
    case RunTake => TakeStep(s)
  }

  function Steps(s: Sys, schedule: seq<Choice>): Sys {
    if schedule == [] then s
    else Step(Steps(s, schedule[..|schedule| - 1]), schedule[|schedule| - 1])
  }

  /** An empty mailbox. */
  function Init(m: Mail): Sys {
    Sys(m.(ready := false, drops := 0), Producer(PUT_IDLE, Entry("", ""), 0, 0), Consumer(TAKE_IDLE, 0),
        None, [], 0, [], 0)
  }

  // ---- the invariant ----

  /** The bytes are those of the whole entry, both terminators included, and the offset is its payload's. */
  predicate Shows(seen: Seen, e: Entry) {
    && |Text(e)| <= |seen.bytes| && seen.bytes[..|Text(e)|] == Text(e)
    && seen.offset == |e.topic| + 1
  }

  predicate SlotHolds(m: Mail, slot: nat, e: Entry) {
    slot < 2 && Shows(SeenIn(m, slot), e)
  }

  /** How far the producer has got with the slot it chose. */
  predicate Producing(m: Mail, p: Producer) {
    && (PUT_CHOOSE <= p.pc ==> !m.ready && |Text(p.e)| <= Capacity(m))
    && (PUT_TOPIC <= p.pc <= PUT_INDEX ==> p.slot == 1 - m.idx)
    && (p.pc == PUT_READY ==> p.slot == m.idx)
    && (PUT_TOPIC <= p.pc ==>
          && p.k <= |Text(p.e)| && m.cells[p.slot][..p.k] == Text(p.e)[..p.k]
          && (p.pc <= PUT_OFFSET ==> p.k <= |p.e.topic| + 1)
          && (p.pc >= PUT_DATA ==> m.offsets[p.slot] == |p.e.topic| + 1)
          && (p.pc >= PUT_INDEX ==> p.k == |Text(p.e)|))
  }

  /** The entry made ready and not yet taken is in the slot the index names. */
  predicate Pending(s: Sys) {
    && (PUT_IDLE < s.p.pc ==> s.puts > 0)
    && s.puts == |s.accepted| + s.m.drops + (if s.p.pc == PUT_IDLE then 0 else 1)
    && if s.m.ready then
         |s.accepted| == s.taken + 1 && SlotHolds(s.m, s.m.idx, s.accepted[s.taken])
       else |s.accepted| == s.taken
  }

  predicate Consuming(s: Sys) {
    && (TAKE_INDEX <= s.c.pc <= TAKE_CLEAR ==> s.m.ready)
    && (s.c.pc == TAKE_CLEAR ==> s.c.slot == s.m.idx)
    && (s.c.pc == TAKE_OFFSET ==> s.c.slot < 2 && s.held.None?)
    && (s.held.Some? ==> s.held.value.slot < 2)
  }

  /** A borrowed slot holds the last entry taken, and the producer is not writing it. */
  predicate Lent(s: Sys, slot: nat) {
    && 0 < s.taken <= |s.accepted| && SlotHolds(s.m, slot, s.accepted[s.taken - 1])
    && (s.m.idx == slot || (s.m.idx == 1 - slot && (s.m.ready || s.p.pc == PUT_READY)))
  }

  /** Both slots the consumer side may be reading are lent to it, and the pointers it holds are right. */
  predicate Lending(s: Sys) {
    && (s.c.pc == TAKE_OFFSET ==> Lent(s, s.c.slot))
    && (s.held.Some? ==> Lent(s, s.held.value.slot))
    && (s.held.Some? ==> s.held.value.offset == s.m.offsets[s.held.value.slot])
  }

  /** What has been returned are the accepted entries, in order. */
  predicate Ordered(s: Sys) {
    && s.taken == |s.returned| + (if s.c.pc == TAKE_OFFSET then 1 else 0) <= |s.accepted|
    && forall i | 0 <= i < |s.returned| :: Shows(s.returned[i], s.accepted[i])
  }

  predicate Inv(s: Sys) {
    Producing(s.m, s.p) && Pending(s) && Consuming(s) && Lending(s) && Ordered(s)
  }

  /** The producer never writes a lent slot. */
  lemma PutSparesLent(s: Sys, slot: nat)
    requires slot < 2 && Producing(s.m, s.p) && Pending(s) && Lent(s, slot)
    ensures Lent(PutStep(s), slot)
    ensures PutStep(s).m.cells[slot] == s.m.cells[slot] && PutStep(s).m.offsets[slot] == s.m.offsets[slot]
  {
  }

  lemma PutKeepsProducing(s: Sys)
    requires Producing(s.m, s.p)
    ensures Producing(PutStep(s).m, PutStep(s).p)
  {
  }

  lemma PutKeepsPending(s: Sys)
    requires Producing(s.m, s.p) && Pending(s) && Consuming(s)
    ensures Pending(PutStep(s)) && Consuming(PutStep(s))
  {
  }

  lemma PutKeepsLending(s: Sys)
    requires Producing(s.m, s.p) && Pending(s) && Consuming(s) && Lending(s)
    ensures Lending(PutStep(s))
  {
    hide Producing, Pending, Lent, PutStep;
    PutTouches(s);
    if s.c.pc == TAKE_OFFSET {
      PutSparesLent(s, s.c.slot);
    }
    if s.held.Some? {
      PutSparesLent(s, s.held.value.slot);
    }
  }

  lemma PutKeepsOrdered(s: Sys)
    requires Ordered(s)
    ensures Ordered(PutStep(s))
  {
    hide Shows;
    assert PutStep(s).accepted == s.accepted || PutStep(s).accepted == s.accepted + [s.p.e];
  }

  /** A producer step leaves the consumer's side alone. */
  lemma PutTouches(s: Sys)
    ensures var s' := PutStep(s);
            s'.c == s.c && s'.held == s.held && s'.taken == s.taken && s'.returned == s.returned
  {
  }

  lemma PutKeepsInv(s: Sys)
    requires Inv(s)
    ensures Inv(PutStep(s))
  {
    hide Producing, Pending, Consuming, Lending, Ordered, PutStep;
    PutKeepsProducing(s);
    PutKeepsPending(s);
    PutKeepsLending(s);
    PutKeepsOrdered(s);
  }

  lemma TakeKeepsOrdered(s: Sys)
    requires Pending(s) && Consuming(s) && Lending(s) && Ordered(s)
    ensures Ordered(TakeStep(s))
  {
    hide Producing;
  }

  lemma TakeKeepsLending(s: Sys)
    requires Pending(s) && Consuming(s) && Lending(s)
    ensures Lending(TakeStep(s))
  {
    hide Producing, Shows;
  }

  lemma TakeKeepsInv(s: Sys)
    requires Inv(s)
    ensures Inv(TakeStep(s))
  {
    TakeKeepsOrdered(s);
    TakeKeepsLending(s);
    hide Shows, Lending, Ordered;
  }

  lemma StepKeepsInv(s: Sys, choice: Choice)
    requires Inv(s)
    ensures Inv(Step(s, choice))
  {
    match choice
    case CallPut(e) => hide Shows;
    case RunPut => PutKeepsInv(s);
    case CallTake => hide Shows;
    case RunTake => TakeKeepsInv(s);
  }

  /** The invariant holds after every schedule, whatever the slots contained at the start. */
  lemma {:induction false} Reachable(m: Mail, schedule: seq<Choice>)
    ensures Inv(Steps(Init(m), schedule))
  {
    if schedule != [] {
      Reachable(m, schedule[..|schedule| - 1]);
      StepKeepsInv(Steps(Init(m), schedule[..|schedule| - 1]), schedule[|schedule| - 1]);
    }
  }

  // ---- what the callers may rely on ----

  /** A text without NUL is read back exactly through the two pointers. */
  lemma ReadsBack(m: Mail, b: Borrow, e: Entry)
    requires b.slot < 2 && b.offset == m.offsets[b.slot] && SlotHolds(m, b.slot, e)
    requires NulFree(e.topic) && NulFree(e.payload)
    ensures b.offset <= Capacity(m) && ReadBorrow(m, b) == (e.topic, e.payload)
  {
    var cell, n := m.cells[b.slot], |Text(e)|;
    var rest := cell[n..];
    assert cell == cell[..n] + rest;
    assert cell == e.topic + [NUL] + (e.payload + [NUL] + rest);
    CStrOfTerminated(e.topic, e.payload + [NUL] + rest);
    assert cell[b.offset..] == e.payload + [NUL] + rest;
    CStrOfTerminated(e.payload, rest);
  }

  /**
   * Mailbox refinement: over any run, the takes have returned the accepted entries in order, whole,
   * at most one accepted entry is waiting, and every put was accepted, counted as a drop, or is the
   * one still running.
   */
  lemma MailboxIsFifo(m: Mail, schedule: seq<Choice>)
    ensures var s := Steps(Init(m), schedule);
            && |s.returned| <= |s.accepted|
            && (forall i | 0 <= i < |s.returned| :: Shows(s.returned[i], s.accepted[i]))
            && |s.accepted| == |s.returned| + (if s.c.pc == TAKE_OFFSET then 1 else 0) + (if s.m.ready then 1 else 0)
            && s.puts == |s.accepted| + s.m.drops + (if s.p.pc == PUT_IDLE then 0 else 1)
  {
    Reachable(m, schedule);
    hide Steps, Shows;
  }

  /** One step that claims no entry leaves the bytes behind the held pointers alone. */
  lemma StepSparesHeld(s: Sys, choice: Choice)
    requires Inv(s) && s.held.Some? && Step(s, choice).taken == s.taken
    ensures var s', b := Step(s, choice), s.held.value;
            && s'.held == s.held && b.slot < 2
            && s'.m.cells[b.slot] == s.m.cells[b.slot] && s'.m.offsets[b.slot] == s.m.offsets[b.slot]
  {
    if choice.RunPut? {
      PutSparesLent(s, s.held.value.slot);
    }
    hide Shows, Ordered, Producing;
  }

  lemma TakenGrows(s: Sys, schedule: seq<Choice>)
    ensures s.taken <= Steps(s, schedule).taken
  {
    if schedule != [] {
      TakenGrows(s, schedule[..|schedule| - 1]);
    }
  }

  lemma {:induction false} HeldSpared(s: Sys, more: seq<Choice>)
    requires Inv(s) && s.held.Some? && Steps(s, more).taken == s.taken
    ensures var s', b := Steps(s, more), s.held.value;
            && Inv(s') && s'.held == s.held && b.slot < 2
            && s'.m.cells[b.slot] == s.m.cells[b.slot] && s'.m.offsets[b.slot] == s.m.offsets[b.slot]
  {
    if more == [] {
      hide Shows;
    } else {
      var before := more[..|more| - 1];
      TakenGrows(s, before);
      var t, last := Steps(s, before), more[|more| - 1];
      assert Steps(s, more) == Step(t, last);
      assert t.taken == s.taken by {
        hide Steps, Inv;
      }
      HeldSpared(s, before);
      StepKeepsInv(t, last);
      StepSparesHeld(t, last);
    }
  }

  lemma StepsConcat(s: Sys, a: seq<Choice>, b: seq<Choice>)
    ensures Steps(s, a + b) == Steps(Steps(s, a), b)
  {
    if b == [] {
      assert a + b == a;
    } else {
      assert (a + b)[..|a + b| - 1] == a + b[..|b| - 1];
      StepsConcat(s, a, b[..|b| - 1]);
    }
  }

  /**
   * Borrow safety: after any run in which a take has returned a pair of pointers, the slot behind
   * them holds the whole entry that take claimed, and it keeps every byte of it through any further
   * run, with any number of puts in it, until another take claims an entry.
   */
  lemma BorrowSafe(m: Mail, schedule: seq<Choice>, more: seq<Choice>)
    requires Steps(Init(m), schedule).held.Some?
    requires Steps(Init(m), schedule + more).taken == Steps(Init(m), schedule).taken
    ensures var s, s' := Steps(Init(m), schedule), Steps(Init(m), schedule + more);
            var b := s.held.value;
            && s'.held == s.held && b.slot < 2 && 0 < s.taken <= |s.accepted|
            && s'.m.cells[b.slot] == s.m.cells[b.slot] && s'.m.offsets[b.slot] == s.m.offsets[b.slot] == b.offset
            && SlotHolds(s.m, b.slot, s.accepted[s.taken - 1])
  {
    Reachable(m, schedule);
    StepsConcat(Init(m), schedule, more);
    HeldSpared(Steps(Init(m), schedule), more);
    hide Shows, Steps;
  }

  /** So the caller reads the entry's own topic and payload for as long as it holds the pointers. */
  lemma BorrowReads(m: Mail, schedule: seq<Choice>)
    requires Steps(Init(m), schedule).held.Some?
    ensures var s := Steps(Init(m), schedule);
            && 0 < s.taken <= |s.accepted| && s.held.value.slot < 2 && s.held.value.offset <= Capacity(s.m)
            && var e := s.accepted[s.taken - 1];
               (NulFree(e.topic) && NulFree(e.payload) ==> ReadBorrow(s.m, s.held.value) == (e.topic, e.payload))
  {
    hide Steps, SlotHolds, ReadBorrow, Init;
    assert schedule + [] == schedule;
    BorrowSafe(m, schedule, []);
    var s := Steps(Init(m), schedule);
    var e := s.accepted[s.taken - 1];
    if NulFree(e.topic) && NulFree(e.payload) {
      ReadsBack(s.m, s.held.value, e);
    }
  }

  // ---- the whole operations are uninterrupted runs ----

  function RunPuts(s: Sys, n: nat): Sys {
    if n == 0 then s else PutStep(RunPuts(s, n - 1))
  }

  /** The steps of one put: the check and the choice, a step a byte, and four more. */
  function PutLength(m: Mail, e: Entry): nat {
    if Accepts(m, |e.topic|, |e.payload|) then |Text(e)| + 7 else 1
  }

  lemma OverwriteOneMore(cell: string, t: string, k: nat)
    requires k < |t| <= |cell|
    ensures Overwrite(cell, 0, t[..k])[k := t[k]] == Overwrite(cell, 0, t[..k + 1])
  {
    assert t[..k + 1] == t[..k] + [t[k]];
  }

  /** One byte copied into the chosen slot, in either part. */
  lemma CopyOne(s: Sys, original: string)
    requires s.p.slot < 2 && s.p.k < |Text(s.p.e)| <= Capacity(s.m) && |original| == Capacity(s.m)
    requires s.p.pc == PUT_DATA || (s.p.pc == PUT_TOPIC && s.p.k <= |s.p.e.topic|)
    requires s.m.cells[s.p.slot] == Overwrite(original, 0, Text(s.p.e)[..s.p.k])
    ensures PutStep(s) == s.(p := s.p.(k := s.p.k + 1),
              m := s.m.(cells := s.m.cells[s.p.slot := Overwrite(original, 0, Text(s.p.e)[..s.p.k + 1])]))
  {
    OverwriteOneMore(original, Text(s.p.e), s.p.k);
    hide Overwrite, Text;
  }

  lemma RunPutsNext(s: Sys, n: nat)
    ensures RunPuts(s, n + 1) == PutStep(RunPuts(s, n))
  {
  }

  /** A put under way: `k` bytes of the entry are in the slot, and the offset once `stored`. */
  function Copying(s: Sys, e: Entry, k: nat, stored: bool): Sys
    requires Accepts(s.m, |e.topic|, |e.payload|) && k <= |Text(e)|
  {
    var slot := 1 - s.m.idx;
    s.(puts := s.puts + 1, p := Producer(if stored then PUT_DATA else PUT_TOPIC, e, slot, k),
       m := s.m.(cells := s.m.cells[slot := Overwrite(s.m.cells[slot], 0, Text(e)[..k])],
                 offsets := if stored then s.m.offsets[slot := |e.topic| + 1] else s.m.offsets))
  }

  lemma CopyingBegins(s: Sys, e: Entry)
    requires s.p.pc == PUT_IDLE && Accepts(s.m, |e.topic|, |e.payload|)
    ensures PutStep(PutStep(Step(s, CallPut(e)))) == Copying(s, e, 0, false)
  {
    var slot := 1 - s.m.idx;
    assert Overwrite(s.m.cells[slot], 0, Text(e)[..0]) == s.m.cells[slot];
  }

  lemma CopyingStep(s: Sys, e: Entry, k: nat, stored: bool)
    requires Accepts(s.m, |e.topic|, |e.payload|) && k < |Text(e)| && (stored || k <= |e.topic|)
    ensures PutStep(Copying(s, e, k, stored)) == Copying(s, e, k + 1, stored)
  {
    CopyOne(Copying(s, e, k, stored), s.m.cells[1 - s.m.idx]);
    hide PutStep, Overwrite;
  }

  lemma CopyingStoresOffset(s: Sys, e: Entry)
    requires Accepts(s.m, |e.topic|, |e.payload|)
    ensures PutStep(PutStep(Copying(s, e, |e.topic| + 1, false))) == Copying(s, e, |e.topic| + 1, true)
  {
    hide Overwrite;
  }

  /** The state after `k` bytes of the topic part have been copied. */
  lemma {:induction false} CopiesTopic(s: Sys, e: Entry, k: nat)
    requires s.p.pc == PUT_IDLE && Accepts(s.m, |e.topic|, |e.payload|) && k <= |e.topic| + 1
    ensures RunPuts(Step(s, CallPut(e)), 2 + k) == Copying(s, e, k, false)
  {
    var start := Step(s, CallPut(e));
    if k == 0 {
      CopyingBegins(s, e);
      hide PutStep, Copying;
      RunPutsNext(start, 0);
      RunPutsNext(start, 1);
    } else {
      CopiesTopic(s, e, k - 1);
      RunPutsNext(start, 1 + k);
      CopyingStep(s, e, k - 1, false);
      hide *;
    }
  }

  /** The state after the offset has been stored and `k` bytes of the entry have been copied. */
  lemma {:induction false} CopiesPayload(s: Sys, e: Entry, k: nat)
    requires s.p.pc == PUT_IDLE && Accepts(s.m, |e.topic|, |e.payload|) && |e.topic| + 1 <= k <= |Text(e)|
    ensures RunPuts(Step(s, CallPut(e)), 4 + k) == Copying(s, e, k, true)
  {
    var start := Step(s, CallPut(e));
    if k == |e.topic| + 1 {
      CopiesTopic(s, e, k);
      CopyingStoresOffset(s, e);
      RunPutsNext(start, 2 + k);
      RunPutsNext(start, 3 + k);
    } else {
      CopiesPayload(s, e, k - 1);
      RunPutsNext(start, 3 + k);
      CopyingStep(s, e, k - 1, true);
    }
    hide *;
  }

  /** The stores behind the last byte: the index, then the flag. */
  lemma PutFinishes(s: Sys)
    requires s.p.pc == PUT_DATA && s.p.k >= |Text(s.p.e)| && s.p.slot < 2
    ensures var s' := PutStep(PutStep(PutStep(s)));
            s'.m == s.m.(idx := s.p.slot, ready := true) && s'.p.pc == PUT_IDLE
  {
  }

  lemma PutIsCopying(s: Sys, e: Entry)
    requires Accepts(s.m, |e.topic|, |e.payload|)
    ensures Put(s.m, e.topic, e.payload) == Copying(s, e, |Text(e)|, true).m.(idx := 1 - s.m.idx, ready := true)
  {
    assert Text(e)[..|Text(e)|] == Text(e);
    hide Overwrite;
  }

  lemma CopyingAt(s: Sys, e: Entry, k: nat)
    requires Accepts(s.m, |e.topic|, |e.payload|) && k <= |Text(e)|
    ensures Copying(s, e, k, true).p == Producer(PUT_DATA, e, 1 - s.m.idx, k)
  {
  }

  lemma PutLengthIs(m: Mail, e: Entry)
    requires Accepts(m, |e.topic|, |e.payload|)
    ensures PutLength(m, e) == |Text(e)| + 7
  {
  }

  lemma RunPutsThree(s: Sys, n: nat, c: Sys)
    requires RunPuts(s, n) == c
    ensures RunPuts(s, n + 3) == PutStep(PutStep(PutStep(c)))
  {
    hide *;
    RunPutsNext(s, n);
    RunPutsNext(s, n + 1);
    RunPutsNext(s, n + 2);
  }

  lemma TextSize(e: Entry)
    ensures |Text(e)| == |e.topic| + |e.payload| + 2
  {
  }

  lemma CopiesAll(s: Sys, e: Entry)
    requires s.p.pc == PUT_IDLE && Accepts(s.m, |e.topic|, |e.payload|)
    ensures RunPuts(Step(s, CallPut(e)), 4 + |Text(e)|) == Copying(s, e, |Text(e)|, true)
  {
    hide *;
    TextSize(e);
    CopiesPayload(s, e, |Text(e)|);
  }

  lemma CopyingFinishes(s: Sys, e: Entry)
    requires Accepts(s.m, |e.topic|, |e.payload|)
    ensures var s' := PutStep(PutStep(PutStep(Copying(s, e, |Text(e)|, true))));
            s'.m == Put(s.m, e.topic, e.payload) && s'.p.pc == PUT_IDLE
  {
    hide *;
    CopyingAt(s, e, |Text(e)|);
    PutFinishes(Copying(s, e, |Text(e)|, true));
    PutIsCopying(s, e);
  }

  lemma PutCompletes(s: Sys, e: Entry)
    requires s.p.pc == PUT_IDLE && Accepts(s.m, |e.topic|, |e.payload|)
    ensures var s' := RunPuts(Step(s, CallPut(e)), PutLength(s.m, e));
            s'.m == Put(s.m, e.topic, e.payload) && s'.p.pc == PUT_IDLE
  {
    hide *;
    CopiesAll(s, e);
    RunPutsThree(Step(s, CallPut(e)), 4 + |Text(e)|, Copying(s, e, |Text(e)|, true));
    CopyingFinishes(s, e);
    PutLengthIs(s.m, e);
  }

  /** A put that runs without interruption is lmqtt_downlink_put as a whole. */
  lemma PutUninterrupted(s: Sys, e: Entry)
    requires s.p.pc == PUT_IDLE
    ensures var s' := RunPuts(Step(s, CallPut(e)), PutLength(s.m, e));
            s'.m == Put(s.m, e.topic, e.payload) && s'.p.pc == PUT_IDLE
  {
    if Accepts(s.m, |e.topic|, |e.payload|) {
      hide *;
      PutCompletes(s, e);
    } else {
      RunPutsNext(Step(s, CallPut(e)), 0);
    }
  }

  /** A take that runs without interruption is lmqtt_take_downlink_with_topic as a whole. */
  lemma TakeUninterrupted(s: Sys)
    requires s.c.pc == TAKE_IDLE
    ensures var s' := TakeStep(TakeStep(TakeStep(TakeStep(Step(s, CallTake)))));
            && s'.m == Take(s.m).0 && s'.c.pc == TAKE_IDLE
            && s'.held == (if s.m.ready then Take(s.m).1 else s.held)
  {
  }
}
