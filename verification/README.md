# A verified model of the lmqtt AT engine

lmqtt drives an MQTT modem over an AT command line. A receive task feeds bytes to the engine, which
cuts them into lines and dispatches each line: downlink messages go to a two-slot mailbox, result URCs
(`+LMQTTOPEN:`, `+LMQTTPUB:` ...) to the result slot of the command in flight, `OK` and `ERROR` to its
acknowledgement flags, and all other lines to the buffer of a RAW command. Command tasks share that
context with the receive task without a lock; they are kept apart only by the order of their stores, a
packed pairing word, a signature on the result slot, a write-complete fence and a binary semaphore.

The model has three layers.

* **Specification functions** (`LineSyntax`, `EngineState`, `Framing`): what a line says, what each
  whole operation does to the state, and what the framer makes of a byte stream. `LineEffects` and
  `FinishOutcomes` say what they amount to in literal texts, codes and limits.
* **The engine as a class** (`Engine`, `AtClient`, `Publish`): buffers, flags and counters updated in
  place by the loops of the C code, each method proved against a specification function.
* **Transition systems** for the lock-free parts, one shared load or store a step, over every schedule:
  `SplitDispatch`, `SplitClaims` and `SplitTimeouts` (both sides of the pairing protocol split), `SplitRaw`
  (the append of RAW capture split), `AtomicDispatch` (command side split, each line dispatch atomic), all
  for any number of command tasks, and `Mailbox` (producer and consumer split down to the copied byte).
  `WholeCommands` and the end of `Mailbox` prove that the steps put together are the whole operations of
  the first two layers.

A char stands for a byte. `LMQTT_LINE_MAX` and `LMQTT_DOWN_MAX` are both 512 or both 320 (`Config`).
Counters are mathematical integers, except the 16-bit line count of a RAW response. Single-word accesses
are sequentially consistent. What the port does during a command (how much each write accepts, which
bytes arrive while it writes and waits) is the parameter `Traffic`; the tick counts are not modelled, a
wait simply ends.

## What the proofs found

* **When a stale result can be claimed.** The code reasons that a delivery left over from an earlier
  command is harmless because the slot is reset before the new pairing word is published. With both
  sides preemptible the condition that matters is earlier than the publication at line 612: it is that
  no unsigned delivery holds the same word when `delivered` is cleared at line 595.
  `SplitClaims.StaleClaimIffHarmful` proves this an equivalence for every single command in every
  reachable state, whatever happened before: it can return LMQTT_OK without a result of its own if and
  only if an unsigned delivery does hold its word at that moment. `SplitDispatch.ClaimSafety` states the safety
  of whole schedules, `SplitDispatch.PublicationIsTooLate` that asking for the condition at the
  publication is not enough, and `SplitDispatch.FreshWordsAreClean` that callers who never reuse a word
  always meet it.
* **A timeout can leave a result visible.** `lmqtt/include/lmqtt_core.h` lines 289-298 say that the last
  result is -1 and the last extend 0 unless a result URC was delivered, so that a timeout cannot be
  mistaken for a result. There are two ways around it.
  * With a line dispatched in one step, a matching URC received between the deciding check and the end of
    the window is stored although the command returns a timeout: `AtomicDispatch.TimeoutLeavesResetValues`
    says when, and which values show; `AtomicDispatch.LateUrcHappens` is a run from the start.
  * With the receive task preemptible, values of an earlier command can show, of another kind even and with
    nothing received for the command that timed out: `SplitTimeouts.StaleTimeoutIffSpoiled` proves that
    this is possible exactly when, as the command starts its resets, the receive task is stalled in a
    delivery with other values that is past its check or will pass it. `SplitTimeouts.ResetValuesStay`
    adds that otherwise every value is the reset value or that of a result URC of the command's own
    window; `SplitTimeouts.StaleTimeoutHappens` is a run from the start, of an OPEN and a CLOSE.
* **A RAW line can be stored outside its window** if the receive task is preempted inside the append while
  the command returns. `SplitRaw.AppendStaysHome` and `SplitRaw.PatientIsNeverAbroad` prove that every byte
  stays in the running command's buffer and window as long as no command returns meanwhile;
  `SplitRaw.AbandonedGoesAbroad` that this is necessary: as soon as there is a buffer, from every reachable
  state in which a command returns inside an append, whether or not the line fits then, a store can follow
  while no window is open. It can go into the returned command's buffer (`SplitRaw.AbandonedAppendWrites`,
  and `SplitRaw.LateAppendHappens` from the start), or over the end of a shorter buffer that the next
  command has just stored while the length and size are still the old ones (`SplitRaw.AbandonedCanOverrun`,
  and `SplitRaw.OverrunHappens` from the start).
* **A quote in a topic makes a publish ambiguous.** `lmqtt_pub` does not refuse it.
  `Publish.PubRoundTrip` shows that the receiver recovers the message if and only if the topic has no
  quote; `Publish.QuotedTopicIsAmbiguous` gives the family of colliding messages, and
  `Publish.CollisionIsAccepted` a pair that `lmqtt_pub` sends.
* **`+CME ERROR` numbers** beyond six digits are cut to their first six: `ResultUrcs.CmeRoundTrip` is an
  equivalence.

## Model

| member | source | states |
|---|---|---|
| SplitClaims.StaleClaimIffHarmful | lmqtt/src/lmqtt_core.c:593-725 | both sides split, every reachable state: a command with a result URC can return LMQTT_OK with no delivery of its own if and only if the receive task holds an unsigned delivery with its word when it clears the signature |
| SplitClaims.OwnResetDecides | lmqtt/src/lmqtt_core.c:651-725 | if that step of the command is not harmful, then whatever the steps of other commands are, its LMQTT_OK returns values of deliveries that snapshotted its word after its publication, from lines of the matching kind and msgID |
| SplitDispatch.ClaimSafety | lmqtt/src/lmqtt_core.c:651-725 | the same for whole schedules, of any number of tasks: without harmful steps every command that returns LMQTT_OK with a result got each of its two values from a delivery of its own |
| SplitDispatch.SingleDeliverySameLine | lmqtt/src/lmqtt_core.c:281-325 | with one such delivery the result and the extend come from one and the same line |
| SplitDispatch.Reachable | lmqtt/src/lmqtt_core.c:315-325 | the inductive invariant of every schedule without a harmful step: the slot carries the running command's word only once both of its values were stored by that command's own deliveries |
| SplitDispatch.FreshWordsAreClean | lmqtt/include/lmqtt_subunsub.h:18 | callers that never reuse a (kind, msgid) pair never meet the harmful moment |
| SplitDispatch.HarmIsReal | lmqtt/src/lmqtt_core.c:590-612 | the condition is necessary: from every reachable harmful state the command can return LMQTT_OK although no delivery of its own was started |
| SplitDispatch.PublicationIsTooLate | lmqtt/src/lmqtt_core.c:608-612 | requiring the absence of a stalled delivery at the publication instead does not exclude the false claim |
| SplitDispatch.HarmIsReachable | lmqtt/src/lmqtt_core.c:732-757 | an OPEN whose write fails, its late URC and the next OPEN reach the harmful moment |
| AtomicDispatch.Reachable | lmqtt/src/lmqtt_core.c:578-725 | the inductive invariant of the window, the result slot, the fence, the wait and RAW capture holds after every schedule of any number of tasks and received lines |
| AtomicDispatch.WindowOwnership | lmqtt/src/lmqtt_core.c:578-646 | `busy` or a pairing word only while some task holds the mutex; finish reads back the word its own task published; begins equal aborts plus the running one |
| CommandSteps.StepKeepsWindow | lmqtt/src/lmqtt_core.c:656-725 | every statement of begin, send, finish and abort keeps the window's flags, word, stage and return code consistent with where the task is, on every path |
| AtomicDispatch.WriteFence | lmqtt/src/lmqtt_core.c:390-411 | a NONE or RAW command succeeds only if an OK was dispatched after its last byte was written, and no ERROR before the verdict |
| AtomicDispatch.FencedLinesIgnored | lmqtt/src/lmqtt_core.c:399-402 | an OK or ERROR between the opening of the window and the end of the write changes nothing |
| AtomicDispatch.NoTokenBeforeWritten | lmqtt/src/lmqtt_core.c:613-614 | the semaphore reset in begin erases every earlier token: a command without a result URC is sent tokenless |
| AtomicDispatch.NoFalseTimeout | lmqtt/src/lmqtt_core.c:675-719 | a matching URC dispatched between publication and the deciding check excludes a timeout, whatever happened to its token; readiness holds exactly when such a URC has come and stays for the window |
| AtomicDispatch.StageExactness | lmqtt/include/lmqtt_core.h:53-58 | timeout if and only if a stage is recorded; each stage says which OK and ERROR lines had and had not been dispatched before the take that failed, and that no matching URC had been dispatched before that take nor before the check after it |
| AtomicDispatch.RejectionIsReported | lmqtt/src/lmqtt_core.c:686-690 | over every schedule: when the write went through, an ERROR between the raising of `written` and the first take gives LMQTT_ERR_AT; LMQTT_ERR_IO is returned exactly if a piece was not written |
| AtomicDispatch.RejectionHasCause | lmqtt/src/lmqtt_core.c:686-690 | LMQTT_ERR_AT only for an ERROR dispatched after this command cleared the flag |
| AtomicDispatch.ReturnsLastMatch | lmqtt/src/lmqtt_core.c:715-719 | the values returned are those of the last matching URC at each of the two reads |
| AtomicDispatch.TimeoutLeavesResetValues | lmqtt/include/lmqtt_core.h:289-298 | with a line dispatched in one step: after a timeout a result is visible exactly if a matching URC came between the last check and the end of the window; it is the last such one, and otherwise -1 and 0 |
| AtomicDispatch.LateUrcShowsThrough | lmqtt/include/lmqtt_core.h:289-298 | from every reachable state about to record a timeout, a matching URC at that moment shows its values after the timeout |
| AtomicDispatch.LateUrcHappens | lmqtt/include/lmqtt_core.h:289-298 | such a run from the initial state: an unanswered OPEN that times out with last result 0 |
| SplitTimeouts.ResetValuesStay | lmqtt/src/lmqtt_core.c:593-599 | both sides split: a command that starts its resets with no stalled delivery of other values leaves the reset values or those of result URCs of its own window; with none dispatched, exactly -1 and 0 |
| SplitTimeouts.StaleTimeoutIffSpoiled | lmqtt/include/lmqtt_core.h:289-298 | the condition is exact: some continuation times out, with no result URC of its own, and shows other values if and only if such a delivery is stalled at the first reset store |
| SplitTimeouts.StaleTimeoutHappens | lmqtt/src/lmqtt_core.c:315-325 | a run from the initial state: a CLOSE times out and shows the result of the OPEN before it, although the words differ and nothing was dispatched for it |
| AtomicDispatch.RawCaptureExact | lmqtt/src/lmqtt_core.c:338-351 | under every interleaving a returning RAW command has exactly the lines that fit, of the ordinary lines dispatched while its word was published, the rest of its buffer untouched, and a line count exact up to 16 bits |
| AtomicDispatch.RawDestinationSafe | lmqtt/src/lmqtt_core.c:601-606 | a received line writes only the buffer of the open RAW window, only between the captured length and the given size |
| SplitRaw.AppendStaysHome | lmqtt/src/lmqtt_core.c:338-351 | with the append split: while no command returns in the middle of one, every byte stored lies in the buffer of the RAW command holding the lock, behind what is captured and below the given size |
| SplitRaw.PatientIsNeverAbroad | lmqtt/src/lmqtt_core.c:338-351 | under the same condition no store is ever made while nobody runs or a command is only beginning |
| SplitRaw.AbandonedGoesAbroad | lmqtt/src/lmqtt_core.c:601-606 | the condition is necessary as soon as there is a buffer: from every reachable state in which a command returns inside an append, at its check or past it, some continuation stores while no RAW window is open |
| SplitRaw.AbandonedCanOverrun | lmqtt/src/lmqtt_core.c:338-351 | and if some buffer is too short for the next store of that append, some continuation stores over its end |
| SplitRaw.OverrunHappens | lmqtt/src/lmqtt_core.c:603-604 | a run from the initial state that stores over the end of the next command's shorter buffer |
| SplitRaw.AbandonedAppendWrites | lmqtt/src/lmqtt_core.c:461-464 | when such an append is past its check, or its line fits at the return, its next store, of the line or of the terminator, lands in the buffer of the command that has returned |
| SplitRaw.LateAppendHappens | lmqtt/src/lmqtt_core.c:628-646 | a run from the initial state in which a RAW command times out and its buffer changes afterwards |
| WholeCommands.BeginUninterrupted | lmqtt/src/lmqtt_core.c:578-616 | the fifteen single stores of begin, run alone, are the whole operation |
| FinishOutcomes.FinishByLines | lmqtt/src/lmqtt_core.c:656-725 | for any bytes in the two waits: return code, stage, values and closed window, told only by the terminators and matching URCs among the lines of each wait |
| FinishOutcomes.ShortWriteGivesUp | lmqtt/src/lmqtt_core.c:747-754 | a command with a short write returns LMQTT_ERR_IO with the window closed, the word cleared and no output; otherwise only the arrivals count |
| FinishOutcomes.WholeWriteFinishes | lmqtt/src/lmqtt_core.c:747-756 | with every write whole the command returns what finish returns |
| FinishOutcomes.SentUpTo | lmqtt/src/lmqtt_core.c:15-25 | up to the first short write the line carries the whole pieces before it and the accepted part of that one |
| FinishOutcomes.ExecPutsLine | lmqtt/src/lmqtt_core.c:747-750 | a command that is written puts its text and CR LF on the line |
| WholeCommands.FinishUninterrupted | lmqtt/src/lmqtt_core.c:656-725 | the single steps of finish and abort, with any bytes received before each of the two takes, end in the engine state, return code and outputs of the whole operation |
| WholeCommands.ArrivalIsDispatches | lmqtt/src/lmqtt_core.c:522-556 | bytes that arrive act on the command context as the dispatches of the complete lines in them, in order |
| SplitDispatch.RxUninterrupted | lmqtt/src/lmqtt_core.c:308-325 | the single steps of the receive task, run alone, are the dispatch of the line as far as the command context goes |
| SplitRaw.AppendUninterrupted | lmqtt/src/lmqtt_core.c:338-351 | the steps of an append, run alone, are the whole append |
| Mailbox.Reachable | lmqtt/src/lmqtt_core.c:52-99 | the inductive invariant of the mailbox with both sides split, from any slot contents |
| Mailbox.BorrowSafe | lmqtt/src/lmqtt_core.c:81-99 | the slot behind returned pointers holds one whole entry and keeps every byte of it, through any number of puts, until another take claims an entry |
| Mailbox.BorrowReads | lmqtt/src/lmqtt_core.c:81-99 | what the caller reads through the two pointers is the claimed entry's topic and payload |
| Mailbox.MailboxIsFifo | lmqtt/src/lmqtt_core.c:52-99 | takes return the accepted puts in order and whole; accepted = taken + one if ready; puts = accepted + drops + the one running |
| Mailbox.PutUninterrupted | lmqtt/src/lmqtt_core.c:52-74 | the single steps of a put, a byte a step, run alone are the whole put |
| Mailbox.TakeUninterrupted | lmqtt/src/lmqtt_core.c:81-99 | the steps of a take run alone are the whole take |
| Framing.SplitJoin | lmqtt/src/lmqtt_core.c:522-556 | cutting at every LF loses nothing: segments and tail give the stream back |
| Framing.FramerRefines | lmqtt/src/lmqtt_core.c:522-556 | the buffered framer equals the description: cut at LF, delete CR, skip empty, drop overlong whole, keep the tail |
| Framing.CleanDeletesCr | lmqtt/src/lmqtt_core.c:547 | a CR anywhere in a line leaves no trace |
| Framing.ChunkingIsInvisible | lmqtt/src/lmqtt_core.c:522-556 | any split of the stream into feeds gives the same lines and state |
| Framing.LfResetsFramer | lmqtt/src/lmqtt_core.c:545-546 | after an LF the framer does not depend on anything before it |
| Framing.BufferInBounds | lmqtt/src/lmqtt_core.c:541-550 | the line index stays below LINE_MAX, terminator included |
| LineEffects.DownlinkDelivered | lmqtt/src/lmqtt_core.c:172-237 | the downlink round trip for the line spelled out, in any chunks: topic and payload come out of take, the payload bare or in one quote pair |
| LineEffects.AnnouncementIgnored | lmqtt/src/lmqtt_core.c:182-191 | a RECV line that ends behind its msgID changes nothing |
| LineEffects.EmptyMessageIgnored | lmqtt/src/lmqtt_core.c:194-232 | an empty topic, or a topic with no payload behind it, changes nothing and is no drop |
| LineEffects.MailboxAccepts | lmqtt/src/lmqtt_core.c:52-74 | a put is accepted exactly if the mailbox is free, the topic has at most 256 bytes and both texts fit a slot of 512 or 320 bytes with their terminators; otherwise only the drops go up |
| Downlink.DownlinkRoundTrip | lmqtt/src/lmqtt_core.c:172-237 | any chunking of a RECV line and CRLF on an empty mailbox: take returns exactly the topic and payload, bare or within one quote pair |
| Downlink.BarePayloadExact | lmqtt/src/lmqtt_core.c:212-235 | an unquoted payload is delivered unchanged if and only if it has no leading space and no enclosing quote pair |
| Downlink.DropReasons | lmqtt/src/lmqtt_core.c:57-64 | for lines the framer lets through, in both configurations, only a busy mailbox or a topic over 256 bytes drops a downlink |
| Downlink.TakeAfterPut | lmqtt/src/lmqtt_core.c:66-98 | an accepted put is what the next take hands out |
| LineEffects.ResultUrcAnswers | lmqtt/src/lmqtt_core.c:263-331 | each of the seven spellings, written out with its kind and msgID flag: in a window of that kind and msgID the printed line stores and signs its values and wakes the command; another msgID is stale; another kind changes nothing |
| LineEffects.ShortUrcAnswers | lmqtt/src/lmqtt_core.c:263-331 | the same without an extend, which counts as 0 |
| LineEffects.UrcWithoutResult | lmqtt/src/lmqtt_core.c:297-313 | a row that ends before its result is consumed and changes nothing |
| LineEffects.UnmatchedEffect | lmqtt/src/lmqtt_core.c:373-381 | any other +LMQTT line only adds one to unmatched_urcs |
| ResultUrcs.ResultUrcRoundTrip | lmqtt/src/lmqtt_core.c:263-331 | every printed row leaves exactly its values in the slot, signed with the window's word; another msgID only counts as stale; another kind changes nothing |
| ResultUrcs.FindOwnRow | lmqtt/src/lmqtt_core.c:286-293 | the table search finds the row a line was printed from, both unsubscribe spellings included |
| ResultUrcs.StatsRoundTrip | lmqtt/src/lmqtt_core.c:153-161 | a printed STATS line, with or without extend, sets the connected flag exactly for status 0 and touches nothing else |
| ResultUrcs.StatsWithoutStatus | lmqtt/src/lmqtt_core.c:242-252 | a STATS line that ends before its status changes nothing |
| ResultUrcs.CmeRoundTrip | lmqtt/src/lmqtt_core.c:416-425 | the printed error number is stored exactly when it has at most six digits |
| ResultUrcs.CmeCodeBounded | lmqtt/src/lmqtt_core.c:418-421 | the accumulator stays within 0..999999 after any number of digits of any line |
| PairingWord.PackUnpack | lmqtt/include/lmqtt_core.h:130-133 | kind and msgID are read back from the packed word |
| PairingWord.PackInjective | lmqtt/include/lmqtt_core.h:130-133 | different (kind, msgid) pairs have different words |
| PairingWord.BitsAgree | lmqtt/include/lmqtt_core.h:130-133 | the shifts and masks of the macros compute the same word, kind and msgID |
| LineEffects.BranchByText | lmqtt/src/lmqtt_core.c:356-466 | which lines are acceptances, errors, +LMQTT lines and ordinary, by the literal beginnings of their C strings |
| LineEffects.OkEffect | lmqtt/src/lmqtt_core.c:390-411 | what an OK leaves in the whole engine in each of its four cases: fenced, stray, first, further |
| LineEffects.ErrorEffect | lmqtt/src/lmqtt_core.c:413-440 | a line that begins with ERROR rejects and wakes the command outside the fence, is counted by its case, and no number is recorded |
| LineEffects.CmeWithoutNumber | lmqtt/src/lmqtt_core.c:416-425 | a +CME ERROR without a number is counted and keeps the last code |
| LineEffects.OrdinaryEffect | lmqtt/src/lmqtt_core.c:442-464 | what any other line leaves in the whole engine: one in rx_other, power-down and boot banners told by their text, and an append in a RAW window only |
| LineEffects.CsqIsOrdinary | lmqtt/src/lmqtt_core.c:442-464 | a signal quality response is ordinary, whatever follows |
| LineEffects.LongestLine | lmqtt/src/lmqtt_core.c:545-550 | a line of up to 511 or 319 bytes is dispatched, a longer one only counted |
| LineSyntax.OnlyOkIsOk | lmqtt/src/lmqtt_core.c:390 | nothing but the exact two bytes is an acceptance |
| Conservation.LineBySort | lmqtt/src/lmqtt_core.c:356-466 | of the four sorts of lines only OK and ERROR touch the acknowledgement flags and only outside the fence, each is counted exactly when it is not the first its window accepts, and exactly the ordinary ones are added to rx_other |
| RawCapture.GreedySnoc | lmqtt/src/lmqtt_core.c:338-344 | a line is kept exactly if it and its terminator still fit, a line that fills the buffer included |
| RawCapture.AppendHolds | lmqtt/src/lmqtt_core.c:338-351 | one append keeps the buffer equal to the lines that fit; a line that does not fit changes nothing |
| RawCapture.RawExecCaptures | lmqtt/src/lmqtt_core.c:759-796 | over a whole RAW command, from received bytes: the buffer is the greedy choice, by fit, of the ordinary lines |
| RawCapture.LineCountDoesNotWrap | lmqtt/src/lmqtt_core.c:350 | the 16-bit line count is the true count below 128 KiB |
| AtClient.RawRoundTrip | at/src/at_client.c:142-196 | after a RAW command every stored line is found by its number, and the keyword search finds the first stored line the keyword is a part of |
| AtClient.Response.GetLine | at/src/at_client.c:142-166 | the start of the string of that number, NULL exactly outside 1..line_counts |
| AtClient.Response.GetLineByKw | at/src/at_client.c:177-196 | the start of the first string of which the keyword is a part, anywhere in it, and NULL exactly if it is a part of none |
| AtClient.StartInLayout | at/src/at_client.c:155-163 | in a buffer of stored lines the walk over k strings ends where line k was stored |
| AtClient.FirstWithInLayout | at/src/at_client.c:185-193 | the keyword walk finds the first stored line with the keyword |
| AtClient.ExecCmd | at/src/at_client.c:279-318 | the error returns leave engine and response alone; otherwise the response object holds what the RAW command captured |
| Publish.EncodeLiteral | lmqtt/src/lmqtt_pub.c:34-51 | the bytes of a publish as they stand on the line: the order of the fields, the quotes and the line end |
| Publish.EncodeExample | lmqtt/tests/test_cmd.c:204-214 | one publish with its bytes written out |
| Publish.PubRoundTrip | lmqtt/src/lmqtt_pub.c:32-52 | a decoder that trusts the length recovers the message from any stream if and only if the topic has no quote |
| Publish.PubInjective | lmqtt/src/lmqtt_pub.c:32-52 | two quote-free publishes never look the same, even as prefixes of a stream |
| Publish.QuotedTopicIsAmbiguous | lmqtt/src/lmqtt_pub.c:34-36 | with quotes in the topic two different messages are the same bytes |
| Publish.AcceptedQuotesCollide | lmqtt/src/lmqtt_pub.c:18-39 | whenever the longer topic is within its limit, both colliding messages pass the argument checks |
| Publish.CollisionIsAccepted | lmqtt/src/lmqtt_pub.c:18-39 | two calls that are both accepted, with different messages and the same bytes |
| Publish.HeadFits | lmqtt/src/lmqtt_pub.c:34-39 | the head overflow branch is unreachable in both line sizes |
| Publish.CheckArgsExact | lmqtt/src/lmqtt_pub.c:18-39 | in both configurations each argument error returns its own code exactly for its arguments, and all other calls are accepted |
| Publish.SentIsEncoded | lmqtt/src/lmqtt_pub.c:46-52 | when every write goes through the bytes on the line are head, payload, quote, CRLF |
| Publish.PubClaims | lmqtt/src/lmqtt_pub.c:58-69 | a publish whose finish succeeds has a result to judge |
| Publish.Pub | lmqtt/src/lmqtt_pub.c:10-80 | argument errors touch nothing; otherwise one transaction with the lock released on every path; its error is passed on, result 0 or 1 succeeds, any other result is LMQTT_ERR_RESULT, and bad_pub_acks goes up exactly for result 1; the encoded message is on the line unless a write fell short |
| Conservation.AcksConserved | lmqtt/src/lmqtt_core.c:390-440 | over every run: OK lines = early + stray + extra + windows that accepted one, likewise ERROR; ordinary lines = rx_other; overlong lines = line_drops |
| Conservation.LfsConserved | lmqtt/src/lmqtt_core.c:533-546 | over every run, LF bytes = empty lines + +LMQTT lines + accepted terminators + what line_drops, rx_other and the early, stray and extra counters have gone up by |
| Conservation.CommandIsRun | lmqtt/src/lmqtt_core.c:732-757 | every whole command, however it ends, is one of those runs |
| Engine.Engine.constructor | lmqtt/src/lmqtt_core.c:471-500 | the state after init: closed window, empty framer and mailbox, zero counters |
| Engine.Engine.DownlinkPut | lmqtt/src/lmqtt_core.c:52-74 | the copies into the slot are the specified put |
| Engine.Engine.TakeDownlink | lmqtt/src/lmqtt_core.c:81-99 | the take is the specified take |
| Engine.ReadRecv | lmqtt/src/lmqtt_core.c:172-237 | the pointer walk over a RECV line is the specified parse |
| Engine.ReadCme | lmqtt/src/lmqtt_core.c:416-425 | the skip and digit loops are the specified parse |
| Engine.Engine.MatchResultUrc | lmqtt/src/lmqtt_core.c:275-331 | the table loop on one snapshot consumes, filters, counts and delivers as specified |
| Engine.Engine.AppendRaw | lmqtt/src/lmqtt_core.c:338-351 | the whole line and its terminator, or nothing |
| Engine.Engine.LineDispatch | lmqtt/src/lmqtt_core.c:356-466 | the branches on a line have the specified effect on the whole state |
| Engine.Engine.RxFeed | lmqtt/src/lmqtt_core.c:522-556 | the byte loop over the line buffer is the specified feed |
| Engine.Engine.CmdBegin | lmqtt/src/lmqtt_core.c:578-616 | takes the lock, resets the slot, sets the RAW destination, opens the window |
| Engine.Engine.CmdAbort | lmqtt/src/lmqtt_core.c:628-646 | closes the window, clears the word, releases the lock, and nothing else |
| Engine.Engine.CmdFinish | lmqtt/src/lmqtt_core.c:656-730 | the two waits and the verdict are the specified finish; the lock is released on every path |
| Engine.Engine.CmdExec | lmqtt/src/lmqtt_core.c:732-757 | begin, two writes, finish or abort are the specified transaction; the bytes written are those the port accepted |
| Engine.Engine.CmdExecRaw | lmqtt/src/lmqtt_core.c:759-796 | the same with a RAW destination, returning its length and line count |

## Left out

- The port itself: write, mutex, semaphore, ticks and task creation are abstract. A write returns a count,
  the mutex is exclusive, the semaphore is binary and a take fails only when there is no token. A port
  without a mutex is the case of one command task.
- NULL arguments of the engine functions: their guards return LMQTT_ERR_PARAM at once. Those of `lmqtt_pub`
  and the NULL client and response of `at_obj_exec_cmd` are modelled.
- The STATS callback: it has no effect on the engine and does not call back into it.
- `sscanf` and `snprintf` beyond the formats used, and a `%d` or `%u` whose digits exceed 32 bits, which is
  undefined in C; the model reads the number itself.
- SplitDispatch.ClaimSafety: covers results only. The acknowledgement claims are made with each line
  dispatch atomic, because a preempted dispatch can set a flag or give a token after begin has reset it.
  There the harmful moment is a hypothesis for OPEN, CLOSE, CONN and DISC, which all use msgID 0.
- SplitRaw.AppendStaysHome: is about the bytes stored; which lines are captured exactly, and the line count,
  are stated with one-step dispatch. Apart from the append, lines are dispatched in one step there too, and
  the check and the copy of the append are one step each.
- AtomicDispatch.WriteFence: says when success is possible, not that a genuine OK always succeeds; an ERROR
  dispatched between the clearing of `rejected` and the opening of the window persists and rejects the command.
- Conservation.AcksConserved: takes begin and abort as whole steps; the split between first and extra
  acknowledgement is not claimed inside a running begin.
- Engine.Engine.CmdExecRaw: the length and line count are read after the lock is released, so the returned
  outputs are stated for one command task.
- AtClient.RawRoundTrip: asks for received text without NUL bytes, since the readers use C strings; capture
  and framing are stated for all bytes.
- AtClient.ExecCmd: returns the engine's codes; a port may translate them to AT codes. The format arguments
  are given as the formatted text.
- `at_resp_set_info`, which keeps an old line count with a new buffer, the `vsscanf` readers, allocation,
  `at_client_init` and the endless parser loop.
- Logging, the CFG wrappers, `lmqtt_stats_str`, the getters, and the result checks of OPEN, CLOSE, CONN and
  SUBUNSUB, which are single branches.
