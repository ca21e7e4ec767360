# Omnidex: a verified model of the terminal client and its realtime protocol

Omnidex is a coding agent server with a terminal client, `omni`. This project models, in Dafny, the parts of it
where several moving pieces must agree, and proves what they promise together.

- **Realtime delivery.** A hub numbers messages, keeps a bounded replay buffer, suppresses repeated state and drops
  slow subscribers; a client follows it over connections that break. `HubModel` is the hub as a value, `HubObject` the
  hub as the object that is updated in place, `HubRuns` what every run of it keeps, `HubDrops` whom it drops and what it
  suppresses, `Follower` the client's loops, `FollowerOrder` the streams they accept,
  `Delivery` hub, link and follower together, `Freshness` the session that reloads its snapshot as events arrive.
- **Terminal input.** Bytes from the terminal pass a router that decides which mode they belong to, and a reader that
  finds pastes, decodes UTF-8 and makes pasted text safe for the line editor. `Utf8` (section 4 of RFC 3629),
  `MarkerStream`, `PasteModel`, `PasteRoundTrip`, `PasteLines`, `PasteSafety`, `PasteReader`, `InputAuthority`,
  `RouterModel`, `RouterRuns`, `RouterKeys`, `RouterPeriods`, `InputRouter`, and `Provenance` and `LineCompany` for the
  whole path.
- **Operations.** A turn, a control or a plan change is sent under an identity that must survive lost replies and
  interrupts. `Operations` is every operation as a function of the outcomes of its requests, with a log of what it did
  with identities; `OperationRuns` audits the logs of all runs; `OperationOutcomes` is what an operation leaves behind,
  `OperationResults` when it succeeds, `Interrupts` when a Ctrl-C reaches the job;
  `Effects` is what a server that commits an identity once makes of them; `SessionObject` is the session updated in
  place.
- **Snapshots.** `Windows`: bounded snapshots of a growing history, shown entry by entry. `Histories`: the session's
  three histories, refreshed together.
- **Terminal surface.** `Screen`, `ScreenCells`, `ScreenText`, `ControlText`, `ScreenObject`: the screen the line
  editor draws on (a subset of the control sequences of section 5.4 of ECMA-48). `Draft`, `DraftObject`: a draft cut out of it and put back.
  `AgentText`: the bounded store of unfinished agent output. `Redraw`: sessions that redraw only what changed.
- **Plan review.** `PlanReview`: the reducer that guards the freezing of a plan. `PlanReviewActions`: what each key and
  snapshot does in it.

Time, the network and the server's replies are parameters: a run may lose any reply, break any connection and fire any
timer. Work done under a mutex is one step. Integers are unbounded; identifiers and cursors of the original are 64 bits
wide and are assumed not to wrap around.

Some statements that one would expect of the code are false of it. Each is given with an instance that refutes it and
with the condition under which it holds:

- queued review keys stay within one chunk: `RouterRuns.EscapeThenFullChunk`, `RouterRuns.ChunkIsEnoughIff`;
- a draw shows its frame: `Redraw.StaleBetweenChoiceAndRestart`, `Redraw.StaleAfterFailedWrite`, `Redraw.ReliableIff`;
- agent text is written or pending: `AgentText.LoweredVerbosityLosesOutput`, `AgentText.AgentStream.NativeActivity`;
- a refresh passes no history over: `Windows.EmptyKnownHappens`, `Windows.FailedDisplaySkips`, `Windows.SkipsIff`;
- what is remembered stays within the window: `Histories.RememberedIsUnbounded`, `Histories.RememberedFitsIff`;
- a draft put back is cut out again as it was: `Draft.OutputBecomesDraft`, `Draft.AttachDetach`, `Draft.DraftFoundIff`;
- a review is always valid: `PlanReview.TooLateHappens`, `PlanReview.KeepsValidIff`;
- a freeze is requested on the very plan that was confirmed: `PlanReview.OtherPlanFrozen`,
  `PlanReview.FreezeOnlyAsConfirmed`;
- a revision under review never changes: `PlanReview.StaleDecisionStays`, `PlanReview.RewritesIff`,
  `PlanReview.RevisionChangesIff`; nor goes back: `PlanReview.RevisionMayRegressAcross`,
  `PlanReview.RevisionNeverRegresses`;
- a handled event is reflected: `Freshness.FailedReloadIsStale`, `Freshness.HandledIsReflected`.

Gaps in the replay are reported truthfully exactly when the hub has a replay buffer (`HubRuns.GapsHonestIffBuffered`);
the original always gives it one of 256 frames, so there they are.

## Model

| member | source | states |
|---|---|---|
| HubModel.MatchingSound | internal/api/realtime_hub.go:107-128 | every frame found for a subscriber is in the log at its own number, after the cursor, and has one of the topics |
| HubModel.MatchingComplete | internal/api/realtime_hub.go:107-128 | no later frame with one of the topics is missed |
| HubObject.TopicSetsIntersect | internal/api/realtime_hub.go:275-282 | the search of one topic set for a member of the other answers whether they have one in common |
| HubObject.RealtimeClient.Send | internal/api/realtime_hub.go:194-208 | a frame is queued last; it may only be sent to an open channel with room, so no caller sends on a closed channel or blocks |
| HubObject.RealtimeClient.Close | internal/api/realtime_hub.go:150-157 | a channel may only be closed while open, so no caller closes twice |
| HubObject.RealtimeClient.Receive | internal/api/realtime_handlers.go:145-230 | the subscriber takes queued frames first in, first out |
| HubObject.Prefilled | internal/api/realtime_hub.go:130-142 | a new subscriber's channel holds exactly its replay, in order; filling it never blocks |
| HubObject.RealtimeHub.constructor | internal/api/realtime_hub.go:79-89 | a new hub has no messages, clients or remembered state |
| HubObject.RealtimeHub.Cursor | internal/api/realtime_hub.go:93-100 | the cursor is the number of the latest message |
| HubObject.RealtimeHub.CollectReplay | internal/api/realtime_hub.go:107-128 | the loop over the buffer collects exactly its matching frames after the cursor, in order |
| HubObject.RealtimeHub.PlanReplay | internal/api/realtime_hub.go:107-128 | the gap flag and the replay of a subscription |
| HubObject.RealtimeHub.Subscribe | internal/api/realtime_hub.go:102-148 | the hub and the subscription after a subscribe; the new client is registered under a new number and no other is touched |
| HubObject.RealtimeHub.Unsubscribe | internal/api/realtime_hub.go:150-157 | a registered client is removed and closed once; an unknown one changes nothing |
| HubObject.RealtimeHub.AppendHistory | internal/api/realtime_hub.go:211-225 | the frame is appended, the oldest evicted beyond the capacity, and the state index follows both |
| HubObject.RealtimeHub.OfferAll | internal/api/realtime_hub.go:194-208 | in whatever order clients are visited, each interested one with room gets the frame, each without is closed and removed, and both are counted |
| HubObject.RealtimeHub.Publish | internal/api/realtime_hub.go:180-208 | storing and offering a frame together |
| HubObject.RealtimeHub.Broadcast | internal/api/realtime_hub.go:159-209 | a repeated state is suppressed and answered with the number of the frame that carries it; anything else is numbered, stored and offered |
| HubRuns.RunKeeps | internal/api/realtime_hub.go:102-225 | in every run of joins, leaves, reads and broadcasts the buffer is the end of the log, the index maps the buffered keys to their newest frames, and every client's queue is accounted for |
| HubRuns.BufferIsTail | internal/api/realtime_hub.go:211-225 | in every run the buffered frames are the last min(n, capacity) frames with contiguous numbers, and the index has no more entries than that |
| HubRuns.IndexFits | internal/api/realtime_hub.go:172-225 | the index has exactly the keys of buffered frames, so at most as many entries |
| HubRuns.ReplayFits | internal/api/realtime_hub.go:107-128 | a replay never exceeds the capacity, so the over-capacity branch is unreachable and the gap flag depends on the cursor alone |
| HubRuns.ReplayIsComplete | internal/api/realtime_hub.go:107-128 | when no gap is reported the replay from the buffer is what the full log has for the subscriber after its cursor |
| HubRuns.GapExact | internal/api/realtime_hub.go:107-128 | with a replay buffer, a gap is reported if and only if the cursor is ahead of the hub or a later frame was evicted |
| HubRuns.NoBufferHidesGap | internal/api/realtime_hub.go:107-128 | with capacity 0 there is a run in which a lost frame goes unreported |
| HubRuns.GapsHonestIffBuffered | internal/api/realtime_hub.go:107-128 | gaps are reported truthfully in all runs if and only if the capacity is positive |
| HubRuns.JoinedWithReplay | internal/api/realtime_hub.go:130-148 | a new subscriber's channel holds exactly what the log has for it from its starting point |
| HubRuns.QueuedExactly | internal/api/realtime_hub.go:130-157 | whatever happens later, everything ever queued to a subscriber is its replay followed by all later matching frames, and a prefix of that once it was dropped or left |
| HubDrops.DroppedIff | internal/api/realtime_hub.go:194-208 | in every run an action removes a subscriber if and only if the subscriber leaves, or a message that is not suppressed shares a topic with it while it holds as many unread frames as the buffer and its replay have room for; otherwise its queue is what it was, with exactly that frame added if it shares a topic |
| HubDrops.LoggedIff | internal/api/realtime_hub.go:159-192 | in every run a message is suppressed if and only if the newest buffered frame of its name and topics has its content; otherwise it is logged under the next number with its name, topics and content |
| HubDrops.ToldTruthfully | internal/api/realtime_hub.go:159-209 | the publisher is told the number of the frame that carries the message, whether it was suppressed, and exactly how many subscribers were given it and how many dropped for it |
| HubRuns.SuppressedIsBuffered | internal/api/realtime_hub.go:172-192 | a message is suppressed only if the newest buffered frame with its key has its very content |
| HubRuns.KnownIsLast | internal/api/realtime_hub.go:172-192 | the content remembered for a key is the last one logged for it |
| HubRuns.SameLastContent | internal/api/realtime_hub.go:172-192 | in every run the frames sent have, for each state key, the same last content as all that was offered for broadcast |
| HubRuns.RunExtends | internal/api/realtime_hub.go:102-225 | no later step rewrites the log, takes back what was queued, or changes what a subscriber was promised |
| Follower.FollowJobEvents | cmd/omni/chat_events.go:19-116 | the nested loops hand over what the step function says, and each reconnect asks to resume after the last number reached |
| Follower.FollowFault | cmd/omni/chat_events.go:19-116 | once a protocol error is found nothing later is read |
| FollowerOrder.ReadsIff | cmd/omni/chat_events.go:33-81 | a connection is read without a protocol error if and only if its one connection frame comes first, the numbers ascend beyond the cursor, and those after the replay are beyond what that frame named as latest; then everything is handed over and the cursor is the last number, or that latest at the end of the replay |
| Delivery.DeliveredOnceOrResynchronised | cmd/omni/chat_events.go:30-112 | over every run of broadcasts, drops, disconnects and reconnects the follower hands over matching frames in increasing order, and each matching frame from its base to its cursor was handed over or is covered by a handed-over request to resynchronise issued at or after it |
| Delivery.NoProtocolError | cmd/omni/chat_events.go:50-81 | against the hub the follower's repeated-connection and out-of-order errors never fire |
| Delivery.DrainedIsComplete | internal/api/realtime_handlers.go:145-230 | once a served connection is drained every matching frame of the whole log since the base is accounted for |
| Delivery.MovesKeep | internal/api/realtime_handlers.go:145-230 | in every run the connection frame and then the queued frames are what is on the wire, and the follower's counters are those of its position in that stream |
| Delivery.MoveExtends | cmd/omni/chat_events.go:30-112 | nothing handed over is taken back |
| Freshness.LifeKeeps | internal/api/channel_session.go:72-87 | in every interleaving of commits, announcements, deliveries and two-step snapshot reads the held snapshot contains all that its cursor covers and all that was handled |
| Freshness.ReloadsIff | cmd/omni/chat_session.go:498-543 | handling the next event asks for a reload if and only if it is a connection frame that requires synchronising, or a job-progress frame or one of the eight named runtime events with a number beyond the snapshot's cursor |
| Freshness.HandledIsReflected | cmd/omni/chat_session.go:498-543 | each state-changing event handled, reloaded for or suppressed by cursor, is reflected in the snapshot held now, unless its own reload failed or is under way |
| Freshness.SnapshotIsCurrent | cmd/omni/chat_snapshot.go:165-171 | when nothing is owed the held snapshot contains every state change announced to the follower's topics up to its cursor, however frames were dropped, replayed or covered by a resynchronisation |
| Freshness.FailedReloadIsStale | cmd/omni/chat_session.go:498-543 | a run in which a reload fails: the event is handled, its reload owed, and the held snapshot is from before the commit it announced |
| Utf8.DecodeCharacter | cmd/omni/chat_paste_reader.go:145-197 | decoding a well-formed character and encoding it again gives the same bytes |
| Utf8.PartialGrows | cmd/omni/chat_paste_reader.go:145-197 | one more byte after a partial character leaves it partial, completes it, or is seen as an error, and never anything else |
| PasteRoundTrip.ProjectedRestores | cmd/omni/chat_input_projection.go:8-38 | a character let through is projected to one character without line breaks that restores to it |
| PasteRoundTrip.RestoreConcat | cmd/omni/chat_input_projection.go:15-20 | restoring valid text and what follows it separately is restoring them together |
| PasteRoundTrip.LiteralKeeps | cmd/omni/chat_paste_reader.go:137-204 | each byte read as text keeps the output valid and, unless a flag is raised, loses nothing |
| PasteRoundTrip.ConsumeKeeps | cmd/omni/chat_paste_reader.go:93-128 | so does each byte against the marker being looked for; only the line feed after a return is dropped |
| PasteRoundTrip.NothingLost | cmd/omni/chat_paste_reader.go:93-204 | for any input at all: unless a flag is raised, the emitted bytes un-projected and what is held back are the input |
| PasteLines.StretchVerdict | cmd/omni/chat_paste_reader.go:145-204 | at its end a stretch has been found invalid if and only if it is not UTF-8 |
| PasteLines.StretchHasNoBreak | cmd/omni/chat_paste_reader.go:178-197 | nothing emitted inside a paste is a carriage return or line feed |
| PasteLines.FeedStretch | cmd/omni/chat_paste_reader.go:93-128 | the marker search holds back exactly the longest tail that could still become the marker |
| PasteLines.FeedMarker | cmd/omni/chat_paste_reader.go:93-128 | a marker is found wherever it follows text free of it, false starts included |
| PasteLines.PastedLine | cmd/omni/chat_paste_reader.go:93-204 | typed text, a paste, typed text, Return: the parts come out between the markers, the paste without line breaks, the line invalid if and only if a part is not UTF-8, unsafe if and only if reading a part raised the mark, and without marks un-projecting gives back each part exactly |
| PasteLines.LineBytes | cmd/omni/chat_paste_reader.go:9-12 | the bytes a terminal sends for such a line, the two markers spelled out |
| PasteSafety.UnsafeIff | cmd/omni/chat_paste_reader.go:145-197 | UTF-8 text is marked unsafe if and only if one of its characters may not be typed, or pasted |
| PasteSafety.LineUnsafeIff | cmd/omni/chat_paste_reader.go:145-204 | and so a valid line is marked unsafe if and only if a part has a character that is kept from the editor |
| PasteSafety.OnlyFineComesOut | cmd/omni/chat_paste_reader.go:145-197 | whatever bytes arrive, what reaches the editor is UTF-8; typed, it has no character in 0x80-0x9F, no U+2028 or U+2029 and no format character; pasted, it has no byte below 0x20 and no 0x7F, and of those characters at most the three stand-ins |
| PasteSafety.PlainIsSafe | cmd/omni/chat_console.go:289-293 | UTF-8 text whose characters are all at least 0x20, and none of them 0x7F, in 0x80-0x9F, U+2028, U+2029 or a format character, raises no mark, typed or pasted |
| PasteSafety.ComesOutProjected | cmd/omni/chat_input_projection.go:8-38 | text that raises no mark reaches the editor as it was typed, or as it was pasted with its line feeds, returns and tabs replaced by U+2028, U+2029 and U+0085 and nothing else changed |
| PasteReader.BracketedPasteReader.constructor | cmd/omni/chat_paste_reader.go:37-39 | a new reader has read nothing |
| PasteReader.BracketedPasteReader.ConsumeTypedByte | cmd/omni/chat_paste_reader.go:145-168 | one typed byte: its effect on output, pending character and flags |
| PasteReader.BracketedPasteReader.ConsumePasteByte | cmd/omni/chat_paste_reader.go:178-197 | one pasted byte, likewise |
| PasteReader.BracketedPasteReader.SettleCandidate | cmd/omni/chat_paste_reader.go:103-109 | the loop that gives up candidate bytes until the rest is a prefix of the marker |
| PasteReader.BracketedPasteReader.ConsumeByte | cmd/omni/chat_paste_reader.go:93-128 | one byte keeps the line's law: the state is what the line's bytes make of its starting point, and the line has ended exactly if this byte ends it |
| PasteReader.BracketedPasteReader.FlushCandidate | cmd/omni/chat_paste_reader.go:130-135 | at the end of input held-back bytes are read as text |
| PasteReader.BracketedPasteReader.MergeLineAuthority | cmd/omni/chat_paste_reader.go:222-234 | the line's authority is Mixed unless all its bytes came under one authority |
| PasteReader.BracketedPasteReader.FillQueue | cmd/omni/chat_paste_reader.go:41-91 | reads until something is queued or the source ends; no source byte is lost or repeated, and none beyond the line's end is consumed |
| PasteReader.BracketedPasteReader.Read | cmd/omni/chat_paste_reader.go:41-91 | whatever the sizes of reads and buffers, and also past a finished line whose state was not taken, what the editor has been given is the front of what the bytes since the last taking of the state produce |
| PasteReader.BracketedPasteReader.ConsumeLineState | cmd/omni/chat_paste_reader.go:206-220 | taken after a line, an error or a cleared draft alike, the flags are those of the bytes since the last taking, and none of them is left to what follows, which comes behind what is still queued |
| PasteReader.SameLine | cmd/omni/chat_paste_reader.go:41-128 | however a stream is split into reads, its first line is the same bytes |
| PasteReader.SameForBoth | cmd/omni/chat_paste_reader.go:41-220 | two readers that begin a line alike over the same bytes, cut into reads and buffers in any way, hand over the same bytes, give the line the same state, and leave the same for the next line |
| PasteReader.NextLineIsFresh | cmd/omni/chat_paste_reader.go:206-220 | after a line nothing of it is left but whether to drop a line feed, so a line's flags come from its own bytes |
| PasteReader.LineEndIsQueued | cmd/omni/chat_paste_reader.go:93-128 | the byte that ends a line is on its way to the editor |
| InputAuthority.CombineVouches | cmd/omni/plan_review_input.go:471-487 | a combined authority other than Mixed was the authority of every byte |
| InputRouter.PlanReviewInputRouter.constructor | cmd/omni/plan_review_input.go:75-85 | a new router is outside review with nothing buffered |
| InputRouter.PlanReviewInputRouter.ConsumeReviewByte | cmd/omni/plan_review_input_decoder.go:31-76 | one byte in review: its key, its effect on the escape decoder and timer, or the end of review |
| InputRouter.PlanReviewInputRouter.ConsumeDisabledSequenceByte | cmd/omni/plan_review_input_decoder.go:78-98 | one byte of a sequence left half-read when review ended; callable only with such a sequence, so its panic is unreachable |
| InputRouter.PlanReviewInputRouter.RouteBytes | cmd/omni/plan_review_input.go:413-442 | routing a chunk, with its bulk branches, is the fold of the one-byte step |
| InputRouter.PlanReviewInputRouter.BeginRead | cmd/omni/plan_review_input.go:300-315 | a poll begins if and only if nothing has failed and the queue of the current mode is empty |
| InputRouter.PlanReviewInputRouter.FinishRead | cmd/omni/plan_review_input.go:317-348 | what was polled is routed; at most 65 keys are queued then, and at most 64 if those queued before and the bytes are no more |
| InputRouter.PlanReviewInputRouter.DisableReviewLocked | cmd/omni/plan_review_input.go:444-459 | leaving review: a new period, no note pending, a half-read sequence left to be swallowed |
| InputRouter.PlanReviewInputRouter.AppendLineBytes | cmd/omni/plan_review_input.go:471-487 | bytes join the editor's buffer and the buffer's authority |
| InputRouter.PlanReviewInputRouter.EnableReview | cmd/omni/plan_review_input.go:132-159 | review begins a new period with an idle decoder, or continues; it may not begin over the note editor |
| InputRouter.PlanReviewInputRouter.BeginNoteInput | cmd/omni/plan_review_input.go:176-201 | the note editor opens exactly from ordinary input or a pending Note key, with the bytes typed since as its first input under its own authority; otherwise nothing changes |
| InputRouter.PlanReviewInputRouter.EndNoteInput | cmd/omni/plan_review_input.go:203-222 | only the authority that opened the note editor closes it |
| InputRouter.PlanReviewInputRouter.ReadWithAuthority | cmd/omni/plan_review_input.go:92-130 | the editor gets the front of the buffer with the authority of the whole buffer, and the source's error only once the buffer is empty |
| InputRouter.PlanReviewInputRouter.NextReviewKey | cmd/omni/plan_review_input.go:242-288 | a reader gets the keys of its own period in order, and beyond them only the EOF key that ended the period before |
| InputRouter.PlanReviewInputRouter.ExpireDecoder | cmd/omni/plan_review_input_decoder.go:136-149 | a timer acts only if it was neither stopped nor replaced |
| InputRouter.PlanReviewInputRouter.FinishSource | cmd/omni/plan_review_input.go:405-411 | at the end of the source a pending escape in review is a key |
| RouterKeys.KeysExactly | cmd/omni/plan_review_input_decoder.go:31-76 | in review with nothing half-read, the keys queued for any bytes are exactly those of a reading from the front: ESC [ A or ESC O A is Up, with B Down, space Toggle, return, line feed or both one Enter, n or N Note with the rest waiting, Ctrl-D end of input with the rest going to the editor, anything else none |
| RouterKeys.KeysOfChunks | cmd/omni/plan_review_input.go:413-442 | however those bytes are cut into chunks |
| RouterPeriods.NoteTextArrives | cmd/omni/plan_review_input.go:176-201 | the text typed after the Note key is what the note editor is given first, behind whatever was in the buffer; under the note's own authority if that was nothing, else mixed; no key is left |
| RouterPeriods.ReviewOpens | cmd/omni/plan_review_input.go:132-159 | unless one is open or a note is being typed, a review opens under the next generation without keys, waiting bytes or anything half-read, and leaves the editor's buffer alone |
| RouterPeriods.ReviewCloses | cmd/omni/plan_review_input.go:444-459 | closing it begins an ordinary period without its keys and waiting bytes |
| RouterPeriods.NoteOpensAndCloses | cmd/omni/plan_review_input.go:176-222 | a note opens if and only if none is open and no review is but for its Note key, and closes if and only if it is open and the authority is its own |
| RouterPeriods.SourceEndsKeys | cmd/omni/plan_review_input.go:405-411 | at the end of the source exactly an undecided escape in review becomes a key |
| RouterRuns.RunKeeps | cmd/omni/plan_review_input.go:296-442 | in every run, with timers and readers between the check for room and the routing of what was read, note input excludes review, a pending note implies review with an idle decoder, a timer is armed exactly while a sequence is half-read, and queued keys with an undecided escape are at most one 64-byte chunk and one |
| RouterRuns.ChunkIsEnoughIff | cmd/omni/plan_review_input.go:296-348 | a read begun in review leaves at most one chunk of keys, whatever it reads and whenever the timer fires, if and only if no escape is undecided when it begins or fewer than 64 bytes are read |
| RouterRuns.EscapeThenFullChunk | cmd/omni/plan_review_input.go:296-348 | a run with 65 queued keys: an escape read alone, its timer during the next poll, and 64 keys from that poll |
| RouterRuns.RouteConcat | cmd/omni/plan_review_input.go:413-442 | how bytes are split into chunks makes no difference |
| RouterRuns.ReviewIsPrivate | cmd/omni/plan_review_input_decoder.go:31-76 | in review no byte reaches the editor, and only Ctrl-D leaves review |
| RouterRuns.PassThrough | cmd/omni/plan_review_input.go:413-442 | outside review with nothing half-read every byte reaches the editor in order |
| RouterRuns.OutsideReviewInOrder | cmd/omni/plan_review_input.go:413-442 | outside review the editor gets the source bytes in order but for a prefix of at most three |
| RouterRuns.SupersededTimerIsSilent | cmd/omni/plan_review_input_decoder.go:120-149 | a timer that was stopped or replaced has no effect, whenever it fires |
| RouterRuns.TimerActsOnce | cmd/omni/plan_review_input_decoder.go:136-149 | a timer that acts turns an undecided escape into one key or ends a sequence, and no timer acts after it |
| Provenance.AcceptedBytesBelong | cmd/omni/chat_session.go:403-421 | in every run a line accepted as a note consists of bytes that entered the buffer in that very note period, and one accepted as a turn of bytes of the ordinary period still current |
| LineCompany.AcceptedIff | cmd/omni/chat_session.go:403-421 | in every run a line is accepted as a note if and only if a note is open and every byte that entered a buffer the line was taken from, since that was last empty, did so in that note's period; as a turn if and only if no note is open, nothing is under way and all of them entered in the ordinary period still current |
| Provenance.PeriodsAreDistinct | cmd/omni/plan_review_input.go:132-222 | a generation keeps one mode for good, so no two periods share an authority |
| Provenance.EarlierBytesAreOlder | cmd/omni/plan_review_input.go:172-201 | bytes buffered anywhere before a note opens are of an older generation than the note |
| OperationRuns.RunKeeps | cmd/omni/chat_pending.go:19-201 | over every run of submits, lost replies, interrupts, replays and reloads at most one operation is unresolved, and the audit of the log finds that one and no rule broken |
| OperationRuns.RequestsKeepTheirIdentity | cmd/omni/chat_commands.go:45-226 | every request goes out under the identity minted last, with the content it was minted with, so a retry is the same request |
| OperationRuns.ReleasedOnlyWithProof | cmd/omni/chat_interrupt.go:42-72 | an identity is released only after a confirming or definitive reply to it, or a snapshot that shows it as it was asked for |
| OperationRuns.NoIdentityIsAbandoned | cmd/omni/chat_session.go:459-496 | before a new identity is minted the one before was proven and then released |
| OperationRuns.AcceptTextKeeps | cmd/omni/chat_session.go:424-457 | submitting a turn keeps the audit, whatever the replies |
| OperationRuns.ControlKeeps | cmd/omni/chat_commands.go:83-226 | so does a control; and if it started with nothing pending, a definitive failure leaves nothing unproven |
| OperationRuns.NamedControlKeeps | cmd/omni/chat_commands.go:45-81 | a control identity is only ever new here, so a retry never replaces the plan revision it was asked against |
| OperationRuns.MutatePlanKeeps | cmd/omni/chat_plan_review_mutation.go:35-124 | so do plan decisions and the freeze |
| OperationRuns.ReloadKeeps | cmd/omni/chat_snapshot.go:44-171 | a reload that fails, is refused half-way or is adopted mints nothing and takes no proof away |
| OperationRuns.PersistedKeeps | cmd/omni/chat_pending_snapshot.go:5-32 | a pending operation is released against known records only if they show it as it was asked for |
| OperationRuns.ResolveKeeps | cmd/omni/chat_interrupt.go:42-75 | when an interrupt's resolution ends well nothing is left pending, so the choice of a pending interrupt's own reason is never made |
| OperationRuns.ResolveErrorKeeps | cmd/omni/chat_interrupt.go:24-138 | resolving an interrupted request and interrupting the job keep the audit, the dropped interrupt of a waiting job included |
| OperationRuns.AcceptedTurnIsPersisted | cmd/omni/chat_session.go:424-457 | a turn that ends without an error is persisted under its identity as typed, and nothing is pending |
| OperationRuns.AcceptedControlIsPersisted | cmd/omni/chat_commands.go:142-226 | likewise a control, for the job it was asked of |
| OperationRuns.TurnMintsOnlyWhenClear | cmd/omni/chat_session.go:459-496 | a turn mints one identity, the new one, exactly when it is valid and nothing is unresolved |
| OperationRuns.ControlStaysOnTarget | cmd/omni/chat_commands.go:83-226 | a control asked of one job mints nothing or a control of that job, whatever the reload shows active, and nothing while the same control is unresolved |
| OperationRuns.InterruptOnlyTheResolvedJob | cmd/omni/chat_interrupt.go:24-138 | a Ctrl-C mints nothing, or one interrupt of the job that is active, and not waiting, once everything else is resolved, and then only if what was resolved belonged to that job and was no interrupt or cancellation |
| Interrupts.InterruptsIff | cmd/omni/chat_interrupt.go:24-138 | if what was pending is resolved and is a matter of the active job, and no interrupt or cancellation, and that job is not waiting and still active in the interrupt's own reload, a Ctrl-C mints exactly one interrupt of it and sends it; otherwise it mints nothing |
| Interrupts.RejectedInterruptIff | cmd/omni/chat_interrupt.go:112-131 | a rejected interrupt ends well if and only if the rejection was 400 or 409 and the reload after it shows the job waiting; otherwise its failure stays |
| OperationResults.ReloadSucceedsIff | cmd/omni/chat_snapshot.go:44-171 | a reload ends well if and only if the snapshot arrives, is displayed and contradicts nothing pending; then the snapshot is what is known, and what was pending is released if and only if it is recorded |
| OperationResults.TurnSucceedsIff | cmd/omni/chat_session.go:424-496 | a turn is sent if and only if it is valid and nothing else is pending, for the running job or as it was; it ends well if and only if it is accepted and the snapshot after it has it as asked |
| OperationResults.TurnReleasedIff | cmd/omni/chat_session.go:424-457 | a failed turn stays pending as it was sent, unless the status was 400, 404, 409 or 413 |
| OperationResults.ControlSucceedsIff | cmd/omni/chat_commands.go:83-226 | asked for again, a control ends well if and only if a first snapshot has it or it is resent, accepted and found in a second; asked for anew, if and only if nothing is pending, the job asked for is active, a redirect knows its plan revision, and it is accepted for its job and then found; exactly what goes is sent |
| OperationResults.ControlReleasedIff | cmd/omni/chat_commands.go:142-226 | a new control that fails at the server stays pending as it was sent, unless the status was one of those four |
| OperationResults.PlanSucceedsIff | cmd/omni/chat_plan_review_mutation.go:35-124 | a plan change is sent if and only if nothing else is pending; it ends well if and only if it is answered for exactly and a freeze is followed by a good reload; a failed one stays pending, unless the status was one of those four |
| OperationResults.ResolveSucceedsIff | cmd/omni/chat_interrupt.go:42-75 | what is pending is resolved if and only if it was rejected with one of those four, or answered for and then shown so, and the reload is good |
| OperationOutcomes.CustodyKept | cmd/omni/chat_pending.go:19-201 | between any two states of a session what was pending before still is, or was released since after proof of what became of it |
| OperationOutcomes.ResolvedLeavesNothing | cmd/omni/chat_interrupt.go:24-138 | an interrupt that is dealt with leaves nothing pending |
| Effects.CommittedAtMostOnce | cmd/omni/chat_pending.go:19-64 | over every run and however requests and replies are lost, on a server that commits an identity once an operation is committed at most once, however often it was sent, and with the content it was minted with |
| Effects.ReleasedUncommitted | cmd/omni/chat_interrupt.go:42-64 | an operation released without having been committed was definitively rejected |
| Effects.ReleasedIsFinal | cmd/omni/chat_interrupt.go:42-64 | what the server has made of an operation when it is released is final: one that is uncommitted then is never committed, whatever is typed or sent later |
| Effects.ReportedTurnIsCommittedOnce | cmd/omni/chat_session.go:424-457 | a turn reported done is committed exactly once and recorded as typed |
| Effects.ReportedControlIsCommittedOnce | cmd/omni/chat_commands.go:83-226 | so is a control: one asked for again, found recorded or replayed, under the identity it had, any other under the new one |
| Effects.ReportedPlanIsCommittedOnce | cmd/omni/chat_plan_review_mutation.go:35-124 | so is a plan change, asked for again or new, the freeze with its reload included |
| SessionObject.ChatSession.constructor | cmd/omni/chat_session.go:74-306 | a session starts valid, with nothing pending and nothing known |
| SessionObject.ChatSession.PendingOperationCount | cmd/omni/chat_pending.go:186-201 | in a valid session the count is 0 or 1, and 0 exactly when nothing is pending, so the error for several is never raised |
| SessionObject.ChatSession.ReconcilePersistedPending | cmd/omni/chat_pending_snapshot.go:5-32 | fails exactly when the records have what is pending otherwise than it was asked for; releases it exactly when they have it as it was asked for; the session stays valid and gives nothing up without proof |
| SessionObject.ChatSession.ReconcileSnapshot | cmd/omni/chat_snapshot.go:44-171 | success means that exactly the snapshot is known and nothing that it shows is still pending; failure leaves pending what was; validity and custody are kept |
| SessionObject.ChatSession.ReloadSnapshot | cmd/omni/chat_session.go:545-572 | likewise, with every outcome of the request; one that does not reach the server changes nothing |
| SessionObject.ChatSession.TurnOperationID | cmd/omni/chat_session.go:459-496 | refused exactly for an invalid text or while anything but this very text is pending, and then without effect; otherwise the turn is pending under the identity it had, or the new one |
| SessionObject.ChatSession.Accept | cmd/omni/chat_session.go:424-457 | success means accepted, recorded as typed under its one identity, and nothing pending; it succeeds exactly when the turn may be sent, is accepted and the snapshot after it has it as asked; a turn left pending keeps that identity; another pending operation is never touched; nothing is given up without proof |
| SessionObject.ChatSession.ControlOperationID | cmd/omni/chat_commands.go:45-81 | refused exactly while anything but this very control is pending, and then without effect; otherwise pending under the identity it had, or the new one; the session stays valid exactly unless a pending control is given another plan revision |
| SessionObject.ChatSession.ReplayPendingControl | cmd/omni/chat_commands.go:98-122 | success means that the control is recorded, as it was asked for if it was still pending, and no control is pending; nothing is minted; nothing is given up without proof |
| SessionObject.ChatSession.ControlJob | cmd/omni/chat_commands.go:83-226 | success means that no control is pending and no other operation has become so; a control asked of one job is minted for that job only; nothing is minted while the same control is unresolved; nothing is given up without proof |
| SessionObject.ChatSession.PlanMutationOperation | cmd/omni/chat_plan_review_mutation.go:92-124 | refused exactly while anything but this very change is pending, and then without effect; otherwise pending under the identity it had, or the new one |
| SessionObject.ChatSession.PersistPlanChange | cmd/omni/chat_plan_review_mutation.go:35-90 | success means that the reply answers exactly this change, nothing is pending and, for a freeze, the session is the reloaded one; a change left pending keeps its identity; nothing is given up without proof |
| SessionObject.ChatSession.ResolvePendingOperation | cmd/omni/chat_pending.go:19-64 | what is pending is sent once, under its own identity, and nothing else; it ends well exactly if the reply settles it; only a plan change is released by the reply alone |
| SessionObject.ChatSession.AcknowledgeResolution | cmd/omni/chat_pending.go:149-184 | ends well exactly when the records show the operation as it was resolved, and then nothing is pending; otherwise nothing changes |
| SessionObject.ChatSession.ResolveOperationError | cmd/omni/chat_interrupt.go:24-138 | only an interruption changes anything; success then means that nothing is pending; exactly one interrupt is minted and sent, for the job that the reload shows active, or none, by the condition of `Interrupts.InterruptsIff`; nothing is given up without proof |
| Windows.RequireHistoryContinuity | cmd/omni/chat_snapshot.go:221-244 | accepts exactly: nothing known, a truncated window that overlaps what is known, or a full one that holds all of it |
| Windows.RefusedIff | cmd/omni/chat_snapshot.go:221-244 | a refresh is refused if and only if something is known and the history has grown by at least a whole window since; that includes the window that just adjoins what is known, which would skip nothing |
| Windows.ShownOnceAndAllUnlessSkipped | cmd/omni/chat_snapshot.go:44-107 | in every run each entry is shown at most once and in order, shown and passed-over entries add up, and all up to the last refresh are shown if and only if none was passed over |
| Windows.SkipsIff | cmd/omni/chat_snapshot.go:44-163 | a refresh passes entries over if and only if nothing was known of a history longer than the window, or the display failed before the last new entry |
| Windows.EmptyKnownSkips | cmd/omni/chat_snapshot.go:221-229 | with nothing known a longer history is entered at the window without a refusal |
| Windows.EmptyKnownHappens | cmd/omni/chat_snapshot.go:221-229 | a run that comes to that: two entries before the first refresh of a window of one |
| Windows.FailedDisplaySkips | cmd/omni/chat_snapshot.go:108-151 | a run that passes an entry over because its display failed: no later refresh shows it |
| Windows.RefusedForever | cmd/omni/chat_snapshot.go:221-244 | once refused, every later refresh of the history is refused and its view stays |
| Windows.KnownIsBounded | cmd/omni/chat_snapshot_authority.go:11-27 | after a refresh that ends well what is known is exactly the snapshot, at most a window |
| Windows.ReadsAll | cmd/omni/chat_snapshot.go:48-107 | over a history that never changes the changed-record errors never fire |
| Windows.History.Reconcile | cmd/omni/chat_snapshot.go:44-171 | the loops that merge and show one history do what the step function says, wherever they stop |
| Histories.AnyRefusedIff | cmd/omni/chat_snapshot.go:194-219 | a snapshot of messages, turns and controls is refused if and only if one of the three has grown by at least a whole window since it was last read |
| Histories.OneOvertakenStopsAll | cmd/omni/chat_snapshot.go:40-42 | then every later snapshot is refused, and nothing more is shown of any of the three |
| Histories.EachShownOnce | cmd/omni/chat_snapshot.go:44-163 | in every course of growth and joint refreshes each history is shown in order and without repetition, and wholly if and only if none of its entries was passed over |
| Histories.AdoptedIsBounded | cmd/omni/chat_snapshot_authority.go:11-27 | after a refresh that ends well no more than a window of each history is remembered |
| Histories.FailedRefreshGrows | cmd/omni/chat_snapshot.go:44-163 | after one that fails once entries were merged, everything known before and everything new |
| Histories.RememberedFitsIff | cmd/omni/chat_snapshot.go:44-163 | a refresh leaves at most a window remembered if and only if it ends well, enters the history, or all that is new fits beside what was remembered |
| Histories.RememberedIsUnbounded | cmd/omni/chat_snapshot.go:44-163 | so with every refresh failing late the whole history is remembered, whatever the window |
| Screen.EnsureRow | cmd/omni/chat_workspace_screen.go:25-37 | the cursor's row exists afterwards, rows and flags stay paired and within the scrollback, and its place counted from the first row ever is kept |
| Screen.Put | cmd/omni/chat_workspace_screen.go:39-75 | any rune keeps the row in range and rows and flags paired and bounded |
| Screen.Control | cmd/omni/chat_workspace_screen.go:77-130 | so does any control sequence, whatever its numbers |
| ScreenCells.RuneChangesOneCell | cmd/omni/chat_workspace_screen.go:54-73 | without a pending wrap a rune changes the one cell at the cursor and moves the cursor right, or in the last column leaves it with a wrap pending |
| ScreenCells.TabReachesStop | cmd/omni/chat_workspace_screen.go:50-53 | a tab within the row blanks the cells up to the next multiple of eight, goes there and changes nothing else |
| ScreenCells.ErasedFromCursor | cmd/omni/chat_workspace_screen.go:108-127 | erasing keeps everything before the cursor, cuts its row there, and drops the rows below or leaves them, as asked; 2 alone erases the whole display, and styling changes nothing |
| ScreenCells.CursorSteps | cmd/omni/chat_workspace_screen.go:91-101 | up, right and left go at least one step and end at the edges, and change no text |
| ScreenCells.CursorFalls | cmd/omni/chat_workspace_screen.go:96-97 | down goes at least one row in the same column, adding empty rows as needed and dropping the oldest beyond 4096, counted |
| ScreenCells.CursorPlaced | cmd/omni/chat_workspace_screen.go:102-107 | a position is a row and a column counted from 1, the first column if none is given, likewise |
| ScreenCells.FeedGoesDown | cmd/omni/chat_workspace_screen.go:39-49 | a line feed ends its row and goes to the same column of the next, likewise |
| ScreenCells.ControlCharacters | cmd/omni/chat_workspace_screen.go:39-56 | a return goes to the row's start, a backspace one column left, and every other control character but tab and line feed does nothing |
| ScreenCells.DownAndUp | cmd/omni/chat_workspace_screen.go:94-97 | going down and up by the same amount comes back and alters no row that was there, as long as none has to be dropped |
| ControlText.SplitJoin | cmd/omni/chat_workspace_screen.go:78-79 | fields joined by semicolons are found again |
| ControlText.ParametersReadBack | cmd/omni/chat_workspace_screen.go:78-90 | numbers that 64 bits hold, spelled out between semicolons, are read back |
| ControlText.ParseParameters | cmd/omni/chat_workspace_screen.go:78-90 | the loop over the fields yields their numbers, an empty one as 1, or refuses if and only if one is no number |
| ScreenText.LayoutRoundTrip | cmd/omni/chat_workspace_screen.go:39-75 | for every text and width the layout's rows fit the width, only full rows continue on the next, and rejoining gives the text |
| ScreenText.PrintShown | cmd/omni/chat_workspace_screen.go:39-75 | printing text with CR LF to a fresh screen gives the end of that layout, with the cursor and pending wrap at its end |
| ScreenText.PrintedTextReadsBack | cmd/omni/chat_workspace_screen.go:25-75 | the screen holds exactly the last 4096 rows of the layout, `dropped` counts the rest, and if there is no rest the rows read back as the text |
| ScreenObject.Row.Write | cmd/omni/chat_workspace_screen.go:60-68 | a row is padded up to the column and written there |
| ScreenObject.WorkspaceScreen.constructor | cmd/omni/chat_workspace_screen.go:21-23 | a fresh screen of at least one column |
| ScreenObject.WorkspaceScreen.EnsureRow | cmd/omni/chat_workspace_screen.go:25-37 | the loop and the drop, in place; no two rows are ever the same object |
| ScreenObject.WorkspaceScreen.Put | cmd/omni/chat_workspace_screen.go:39-75 | printing a rune in place, tabs as repeated spaces; only the screen's own and new rows are written, and of a printable rune only the cell at the cursor |
| ScreenObject.WorkspaceScreen.Control | cmd/omni/chat_workspace_screen.go:77-130 | a control sequence in place, or a refusal of an unsupported one |
| ScreenObject.WorkspaceScreen.ControlSequence | cmd/omni/chat_workspace_screen.go:77-130 | a control sequence as text: applied with its numbers, or refused if and only if one is no number, and then without effect, or the command is unsupported |
| Draft.DetachAttach | cmd/omni/chat_workspace_modes.go:121-152 | detaching and attaching again restores rows, flags, cursor and wrap, wherever the mark was clamped |
| Draft.AttachDetach | cmd/omni/chat_workspace_modes.go:121-152 | attaching and detaching again gives the draft back if and only if it was attached at the end of the last row |
| Draft.OutputBecomesDraft | cmd/omni/chat_workspace_modes.go:121-152 | an instance where it was not: output that ends in a carriage return while the draft is away becomes part of it |
| Draft.DraftFoundIff | cmd/omni/chat_workspace_modes.go:121-138 | when the oldest rows are dropped, the draft cut out is the same if and only if the row it began in is still there |
| DraftObject.ChatWorkspace.DetachDraft | cmd/omni/chat_workspace_modes.go:121-138 | the screen and the draft after the cut, which share no row |
| DraftObject.ChatWorkspace.AttachDraft | cmd/omni/chat_workspace_modes.go:140-152 | the screen and the new mark after the draft was joined on |
| DraftObject.ChatWorkspace.OutputMeanwhile | cmd/omni/chat_workspace_modes.go:120-138 | a detached draft is unchanged by any output written to the screen meanwhile |
| DraftObject.ChatWorkspace.AwayAndBack | cmd/omni/chat_workspace_modes.go:121-152 | and is attached unchanged behind that output |
| AgentText.CutsValid | cmd/omni/chat_agent_activity_render.go:206-228 | valid text cut before a byte that is not a continuation is valid on both sides |
| AgentText.CharacterStart | cmd/omni/chat_agent_activity_render.go:216-222 | a character begins at most three bytes before any byte of valid text, so the search backwards ends |
| AgentText.WriteConserves | cmd/omni/chat_agent_activity_render.go:249-282 | letting go of the front of what is pending conserves the text of every key, as let go or pending |
| AgentText.CutBefore | cmd/omni/chat_agent_activity_render.go:216-222 | the cut is the last character start within 2048 bytes, at most three below |
| AgentText.AgentStream.Split | cmd/omni/chat_agent_activity_render.go:206-228 | the splitting loop ends, leaving the item without a newline and with at most 2048 bytes of valid text, having written only valid pieces |
| AgentText.AgentStream.AgentText | cmd/omni/chat_agent_activity_render.go:180-247 | one delta of a visible kind: all text received for every key is let go or pending, in order; at most 16 items are held; only a new key without room evicts, and then the oldest item; nothing is lost to the console if and only if the evicted item is of a visible kind or held nothing |
| AgentText.AgentStream.RetireTurn | cmd/omni/chat_agent_activity_render.go:168-178 | exactly the native items of the thread's other turns are let go, in whatever order; nothing is lost if and only if each is of a visible kind or held nothing |
| AgentText.AgentStream.FinishOutput | cmd/omni/chat_agent_activity_render.go:284-297 | a command's output item ends with the command; what it held is written if and only if the verbosity of that moment shows command output |
| AgentText.AgentStream.SetVerbosity | cmd/omni/chat_activity_commands.go:45-59 | the verbosity changes and nothing is written out for it |
| AgentText.AgentStream.Clear | cmd/omni/chat_agent_activity_render.go:49-54 | what the quiet verbosity discards is lost if and only if something was held |
| AgentText.AgentStream.NativeActivity | cmd/omni/chat_agent_activity_render.go:44-178 | any activity at any verbosity: it ends the items of the thread's other turns, then a command that is not just started ends its output item, and text that is taken in joins its item, evicting the oldest only for want of room and ending the item if complete; text is lost to the console if and only if an item that is let go held some and is hidden then, or under the quiet verbosity any item held some |
| AgentText.MessagesAreConserved | cmd/omni/chat_agent_activity_render.go:249-282 | all text of a message is written or pending, whatever the verbosity was changed to, unless the quiet verbosity discarded it |
| AgentText.ConservedIffShown | cmd/omni/chat_agent_activity_render.go:249-282 | of any key all text is written or pending if and only if each of its pieces was of a visible kind when it was let go |
| AgentText.LoweredVerbosityLosesOutput | cmd/omni/chat_agent_activity_render.go:249-297 | an instance that loses output: a letter arrives under the verbose verbosity and its command ends under the normal one |
| Redraw.ScriptApplied | cmd/omni/chat_workspace_layout.go:307-336 | what is sent leaves changed rows as the frame has them, the others as they were, and the cursor where the frame has it |
| Redraw.DrawIsRedrawIff | cmd/omni/chat_workspace_layout.go:307-336 | a draw that succeeds equals a full redraw, cursor included, if and only if the rows it left out already showed the frame's, or, if it sent nothing, the terminal showed frame and cursor |
| Redraw.ReliableIff | cmd/omni/chat_workspace_layout.go:307-336 | all draws that succeed from a record are full redraws if and only if the record is empty, of another height, or what the terminal shows |
| Redraw.TrustedIff | cmd/omni/chat_sessions_io.go:65-85 | whether the record can be relied on is decided by the history: a complete draw from nothing of the selected session, and since then no switch and no failed write that changed something |
| Redraw.ChoiceIsReliableIff | cmd/omni/chat_sessions_io.go:74-85 | between the two halves of a switch the chosen session's draws are full redraws if and only if it has no record or the same one as the session it replaces |
| Redraw.FailureIsReliableIff | cmd/omni/chat_workspace_layout.go:328-333 | after a failed write a session's draws are full redraws if and only if what got through changed nothing |
| Redraw.SelectedIsShown | cmd/omni/chat_sessions_io.go:65-85 | after any run with neither a switch nor a write that failed and changed something since the selected session's last complete draw from nothing, every draw of it that succeeds equals a full redraw; so does the end of every switch |
| Redraw.OthersAreDiscarded | cmd/omni/chat_sessions_io.go:65-72 | what other sessions draw changes neither the terminal nor the selected session's record of it |
| Redraw.StaleBetweenChoiceAndRestart | cmd/omni/chat_sessions_io.go:74-85 | between the two halves of a switch a draw can succeed, send nothing and leave the other session's rows |
| Redraw.StaleAfterFailedWrite | cmd/omni/chat_workspace_layout.go:328-333 | after a write that failed part-way a later draw can take rows for unchanged that are not |
| Redraw.Terminal.Send | cmd/omni/chat_sessions_io.go:65-72 | a write of the selected session takes effect up to where it fails, inside a command as well; any other is discarded and reported as done |
| Redraw.ChatView.DrawFrame | cmd/omni/chat_workspace_layout.go:307-336 | the loop over the frame sends exactly the differing rows, or nothing if rows and cursor are the same, and remembers the frame only if the write succeeded |
| Redraw.ChatView.SelectConsole | cmd/omni/chat_sessions_io.go:74-85 | a switch that succeeds shows the session's frame in full |
| PlanReview.AlwaysValid | cmd/omni/plan_review_state.go:207-223 | in every run without a recorded decision that comes too late, the plan is reviewable, the selection is one of its leaves, and a confirmation is warranted |
| PlanReview.AlwaysSound | cmd/omni/plan_review_state.go:56-108 | in every run whatever, the plan is reviewable and the selection is one of its leaves |
| PlanReview.KeepsValidIff | cmd/omni/chat_plan_review_mutation.go:175-182 | a step leaves a valid review valid if and only if it is not a recorded decision that arrives while confirming and leaves nothing to confirm |
| PlanReview.TooLateHappens | cmd/omni/chat_plan_review_mutation.go:175-182 | a run with such a decision, after which every action is refused: a toggle whose reply is lost, an Enter, and the recorded decision |
| PlanReview.StuckUntil | cmd/omni/plan_review_state.go:56-128 | and every snapshot with them: only clearing the review leads out, or another recorded decision, exactly if it leaves something to confirm |
| PlanReview.ActionsSucceed | cmd/omni/plan_review_state.go:110-128 | and then no action is ever refused |
| PlanReviewActions.DecisionIff | cmd/omni/plan_review_state.go:152-164 | in every run a decision is requested if and only if Toggle is pressed while nothing is being confirmed: on the selected leaf, Rejected if it was approved and Approved otherwise |
| PlanReviewActions.NoteIff | cmd/omni/plan_review_state.go:129-182 | in every run a note is requested if and only if the note key is pressed, confirming or not: about the selected leaf, or none if there is none |
| PlanReviewActions.ActionLeads | cmd/omni/plan_review_state.go:110-172 | an action keeps the plan; only Up and Down move, one leaf and not past an end, and not while confirming; only Enter opens a confirmation, with every leaf decided and one approved; only Cancel and the note key end it |
| PlanReviewActions.ThereAndBack | cmd/omni/plan_review_state.go:143-151 | Down and Up come back if and only if the leaf is not the last of several, and Up and Down if and only if it is not the first of several |
| PlanReviewActions.DownsSelect | cmd/omni/plan_review_state.go:143-151 | from a newly received plan, k times Down selects leaf k, or the last |
| PlanReviewActions.ToggleDecidesReached | cmd/omni/plan_review_state.go:152-164 | and Toggle then requests the decision on that leaf and leaves the review as it was |
| PlanReviewActions.OpensIff | cmd/omni/plan_review_state.go:47-54 | a plan opens a review at its first leaf if and only if it is admissible, the conditions written out |
| PlanReviewActions.TakesUpIff | cmd/omni/plan_review_state.go:56-108 | a review takes up an admissible plan if and only if it is of another job or generation, or a later revision created with the one held and not updated before it; a confirmation is then over |
| PlanReviewActions.DecisionTakenUp | cmd/omni/chat_plan_review_mutation.go:175-252 | a recorded decision on a leaf of the plan under review, in a later revision, is taken up with that revision: the leaf so decided, the same leaf selected, nothing being confirmed |
| PlanReview.FreezeOnlyAsConfirmed | cmd/omni/plan_review_state.go:110-172 | in every run a freeze is requested only on a plan with no leaf pending and one approved, on a revision on which an Enter opened the confirmation, asked for ever since; the plan is the confirmed one throughout if and only if no recorded decision was written into it, and in any case the confirmed one with those decisions |
| PlanReview.OtherPlanFrozen | cmd/omni/chat_plan_review_mutation.go:175-182 | a run that requests a freeze of another plan than was confirmed: a decision on an older revision turns out to be recorded between the two Enters |
| PlanReview.RewriteStaysPending | cmd/omni/chat_plan_review_mutation.go:47-60 | a decision written into a plan of another revision than its own is not taken for settled, so it stays pending |
| OperationOutcomes.UnsettledDecisionBlocksFreeze | cmd/omni/chat_plan_review_mutation.go:92-118 | and while an unsettled decision is pending a freeze is refused and not sent |
| PlanReview.FreezeIff | cmd/omni/plan_review_state.go:129-132 | a freeze is requested exactly by an Enter while confirming a plan that can be confirmed |
| PlanReview.SelectionFollowsLeaf | cmd/omni/plan_review_state.go:91-101 | within a job the selection follows its leaf if it survives, and otherwise goes to the first |
| PlanReview.RevisionNeverRegresses | cmd/omni/plan_review_state.go:67-89 | while one job generation is under review its revision and update time never go back |
| PlanReview.RewritesIff | cmd/omni/chat_plan_review_mutation.go:175-252 | a step changes the plan under its own identity and revision if and only if it is a recorded decision that changes a leaf and is not ahead of the plan's revision, or about another plan, or leaves a confirmation with nothing to confirm; and then the decision is all that changes |
| PlanReview.RevisionChangesIff | cmd/omni/chat_plan_review_mutation.go:175-252 | while its revision is the same the plan is the same throughout if and only if no recorded decision is written into it, and in any case the first one with those decisions |
| PlanReview.StaleDecisionStays | cmd/omni/chat_plan_review_mutation.go:175-252 | a decision recorded under a revision that the review has passed is written into the newer plan, and the server's own plan of that revision is then refused |
| PlanReview.RevisionMayRegressAcross | cmd/omni/plan_review_state.go:67-89 | after another generation, or after the review was cleared, an older revision is accepted; directly it is refused |
| PlanReview.PlanReviewCanConfirm | cmd/omni/plan_review_state.go:184-195 | the loop answers whether no leaf is pending and one is approved |
| PlanReview.FindLeaf | cmd/omni/plan_review_state.go:93-100 | the first leaf with the identity, or none |

## Left out

- HTTP handlers, JSON, HTML components, query parsing and the validation of single fields: their claims would be easy ones.
- PostgreSQL, Redis, the model runtimes and the host bridge: what is assumed of them is that a change is committed before it is announced, that an operation identity is committed at most once, that a definitive rejection means that it is not committed, and that a request is committed before its outcome is known or not at all.
- A restarted hub reuses message numbers; one hub lifetime is modelled.
- Wake-up channels, goroutine scheduling and websocket framing: a step under a mutex is atomic, a timer may fire at any time.
- The ledger and research editors, the ledger panel's mutations, user-intent submission, roleplay, scrum and project services.
- Which terminal errors end the session, and rendering errors outside snapshot reloads: in `Operations` an operation's own message is assumed to be written.
- The line editor and the wrapping library are not part of this model; the editor is the identity on text.
- Resizing: it forgets the frame drawn last and rewraps through that library. `column < width` is no invariant after a cursor movement and is not claimed.
- Console writes that fail while agent text is split.
- PasteReader.BracketedPasteReader.FillQueue: the source returns bytes or an error, as the router does; an error together with bytes is not modelled.
- Screen.Put: one cell per rune, as in the original; double-width characters are not widened.
- Freshness.HandledIsReflected: an event whose reload failed is excepted until a later reload, because the original prints the failure and goes on.
- OperationRuns.ReloadKeeps: a reload loads one snapshot; the original loads a second one when the plan it then reads is stale (cmd/omni/chat_plan_review.go:71-131), and its outcome is not modelled.
- SessionObject.ChatSession.ReloadSnapshot: likewise.
- Windows.ShownOnceAndAllUnlessSkipped: `Histories` has the three together; an entry that the original suppresses because it was echoed locally counts as shown.
- A recorded plan decision that arrives when there is no review.
- PlanReview.RevisionChangesIff: the original compares a leaf's task by its address, so an equal snapshot may be refused there as changed.
