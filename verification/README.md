# A verified model of ws_collab

ws_collab keeps event streams in append-only JSON-lines files, feeds browser captions through a
write-ahead protocol into those streams, and runs a spoken chat on top. This project models the parts
whose correctness is hardest to see by reading, and proves what the source promises about them.

Two kinds of code stand side by side. Where the source updates an object in place there is a class with
the same fields, and every method is proved to do to the fields exactly what a function on values says.
The results (invariants over every run, agreement of fast and slow paths, round trips, conservation) are
lemmas about those functions, so they are results about the classes. Proofs are in the bodies of the lemmas:
automatic induction is off wherever Dafny would try it.

| file | what it models |
|---|---|
| `Sequences.dfy` | filtering and other vocabulary |
| `LineFile.dfy` | newline-terminated lines and the buffered line reader |
| `EventLog.dfy` | one stream: files, counters, idempotency map, and the invariant that ties them to the history |
| `LogAppend.dfy` | append, rotation, retention |
| `LogRead.dfy` | cursors, the seq scan and the byte-offset fast path |
| `LogCrash.dfy` | a crash at any byte of an append, and recovery |
| `LogRuns.dfy` | every run of appends, crashes and restarts; what a read promises; pagination |
| `LogStore.dfy` | the class `StreamState`, proved against the four files above |
| `CursorTokens.dfy` | cursor tokens in base64url |
| `Consumers.dfy` | committed consumer cursors, their audited history, at-least-once consumption |
| `Publication.dfy` | the idempotent appends that publish one caption |
| `SpeechPauses.dfy` | carrying silences over from one revision of a caption to the next |
| `Captions.dfy` | the caption protocol as a function from state to effects |
| `CaptionRuns.dfy` | every run of deliveries, publish failures, crashes between effects, and recoveries |
| `CaptionOrder.dfy` | the order captions are accepted in over such runs, what an acknowledgement means, and what a failed delivery leaves to its retry |
| `CaptionUptake.dfy` | which captions are taken up, and what is then published and kept |
| `CaptionBatches.dfy` | batches of captions as runs, and which sessions their saves drop |
| `CaptionDelivery.dfy` | the classes `Service` and `BrowserCaptioner` |
| `SpeechChunks.dfy` | cutting a streamed reply into pieces to speak |
| `Chat.dfy` | the conversation on values: what each call and each step of a request to the model does |
| `ChatRuns.dfy` | every run of a conversation |
| `ChatReplies.dfy` | what a reply holds and how it ends |
| `ChatSessions.dfy` | who may act in a conversation, when a turn begins, and what stopping, interrupting and muting do |
| `LanguageChat.dfy` | the class `LanguageChat` |
| `ServerSentEvents.dfy` | the incremental reader of a streamed reply |
| `StreamedEvents.dfy` | what it reads of the events that were written |
| `MergeMailboxes.dfy` | virtual mailboxes that merge others |
| `MailboxReading.dfy` | which of the messages of a mailbox its reader gets |
| `EventIds.dfy` | sortable event identifiers |
| `RateLimit.dfy` | token buckets |
| `MicFloor.dfy` | the microphone floor |

## What is proved

- Reading is exact over every run of appends, rotations, retention, restarts and crashes (but for a crash right
  before the newline of a record, see below): a cursor once handed out stays good, the byte-offset path finds what
  the seq scan finds, and every page gives exactly the matching records that were held, when it was read, between
  its two cursors; in order, and once over all pages of a reader (`LogRuns`).
- The stream's memory is what its files say: the idempotency map kept up to date is the one a rebuild
  computes, no key has two retained records, and recovery restores the state (`EventLog`, `LogCrash`).
- A final caption saved as pending is never lost, and no stream ever holds two records of one of its keys, whatever
  fails or crashes between whichever two effects, and inside an append anywhere but right before the newline
  (`CaptionRuns.ExactlyOnce`); that exception is the exact one (`CaptionRuns.HeldOnceIffAllowed`). Once a delivery is
  acknowledged its records are in the log for good (`CaptionOrder.AcknowledgedForGood`).
- Over the same runs captions are accepted in order: seqs and revisions strictly increase while a session or an
  utterance is kept (`CaptionOrder.AcceptedSeqIsNew`, `CaptionOrder.AcceptedRevisionsIncrease`), the former but for
  finals with a shared key (see below).
- What is new is taken up: a caption later than all that was said in its session and of its utterance is accepted,
  recorded and shown, and so are all revisions of an utterance in turn (`CaptionUptake.RevisionsTakenUp`).
- A stream rotates exactly when its file is full, and retention drops a record only behind as many later full files as
  it is to keep (`LogRuns.DroppedBehindFullFiles`).
- A reply holds what the model sent, whatever else is called meanwhile (`ChatReplies.ReplyHoldsDeltas`), and a streamed
  one is read as the events that were written, however it is cut (`StreamedEvents.ReadsWhatWasWritten`).
- A request of the chat that has been cancelled can never change anything again, spoken pieces only move
  forward and in order, and a reply is spoken whole (`ChatRuns`).
- A merge of mailboxes ends for every graph and delivers each leaf message once for every simple path that
  relays it (`MergeMailboxes.MailboxIsExact`).
- The class methods and loops of the source (`StreamState`, `CursorManager`, `BrowserCaptioner`,
  `LanguageChat`, `Mint`, `RateLimiter`, `LocalMicFloor`, the line reader, the reader of a streamed reply,
  the reading of mailboxes) do exactly what the functions these results are about say.

## What turned out false

The code is modelled as it is. Where a promise does not hold, there is a lemma with the inputs that break
it and, where one exists, the exact condition under which it holds.

- A seq can be issued twice, and a key held twice. A crash that cuts an append right before the newline leaves a
  whole record without its newline; recovery does not see it, the next append terminates it and uses its seq again,
  and if that append is the retry of the interrupted one, both records have its key: a caption is then published
  twice. It happens exactly then (`LogCrash.ReissuesSeqIffWholeTail`, `LogCrash.RepeatsKeyIffWholeTail`, and for
  captions `CaptionRuns.HeldOnceIffAllowed`).
- A crash inside a rotation, after the rename and before the sidecar is written, orphans the renamed file, whether
  or not retention has removed old files by then: records are lost exactly when the renamed file held any and was not
  removed itself (`LogCrash.RotationCrashOrphans`).
- A finalization key does not identify a final across sessions. Two sessions have finals with one key exactly when the
  id of one is that of the other followed by a colon and a seq, and perhaps by a colon and more
  (`Publication.SharedKeyIff`; a pair of such finals is in `Publication.SharedKeyInput`). A final delivered under a key
  that is taken is acknowledged, but the text recorded is that of the final held there, and that one's seq is marked
  (`CaptionOrder.RecordsHeldText`). The order of acceptance then breaks exactly when that seq is smaller
  (`CaptionOrder.OrderHoldsIff`, with an input in `CaptionOrder.SharedKeyBreaksOrder`).
- A batch of captions can be carried out and still be answered with an error: when one of its sessions is no longer
  kept at the end. An item that is a duplicate or stale does not refresh its session. A session of the batch is lost
  exactly when none of its own items was taken up, another session's was, and by the end of the batch it has not been
  seen for seven days, or the sessions seen later than it, those with items taken up among them, are 128 or more
  (`CaptionBatches.BatchLosesIff`, and for the answer `CaptionDelivery.BrowserCaptioner.IngestBatch`; for a clock that
  goes on, and sessions seen at different times). One batch for each cause: `CaptionBatches.StaleSessionLost` and
  `CaptionBatches.CrowdedSessionLost`.
- A caption whose publication fails is not always published by a retry. A retry takes the item up exactly when it is a
  final and either its key was free or its utterance is no longer kept; a partial is refused as no longer new, is
  acknowledged by that, and its text is recorded nowhere (`CaptionOrder.RetryTakesUpIff`, with an input in
  `CaptionOrder.PartialNeverPublished`).
- A silence between utterances keeps its old position when the text of a caption shrinks, so a pending
  final can fail the validation that recovery applies to it (`SpeechPauses.RevalidatesIff`,
  `SpeechPauses.ShrunkTextFailsRevalidation`).
- Speech of another agent that makes more than 128 pieces is refused, but its message stays in the
  history and its first 128 pieces stay in the queue (`ChatRuns.AgentSpeechFits`; a text of 129 sentences is
  one, `ChatRuns.ManySentencesRefused`).
- The result of reading a stream depends on how it is cut when a line is longer than 65536 characters
  (`ServerSentEvents.CutDoesNotMatterIff`).
- Event identifiers are in order exactly when their times, as far as ten digits go, are (`EventIds.OrderIff`): over
  every run they increase as long as the millisecond clock does not pass a multiple of 2^50
  (`EventIds.IdsIncrease`), and at each multiple they do not (`EventIds.OrderEnds`).

## Assumptions

- The JSON codec is a pair of functions: a record reads back as itself, is one nonblank line, and no proper
  prefix of it is a record (`EventLog.Sound`). Cursors read back as themselves (`CursorTokens.Faithful`).
- Writing the sidecar, saving the caption state and saving the chat are atomic. Whether a save or a publish
  succeeds is an argument of the step.
- Locks make each call atomic, so runs are sequences of calls; the steps of a chat's request to the model are calls
  of their own and may come at any time.
- Clocks and random numbers are arguments. Times are whole milliseconds, in `RateLimit.dfy` real numbers.
- What a character, and what a whole text, becomes under Unicode folding are functions, and the test for white space is
  a predicate (`SpeechPauses.Unicode`).

## Model

| member | source | states |
|---|---|---|
| LineFile.CompleteLinesExact | src/ws_collab/jsonl_store.py:457-487 | the lines listed are exactly the nonblank newline-terminated stretches after the start, in order and without overlap; the partial last line never is |
| LineFile.IterCompleteLines | src/ws_collab/jsonl_store.py:457-487 | for every file, start offset and chunk size the buffered reader yields exactly those lines with their offsets |
| LineFile.LinesSplit | src/ws_collab/jsonl_store.py:457-487 | at a line boundary the lines of a file are those before it followed by those of a scan from it |
| LineFile.LinesAppend | src/ws_collab/jsonl_store.py:204-209 | text without a newline, written with one after whole lines, is one more line |
| LineFile.LinesIgnoreTail | src/ws_collab/jsonl_store.py:463-487 | an unterminated tail adds no line |
| EventLog.RepairAdds | src/ws_collab/jsonl_store.py:159-182 | terminating a torn tail adds the record it holds, if it holds one, and nothing else |
| EventLog.WriteAdds | src/ws_collab/jsonl_store.py:204-209 | a written record is the file's new last record, at the offset past its line |
| EventLog.PartialWriteAddsNothing | src/ws_collab/jsonl_store.py:178-182 | a record cut anywhere before its newline is no record yet |
| EventLog.RetainedIsSuffix | src/ws_collab/jsonl_store.py:261-304 | what the files still hold is the unbroken end of the history |
| EventLog.RetainedSeqs | src/ws_collab/jsonl_store.py:200-209 | retained records carry consecutive seqs, each the record of its place in the history |
| EventLog.RetainedKeysUnique | src/ws_collab/jsonl_store.py:186-197 | no idempotency key has two retained records |
| EventLog.IndexAgreesWithFiles | src/ws_collab/jsonl_store.py:138-156 | the map kept up to date by append and retention is the one a rebuild from the files computes |
| LogAppend.WrittenKeeps | src/ws_collab/jsonl_store.py:199-216 | writing a record and the sidecar keeps files, map and counters in agreement with a history one longer |
| LogAppend.ArchivedKeeps | src/ws_collab/jsonl_store.py:223-243 | moving the active file to the archive changes no retained record |
| LogAppend.RetireOldestKeeps | src/ws_collab/jsonl_store.py:246-258 | retiring a segment drops its records and exactly its entries of the map |
| LogAppend.RotatedKeeps | src/ws_collab/jsonl_store.py:223-258 | rotation with retention keeps the agreement |
| LogAppend.SmallFileStays | src/ws_collab/jsonl_store.py:223-230 | an append that leaves the active file below the limit keeps generation, segments, archived files and first retained seq |
| LogAppend.FullFileRotates | src/ws_collab/jsonl_store.py:223-258 | an append that brings it to the limit leaves an empty active file and the next generation; of the segments, the new one included, the newest stay, as many as retention allows, each with its file |
| LogAppend.AppendKeeps | src/ws_collab/jsonl_store.py:184-221 | a new record becomes the next of the history; a repeat changes nothing |
| LogAppend.RepeatReturnsOriginal | src/ws_collab/jsonl_store.py:186-197 | a repeated key is answered with the id, seq and position of the one retained record that has it |
| LogRead.SafeOffsetSplits | src/ws_collab/jsonl_store.py:371-388 | a scan from an offset that is safe to resume at finds exactly the records after it |
| LogRead.TornLineSkipped | src/ws_collab/jsonl_store.py:371-388 | from the beginning or the middle of a torn line a scan finds the same records |
| LogRead.OffsetScanIsSeqScan | src/ws_collab/jsonl_store.py:327-340 | in one state: the byte-offset path finds the same records and offsets as the seq scan |
| LogRead.RecordCursorGood | src/ws_collab/jsonl_store.py:186-197 | the cursor of any retained record resumes right after it |
| LogRead.CursorAtEndGood | src/ws_collab/jsonl_store.py:414-417 | the cursor at the end is safe to read from, torn tail or not, and nothing that is held lies after it |
| LogRead.CursorAtSeqIs | src/ws_collab/jsonl_store.py:419-425 | a read from the cursor at a seq that exists gets exactly the records after it, and one at a later seq gets none |
| LogRead.ResumesStable | src/ws_collab/jsonl_store.py:159-182 | growing a file, a torn tail terminated first, keeps every good offset good |
| LogRead.AppendKeepsCursor | src/ws_collab/jsonl_store.py:184-258 | a good cursor stays good whatever is appended, rotated away or retired |
| LogRead.AppendCursorGood | src/ws_collab/jsonl_store.py:186-221 | append answers with a good cursor at the seq of the record, for a new record and for a repeat |
| LogCrash.RestartRestores | src/ws_collab/jsonl_store.py:88-156 | recovery from the files a stream leaves behind restores the very same state |
| LogCrash.RecoveryIgnoresTail | src/ws_collab/jsonl_store.py:124-156 | recovery depends on the records of the active file, not on an unterminated tail |
| LogCrash.CrashRecovers | src/ws_collab/jsonl_store.py:101-136 | after a crash at any point of an append but one, every acknowledged record is held and the interrupted one is held whole or not at all |
| LogCrash.CrashKeepsCursor | src/ws_collab/jsonl_store.py:184-221 | cursors handed out before such a crash stay good after it |
| LogCrash.WholeTailReissued | src/ws_collab/jsonl_store.py:178-201 | cut right before its newline, a record surfaces at the next append and shares its seq with the new one, and its key too if that one repeats it |
| LogCrash.ReissuesSeqIffWholeTail | src/ws_collab/jsonl_store.py:178-201 | after a crash that cuts an append and one more append, each seq has one record exactly when the cut was not right before the newline |
| LogCrash.RepeatsKeyIffWholeTail | src/ws_collab/jsonl_store.py:178-201 | after a crash that cuts the append of a keyed record and its retry, each key has one record exactly when the cut was not right before the newline |
| LogCrash.RotationCrashOrphans | src/ws_collab/jsonl_store.py:231-258 | a crash inside a rotation, after the rename and however many files retention has removed, loses the renamed file and keeps the seq counter; nothing that was to be kept is lost exactly when that file held no record or was removed itself |
| LogRuns.FreshIsGood | src/ws_collab/jsonl_store.py:50-64 | an empty directory is a good state, and recovery of it gives it back |
| LogRuns.RunKeeps | src/ws_collab/jsonl_store.py:88-258 | over every run of appends, restarts and crashes memory, map and files agree with the history, which only grows |
| LogRuns.RunKeepsCursor | src/ws_collab/jsonl_store.py:306-340 | a cursor handed out stays good for the rest of every run |
| LogRuns.OffsetScanRefinesSeqScan | src/ws_collab/jsonl_store.py:321-340 | at every later state of every run a cursor handed out is not beyond the end, and the fast path, when chosen, finds what the seq scan finds |
| LogRuns.AcknowledgedSurvives | src/ws_collab/jsonl_store.py:184-221 | over every run an acknowledged record is held, with all its fields, until retention drops it, and no other record ever has its seq |
| LogRuns.RunKeepsFull | src/ws_collab/jsonl_store.py:223-258 | over every run each segment is a file that had reached the limit, and once anything has been dropped there are as many segments as retention allows |
| LogRuns.DroppedBehindFullFiles | src/ws_collab/jsonl_store.py:223-258 | over every run a dropped record lies before as many later archived files as retention is to keep, each of which had reached the limit |
| LogRuns.PageProgresses | src/ws_collab/jsonl_store.py:343-369 | with room for one event a read moves on whenever a later record is retained |
| LogRuns.PageDetermined | src/ws_collab/jsonl_store.py:306-369 | what a read promises determines its events, its next position and `has_more` |
| LogRuns.PaginationComplete | src/ws_collab/jsonl_store.py:306-369 | over every run, each page holds exactly the matching records between its two cursors that were held when it was read; together they are in order and without repeats, and a record is missing exactly when it had been dropped before the page that passed it |
| LogStore.StreamState.constructor | src/ws_collab/jsonl_store.py:50-64 | a stream opened on a good directory is in the recovered state |
| LogStore.StreamState.Recover | src/ws_collab/jsonl_store.py:88-104 | loads the sidecar or scans, reconciles the tail and rebuilds the map: the state is `Recovered` |
| LogStore.StreamState.HighestActiveSeq | src/ws_collab/jsonl_store.py:106-122 | the highest seq in the active file |
| LogStore.StreamState.ReconcileActiveTail | src/ws_collab/jsonl_store.py:124-136 | the counter is raised to the last seq in the active file |
| LogStore.StreamState.RebuildIndex | src/ws_collab/jsonl_store.py:138-156 | the map of every keyed record of every file, later ones winning |
| LogStore.StreamState.Append | src/ws_collab/jsonl_store.py:184-221 | the new state and the answer are those of `LogAppend.Append`, and the history grows by the record unless it is a repeat |
| LogStore.StreamState.RepairTornFinalLine | src/ws_collab/jsonl_store.py:159-182 | the active file ends with a newline, and is unchanged if it did |
| LogStore.StreamState.MaybeRotate | src/ws_collab/jsonl_store.py:223-244 | rotates when the active file has reached its size |
| LogStore.StreamState.ApplyRetention | src/ws_collab/jsonl_store.py:246-258 | retires the oldest segments until few enough are left |
| LogStore.StreamState.IterFromSeq | src/ws_collab/jsonl_store.py:274-304 | the seq scan yields every retained record after the seq, though it skips segments that end before it, and the malformed lines of the files it does not skip |
| LogStore.StreamState.HotIter | src/ws_collab/jsonl_store.py:371-388 | the records, and the malformed lines between them, from a byte offset of the active file; everything after the seq if the offset is past its end |
| LogStore.StreamState.Collect | src/ws_collab/jsonl_store.py:343-361 | takes records while fewer than `limit` match, and tells whether one is left |
| LogStore.StreamState.Read | src/ws_collab/jsonl_store.py:306-369 | from a good cursor a read returns the promised page, with the malformed lines met before the first record it leaves counted; a garbled token, another stream's cursor and one beyond the end are refused |
| LogStore.StreamState.ReadFrom | src/ws_collab/jsonl_store.py:336-369 | whichever path is taken, the page is the one the seq scan gives, and the count of malformed lines is that of the path taken |
| LogStore.BeyondEndRecovers | src/ws_collab/jsonl_store.py:321-326 | the cursor offered for recovery from one past the end is good, and from it a read gets what is appended next |
| LogStore.StreamState.Tail | src/ws_collab/jsonl_store.py:390-409 | the last `count` matching events; with count 0, those of the active file only |
| CursorTokens.DecodeEncode | src/ws_collab/ids.py:78-106 | decoding base64url text without padding gives back every sequence of bytes that was encoded |
| CursorTokens.EncodeIs | src/ws_collab/ids.py:78-82 | a token spells the bits of its bytes six by six, the highest first, in the base64url alphabet and without padding |
| CursorTokens.DecodesDigits | src/ws_collab/ids.py:85-106 | a text that decodes has no other characters and no digit too many |
| CursorTokens.TokenRoundTrip | src/ws_collab/ids.py:78-106 | every token handed out reads back as its cursor, and different cursors have different tokens |
| Consumers.AdvancedAudited | src/ws_collab/cursors.py:149-193 | a move links to the one before it, the capped history stays linked, and a move backward carries the replay risk |
| Consumers.AdvancedIs | src/ws_collab/cursors.py:149-193 | the new entry says what was done, from where to where, why and by whom, and the newest ninety-nine before it stay |
| Consumers.CommittingIff | src/ws_collab/cursors.py:194-212 | a commit is refused exactly if it would go backward, and is otherwise recorded as one without a risk |
| Consumers.CursorManager.Record | src/ws_collab/cursors.py:149-193 | the consumer's position becomes the advanced one; no other position changes |
| Consumers.CursorManager.Commit | src/ws_collab/cursors.py:195-211 | moves forward or stays, and refuses to move backward, as `Consumers.Committing` says |
| Consumers.CursorManager.Reposition | src/ws_collab/cursors.py:213-246 | moves backward or forward only when allowed, with the risk recorded |
| Consumers.CursorManager.Reset | src/ws_collab/cursors.py:248-252 | moves anywhere, with the replay risk recorded |
| Consumers.CursorManager.Delete | src/ws_collab/cursors.py:125-139 | forgets the consumer and no other |
| Consumers.AtLeastOnce | src/ws_collab/cursors.py:195-211 | a consumer that reads from the token it has committed, and may stop anywhere between reading, handling and committing, is never refused, and has handled every matching record below its committed position that was held when the round that passed it read its page, and none before an earlier one |
| Publication.KeyIdentifies | src/ws_collab/captioner.py:713-718 | items of one session share a key only if they agree on seq, utterance and revision |
| Publication.SharedKeyIff | src/ws_collab/captioner.py:713-718 | two sessions have valid items that share every key exactly when the id of one is that of the other, a colon and a seq, and perhaps a colon and more |
| Publication.SharedKeyInput | src/ws_collab/captioner.py:713-718 | a final of session "a" and one of session "a:5" that share every key |
| Publication.PublishedAllKeeps | src/ws_collab/service.py:3907-3936 | any appends of any attempts keep the streams good, never lose a key, and leave every key they published in its stream's history |
| Publication.ResultPlanned | src/ws_collab/service.py:5497-5520 | the result is published first, and of a partial alone, with the item's text |
| Publication.StagesPlannedIff | src/ws_collab/service.py:5853-5955 | of a final also its resolution and, last, what was heard; that it was detected and filtered out exactly when it is an echo, and its accuracy exactly when that echo was expected |
| Publication.SuppressedPlanIs | src/ws_collab/service.py:5545-5590 | of a suppressed item its suppression alone, in the audit |
| Publication.DoneIs | src/ws_collab/service.py:5497-5520 | an attempt that fails has got the appends done that come before the failing one |
| Publication.SuccessSettles | src/ws_collab/service.py:5503-5541 | a successful attempt leaves every record of its item in the streams, however much earlier attempts had done |
| SpeechPauses.SilencePositionIs | src/ws_collab/captioner.py:980-1000 | a silence goes right after its prefix if the text begins with it, or else to the first place by which the text has the letters and digits of the prefix, or else after as many words |
| SpeechPauses.WordEndsAre | src/ws_collab/captioner.py:998-1000 | the word ends are all the offsets past a character other than white space at which the text ends or has white space |
| SpeechPauses.CarriedOverIs | src/ws_collab/captioner.py:1035-1047 | an earlier silence that is not sent again is moved to where the text that came before it ends; one between utterances stays |
| SpeechPauses.ResentIs | src/ws_collab/captioner.py:1018-1026 | a silence sent again with a changed text is moved as the earlier one was placed |
| SpeechPauses.PreservedIs | src/ws_collab/captioner.py:1027-1060 | the merged silences are, in order, the earlier ones that are not sent again and then all that are sent |
| SpeechPauses.RevalidatesIff | src/ws_collab/captioner.py:1003-1066 | the merged silences pass validation again exactly when every one carried over from between utterances lies within the new text |
| SpeechPauses.ShrunkTextFailsRevalidation | src/ws_collab/captioner.py:1035-1047 | a final shorter than the partial before it fails that validation |
| CaptionRuns.ReactSafe | src/ws_collab/captioner.py:736-802 | at every point of every reaction a crash would find each pending final on disk or its records in the streams |
| CaptionRuns.ExactlyOnce | src/ws_collab/captioner.py:736-802 | over every run of deliveries, retries, publish failures, crashes between any two effects or inside an append but not right before its newline, and recoveries: no pending final is lost, completed means published or suppressed, and no stream holds a key twice |
| CaptionRuns.HeldOnceIffAllowed | src/ws_collab/jsonl_store.py:178-201 | the exception is exact: after a crash inside a keyed append of any step, making that append again leaves each key with one record exactly when the crash was not right before the newline |
| CaptionRuns.FreshWorldOk | src/ws_collab/captioner.py:606-641 | a fresh captioner with empty streams is a state such runs may begin in |
| CaptionOrder.ReactStages | src/ws_collab/captioner.py:1080-1215 | every state along every step, saved or in memory, keeps the highest seq, the revisions and the finals of each session it keeps |
| CaptionOrder.StepKeepsOrder | src/ws_collab/captioner.py:664-698 | so does every step of a run, with a crash and a restart from the state file among them |
| CaptionOrder.AcceptedSeqIsNew | src/ws_collab/captioner.py:1080-1170 | over every run, while a session is kept, a freshly accepted seq exceeds that of every item taken up and acknowledged before, those pushed out of the window of 2048 included, but for a final that took the place of one with a smaller seq |
| CaptionOrder.KeptAdvances | src/ws_collab/captioner.py:1142-1160 | over every run, while an utterance is kept it shows the accepted item or a later revision, and a final is never replaced |
| CaptionOrder.AcceptedRevisionsIncrease | src/ws_collab/captioner.py:1146-1160 | over every run, while an utterance is kept, accepted revisions strictly increase and nothing is accepted after a final |
| CaptionOrder.OrderHoldsIff | src/ws_collab/captioner.py:1172-1193 | after an acknowledged acceptance everything accepted next is later, exactly when no final with a smaller seq is held under the key |
| CaptionOrder.UnrelatedKeepPlace | src/ws_collab/captioner.py:713-718 | that cannot happen unless one session id continues the other |
| CaptionOrder.RecordsHeldText | src/ws_collab/captioner.py:1172-1193 | an accepted or retried final publishes the text of the item held under its key, and no other |
| CaptionOrder.SharedKeyBreaksOrder | src/ws_collab/captioner.py:1172-1193 | a delivery under a shared key that is acknowledged, recorded nowhere, and followed by the acceptance of a smaller seq |
| CaptionOrder.AcknowledgedSettles | src/ws_collab/captioner.py:736-772 | a delivery acknowledged as accepted or retried has all records of its key in the log, or was suppressed |
| CaptionOrder.AcknowledgedForGood | src/ws_collab/captioner.py:736-802 | and they stay recorded over every later run |
| CaptionUptake.AcceptsIff | src/ws_collab/captioner.py:1086-1162 | an item of a session is accepted exactly when policy lets it through, it is no retry of a pending final, its seq exceeds every seq of the session and it is a newer revision of an utterance that is not final |
| CaptionUptake.NewIsTakenUp | src/ws_collab/captioner.py:1162-1208 | such an item, if it fits and can be published, is acknowledged as accepted, its text is in a record with its key, and its utterance, while kept, shows its text and revision |
| CaptionUptake.RevisionsTakenUp | src/ws_collab/captioner.py:1080-1215 | so is each of any number of revisions of one utterance, delivered one after the other |
| CaptionUptake.SilencesAreKept | src/ws_collab/captioner.py:1162-1208 | the merged silences of an accepted item are kept with its utterance, and those of a final with its finalization, from when it is saved as pending |
| CaptionUptake.RepeatDoesNothing | src/ws_collab/captioner.py:1086-1092 | a repeated seq is acknowledged and does nothing |
| CaptionUptake.OldIsRefused | src/ws_collab/captioner.py:1146-1160 | an item that is not new does nothing, and is told which limit it broke |
| CaptionUptake.SuppressedIsAudited | src/ws_collab/captioner.py:1093-1133 | a suppressed item is saved as processed and published in the audit alone |
| CaptionUptake.RetryCompletes | src/ws_collab/captioner.py:736-772 | the retry of a pending final publishes the text held and completes it, or leaves it pending with one more failed attempt |
| CaptionUptake.ResumeCompletes | src/ws_collab/captioner.py:774-801 | recovery does the same for a pending final that validates, and its seq is then processed in its session, known or not |
| CaptionUptake.FlushSaves | src/ws_collab/captioner.py:700-734 | the save at the end of a batch brings the disk up to the memory, and every pending final stays |
| CaptionOrder.UnpublishedRetry | src/ws_collab/captioner.py:1134-1208 | what a retry of an accepted item is told when it could not be published, in each case |
| CaptionOrder.RetryTakesUpIff | src/ws_collab/captioner.py:1134-1208 | the retry takes it up exactly when it is a final and its key was free or its utterance is no longer kept; otherwise it is acknowledged and changes nothing |
| CaptionOrder.PartialNeverPublished | src/ws_collab/captioner.py:1158-1208 | a partial acknowledged on its retry though nothing of it was ever published |
| CaptionDelivery.Service.Publish | src/ws_collab/service.py:3907-3936 | publishing any event is one idempotent append to its stream; a failure changes nothing |
| CaptionDelivery.Service.PublishItem | src/ws_collab/service.py:5497-5541 | makes the appends of the attempt, in order, up to the one that fails |
| CaptionDelivery.BrowserCaptioner.constructor | src/ws_collab/captioner.py:606-662 | a captioner begins with what `_prune` keeps of its state file |
| CaptionDelivery.BrowserCaptioner.Prune | src/ws_collab/captioner.py:664-698 | keeps pending finalizations always, the most recent completed ones, and the most recent sessions with their windows |
| CaptionDelivery.BrowserCaptioner.CompleteFinalization | src/ws_collab/captioner.py:736-772 | publishes, then saves the finalization as completed; on failure saves one more attempt; the save keeps what `_prune` keeps of the state it finds |
| CaptionDelivery.BrowserCaptioner.Ingest | src/ws_collab/captioner.py:1080-1215 | one delivered item has exactly the reaction `Captions.React`, in memory, on disk and in the streams, and each of its saves keeps what `_prune` keeps of the state it finds |
| CaptionDelivery.BrowserCaptioner.IngestBatch | src/ws_collab/captioner.py:1068-1232 | an empty batch, one of more than 50 items or with an invalid one is refused and does nothing; any other is a run: its deliveries in order up to the first that fails, then a save if any was taken up; it is answered for each session with the end of its unbroken seqs, and with an error exactly when a delivery failed or a session is lost, by the condition of `BatchLosesIff` |
| CaptionDelivery.HighestContiguous | src/ws_collab/captioner.py:971-976 | the last seq up to which all have been processed |
| CaptionBatches.KeptIff | src/ws_collab/captioner.py:664-674 | with distinct times a save keeps a session exactly when it was seen in the last seven days and fewer than 128 such sessions were seen later |
| CaptionBatches.CompletedKeptIff | src/ws_collab/captioner.py:681-697 | with distinct times a save keeps a completed finalization exactly when fewer than 2048 were updated later, and every pending one |
| CaptionBatches.BatchLosesIff | src/ws_collab/captioner.py:1080-1225 | a session of a batch that did not fail is gone at its end exactly under the stated condition on the state before the batch and on which items were taken up |
| CaptionBatches.StaleSessionLost | src/ws_collab/captioner.py:1086-1092 | a duplicate of a session not seen for seven days, then the first item of a new session: the first session is gone |
| CaptionBatches.CrowdedSessionLost | src/ws_collab/captioner.py:664-674 | the same batch when 127 other sessions were seen later, all within minutes: the first session is gone too |
| CaptionDelivery.BrowserCaptioner.ResumeOne | src/ws_collab/captioner.py:786-802 | one pending finalization is resumed as `Captions.React` says, and its save keeps what `_prune` keeps of the state it finds |
| CaptionDelivery.BrowserCaptioner.RecoverAll | src/ws_collab/captioner.py:785-803 | each chosen finalization is resumed once, in order, one failure not stopping the others; what is done is a run |
| CaptionDelivery.BrowserCaptioner.RecoverPending | src/ws_collab/captioner.py:774-803 | of at most `limit` pending finalizations exactly those that pass validation and are published leave the pending ones; memory, state file and streams end as after the run that resumes each of them once |
| SpeechChunks.SentenceEndIsFirst | src/ws_collab/language_chat.py:1157-1158 | the end found is that of the first sentence followed by white space, its closing marks included |
| SpeechChunks.StripIs | src/ws_collab/language_chat.py:1140-1143 | stripping takes the white space off both ends and no more |
| SpeechChunks.StopsAndClosers | src/ws_collab/language_chat.py:1155-1157 | which characters stop a sentence and which close it |
| SpeechChunks.CutIs | src/ws_collab/language_chat.py:1155-1169 | a buffer is cut after its first sentence if that can be spoken at once, or else at the last space within 320 characters if it is longer, or else only at the end of the reply |
| SpeechChunks.ChunkedKeeps | src/ws_collab/language_chat.py:1155-1169 | cutting loses nothing but white space, every piece is nonblank and at most 320 characters, and the final cut empties the buffer |
| SpeechChunks.StreamedKeeps | src/ws_collab/language_chat.py:1155-1184 | however a reply is cut into deltas, the pieces in order and then the buffer hold it up to white space |
| SpeechChunks.StreamedSpeakable | src/ws_collab/language_chat.py:1155-1184 | every piece of a streamed reply is nonblank and at most 320 characters |
| SpeechChunks.FinishedKeeps | src/ws_collab/language_chat.py:1297-1297 | when the reply is finished the pieces alone hold all of it |
| ChatRuns.TrimmedKeepsLast | src/ws_collab/language_chat.py:576-580 | trimming never removes the last message |
| ChatRuns.VoiceKeeps | src/ws_collab/language_chat.py:1140-1169 | queueing sentences keeps the queue ordered, evicts nothing live, adds only at the end and loses no text |
| ChatRuns.VoiceQueuesChunks | src/ws_collab/language_chat.py:1140-1169 | the pieces that fit are queued in order, all of them exactly when there is room |
| ChatRuns.StepKeeps | src/ws_collab/language_chat.py:484-1341 | every call and every step of a request keeps the invariant and moves messages, pieces and generations only as allowed |
| ChatRuns.RunKeeps | src/ws_collab/language_chat.py:484-1341 | so does every run |
| ChatRuns.StaleForever | src/ws_collab/language_chat.py:1137-1138 | a request that may no longer act never may again, and its deltas, completion and failure then change nothing at all |
| ChatRuns.RequestTouchesItsOwn | src/ws_collab/language_chat.py:1171-1184 | a step of a request touches at most the one message its generation ever had |
| ChatRuns.OneMessageToAGeneration | src/ws_collab/language_chat.py:662-716 | a generation keeps its message over every run, shares it with no other, and every piece queued under it is of that message |
| ChatRuns.SettledForever | src/ws_collab/language_chat.py:1303-1308 | a message that is not current is never changed again |
| ChatRuns.StreamingIsLast | src/ws_collab/language_chat.py:703-709 | in every reachable state a streaming message is the last one stored, and its request may act |
| ChatRuns.PlaybackInOrder | src/ws_collab/language_chat.py:819-860 | over every run pieces keep place and text and only move pending, playing, ended; live ones are in the queue of at most 128, ended ones first, and only the first live one may be playing |
| ChatRuns.ReplySpokenWhole | src/ws_collab/language_chat.py:1171-1309 | if speech is left on from a request to its completion, the pieces queued for it hold the whole reply in order, up to white space |
| ChatRuns.AgentSpeechFits | src/ws_collab/language_chat.py:749-793 | agent speech is accepted exactly when it makes at most 128 pieces; otherwise its message and first 128 pieces stay |
| ChatRuns.ManySentencesRefused | src/ws_collab/language_chat.py:749-793 | 129 short sentences are such a text: refused, with 128 of them queued |
| ChatRuns.AcknowledgedIff | src/ws_collab/language_chat.py:819-862 | a report that goes through is acknowledged exactly when its piece is then in the state it says |
| ChatRuns.SubmittedIsAsked | src/ws_collab/language_chat.py:718-735 | submitted text, joined to what was pending, becomes the question of a new request; a reply in the way is interrupted and nothing is left to be spoken |
| ChatRuns.UnstoredStaysPending | src/ws_collab/language_chat.py:672-678 | when the request cannot be stored the text stays pending |
| ChatRuns.EndsInOrder | src/ws_collab/language_chat.py:829-838 | a piece ends exactly when every piece before it has; otherwise the report is refused and changes nothing |
| ChatReplies.DeltaGoesThroughIff | src/ws_collab/language_chat.py:1171-1184 | a delta is stored exactly when its request may act and the reply stays within 32768 characters, and goes through when, besides, spoken replies are off or its pieces fit the queue |
| ChatReplies.ReplyHoldsDeltas | src/ws_collab/language_chat.py:1171-1306 | from the beginning of a request, over any run in which it stays current, its message holds the texts of its deltas in order; and when it completes that is what is stored, with the right status |
| ChatReplies.CompletedIff | src/ws_collab/language_chat.py:1287-1306 | a completion goes through exactly when the reply is not blank and its last pieces fit; it then has its status and its content |
| ChatReplies.FailedIs | src/ws_collab/language_chat.py:1312-1341 | a failure leaves the text there is, marked as failed, under a new generation with nothing live |
| ChatReplies.UnstoredFails | src/ws_collab/language_chat.py:1287-1341 | a completion that cannot be stored raises, and the failure that follows marks the reply as failed |
| ChatSessions.OthersRefused | src/ws_collab/language_chat.py:476-482 | another browser, or the owner too late, is refused and changes nothing |
| ChatSessions.StartsIff | src/ws_collab/language_chat.py:484-512 | a start is granted exactly to whoever asks for an idle session, to the owner, and after the lease has run out to anyone if what was going on can be stored |
| ChatSessions.HeartbeatRenews | src/ws_collab/language_chat.py:804-866 | a heartbeat keeps the lease for its full time from then on |
| ChatSessions.IdleIs | src/ws_collab/language_chat.py:804-866 | a heartbeat about no piece, or one that is unknown, renews the lease and does nothing else |
| ChatSessions.ReportIs | src/ws_collab/language_chat.py:822-861 | what a report about a piece does to it, to the lease and to the time of the echo, and when it is refused |
| ChatSessions.BrokenEnds | src/ws_collab/language_chat.py:838-862 | a speech error of the first live piece ends the session |
| ChatSessions.InterruptIs | src/ws_collab/language_chat.py:514-570 | interrupting marks the reply, cancels exactly what is live and holds off captions for the time of an echo |
| ChatSessions.StopIs | src/ws_collab/language_chat.py:538-558 | stopping ends the session besides, even when the history cannot be stored |
| ChatSessions.AbortIs | src/ws_collab/language_chat.py:284-293 | a callback that raises ends the session but for the pending text |
| ChatSessions.MuteIs | src/ws_collab/language_chat.py:313-337 | muting cancels exactly what is live in an active session and nothing else |
| ChatSessions.CaptionTakenIff | src/ws_collab/language_chat.py:940-979 | a caption is taken exactly when nothing is current or live, the echo tail is over, the lease runs and there is room; it follows what is pending |
| ChatSessions.TurnBeginsIff | src/ws_collab/language_chat.py:1023-1052 | a tick asks the pending text exactly when the speaker has paused long enough and the request can be stored; when it cannot the session ends |
| ChatSessions.TickEnds | src/ws_collab/language_chat.py:1023-1030 | a tick after the lease has run out ends the session |
| ChatSessions.AgentHeardIff | src/ws_collab/language_chat.py:749-799 | another agent is heard exactly when the lease runs, nothing else is being said, replies are spoken and its message can be stored and fits the queue; for the other reasons a refusal changes nothing |
| ChatSessions.SendsIff | src/ws_collab/language_chat.py:737-747 | what is pending is sent exactly when its browser owns the session, it is not blank and it can be stored |
| ChatSessions.SentIsAsked | src/ws_collab/language_chat.py:737-747 | it is then the question of a new request |
| ChatSessions.SubmitsIff | src/ws_collab/language_chat.py:718-735 | when submitted text goes through |
| ChatSessions.HistoryReplacedIff | src/ws_collab/language_chat.py:407-436 | a history within the limits replaces that of a stopped session, and is then all it holds |
| ChatSessions.TrimmedLeast | src/ws_collab/language_chat.py:576-580 | trimming drops as few messages as it can |
| ChatSessions.QueuedIs | src/ws_collab/language_chat.py:1140-1153 | a full queue gives up its oldest piece only, once that has ended |
| LanguageChats.LanguageChat.constructor | src/ws_collab/language_chat.py:146-192 | a new conversation is the fresh state |
| LanguageChats.LanguageChat.TrimLocked | src/ws_collab/language_chat.py:576-580 | drops messages from the front until 100 messages and 131072 characters are left, as `Chat.Trimmed` says |
| LanguageChats.LanguageChat.EnqueueLocked | src/ws_collab/language_chat.py:1140-1153 | a piece goes to the end; a full queue first loses its first ended piece, and refuses if there is none |
| LanguageChats.LanguageChat.SentencesLocked | src/ws_collab/language_chat.py:1155-1169 | the loop over the buffer queues what `Chat.Voice` says and ends |
| LanguageChats.LanguageChat.CutShortLocked | src/ws_collab/language_chat.py:514-536 | the generation moves on, the current message is interrupted and let go of, live pieces are cancelled |
| LanguageChats.LanguageChat.BeginLocked | src/ws_collab/language_chat.py:662-716 | the pending text and an empty reply enter the history under a new generation; undone, but for the generation, when it cannot be stored |
| LanguageChats.LanguageChat.Start | src/ws_collab/language_chat.py:484-512 | starts or goes on for the owner, ends a session whose lease ran out, refuses another browser |
| LanguageChats.LanguageChat.Stop | src/ws_collab/language_chat.py:550-558 | only the owner stops a session, and it stops even when the history cannot be stored |
| LanguageChats.LanguageChat.Interrupt | src/ws_collab/language_chat.py:560-570 | the owner cancels the reply and clears the pending text |
| LanguageChats.LanguageChat.SubmitText | src/ws_collab/language_chat.py:718-735 | joins the text to what is pending and begins, cancelling a reply in the way |
| LanguageChats.LanguageChat.SendNow | src/ws_collab/language_chat.py:737-747 | begins with what is pending, cancelling a reply in the way |
| LanguageChats.LanguageChat.SpeakAgent | src/ws_collab/language_chat.py:749-799 | stores and queues speech of another agent when nothing is live and speech is on |
| LanguageChats.LanguageChat.Heartbeat | src/ws_collab/language_chat.py:819-866 | acknowledges pieces of the current generation in order only, and says whether it did; a speech error ends the session |
| LanguageChats.LanguageChat.Configure | src/ws_collab/language_chat.py:313-337 | muting an active session cancels what is live and clears the buffer |
| LanguageChats.LanguageChat.SetHistory | src/ws_collab/language_chat.py:407-436 | replaces the history of a stopped session within its limits |
| LanguageChats.LanguageChat.OnCaption | src/ws_collab/language_chat.py:940-979 | takes up a caption only when nothing is current or live and the echo tail is over |
| LanguageChats.LanguageChat.TickOnce | src/ws_collab/language_chat.py:1023-1052 | ends a session whose lease ran out, begins a settled turn, and stops the session when either fails |
| LanguageChats.LanguageChat.Delta | src/ws_collab/language_chat.py:1171-1184 | a delta of a request that may act extends its message and queues its sentences; any other changes nothing |
| LanguageChats.LanguageChat.Finish | src/ws_collab/language_chat.py:1287-1306 | a reply that is not blank is queued to its end, gets its status and is let go of once stored |
| LanguageChats.LanguageChat.Fail | src/ws_collab/language_chat.py:1312-1341 | the reply is marked failed, the generation moves on and live pieces are cancelled |
| LanguageChats.LanguageChat.Abort | src/ws_collab/language_chat.py:284-293 | a callback that raises ends the session |
| ServerSentEvents.ReadStream | src/ws_collab/language_chat.py:1210-1257 | the nested loops over chunks and lines give what `Chunked` says, and end |
| ServerSentEvents.WholeIsLineByLine | src/ws_collab/language_chat.py:1227-1257 | reading a text at once is receiving its lines one by one, the last without its newline, then dispatching what is left |
| ServerSentEvents.CutIsWhole | src/ws_collab/language_chat.py:1236-1257 | a stream within the limits is read the same chunk by chunk as whole |
| ServerSentEvents.CutDoesNotMatterIff | src/ws_collab/language_chat.py:1236-1249 | a stream gives the same payloads and result for every way of cutting it exactly when no line the reader gets to is longer than 65536 |
| ServerSentEvents.EndNeedsNoNewline | src/ws_collab/language_chat.py:1246-1257 | the last line and the last event need no newline |
| StreamedEvents.ReadsWhatWasWritten | src/ws_collab/language_chat.py:1210-1257 | however events are written (with or without a space, other fields between, carriage returns) and cut, the payloads are their data lines joined by newlines, in order, up to the first payload that ends the stream |
| StreamedEvents.PayloadsOf | src/ws_collab/language_chat.py:1214-1222 | any events have such payloads |
| StreamedEvents.MarkerFinishes | src/ws_collab/language_chat.py:1215-1220 | a stream whose handler never ends is finished by the marker |
| StreamedEvents.OversizedFails | src/ws_collab/language_chat.py:1228-1234 | an event with more than 65536 characters of data fails the stream |
| MergeMailboxes.ApplyFilterRules | src/ws_collab/service.py:4756-4815 | in order exactly the messages stay for which there are no rules, or whose first matching rule relays, or that none matches under a relaying policy |
| MergeMailboxes.RelaysIff | src/ws_collab/service.py:4803-4814 | a filter relays exactly those |
| MergeMailboxes.FilteredSelects | src/ws_collab/service.py:4803-4814 | filtering selects exactly those, in order and each as often as it occurs |
| MergeMailboxes.MailboxMessages | src/ws_collab/service.py:4817-4910 | reading ends for every graph of merges and gives what `Answer` says: the text filter before the limit for a virtual mailbox, all filters after it for a stream |
| MergeMailboxes.ForwardersAreRoute | src/ws_collab/service.py:4864-4874 | a message arrives with exactly the mailboxes of its path as its forwarders |
| MergeMailboxes.RouteIsSimple | src/ws_collab/service.py:4840-4857 | a path meets no virtual mailbox twice, so no mailbox ever finds itself among the forwarders |
| MergeMailboxes.PathsAreExact | src/ws_collab/service.py:4844-4859 | the paths followed are exactly the simple merge paths |
| MergeMailboxes.PathsAreDistinct | src/ws_collab/service.py:4844-4859 | no path is followed twice |
| MergeMailboxes.ProducedIsDelivered | src/ws_collab/service.py:4837-4876 | what a mailbox forwards is, up to order, what each simple path carries to it |
| MergeMailboxes.MailboxIsExact | src/ws_collab/service.py:4817-4886 | a reader gets each leaf message once for every simple merge path all of whose filters relay it, and nothing else |
| MergeMailboxes.MergeReads | src/ws_collab/service.py:4838-4872 | a merge reads the mailboxes it lists, and one that merges all the visible ones |
| MergeMailboxes.MergeIsOrdered | src/ws_collab/service.py:4860-4860 | a merge is read in the order of time, whatever the limit |
| MergeMailboxes.SortedIsStable | src/ws_collab/service.py:4860-4860 | messages of one time keep the order they were gathered in |
| MergeMailboxes.LimitKeepsLatest | src/ws_collab/service.py:4875-4886 | of a merge a reader gets as many messages with its text as the limit allows, and none left out is later than one kept |
| MailboxReading.AnswerSelects | src/ws_collab/service.py:4875-4910 | of a virtual mailbox a reader gets the messages with the text that fewer than the limit such messages follow; of a stream those that pass the filters and that fewer messages looked among follow |
| EventIds.EncodeCrockford | src/ws_collab/ids.py:27-32 | the loop gives the value's digits in base 32, most significant first |
| EventIds.DigitsAre | src/ws_collab/ids.py:22-22 | the digits are those of Crockford's base 32, in the order of their codes |
| EventIds.EncodedDigit | src/ws_collab/ids.py:27-32 | each digit tells how often its power of 32 goes into the number |
| EventIds.Mint.NewEventId | src/ws_collab/ids.py:35-60 | the identifier is that of the next mark: a clock that stands still or goes back counts up, and an overflow moves the time on |
| EventIds.EncodedInOrder | src/ws_collab/ids.py:27-32 | numbers that fit are ordered as their digits are |
| EventIds.OrderIff | src/ws_collab/ids.py:27-60 | two identifiers are in order exactly when their times as far as ten digits go, and then their random parts, are |
| EventIds.IdsIncrease | src/ws_collab/ids.py:35-60 | over every run of clock readings a later identifier is greater exactly when what it shows is, and so whenever no multiple of 2^50 milliseconds lies between the two |
| EventIds.MarksFollowClock | src/ws_collab/ids.py:45-58 | over every run, while the random parts last, an identifier carries the latest time the clock has told, with the random part drawn for it or the one after the last |
| EventIds.AheadOfClock | src/ws_collab/ids.py:45-58 | identifiers get ahead of the clock only when the random parts of a time run out, a millisecond each time |
| EventIds.EventIdTimestampMs | src/ws_collab/ids.py:63-69 | reads the first ten characters as a number, in either case, or fails |
| EventIds.TimestampIffFits | src/ws_collab/ids.py:63-69 | the time read back is the time encoded exactly when it is below 2^50 |
| EventIds.OrderEnds | src/ws_collab/ids.py:27-60 | at every multiple of 2^50 milliseconds the next identifier is below the one before it |
| RateLimit.TokenBucket.Take | src/ws_collab/security.py:55-69 | tokens come back at the rate up to the capacity, and an amount is admitted exactly when there are that many |
| RateLimit.RateLimiter.Limit | src/ws_collab/security.py:248-256 | each caller is charged on its own bucket, which starts full |
| RateLimit.RunKeeps | src/ws_collab/security.py:55-69 | over every run with a clock that does not go back each bucket holds between no tokens and its capacity |
| RateLimit.WindowBound | src/ws_collab/security.py:55-69 | in any window of any run a caller is admitted at most the capacity and what comes back between its first and last request |
| RateLimit.LimiterBound | src/ws_collab/security.py:248-256 | in seconds: at most the rate for each second of the window, and once the rate or one request |
| RateLimit.PatientIsAdmitted | src/ws_collab/security.py:55-69 | after any run a request is admitted once as many tokens have come back as it costs, if there can be that many |
| RateLimit.NewIsFull | src/ws_collab/security.py:248-256 | a caller not seen before is admitted up to the capacity and no more |
| RateLimit.OthersUntouched | src/ws_collab/security.py:248-256 | what one caller does leaves the others as they were |
| MicFloor.LocalMicFloor.Apply | src/ws_collab/captioner.py:1733-1777 | a report of the owner that is not later is refused as stale or repeated; any other sets the floor |
| MicFloor.LocalMicFloor.Status | src/ws_collab/captioner.py:1779-1794 | blocked while speech is heard or its end hangs over, unless stale |
| MicFloor.OnlyRecordsMatter | src/ws_collab/captioner.py:1742-1752 | whoever had the floor before, and however reports of one owner are repeated and reordered, the floor is what those that set a new record make of it |
| MicFloor.AcceptedIffRecord | src/ws_collab/captioner.py:1742-1752 | a report is accepted exactly when it is later than every one before it; the first of a new owner always is |
| MicFloor.RefusedAs | src/ws_collab/captioner.py:1742-1752 | a refused report is told whether it repeats the latest of its owner's or comes before one |
| MicFloor.BlockedOnlyLately | src/ws_collab/captioner.py:1779-1794 | a blocked floor accepted a report no longer ago than it takes to go stale |
| MicFloor.HangoverHolds | src/ws_collab/captioner.py:1762-1768 | after an accepted end of speech the floor is blocked exactly for the hangover, cut short only by staleness or another accepted report |
| MicFloor.SpeechBlocks | src/ws_collab/captioner.py:1779-1794 | after an accepted report of speech the floor is blocked until another is accepted or it goes stale |
| MicFloor.QuietDoesNotBlock | src/ws_collab/captioner.py:1762-1777 | other reports do not block; silence lets an earlier hangover run out, anything else clears it |
| MicFloor.AcquiredIff | src/ws_collab/captioner.py:1742-1760 | the floor is acquired exactly when speech is reported that its owner was not known to be speaking |

## Left out

- LogStore.StreamState: an absent active file is an empty one, and input/output errors are not modelled.
- Rotation and retention are one step, but for the crash that LogCrash.RotationCrashOrphans is about.
- LogCrash: a lost or corrupted sidecar (`_rebuild_from_scan` over archived segments) and files changed by others are outside what the store promises.
- Cursor tokens that the store did not hand out: the decoder here refuses a character that is no digit, where Python's skips it.
- CaptionDelivery.BrowserCaptioner.IngestBatch: what makes an item valid is an argument, and when sessions were seen at one time it is not said which of them a save drops.
- CaptionDelivery.BrowserCaptioner.RecoverPending: does not say which pending finalizations are chosen when there are more than the limit, because the finalizations are a map without order; the source takes those stored first.
- CaptionDelivery.BrowserCaptioner.Prune: sessions and completed finalizations last touched at the same time may be kept in either order.
- Publication.SuppressedPlanIs: the audit record holds a digest of the text, where the model has the text.
- Publication: envelopes other than the fields the keys are made of, and what the disambiguator makes of a hypothesis.
- LanguageChats.LanguageChat: one agent; the display phase, timing traces, the audit and publish queue (a failing callback is the call `Abort`), echo matching and the memory of seen utterances (captions arrive after those gates) are left out.
- LanguageChats.LanguageChat.Configure: only the switch for spoken replies; a save that fails and is undone is a call that changes nothing.
- LanguageChats.LanguageChat.OnCaption: captions arrive after the gates for time, repeats and echo.
- LanguageChats.LanguageChat: message and piece identifiers are positions, where the source draws them at random; a piece is a value in the queue, while a message is one object in the history and as the current reply.
- ServerSentEvents.ReadStream: bytes that are not UTF-8, and what the handler does with a payload, which is a function of the payloads so far.
- MergeMailboxes.MailboxMessages: the field caches, and virtual mailboxes that read the server itself, a disk or a peer, which are leaves that hold records.
- MergeMailboxes.MailboxIsExact: for sources that hold at most 100000 messages; beyond that the oldest are cut off, as `Read` says.
- RateLimit: floating-point rounding.
- MicFloor: the texts and identifiers a status carries.
- The captioner instance registry, which would add only easy members: a sort, a cut and a choice.
- Routing, administration pages, browser supervision, encryption, redaction and configuration parsing.
