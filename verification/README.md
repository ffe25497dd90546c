# Verified models of the media server's core

A Dafny model of the state machines and codecs at the core of the media server, with proofs of what
they keep over complete runs of operations. `dafny verify dfyconfig.toml` checks the whole project.

| part of the server | files | what is proved |
|---|---|---|
| Usage lock `Use`, readers and writers with a baton | `UsageLock`, `UsageLockProofs`, `UsageLockProgress`, `UsageLockHistory` | over every interleaving of any number of threads: exclusion, reentrancy, the baton is honoured and reaches its writer, no deadlock and no lost wake-up, no reader stuck; what each call amounts to |
| Jitter buffer `RTPBuffer` | `JitterBuffer`, `JitterBufferProofs`, `JitterBufferHistory` | order and justified lateness over the whole delivery history, conservation of packets, the bounds of the queue and exactly when they hold; every decision from the operations before it |
| `CorrectionTracker`, typed text to speech | `CorrectionTracker`, `TrackerText`, `TrackerProofs`, `TrackerHistory` | UTF-8 bytes refine character editing, what is heard is what is displayed, the discipline of Stop and Speak, when each character and each pause speaks |
| AMF0 parser and serializer | `Amf0`, `Amf0Serializer`, `Amf0Proofs`, `Amf0Wire` | the round trip of every nested value under every way of cutting its bytes, and the form of the specification |
| `EventQueueSweeper` | `QueueSweeper`, `QueueSweeperProofs` | destruction is justified, ordered and timely against an arbitrary environment |
| `RembThrottler` | `RembThrottler`, `RembHistory` | the announced limit stays close to the true one; neither dialect repeats itself; exactly when each input is announced |
| Bit reader, bit writer, Exp-Golomb | `BitStream`, `BitStreamProofs` | the round trip across every refill of the caches, and the ue(v) code |
| WebSocket header, parser and frame | `WebSocketFrame`, `WebSocketProofs`, `WebSocketWire` | the round trip of header and masked payload under every way of cutting them, and the form of the standard |
| Ring `fifo` | `RingFifo` | the ring refines a bounded first-in first-out sequence |
| TMMBR and REMB bitrates | `BitrateCoding` | bounds of the exponent and mantissa coding, the wire round trip |
| Audio mixer | `AudioMixer`, `AudioMixerHistory`, `MixMinus` | no dangling sidebar under any control operations, the whole state from the operations alone; the vectorised tick against the scalar one; a sample clock without drift |

Where the source changes fields in place, the model is a class whose methods carry the same branches and
loops. Each method is proved equal to a function of the old state (`View() == Added(old(View()), p)`), and
the theorems are about those functions, over all sequences of operations.

Where the code differs from its own comments the model follows the code:

- `bigJumps` of the jitter buffer is cumulative. A packet in order does not clear it, though the header calls
  the late packets consecutive.
- Init of a listener with an unknown sidebar leaves the source as it was, though the log calls it send only.
- The mixer clears the rest of a source's buffer with a number of samples where bytes are expected, so half of
  it is cleared.

Properties that turned out false have their exact condition:

- At most 20 late packets between two resynchronisations: 20 more for each Reset in between
  (`RejectionsBounded`), and every such number is reached (`ResetsForgive`).
- The queue spans less than 500 ms after each insertion: exactly when no stale packet hides behind a fresh one
  (`QueueSpan`; `StaleHides` reaches one).
- The sticky dialect never announces the same limit twice: exactly from 10 bit/s up
  (`TmmbrRepeatsExactly`; `TmmbrRepeatsNine` is an input).
- Reading past the end of a bit stream is noticed: exactly when the buffer is empty (`OverrunNoticed`;
  `OverrunMissed` is an input).
- Put appends its value: exactly when the cache is not full, or the bits above the value fall onto ones of the
  cache (`PutAppendsExactly`; `SpoiledInput` is an input). A value that fits in its width has no such bits.
- A frame has room for its header and payload: exactly when the sum of their sizes has 32 bits (`FrameFits`;
  `LargestFrame` is an input). Append refuses exactly what does not fit: exactly when the sum of its check has 32 bits
  (`CheckRight`; `EmptyFrameAccepts` is an input).
- The grace time of the sweeper is the delay asked for: exactly up to 2147483 seconds (`DelayExact`;
  `DelayOverflows` is the next input).
- The WebSocket length takes its shortest form: for every length but 65535 (`ShortestExceptOne`).
- The exponent of a bitrate is the least whose mantissa fits: except between a scaled largest mantissa and the
  next power of two (`LeastExceptGaps`; `GapExample` is an input).
- The lanes past the end of a source's samples are zero: except in the last group of the buffer
  (`PaddingCleared`; `WideMixDiffers` is what it leads to).
- The samples issued are those due: exactly when no tick was capped (`ClockNeverDrifts`; `LateTickLoses` is an input).
- EndMixer removes a participant everywhere: exactly when it is a source or was nowhere (`EndMixerRemoves`;
  `EndMixerMisses` is a run).

## Model

| member | source | states |
|---|---|---|
| UsageLock.Use.constructor | mcu/include/use.h:38 | a new lock: nobody reads, nobody waits, no baton |
| UsageLock.Use.TryIncUse | mcu/include/use.h:41-48 | a reader is counted exactly when no baton is reserved; otherwise nothing changes and it sleeps |
| UsageLock.Use.DecUse | mcu/include/use.h:50-59 | the count never goes below zero, and reaching zero under a waiting writer reserves the baton |
| UsageLock.Use.BeginWait | mcu/include/use.h:61-65 | a writer announces itself before its first test |
| UsageLock.Use.TryEnter | mcu/include/use.h:66-73 | a writer enters exactly at count zero, and takes the baton with it |
| UsageLock.Use.GiveUp | mcu/include/use.h:89-100 | an expired writer leaves the waiting count and hands the baton back |
| UsageLockProofs.ActionMoves | mcu/include/use.h:41-120 | every atomic action of every operation, Unlock in three steps, is one of a few abstract moves |
| UsageLockProofs.OwnersKept | mcu/include/use.h:61-120 | each of the two mutexes always has the one holder its threads' positions say |
| UsageLockProofs.BatonKept | mcu/include/use.h:17-29 | a reserved baton means count zero and exactly one waiting writer, through every move |
| UsageLockProofs.QuietNoLostWakeUp | mcu/include/use.h:113-120 | moves that change no counter keep every sleeper's reason to be woken |
| UsageLockProofs.ReaderNoLostWakeUp | mcu/include/use.h:41-59 | readers coming and going keep every sleeper's reason to be woken |
| UsageLockProofs.WriterNoLostWakeUp | mcu/include/use.h:61-111 | writers coming, entering and giving up keep every sleeper's reason to be woken |
| UsageLockProofs.InvKept | mcu/include/use.h:41-120 | ownership, counts, baton and wake-up together are inductive over every enabled action |
| UsageLockProofs.ReachableInv | mcu/include/use.h:41-120 | they hold in every state of every interleaving from the initial one |
| UsageLockProofs.SectionExcludes | mcu/include/use.h:30-31 | a thread in the writer section excludes all readers, all other writers and every holder of either mutex |
| UsageLockProofs.BatonIsForOneWriter | mcu/include/use.h:50-59 | a reserved baton means nobody reads and exactly one writer waits, in every reachable state |
| UsageLockProofs.SleepingReaderHasReason | mcu/include/use.h:113-120 | a sleeping reader always has the baton, a writer in the section or an Unlock still owing its notification to wait for |
| UsageLockProofs.SleepingWriterHasReason | mcu/include/use.h:50-74 | a sleeping writer always has readers to wait for, or a DecUse that is about to notify it |
| UsageLockProofs.NestedIncUseNeverWaits | mcu/include/use.h:26-29 | a thread that already reads never sleeps in a nested IncUse, and its test counts it again |
| UsageLockProofs.ReaderWaitsOnlyForBaton | mcu/include/use.h:14-19 | a reader is held back if and only if the baton is reserved for some waiting writer |
| UsageLockProofs.ExpiredWriterHoldsNoBaton | mcu/include/use.h:86-100 | a writer that times out finds no baton reserved |
| UsageLockProofs.BatonHonoured | mcu/include/use.h:19-29 | once the count reached zero for a writer it stays zero until that very writer enters |
| UsageLockProofs.LastDecUseReserves | mcu/include/use.h:50-59 | the last DecUse under a waiting writer reserves the baton for it |
| UsageLockProofs.SomebodyCanStep | mcu/include/use.h:41-120 | no deadlock and no lost wake-up: whoever is inside an operation waits for readers that must still leave, or some thread can step |
| UsageLockProofs.OwnStepsReachSection | mcu/include/use.h:50-111 | the writer the baton is reserved for enters by its third own step, whatever the other threads do in between |
| UsageLockProofs.WayIn | mcu/include/use.h:41-111 | from every reachable reserved state, that writer and whoever holds the mutex reach the section in at most five steps |
| UsageLockProgress.WayOut | mcu/include/use.h:41-120 | from every reachable state at most thirteen steps end an IncUse, whatever it waits for: the mutex, the baton's writer or the notification of an Unlock |
| UsageLockProgress.BatonReturns | mcu/include/use.h:41-120 | behind a reserved baton, the steps that bring its writer in and its Unlock let the reader in |
| UsageLockProgress.UnlockWakes | mcu/include/use.h:113-120 | a reader asleep during a writer's section or Unlock is awake by the third own step of that writer, whatever other threads do |
| UsageLockHistory.UntimedHolds | mcu/include/use.h:61-74 | a call of WaitUnusedAndLock without a timeout is over only after its caller had the section |
| UsageLockHistory.GivesUpExpired | mcu/include/use.h:76-100 | a writer gives up only after its own timeout, in a call that was made with one |
| UsageLockHistory.UsesAddUp | mcu/include/use.h:41-59 | in every run each thread is counted as often as it called IncUse and has not called DecUse since |
| UsageLockHistory.CountNeverNegative | mcu/include/use.h:50-59 | whatever the calls, paired or not, the count is IncUse less the DecUse that something matched, never below zero |
| UsageLockHistory.CallsAllowed | mcu/include/use.h:41-120 | the model keeps no idle thread from calling, no reader from leaving and no sleeper from waking up by itself |
| JitterBuffer.Head | mcu/include/rtpbuffer.h:163-170 | the head of the queue is its least sequence number |
| JitterBuffer.RtpBuffer.constructor | mcu/include/rtpbuffer.h:330-344 | a new buffer is empty and expects nothing |
| JitterBuffer.RtpBuffer.Add | mcu/include/rtpbuffer.h:65-127 | change of source, lateness, resynchronisation, duplicate, insertion and eviction; false only for a late packet; exactly which packets are deleted |
| JitterBuffer.RtpBuffer.DropOverflow | mcu/include/rtpbuffer.h:269-302 | stale heads go until one is fresh, each deleted in turn, and the expected number is forgotten exactly if one went |
| JitterBuffer.RtpBuffer.DropHeads | mcu/include/rtpbuffer.h:271-283 | the loop deletes exactly the stale heads, in order |
| JitterBuffer.RtpBuffer.ClearPackets | mcu/include/rtpbuffer.h:305-313 | every queued packet is deleted once |
| JitterBuffer.RtpBuffer.Poll | mcu/include/rtpbuffer.h:155-215 | one turn of Wait: the head leaves when it is first, expected, overdue or hurried |
| JitterBuffer.RtpBuffer.Reset | mcu/include/rtpbuffer.h:234-252 | clears the cancellation and the counter, and on request the queue, whose packets are deleted, the number and the source |
| JitterBuffer.RtpBuffer.Clear | mcu/include/rtpbuffer.h:221-225 | deletes every queued packet and changes nothing else |
| JitterBuffer.RtpBuffer.HurryUp | mcu/include/rtpbuffer.h:227-232 | gaps are no longer waited for |
| JitterBuffer.RtpBuffer.Cancel | mcu/include/rtpbuffer.h:129-134 | nothing is handed out until a Reset |
| JitterBuffer.RtpBuffer.SetMaxWaitTime | mcu/include/rtpbuffer.h:260-264 | sets how long a gap is waited for |
| JitterBufferProofs.TrimmedKeeps | mcu/include/rtpbuffer.h:269-283 | a packet survives the overflow check if and only if some packet at or before it is fresh |
| JitterBufferProofs.InsertionBounds | mcu/include/rtpbuffer.h:109-127 | after an insertion the head is less than 500 ms older than the arrival, the new packet is kept, and only stale packets before it were dropped |
| JitterBufferProofs.QueueSpan | mcu/include/rtpbuffer.h:269-290 | the whole queue spans less than 500 ms if and only if freshness follows sequence order |
| JitterBufferProofs.QueueSpanPairwise | mcu/include/rtpbuffer.h:269-290 | when arrival times follow sequence order and the arrival is the newest, any two packets left are less than 500 ms apart |
| JitterBufferProofs.QueueKept | mcu/include/rtpbuffer.h:65-127 | queued keys are the packets' own numbers, none precedes the expected one, and the counter stays within 20, through every operation |
| JitterBufferProofs.StepBalance | mcu/include/rtpbuffer.h:65-313 | no operation creates or loses a packet: what was queued or came in is queued, handed out or deleted by the code |
| JitterBufferProofs.ReachableInv | mcu/include/rtpbuffer.h:65-313 | the queue, the ledger of packets and the order of deliveries are consistent in every state of every run |
| JitterBufferProofs.PacketsConserved | mcu/include/rtpbuffer.h:65-313 | as multisets, packets given to Add are those queued, delivered and deleted, each counted once |
| JitterBufferProofs.DeliveredInOrder | mcu/include/rtpbuffer.h:155-189 | between resynchronisations delivered numbers strictly increase, and nothing queued precedes the expected number |
| JitterBufferProofs.LatenessJustified | mcu/include/rtpbuffer.h:82-107 | a late packet repeats a delivered number, or precedes a delivery made by gap timeout, by HurryUp or first after a resynchronisation |
| JitterBufferProofs.RejectionsBounded | mcu/include/rtpbuffer.h:83-107 | in every run, without a resynchronisation in between, at most 20 late rejections and 20 more for each Reset, however interleaved |
| JitterBufferProofs.ToleratesLate | mcu/include/rtpbuffer.h:83-107 | up to 20 late packets are rejected one after another, and only the counter moves |
| JitterBufferProofs.ResetsForgive | mcu/include/rtpbuffer.h:234-252 | the bound is tight: for every number of Resets there is a run from the start, in one epoch, that reaches it |
| JitterBufferProofs.RunExists | mcu/include/rtpbuffer.h:65-313 | what any operations make of an empty buffer is reached by a run |
| JitterBufferProofs.StaleHides | mcu/include/rtpbuffer.h:269-290 | three arrivals after which the queue spans 600 ms |
| JitterBufferProofs.GapFilled | mcu/include/rtpbuffer.h:177-188 | when the awaited number arrives, the next call hands out that number whatever the time, and the arrival itself unless it was queued already; a new arrival pushes no packet out |
| JitterBufferProofs.DrainsInOrder | mcu/include/rtpbuffer.h:155-189 | past the timeouts, or hurried, what comes out is exactly the queue in ascending order |
| JitterBufferHistory.FlagsFollow | mcu/include/rtpbuffer.h:129-264 | cancelled from Cancel to Reset, hurried from HurryUp until the queue is found empty, the gap timeout last set |
| JitterBufferHistory.HandsOutExactly | mcu/include/rtpbuffer.h:155-215 | Wait hands out the head and moves the expected number exactly when it is first, expected, overdue or hurried and nothing cancelled it, told by the operations before |
| JitterBufferHistory.CancelledIsSilent | mcu/include/rtpbuffer.h:129-250 | nothing is delivered between a Cancel and the next Reset |
| JitterBufferHistory.SourceChange | mcu/include/rtpbuffer.h:72-80 | a packet of another source than the latest one is never late; nothing is expected after it and lateness is counted afresh |
| JitterBufferHistory.StraysCounted | mcu/include/rtpbuffer.h:74-107 | the counter holds the overtaken packets since the last Reset, change of source or twenty-first of them |
| JitterBufferHistory.LateExactly | mcu/include/rtpbuffer.h:82-107 | Add loses a packet for lateness if and only if it was overtaken and fewer than twenty were since |
| JitterBufferHistory.ForgetsExactly | mcu/include/rtpbuffer.h:72-290 | the expected number is forgotten if and only if the source changes, the twenty-first stray comes, an arrival pushes others out or a Reset clears |
| JitterBufferHistory.ArrivalQueued | mcu/include/rtpbuffer.h:109-127 | a late or already queued number leaves the queue as it was; any other enters and pushes out only packets before it that are 500 ms older |
| JitterBufferHistory.ClearsQueue | mcu/include/rtpbuffer.h:221-252 | Clear and a Reset that clears empty the queue, the settings do not touch it |
| CorrectionTracker.EraseLastChar | mcu/src/correctiontracker.cpp:21-29 | the backward scan removes what the recursive definition of the last character removes |
| CorrectionTracker.FindWords | mcu/src/correctiontracker.cpp:51-62 | the scan finds a letter or digit if there is one |
| CorrectionTracker.CountLoop | mcu/src/correctiontracker.cpp:64-76 | the loop counts the words of the text |
| CorrectionTracker.FindSentenceStart | mcu/src/correctiontracker.cpp:80-91 | the loop finds the start of the sentence around a position |
| CorrectionTracker.LineTracker.SpeakFrom | mcu/src/correctiontracker.cpp:102-108 | everything is said up to the end of the line, aloud only if it has words |
| CorrectionTracker.LineTracker.FinishCorrection | mcu/src/correctiontracker.cpp:110-114 | the correction closes and its phrase is said from its start |
| CorrectionTracker.LineTracker.AddChar | mcu/src/correctiontracker.cpp:126-175 | one character of input: line ends, deletion, completion of a phrase, the limit of pending words |
| CorrectionTracker.LineTracker.EraseOne | mcu/src/correctiontracker.cpp:140-164 | a deletion of said text opens a correction with Stop and the announcement, or moves it back |
| CorrectionTracker.LineTracker.Add | mcu/src/correctiontracker.cpp:116-178 | any byte string, also cut inside a character, is the fold of its pieces |
| CorrectionTracker.LineTracker.AddAt | mcu/src/correctiontracker.cpp:120-124 | one turn of the loop: the next character, and the rest still to come |
| CorrectionTracker.LineTracker.Tick | mcu/src/correctiontracker.cpp:180-186 | a stable correction is finished; the difference of times wraps at 64 bits |
| CorrectionTracker.LineTracker.Clear | mcu/src/correctiontracker.cpp:188-193 | the line and the correction are dropped without a word |
| TrackerText.CutAtChar | mcu/src/correctiontracker.cpp:12-19 | the length of the lead byte cuts well-formed text exactly at its characters |
| TrackerText.ErasedChar | mcu/src/correctiontracker.cpp:21-29 | erasing bytes back to a lead byte removes exactly the last character |
| TrackerText.SentenceBegins | mcu/src/correctiontracker.cpp:78-91 | the sentence found begins right after the last phrase end, or at the start of the line |
| TrackerText.SentenceStartChars | mcu/src/correctiontracker.cpp:80-91 | the byte scan returns the offset of the character where the sentence begins |
| TrackerText.HasWordsLetters | mcu/src/correctiontracker.cpp:50-62 | a text has words if and only if it holds a letter or a digit |
| TrackerText.TrimChars | mcu/src/correctiontracker.cpp:42-48 | trimming bytes is trimming characters, and loses no letter |
| TrackerText.CountChar | mcu/src/correctiontracker.cpp:64-76 | a further character adds a word exactly when it starts one |
| TrackerText.FoldChars | mcu/src/correctiontracker.cpp:120-124 | well-formed text is handled character by character, and what follows it afterwards |
| TrackerProofs.EditRefines | mcu/src/correctiontracker.cpp:116-178 | a step on bytes is the step on characters: same line, said and correction offsets, same actions |
| TrackerProofs.SettleRefines | mcu/src/correctiontracker.cpp:180-186 | a pause on bytes is the pause on characters |
| TrackerProofs.SessionAgrees | mcu/src/correctiontracker.cpp:116-193 | a whole session on bytes renders the cues of the session on characters |
| TrackerProofs.HeardIsDisplayed | mcu/src/correctiontracker.cpp:102-178 | with each re-said phrase replacing what was heard from its start, every finished line was heard as displayed, outside a correction the listener has the line as far as it was said, and the letters and digits in the texts actually spoken are those of the line displayed |
| TrackerProofs.RenderKeepsLetters | mcu/src/correctiontracker.cpp:102-108 | what is spoken of a phrase has its letters and digits, and silence means it had none |
| TrackerProofs.MadeOutIsHeard | mcu/src/correctiontracker.cpp:102-114 | letters made out of the Speak actions alone keep up with what was to be said: silent fragments have none |
| TrackerProofs.LineIsDisplay | mcu/src/correctiontracker.cpp:126-166 | the stored bytes are the UTF-8 of what an ordinary editor shows after the same input |
| TrackerProofs.SplitAtBoundary | mcu/src/correctiontracker.cpp:116-178 | cutting the input at a character boundary changes neither state nor actions |
| TrackerProofs.StopUntilCorrected | mcu/src/correctiontracker.cpp:116-193 | in every session, after a Stop nothing is spoken but the announcement until the correction finishes or Clear drops the line, and the voice is stopped exactly while a correction is open |
| TrackerProofs.PendingBounded | mcu/src/correctiontracker.cpp:172-175 | outside a correction at most one word more than the limit is pending |
| TrackerHistory.TickSays | mcu/src/correctiontracker.cpp:180-186 | in every session a Tick says the corrected phrase if and only if a correction is open and the display has not changed for the configured delay |
| TrackerHistory.CharacterSays | mcu/src/correctiontracker.cpp:126-175 | in every session, what each character makes the tracker say: line end, deletion of something heard, phrase end, blank after six words, nothing else |
| TrackerHistory.DeletionStops | mcu/src/correctiontracker.cpp:140-164 | in every session the deletion of something heard returns Stop and then the announcement, if one is wanted |
| TrackerHistory.CorrectionIsSentence | mcu/src/correctiontracker.cpp:78-164 | in every session the phrase under correction begins at the line's start or after a phrase end, and holds none up to where the deletions reached |
| TrackerHistory.CodePointsAreChars | mcu/src/correctiontracker.cpp:12-29 | the UTF-8 form of every code point (section 3 of RFC 3629) is one character to the tracker |
| TrackerHistory.LongFormsAreChars | mcu/src/correctiontracker.cpp:12-29 | so are the longer forms that the standard forbids |
| TrackerHistory.PhraseEnds | mcu/src/correctiontracker.cpp:31-35 | of all code points, the five marks and no other end a phrase |
| TrackerHistory.LettersAre | mcu/src/correctiontracker.cpp:50-62 | of all code points, ASCII letters and digits and all beyond ASCII but the ellipsis are worth speaking |
| TrackerHistory.WordsCounted | mcu/src/correctiontracker.cpp:64-76 | the count is the number of bytes that begin a run without space or tab |
| Amf0.ParseUint | mcu/src/amf.cpp:27-35 | the fixed-size integer parsers consume what they need and no more, as byte-by-byte feeding does |
| Amf0.ParseChars | mcu/src/amf.cpp:657-688 | the string parser takes its size, then exactly that many bytes, in any pieces |
| Amf0.ParseFields | mcu/src/amf.cpp:840-894 | the loop over keys and values equals feeding one byte at a time |
| Amf0.ParseParser | mcu/src/amf.cpp:184-271 | the marker chooses the value, which then receives the rest |
| Amf0.ParseNode | mcu/src/amf.cpp:1152-1211 | every kind of value consumes a buffer as it consumes its bytes one by one |
| Amf0.KeyLifts | mcu/src/amf.cpp:840-894 | an object between two values follows its key |
| Amf0.ValueLifts | mcu/src/amf.cpp:840-894 | an object holding a value follows it, and attaches it at its last byte |
| Amf0.ParserLifts | mcu/src/amf.cpp:184-271 | the nested parser of an object behaves as a parser of its own |
| Amf0.AmfParser.Parse | mcu/src/amf.cpp:184-271 | the object's state and the bytes consumed from one piece; an unknown marker is an exception; a complete value never changes |
| Amf0.AmfParser.ParseAgain | mcu/src/amf.cpp:184-189 | what a complete value does with further bytes: a Boolean throws, an object takes end markers only, the others take nothing |
| Amf0.Refed | mcu/src/amf.cpp:560-572 | fed again, a complete value stays as it is or throws |
| Amf0.RefedAsBefore | mcu/src/amf.cpp:840-894 | a complete object does with a byte what it did before it was complete |
| Amf0.RefedTakesNothing | mcu/include/amf.h:340-347 | complete numbers, strings, nulls and arrays take nothing |
| Amf0.AmfParser.GetObject | mcu/src/amf.cpp:273-293 | a complete value is handed out once, an incomplete one not at all |
| Amf0Serializer.Keys | mcu/src/amf.cpp:1318-1356 | the order in which a map is walked: each key once, ascending |
| Amf0Serializer.SizeOfListing | mcu/src/amf.cpp:989-1005 | the size does not depend on the order of the properties |
| Amf0Serializer.EncodedSize | mcu/src/amf.cpp:989-1039 | Serialize writes exactly the GetSize bytes, at every depth |
| Amf0Serializer.SizeSuffices | mcu/src/amf.cpp:989-1039 | a buffer of GetSize bytes is enough for every Serialize at every depth, nothing smaller is, and the rest is left over |
| Octets.NumberReadBack | mcu/src/amf.cpp:52-61 | the big-endian bytes of a number that fits in them read back as the number |
| Octets.BytesReadBack | mcu/src/amf.cpp:27-61 | any bytes are the big-endian bytes of the number they read as |
| Octets.ReadAs64 | mcu/src/amf.cpp:27-61 | eight bytes are read with the first one the most significant |
| Amf0Proofs.UintDecodes | mcu/src/amf.cpp:27-61 | the big-endian bytes of a number add up to it |
| Amf0Proofs.CharsDecode | mcu/src/amf.cpp:657-741 | a size-prefixed string is read back |
| Amf0Proofs.ValueEats | mcu/src/amf.cpp:840-894 | feeding a value through its holder feeds the value |
| Amf0Proofs.FieldsDecode | mcu/src/amf.cpp:840-899 | a list of keys and values is read back in order |
| Amf0Proofs.ObjectDecodes | mcu/src/amf.cpp:840-899 | an object ends exactly at its end marker, with its properties |
| Amf0Proofs.ArrayDecodes | mcu/src/amf.cpp:1152-1216 | an ECMA array ends exactly at its end marker, with its elements |
| Amf0Proofs.ValueDecodes | mcu/src/amf.cpp:184-293 | every well-formed value is complete at the last of its bytes, not before, and is that value |
| Amf0Proofs.RoundTrip | mcu/src/amf.cpp:184-293 | in any non-empty pieces, all bytes are consumed, the parser is complete exactly at the last, and the tree is rebuilt |
| Amf0Proofs.StopsAtEnd | mcu/src/amf.cpp:184-293 | of a value followed by anything, exactly GetSize bytes are consumed |
| Amf0Wire.EncodedOnWire | mcu/src/amf.cpp:530-1356 | the bytes of every value are those of sections 2.2 to 2.11 of the AMF 0 specification: markers, big-endian sizes, the count of an ECMA array, the end marker, at every depth |
| Amf0Wire.MarkersKnown | mcu/src/amf.cpp:184-271 | a first byte is accepted if and only if it is one of the six markers of the model |
| Amf0Wire.EndMarkerRequired | mcu/src/amf.cpp:855-870 | behind an empty key a byte is accepted if and only if it is 9, which completes the object with its properties |
| QueueSweeper.Started | mcu/include/eventqueuesweeper.h:86-104 | the period never exceeds the grace time or ten seconds, and up to 2147483 seconds it is positive exactly for a positive delay |
| QueueSweeper.PeriodExact | mcu/include/eventqueuesweeper.h:86-92 | up to 2147483 seconds the grace time is the delay, and a sweep comes every ten seconds or every grace time if that is shorter |
| QueueSweeper.DelayExact | mcu/include/eventqueuesweeper.h:90 | the grace time is the delay asked for if and only if that is at most 2147483 seconds |
| QueueSweeper.DelayOverflows | mcu/include/eventqueuesweeper.h:90-92 | one second more gives a negative grace time and period |
| QueueSweeper.EventQueueSweeper.constructor | mcu/include/eventqueuesweeper.h:228-234 | no countdown to begin with |
| QueueSweeper.EventQueueSweeper.StartSweeper | mcu/include/eventqueuesweeper.h:86-104 | the thread starts exactly for a grace time that is not zero, which up to 2147483 seconds means a positive delay |
| QueueSweeper.EventQueueSweeper.Sweep | mcu/include/eventqueuesweeper.h:138-221 | the effects of a sweep in order, and the countdowns it leaves; nothing without a manager |
| QueueSweeper.EventQueueSweeper.ReviewLoop | mcu/include/eventqueuesweeper.h:176-211 | the pass over referenced queues equals its definition entry by entry |
| QueueSweeper.EventQueueSweeper.PurgeLoop | mcu/include/eventqueuesweeper.h:213-220 | erasing while iterating leaves exactly the referenced countdowns |
| QueueSweeperProofs.SweepDeletes | mcu/include/eventqueuesweeper.h:138-211 | owners are deleted if and only if their queue is idle or its grace is over; only idle queues are destroyed |
| QueueSweeperProofs.SweepEntry | mcu/include/eventqueuesweeper.h:160-220 | a sweep moves each queue's countdown independently of all others |
| QueueSweeperProofs.OwnersBeforeQueue | mcu/include/eventqueuesweeper.h:152-161 | each destruction directly follows the deletion of that queue's owners |
| QueueSweeperProofs.AfterCounts | mcu/include/eventqueuesweeper.h:138-221 | over any sweeps, the map holds for each queue the countdown of its own history |
| QueueSweeperProofs.DestructionJustified | mcu/include/eventqueuesweeper.h:138-221 | owners go only if the queue was idle at that sweep's census, or missing at every sweep since one more than the grace time earlier |
| QueueSweeperProofs.OrphansReferenced | mcu/include/eventqueuesweeper.h:213-220 | after each sweep every countdown belongs to a referenced, missing queue |
| QueueSweeperProofs.DestructionTimely | mcu/include/eventqueuesweeper.h:86-221 | a queue missing from a sweep on loses its owners within the grace time and one period of that sweep |
| QueueSweeperProofs.GoneDeleted | mcu/include/eventqueuesweeper.h:86-221 | from the moment a queue disappears its owners have the grace time and two periods at most, with the delays of StartSweeper |
| RembThrottler.RembThrottler.constructor | mcu/include/rembthrottler.h:84-87 | nothing announced, no cap, no peer rate |
| RembThrottler.RembThrottler.SetPolicy | mcu/include/rembthrottler.h:91-94 | changes the dialect and nothing else |
| RembThrottler.RembThrottler.Reset | mcu/include/rembthrottler.h:97-105 | forgets everything but the dialect |
| RembThrottler.RembThrottler.SetPeerBitrate | mcu/include/rembthrottler.h:109-112 | remembers the peer's rate and nothing else |
| RembThrottler.RembThrottler.OnEstimateChanged | mcu/include/rembthrottler.h:123-160 | drop, step, period and the suppression of an unchanged value, with what is remembered in each case |
| RembThrottler.RembThrottler.SetMaxBitrate | mcu/include/rembthrottler.h:170-202 | the cap is always remembered, and announced by the dialect's rules against the last announcement |
| RembThrottler.AnnouncedStaysClose | mcu/include/rembthrottler.h:97-223 | after the first announcement the announced value never exceeds the true limit by more than the drop threshold, over all interleavings, resets included |
| RembThrottler.Remembered | mcu/include/rembthrottler.h:123-202 | between two announcements, without a reset, the throttle holds the value and time of the first |
| RembThrottler.TmmbrRepeats | mcu/include/rembthrottler.h:138-147 | announcing the same value again can only be a cap below 10 bit/s |
| RembThrottler.TmmbrRepeatsExactly | mcu/include/rembthrottler.h:170-202 | a cap that composes to the announced value is announced again if and only if that value is below 10 |
| RembThrottler.TmmbrRepeatsNine | mcu/include/rembthrottler.h:170-202 | a cap of 9 bit/s given twice to a new throttle is announced twice |
| RembThrottler.ResetAnnouncesNext | mcu/include/rembthrottler.h:96-105 | after a reset the next estimate or cap is announced whatever it is |
| RembThrottler.TmmbrNeverRepeats | mcu/include/rembthrottler.h:60-202 | under the sticky dialect two consecutive announcements from 10 bit/s up, without a reset in between, always differ |
| RembThrottler.RembRateLimited | mcu/include/rembthrottler.h:60-202 | under the periodic dialect a second announcement within 200 ms, without a reset in between, is a drop |
| RembThrottler.CapAnnouncedOnce | mcu/include/rembthrottler.h:170-202 | a cap redelivered any number of times is announced at most once |
| RembThrottler.EstimateAnnouncedOnce | mcu/include/rembthrottler.h:123-160 | an estimate redelivered any number of times is announced at most once |
| RembHistory.HistoryRecalled | mcu/include/rembthrottler.h:84-202 | cap, peer rate, measure and last announcement in the throttle are those of the inputs since its reset |
| RembHistory.EstimateSaid | mcu/include/rembthrottler.h:123-160 | an estimate is announced, as the lesser of it and the cap in force, if and only if it is the first, or newsworthy and not what a sticky dialect announced last |
| RembHistory.CapSaid | mcu/include/rembthrottler.h:170-202 | a cap is announced, as the lesser of it and the last measure, if and only if that is newsworthy against the last announcement |
| RembHistory.RembEstimates | mcu/include/rembthrottler.h:60-160 | periodic dialect: a congestion estimate at least three per cent lower goes out at once, any other only 200 ms after the last announcement |
| RembHistory.TmmbrEstimates | mcu/include/rembthrottler.h:60-160 | sticky dialect: a congestion estimate ten per cent lower, or twenty per cent higher and informative, goes out at once unless the limit stays the same |
| BitStream.BitReader.constructor | mcu/include/bitstream.h:17-26 | nothing cached |
| BitStream.BitReader.LoadCache | mcu/include/bitstream.h:95-147 | four, three, two or one bytes become the high bits of the cache; failure exactly on an empty buffer |
| BitStream.BitReader.TakeCached | mcu/include/bitstream.h:170-188 | shifts the bits out; the count wraps as a byte |
| BitStream.BitReader.Read | mcu/include/bitstream.h:27-45 | joins the rest of the cache with the next refill |
| BitStream.BitReader.CountZeros | mcu/include/bitstream.h:402-407 | the loop counts the zeros before the first one and ends with the stream |
| BitStream.BitReader.ReadSuffix | mcu/include/bitstream.h:408-411 | adds the suffix to the base of its length |
| BitStream.BitReader.Decode | mcu/include/bitstream.h:400-412 | the whole decoder as a function of the reader |
| BitStream.BitWriter.constructor | mcu/include/bitstream.h:203-221 | an empty writer over the given buffer; what a shift by a whole word gives is a parameter |
| BitStream.BitWriter.WriteCache | mcu/include/bitstream.h:230-271 | whole bytes of the cache go out in order; failure exactly when they do not fit |
| BitStream.BitWriter.Write | mcu/include/bitstream.h:288-311 | fills the cache, writes it out when full, and keeps the remaining bits |
| BitStream.BitWriter.Finish | mcu/include/bitstream.h:223-286 | pads to a byte by the four cases of Align, then writes out |
| BitStreamProofs.PutAppends | mcu/include/bitstream.h:288-311 | Put fails only without room for four bytes, and on a cache with room, or with harmless bits above the value, appends exactly the low bits of it to all that was written |
| BitStreamProofs.PutAppendsExactly | mcu/include/bitstream.h:288-311 | whatever the undefined mask is, Put appends if and only if the cache is not full or the bits above the value fall onto ones of the cache |
| BitStreamProofs.SpoiledInput | mcu/include/bitstream.h:290-303 | two fields of 16 bits and 0x1FF in 8 bits: with a mask of ones, bits already put are changed |
| BitStreamProofs.FittingHarmless | mcu/include/bitstream.h:290-303 | a value that fits in its width is always harmless |
| BitStreamProofs.FlushPads | mcu/include/bitstream.h:223-286 | Flush writes everything followed by zeros up to a whole byte, and fails only when that does not fit |
| BitStreamProofs.GetTakes | mcu/include/bitstream.h:27-45 | within what is left, Get returns exactly the next bits and leaves exactly the others |
| BitStreamProofs.OverrunNoticed | mcu/include/bitstream.h:27-45 | past the end, the exception comes if and only if the buffer is empty; otherwise the bit count wraps |
| BitStreamProofs.OverrunMissed | mcu/include/bitstream.h:27-45 | nine bits of a stream of eight are read without exception |
| BitStreamProofs.PutAllWrites | mcu/include/bitstream.h:288-311 | any list of fields that fits is written without failure |
| BitStreamProofs.GetAllReads | mcu/include/bitstream.h:27-45 | the same widths read the same values from any stream that starts with them |
| BitStreamProofs.RoundTrip | mcu/include/bitstream.h:27-311 | any widths of 1 to 31 with fitting values: ceil(total / 8) bytes, and the same values back, across every refill and short tail, whatever the undefined mask is |
| BitStreamProofs.UeDecodes | mcu/include/bitstream.h:400-412 | any code of at most 30 zeros decodes to what section 9.1 of ITU-T H.264 says, and no further bit is consumed |
| BitStreamProofs.UeRoundTrip | mcu/include/bitstream.h:400-412 | the ue(v) code of every k with k + 1 < 2^31 decodes to k and consumes exactly its length |
| WebSocketFrame.FrameHeader.constructor | mcu/include/websocketconnection.h:135-144 | the fourteen bytes of a header made of its fields |
| WebSocketFrame.FrameHeader.SetFin | mcu/include/websocketconnection.h:186-189 | only the top bit of the first byte moves |
| WebSocketFrame.FrameHeader.SetOpCode | mcu/include/websocketconnection.h:197-200 | the opcode replaces all but the top bit |
| WebSocketFrame.FrameHeader.SetPayloadLength | mcu/include/websocketconnection.h:201-221 | one, two or eight bytes by the source's thresholds, joined to whatever the second byte held |
| WebSocketFrame.FrameHeader.SetMask | mcu/include/websocketconnection.h:190-196 | the mask bit, and the key right after the length |
| WebSocketFrame.SizeFrom | mcu/include/websocketconnection.h:170-230 | a header takes between 2 and 14 bytes |
| WebSocketFrame.HeaderParser.constructor | mcu/include/websocketconnection.h:46-50 | no header begun |
| WebSocketFrame.HeaderParser.Begin | mcu/include/websocketconnection.h:57-90 | a new header is begun when needed, and its two first bytes completed |
| WebSocketFrame.HeaderParser.Continue | mcu/include/websocketconnection.h:91-110 | the bytes the size asks for, no more |
| WebSocketFrame.HeaderParser.Parse | mcu/include/websocketconnection.h:57-111 | state and bytes consumed, inside a header the parser owns |
| WebSocketFrame.HeaderParser.ConsumeHeader | mcu/include/websocketconnection.h:118-126 | the header changes hands and the stale length stays behind |
| WebSocketFrame.Frame.constructor | mcu/include/websocketconnection.h:250-281 | header bytes, 32 bits of header and payload size allocated, and a key that is never zero |
| WebSocketFrame.Frame.Write | mcu/include/websocketconnection.h:289-301 | writes past what is there, under the key or as it is |
| WebSocketFrame.Frame.Grow | mcu/include/websocketconnection.h:289-303 | the bytes are now part of the frame |
| WebSocketFrame.Frame.WriteMasked | mcu/include/websocketconnection.h:290-297 | byte by byte with the key byte of its position in the payload |
| WebSocketFrame.Frame.Append | mcu/include/websocketconnection.h:283-305 | appends, or refuses by the 32-bit check and changes nothing |
| WebSocketProofs.HeaderHolds | mcu/include/websocketconnection.h:135-230 | every getter returns what the constructor was given, for every 64-bit length, and the rest is zero |
| WebSocketProofs.ShortestExceptOne | mcu/include/websocketconnection.h:201-221 | the length is in its shortest form (section 5.2 of RFC 6455) if and only if it is not 65535 |
| WebSocketProofs.ParseStep | mcu/include/websocketconnection.h:57-111 | parsing one more piece is parsing the joined stream |
| WebSocketProofs.PiecesParsed | mcu/include/websocketconnection.h:57-111 | a new or emptied parser depends on the stream only, not on its cuts, also with empty pieces |
| WebSocketProofs.ParsedWhenWhole | mcu/include/websocketconnection.h:113-116 | parsed if and only if the stream holds the whole header |
| WebSocketProofs.HeaderRoundTrip | mcu/include/websocketconnection.h:57-230 | of a header followed by anything, in any pieces, exactly its size is consumed and it is rebuilt byte for byte |
| WebSocketProofs.MaskedTwice | mcu/include/websocketconnection.h:290-297 | masking undoes itself (section 5.3 of RFC 6455) |
| WebSocketProofs.PiecesAppended | mcu/include/websocketconnection.h:283-305 | as long as header and payload have a 32-bit size, all pieces are accepted if and only if the whole payload fits, and then give the bytes of one Append |
| WebSocketProofs.CheckRight | mcu/include/websocketconnection.h:285-288 | the check accepts exactly what fits if and only if its sum has 32 bits; a sum that wraps around is always accepted |
| WebSocketProofs.FrameFits | mcu/include/websocketconnection.h:266-274 | the header, and the payload, fit in what is allocated if and only if the sum of their sizes has 32 bits |
| WebSocketProofs.LargestFrame | mcu/include/websocketconnection.h:266-288 | a payload of 2^32 - 1 bytes: nine bytes allocated for a header of ten, and the check accepts |
| WebSocketProofs.EmptyFrameAccepts | mcu/include/websocketconnection.h:266-288 | a frame of two bytes, its header, accepts 2^32 - 2 bytes of payload |
| WebSocketProofs.KeyNeverZero | mcu/include/websocketconnection.h:255-264 | a masked frame never has a zero key, which would read as unmasked |
| WebSocketProofs.FrameRoundTrip | mcu/include/websocketconnection.h:57-305 | a payload whose frame has a 32-bit size, sent and received in any pieces: same fields, header consumed exactly, and the key in it uncovers the payload |
| WebSocketWire.HeaderMade | mcu/include/websocketconnection.h:135-230 | the header bytes are those of section 5.2 of RFC 6455: FIN, reserved bits zero, opcode, MASK, length in one, three or nine bytes, key |
| WebSocketWire.SettersApart | mcu/include/websocketconnection.h:186-200 | whatever a header holds, each setter changes its own bits and no others |
| WebSocketWire.OrBits | mcu/include/websocketconnection.h:201-221 | the length is joined to the second byte bit by bit |
| WebSocketWire.KeyIsRandom | mcu/include/websocketconnection.h:255-264 | the random key is used as it is, but for zero, which becomes 1, 0, 0, 0 |
| WebSocketWire.FrameMade | mcu/include/websocketconnection.h:250-305 | a frame is that header and the payload, octet i under octet i mod 4 of the key in the header, bit by bit (section 5.3 of RFC 6455), in whatever pieces it was appended |
| RingFifo.RunConserves | mcu/include/fifo.h:23-148 | over every run of the bounded queue, what entered is what left followed by what is queued |
| RingFifo.AllOrNothing | mcu/include/fifo.h:23-148 | in every run a push enters whole if and only if it fits, a pop or removal takes what it asks for if and only if it is there, and otherwise nothing changes |
| RingFifo.PushedRing | mcu/include/fifo.h:29-55 | one or two copies append to the ring wherever it starts, also at the end of the array |
| RingFifo.SkippedRing | mcu/include/fifo.h:76-103 | moving the start drops exactly the first elements, whether it wraps or stays at the end |
| RingFifo.Fifo.constructor | mcu/include/fifo.h:16-21 | an empty queue |
| RingFifo.Fifo.Write | mcu/include/fifo.h:29-52 | the copies of push and the new end |
| RingFifo.Fifo.Push | mcu/include/fifo.h:23-58 | appends all or nothing, as the bounded queue does |
| RingFifo.Fifo.Skip | mcu/include/fifo.h:114-128 | the contents without their first elements |
| RingFifo.Fifo.CopyOut | mcu/include/fifo.h:76-94 | the first elements in order, and nothing past them |
| RingFifo.Fifo.Pop | mcu/include/fifo.h:70-106 | pop and peek as the bounded queue does them, and nothing when too much is asked |
| RingFifo.Fifo.Remove | mcu/include/fifo.h:108-131 | drops as the bounded queue does |
| RingFifo.Fifo.Clear | mcu/include/fifo.h:141-148 | empties the queue wherever it stands |
| BitrateCoding.FindExponent | mcu/include/rtp.h:1093-1105 | the first exponent whose scaled largest mantissa covers the bitrate, or zero if none does |
| BitrateCoding.TmmbrField.constructor | mcu/include/rtp.h:1054-1060 | all fields zero |
| BitrateCoding.TmmbrField.SetBitrate | mcu/include/rtp.h:1091-1108 | up to 0x1FFFF * 2^14 the least such exponent, at most 14, and the mantissa shifted by it; beyond, some exponent, and the shifted mantissa if the shift is defined |
| BitrateCoding.TmmbrField.Parse | mcu/include/rtp.h:1068-1079 | the fields of eight bytes; nothing from fewer |
| BitrateCoding.TmmbrField.Serialize | mcu/include/rtp.h:1080-1089 | eight bytes and nothing past them; nothing into fewer |
| BitrateCoding.CreateRemb | mcu/include/rtp.h:1506-1570 | the message of the first 255 streams and of any 32-bit rate |
| BitrateCoding.StoreSsrcs | mcu/include/rtp.h:1562-1567 | the streams in order after the first eight bytes |
| BitrateCoding.CodingBounds | mcu/include/rtp.h:1091-1113 | the mantissa fits, the coded rate never exceeds the true one, and is short by less than 2^exp |
| BitrateCoding.MantissaUsed | mcu/include/rtp.h:1091-1108 | a scaled mantissa uses at least half of its range |
| BitrateCoding.ExponentExists | mcu/include/rtp.h:1091-1108 | every rate has exactly one such exponent |
| BitrateCoding.TmmbrPrecision | mcu/include/rtp.h:1091-1108 | exponent zero exactly for rates of 17 bits; larger rates keep 16 bits at least and 17 at most |
| BitrateCoding.LimitExact | mcu/include/rtp.h:1091-1105 | 0x1FFFF * 2^14 is the last rate with an exponent of at most 14 |
| BitrateCoding.RembPrecision | mcu/include/rtp.h:1521-1535 | the same with one bit more |
| BitrateCoding.LeastExceptGaps | mcu/include/rtp.h:1091-1108 | the exponent is the least whose mantissa fits if and only if the rate lies in no gap between a scaled largest mantissa and the next power of two |
| BitrateCoding.GapExample | mcu/include/rtp.h:1091-1113 | 0x3FFFF gets exponent 2 although 1 would do, and loses its low bits |
| BitrateCoding.RecodedExactly | mcu/include/rtp.h:1091-1113 | a rate that was coded once is coded without loss from then on |
| BitrateCoding.TmmbrRoundTrip | mcu/include/rtp.h:1068-1089 | Parse after Serialize keeps 6, 17 and 9 bits of the fields, and the source number whole |
| BitrateCoding.TmmbrBytesRoundTrip | mcu/include/rtp.h:1068-1089 | Serialize after Parse restores every eight bytes |
| BitrateCoding.TmmbrOnWire | mcu/include/rtp.h:1080-1089 | the layout of section 4.2.1.1 of RFC 5104: source, 6 bits of exponent, 17 of mantissa, 9 of overhead |
| BitrateCoding.TmmbrCarries | mcu/include/rtp.h:1068-1113 | every rate up to 0x1FFFF * 2^14 with a 9-bit overhead crosses the wire unchanged |
| BitrateCoding.RembCarries | mcu/include/rtp.h:1506-1569 | a reader of section 2.2 of draft-alvestrand-rmcat-remb-03 finds the first 255 of any streams, and exponent and mantissa of every 32-bit rate |
| AudioMixer.Mixer.constructor | mcu/src/audiomixer.cpp:20-30 | no sources and no sidebars |
| AudioMixer.Mixer.Init | mcu/src/audiomixer.cpp:246-277 | a supported rate creates the default sidebar, another rate changes nothing |
| AudioMixer.Mixer.End | mcu/src/audiomixer.cpp:284-327 | everything goes, except the count of sidebar numbers |
| AudioMixer.Mixer.CreateMixer | mcu/src/audiomixer.cpp:333-371 | a new source listens to nothing; an existing one is refused |
| AudioMixer.Mixer.InitMixer | mcu/src/audiomixer.cpp:377-428 | listens to the given sidebar if it exists, and contributes to the default one |
| AudioMixer.Mixer.EndMixer | mcu/src/audiomixer.cpp:435-475 | listens to nothing and is in no sidebar; an unknown number changes nothing |
| AudioMixer.Mixer.RemoveEverywhere | mcu/src/audiomixer.cpp:465-468 | the loop removes the participant from every sidebar and touches no other |
| AudioMixer.Mixer.DeleteMixer | mcu/src/audiomixer.cpp:481-513 | the source goes, its memberships stay; zero is returned in either case |
| AudioMixer.Mixer.SetMixerSidebar | mcu/src/audiomixer.cpp:601-642 | listens to the given sidebar if it exists, else as before |
| AudioMixer.Mixer.AddSidebarParticipant | mcu/src/audiomixer.cpp:689-716 | any number may be put into an existing sidebar |
| AudioMixer.Mixer.RemoveSidebarParticipant | mcu/src/audiomixer.cpp:722-752 | taken out of that sidebar only |
| AudioMixer.Mixer.CreateSidebar | mcu/src/audiomixer.cpp:754-769 | an empty sidebar under the next number |
| AudioMixer.Mixer.DeleteSidebar | mcu/src/audiomixer.cpp:771-820 | refused for the default one; its listeners listen to nothing |
| AudioMixer.Mixer.ForgetEverywhere | mcu/src/audiomixer.cpp:802-809 | the loop resets exactly the listeners of that sidebar |
| AudioMixerProofs.StepKeepsInv | mcu/src/audiomixer.cpp:333-820 | every control operation keeps every sidebar pointer null or live |
| AudioMixerProofs.PointersLive | mcu/src/audiomixer.cpp:246-820 | in every run of a new mixer, End and further Inits included, the default sidebar and every source's sidebar are null or live |
| AudioMixerProofs.RunsInService | mcu/src/audiomixer.cpp:246-327 | the default sidebar is live if and only if a successful Init has no End after it |
| AudioMixerProofs.NumbersNeverReused | mcu/src/audiomixer.cpp:246-820 | a deleted sidebar number never comes back to life, not even after End and another Init |
| AudioMixerProofs.CreatedIsNew | mcu/src/audiomixer.cpp:754-769 | in every run a sidebar made by CreateSidebar or Init has a number not in use |
| AudioMixerProofs.EndMixerRemoves | mcu/src/audiomixer.cpp:435-475 | after EndMixer no sidebar has the participant if and only if it was a source or was in none |
| AudioMixerProofs.EndMixerMisses | mcu/src/audiomixer.cpp:435-475 | a run that puts a number into the default sidebar and ends it leaves it there |
| AudioMixerProofs.EndedIsSilent | mcu/src/audiomixer.cpp:435-475 | it stays in none through every run that does not let it in again |
| AudioMixerProofs.InitialisedContributes | mcu/src/audiomixer.cpp:415-418 | once initialised, a participant contributes to the default sidebar until it or the mixer is ended, it is taken out, or Init makes another default |
| AudioMixerProofs.ListensWhereSet | mcu/src/audiomixer.cpp:601-682 | GetMixerSidebar returns what SetMixerSidebar set if that was live, else what it returned before |
| AudioMixerProofs.ListensWhereInitialised | mcu/src/audiomixer.cpp:377-428 | after InitMixer of a known source GetMixerSidebar returns the sidebar given if that is live, else what it returned before |
| AudioMixerProofs.ListensUntilRetuned | mcu/src/audiomixer.cpp:377-820 | who was sent to a live sidebar listens there until sent elsewhere, ended or deleted, or until it goes |
| AudioMixerProofs.DeleteSidebarSilences | mcu/src/audiomixer.cpp:771-820 | deleting a sidebar silences exactly its listeners |
| AudioMixerHistory.StateRecorded | mcu/src/audiomixer.cpp:246-820 | in every run the sources, the live sidebars, their participants and what each source listens to are those the operations so far call for |
| MixMinus.SubtractScalar | mcu/src/audiomixer.cpp:192-204 | the clipped difference on the samples received, nothing else changed |
| MixMinus.SubtractWide | mcu/src/audiomixer.cpp:205-219 | the same on whole groups of eight |
| MixMinus.MinusOwn | mcu/src/audiomixer.cpp:183-229 | both builds send the same samples at every index below numSamples, although the vector loop goes past the end |
| MixMinus.NearestSample | mcu/src/audiomixer.cpp:192-204 | clipping gives the sample nearest to a value |
| MixMinus.AddWide | mcu/src/sidebar.cpp:52-66 | the clipped sum on whole groups of eight |
| MixMinus.PaddingCleared | mcu/src/audiomixer.cpp:142-151 | the lanes past the end are zero whatever was in the buffer, if and only if the length is not in the last, incomplete group |
| MixMinus.CleanedBytes | mcu/src/audiomixer.cpp:146-147 | of the buffer's bytes, as many as samples are missing go to zero after the samples received, and no other does |
| MixMinus.WideMixDiffers | mcu/src/sidebar.cpp:52-66 | with a sample left in a last, incomplete group the vector build mixes it in and the scalar one does not |
| MixMinus.WideMixIsScalarMix | mcu/src/sidebar.cpp:31-75 | with zero lanes past the ends, the vector sum of any participants is the scalar one |
| MixMinus.MixIsSum | mcu/src/sidebar.cpp:41-75 | where no partial sum clips, the mix is the sum of the participants |
| MixMinus.HearsTheOthers | mcu/src/audiomixer.cpp:137-229 | in the vector build, where no partial sum clips, a participant hears the sum of all others and nothing of itself |
| MixMinus.HearsTheOthersScalar | mcu/src/audiomixer.cpp:183-229 | in the scalar build the same, whatever the buffers hold after the samples received |
| MixMinus.TwoTalkersClip | mcu/src/audiomixer.cpp:183-229 | of two talkers one hears the other unchanged if and only if their sum does not clip |
| MixMinus.SampleClock.constructor | mcu/src/audiomixer.cpp:61-70 | the clock starts at zero |
| MixMinus.SampleClock.Advance | mcu/src/audiomixer.cpp:118-135 | the difference of the roundings, as 32 bits, capped at the buffer size |
| MixMinus.DueEachSecond | mcu/src/audiomixer.cpp:118-125 | after whole seconds exactly as many times the rate is due |
| MixMinus.ClockNeverDrifts | mcu/src/audiomixer.cpp:118-135 | the samples issued over any ticks never exceed floor(elapsed * rate / 10^6), and equal it if and only if no tick was capped |
| MixMinus.LateTickLoses | mcu/src/audiomixer.cpp:118-135 | one tick after 100 ms at 48 kHz issues 4096 of 4800 samples due |
| MixMinus.TickWraps | mcu/src/audiomixer.cpp:118-135 | 2^32 samples more due make no difference to a tick |

## Left out

- Sockets, poll, DTLS and SRTP, ffmpeg, logging, XML-RPC and RabbitMQ: only the values or the arbitrary inputs they stand for are in the model.
- QueueSweeper.Started: the overflow of the delay, undefined in C++, wraps around.
- Real scheduling of threads: the lock is modelled as all interleavings of its atomic actions; condition variables may wake spuriously, fairness is not assumed, so starvation of a writer by a stream of readers is not excluded before the count reaches zero.
- Unpaired DecUse and the destructor of `Use`: outside the protocol of the lock.
- Timeouts of `RTPBuffer::Wait` and its condition variables: Poll is one turn of its loop, at an arbitrary time; the log of dropped packets and the destructor's drain are not modelled.
- Times of the jitter buffer and of the throttle are unbounded numbers; sequence numbers and rates have their 32 bits.
- `isalnum` in `CorrectionTracker` is that of the C locale.
- TrackerProofs.SessionAgrees: for input that is well-formed UTF-8; `LineTracker.Add` is modelled on any bytes.
- AMF parsers nested in one another are values, not objects: updates in place and sharing between them are not captured, nor is the state an exception leaves behind.
- The UTF-8 reader inside AMF strings is "exactly the announced number of bytes"; wide characters are not decoded. A number is its eight bytes.
- Amf0Serializer.EncodedSize: Serialize is a function to bytes; what it writes into a buffer that is too small is not modelled. Duplicate and empty keys, and strings of 65536 bytes or more, are outside the values considered.
- AMF typed objects, strict arrays, dates, references, long strings and the 29-bit integers.
- Amf0.AmfParser.Parse: the markers of those other types count as unsupported; a piece is never empty, since the source reads its first byte.
- SetPolicy between two announcements: the theorems are for one dialect at a time.
- RembThrottler.AnnouncedStaysClose: for dialects with a drop threshold of at least 100 per cent, as both dialects have.
- BitStream.BitReader.Read: not for a width of 32, whose shift is undefined.
- `Skip`, `Peek`, `DecodeSE` and `VLCDecoder`.
- BitStream.BitWriter.Write: not for widths of 0 and 32; what a failed write leaves in the cache is not stated.
- WebSocketFrame.Frame.constructor: only where the 32-bit sum leaves room for the header; otherwise the source writes outside its buffer, which the array does not model. The specification functions and the lemmas about them cover all sizes.
- WebSocketFrame.Frame.Append: for the same reason, only where the sum of its check has 32 bits.
- The state machine of `WebSocketConnection` around the frames: upgrade, message callbacks, closing.
- RingFifo.Fifo.Push: lengths are not negative.
- BitrateCoding.TmmbrField.SetBitrate: which exponent is chosen beyond 0x1FFFF * 2^14, where the shift overflows the source's int, and the mantissa for an exponent of 32 or more, whose shift is undefined. GetBitrate of a parsed exponent of 32 or more is not modelled either.
- AudioMixer.Mixer.InitMixer: of a known source only while the mixer is in service (`RunsInService`); otherwise the code follows a null pointer.
- AudioMixer.Mixer.EndMixer: the same.
- AudioMixer.Mixer.CreateSidebar: numbers are unbounded, so the int counter does not overflow. A pointer to a sidebar is its number, which is sound because numbers are not reused.
- MixMinus.ClockNeverDrifts: the 64-bit product of time and rate does not overflow. Waiting for the next tick and the resynchronisation of its deadline are not modelled.
- Voice activity levels, the pipes' own buffers and the order of locking in the mixer.
- Video mixing, mosaics, recording, Flash and RTMP sessions, RTP sessions, transport-wide congestion control: not part of this model.
