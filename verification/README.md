# Verified models of the Ambulant player's hard parts

This project models parts of the Ambulant SMIL player repository in Dafny and proves what they
are for. `dafny verify dfyconfig.toml` checks everything.

## What is modelled

**The SDL player** (`sandbox/sdl2-test/tutorial08.c`). A decode thread reads packets and serves
seeks, a video thread decodes pictures into a ring, an audio callback re-chunks decoded sound, and
the main thread serves seeks, picture refreshes and picture allocations.

- `PacketQueue.dfy`: the packet queue as a class over linked heap nodes, changed in place. It
  refines a mathematical FIFO that is kept next to it as history, step by step and over runs.
- `Demuxer.dfy`: the decode thread, the lock-free seek handshake, and both packet consumers as a
  transition system. A step is one critical section or one read or write of a shared field; a
  behaviour is any interleaving. Packets carry a history tag, the number of seeks that had
  succeeded when they were read (their epoch).
- `QueueUse.dfy`: every behaviour drives both queues through runs of the queue's operations, so
  that the conservation law of the queue holds of the running player.
- `DemuxerRuns.dfy`: what is read from the file reaches the queues, and the threads move on.
- `PictureRing.dfy`, `RingRuns.dfy`: the picture ring for any size N >= 1, with indices and count updated in
  separate steps, the allocation handshake in which the main thread writes the producer's slot,
  the event queue, and the refresh timer; how both threads move on.
- `Player.dfy`: the two transition systems run together, with the video thread and the main thread
  shared between them.
- `AudioOutput.dfy`, `AudioCallback.dfy`: decoding, synchronising and re-chunking of sound. The
  second is the code in place, on buffers and fields; the first says what it has to compute, as
  functions and as a relation over whole runs of callbacks.
- `Sound.dfy`: the demuxing side and the audio callback together. Bytes of sound carry the epoch of
  the packet they were decoded from, so that seeking can be followed to what the device plays.
- `FrameTimer.dfy`, `MasterSync.dfy`, `Letterbox.dfy`: when the next frame is due, whether the
  picture keeps up with another clock over runs that the handler itself times, and where it is
  shown.

**CSV** (`sandbox/tracevis/d3.csv.js`): `Csv.dfy` has the printer and the reader on values and the
round trip; `CsvReader.dfy` the stateful tokenizer and the loops of the parser. The quoting is that
of RFC 4180, section 2, rules 5 to 7.

**Licence texts** (`scripts/fixlicense.py`): `Lines.dfy` (lines, substrings, white space),
`LicenseText.dfy` (comment styles and the lines written), `License.dfy` (inserting and removing, as
they read and write), `LicenseNotice.dfy` (the same inside a copyright notice block),
`LicenseRoundTrip.dfy`, `NoticeRoundTrip.dfy`, and `LicenseRules.dfy` (the comment styles that come
with the script).

**The library internalizer** (`scripts/internalize_dylibs.py`): `Dependencies.dfy` (the file system
before the run, and what is within reach of a bundle), `Internalizer.dfy` (the worklist, which copies
over files and changes what they refer to while it reads them), `InternalizerResults.dfy`, and
`InternalizerFailures.dfy` (bundles for which it goes wrong).

**Preferences** (`src/player_gtk/unix_preferences.cpp`): `Preferences.dfy`, with the C line buffer,
`atoi`, and strings that end at a NUL, `PreferencesRoundTrip.dfy`, and `PlayerPreferences.dfy` (the
preferences that the player itself has).

**Smaller components**: `IndentNanny.dfy` (`scripts/indentnanny.py`), `Wildcard.dfy`
(`Documentation/mediasupport/dbsupport.py`), `Markup.dfy` (`Documentation/mediasupport/markup.py`).

`Packets.dfy`, `Wrappers.dfy`, `Sequences.dfy`, `Arithmetic.dfy` and `Clocks.dfy` hold what several of
these share.

## Where the code does not do what it says

The models follow the code. Each of these is an exact condition proved in both directions, with an
input that fails it.

- `unescape` is documented as the inverse of `escape`. It is so exactly for text without an
  apostrophe that does not itself spell `&gt;`, `&lt;` or `&quot;` (`Markup.RoundTrip`; an
  apostrophe comes back as a quote, `Markup.EscapeIsNotUndone`).
- Parsing printed CSV gives the rows back exactly when every row has a field, no field has a
  carriage return without a quote, comma or line feed, and the last field of all is not empty
  (`Csv.RoundTrip`; `Csv.EmptyLastFieldIsLost`, `Csv.EmptyRowIsLost`,
  `Csv.LoneCarriageReturnEndsARow`).
- Removing a licence loses a blank line that stood directly behind the header lines (or at the
  start of a file without any), and a header line cut off by the end of the file gains a line feed
  (`LicenseRules.BlankLineIsLost`, `LicenseRules.CutHeaderIsChanged`). From a file with a copyright
  notice block it also removes what it takes for a list of contributors behind the licence, with a
  bare comment line before that, and where no line feed follows the notice and comments have no
  start it looks for such a list at the start of the file (`LicenseRules.ContributorsAreLost`,
  `LicenseRules.FileIsRepeated`). Every other file comes back, and only those
  (`LicenseRoundTrip.RoundTrip`).
- The correction bounds of the audio synchronisation are integer quotients, so the clamp is
  [0, size] in place of 90 to 110 per cent, and the branch that adds samples is never taken. A chunk
  keeps within the bounds that were meant exactly when it is not corrected or lags behind the
  master by a tenth of itself at most, and it is dropped whole exactly when it is corrected and
  lags by all of itself or more (`AudioOutput.PlayedWithinTenth`; `AudioOutput.ChunkIsDroppedWhole`).
- The internalizer processes exactly the reachable files, with no file of the bundle and no copy
  replaced, if and only if the libraries to copy all go to different files, none of which exists
  (`InternalizerResults.ProcessedAreReachable`). Of two with the same base name one is silently
  missing (`InternalizerFailures.LostLibrary`). One that is named like a file of the framework
  directory replaces that, and what only the replaced file needed can be missed
  (`InternalizerFailures.ReplacedLibrary`).
- The internalizer changes every reference to a library outside the safe places, copied or not. The
  new name is that of just this library if and only if it was copied and the copy not replaced, or it
  stands in the framework directory itself and was not replaced. A reference to a library that could
  not be loaded is left dangling (`InternalizerResults.ReferencesAreRight`;
  `InternalizerFailures.DanglingReference`).
- A picture that starts on time and less than ten seconds off comes within the threshold of the
  master clock, to stay, if and only if frames are more than 10 ms apart, or just that and it is not
  late. Every late frame runs into the shortest wait, so the one after it is closer if and only if
  they are more than 10 ms apart; at 125 frames a second it is later still
  (`MasterSync.PictureKeepsUp`, `MasterSync.LateComesCloser`; `MasterSync.LatePictureFallsBehind`).
- Preferences come back exactly, whatever was in memory, if and only if every line fits the buffer,
  every value is accepted for its name, and no string has a line feed or a NUL or ends in white
  space (`PreferencesRoundTrip.RoundTrip`; `PreferencesRoundTrip.TrailingSpaceIsLost`).
- Wildcard equality is symmetric, but transitive through an object if and only if that object has
  no wildcard and no two different leaves (`Wildcard.TransitiveIffSingle`;
  `Wildcard.EqualIsNotTransitive`), and equal to itself if and only if it has a wildcard or a leaf
  (`Wildcard.EqualIsSymmetric`; `Wildcard.NothingIsNotItself`).

## Model

| member | source | states |
|---|---|---|
| `PacketQueues.PacketQueue.Put` | sandbox/sdl2-test/tutorial08.c:115-138 | one packet is appended to what the list holds; the list stays well linked, with the right tail, count and byte size |
| `PacketQueues.PacketQueue.Get` | sandbox/sdl2-test/tutorial08.c:139-171 | the oldest packet leaves the queue, or nothing changes: quitting wins over a packet, a packet over waiting |
| `PacketQueues.PacketQueue.Flush` | sandbox/sdl2-test/tutorial08.c:172-187 | every node is freed once, in order; all packets are discarded and the queue is as new |
| `PacketQueues.Conservation` | sandbox/sdl2-test/tutorial08.c:115-187 | after any run of operations each packet put is delivered, still queued or discarded, as often in all as it was put, in order |
| `PacketQueues.Drive` | sandbox/sdl2-test/tutorial08.c:110-187 | a heap queue driven by any run of operations agrees with the mathematical FIFO in contents, arrivals and departures |
| `QueueUse.QueuesAreDriven` | sandbox/sdl2-test/tutorial08.c:815-877 | in every interleaving each queue is the result of the operations the threads made on it, and each consumer holds what they delivered |
| `QueueUse.NothingIsLost` | sandbox/sdl2-test/tutorial08.c:815-877 | in every interleaving each packet put was taken, is queued, or was thrown away by the flush of a seek, none twice |
| `QueueUse.AudioQueueOf` | sandbox/sdl2-test/tutorial08.c:110-187 | the heap queue on which a behaviour's operations were made holds what the transition system says |
| `Demuxer.HandshakeStep` | sandbox/sdl2-test/tutorial08.c:822-855 | each step of any thread keeps the handshake: a request under way is not overwritten, and what is pending is the request accepted last |
| `Demuxer.BarrierStep` | sandbox/sdl2-test/tutorial08.c:836-852 | each step keeps, of every stream, packets taken and queued ordered by epoch with a flush marker between epochs, even when a later seek removes an unseen marker |
| `Demuxer.MemoryStep` | sandbox/sdl2-test/tutorial08.c:856-876 | each step keeps the two sizes bounded although they are read without a lock |
| `Demuxer.FlushBarrier` | sandbox/sdl2-test/tutorial08.c:822-876 | in every interleaving, what each consumer takes has non-decreasing epochs and a marker between any two different ones |
| `Demuxer.CodecsNeverMixEpochs` | sandbox/sdl2-test/tutorial08.c:643-651 | no codec is fed packets from both sides of a seek without having been reset between them |
| `Demuxer.FedIsNewest` | sandbox/sdl2-test/tutorial08.c:643-651 | what a codec was fed since its reset is at least as new as every packet taken |
| `Demuxer.SeeksActedOnOnce` | sandbox/sdl2-test/tutorial08.c:893-900 | accepted requests are acted on once each, in order, with the position and flags they were accepted with |
| `Demuxer.SeeksAreThoseAsked` | sandbox/sdl2-test/tutorial08.c:822-900 | over any trace of steps: each seek asked for while none is pending is accepted once its three writes are done, and the library is asked for just these, in order, with the position asked for and the backward flag exactly where the way leads backward |
| `Demuxer.NoOverlap` | sandbox/sdl2-test/tutorial08.c:822-900 | a request is accepted only when all earlier ones were acted on and cleared; what is acted on is the request accepted last |
| `Demuxer.MemoryBound` | sandbox/sdl2-test/tutorial08.c:856-876 | in every reachable state the data in each queue stay within 80 and 1280 kilobytes plus one packet |
| `DemuxerRuns.WhatIsReadIsQueued` | sandbox/sdl2-test/tutorial08.c:822-877 | in every interleaving, what was read of a stream has reached its queue in order, tagged with the number of seeks made, but for the packet in hand; and a marker for each seek made, but for the one due |
| `DemuxerRuns.DecodeThreadMovesOn` | sandbox/sdl2-test/tutorial08.c:815-880 | each step brings the decode thread nearer to the top of its loop; it seeks exactly when a request is pending, reads exactly when neither queue is over its limit, and ends exactly with the input |
| `DemuxerRuns.SeekerMovesOn` | sandbox/sdl2-test/tutorial08.c:893-900 | each write of an accepted seek brings it nearer to being pending; asking while one is pending changes nothing |
| `DemuxerRuns.ConsumersTakeTheOldest` | sandbox/sdl2-test/tutorial08.c:139-171 | a consumer takes one packet, the oldest, and touches nothing else |
| `DemuxerRuns.FirstPacketIsTaken` | sandbox/sdl2-test/tutorial08.c:815-877 | from any initial state any packet of the file can come to be the first that the video thread takes |
| `DemuxerRuns.FirstSeekIsMade` | sandbox/sdl2-test/tutorial08.c:822-900 | from any initial state any seek can come to be the first made, with its position and direction |
| `PictureRing.FollowingIsSuccessor` | sandbox/sdl2-test/tutorial08.c:586-589 | wrapping the index by comparison is counting modulo N |
| `PictureRing.DistinctSlots` | sandbox/sdl2-test/tutorial08.c:505-530 | counts less than N apart fall on different slots |
| `PictureRing.ProducerSlotIsFree` | sandbox/sdl2-test/tutorial08.c:505-595 | from the wait for space to the advance of its index, the producer's slot is none of those still to be shown |
| `PictureRing.StepKeepsInv` | sandbox/sdl2-test/tutorial08.c:413-595 | each step of each thread keeps count, contents and events in agreement with the histories |
| `PictureRing.RingIsConsistent` | sandbox/sdl2-test/tutorial08.c:413-595 | in every interleaving 0 <= size <= N, and both indices and the size agree with the numbers of pictures written and shown |
| `PictureRing.ShownInOrder` | sandbox/sdl2-test/tutorial08.c:413-478 | pictures are shown in queue order, none skipped or repeated, each with its own image, size and time stamp |
| `PictureRing.DisplayedSlotIsStable` | sandbox/sdl2-test/tutorial08.c:480-595 | no step changes the slot that is being timed or shown, and neither producer nor allocation works on it |
| `PictureRing.OneRefreshAndOneAllocation` | sandbox/sdl2-test/tutorial08.c:365-375 | exactly one refresh is outstanding in every state, and an allocation exactly while the producer waits for it |
| `PictureRing.OverlaysFit` | sandbox/sdl2-test/tutorial08.c:480-560 | in every state a picture is converted only into an overlay of the size it was offered with, and every picture shown was shown from such an overlay |
| `RingRuns.VideoThreadMovesOn` | sandbox/sdl2-test/tutorial08.c:505-595 | each step brings a picture nearer to the ring; only a full ring or a missing overlay holds it up; an overlay is asked for exactly when the slot has none of the right size, and the picture given up exactly when none could be made |
| `RingRuns.MainThreadMovesOn` | sandbox/sdl2-test/tutorial08.c:413-503 | events are handled in order, one at a time; a refresh shows a picture exactly when the stream is open and there is one, and the next refresh is scheduled either way; an allocation gives the slot an overlay of the stream's size, if one could be made, and says so |
| `RingRuns.FirstIsShown` | sandbox/sdl2-test/tutorial08.c:413-595 | in a ring of any size, from any initial state, any picture can come to be the first shown |
| `Player.FreshPictureIsNewest` | sandbox/sdl2-test/tutorial08.c:634-681 | a picture just decoded is at least as new as every packet the video thread took |
| `Player.InvStep` | sandbox/sdl2-test/tutorial08.c:413-900 | each step of the whole player keeps both subsystems' invariants and the epochs of the pictures in order |
| `Player.NoPictureFromBeforeASeekAfterIt` | sandbox/sdl2-test/tutorial08.c:413-900 | in every interleaving, once a picture from after a seek was shown none from before it is shown, and all come from packets taken |
| `Player.SeekShowsSoon` | sandbox/sdl2-test/tutorial08.c:413-900 | in every interleaving, once the video queue was flushed for a seek, at most N + 1 pictures from before it are still shown |
| `AudioOutput.ChunkIsWhatTheCodecProduced` | sandbox/sdl2-test/tutorial08.c:281-333 | a decoded chunk is never empty and is exactly what the codec produced since the chunk before; failure means nothing was produced |
| `AudioOutput.EveryPacketIsUsedUp` | sandbox/sdl2-test/tutorial08.c:281-333 | each answer takes as much off the packet under way as it consumed; the next is fetched only when all was consumed or an error ended it; what is left is what the next call starts with; and the decoder waits only when nothing is left to offer or no answer comes |
| `AudioOutput.PacketsAreFetchedInOrder` | sandbox/sdl2-test/tutorial08.c:314-326 | whatever the codec answers, packets are fetched in queue order, none skipped |
| `AudioOutput.ClockFollowsTimestamps` | sandbox/sdl2-test/tutorial08.c:300-331 | the clock after a chunk is the last time stamp fetched, or the clock before, plus the time the chunk takes |
| `AudioOutput.AverageOverRun` | sandbox/sdl2-test/tutorial08.c:233-241 | through a run of chunks the sum kept is always the last difference to the master clock, a reading per chunk, and the weighted sum before |
| `AudioOutput.CountOverRun` | sandbox/sdl2-test/tutorial08.c:233-241 | the differences are counted up to 20, and each chunk takes one reading of the master clock |
| `AudioOutput.AverageStartsOver` | sandbox/sdl2-test/tutorial08.c:233-278 | ten seconds ahead or more starts the average over, and with sound as master nothing is averaged |
| `AudioOutput.WhatIsCorrected` | sandbox/sdl2-test/tutorial08.c:233-248 | a chunk is corrected if and only if sound is not the master, it is less than ten seconds ahead, 20 differences were averaged before, and the average is too large |
| `AudioOutput.WhatIsPlayed` | sandbox/sdl2-test/tutorial08.c:246-275 | it is shortened by the sample frames of the lag, two bytes a sample and channel, down to nothing, and never lengthened |
| `Arithmetic.TruncateTowardsZero` | sandbox/sdl2-test/tutorial08.c:246 | the conversion to whole sample frames goes towards zero, by less than one, for lags of either sign |
| `AudioOutput.SilenceIsZeros` | sandbox/sdl2-test/tutorial08.c:344-348 | on failure the device gets 1024 zero bytes |
| `AudioOutput.CorrectedIsClamped` | sandbox/sdl2-test/tutorial08.c:247-276 | with the integer divisions as written the corrected size is the wanted one clamped to [0, size] |
| `AudioOutput.CorrectedIsWithinTenth` | sandbox/sdl2-test/tutorial08.c:246-275 | the clamp that was meant holds if and only if at most a tenth of the chunk is to go |
| `AudioOutput.PlayedWithinTenth` | sandbox/sdl2-test/tutorial08.c:233-279 | a chunk keeps within a tenth of its size if and only if it is not corrected or lags by a tenth of itself at most; it is dropped whole if and only if it is corrected and lags by all of itself or more |
| `AudioOutput.ChunkIsDroppedWhole` | sandbox/sdl2-test/tutorial08.c:246-259 | with the player's settings, one second behind, a chunk of 4608 bytes is dropped whole |
| `AudioOutput.SynchronizationShortens` | sandbox/sdl2-test/tutorial08.c:224-280 | synchronising never lengthens a chunk, shortens only one that is behind the master clock, and keeps whole sample frames whole |
| `AudioOutput.Rechunking` | sandbox/sdl2-test/tutorial08.c:335-363 | over any run of callbacks the bytes delivered, followed by the leftover, are the buffer's bytes followed by the successive refills |
| `AudioCallback.AudioState.DecodeFrame` | sandbox/sdl2-test/tutorial08.c:281-333 | the nested loops deliver the next chunk into the start of the buffer and advance packet, queue, codec and clock accordingly |
| `AudioCallback.AudioState.CorrectSize` | sandbox/sdl2-test/tutorial08.c:248-275 | the branches compute the clamped size, and the one that adds samples is not reached |
| `AudioCallback.AudioState.Average` | sandbox/sdl2-test/tutorial08.c:236-247 | the weighted sum and the count are updated, and the average is judged only after enough differences |
| `AudioCallback.AudioState.Synchronize` | sandbox/sdl2-test/tutorial08.c:188-280 | the size to play and the new averaging state; the clock less the buffered time is the decoder's clock because nothing is buffered then |
| `AudioCallback.AudioState.RefillBuffer` | sandbox/sdl2-test/tutorial08.c:340-354 | the empty buffer is refilled by the next synchronised chunk or by 1024 zero bytes |
| `AudioCallback.AudioState.CopyOut` | sandbox/sdl2-test/tutorial08.c:355-361 | as much as fits moves from the buffer to the stream, nothing else changes |
| `AudioCallback.AudioState.Callback` | sandbox/sdl2-test/tutorial08.c:335-363 | a callback that returns has written exactly the bytes asked for, taken in order from the leftover and from as many refills as needed |
| `AudioCallback.Play` | sandbox/sdl2-test/tutorial08.c:335-363 | the callbacks for any lengths the device asks for make up a run: what was heard and what is left are the first leftover and the successive refills |
| `Sound.ChunkStems` | sandbox/sdl2-test/tutorial08.c:281-333 | a chunk stems from packets fetched since the last flush marker, if the codec only answers with what it was fed since its reset |
| `Sound.RefillIsNewest` | sandbox/sdl2-test/tutorial08.c:335-363 | what a refill yields is as new as any packet fetched so far |
| `Sound.NoSoundFromBeforeASeekAfterIt` | sandbox/sdl2-test/tutorial08.c:281-876 | in every interleaving and for any lengths asked for, once sound from after a seek was heard none from before it is heard, and all comes from packets taken |
| `Sound.Listen` | sandbox/sdl2-test/tutorial08.c:281-876 | the same of the callback as it runs on its fields and buffers |
| `FrameTimer.RefreshTimer.Refresh` | sandbox/sdl2-test/tutorial08.c:425-461 | the kept delay stays in (0, 1), the timer never falls and gains less than 2 s, and the wait is what is left until the timer but at least 10 ms, to half a millisecond |
| `FrameTimer.TimerIsMonotone` | sandbox/sdl2-test/tutorial08.c:425-461 | the same over any run, for any time stamps and clocks |
| `FrameTimer.TimerFollowsTimestamps` | sandbox/sdl2-test/tutorial08.c:425-461 | with video as master the timer follows the time stamps through a run without drift if and only if every step between them is in (0, 1) |
| `FrameTimer.KeptDelayIsLastUsable` | sandbox/sdl2-test/tutorial08.c:428-434 | over any run the delay kept is the last usable step among the time stamps, or the one at the start when there was none |
| `FrameTimer.TimerGain` | sandbox/sdl2-test/tutorial08.c:436-454 | each frame moves the timer by just that delay, by nothing where the picture is late by it and by 10 ms, and by twice that where it is early by as much, if by less than 10 s and video is not the master |
| `MasterSync.CorrectsTowardsMaster` | sandbox/sdl2-test/tutorial08.c:437-454 | the timer gains less than the step exactly when the picture is late by the threshold, and more exactly when it is early by it, if by less than 10 s |
| `MasterSync.RunIsNth` | sandbox/sdl2-test/tutorial08.c:425-461 | when the handler's own wait times the frames, difference and lag of frame n follow from those of the first by n rounds of the correction, and the timer never runs ahead |
| `MasterSync.LateComesCloser` | sandbox/sdl2-test/tutorial08.c:437-461 | the frame after a late one is closer by the step less 10 ms, so closer if and only if the step is more than 10 ms |
| `MasterSync.StaysBounded` | sandbox/sdl2-test/tutorial08.c:437-461 | from a start on time, the lag that a late picture collects carries it past the clock, but no further than it was off |
| `MasterSync.DifferenceShrinks` | sandbox/sdl2-test/tutorial08.c:437-461 | in such a run, early or late, no frame is further off than the first, and after as many frames as a stated sum of steps asks for the picture is within the threshold |
| `MasterSync.PictureKeepsUp` | sandbox/sdl2-test/tutorial08.c:437-461 | the picture comes within the threshold for good if and only if the step is more than 10 ms, or 10 ms and the picture is not late |
| `MasterSync.LatePictureFallsBehind` | sandbox/sdl2-test/tutorial08.c:456-460 | with 8 ms between frames the frame after a late one is later still |
| `Letterbox.Place` | sandbox/sdl2-test/tutorial08.c:384-409 | the rectangle lies inside the screen, fills it in one direction, is centred to a pixel and has the aspect ratio up to rounding and masking |
| `Letterbox.AspectRatioIsPositive` | sandbox/sdl2-test/tutorial08.c:386-395 | whatever sample aspect ratio the stream gives, the ratio used is positive, and finite unless a positive numerator stands over zero; it is the stream's where numerator and denominator have one sign, and that of the codec's size otherwise |
| `Csv.PrintedBare` | sandbox/tracevis/d3.csv.js:87-91 | a field is printed bare if and only if it has no quote, comma or line feed, and between quotes otherwise |
| `Csv.CloseIsUnpaired` | sandbox/tracevis/d3.csv.js:38-45 | on any text the closing quote is the first that is not one of a pair |
| `Csv.LexIs` | sandbox/tracevis/d3.csv.js:32-65 | on any text: where a field ends, what is left behind it, and when an end of line is told |
| `Csv.LexField` | sandbox/tracevis/d3.csv.js:32-65 | the tokenizer gives back any printed field and stops behind its comma or line end |
| `Csv.ParseRowOfFormat` | sandbox/tracevis/d3.csv.js:67-75 | a printed row is read back whole, save an empty last field at the end of the text |
| `Csv.ParseOfFormat` | sandbox/tracevis/d3.csv.js:67-91 | what comes back of any printed rows whose carriage returns are quoted |
| `Csv.UnfaithfulRowsAreNotRead` | sandbox/tracevis/d3.csv.js:79-91 | a carriage return that did not get quoted is never read back, wherever it stands |
| `Csv.RoundTrip` | sandbox/tracevis/d3.csv.js:20-91 | parsing printed rows gives them back if and only if a stated condition on them holds, for each of the three line ends |
| `Csv.EmptyLastFieldIsLost` | sandbox/tracevis/d3.csv.js:32-75 | rows that end in an empty field come back without it |
| `Csv.LoneCarriageReturnEndsARow` | sandbox/tracevis/d3.csv.js:79-91 | a field that is a carriage return comes back empty |
| `CsvReader.Tokenizer.Next` | sandbox/tracevis/d3.csv.js:32-65 | the stateful tokenizer gives end of text, end of line or the next field, and moves on as the specification says |
| `CsvReader.Tokenizer.FindClose` | sandbox/tracevis/d3.csv.js:38-45 | the loop stops at the quote that closes the field, or at the end of the text |
| `CsvReader.Tokenizer.Row` | sandbox/tracevis/d3.csv.js:69-73 | the inner loop collects exactly the fields of one row |
| `CsvReader.ParseRows` | sandbox/tracevis/d3.csv.js:20-78 | without a callback the loops terminate on every text and give the rows of the specification |
| `CsvReader.ParseRowsWith` | sandbox/tracevis/d3.csv.js:67-75 | with a callback, the rows are what it makes of each row and its number, in order, without those it makes nothing of |
| `CsvReader.ReadBack` | sandbox/tracevis/d3.csv.js:20-91 | the running parser returns what was printed exactly under the condition of the round trip |
| `Lines.NormalizedInside` | scripts/fixlicense.py:258-261 | the normal form of a text is found inside the normal form of any text around it |
| `Lines.NormalizeTrailing` | scripts/fixlicense.py:258-261 | white space at the end does not change the normal form |
| `Lines.NormalizeShape` | scripts/fixlicense.py:258-261 | a normal form has the same other characters in the same order as the text, with single spaces between them |
| `Lines.NormalizeKeepsWords` | scripts/fixlicense.py:258-261 | words of the text are neither joined nor split |
| `License.KeptOnTop` | scripts/fixlicense.py:197-217 | the lines kept are one that starts with `#!`, then one with `-*-` in it, then one that starts with `<?xml`, as far as they are there |
| `License.CopyHeaders` | scripts/fixlicense.py:194-220 | header lines are copied, each kind once and in order, on removal with one blank line dropped behind each |
| `License.AddLicense` | scripts/fixlicense.py:188-240 | the written file is headers, a blank line if there were any, the licence block, one blank line, and the body; with a notice block, the licence stands behind the line that opens that |
| `License.DelLicense` | scripts/fixlicense.py:305-418 | the written file is what is left when headers and licence block are read over, or the licence in a notice block and its contributors, or a mismatch is reported |
| `LicenseText.LicenseLineIs` | scripts/fixlicense.py:221-226 | in front of a tab or of nothing at all the start is written without its trailing white space, otherwise as it is |
| `LicenseText.WriteLines` | scripts/fixlicense.py:221-226 | the licence lines in order, with the start trimmed before tabs and on empty lines |
| `License.WriteBlock` | scripts/fixlicense.py:219-232 | the lines around the licence and the licence lines between them |
| `License.MatchBlock` | scripts/fixlicense.py:371-416 | reading over the licence block line by line, and when it does not match |
| `LicenseNotice.AddToNotice` | scripts/fixlicense.py:189-229 | the licence goes behind the notice and a rule below it, with a line of its own before it, and nothing else changes |
| `LicenseNotice.WhereTheNoticeEnds` | scripts/fixlicense.py:70 | the notice ends behind the first `Copyright Notice:` at the end of a line or, when the next line ends in six dashes, behind that |
| `LicenseNotice.SkipStart` | scripts/fixlicense.py:310-314 | the loop over lines like the opening one ends on every file with a notice, even when it starts again at the beginning of the file |
| `LicenseNotice.MatchLines` | scripts/fixlicense.py:315-334 | each line of the licence is found in its line, or a mismatch is reported, going on at the beginning of the file where no line feed is ahead |
| `LicenseNotice.SkipList` | scripts/fixlicense.py:343-351 | the loop reads over all lines that start like a comment and say something, and no other |
| `LicenseNotice.ListLines` | scripts/fixlicense.py:343-347 | a line is taken for one of the list if and only if its normal form has more than one character and starts as comments do |
| `LicenseNotice.DelFromNotice` | scripts/fixlicense.py:307-352 | what is written, when a mismatch is reported, and that an empty licence makes the script fail |
| `LicenseRoundTrip.BehindWholeBlock` | scripts/fixlicense.py:371-416 | a block that was written is always recognised, in any style |
| `LicenseRoundTrip.SkippingHeaders` | scripts/fixlicense.py:353-370 | removal finds the same header lines that adding kept, and the blank line put behind them |
| `LicenseRoundTrip.RemovedAfterAdded` | scripts/fixlicense.py:194-418 | without a notice block, removing what was added never reports a mismatch and returns the file less at most one blank line behind the headers |
| `LicenseRoundTrip.CutHeaderIsNotRestored` | scripts/fixlicense.py:194-240 | a header line cut off by the end of the file never comes back as it was |
| `NoticeRoundTrip.NoticeEndStays` | scripts/fixlicense.py:189-193 | the end of the notice is found where it was, whatever is put behind it |
| `NoticeRoundTrip.RemovedAfterAdded` | scripts/fixlicense.py:307-352 | with a notice block, removing what was added never reports a mismatch and returns the file less what is taken for a list of contributors |
| `NoticeRoundTrip.RoundTrip` | scripts/fixlicense.py:189-352 | with a notice block, removing undoes adding if and only if nothing that follows the notice is taken for a list of contributors, nor, where no line is complete there and comments have no start, the first line of the file |
| `LicenseRoundTrip.RoundTripBehindHeaders` | scripts/fixlicense.py:194-418 | without a notice block, removing undoes adding if and only if the headers are complete and no blank line follows them |
| `LicenseRoundTrip.RoundTrip` | scripts/fixlicense.py:188-418 | the same of every file, with the condition that applies to it |
| `LicenseRules.RulesAreUsable` | scripts/fixlicense.py:118-148 | with any style of the suffix table a licence can be told from the file if and only if it is a list of lines, none ends like the line that opens a notice block, and an Emacs mode line does not come first where nothing is put before it |
| `LicenseRules.RulesAreNoticeUsable` | scripts/fixlicense.py:118-148 | with any of those styles a licence can be told from the line that opens it in a notice block if and only if it is a list of lines of which the first is there and not blank |
| `LicenseRules.RoundTripOfRules` | scripts/fixlicense.py:118-418 | for every file, with any of those styles and licences, removing undoes adding under exactly the same condition |
| `LicenseRules.BlankLineIsLost` | scripts/fixlicense.py:194-418 | a file that starts with a blank line comes back without it |
| `LicenseRules.CutHeaderIsChanged` | scripts/fixlicense.py:194-418 | a file that is one header line without a line feed does not come back |
| `LicenseRules.ContributorsAreLost` | scripts/fixlicense.py:342-352 | a line that tells of contributors behind the notice goes with the licence |
| `LicenseRules.FileIsRepeated` | scripts/fixlicense.py:335-352 | an HTML file that ends with the notice does not come back when its first line tells of contributors |
| `Internalizer.Internalizer.Add` | scripts/internalize_dylibs.py:82-108 | a file is taken up unless known, not loadable, or its name is in use; an unknown file that does not exist is recorded as an error |
| `Internalizer.Internalizer.AddStandard` | scripts/internalize_dylibs.py:68-80 | the loadable files of the bundle become the roots, without new names |
| `Internalizer.Internalizer.AddNeeds` | scripts/internalize_dylibs.py:117-124 | all that a file needs, by what it refers to when it is read, is taken up or shut out by a name in use; exactly the references that must be are to change |
| `Internalizer.Internalizer.Rewrite` | scripts/internalize_dylibs.py:125-174 | a file with a new name is copied over whatever stands there, and in its place all references to libraries outside the safe places are changed, no others |
| `Internalizer.Internalizer.Process` | scripts/internalize_dylibs.py:110-130 | one file keeps worklist, names, copies, contents and changed references in agreement, whatever its copy replaces |
| `Internalizer.Internalizer.Run` | scripts/internalize_dylibs.py:110-115 | the worklist empties, in whatever order, and the agreement holds at the end |
| `InternalizerResults.ReachedIfKept` | scripts/internalize_dylibs.py:82-130 | if no file of the bundle was replaced, exactly the reachable files were processed if and only if no two libraries to copy share a base name |
| `InternalizerResults.KeptIffNamesAreFree` | scripts/internalize_dylibs.py:132-143 | no file of the bundle is replaced if no library to copy has the name of one in the framework directory, and, when their names differ, only then |
| `InternalizerResults.ProcessedAreReachable` | scripts/internalize_dylibs.py:82-143 | in whatever order: exactly the reachable files are processed and nothing is replaced, if and only if every library to copy has a free place of its own |
| `InternalizerResults.NamesAreUnique` | scripts/internalize_dylibs.py:98-107 | no two processed libraries were given one name, and each was copied |
| `InternalizerResults.BundleIsSelfContained` | scripts/internalize_dylibs.py:117-180 | afterwards no file of the bundle, copies included, refers to anything outside the safe places, and every other reference is as it was, whatever was replaced |
| `InternalizerResults.ReferencesAreRight` | scripts/internalize_dylibs.py:117-174 | by what a file then refers to, the loader finds just the library it needs if and only if that was copied and the copy not replaced, or stands in the framework directory unreplaced; with free places for all, if and only if it can be loaded and was to be copied, or stands there |
| `InternalizerResults.NeedsAreFound` | scripts/internalize_dylibs.py:117-174 | with free places for all, each reference of a processed file to a library from outside the bundle then names the place of its copy |
| `InternalizerResults.Internalize` | scripts/internalize_dylibs.py:68-130 | taking up the bundle and emptying the worklist terminates and achieves that, under exactly that condition |
| `InternalizerFailures.DanglingReference` | scripts/internalize_dylibs.py:117-130 | a bundle whose library cannot be loaded ends up referring to a name that nothing has |
| `InternalizerFailures.LostLibrary` | scripts/internalize_dylibs.py:98-105 | of two needed libraries with one base name, one is not processed |
| `InternalizerFailures.ReplacedLibrary` | scripts/internalize_dylibs.py:117-143 | a library replaces the file of the bundle with its name before that was read, and what only that file needs is not processed, although no two libraries share a name |
| `Preferences.UnixPreferences.Save` | src/player_gtk/unix_preferences.cpp:222-257 | the header and one line for each preference are written, in table order |
| `Preferences.UnixPreferences.LoadPreference` | src/player_gtk/unix_preferences.cpp:104-167 | only the named preference changes, and only to an accepted value |
| `Preferences.UnixPreferences.Load` | src/player_gtk/unix_preferences.cpp:190-220 | reading through the 1024-byte buffer, with comments, malformed lines and nameless lines |
| `PreferencesRoundTrip.AtoiOfIntText` | src/player_gtk/unix_preferences.cpp:138-146 | every integer is read back from its decimal text |
| `PreferencesRoundTrip.AtoiReads` | src/player_gtk/unix_preferences.cpp:138-146 | on any text: the number is read behind white space and one sign, from as many digits as follow |
| `PreferencesRoundTrip.IntTextIsDecimal` | src/player_gtk/unix_preferences.cpp:236-239 | an integer is saved as digits without a leading zero, with a minus sign exactly where it is negative |
| `PreferencesRoundTrip.LoadedIs` | src/player_gtk/unix_preferences.cpp:104-167 | a value that is read changes the first preference of its name to what its kind makes of the text, unless that is restricted to other values; no other preference changes |
| `PreferencesRoundTrip.OtherLinesAreLoaded` | src/player_gtk/unix_preferences.cpp:203-214 | in any file a comment does nothing, and a line without an equals sign ends the loading |
| `PreferencesRoundTrip.PairsAreLoaded` | src/player_gtk/unix_preferences.cpp:203-217 | in any file a line loads what is behind its first equals sign without trailing white space; one without a name makes the loading fail but it goes on |
| `PreferencesRoundTrip.SavedLineIsRead` | src/player_gtk/unix_preferences.cpp:293-307 | a saved line comes through the buffer whole and is split where it was joined, values with equals signs included |
| `PreferencesRoundTrip.LoadOfSaved` | src/player_gtk/unix_preferences.cpp:190-257 | loading what was saved succeeds and restores each value, strings up to trailing white space, unless the text is not an accepted one |
| `PreferencesRoundTrip.RoundTrip` | src/player_gtk/unix_preferences.cpp:190-257 | for any values at all, everything is restored whatever was in memory if and only if each line fits the buffer without a line feed in the value, and each value survives on its own |
| `PreferencesRoundTrip.TrailingSpaceIsLost` | src/player_gtk/unix_preferences.cpp:293-307 | a string that ends in a space comes back without it |
| `PlayerPreferences.TableIsWellNamed` | src/player_gtk/unix_preferences.cpp:71-81 | the player's own table has the names that the round trip asks for |
| `PlayerPreferences.PlayerRoundTrip` | src/player_gtk/unix_preferences.cpp:71-257 | of the player's own preferences everything comes back, whatever was in memory, if and only if parser and scheme are ones that it knows and the two file names are plain text that fits the buffer; flags and 32-bit numbers always do |
| `IndentNanny.CheckLine` | scripts/indentnanny.py:57-66 | the rewriting loop terminates on every line and gives what the one-pass description says |
| `IndentNanny.ReplacedKeeps` | scripts/indentnanny.py:26-31 | every single replacement leads towards the same result |
| `IndentNanny.AcceptedLines` | scripts/indentnanny.py:18-66 | a line comes back if and only if it is blanks and at most a line feed, its indent is tabs and groups of four spaces or exactly two spaces, or it starts as a comment line or an access label |
| `IndentNanny.ReturnedLines` | scripts/indentnanny.py:57-66 | results are fixed points, the text behind the indent is untouched, and so is its column except for access labels |
| `Wildcard.EqualIffOverlap` | Documentation/mediasupport/dbsupport.py:26-85 | the mutually recursive equality terminates and holds if and only if a wildcard occurs or the two sides share a leaf |
| `Wildcard.EqualIsSymmetric` | Documentation/mediasupport/dbsupport.py:26-32 | equality is symmetric, and reflexive exactly for objects with a leaf or wildcard |
| `Wildcard.TransitiveIffSingle` | Documentation/mediasupport/dbsupport.py:26-85 | equality through an object is transitive if and only if the object has no wildcard and no two different leaves |
| `Wildcard.EqualIsNotTransitive` | Documentation/mediasupport/dbsupport.py:54-62 | the wildcard equals two different strings |
| `Wildcard.NothingIsNotItself` | Documentation/mediasupport/dbsupport.py:71-85 | no alternatives at all are not equal to themselves |
| `Wildcard.QueryEqualIsFieldwise` | Documentation/mediasupport/dbsupport.py:225-233 | queries are equal if and only if all six fields overlap, although the first is matched in one direction only |
| `Markup.LinkIsReplace` | Documentation/mediasupport/markup.py:404-413 | testing for the pattern before replacing it changes nothing |
| `Markup.EscapeIsMap` | Documentation/mediasupport/markup.py:400-418 | the chain of replacements is a one-pass character map, for every text |
| `Markup.UnescapeOfMap` | Documentation/mediasupport/markup.py:422-435 | the undoing chain inverts the map on text that spells none of three entities |
| `Markup.UnescapedHasNoEntity` | Documentation/mediasupport/markup.py:422-435 | whatever is unescaped, none of those three entities is left |
| `Markup.RoundTrip` | Documentation/mediasupport/markup.py:400-435 | unescaping undoes escaping if and only if a stated condition on the text holds |
| `Markup.EscapeIsNotUndone` | Documentation/mediasupport/markup.py:400-435 | an apostrophe comes back as a quote, and text that spells an entity does not come back |

## Left out

- The threads of the player as running code: `Demuxer`, `PictureRing` and `Player` are transition systems on values, because the point is the interleaving; update in place is modelled by the `PacketQueue`, `AudioState` and `RefreshTimer` classes. Memory is sequentially consistent, and each lock region and each access to a shared field is atomic.
- Quitting and shutdown, and liveness: waits are not signalled on quit. `OneRefreshAndOneAllocation` says what a wait is for, not that it ends.
- Failure of `av_malloc` and `av_dup_packet` in `packet_queue_put`; both streams exist, as the decode loop requires.
- The decoders, the demuxer library and their answers are arbitrary inputs; the rescaling of the seek target between time bases is the identity.
- `synchronize_video`, the time stamp bookkeeping of `video_thread`, and the video and external clocks: time stamps of pictures and readings of the master clock are inputs.
- AudioCallback.AudioState.Callback: one callback at a time on a given list of packets and codec answers; `Sound` takes for that list the packets taken in a behaviour of the player. When packets or answers run out the callback waits for ever, which is reported as not returning.
- PacketQueues.PacketQueue.Get: one pass of its loop; a wait is reported as such and the pass is made again.
- FrameTimer.RefreshTimer.Refresh: clocks and delays are reals, so rounding of doubles is not captured. The same holds of `AudioOutput` and `Letterbox`.
- Letterbox.Place: an infinite aspect ratio, for which the conversion to an integer is undefined in C.
- Sound.NoSoundFromBeforeASeekAfterIt: quitting comes after all packets given; the silence played then is from no packet.
- MasterSync.DifferenceShrinks: frames as far apart as in the first step, a picture always ready, and the wait not rounded to whole milliseconds; the wait of 10 ms is whole.
- Integer widths: counters, sizes and preference values are unbounded; `atoi` on text beyond the range of int is undefined in C and a plain number here.
- `d3.csv.parse` (objects from a header row); a callback of `parseRows` is a function without side effects, and fields are strings of characters.
- LicenseRoundTrip.RoundTrip: for licences and styles that can be told from the rest of a file (no line breaks inside, comment lines not only white space, first written line not like a header or, in a notice block, not like a bare comment start).
- Choosing a comment style by file suffix, temporary and backup files, permission bits.
- In the internalizer: the staging directory and `DSTROOT`, checking without changing, `otool`, `install_name_tool` and `file` as processes, and the `-id` of a copy. The links of the file system are a function that the run does not change, and which files exist and can be loaded is as before the run. A directory in the place of a copy is a file like others.
- InternalizerResults.Internalize: there are finitely many files within reach; a set of them is a ghost parameter, as in `Run`.
- Loading preferences from the environment, opening the file, and log output.
- Walking and rewriting source files in `indentnanny.py`.
- Container and media format objects, entries and footnotes in `dbsupport.py`; page and element classes in `markup.py`.
- `tutorial03.c` to `tutorial07.c`, the other copies of the preferences and of the internalizer, the user interfaces, plugins and generators.
