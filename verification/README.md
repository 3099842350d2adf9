# Oak: verified models

A Dafny model of nine parts of Oak, each proved against what its code, tests and documentation promise.

| part | files |
|---|---|
| Waveform mipmap store: the min/max pyramid, its edits, its queries and the streaming extractor | `WaveformTiles`, `WaveformSpec`, `Waveform`, `WaveformTheorems`, `WaveformAppend`, `WaveformQueries`, `WaveformArithmetic`, `WaveformExtract`, `Peaks`, `Rationals` |
| Waveform synchronisation: RMS envelope, masked correlation, stretch search | `WaveformSync`, `Correlation`, `EnvelopeShift` |
| Export presets: the XML cursor, escaping, `load` and `save_to_string` | `PresetXml`, `PresetGrammar`, `PresetPrinting`, `XmlEscape`, `PresetNames`, `PresetDocument`, `PresetFile`, `PresetFormat`, `PresetRoundTrip`, `PresetResave` |
| Preview audio: the byte queue, the output callback and the playback clock under every interleaving | `PreviewAudio`, `PlaybackProtocol` |
| Civil dates from day numbers, against the Gregorian calendar of section 3.2.1 of ISO 8601:2004 | `CivilDate` |
| Upstream footage search on a cyclic graph | `FootageSearch` |
| Shortcut override table, runs of the preferences page, the shortcuts file | `Shortcuts`, `ShortcutRuns`, `ShortcutFile` |
| Image-sequence renaming | `ImageSequence` |
| Shared: replace-all, decimals, trimming; multiplication and division by repetition | `Text`, `Strides`, `Wrappers` |

Code that changes state is modelled by classes and methods with loops, each proved equal to a function of the old
state; the theorems are lemmas about those functions, and where a function says what a format, a position or a number
is, further lemmas say it again from the inputs alone, with the literal names, rates and indices. Floats are reals, `Rational` is an exact rational or the 0/0
value, text is ASCII.

## Findings

Properties that the documentation or the design promises and the code does not keep, each with the exact condition
under which it holds.

- **A negative `trim_in` prepends nothing.** It is documented as prepending silence, but the amount is computed as
  0/0 minus the length (`crates/oak-audio/src/waveform.rs:397-434`), which is 0/0 and converts to no samples. Lookups
  by absolute time survive exactly when the level holds only silence
  (`WaveformQueries.NegativeTrimKeepsLookupsOnlyInSilence`; a failing input: `WaveformQueries.LoudPointIsLost`). A
  write or a silencing before the virtual start therefore goes over the oldest points
  (`WaveformQueries.EarlyWriteCoversOldPoints`, `WaveformQueries.EarlySilenceCoversOldPoints`).
- **A stored length of zero counts as "nothing written".** Writing a signal block by block equals writing it at once
  exactly when no block ends at time zero (`WaveformAppend.RunIsOneWrite`; a failing input:
  `WaveformAppend.BlockEndingAtZeroMovesTheStart`).
- **Clearing the queue is exact only between callbacks and without pending underruns.** After a `clear` or a clock
  reset the queue front returns to the clock exactly when the callback's effects still to come and the pending
  underruns cancel (`PlaybackProtocol.RestartedFrontIsAtClockExactly`; failing schedules:
  `PlaybackProtocol.ClearMidCallbackLeavesTheClockAhead`).
- **The underrun healing forgets what it does not drop.** An engine tick takes the underruns and drops frames in two
  calls. In a run without older drift none is left exactly when no underrun was counted between the calls and there was
  nothing to heal, or it dropped and enough was still queued at the second call
  (`PlaybackProtocol.HealRemovesDriftExactly`; undisturbed ticks: `PlaybackProtocol.HealRemovesDrift`; failing
  schedules: `PlaybackProtocol.ReadBeforeDropLeavesDrift`).
- **Resetting one shortcut can leave two owners of a key.** It keeps keys apart exactly when no other action holds one
  of the defaults, and an import exactly when its lines and the remaining defaults are apart
  (`ShortcutRuns.KeysApartExactly`; failing: `ShortcutRuns.ResetLeavesTwoOwners`,
  `ShortcutRuns.ImportLeavesTwoOwners`).
- **A preset round trip is exact only for normalised parameters**: flags 0 or 1, saved strings without leading white
  space, a channel layout below 2^63; the custom range is written and never read back
  (`PresetRoundTrip.RoundTripExactlyNormalized`, `PresetRoundTrip.LoadOfSave`, `PresetResave.SaveLoadSave`; failing
  inputs: `PresetRoundTrip.FlagTwoComesBackAsOne`, `PresetRoundTrip.LeadingSpaceIsLost`).
- **A negative frame number does not survive renaming**: the index read back is the magnitude, and 0 for the smallest
  number (`ImageSequence.IndexIsNumberExactlyFromZero`; a failing number: `ImageSequence.MinusOneReadsBackAsOne`). For a
  name with an empty stem, as ".png", the replace loop never finishes (`ImageSequence.EmptyStemNeverFinishes`,
  `ImageSequence.HiddenFileHasNoStem`).
- **Notifications fall short** of the intervals read as soon as one read passes two boundaries
  (`PreviewAudio.NotificationsCountIntervals`; a failing read: `PreviewAudio.TwoIntervalsNotifyOnce`).

## Model

| member | source | states |
|---|---|---|
| Waveform.SumSamples | crates/oak-audio/src/waveform.rs:530-560 | per channel the exact minimum and maximum of the clipped sample window, silence for an empty one |
| Waveform.ReSumSamples | crates/oak-audio/src/waveform.rs:566-600 | per channel the joined pairs of the clipped groups of an interleaved run |
| Waveform.OverwriteSamplesFromBuffer | crates/oak-audio/src/waveform.rs:153-193 | the finest level: the rounded tiles of the samples laid over the padded data |
| Waveform.OverwriteSamplesFromMipmap | crates/oak-audio/src/waveform.rs:197-235 | a coarser level built from the finer one equals the level computed from the samples, laid over the old data |
| Waveform.AudioVisualWaveform.OverwriteSamples | crates/oak-audio/src/waveform.rs:243-292 | the state becomes `Written(old state)`: start, length and all 14 levels |
| Waveform.AudioVisualWaveform.ValidateVirtualStart | crates/oak-audio/src/waveform.rs:142-148 | the state becomes `StartValidated(old state)` |
| Waveform.AudioVisualWaveform.SetChannelCount | crates/oak-audio/src/waveform.rs:128-130 | sets the channel count and nothing else |
| Waveform.AudioVisualWaveform.TrimIn | crates/oak-audio/src/waveform.rs:397-434 | the state becomes `Trimmed(old state)`, null lengths and the 0/0 amount of a negative one included |
| Waveform.AudioVisualWaveform.OverwriteSilence | crates/oak-audio/src/waveform.rs:366-390 | the state becomes `Silenced(old state)` |
| Waveform.AudioVisualWaveform.Resize | crates/oak-audio/src/waveform.rs:450-465 | the state becomes `Resized(old state)` |
| Waveform.AudioVisualWaveform.Mid | crates/oak-audio/src/waveform.rs:440-445 | a fresh store holding `MidOf(state)`, the original untouched |
| Waveform.AudioVisualWaveform.GetSummaryFromTime | crates/oak-audio/src/waveform.rs:493-523 | the answer is `Query(state)`, one pair per channel |
| WaveformTheorems.TilesNonEmptyExactlyFrom1024 | crates/oak-audio/src/waveform.rs:153-193 | the finest tiles ascend strictly from the first to the last exactly for rates of at least 1024 |
| WaveformTheorems.PyramidIsExact | crates/oak-audio/src/waveform.rs:153-292 | after one write into an empty store every point of every level and channel is exactly the minimum and maximum of its raw tiles |
| WaveformTheorems.WriteIsLocal | crates/oak-audio/src/waveform.rs:243-292 | a write at or after the start changes the points it covers and no others |
| WaveformAppend.AppendIsOneWrite | crates/oak-audio/src/waveform.rs:142-292 | two adjoining writes leave the state of one write of the glued signal exactly when the first does not end at time zero |
| WaveformAppend.RunIsOneWrite | crates/oak-audio/src/waveform.rs:142-292 | any list of blocks of whole 8 s periods equals one write, all levels included, exactly when no block ends at time zero |
| WaveformAppend.BlockEndingAtZeroMovesTheStart | crates/oak-audio/src/waveform.rs:142-148 | a concrete block that ends at time zero, for which block-wise and single writing differ |
| WaveformQueries.LevelForIsCoarsest | crates/oak-audio/src/waveform.rs:478-490 | the level chosen for a range is the coarsest that puts a point on it, the finest if none does, and the coarsest for a negative length |
| WaveformQueries.QueryMatchesRawScan | crates/oak-audio/src/waveform.rs:493-523 | inside a store filled by one write a query is the exact minimum and maximum of the raw samples under its clipped points |
| WaveformQueries.QueryPastTheEnd | crates/oak-audio/src/waveform.rs:493-523 | at or past the end a query is one zero pair per channel |
| WaveformQueries.TrimKeepsLookups | crates/oak-audio/src/waveform.rs:397-434 | a positive trim by whole points keeps every lookup of what remains |
| WaveformQueries.MidKeepsLookups | crates/oak-audio/src/waveform.rs:440-471 | `mid` keeps every lookup inside the range it takes |
| WaveformQueries.NegativeTrimKeepsLookupsOnlyInSilence | crates/oak-audio/src/waveform.rs:397-434 | a negative trim keeps the lookups exactly when the level is silent |
| WaveformQueries.LoudPointIsLost | crates/oak-audio/src/waveform.rs:397-434 | a concrete store whose lookup is lost by trimming back 8 s |
| WaveformQueries.SilenceIsLocal | crates/oak-audio/src/waveform.rs:366-390 | silencing at or after the start silences its own points and no others |
| WaveformQueries.EarlyWriteCoversOldPoints | crates/oak-audio/src/waveform.rs:142-148 | a write before the start covers the oldest points, the others keep their place |
| WaveformQueries.EarlySilenceCoversOldPoints | crates/oak-audio/src/waveform.rs:366-390 | the same for silence before the start |
| WaveformArithmetic.RoundedStartIs | crates/oak-audio/src/waveform.rs:153-193 | finest point q starts at interleaved position q * channels * rate / 1024, rounded half up, divided by the channels |
| WaveformArithmetic.SampleOfPointIs | crates/oak-audio/src/waveform.rs:153-235 | point p of a level starts where its first finest point does, 8192 of them under a point of the coarsest level down to 1 |
| WaveformArithmetic.SampleOfPointAtWholeRate | crates/oak-audio/src/waveform.rs:153-235 | at 1024 * k samples a second every finest point has exactly k samples |
| WaveformArithmetic.CoarsestIsUnique | crates/oak-audio/src/waveform.rs:478-490 | the level a query chooses is the one coarsest level, of the rates 1/8 to 1024, with floor(length * rate) at least 1 |
| WaveformArithmetic.QueryIndices | crates/oak-audio/src/waveform.rs:493-523 | a query after one write starts at point floor((start - written) * rate) and asks for floor(length * rate) points |
| WaveformArithmetic.QueryCoversItsPoints | crates/oak-audio/src/waveform.rs:493-523 | on any store a query that reads whole points is per channel the least minimum and greatest maximum of the points it covers |
| WaveformArithmetic.ShortQueryIsSilent | crates/oak-audio/src/waveform.rs:493-523 | a range shorter than 1/1024 s reads no point: one zero pair per channel, whatever is stored |
| WaveformArithmetic.PositiveTrim | crates/oak-audio/src/waveform.rs:397-434 | a positive trim moves the start, shortens the length down to zero, and shifts every level by floor(length * rate) points |
| WaveformArithmetic.SilencedLength | crates/oak-audio/src/waveform.rs:366-390 | silencing at or after the start leaves the later of the old end and the end of the silence |
| WaveformArithmetic.WrittenLength | crates/oak-audio/src/waveform.rs:243-292 | a write at or after the start leaves the later of the old end and the end of the write |
| WaveformArithmetic.ResizedEntries | crates/oak-audio/src/waveform.rs:450-465 | every level keeps its entries up to floor(length * rate) points and is padded there with zero pairs |
| WaveformArithmetic.MidSpan | crates/oak-audio/src/waveform.rs:440-471 | `mid` starts at the offset, has the length asked for, and holds the points from there on, cut or padded with silence |
| WaveformArithmetic.PastTheEndIsZero | crates/oak-audio/src/waveform.rs:493-523 | an entry no store holds shows as silence |
| WaveformArithmetic.WindowShows | crates/oak-audio/src/waveform.rs:530-560 | a window is the minimum and maximum of its samples as far as the plane reaches, and zero when it has none |
| WaveformExtract.AppendPending | crates/oak-audio/src/waveform.rs:640-651 | every plane grows by its own channel of the interleaved chunk |
| WaveformExtract.EmitPoints | crates/oak-audio/src/waveform.rs:654-688 | emits the points of all full windows, and of the rest on a flush, and drains what it emitted |
| WaveformExtract.Extract | crates/oak-audio/src/waveform.rs:790-824 | the points of the whole decoded stream, or the failure of any chunk |
| WaveformExtract.ExtractChunks | crates/oak-audio/src/waveform.rs:790-824 | any sequence of whole-frame chunks gives the points of the stream they make up |
| WaveformExtract.PointsAreExact | crates/oak-audio/src/waveform.rs:654-688 | there are n / spp points, rounded up, each the exact minimum and maximum of its window and channel |
| WaveformExtract.PendingStaysShort | crates/oak-audio/src/waveform.rs:654-688 | between chunks every plane keeps fewer than spp samples |
| WaveformExtract.ChunkingDoesNotMatter | crates/oak-audio/src/waveform.rs:790-824 | the decoded stream, and so the points, do not depend on the chunk size |
| WaveformExtract.ChannelHoldsItsSamples | crates/oak-audio/src/waveform.rs:640-651 | channel ch of a stream holds entry f * channels + ch of every frame f, in order |
| WaveformExtract.ExtractedPointsAreExact | crates/oak-audio/src/waveform.rs:640-688 | point p of channel ch is exactly the minimum and maximum of the stream entries i * channels + ch for the frames i of window p |
| Correlation.CauchySchwarz | crates/oak-audio/src/waveformsync.rs:190-230 | the squared cross sum is at most the product of the energies, with equality exactly without a residual |
| Correlation.ScoreBounds | crates/oak-audio/src/waveformsync.rs:190-230 | a score exists exactly with two pairs and enough energy, and lies in [-1, 1] |
| Correlation.ScoreIsOneExactlyForSameShape | crates/oak-audio/src/waveformsync.rs:190-230 | a score is 1 exactly when one side is a positive multiple of the other plus an offset |
| Correlation.ScoreIsNormalizedCross | crates/oak-audio/src/waveformsync.rs:190-230 | the score times the root of the energies' product is the cross sum, all three about the means |
| WaveformSync.ExtractRmsEnvelope | crates/oak-audio/src/waveformsync.rs:57-90 | one value per window, partial last one included, each the root of the mean square over all channels |
| WaveformSync.EnvelopeIsWithinPeak | crates/oak-audio/src/waveformsync.rs:57-90 | every envelope value lies between zero and the largest amplitude |
| EnvelopeShift.WindowRmsIsRootMeanSquare | crates/oak-audio/src/waveformsync.rs:57-90 | an envelope value is the root of the sum of squares of the window's samples of all channels, divided by their number |
| WaveformSync.EstimateEnvelopeOffsetValid | crates/oak-audio/src/waveformsync.rs:159-255 | the lag loops compute `Estimate`, the best eligible lag of the search range |
| WaveformSync.EstimateIsFirstMaximum | crates/oak-audio/src/waveformsync.rs:159-255 | the lag returned is the first maximiser among the eligible lags, valid exactly when there is one, with confidence in [0, 1] |
| WaveformSync.ConfidenceIsOneExactlyOnMatch | crates/oak-audio/src/waveformsync.rs:159-255 | the confidence is 1 exactly when the envelopes match in shape at some searched lag |
| EnvelopeShift.LagPairsCompare | crates/oak-audio/src/waveformsync.rs:175-215 | where at least two windows overlap, the pairs scored at a lag are exactly (ref[i], cand[i + lag]), in order, for the indices in range that both masks admit |
| EnvelopeShift.ShiftIsFound | crates/oak-audio/src/waveformsync.rs:159-255 | a candidate that repeats the reference s windows later, with energies of at least 1e-12, is found with confidence 1, and with offset s * window unless an earlier lag matches in shape |
| EnvelopeShift.SpreadShiftIsFound | crates/oak-audio/src/waveformsync.rs:159-255 | the same when two compared windows differ by 0.000002 |
| WaveformSync.EstimateStretchAndOffset | crates/oak-audio/src/waveformsync.rs:266-341 | the rate loop ends, tries exactly the rates of the grid and returns the best estimate among them |
| WaveformSync.PositionInBounds | crates/oak-audio/src/waveformsync.rs:290-320 | every resampling position falls on a window of the candidate |
| WaveformSync.ResampledBetween | crates/oak-audio/src/waveformsync.rs:290-320 | every resampled value lies between the two windows it falls between |
| EnvelopeShift.ResampledIsPlayed | crates/oak-audio/src/waveformsync.rs:290-320 | resampled window i is the linear interpolation at i * rate, admitted exactly when both its windows are |
| EnvelopeShift.StraightStaysStraight | crates/oak-audio/src/waveformsync.rs:290-320 | a straight envelope stays straight, with rate times its slope |
| WaveformSync.StretchIsAtLeastPlain | crates/oak-audio/src/waveformsync.rs:266-341 | with no mask and rate 1 on the grid the result is valid and at least as confident as the plain estimate |
| EnvelopeShift.StretchIsFound | crates/oak-audio/src/waveformsync.rs:266-341 | a rate of the grid at which the played candidate is the reference some windows late is found with confidence 1 |
| EnvelopeShift.GridCounts | crates/oak-audio/src/waveformsync.rs:266-341 | one rate is tried for every whole step between the bounds, and one more when half a step or more is left over |
| CivilDate.CivilStep | crates/oak-app/src/manager.rs:491-503 | the date of every day is valid and the next day's is its calendar successor |
| CivilDate.CivilEpoch | crates/oak-app/src/manager.rs:491-503 | day 0 is 1970-01-01 |
| CivilDate.CivilMatchesCount | crates/oak-app/src/manager.rs:491-503 | counting the days to the date by the leap-year rules gives the day number back |
| CivilDate.CountThenCivil | crates/oak-app/src/manager.rs:491-503 | every valid date comes back from its day number |
| PreviewAudio.PreviewAudioDevice.Read | crates/oak-audio/src/previewdevice.rs:82-120 | takes the front of the queue in order and notifies exactly when an interval boundary is passed |
| PreviewAudio.PreviewAudioDevice.Write | crates/oak-audio/src/previewdevice.rs:126-130 | appends to the queue and changes nothing else |
| PreviewAudio.PreviewAudioDevice.Clear | crates/oak-audio/src/previewdevice.rs:172-177 | empties the queue and restarts clock and byte counter; pending underruns stay |
| PreviewAudio.PreviewAudioDevice.DropFrontFrames | crates/oak-audio/src/previewdevice.rs:196-207 | drops at most the frames asked for, and says how many |
| PreviewAudio.PreviewAudioDevice.QueuedFrames | crates/oak-audio/src/previewdevice.rs:180-186 | whole frames queued, 0 while the frame size is unknown |
| PreviewAudio.PreviewAudioDevice.TakeUnderrunFrames | crates/oak-audio/src/previewdevice.rs:225-228 | returns the pending underruns and leaves none |
| PreviewAudio.PreviewAudioDevice.ResetOutputFrames | crates/oak-audio/src/previewdevice.rs:235-238 | restarts the clock and nothing else |
| PreviewAudio.OutputCallback.OnOutput | crates/oak-audio/src/outputdevice.rs:124-173 | the block is the front of the queue in whole frames, then silence, whatever the scratch buffer held; clock and underruns advance accordingly |
| PreviewAudio.BlockPlaysWholeFrames | crates/oak-audio/src/outputdevice.rs:124-173 | sample i of a block is decoded from bytes 4i to 4i + 3 of the queue as far as whole frames go, and is 0 from there on |
| PreviewAudio.ReadInTurn | crates/oak-audio/src/previewdevice.rs:82-120 | any series of reads notifies as often as `Notifications` counts |
| PreviewAudio.NotificationsCountIntervals | crates/oak-audio/src/previewdevice.rs:82-120 | notifications number the whole intervals read exactly when no read passes two boundaries, and never more |
| PreviewAudio.ShortReadsCrossOnce | crates/oak-audio/src/previewdevice.rs:82-120 | reads no longer than the interval never pass two boundaries |
| PreviewAudio.TwoIntervalsNotifyOnce | crates/oak-audio/src/previewdevice.rs:82-120 | one read of two whole intervals notifies once |
| PlaybackProtocol.CallbackTakesThreeSteps | crates/oak-audio/src/outputdevice.rs:124-173 | an undisturbed callback takes a device through the three steps of the protocol |
| PlaybackProtocol.EveryRunAccounts | crates/oak-audio/src/outputdevice.rs:153-172 | in every interleaving clock and in-flight frames equal frames played, underruns taken, pending and in flight, relative to the epoch's start |
| PlaybackProtocol.EveryRunKeepsHistory | crates/oak-audio/src/previewdevice.rs:82-207 | in every interleaving the bytes taken off the queue, in order, and the queue make up the bytes written |
| PlaybackProtocol.NothingStaleAfterClear | crates/oak-audio/src/previewdevice.rs:82-207 | after a clear and any steps without a restart the bytes consumed, then the queue, are the bytes of the writes since |
| PlaybackProtocol.ResetKeepsTheQueue | crates/oak-audio/src/previewdevice.rs:235-238 | a clock reset keeps the queue, the byte counter and the pending underruns |
| PlaybackProtocol.EveryRunStaysAligned | crates/oak-audio/src/previewdevice.rs:82-207 | with whole-frame writes the queue stays frame-aligned and the bytes consumed are the frames played and dropped |
| PlaybackProtocol.IdleFrontIsAtClock | crates/oak-audio/src/outputdevice.rs:153-172 | in every idle state the clock leads the queue by the drift, and the front is at the clock exactly without drift |
| PlaybackProtocol.EveryRunFromStart | crates/oak-audio/src/outputdevice.rs:153-172 | from construction on the clock counts frames played and underruns, and the front is at the clock exactly when dropped frames made up for every underrun |
| PlaybackProtocol.RestartedFrontIsAtClockExactly | crates/oak-audio/src/previewdevice.rs:172-177 | after a clear or clock reset the front of a settled state is at the clock exactly when effects in flight and pending underruns cancelled |
| PlaybackProtocol.ClearMidCallbackLeavesTheClockAhead | crates/oak-audio/src/previewdevice.rs:172-177 | schedules in which a clear between read and clock step leaves the clock ahead |
| PlaybackProtocol.HealRemovesDriftExactly | crates/oak-app/src/oakui/real.rs:1486-1512 | whatever the callback does between an engine tick's two calls, the tick leaves no drift exactly when no further underrun was counted and there was nothing to heal, or it dropped and enough was still queued |
| PlaybackProtocol.HealRemovesDrift | crates/oak-app/src/oakui/real.rs:1486-1512 | the same for an undisturbed tick, decided when it starts |
| PlaybackProtocol.ReadBeforeDropLeavesDrift | crates/oak-app/src/oakui/real.rs:1486-1512 | schedules in which a read before the drop leaves the clock one frame ahead |
| FootageSearch.FindInputFootage | crates/oak-cli/src/engine.rs:465-486 | ends on every graph and answers for the end of the first path, shortest and then earliest in edge order, to footage or a stale id: the footage, or nothing; without such a path, nothing |
| FootageSearch.WellFormedAnswer | crates/oak-cli/src/engine.rs:465-486 | on a well-formed graph an answer is found exactly when footage is reachable, at minimum distance |
| FootageSearch.ReachedInIsWalk | crates/oak-node/src/graph.rs:431-446 | a node is reached in d edges exactly when a walk of d input edges leads to it |
| FootageSearch.StaleSourceHidesFootage | crates/oak-cli/src/engine.rs:465-486 | on a graph with a dangling edge a stale source listed first hides the footage behind the second |
| PresetXml.Cursor.OneElement | crates/oak-codec/src/encodingparams.rs:621-692 | always ends, returns what `ParseElement` says and has moved forward on success |
| PresetXml.ParsePreset | crates/oak-codec/src/encodingparams.rs:696-699 | the root element or the reason it is refused |
| PresetGrammar.WrittenIsRead | crates/oak-codec/src/encodingparams.rs:555-692 | wherever a written form of an element stands, whatever its white space, missing equals signs and self-closing tags, the parser returns its tree and stops exactly at its end |
| PresetGrammar.ReadWasWritten | crates/oak-codec/src/encodingparams.rs:555-692 | whatever the parser reads, it read from a written form of the tree it returns |
| PresetGrammar.AcceptsExactlyWritten | crates/oak-codec/src/encodingparams.rs:555-699 | a document is accepted with a tree exactly when it begins with a written form of that tree |
| PresetGrammar.OtherEndTagIsRefused | crates/oak-codec/src/encodingparams.rs:603-619 | an element closed by another's end tag is refused, naming both |
| PresetGrammar.NoElementIsRefused | crates/oak-codec/src/encodingparams.rs:621-625 | text, or nothing, behind the leading white space is no element |
| PresetPrinting.ParsesPrinted | crates/oak-codec/src/encodingparams.rs:555-692 | wherever a printable tree stands printed, parsing returns it normalised and stops exactly at its end |
| XmlEscape.UnescapeUndoesEscape | crates/oak-codec/src/encodingparams.rs:776-787 | unescaping undoes escaping on every string, through the actual replace-all passes |
| XmlEscape.EscapeSpelled | crates/oak-codec/src/encodingparams.rs:776-781 | escaping spells out &, < and > character by character and keeps every other |
| XmlEscape.UnescapeIsDecoded | crates/oak-codec/src/encodingparams.rs:783-787 | the three replace-all passes read every string as one pass from the left over the three entities does |
| PresetFile.EncodingParams.SaveToString | crates/oak-codec/src/encodingparams.rs:421-521 | the text written is the printed form of the parameter tree |
| PresetFile.EncodingParams.Load | crates/oak-codec/src/encodingparams.rs:279-412 | refuses what is no preset and changes nothing then; otherwise assigns exactly the elements that are there |
| PresetFormat.SavedText | crates/oak-codec/src/encodingparams.rs:421-521 | the saved document, section by section, with the literal element names, their order, the printed fields and the literal codes of the pixel format, the scaling and the sample format |
| PresetFormat.RootLoaded | crates/oak-codec/src/encodingparams.rs:279-306 | load assigns the file name and the format from the elements of those names and leaves the custom range |
| PresetFormat.VideoSectionLoaded | crates/oak-codec/src/encodingparams.rs:308-373 | the video settings change exactly by the first element "video" |
| PresetFormat.SizeLoaded | crates/oak-codec/src/encodingparams.rs:308-373 | enabled, codec, width and height come from the elements so named |
| PresetFormat.TimingLoaded | crates/oak-codec/src/encodingparams.rs:308-373 | time base, interlacing and pixel aspect come from "timebase", "divider" and "pixelaspect" |
| PresetFormat.FormatLoaded | crates/oak-codec/src/encodingparams.rs:308-373 | the pixel format comes from "format": 0 to 4 are U8, U10, U16, F16 and F32, any other number is invalid |
| PresetFormat.BitRatesLoaded | crates/oak-codec/src/encodingparams.rs:308-373 | the bit rates and the buffer size come from the elements so named |
| PresetFormat.EncodingLoaded | crates/oak-codec/src/encodingparams.rs:308-373 | threads, image sequence and scaling, with its codes, come from the elements so named |
| PresetFormat.PixFmtLoaded | crates/oak-codec/src/encodingparams.rs:308-373 | the pixel format's name comes from "pixfmt", unescaped and cut |
| PresetFormat.AudioSectionLoaded | crates/oak-codec/src/encodingparams.rs:375-393 | the audio settings change exactly by the first element "audio" |
| PresetFormat.AudioLoaded | crates/oak-codec/src/encodingparams.rs:375-393 | enabled, codec, sample rate and bit rate come from the elements so named |
| PresetFormat.LayoutLoaded | crates/oak-codec/src/encodingparams.rs:375-393 | the channel layout is the number of "channellayout" as 64 unsigned bits |
| PresetFormat.SampleFormatLoaded | crates/oak-codec/src/encodingparams.rs:743-760 | the sample format comes from "format", codes 0 to 11, any other number is invalid |
| PresetFormat.SubtitlesSectionLoaded | crates/oak-codec/src/encodingparams.rs:395-408 | the subtitle settings change exactly by the first element "subtitles" |
| PresetFormat.SubtitlesLoaded | crates/oak-codec/src/encodingparams.rs:395-408 | all four subtitle settings come from the elements so named |
| PresetFormat.UnknownCodes | crates/oak-codec/src/encodingparams.rs:731-760 | codes out of range become invalid formats, and stretching |
| PresetFormat.ChildIsFirst | crates/oak-codec/src/encodingparams.rs:701-703 | of the children of one name the first counts |
| PresetFormat.SpacedNumberIsRead | crates/oak-codec/src/encodingparams.rs:716-722 | a number in range is read with any white space around it |
| PresetFormat.WidthIsLoaded | crates/oak-codec/src/encodingparams.rs:279-412 | a concrete document with one literal element "width" sets the width and the video flag, and nothing else |
| PresetFormat.BytesAt | crates/oak-codec/src/encodingparams.rs:769-773 | byte i of a fixed array is character i of the text, or NUL behind it |
| PresetDocument.SetCStr | crates/oak-codec/src/encodingparams.rs:769-773 | the array holds the text, cut to size, and NULs |
| PresetRoundTrip.LoadOfSave | crates/oak-codec/src/encodingparams.rs:279-521 | loading a saved preset into any target restores every saved field of enabled sections and leaves the rest, the custom range included |
| PresetRoundTrip.RoundTripExactlyNormalized | crates/oak-codec/src/encodingparams.rs:279-521 | the settings come back unchanged exactly for normalised parameters |
| PresetRoundTrip.RestoredIsNormalized | crates/oak-codec/src/encodingparams.rs:279-521 | what was loaded once is normalised, whatever was saved |
| PresetRoundTrip.FlagTwoComesBackAsOne | crates/oak-codec/src/encodingparams.rs:279-521 | an enabled flag of 2 is restored as 1 |
| PresetRoundTrip.LeadingSpaceIsLost | crates/oak-codec/src/encodingparams.rs:279-521 | a file name " a" is restored as "a" |
| PresetResave.SaveLoadSave | crates/oak-codec/src/encodingparams.rs:279-521 | save, load, save writes the same document exactly for normalised parameters |
| Shortcuts.ShortcutTable.StealShortcutFor | crates/oak-app/src/actions.rs:717-734 | the key is taken from every other action; reports the first owner |
| Shortcuts.StealEffect | crates/oak-app/src/actions.rs:717-734 | stealing removes the key from the other actions and changes nothing else |
| Shortcuts.ShortcutTable.OwnerOfShortcut | crates/oak-app/src/actions.rs:699-709 | finds the first owner of a canonical key |
| Shortcuts.ApplyShortcutOverrides | crates/oak-app/src/actions.rs:560-573 | the table holds the given lines only, later ones winning |
| Shortcuts.LastLineWins | crates/oak-app/src/actions.rs:560-573 | an action has the keys of its last line, and without a line its defaults |
| Shortcuts.SetBindsOneAction | crates/oak-app/src/actions.rs:576-630 | setting or removing an override gives one action these keys or its defaults and leaves every other |
| Shortcuts.WithoutFilters | crates/oak-app/src/actions.rs:717-734 | taking a key away keeps the keys of another canonical form, every one and in order |
| Shortcuts.WithoutOfOne | crates/oak-app/src/actions.rs:717-734 | a single key is taken away exactly when it has the canonical form |
| Shortcuts.ShortcutTable.ResetCustomShortcut | crates/oak-app/src/actions.rs:581-583 | removes the override of one action |
| Shortcuts.ShortcutTable.ResetAll | crates/oak-app/src/actions.rs:576-578 | removes every override |
| ShortcutRuns.AssignedKeyIsOwned | crates/oak-app/src/dialogs.rs:2559-2571 | after an assignment the action is the key's first owner |
| ShortcutRuns.NextEffect | crates/oak-app/src/dialogs.rs:2541-2645 | the keys of every action after a step, in terms of those before, for all five kinds of step |
| ShortcutRuns.KeysApartExactly | crates/oak-app/src/dialogs.rs:2541-2645 | in every run of assign, clear, reset, reset-all and import each key stays with one action exactly when every reset and import meets its guard |
| ShortcutRuns.EveryGuardlessRunKeepsKeysApart | crates/oak-app/src/dialogs.rs:2541-2605 | runs of assign, clear and reset-all always keep keys apart |
| ShortcutRuns.ResetOneKeepsKeysApartExactly | crates/oak-app/src/actions.rs:581-583 | a reset keeps keys apart exactly when no other action holds one of the defaults |
| ShortcutRuns.ImportKeepsKeysApartExactly | crates/oak-app/src/actions.rs:560-573 | an import keeps keys apart exactly when its lines and the remaining defaults are apart |
| ShortcutRuns.ResetLeavesTwoOwners | crates/oak-app/src/dialogs.rs:2578-2588 | assigning a default elsewhere and resetting leaves the key with two actions |
| ShortcutRuns.ImportLeavesTwoOwners | crates/oak-app/src/dialogs.rs:2612-2645 | importing two lines with one key leaves it with two actions |
| ShortcutRuns.EveryRunKeepsSingleKeys | crates/oak-app/src/dialogs.rs:2541-2645 | every run keeps each override at one key or none |
| ShortcutFile.SerializeShortcutFile | crates/oak-app/src/actions.rs:543-556 | the lines joined by line feeds, one key each |
| ShortcutFile.FileRoundTrip | crates/oak-app/src/actions.rs:513-556 | parsing a serialised file gives back its lines |
| ShortcutFile.FileIsReadLineByLine | crates/oak-app/src/actions.rs:513-541 | a file is read line by line; blank and malformed lines are passed over and the lines behind them are still read |
| ShortcutFile.LineIsRead | crates/oak-app/src/actions.rs:513-536 | what a line with a tab stands for, and exactly when it is malformed |
| ShortcutFile.LineNeedsATab | crates/oak-app/src/actions.rs:513-536 | a line without a tab is passed over |
| ShortcutFile.TextOfLines | crates/oak-app/src/actions.rs:543-556 | the text of a line is its id, a tab and its first key; lines are joined by line feeds |
| ShortcutFile.ParsedFileIsLegal | crates/oak-app/src/actions.rs:513-540 | any text parses to registered actions with at most one key, a keystroke |
| ShortcutFile.SaveLines | crates/oak-app/src/actions.rs:662-680 | writes exactly the overrides that differ from the defaults in canonical form |
| ShortcutFile.SavedLinesAreTheChanges | crates/oak-app/src/actions.rs:662-680 | the lines written are those of exactly the changed actions, in registry order, with their effective keys |
| ShortcutFile.KeysSurviveExactly | crates/oak-app/src/actions.rs:641-690 | an action's canonical keys survive saving and loading exactly when unchanged or at most one |
| ShortcutFile.RunsSurviveSaving | crates/oak-app/src/actions.rs:641-690 | after any run every action's canonical keys survive saving and loading |
| ShortcutFile.RunsWithFilesSurviveSaving | crates/oak-app/src/actions.rs:513-690 | the same for runs that import files of any text, when no keystroke holds a tab or a carriage return |
| ImageSequence.GetDigitCount | crates/oak-codec/src/decoder.rs:540-561 | the length of the longest digit run at the end of the stem |
| ImageSequence.GetIndex | crates/oak-codec/src/decoder.rs:571-592 | the number that run stands for, 0 when there is none or it does not fit |
| ImageSequence.ReplaceLoop | crates/oak-codec/src/decoder.rs:518-526 | the in-place loop ends and replaces every occurrence as replace-all does |
| ImageSequence.Transform | crates/oak-codec/src/decoder.rs:495-532 | every copy of the stem is replaced by the stem with the new digits |
| ImageSequence.RenamedKeepsTheName | crates/oak-codec/src/decoder.rs:495-532 | the new stem is the old one up to its digit run, then a minus for a negative number, zeros and the number's digits |
| ImageSequence.RenamedKeepsTheSuffix | crates/oak-codec/src/decoder.rs:495-532 | the suffix is kept when the stem does not occur in it |
| ImageSequence.ShotIsRenamed | crates/oak-codec/src/decoder.rs:495-532 | shot_0001.png with number 7 becomes shot_0007.png |
| ImageSequence.RenamedIndex | crates/oak-codec/src/decoder.rs:495-592 | the new digit run is the longer of the old run and the number's digits, and the index read back is the number's magnitude |
| ImageSequence.IndexIsNumberExactlyFromZero | crates/oak-codec/src/decoder.rs:495-592 | the index read back is the number written exactly when it is not negative |
| ImageSequence.MinusOneReadsBackAsOne | crates/oak-codec/src/decoder.rs:495-592 | any name renamed to number -1 is read back as number 1 |
| ImageSequence.EmptyStemNeverFinishes | crates/oak-codec/src/decoder.rs:518-526 | with an empty stem every turn of the loop finds another place and what is left never shrinks |

## Left out

- Floating-point rounding, NaN and infinities: samples, scores and times are reals; the square root is a parameter specified by its square.
- `Rational`: the 31-bit reduction cap and the minimum and maximum sentinels; integers are unbounded where the source never comes near its width.
- Waveform.AudioVisualWaveform.OverwriteSamples: a buffer has as many planes as the waveform has channels; with fewer the source leaves entries of the other channels as they were, with more it writes into the next point or past the end.
- Waveform.OverwriteSamplesFromBuffer: the same, as the finest level is where the planes are read.
- Waveforms: `overwrite_sums`, negative channel counts, and a samples-per-point of zero or less.
- Correlation of empty envelopes beyond the early return, the `f64` offset variant `estimate_offset`, and the synchroniser that calls them.
- Devices, codecs, decoders and file access: what they deliver are parameters; `cpal`, FFmpeg and the file system are not part of this model.
- PlaybackProtocol.CallbackTakesThreeSteps: the device's bytes per frame are taken to be four per channel, the size of an `f32`, and blocks hold whole frames.
- Locks and atomics: every callback and engine step is atomic, and one reader installs its notify callback before reading.
- Preset text outside ASCII (the cursor advances by bytes), bytes that are not UTF-8 in fixed arrays, and the wording of error messages.
- Image sequences: directory parts of a path.
- Shortcuts: keystroke syntax is an abstract canonical form; keys and ids hold no tabs, line ends or surrounding white space.
- The footage search is stated in both directions for well-formed graphs only; elsewhere a stale id met first ends it.
- `format_modified` beyond its date part, export tables, dialogs, menus and the rest of the user interface.
