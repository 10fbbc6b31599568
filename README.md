# gomusic playback queue in Dafny

This project models the playback queue of gomusic, a terminal music player. The player's `tracksQueue` holds the ordered list of loaded tracks, the index of the current track, an integer volume deviation with a mute flag, and a pause flag. On most changes it rebuilds one composite audio stream from the tracks that have not ended, and installs that stream in the speaker.

The model is split into these modules:

- `Options` (options.dfy): the optional value returned by the searches and by the volume step.
- `Paths` (paths.dfy): the final path element, the file extension, and the format gate that `loadTrack` applies before opening a file.
- `Tracks` (tracks.dfy): the track value and the pure functions the queue is specified with:
  - `LoadTrack`;
  - the restart of one track;
  - `Playable`, the play sequence built from the non-ended tracks;
  - the search by path (`hasTrack`) and the search by base name (`removeTrack`).
- `Volume` (volume.dfy): the integer volume step and its mute floor.
- `Playback` (queue.dfy): the class `TracksQueue`. Its fields are the ones the source updates in place:
  - `queue`, `currentTrack`, `volumeChange`, `silent` and `paused`;
  - `stream`, the composite stream currently installed in the speaker;
  - `calls`, a log of `speaker.Clear`/`speaker.Play` calls;
  - `closed`, a log of decoder handles closed.

  Each method states its complete new state in terms of the old one. `Valid()` is the invariant every method keeps:
  - `currentTrack` is 0 on an empty queue and a valid index otherwise;
  - `volumeChange >= -100`;
  - `silent` holds exactly at -100;
  - every track is read no further than its length and is resampled to the speaker's 44100 Hz.
- `Browser` (browser.dfy): the cursor moves of the file list and the window of 16 rows shown around the cursor.
- `Scenarios` (scenarios.dfy): short client runs that use only the class contracts.

Stream and speaker are modelled abstractly:
- The composite stream is the sequence of the paths it plays. Each path stands for that track's resampled view followed by the end-of-track notification.
- A decoder handle is reduced to a sample rate, a read position and a length.
- The resampler is reduced to the pair of rates it converts between.

Three behaviours of the code that are easy to misread, all modelled as written:
- `removeTrack` neither closes the removed track's decoder nor rebuilds the stream. `RemoveTrack` leaves `closed` and `stream` untouched.
- `restartTrack` seeks to 0 unconditionally (main.go:190), not only when the track had finished.
- An ended track need not be at the end of its decoder. The "f" key calls `nextTrack` mid-track, so that implication is not part of the invariant.

One behaviour is modelled corrected rather than as written. `TracksQueue.RestartTrack` (and through it `RestartCurrentTrack` and `RestartQueue`) rebuilds a finished track's view from the decoder's rate to 44100 Hz, as `loadTrack` does at main.go:74. Line 193 of main.go passes the two rates the other way round. `Tracks.RestartedAsWritten` models that line as written, and "## Findings" records the discrepancy.

## Model

| member | source | states |
|---|---|---|
| `Paths.BaseIsLastElement` | main.go:260 | the base name is the suffix of the path after its last '/', and holds no '/' |
| `Paths.ExtIsLastDotSuffix` | main.go:49 | the extension is the part of the base name from its last '.' on; it is empty exactly when the base name holds no '.' |
| `Paths.Format` | main.go:49-52 | the format is the extension without its leading dot, or empty when there is no extension |
| `Paths.SupportedIffMp3Suffix` | main.go:49-55 | a path passes the format gate exactly when it ends in ".mp3" |
| `Tracks.LoadTrack` | main.go:48-79 | the format error is returned exactly when the gate fails; "not a track" exactly for a directory; success exactly when decoding succeeds, giving a fresh, non-ended track at position 0 with the given path, resampled to 44100 Hz |
| `Tracks.Restarted` | main.go:186-198 | a restarted track is not ended, is at position 0 and keeps its path, rate and length; it stays well formed (the view is rebuilt only when the track was at its end) |
| `Tracks.RestartedAsWritten` | main.go:193 | the view rebuilt as written converts from 44100 Hz to the track's own rate |
| `Tracks.RestartAsWrittenBreaksView` | main.go:190-194 | some finished, well-formed track becomes ill-formed (wrong rate) when restarted as written |
| `Tracks.Playable` | main.go:139-153 | the play sequence is no longer than the queue |
| `Tracks.PlayableAppend` | main.go:139-153 | the play sequence of a concatenation is the concatenation of play sequences, i.e. queue order is kept |
| `Tracks.PlayableSplit` | main.go:139-153 | around any index the play sequence is the tracks before it, the track itself if not ended, then the tracks after it |
| `Tracks.PlayableMember` | main.go:141-147 | a path is in the play sequence exactly when some track with that path has not ended |
| `Tracks.PlayableAllFresh` | main.go:200-206 | when no track has ended the play sequence holds every track's path in order |
| `Tracks.RestartedQueuePlaysAll` | main.go:200-206 | after every track is restarted the play sequence is the whole queue |
| `Tracks.MarkEndedDropsTrack` | main.go:155-163 | marking a non-ended track ended removes exactly that track from the play sequence |
| `Tracks.HasPath` | main.go:113-120 | true exactly when some track has the given path |
| `Tracks.AppendKeepsDistinct` | main.go:133-136 | after appending, the path is present; appending a path that was absent keeps all paths distinct |
| `Tracks.FirstWithBase` | main.go:256-265 | the index of the first track whose base name matches, or none exactly when no track matches |
| `Tracks.DeleteKeepsInvariants` | main.go:270 | deleting one track keeps the other tracks well formed and their paths distinct |
| `Volume.NextVolume` | main.go:215-219 | a step is rejected exactly when it would take the deviation below -100; otherwise the deviation moves by exactly the step and stays at or above -100 |
| `Volume.StepsStayAboveMute` | main.go:215-219 | no sequence of volume steps takes the deviation below -100 |
| `Volume.TenStepsStayMultiples` | main.go:376-379 | with steps of +10/-10 from a multiple of ten, the deviation stays a multiple of ten, so -100 is reached exactly |
| `Browser.Up` | main.go:315-318 | moving up decrements the cursor, stops at 0, and keeps it on an entry |
| `Browser.Down` | main.go:328-331 | moving down (also after adding a track, main.go:362-364) increments the cursor, stops at the last entry, and keeps it on an entry |
| `Browser.ShownRows` | main.go:424-432 | the shown rows lie within the list, reach at most 8 rows before and 8 after the cursor, and include every entry from 8 before the cursor to 7 after it; this fixes the window at start = max(0, cursor−8), end = min(count, cursor+8) |
| `Playback.RestartCalls` | main.go:200-203 | restarting a queue makes at most two speaker calls per track |
| `Playback.RestartCallsEmpty` | main.go:186-203 | restarting a queue makes no speaker call exactly when no track was at its end |
| `Playback.TracksQueue.constructor` | main.go:94-107 | a new queue is empty, at index 0, at unity volume, not muted, not paused, with no stream installed |
| `Playback.TracksQueue.HasTrack` | main.go:113-120 | true exactly when some queued track has the path |
| `Playback.TracksQueue.CurrentTrack` | main.go:122-127 | nothing exactly on an empty queue, otherwise the track at the current index |
| `Playback.TracksQueue.AddTrack` | main.go:133-136 | the track is appended, earlier tracks unchanged; the installed stream becomes the old play sequence plus the new track unless it has ended; the invariant is kept |
| `Playback.TracksQueue.RebuildStreamer` | main.go:139-153 | the installed stream becomes exactly the paths of the non-ended tracks in queue order |
| `Playback.TracksQueue.NextTrack` | main.go:155-166 | on a non-empty queue only the current track is marked ended; at the last index the index, stream and speaker are unchanged; otherwise the index moves up by one, the stream is rebuilt and the speaker is cleared twice and played |
| `Playback.TracksQueue.PrevTrack` | main.go:168-177 | at index 0 nothing changes; otherwise the index moves down by one, only the new current track's ended flag is cleared (the left track keeps its flag), the stream is rebuilt and the speaker cleared twice and played |
| `Playback.TracksQueue.RestartCurrentTrack` | main.go:179-184 | on an empty queue nothing changes; otherwise the current track is restarted as by RestartTrack |
| `Playback.TracksQueue.RestartTrack` | main.go:186-198 | the track at the index is restarted (ended cleared, position 0); the stream is rebuilt and the speaker cleared and played exactly when the track had been at its end, otherwise stream and speaker are untouched |
| `Playback.TracksQueue.RestartQueue` | main.go:200-206 | every track is restarted in order, no track is ended or off position 0, the index is 0, the stream holds every track, and the speaker log gains one clear/play pair per track that was at its end |
| `Playback.TracksQueue.Play` | main.go:208-213 | the speaker is cleared, and played only when the queue is non-empty |
| `Playback.TracksQueue.ChangeVolume` | main.go:215-230 | a step below -100 is rejected with no state change; otherwise the deviation moves by the step, mute is set exactly at -100, and the speaker is cleared and played |
| `Playback.TracksQueue.Unpause` | main.go:236-240 | the pause flag is false |
| `Playback.TracksQueue.Pause` | main.go:246-250 | the pause flag is true |
| `Playback.TracksQueue.RemoveTrack` | main.go:256-271 | with no matching base name nothing changes; otherwise the first match is deleted, the others keep their order, the index becomes match−1 (or 0 at match 0), distinct paths stay distinct, the stream is not rebuilt and no decoder is closed |
| `Playback.TracksQueue.Clear` | main.go:274-283 | every track's decoder is closed in queue order; the queue is empty, the index 0, and no stream is installed |
| `Scenarios.NextTwice` | main.go:155-166 | with three fresh tracks, two "next" calls leave index 2, the first two ended, and a stream holding only the third |
| `Scenarios.NextThenPrevious` | main.go:168-177 | "next" then "previous" from the first of two tracks returns to index 0 with the first track playable again and the second track's flag unchanged |
| `Scenarios.MuteFromUnity` | main.go:215-224 | from unity gain a step of -110 is rejected and a step of -100 mutes |

## Left out

- Floating-point volume: the `Volume` exponent `log10(100 + d) - 2` (main.go:227) and `getVolumePercents` (main.go:232-234). Only the integer deviation and the mute flag are modelled.
- The beep library is replaced by abstract values. `Seq`, `Callback`, `Resample`, `mp3.Decode`, `Ctrl` and `effects.Volume` become the `stream` field and the `Resampling` value, with no sample data.
- `speaker.Lock`/`Unlock`: the model is sequential, so the audio thread and the lock are not modelled. `speaker.Clear`/`Play` are recorded in the `calls` log.
- The end-of-track notification (`program.Send`) and the bubbletea event loop: this is cross-thread messaging.
- The speaker's consumption of samples happens on the audio thread, so a track's position changes only through restarts. Positions and lengths are given as inputs.
- `os.Open`, `Stat` and the decoder inside `loadTrack` are reduced to a `FileProbe` parameter. Directory navigation (`goToCursorDir`, `updateChoices`, `goUpDir`), the text rendering in `View`, the "checked" marker loop in `View`, and `main` are UI or process setup.
- `filepath.Base` and `filepath.Ext` are reduced to "after the last '/'" and "from the last '.' of the final element". Go's trailing-slash stripping and its "." for an empty path are not modelled.
- `getTracks`, `getCurrentTrackIndex` and `len` are direct reads of `queue`, `currentTrack` and `|queue|`. `paused()` is the function `Paused`, which has no contract of its own.
- Go's 64-bit `int`: the model uses unbounded integers. Overflow of `volumeChange` or `currentTrack` cannot happen with the player's ±10 steps and one-step moves.
- Playback.TracksQueue.RestartTrack: requires the index to be in range. The source has no bounds check and would panic; its only callers pass valid indices.
- Playback.TracksQueue.AddTrack: its contract does not state that the path becomes present or that distinctness is kept. Those facts are proved about `queue == old(queue) + [t]` by `Tracks.AppendKeepsDistinct`.

## Findings

| source | as written | input that shows it | evidently intended | confidence | as-written member | corrected member |
|---|---|---|---|---|---|---|
| main.go:193 | a finished track is resampled again with the rates swapped: from 44100 Hz to the decoder's rate | an mp3 decoded at 48000 Hz, played to its end, then restarted ("r" or "R"): its new view no longer converts to the speaker's 44100 Hz, so it plays at the wrong speed | resample from the decoder's rate to 44100 Hz, as `loadTrack` does at main.go:74 | high for tracks not at 44100 Hz; not executed | `Tracks.RestartAsWrittenBreaksView` | `Tracks.Restarted` |
