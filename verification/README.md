# Music player service: queue and transport state machine

This project models two pieces of an Android music-player demo app in Dafny:

- **The playback core of `MusicService`.** It has five fields: a playing flag, a simulated position in
  milliseconds, the playlist, a cursor into the playlist (`-1` for "no song") and a repeat mode
  (`NONE`, `ONE`, `ALL`). The operations on these fields are:
  - queue edits: append one or several songs, insert-next, remove-at, clear;
  - transport: play, pause, stop;
  - cursor moves: next and previous;
  - the simulated clock (`getCurrentPosition`), which adds one second per read and runs
    song completion;
  - seeking.
- **The `Song` record.** This includes its `mm:ss` duration formatter and the sample catalogue.

The service's mutable object becomes an immutable `Player` record here. Every method becomes a
pure transition function. A method that returns a Boolean yields an `Outcome(state, ok)`. Reading
the clock yields a `Reading(state, position)`. The state invariant `MusicService.Valid` says:

- the cursor is `-1` exactly when the queue is empty;
- otherwise the cursor is between `0` and `|playlist|`;
- playing implies a non-empty queue;
- the position is never negative.

Every operation's contract includes `Valid(p) ==> Valid(result)`. `MusicServiceProps.Run` carries
the invariant through any sequence of calls.

Files:

- `kotlin_int.dfy`: Kotlin's truncating `Int` division and remainder.
- `songs.dfy`: `Song`, the formatter and the catalogue.
- `wrappers.dfy`: `Option`, for nullable results and for a call that throws.
- `music_service.dfy`: the state, the invariant and every operation.
- `music_service_props.dfy`: properties that relate several operations. These are the
  removal-survivor account, the inverse pairs, repeat-ALL cycling, completion timing and
  end-to-end runs.

Behaviour the model keeps as the code has it:

- **No separate paused state.** "Paused" is `!playing` with the position kept.
- **The cursor can sit one past the end.** Removing the current last song while playing under
  `NONE` or `ONE` leaves it there. In that state `getCurrentSong` is null and `getDuration` is
  30000. From there `playPrevious` moves back onto the last song even when one song is left, and
  `addNext` appends at the cursor's slot, so the inserted song becomes current.
- **Removing the current song while playing can skip a song.** The removal calls `playNext` on the
  shortened list, so the song that slid into the removed slot is skipped (`SurvivorSlot`).
- **Completion needs the position to be strictly past the duration.** A 3000 ms track started at 0
  completes on the fourth read of the clock, not the third.
- **A one-song queue under `ALL` stops at completion when the cursor is on its one song.**
  `playNext` cannot move to the index it is already on.
- **`seekTo` works with no current song.** It clamps against the 30000 ms fallback.
- **`seekTo` can throw.** If the current song's duration is negative, Kotlin's `coerceIn(0, d)`
  throws. The model returns `None` and leaves the fields unchanged.
- **`addNext` on a non-empty queue with cursor `-1` inserts at index 0.** This case is
  unreachable under the invariant.

Side effects and inputs:

- `updateNotification()` and all logging have no effect on the modelled fields. They are treated
  as no-ops.
- The Android resource handles `R.raw.sampleN` are generated by the build. `SampleSongs` takes them
  as a function parameter.

## Model

| member | source | states |
|---|---|---|
| KotlinInt.Div | app/src/main/java/com/android/musicsplayerapp/Song.kt:11-12 | Kotlin `/` truncates toward zero: the remainder lies in `[0, b)` for a non-negative dividend and in `(-b, 0]` for a negative one |
| KotlinInt.Rem | app/src/main/java/com/android/musicsplayerapp/Song.kt:11-12 | Kotlin `%` satisfies `a == b*(a/b) + r`, has magnitude below `b` and takes the sign of `a` |
| KotlinInt.AgreeOnNatural | app/src/main/java/com/android/musicsplayerapp/Song.kt:11-12 | on non-negative durations Kotlin's truncating arithmetic equals the Euclidean one |
| Songs.Pad2 | app/src/main/java/com/android/musicsplayerapp/Song.kt:13 | `%02d` on a non-negative value below 100 gives exactly two digits that read back as that value; a negative value above -100 gets a '-' followed by its magnitude's digits, one digit above -10 and two otherwise, with no padding |
| Songs.SecondsField | app/src/main/java/com/android/musicsplayerapp/Song.kt:11 | for `duration >= 0` the seconds field is `(duration/1000) % 60` and lies in `[0, 59]`; for `duration < 0` it is the negated field of `-duration`, `-(((-duration)/1000) % 60)`, as Kotlin's truncating operators give; it is always in `(-60, 60)` |
| Songs.MinutesField | app/src/main/java/com/android/musicsplayerapp/Song.kt:12 | for `duration >= 0` the minutes field is `(duration/60000) % 60` and lies in `[0, 59]`, so whole hours are discarded; for `duration < 0` it is `-(((-duration)/60000) % 60)`, as Kotlin's truncating operators give |
| Songs.FormatDuration | app/src/main/java/com/android/musicsplayerapp/Song.kt:10-14 | for `duration >= 0` the output is 5 characters: two digits that read back as the minutes, ':' at index 2, two digits that read back as the seconds; always 5 to 7 characters |
| Songs.FormatDurationEqualIff | app/src/main/java/com/android/musicsplayerapp/Song.kt:11-13 | two non-negative durations format identically if and only if their whole seconds agree modulo one hour |
| Songs.SubSecondIgnored | app/src/main/java/com/android/musicsplayerapp/Song.kt:11-12 | durations differing only below one second format identically |
| Songs.HoursDiscarded | app/src/main/java/com/android/musicsplayerapp/Song.kt:12 | adding one hour does not change the formatted text; 3600000 ms formats as "00:00" |
| Songs.NegativeDurationFormat | app/src/main/java/com/android/musicsplayerapp/Song.kt:7-13 | a negative duration is formatted without being rejected: -5000 ms gives "00:-5" |
| Songs.SampleSongs | app/src/main/java/com/android/musicsplayerapp/Song.kt:18-30 | the catalogue has exactly 10 songs; song k+1 has id k+1 and resource handle `raw(k+1)`; every duration is positive |
| Songs.SampleIdsDistinct | app/src/main/java/com/android/musicsplayerapp/Song.kt:18-30 | catalogue ids are pairwise distinct |
| Songs.SampleFormatted | app/src/main/java/com/android/musicsplayerapp/Song.kt:10-20 | the first sample (354000 ms) formats as "05:54" |
| MusicService.Valid | app/src/main/java/com/android/musicsplayerapp/MusicService.kt:12-16 | the state invariant: the cursor is -1 exactly when the queue is empty; otherwise it lies in `[0, size]`; playing implies a non-empty queue; the position is never negative; every transition's contract states `Valid(p) ==> Valid(result)` |
| MusicService.GetPlaylist | app/src/main/java/com/android/musicsplayerapp/MusicService.kt:237 | a copy of the queue with the same songs in the same order |
| MusicService.GetCurrentSongIndex | app/src/main/java/com/android/musicsplayerapp/MusicService.kt:247 | the cursor; on a valid state -1 exactly for an empty queue and otherwise in `[0, size]` |
| MusicService.GetRepeatMode | app/src/main/java/com/android/musicsplayerapp/MusicService.kt:249 | the repeat mode in force |
| MusicService.GetQueueSize | app/src/main/java/com/android/musicsplayerapp/MusicService.kt:251 | the number of queued songs, zero exactly for an empty queue |
| MusicService.IsMusicPlaying | app/src/main/java/com/android/musicsplayerapp/MusicService.kt:267 | the playing flag; on a valid state true only with songs queued and a non-sentinel cursor |
| MusicService.Initial | app/src/main/java/com/android/musicsplayerapp/MusicService.kt:12-16 | the initial fields are valid: empty queue, sentinel cursor, not playing, position 0, repeat NONE |
| MusicService.GetCurrentSong | app/src/main/java/com/android/musicsplayerapp/MusicService.kt:239-245 | a song is current exactly when the cursor is in `[0, size)`, and it is the song at the cursor |
| MusicService.GetDuration | app/src/main/java/com/android/musicsplayerapp/MusicService.kt:281-283 | the current song's duration, or 30000 when the cursor names no song |
| MusicService.AddToQueue | app/src/main/java/com/android/musicsplayerapp/MusicService.kt:72-79 | appends at the end and keeps the earlier songs in order; the cursor changes only from -1 to 0; transport fields are untouched; the invariant is preserved |
| MusicService.AddAllToQueue | app/src/main/java/com/android/musicsplayerapp/MusicService.kt:81-88 | the old queue followed by the new songs; the cursor moves from -1 to 0 only if the queue is then non-empty; the invariant is preserved |
| MusicService.AddNext | app/src/main/java/com/android/musicsplayerapp/MusicService.kt:90-104 | inserts at `min(cursor+1, size)` (at 0 on an empty queue), shifting the rest right; the cursor is unchanged except that an empty queue sets it to 0; the invariant is preserved |
| MusicService.RemoveFromQueue | app/src/main/java/com/android/musicsplayerapp/MusicService.kt:106-130 | fails, changing nothing, exactly for an index outside `[0, size)`; otherwise deletes exactly that slot; the cursor is repaired case by case (emptied queue stops; before the cursor shifts down; after it unchanged; the cursor's own slot while paused keeps or wraps to 0; while playing moves to cursor+1, wraps under ALL, or stays); the invariant is preserved |
| MusicService.ClearQueue | app/src/main/java/com/android/musicsplayerapp/MusicService.kt:253-259 | empty queue, cursor -1, not playing, position 0, repeat mode unchanged |
| MusicService.SetRepeatMode | app/src/main/java/com/android/musicsplayerapp/MusicService.kt:261-265 | only the repeat mode changes |
| MusicService.PlayMusic | app/src/main/java/com/android/musicsplayerapp/MusicService.kt:159-174 | an empty queue changes nothing; otherwise playing, cursor -1 becomes 0, position and queue kept |
| MusicService.PauseMusic | app/src/main/java/com/android/musicsplayerapp/MusicService.kt:176-180 | not playing; position, queue, cursor and repeat mode kept |
| MusicService.StopMusic | app/src/main/java/com/android/musicsplayerapp/MusicService.kt:182-187 | not playing and position 0; queue, cursor and repeat mode kept |
| MusicService.PlayNext | app/src/main/java/com/android/musicsplayerapp/MusicService.kt:189-210 | succeeds if and only if the queue is non-empty and either cursor+1 is in range or the mode is ALL and the cursor is not 0; on success the cursor moves to cursor+1 or wraps to 0; on failure nothing changes; only the cursor ever changes |
| MusicService.PlayPrevious | app/src/main/java/com/android/musicsplayerapp/MusicService.kt:212-233 | succeeds if and only if the queue is non-empty and either cursor-1 is at least 0 or the mode is ALL and the cursor is not the last slot; on success it moves to cursor-1 or wraps to size-1; on failure nothing changes; only the cursor ever changes |
| MusicService.OnSongCompletion | app/src/main/java/com/android/musicsplayerapp/MusicService.kt:132-157 | ONE rewinds to 0 keeping cursor and playing flag; otherwise a possible `playNext` moves the cursor to `playNext`'s target and keeps playing; when it is impossible, playback stops at position 0 on the same cursor |
| MusicService.GetCurrentPosition | app/src/main/java/com/android/musicsplayerapp/MusicService.kt:269-279 | not playing: nothing changes; playing and still within the duration: position +1000 and nothing else; strictly past the duration: returns 0 and keeps playing exactly when the mode is ONE or `playNext` succeeds, in which case outside ONE the cursor is `playNext`'s target; the invariant is preserved |
| MusicService.CoerceIn | app/src/main/java/com/android/musicsplayerapp/MusicService.kt:286 | Kotlin `coerceIn(lo, hi)` lands in `[lo, hi]`, is the identity inside it and pins values below or above it to the bounds |
| MusicService.SeekTo | app/src/main/java/com/android/musicsplayerapp/MusicService.kt:285-288 | throws (`None`) exactly when the duration is negative; otherwise the position is the target clamped into `[0, getDuration()]` and nothing else changes |
| MusicServiceProps.Step | app/src/main/java/com/android/musicsplayerapp/MusicService.kt:72-288 | every public call maps a valid state to a valid state |
| MusicServiceProps.Run | app/src/main/java/com/android/musicsplayerapp/MusicService.kt:72-288 | any sequence of calls from a valid state ends in a valid state |
| MusicServiceProps.SentinelIffEmpty | app/src/main/java/com/android/musicsplayerapp/MusicService.kt:106-125 | from the initial fields, after any calls, the cursor is -1 if and only if the queue is empty, and is otherwise at most the queue length |
| MusicServiceProps.QueriesAgree | app/src/main/java/com/android/musicsplayerapp/MusicService.kt:237-251 | the getters agree: size is the playlist length, the index is -1 exactly for an empty queue, no current song exactly at -1 or one past the end |
| MusicServiceProps.RemovalCurrentSong | app/src/main/java/com/android/musicsplayerapp/MusicService.kt:106-125 | after any removal the current song is the old slot an independent case table names, never the removed slot |
| MusicServiceProps.RemovalKeepsCurrentSong | app/src/main/java/com/android/musicsplayerapp/MusicService.kt:117 | removing a slot other than the cursor's keeps the same current song |
| MusicServiceProps.CursorPastEndReachable | app/src/main/java/com/android/musicsplayerapp/MusicService.kt:118-120 | removing the current last song while playing without ALL leaves a valid state with the cursor equal to the queue length, no current song and duration 30000 |
| MusicServiceProps.CursorPastEndMoves | app/src/main/java/com/android/musicsplayerapp/MusicService.kt:90-232 | with the cursor one past the end of a non-empty queue, `playPrevious` succeeds and lands on the last song even when only one song is queued, and insert-next makes the inserted song current |
| MusicServiceProps.AppendCurrentSong | app/src/main/java/com/android/musicsplayerapp/MusicService.kt:72-76 | appending keeps the current song; if the cursor was -1 or one past the end, the appended song becomes current |
| MusicServiceProps.AppendThenRemove | app/src/main/java/com/android/musicsplayerapp/MusicService.kt:72-125 | from a cursor on a song (`0 <= index < size`), removing the last slot exactly undoes an append |
| MusicServiceProps.InsertThenNext | app/src/main/java/com/android/musicsplayerapp/MusicService.kt:90-104 | from a cursor on a song (`0 <= index < size`), insert-next keeps the current song, and the following `playNext` lands on the inserted song |
| MusicServiceProps.InsertThenRemove | app/src/main/java/com/android/musicsplayerapp/MusicService.kt:90-125 | from a cursor on a song (`0 <= index < size`), removing the inserted slot exactly undoes insert-next |
| MusicServiceProps.NextThenPrevious | app/src/main/java/com/android/musicsplayerapp/MusicService.kt:189-233 | a successful next from a song is exactly undone by previous |
| MusicServiceProps.PreviousThenNext | app/src/main/java/com/android/musicsplayerapp/MusicService.kt:189-233 | a successful previous from a song is exactly undone by next |
| MusicServiceProps.RepeatAllCycles | app/src/main/java/com/android/musicsplayerapp/MusicService.kt:189-233 | under ALL with two or more songs, next is successor modulo the length and previous is predecessor modulo the length |
| MusicServiceProps.OneSongNeverAdvances | app/src/main/java/com/android/musicsplayerapp/MusicService.kt:132-210 | with one song and the cursor on it, next and previous fail in every mode, and completion under ALL stops playback at 0 |
| MusicServiceProps.EndOfQueue | app/src/main/java/com/android/musicsplayerapp/MusicService.kt:194-199 | without ALL, next at the last song fails and changes nothing |
| MusicServiceProps.PlayIdempotent | app/src/main/java/com/android/musicsplayerapp/MusicService.kt:159-174 | playing twice is the same as playing once |
| MusicServiceProps.PauseThenResume | app/src/main/java/com/android/musicsplayerapp/MusicService.kt:159-180 | pause then play restores the playing state exactly, position included |
| MusicServiceProps.StopThenRead | app/src/main/java/com/android/musicsplayerapp/MusicService.kt:182-187 | after stop the clock reads 0 and the state does not change |
| MusicServiceProps.ClearIsInitial | app/src/main/java/com/android/musicsplayerapp/MusicService.kt:253-259 | clearing yields the initial fields with the repeat mode kept |
| MusicServiceProps.TicksAdvance | app/src/main/java/com/android/musicsplayerapp/MusicService.kt:269-279 | while the position stays within the duration, k reads add k seconds and change nothing else |
| MusicServiceProps.CompletionTiming | app/src/main/java/com/android/musicsplayerapp/MusicService.kt:269-279 | from a position within the duration, completion fires on read `(duration - position)/1000 + 1`, which returns 0 |
| MusicServiceProps.SeekIdempotent | app/src/main/java/com/android/musicsplayerapp/MusicService.kt:285-287 | seeking again to the same target changes nothing |
| MusicServiceProps.SeekWithoutSong | app/src/main/java/com/android/musicsplayerapp/MusicService.kt:281-287 | with no current song, seek(-100) gives 0 and seek(99999) gives 30000 |
| MusicServiceProps.TwoTrackRun | app/src/main/java/com/android/musicsplayerapp/MusicService.kt:72-279 | tracks of 3000 ms and 5000 ms under NONE: the fourth read moves to the second track at 0, still playing; six more reads stop playback at 0 |
| MusicServiceProps.RepeatOneRun | app/src/main/java/com/android/musicsplayerapp/MusicService.kt:132-138 | a single 1000 ms track under ONE rewinds on the second read and keeps playing |

## Left out

- Android service plumbing (`LocalBinder`, `onBind`, `onCreate`, `onStartCommand` and its intent-action dispatch, `onDestroy`): framework lifecycle. It only calls the modelled operations.
- Notifications and logging (`createNotificationChannel`, `buildNotification`, `updateNotification`, `Log`): pure side effects through Android APIs, treated as no-ops.
- The activities and list adapters, including the once-per-second polling of the clock: user interface and timer glue.
- Shuffle: it exists only as commented-out code.
- `Song.resourceId`: kept as an uninterpreted integer. No audio is ever decoded.
- GetCurrentPosition: positions are mathematical integers. Kotlin's 32-bit wrap-around of `currentPosition += 1000` is not modelled.
- Song.duration: kept as a mathematical integer rather than a 32-bit `Int`. On every value in Kotlin's `Int` range the formatter's stated results are Kotlin's; larger values have no Kotlin counterpart.
- FormatDuration: for negative durations the contract states only the length, 5 to 7 characters. Locale-dependent digits from `String.format` are not modelled; digits are ASCII.
