/**
  The playback queue and transport state machine of the music service:
  five fields (playing flag, simulated position, playlist, cursor, repeat
  mode) and the operations that read and change them. Each operation is a
  pure transition from one `Player` value to the next; the notification the
  service refreshes after a change has no effect on these fields and is
  left out.
 */
module MusicService {
  import opened Wrappers
  import opened Songs

  datatype RepeatMode = NONE | ONE | ALL

  /** The service's playback fields. `index` is the cursor into `playlist`,
      or `NoSong`. There is no separate paused state: a paused player is one
      that is not playing and has kept its position. */
  datatype Player = Player(
    playing: bool,
    position: int,
    playlist: seq<Song>,
    index: int,
    repeat: RepeatMode)

  /** A new state and the Boolean the service method returns. */
  datatype Outcome = Outcome(state: Player, ok: bool)

  /** A new state and the position a read of the simulated clock returns. */
  datatype Reading = Reading(state: Player, position: int)

  /** The cursor value meaning "no song". */
  const NoSong := -1

  /** The duration reported when the cursor names no song. */
  const FallbackDuration := 30000

  /** How far the simulated clock advances on each read while playing. */
  const TickMs := 1000

  /** What every operation preserves. The cursor is the sentinel exactly when
      the queue is empty; otherwise it is an index into the queue or one past
      its end (left there when the current last song is removed during
      playback). Playing needs a non-empty queue; the position is never
      negative. */
  predicate Valid(p: Player): (b: bool)
    ensures b ==> NoSong <= p.index <= |p.playlist|
    ensures b && p.playing ==> 0 <= p.index
  {
    && (p.index == NoSong <==> |p.playlist| == 0)
    && (p.index != NoSong ==> 0 <= p.index <= |p.playlist|)
    && (p.playing ==> |p.playlist| > 0)
    && p.position >= 0
  }

  /** The fields as the service initialises them. */
  function Initial(): (p: Player)
    ensures Valid(p)
    ensures |p.playlist| == 0 && !p.playing && p.position == 0 && p.repeat == NONE
  {
    Player(false, 0, [], NoSong, NONE)
  }

  // ---------------------------------------------------------------------------
  // Queries

  /** A copy of the queue: the same songs in the same order. */
  function GetPlaylist(p: Player): (r: seq<Song>)
    ensures |r| == |p.playlist|
    ensures forall k :: 0 <= k < |r| ==> r[k] == p.playlist[k]
  {
    p.playlist
  }

  /** The number of queued songs, which is zero exactly for an empty queue. */
  function GetQueueSize(p: Player): (r: int)
    ensures r >= 0 && r == |p.playlist|
    ensures r == 0 <==> p.playlist == []
  {
    |p.playlist|
  }

  /** The cursor; on a valid state it is the sentinel exactly for an empty
      queue and otherwise lies in `[0, size]`. */
  function GetCurrentSongIndex(p: Player): (r: int)
    ensures r == p.index
    ensures Valid(p) ==> (r == NoSong <==> |p.playlist| == 0)
    ensures Valid(p) && r != NoSong ==> 0 <= r <= |p.playlist|
  {
    p.index
  }

  /** The repeat mode in force. */
  function GetRepeatMode(p: Player): (r: RepeatMode)
    ensures r == p.repeat
  {
    p.repeat
  }

  /** Whether the clock is running; on a valid state only with songs queued. */
  function IsMusicPlaying(p: Player): (r: bool)
    ensures r == p.playing
    ensures Valid(p) && r ==> |p.playlist| > 0 && p.index != NoSong
  {
    p.playing
  }

  /** The song under the cursor, or none when the cursor is the sentinel or
      one past the end. */
  function GetCurrentSong(p: Player): (r: Option<Song>)
    ensures r.Some? <==> 0 <= p.index < |p.playlist|
    ensures r.Some? ==> r.value == p.playlist[p.index]
  {
    if 0 <= p.index < |p.playlist| then Some(p.playlist[p.index]) else None
  }

  /** The current song's duration, or the fallback when there is none. */
  function GetDuration(p: Player): (d: int)
    ensures 0 <= p.index < |p.playlist| ==> d == p.playlist[p.index].duration
    ensures !(0 <= p.index < |p.playlist|) ==> d == FallbackDuration
  {
    match GetCurrentSong(p)
    case Some(song) => song.duration
    case None => FallbackDuration
  }

  // ---------------------------------------------------------------------------
  // Queue edits

  /** Appends one song; a sentinel cursor moves to the first song. */
  function AddToQueue(p: Player, song: Song): (r: Player)
    ensures |r.playlist| == |p.playlist| + 1
    ensures r.playlist[..|p.playlist|] == p.playlist && r.playlist[|p.playlist|] == song
    ensures p.index == NoSong ==> r.index == 0
    ensures p.index != NoSong ==> r.index == p.index
    ensures r.playing == p.playing && r.position == p.position && r.repeat == p.repeat
    ensures Valid(p) ==> Valid(r)
  {
    var playlist := p.playlist + [song];
    p.(playlist := playlist, index := if p.index == NoSong && |playlist| > 0 then 0 else p.index)
  }

  /** Appends several songs in order; a sentinel cursor moves to the first
      song only if the queue is then non-empty. */
  function AddAllToQueue(p: Player, songs: seq<Song>): (r: Player)
    ensures |r.playlist| == |p.playlist| + |songs|
    ensures r.playlist[..|p.playlist|] == p.playlist && r.playlist[|p.playlist|..] == songs
    ensures p.index == NoSong && |r.playlist| > 0 ==> r.index == 0
    ensures !(p.index == NoSong && |r.playlist| > 0) ==> r.index == p.index
    ensures r.playing == p.playing && r.position == p.position && r.repeat == p.repeat
    ensures Valid(p) ==> Valid(r)
  {
    var playlist := p.playlist + songs;
    p.(playlist := playlist, index := if p.index == NoSong && |playlist| > 0 then 0 else p.index)
  }

  /** Where `AddNext` puts its song: right after the cursor, or at the end
      when the cursor is on (or past) the last song. */
  function NextSlot(p: Player): int {
    if |p.playlist| == 0 then 0
    else if p.index + 1 < |p.playlist| then p.index + 1
    else |p.playlist|
  }

  /** Inserts a song to play next. The cursor is unchanged unless the queue
      was empty. Kotlin's `add(index, e)` throws on a negative index, which a
      cursor below the sentinel would produce, hence the precondition. */
  function AddNext(p: Player, song: Song): (r: Player)
    requires p.index >= NoSong
    ensures var k := NextSlot(p);
      && 0 <= k <= |p.playlist|
      && |r.playlist| == |p.playlist| + 1
      && r.playlist[k] == song
      && r.playlist[..k] == p.playlist[..k]
      && r.playlist[k + 1..] == p.playlist[k..]
    ensures |p.playlist| > 0 ==> NextSlot(p) == if p.index + 1 < |p.playlist| then p.index + 1 else |p.playlist|
    ensures r.index == if |p.playlist| == 0 then 0 else p.index
    ensures r.playing == p.playing && r.position == p.position && r.repeat == p.repeat
    ensures Valid(p) ==> Valid(r)
  {
    if |p.playlist| == 0 then
      p.(playlist := [song], index := 0)
    else if p.index + 1 < |p.playlist| then
      var k := p.index + 1;
      var playlist := p.playlist[..k] + [song] + p.playlist[k..];
      assert playlist[k + 1..] == p.playlist[k..];
      p.(playlist := playlist)
    else
      p.(playlist := p.playlist + [song])
  }

  /** Removes the song at `index`; out-of-range indexes change nothing and
      report false. Afterwards the cursor is repaired: an emptied queue
      stops; a removal before the cursor shifts it down; removing the
      cursor's own song while playing advances as `PlayNext` does on the
      shortened queue, and while not playing keeps the slot (now the
      following song), wrapping to the first song past the end. */
  function RemoveFromQueue(p: Player, index: int): (o: Outcome)
    ensures o.ok <==> 0 <= index < |p.playlist|
    ensures !o.ok ==> o.state == p
    ensures o.ok ==> o.state.playlist == p.playlist[..index] + p.playlist[index + 1..]
    ensures o.state.repeat == p.repeat
    ensures o.ok && |p.playlist| == 1 ==>
      o.state.index == NoSong && !o.state.playing && o.state.position == 0
    ensures o.ok && |p.playlist| > 1 && index != p.index ==>
      && o.state.index == (if index < p.index then p.index - 1 else p.index)
      && o.state.playing == p.playing && o.state.position == p.position
    ensures o.ok && |p.playlist| > 1 && index == p.index && !p.playing ==>
      && o.state.index == (if index < |p.playlist| - 1 then index else 0)
      && !o.state.playing && o.state.position == p.position
    ensures o.ok && |p.playlist| > 1 && index == p.index && p.playing ==>
      && o.state.index == (if index + 2 < |p.playlist| then index + 1
                           else if p.repeat == ALL && index != 0 then 0
                           else index)
      && o.state.playing && o.state.position == p.position
    ensures Valid(p) ==> Valid(o.state)
  {
    if index < 0 || index >= |p.playlist| then
      Outcome(p, false)
    else
      var q := p.(playlist := p.playlist[..index] + p.playlist[index + 1..]);
      var r :=
        if |q.playlist| == 0 then
          StopMusic(q.(index := NoSong))
        else if index < q.index then
          q.(index := q.index - 1)
        else if index == q.index then
          if q.playing then PlayNext(q).state
          else q.(index := if q.index >= |q.playlist| then 0 else q.index)
        else
          q;
      Outcome(r, true)
  }

  /** Empties the queue and stops; the repeat mode is kept. */
  function ClearQueue(p: Player): (r: Player)
    ensures |r.playlist| == 0 && r.index == NoSong
    ensures !r.playing && r.position == 0 && r.repeat == p.repeat
    ensures Valid(r)
  {
    StopMusic(p.(playlist := [], index := NoSong))
  }

  /** Changes the repeat mode and nothing else. */
  function SetRepeatMode(p: Player, mode: RepeatMode): (r: Player)
    ensures r.repeat == mode
    ensures r.playing == p.playing && r.position == p.position
    ensures r.playlist == p.playlist && r.index == p.index
    ensures Valid(p) ==> Valid(r)
  {
    p.(repeat := mode)
  }

  // ---------------------------------------------------------------------------
  // Transport

  /** Starts (or resumes) playback from the kept position. An empty queue
      changes nothing; a sentinel cursor moves to the first song. */
  function PlayMusic(p: Player): (r: Player)
    ensures |p.playlist| == 0 ==> r == p
    ensures |p.playlist| > 0 ==>
      && r.playing
      && r.index == (if p.index == NoSong then 0 else p.index)
      && r.position == p.position && r.playlist == p.playlist && r.repeat == p.repeat
    ensures Valid(p) ==> Valid(r)
  {
    if |p.playlist| == 0 then p
    else
      var q := if p.index == NoSong then p.(index := 0) else p;
      if !q.playing then q.(playing := true) else q
  }

  /** Stops playback and keeps the position. */
  function PauseMusic(p: Player): (r: Player)
    ensures !r.playing
    ensures r.position == p.position && r.playlist == p.playlist
    ensures r.index == p.index && r.repeat == p.repeat
    ensures Valid(p) ==> Valid(r)
  {
    p.(playing := false)
  }

  /** Stops playback and rewinds to the start. */
  function StopMusic(p: Player): (r: Player)
    ensures !r.playing && r.position == 0
    ensures r.playlist == p.playlist && r.index == p.index && r.repeat == p.repeat
    ensures Valid(p) ==> Valid(r)
  {
    p.(playing := false, position := 0)
  }

  /** Moves the cursor forward, wrapping to the first song only under ALL.
      It fails, changing nothing, on an empty queue, at the end without
      ALL, and when the target is the cursor itself (a one-song queue
      under ALL). Only the cursor ever changes. */
  function PlayNext(p: Player): (o: Outcome)
    ensures o.state.playlist == p.playlist && o.state.repeat == p.repeat
    ensures o.state.playing == p.playing && o.state.position == p.position
    ensures !o.ok ==> o.state == p
    ensures o.ok <==>
      |p.playlist| > 0 && (p.index + 1 < |p.playlist| || (p.repeat == ALL && p.index != 0))
    ensures o.ok ==>
      && o.state.index != p.index
      && o.state.index == (if p.index + 1 < |p.playlist| then p.index + 1 else 0)
    ensures Valid(p) ==> Valid(o.state)
  {
    if |p.playlist| == 0 then
      Outcome(p, false)
    else if p.index + 1 >= |p.playlist| && p.repeat != ALL then
      Outcome(p, false)
    else
      var next := if p.index + 1 >= |p.playlist| then 0 else p.index + 1;
      if next != p.index then Outcome(p.(index := next), true) else Outcome(p, false)
  }

  /** Moves the cursor back, wrapping to the last song only under ALL;
      failure cases mirror `PlayNext`. */
  function PlayPrevious(p: Player): (o: Outcome)
    ensures o.state.playlist == p.playlist && o.state.repeat == p.repeat
    ensures o.state.playing == p.playing && o.state.position == p.position
    ensures !o.ok ==> o.state == p
    ensures o.ok <==>
      |p.playlist| > 0 && (p.index - 1 >= 0 || (p.repeat == ALL && p.index != |p.playlist| - 1))
    ensures o.ok ==>
      && o.state.index != p.index
      && o.state.index == (if p.index - 1 >= 0 then p.index - 1 else |p.playlist| - 1)
    ensures Valid(p) ==> Valid(o.state)
  {
    if |p.playlist| == 0 then
      Outcome(p, false)
    else if p.index - 1 < 0 && p.repeat != ALL then
      Outcome(p, false)
    else
      var prev := if p.index - 1 < 0 then |p.playlist| - 1 else p.index - 1;
      if prev != p.index then Outcome(p.(index := prev), true) else Outcome(p, false)
  }

  /** What happens when the current song ends: ONE rewinds it; otherwise the
      cursor advances, and if it cannot, playback stops at position zero. */
  function OnSongCompletion(p: Player): (r: Player)
    ensures r.playlist == p.playlist && r.repeat == p.repeat
    ensures p.repeat == ONE ==>
      r.index == p.index && r.playing == p.playing && r.position == 0
    ensures p.repeat != ONE && PlayNext(p).ok ==>
      r.index != p.index && r.playing == p.playing && r.position == p.position
    ensures p.repeat != ONE && PlayNext(p).ok ==> r.index == PlayNext(p).state.index
    ensures p.repeat != ONE && !PlayNext(p).ok ==>
      r.index == p.index && !r.playing && r.position == 0
    ensures Valid(p) ==> Valid(r)
  {
    if p.repeat == ONE then
      p.(position := 0)
    else
      var next := PlayNext(p);
      if next.ok then next.state else p.(playing := false, position := 0)
  }

  // ---------------------------------------------------------------------------
  // Simulated clock and seeking

  /** Reading the position is the clock: while playing, each read adds one
      second, and a position strictly past the duration rewinds to zero and
      runs completion. The returned position is the one after all that. */
  function GetCurrentPosition(p: Player): (o: Reading)
    ensures o.position == o.state.position
    ensures !p.playing ==> o.state == p
    ensures p.playing && p.position + TickMs <= GetDuration(p) ==>
      o.state == p.(position := p.position + TickMs)
    ensures p.playing && p.position + TickMs > GetDuration(p) ==>
      && o.position == 0
      && o.state.playlist == p.playlist && o.state.repeat == p.repeat
      && (o.state.playing <==> p.repeat == ONE || PlayNext(p).ok)
      && (o.state.index == p.index <==> p.repeat == ONE || !PlayNext(p).ok)
      && (p.repeat != ONE && PlayNext(p).ok ==> o.state.index == PlayNext(p).state.index)
    ensures Valid(p) ==> Valid(o.state)
  {
    if !p.playing then
      Reading(p, p.position)
    else
      var advanced := p.position + TickMs;
      if advanced > GetDuration(p) then
        var q := OnSongCompletion(p.(position := 0));
        Reading(q, q.position)
      else
        Reading(p.(position := advanced), advanced)
  }

  /** Kotlin's `coerceIn(lo, hi)` for `lo <= hi`. */
  function CoerceIn(x: int, lo: int, hi: int): (r: int)
    requires lo <= hi
    ensures lo <= r <= hi
    ensures lo <= x <= hi ==> r == x
    ensures x < lo ==> r == lo
    ensures hi < x ==> r == hi
  {
    if x < lo then lo else if x > hi then hi else x
  }

  /** Sets the position clamped into `[0, GetDuration()]`; with no current
      song the fallback duration bounds it. Kotlin's `coerceIn` throws when
      the range is empty, i.e. when the current song's duration is negative;
      that call is `None` and changes nothing. */
  function SeekTo(p: Player, position: int): (r: Option<Player>)
    ensures r.None? <==> GetDuration(p) < 0
    ensures r.Some? ==>
      && 0 <= r.value.position <= GetDuration(p)
      && (0 <= position <= GetDuration(p) ==> r.value.position == position)
      && (position < 0 ==> r.value.position == 0)
      && (GetDuration(p) < position ==> r.value.position == GetDuration(p))
      && r.value.playing == p.playing && r.value.playlist == p.playlist
      && r.value.index == p.index && r.value.repeat == p.repeat
    ensures Valid(p) && r.Some? ==> Valid(r.value)
  {
    var duration := GetDuration(p);
    if duration < 0 then None
    else Some(p.(position := CoerceIn(position, 0, duration)))
  }
}
