/**
  Properties of the music service state machine that relate several
  operations: the state invariant over any command sequence, which song is
  current after a removal, inverse pairs, the repeat-ALL cycle, the
  simulated clock's completion timing, and end-to-end playback runs.
 */
module MusicServiceProps {
  import opened Wrappers
  import opened Songs
  import opened MusicService

  // ---------------------------------------------------------------------------
  // The state invariant over any sequence of calls

  /** One public call on the service. */
  datatype Command =
    | Add(song: Song)
    | AddAll(songs: seq<Song>)
    | Insert(song: Song)
    | Remove(index: int)
    | Clear
    | SetRepeat(mode: RepeatMode)
    | Play
    | Pause
    | Stop
    | Next
    | Previous
    | Tick
    | Seek(position: int)

  /** The state after one call. A seek that throws leaves the fields as
      they were, since the assignment never happens. */
  function Step(p: Player, c: Command): (r: Player)
    requires Valid(p)
    ensures Valid(r)
  {
    match c
    case Add(song) => AddToQueue(p, song)
    case AddAll(songs) => AddAllToQueue(p, songs)
    case Insert(song) => AddNext(p, song)
    case Remove(index) => RemoveFromQueue(p, index).state
    case Clear => ClearQueue(p)
    case SetRepeat(mode) => SetRepeatMode(p, mode)
    case Play => PlayMusic(p)
    case Pause => PauseMusic(p)
    case Stop => StopMusic(p)
    case Next => PlayNext(p).state
    case Previous => PlayPrevious(p).state
    case Tick => GetCurrentPosition(p).state
    case Seek(position) =>
      match SeekTo(p, position)
      case Some(q) => q
      case None => p
  }

  /** The state after a sequence of calls; every state on the way is valid. */
  function Run(p: Player, cs: seq<Command>): (r: Player)
    requires Valid(p)
    ensures Valid(r)
    decreases |cs|
  {
    if |cs| == 0 then p else Run(Step(p, cs[0]), cs[1..])
  }

  /** From the initial fields, whatever the calls, the cursor is the sentinel
      exactly when the queue is empty, and is otherwise at most its length. */
  lemma SentinelIffEmpty(cs: seq<Command>)
    ensures var r := Run(Initial(), cs);
      && (r.index == NoSong <==> |r.playlist| == 0)
      && (r.index != NoSong ==> 0 <= r.index <= |r.playlist|)
  {
  }

  /** The read-only queries agree with one another on a valid state. */
  lemma QueriesAgree(p: Player)
    requires Valid(p)
    ensures GetQueueSize(p) == |GetPlaylist(p)|
    ensures GetCurrentSongIndex(p) == NoSong <==> GetQueueSize(p) == 0
    ensures IsMusicPlaying(p) ==> GetQueueSize(p) > 0
    ensures GetCurrentSong(p).Some? ==> GetCurrentSong(p).value in GetPlaylist(p)
    ensures GetCurrentSong(p).None? <==>
      GetCurrentSongIndex(p) == NoSong || GetCurrentSongIndex(p) == GetQueueSize(p)
  {
  }

  // ---------------------------------------------------------------------------
  // Removal: which song is current afterwards

  /** An independent account of removal: the slot of the OLD queue whose song
      is current after removing slot `i`, or -1 when no song is current. */
  function SurvivorSlot(p: Player, i: int): int
    requires Valid(p) && 0 <= i < |p.playlist|
  {
    var n, c := |p.playlist|, p.index;
    if n == 1 then -1
    else if i != c then (if c < n then c else -1)
    else if !p.playing then (if c + 1 < n then c + 1 else 0)
    else if c + 2 < n then c + 2
    else if p.repeat == ALL then (if c != 0 then 0 else 1)
    else if c + 1 < n then c + 1
    else -1
  }

  /** After a removal the current song is the one `SurvivorSlot` names, and
      never the removed slot: removing elsewhere keeps the current song;
      removing the current song while playing skips the song that slid into
      its slot. */
  lemma {:induction false} RemovalCurrentSong(p: Player, i: int)
    requires Valid(p) && 0 <= i < |p.playlist|
    ensures var after := GetCurrentSong(RemoveFromQueue(p, i).state);
      var j := SurvivorSlot(p, i);
      && (j == -1 <==> after.None?)
      && (j != -1 ==> 0 <= j < |p.playlist| && j != i && after == Some(p.playlist[j]))
  {
    var q := RemoveFromQueue(p, i).state;
    var j := SurvivorSlot(p, i);
    assert forall k :: 0 <= k < |q.playlist| ==>
      q.playlist[k] == p.playlist[if k < i then k else k + 1];
    if 0 <= q.index < |q.playlist| {
      assert j == (if q.index < i then q.index else q.index + 1);
    }
  }

  /** Removing any slot other than the cursor's keeps the current song. */
  lemma RemovalKeepsCurrentSong(p: Player, i: int)
    requires Valid(p) && 0 <= i < |p.playlist| && i != p.index
    ensures GetCurrentSong(RemoveFromQueue(p, i).state) == GetCurrentSong(p)
  {
    RemovalCurrentSong(p, i);
  }

  /** The cursor one past the end is reachable: removing the current last
      song while playing without repeat-all leaves it there, with no current
      song and the fallback duration. */
  lemma CursorPastEndReachable(p: Player)
    requires Valid(p) && p.playing && p.repeat != ALL
    requires |p.playlist| >= 2 && p.index == |p.playlist| - 1
    ensures var q := RemoveFromQueue(p, p.index).state;
      && Valid(q) && q.playing
      && q.index == |q.playlist|
      && GetCurrentSong(q).None?
      && GetDuration(q) == FallbackDuration
  {
  }

  /** With the cursor one past the end, `PlayPrevious` moves back onto the
      last song, even with one song queued, and `AddNext` appends at the
      cursor's slot, so the inserted song becomes current. */
  lemma CursorPastEndMoves(p: Player, song: Song)
    requires Valid(p) && |p.playlist| > 0 && p.index == |p.playlist|
    ensures var o := PlayPrevious(p);
      o.ok && GetCurrentSong(o.state) == Some(p.playlist[|p.playlist| - 1])
    ensures GetCurrentSong(AddNext(p, song)) == Some(song)
  {
  }

  // ---------------------------------------------------------------------------
  // Queue edits and their inverses

  /** Appending never changes the current song, except that a cursor one past
      the end comes to rest on the appended song. */
  lemma AppendCurrentSong(p: Player, song: Song)
    requires Valid(p)
    ensures 0 <= p.index < |p.playlist| ==> GetCurrentSong(AddToQueue(p, song)) == GetCurrentSong(p)
    ensures p.index == NoSong || p.index == |p.playlist| ==>
      GetCurrentSong(AddToQueue(p, song)) == Some(song)
  {
  }

  /** Removing the last slot undoes an append. */
  lemma AppendThenRemove(p: Player, song: Song)
    requires Valid(p) && 0 <= p.index < |p.playlist|
    ensures RemoveFromQueue(AddToQueue(p, song), |p.playlist|) == Outcome(p, true)
  {
    var q := AddToQueue(p, song);
    assert q.playlist[..|p.playlist|] + q.playlist[|p.playlist| + 1..] == p.playlist;
  }

  /** Inserting a song to play next keeps the current song, and the next
      `PlayNext` lands on it. */
  lemma InsertThenNext(p: Player, song: Song)
    requires Valid(p) && 0 <= p.index < |p.playlist|
    ensures GetCurrentSong(AddNext(p, song)) == GetCurrentSong(p)
    ensures var o := PlayNext(AddNext(p, song));
      o.ok && GetCurrentSong(o.state) == Some(song)
  {
  }

  /** Removing the inserted slot undoes `AddNext`. */
  lemma InsertThenRemove(p: Player, song: Song)
    requires Valid(p) && 0 <= p.index < |p.playlist|
    ensures RemoveFromQueue(AddNext(p, song), NextSlot(p)) == Outcome(p, true)
  {
    var q := AddNext(p, song);
    var k := NextSlot(p);
    assert q.playlist[..k] + q.playlist[k + 1..] == p.playlist[..k] + p.playlist[k..];
    assert p.playlist[..k] + p.playlist[k..] == p.playlist;
  }

  // ---------------------------------------------------------------------------
  // Cursor moves

  /** A successful `PlayNext` from a song is undone by `PlayPrevious`. */
  lemma NextThenPrevious(p: Player)
    requires Valid(p) && 0 <= p.index < |p.playlist| && PlayNext(p).ok
    ensures PlayPrevious(PlayNext(p).state) == Outcome(p, true)
  {
  }

  /** A successful `PlayPrevious` from a song is undone by `PlayNext`. */
  lemma PreviousThenNext(p: Player)
    requires Valid(p) && 0 <= p.index < |p.playlist| && PlayPrevious(p).ok
    ensures PlayNext(PlayPrevious(p).state) == Outcome(p, true)
  {
  }

  /** Under ALL with two or more songs the cursor moves around the queue as
      a cycle: forward is successor modulo the length, backward predecessor. */
  lemma RepeatAllCycles(p: Player)
    requires Valid(p) && p.repeat == ALL && |p.playlist| >= 2 && 0 <= p.index < |p.playlist|
    ensures PlayNext(p).ok && PlayNext(p).state.index == (p.index + 1) % |p.playlist|
    ensures PlayPrevious(p).ok
      && PlayPrevious(p).state.index == (p.index - 1 + |p.playlist|) % |p.playlist|
  {
  }

  /** A one-song queue never moves, whatever the repeat mode; in particular
      completion under ALL stops playback instead of looping. */
  lemma OneSongNeverAdvances(p: Player)
    requires Valid(p) && |p.playlist| == 1 && p.index == 0
    ensures !PlayNext(p).ok && !PlayPrevious(p).ok
    ensures p.repeat == ALL ==>
      var r := OnSongCompletion(p);
      !r.playing && r.position == 0 && r.index == 0
  {
  }

  /** Without ALL, `PlayNext` at the last song fails and changes nothing. */
  lemma EndOfQueue(p: Player)
    requires Valid(p) && p.repeat != ALL && |p.playlist| > 0 && p.index == |p.playlist| - 1
    ensures PlayNext(p) == Outcome(p, false)
  {
  }

  // ---------------------------------------------------------------------------
  // Transport

  /** Playing twice is playing once. */
  lemma PlayIdempotent(p: Player)
    ensures PlayMusic(PlayMusic(p)) == PlayMusic(p)
  {
  }

  /** Pausing and then playing resumes exactly where playback was. */
  lemma PauseThenResume(p: Player)
    requires Valid(p) && p.playing
    ensures PlayMusic(PauseMusic(p)) == p
  {
  }

  /** After a stop the clock reads zero and does not move. */
  lemma StopThenRead(p: Player)
    ensures GetCurrentPosition(StopMusic(p)) == Reading(StopMusic(p), 0)
  {
  }

  /** Clearing returns to the initial fields except for the repeat mode. */
  lemma ClearIsInitial(p: Player)
    ensures ClearQueue(p) == SetRepeatMode(Initial(), p.repeat)
  {
  }

  // ---------------------------------------------------------------------------
  // The simulated clock

  /** `k` successive reads of the clock. */
  function Ticks(p: Player, k: nat): Player
    decreases k
  {
    if k == 0 then p else Ticks(GetCurrentPosition(p).state, k - 1)
  }

  /** While the position stays within the duration, `k` reads advance the
      position by `k` seconds and change nothing else. */
  lemma {:induction false} TicksAdvance(p: Player, k: nat)
    requires p.playing && p.position + k * TickMs <= GetDuration(p)
    ensures Ticks(p, k) == p.(position := p.position + k * TickMs)
    decreases k
  {
    if k > 0 {
      var q := GetCurrentPosition(p).state;
      assert q == p.(position := p.position + TickMs);
      TicksAdvance(q, k - 1);
    }
  }

  /** Completion fires on the first read that takes the position strictly
      past the duration: after `k` whole seconds fit, read `k + 1` rewinds
      to zero and runs completion. */
  lemma CompletionTiming(p: Player)
    requires p.playing && 0 <= p.position <= GetDuration(p)
    ensures var k := (GetDuration(p) - p.position) / TickMs;
      var q := Ticks(p, k);
      && q == p.(position := p.position + k * TickMs)
      && GetCurrentPosition(q).state == OnSongCompletion(p.(position := 0))
      && GetCurrentPosition(q).position == 0
  {
    var k := (GetDuration(p) - p.position) / TickMs;
    TicksAdvance(p, k);
  }

  // ---------------------------------------------------------------------------
  // Seeking

  /** Seeking to where a seek just went changes nothing more. */
  lemma SeekIdempotent(p: Player, position: int)
    requires SeekTo(p, position).Some?
    ensures SeekTo(SeekTo(p, position).value, position) == SeekTo(p, position)
  {
  }

  /** With no current song, seeking clamps into the fallback duration. */
  lemma SeekWithoutSong(p: Player)
    requires !(0 <= p.index < |p.playlist|)
    ensures SeekTo(p, -100).Some? && SeekTo(p, -100).value.position == 0
    ensures SeekTo(p, 99999).Some? && SeekTo(p, 99999).value.position == FallbackDuration
  {
  }

  // ---------------------------------------------------------------------------
  // End-to-end runs

  /** Two tracks of 3 s and 5 s without repeat: the first completes on the
      fourth read, the second plays, and completes on its sixth read,
      which stops playback at zero. */
  lemma TwoTrackRun(a: Song, b: Song)
    requires a.duration == 3000 && b.duration == 5000
    ensures var p := PlayMusic(AddToQueue(AddToQueue(Initial(), a), b));
      && p.playing && GetCurrentSong(p) == Some(a)
      && var q := Ticks(p, 4);
      && q.playing && q.position == 0 && GetCurrentSong(q) == Some(b)
      && var r := Ticks(q, 6);
      && !r.playing && r.position == 0 && GetCurrentSong(r) == Some(b)
  {
    var p := PlayMusic(AddToQueue(AddToQueue(Initial(), a), b));
    CompletionTiming(p);
    assert Ticks(p, 4) == GetCurrentPosition(Ticks(p, 3)).state by {
      TicksSplit(p, 3);
    }
    var q := Ticks(p, 4);
    CompletionTiming(q);
    assert Ticks(q, 6) == GetCurrentPosition(Ticks(q, 5)).state by {
      TicksSplit(q, 5);
    }
  }

  /** One 1 s track under ONE: the second read rewinds it and it keeps
      playing. */
  lemma RepeatOneRun(a: Song)
    requires a.duration == 1000
    ensures var p := PlayMusic(SetRepeatMode(AddToQueue(Initial(), a), ONE));
      var q := Ticks(p, 2);
      q.playing && q.position == 0 && GetCurrentSong(q) == Some(a)
  {
    var p := PlayMusic(SetRepeatMode(AddToQueue(Initial(), a), ONE));
    CompletionTiming(p);
    TicksSplit(p, 1);
  }

  /** One more read after `k` reads is `k + 1` reads. */
  lemma {:induction false} TicksSplit(p: Player, k: nat)
    ensures Ticks(p, k + 1) == GetCurrentPosition(Ticks(p, k)).state
    decreases k
  {
    if k > 0 {
      TicksSplit(GetCurrentPosition(p).state, k - 1);
    }
  }
}
