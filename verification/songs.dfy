/**
  The immutable `Song` record, its `mm:ss` duration formatter and the sample
  catalogue the app ships with.
 */
module Songs {
  import opened KotlinInt

  /** A track. `duration` is in milliseconds; `resourceId` is an opaque
      handle to the playable resource and is never interpreted. */
  datatype Song = Song(id: int, title: string, artist: string, duration: int, resourceId: int)

  const MsPerSecond := 1000
  const MsPerMinute := 1000 * 60

  // ---------------------------------------------------------------------------
  // Decimal digits

  predicate IsDigit(c: char) {
    '0' <= c <= '9'
  }

  function DigitChar(d: int): (c: char)
    requires 0 <= d <= 9
    ensures IsDigit(c) && c as int - '0' as int == d
  {
    ('0' as int + d) as char
  }

  function DigitValue(c: char): int
    requires IsDigit(c)
  {
    c as int - '0' as int
  }

  /** The number written by two decimal digits. */
  function TwoDigitValue(s: string): int
    requires |s| == 2 && IsDigit(s[0]) && IsDigit(s[1])
  {
    10 * DigitValue(s[0]) + DigitValue(s[1])
  }

  /** Java's `%02d` for a value of at most two digits: non-negative values are
      zero-padded to two digits, negative ones get a '-' and no padding
      (the sign already fills the width). */
  function Pad2(n: int): (s: string)
    requires -100 < n < 100
    ensures 0 <= n ==> |s| == 2 && IsDigit(s[0]) && IsDigit(s[1]) && TwoDigitValue(s) == n
    ensures n < 0 ==> 2 <= |s| <= 3 && s[0] == '-'
    ensures n < 0 ==> (|s| == 2 <==> -10 < n) && forall k :: 1 <= k < |s| ==> IsDigit(s[k])
    ensures n < 0 && |s| == 2 ==> DigitValue(s[1]) == -n
    ensures n < 0 && |s| == 3 ==> IsDigit(s[1]) && IsDigit(s[2]) && TwoDigitValue(s[1..]) == -n
  {
    if n >= 0 then
      [DigitChar(n / 10), DigitChar(n % 10)]
    else if n > -10 then
      ['-', DigitChar(-n)]
    else
      ['-', DigitChar((-n) / 10), DigitChar((-n) % 10)]
  }

  // ---------------------------------------------------------------------------
  // Song.getFormattedDuration

  /** The seconds field: whole seconds modulo one minute, with Kotlin arithmetic. */
  function SecondsField(duration: int): (s: int)
    ensures 0 <= duration ==> s == (duration / 1000) % 60 && 0 <= s <= 59
    ensures duration < 0 ==> s == -(((-duration) / 1000) % 60)
    ensures -60 < s < 60
  {
    FieldAgrees(duration, MsPerSecond);
    Rem(Div(duration, MsPerSecond), 60)
  }

  /** The minutes field: whole minutes modulo one hour; hours are discarded. */
  function MinutesField(duration: int): (m: int)
    ensures 0 <= duration ==> m == (duration / 60000) % 60 && 0 <= m <= 59
    ensures duration < 0 ==> m == -(((-duration) / 60000) % 60)
    ensures -60 < m < 60
  {
    FieldAgrees(duration, MsPerMinute);
    Rem(Div(duration, MsPerMinute), 60)
  }

  /** For a non-negative duration the Kotlin field arithmetic is Dafny's; a
      negative duration gives the negated field of its magnitude. */
  lemma FieldAgrees(duration: int, unit: int)
    requires unit > 0
    ensures 0 <= duration ==> Rem(Div(duration, unit), 60) == (duration / unit) % 60
    ensures duration < 0 ==> Rem(Div(duration, unit), 60) == -(((-duration) / unit) % 60)
  {
    if duration >= 0 {
      AgreeOnNatural(duration, unit);
      AgreeOnNatural(duration / unit, 60);
    } else {
      assert Div(duration, unit) == -((-duration) / unit);
      NegatedField((-duration) / unit);
    }
  }

  /** The Kotlin field of a negated whole number is the negated field. */
  lemma NegatedField(y: int)
    requires 0 <= y
    ensures Rem(-y, 60) == -(y % 60)
  {
  }

  /** `String.format("%02d:%02d", minutes, seconds)`. */
  function FormatDuration(duration: int): (r: string)
    ensures 0 <= duration ==>
      && |r| == 5 && r[2] == ':'
      && IsDigit(r[0]) && IsDigit(r[1]) && IsDigit(r[3]) && IsDigit(r[4])
      && TwoDigitValue(r[..2]) == (duration / 60000) % 60
      && TwoDigitValue(r[3..]) == (duration / 1000) % 60
    ensures 5 <= |r| <= 7
  {
    var mm := Pad2(MinutesField(duration));
    var ss := Pad2(SecondsField(duration));
    var r := mm + ":" + ss;
    assert duration >= 0 ==> r[..2] == mm && r[3..] == ss;
    r
  }

  /** Two durations format identically exactly when they agree in whole
      seconds modulo one hour: sub-second remainders and whole hours are lost. */
  lemma {:induction false} FormatDurationEqualIff(d1: int, d2: int)
    requires 0 <= d1 && 0 <= d2
    ensures FormatDuration(d1) == FormatDuration(d2)
        <==> (d1 / 1000) % 3600 == (d2 / 1000) % 3600
  {
    ClockFields(d1);
    ClockFields(d2);
    var f1, f2 := FormatDuration(d1), FormatDuration(d2);
    if f1 == f2 {
      assert f1[..2] == f2[..2] && f1[3..] == f2[3..];
    }
    if (d1 / 1000) % 3600 == (d2 / 1000) % 3600 {
      SplitUnique((d1 / 1000) % 3600, (d1 / 60000) % 60, (d1 / 1000) % 60,
                  (d2 / 60000) % 60, (d2 / 1000) % 60);
      assert MinutesField(d1) == MinutesField(d2) && SecondsField(d1) == SecondsField(d2);
    }
  }

  /** A negative duration is not rejected: each field keeps its sign, so
      minus five seconds formats as "00:-5". */
  lemma NegativeDurationFormat()
    ensures FormatDuration(-5000) == "00:-5"
  {
    assert MinutesField(-5000) == 0;
    assert SecondsField(-5000) == -5;
  }

  /** Durations that differ only below one second format identically. */
  lemma SubSecondIgnored(d1: int, d2: int)
    requires 0 <= d1 && 0 <= d2 && d1 / 1000 == d2 / 1000
    ensures FormatDuration(d1) == FormatDuration(d2)
  {
    FormatDurationEqualIff(d1, d2);
  }

  /** Whole hours are discarded: one hour formats as "00:00". */
  lemma HoursDiscarded(d: int)
    requires 0 <= d
    ensures FormatDuration(d + 3600000) == FormatDuration(d)
    ensures FormatDuration(3600000) == "00:00"
  {
    assert MinutesField(3600000) == 0 && SecondsField(3600000) == 0;
    var t := d / 1000;
    DivModUnique(d + 3600000, 1000, t + 3600, d % 1000);
    DivModUnique(t + 3600, 3600, t / 3600 + 1, t % 3600);
    FormatDurationEqualIff(d + 3600000, d);
  }

  /** Whole seconds modulo one hour split into the clock fields. */
  lemma {:induction false} ClockFields(d: int)
    requires 0 <= d
    ensures (d / 1000) % 3600 == 60 * ((d / 60000) % 60) + (d / 1000) % 60
  {
    var t := d / 1000;
    var q, s := t / 60, t % 60;
    var h, m := q / 60, q % 60;
    assert t == 3600 * h + (60 * m + s);
    DivModUnique(t, 3600, h, 60 * m + s);
    assert d == 60000 * q + (1000 * s + d % 1000);
    DivModUnique(d, 60000, q, 1000 * s + d % 1000);
  }

  lemma {:induction false} SplitUnique(x: int, m1: int, s1: int, m2: int, s2: int)
    requires 0 <= s1 < 60 && 0 <= s2 < 60
    requires x == 60 * m1 + s1 && x == 60 * m2 + s2
    ensures m1 == m2 && s1 == s2
  {
    DivModUnique(x, 60, m1, s1);
    DivModUnique(x, 60, m2, s2);
  }

  // ---------------------------------------------------------------------------
  // Song.getSampleSongs

  /** The demonstration catalogue. `raw(k)` stands for the Android resource
      handle `R.raw.sample<k>`, which the build generates. */
  function SampleSongs(raw: int -> int): (r: seq<Song>)
    ensures |r| == 10
    ensures forall i :: 0 <= i < |r| ==> r[i].id == i + 1 && r[i].resourceId == raw(i + 1)
    ensures forall i :: 0 <= i < |r| ==> r[i].duration > 0
  {
    [ Song(1, "Bohemian Rhapsody", "Queen", 354000, raw(1)),
      Song(2, "Imagine", "John Lennon", 183000, raw(2)),
      Song(3, "Billie Jean", "Michael Jackson", 294000, raw(3)),
      Song(4, "Smells Like Teen Spirit", "Nirvana", 301000, raw(4)),
      Song(5, "Like a Rolling Stone", "Bob Dylan", 373000, raw(5)),
      Song(6, "Hey Jude", "The Beatles", 431000, raw(6)),
      Song(7, "Stairway to Heaven", "Led Zeppelin", 482000, raw(7)),
      Song(8, "Hotel California", "Eagles", 391000, raw(8)),
      Song(9, "Blinding Lights", "The Weeknd", 200000, raw(9)),
      Song(10, "Shape of You", "Ed Sheeran", 233000, raw(10)) ]
  }

  /** Catalogue ids are pairwise distinct. */
  lemma SampleIdsDistinct(raw: int -> int)
    ensures var r := SampleSongs(raw);
      forall i, j :: 0 <= i < j < |r| ==> r[i].id != r[j].id
  {
  }

  /** The first sample, 354000 ms, formats as "05:54". */
  lemma SampleFormatted(raw: int -> int)
    ensures FormatDuration(SampleSongs(raw)[0].duration) == "05:54"
  {
    assert MinutesField(354000) == 5;
    assert SecondsField(354000) == 54;
  }
}
