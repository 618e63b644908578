/** The filename timestamp parser: `DT_RE = ^(\d{8}) (\d{6})` applied with
    `re.match` to a file's stem, and `datetime.strptime` of the fourteen digits
    with the format `%Y%m%d%H%M%S`. */
module StemParser {
  import opened DateTimes

  /** What `parse_dt_from_stem` does with a stem: returns None (the pattern does
      not match), returns a datetime, or raises ValueError from strptime (the
      pattern matches but the digit groups are not a valid date and time). */
  datatype Parse = NoMatch | Stamp(dt: DateTime) | Rejected

  /** `s[start .. start + n]` exists and is all ASCII digits (`\d{n}`). */
  predicate DigitRun(s: string, start: nat, n: nat) {
    start + n <= |s| && forall i | start <= i < start + n :: IsDigit(s[i])
  }

  /** `DT_RE.match(stem)` succeeds: anchored at the start only, so any text may
      follow the fifteen characters it looks at. */
  predicate MatchesStampPattern(stem: string) {
    DigitRun(stem, 0, 8) && |stem| > 8 && stem[8] == ' ' && DigitRun(stem, 9, 6)
  }

  /** The number written by the four digits from `s[i]`. */
  function Num4(s: string, i: nat): (n: int)
    requires DigitRun(s, i, 4)
    ensures 0 <= n < 10000
  {
    100 * Num2(s, i) + Num2(s, i + 2)
  }

  /** `parse_dt_from_stem(stem)`. strptime's `%Y%m%d%H%M%S` on exactly fourteen
      ASCII digits accepts only two-digit groups in range, then `datetime(...)`
      checks the day against the month and refuses second 60 or 61, so the
      result is a datetime exactly when the groups form a valid one. */
  function ParseStem(stem: string): (r: Parse)
    ensures r.NoMatch? <==>
      !(|stem| >= 15 && stem[8] == ' ' && forall i | 0 <= i < 15 && i != 8 :: IsDigit(stem[i]))
    ensures r.Stamp? ==> r.dt.microsecond == 0
  {
    if !MatchesStampPattern(stem) then NoMatch
    else
      var m := Moment(Num4(stem, 0), Num2(stem, 4), Num2(stem, 6),
                      Num2(stem, 9), Num2(stem, 11), Num2(stem, 13), 0);
      if m.Valid() then Stamp(m) else Rejected
  }

  /** The fifteen characters a filename starts with to carry `dt`. */
  function StampText(dt: DateTime): (s: string)
    ensures |s| == 15
  {
    Pad4(dt.year) + Pad2(dt.month) + Pad2(dt.day) + " "
      + Pad2(dt.hour) + Pad2(dt.minute) + Pad2(dt.second)
  }

  /** The first fifteen characters of a stem with the date and time
      re-punctuated as `YYYY-MM-DD HH:MM:SS`. */
  function Repunctuated(stem: string): (s: string)
    requires |stem| >= 15
  {
    [stem[0], stem[1], stem[2], stem[3], '-', stem[4], stem[5], '-', stem[6], stem[7]]
      + [' '] + [stem[9], stem[10], ':', stem[11], stem[12], ':', stem[13], stem[14]]
  }

  lemma DigitCharOfValue(c: char)
    requires IsDigit(c)
    ensures DigitChar(DigitValue(c)) == c
  {
  }

  lemma Pad2OfNum2(s: string, i: nat)
    requires DigitRun(s, i, 2)
    ensures Pad2(Num2(s, i)) == s[i..i + 2]
  {
    var n := Num2(s, i);
    assert n / 10 == DigitValue(s[i]) && n % 10 == DigitValue(s[i + 1]);
    DigitCharOfValue(s[i]);
    DigitCharOfValue(s[i + 1]);
  }

  lemma Pad4OfNum4(s: string, i: nat)
    requires DigitRun(s, i, 4)
    ensures Pad4(Num4(s, i)) == s[i..i + 4]
  {
    var n := Num4(s, i);
    assert n / 100 == Num2(s, i) && n % 100 == Num2(s, i + 2);
    Pad2OfNum2(s, i);
    Pad2OfNum2(s, i + 2);
    assert s[i..i + 4] == s[i..i + 2] + s[i + 2..i + 4];
  }

  /** A parsed stem carries exactly the stem's digit groups as year, month,
      day, hour, minute and second (no sub-second part), so its header
      rendering is the stem's fourteen digits re-punctuated. */
  lemma {:induction false} StampMatchesStemDigits(stem: string)
    requires ParseStem(stem).Stamp?
    ensures var dt := ParseStem(stem).dt;
      && Pad4(dt.year) == stem[0..4] && Pad2(dt.month) == stem[4..6] && Pad2(dt.day) == stem[6..8]
      && Pad2(dt.hour) == stem[9..11] && Pad2(dt.minute) == stem[11..13] && Pad2(dt.second) == stem[13..15]
      && dt.microsecond == 0
      && StampText(dt) == stem[..15]
      && Format(dt) == Repunctuated(stem)
  {
    Pad4OfNum4(stem, 0);
    Pad2OfNum2(stem, 4);
    Pad2OfNum2(stem, 6);
    Pad2OfNum2(stem, 9);
    Pad2OfNum2(stem, 11);
    Pad2OfNum2(stem, 13);
    assert stem[..15] == stem[0..4] + stem[4..6] + stem[6..8] + [stem[8]]
      + stem[9..11] + stem[11..13] + stem[13..15];
  }

  /** The other way round: a stem that starts with the fifteen characters for a
      whole-second datetime parses back to that datetime, whatever follows. */
  lemma {:induction false} ParseStampText(dt: DateTime, rest: string)
    requires dt.microsecond == 0
    ensures ParseStem(StampText(dt) + rest) == Stamp(dt)
  {
    var stem := StampText(dt) + rest;
    var y, mo, d := Pad4(dt.year), Pad2(dt.month), Pad2(dt.day);
    var h, mi, s := Pad2(dt.hour), Pad2(dt.minute), Pad2(dt.second);
    assert stem[0..4] == y && stem[4..6] == mo && stem[6..8] == d && stem[8] == ' ';
    assert stem[9..11] == h && stem[11..13] == mi && stem[13..15] == s;
    assert MatchesStampPattern(stem) by {
      forall i | 0 <= i < 15 && i != 8 ensures IsDigit(stem[i]) {
        if i < 4 { assert stem[i] == y[i]; }
        else if i < 6 { assert stem[i] == mo[i - 4]; }
        else if i < 8 { assert stem[i] == d[i - 6]; }
        else if i < 11 { assert stem[i] == h[i - 9]; }
        else if i < 13 { assert stem[i] == mi[i - 11]; }
        else { assert stem[i] == s[i - 13]; }
      }
    }
    assert Num4(stem, 0) == dt.year by {
      assert stem[0] == y[0] && stem[1] == y[1] && stem[2] == y[2] && stem[3] == y[3];
    }
    assert Num2(stem, 4) == dt.month by { assert stem[4] == mo[0] && stem[5] == mo[1]; }
    assert Num2(stem, 6) == dt.day by { assert stem[6] == d[0] && stem[7] == d[1]; }
    assert Num2(stem, 9) == dt.hour by { assert stem[9] == h[0] && stem[10] == h[1]; }
    assert Num2(stem, 11) == dt.minute by { assert stem[11] == mi[0] && stem[12] == mi[1]; }
    assert Num2(stem, 13) == dt.second by { assert stem[13] == s[0] && stem[14] == s[1]; }
  }

  /** `DT_RE` has no end anchor: only the first fifteen characters of a stem
      decide the result, so appending any text leaves it unchanged. */
  lemma {:induction false} ParseStemIgnoresTail(stem: string, rest: string)
    requires |stem| >= 15
    ensures ParseStem(stem + rest) == ParseStem(stem)
    ensures ParseStem(stem) == ParseStem(stem[..15])
  {
    var t := stem + rest;
    assert t[..15] == stem[..15];
    assert forall i | 0 <= i < 15 :: t[i] == stem[i] == stem[..15][i];
    assert MatchesStampPattern(t) == MatchesStampPattern(stem) == MatchesStampPattern(stem[..15]);
  }
}
