/** Relative-time phrases ("32 minutes", "about 5 hours ago", "almost 8 years
    from now") for a signed distance in whole seconds. Timestamps are whole
    seconds since a common epoch; integers are unbounded. */
module FormatDistance {
  import opened Decimal

  // The calendar units the formatter divides by, in seconds.
  const MINUTE: nat := 60
  const HOUR: nat := 3600
  const DAY: nat := 86400
  const MONTH: nat := 2592000   // 30 days
  const YEAR: nat := 31536000   // 365 days

  function Abs(x: int): nat {
    if x < 0 then -x else x
  }

  /** The signed distance from `date` back to `baseDate`: positive when the
      date lies before the base (it is past), negative when after it. */
  function DistanceInSeconds(date: int, baseDate: int): (distance: int)
    ensures distance < 0 <==> baseDate < date
    ensures Abs(distance) == Abs(date - baseDate)
    ensures date + distance == baseDate
  {
    -(date - baseDate)
  }

  /** The phrase for magnitudes from 63080000 s (just over two 365-day
      years) on: whole years, qualified by the 30-day months left over. */
  function YearsPhrase(d: nat): (s: string)
    ensures |s| > 6 && s[|s| - 6..] == " years"
  {
    var years := d / YEAR;
    var remainingMonths := (d % YEAR) / MONTH;
    if remainingMonths < 3 then
      "about " + NatToString(years) + " years"
    else if remainingMonths < 9 then
      "over " + NatToString(years) + " years"
    else
      "almost " + NatToString(years + 1) + " years"
  }

  /** The unsuffixed phrase for a magnitude d: an ordered ladder of half-open
      thresholds in which the first match wins. */
  function Phrase(d: nat, includeSeconds: bool): (s: string)
    ensures |s| > 0
  {
    if d < 5 && includeSeconds then "less than 5 seconds"
    else if d < 10 && includeSeconds then "less than 10 seconds"
    else if d < 20 && includeSeconds then "less than 20 seconds"
    else if d < 40 && includeSeconds then "half a minute"
    else if d < 60 && includeSeconds then "less than a minute"
    else if d < 90 && includeSeconds then "1 minute"
    else if d < 30 then "less than a minute"
    else if d < 90 then "1 minute"
    else if d < 2700 then NatToString(d / MINUTE) + " minutes"
    else if d < 5400 then "about 1 hour"
    else if d < 86400 then "about " + NatToString(d / HOUR) + " hours"
    else if d < 172800 then "1 day"
    else if d < 2592000 then NatToString(d / DAY) + " days"
    else if d < 5184000 then "about 1 month"
    else if d < 7776000 then "about 2 months"
    else if d < 31540000 then NatToString(d / MONTH) + " months"
    else if d < 39425000 then "about 1 year"
    else if d < 55195000 then "over 1 year"
    else if d < 63080000 then "almost 2 years"
    else YearsPhrase(d)
  }

  /** The phrase for a signed distance, with " ago" (distance >= 0) or
      " from now" (distance < 0) appended when asked. */
  function DistanceString(distance: int, includeSeconds: bool, addSuffix: bool): (s: string)
    ensures Phrase(Abs(distance), includeSeconds) <= s
    ensures |s| > |Phrase(Abs(distance), includeSeconds)| <==> addSuffix
  {
    var suffix := if distance < 0 then " from now" else " ago";
    var phrase := Phrase(Abs(distance), includeSeconds);
    if addSuffix then phrase + suffix else phrase
  }

  /** The phrase for how far `date` lies from `baseDate`. */
  function NaiveFormatDistance(date: int, baseDate: int, includeSeconds: bool, addSuffix: bool): (s: string)
    ensures Phrase(Abs(date - baseDate), includeSeconds) <= s
    ensures |s| > |Phrase(Abs(date - baseDate), includeSeconds)| <==> addSuffix
  {
    DistanceString(DistanceInSeconds(date, baseDate), includeSeconds, addSuffix)
  }

  // ---------------------------------------------------------------------
  // Sign and suffix

  /** Without the suffix the phrase depends only on the magnitude. */
  lemma SignDoesNotMatter(distance: int, includeSeconds: bool)
    ensures DistanceString(distance, includeSeconds, false) == DistanceString(-distance, includeSeconds, false)
    ensures DistanceString(distance, includeSeconds, false) == Phrase(Abs(distance), includeSeconds)
  {
  }

  /** With the suffix the output is the unsuffixed phrase followed by
      " from now" for a negative distance and " ago" otherwise; so with the
      suffix, a distance and its negation read differently unless it is 0. */
  lemma SuffixRule(distance: int, includeSeconds: bool)
    ensures DistanceString(distance, includeSeconds, true)
         == DistanceString(distance, includeSeconds, false) + (if distance < 0 then " from now" else " ago")
    ensures DistanceString(distance, includeSeconds, true) == DistanceString(-distance, includeSeconds, true)
        <==> distance == 0
  {
  }

  /** A date after the base reads "from now", a date at or before it "ago". */
  lemma SuffixPolarity(date: int, baseDate: int, includeSeconds: bool)
    ensures NaiveFormatDistance(date, baseDate, includeSeconds, true)
         == Phrase(Abs(date - baseDate), includeSeconds) + (if baseDate < date then " from now" else " ago")
  {
  }

  // ---------------------------------------------------------------------
  // The include-seconds flag

  /** Without the flag, everything under 30 s is "less than a minute" and
      everything from 30 s to under 90 s is "1 minute". */
  lemma WithoutSeconds(d: nat)
    ensures d < 30 ==> Phrase(d, false) == "less than a minute"
    ensures 30 <= d < 90 ==> Phrase(d, false) == "1 minute"
  {
  }

  /** The flag changes the phrase exactly for magnitudes under a minute. */
  lemma SecondsFlagMatters(d: nat)
    ensures Phrase(d, true) != Phrase(d, false) <==> d < 60
  {
  }

  /** The sub-minute vectors of the source's tests. */
  lemma IncludeSecondsVectors()
    ensures Phrase(3, true) == "less than 5 seconds"
    ensures Phrase(7, true) == "less than 10 seconds"
    ensures Phrase(13, true) == "less than 20 seconds"
    ensures Phrase(21, true) == "half a minute"
    ensures Phrase(45, true) == "less than a minute"
    ensures Phrase(61, true) == "1 minute"
  {
  }

  // ---------------------------------------------------------------------
  // The interpolated counts

  /** The last three letters of a phrase; they name its unit. */
  function Ending(s: string): string
    requires |s| >= 3
  {
    s[|s| - 3..]
  }

  /** The first two letters of a phrase; they tell "about", "almost" and
      "over" apart. */
  function Opening(s: string): string
    requires |s| >= 2
  {
    s[..2]
  }

  lemma EndingOfAppend(x: string, t: string)
    requires |t| >= 3
    ensures Ending(x + t) == Ending(t)
  {
  }

  lemma OpeningOfAppend(t: string, x: string)
    requires |t| >= 2
    ensures Opening(t + x) == Opening(t)
  {
  }

  /** Equal phrases built from one template carry the same count. */
  lemma SameCount(before: string, m: nat, n: nat, after: string)
    requires before + NatToString(m) + after == before + NatToString(n) + after
    ensures m == n
  {
    var x, y := NatToString(m), NatToString(n);
    assert |x| == |y|;
    assert x == (before + x + after)[|before|..|before| + |x|];
    assert y == (before + y + after)[|before|..|before| + |y|];
    NatToStringInjective(m, n);
  }

  /** The endings of the fixed phrases, none of which is a plural unit. */
  lemma FixedEndings(d: nat, includeSeconds: bool)
    requires d < 90 || 2700 <= d < 5400 || 86400 <= d < 172800 || 2592000 <= d < 5184000 || 31540000 <= d < 55195000
    ensures |Phrase(d, includeSeconds)| >= 3
    ensures Ending(Phrase(d, includeSeconds)) in {"nds", "ute", "our", "day", "nth", "ear"}
  {
  }

  /** Every years phrase ends in "years". */
  lemma YearsEnding(d: nat)
    ensures |YearsPhrase(d)| >= 3 && Ending(YearsPhrase(d)) == "ars"
  {
  }

  /** The unit word at the end of the phrase tells which interpolated
      bucket, or the years family, produced it. */
  lemma {:induction false} PhraseEnding(d: nat, includeSeconds: bool)
    ensures |Phrase(d, includeSeconds)| >= 3
    ensures Ending(Phrase(d, includeSeconds)) == "tes" <==> 90 <= d < 2700
    ensures Ending(Phrase(d, includeSeconds)) == "urs" <==> 5400 <= d < 86400
    ensures Ending(Phrase(d, includeSeconds)) == "ays" <==> 172800 <= d < 2592000
    ensures Ending(Phrase(d, includeSeconds)) == "ths" <==> 5184000 <= d < 31540000
    ensures Ending(Phrase(d, includeSeconds)) == "ars" <==> 55195000 <= d
  {
    if 90 <= d < 2700 {
      EndingOfAppend(NatToString(d / MINUTE), " minutes");
    } else if 5400 <= d < 86400 {
      EndingOfAppend("about " + NatToString(d / HOUR), " hours");
    } else if 172800 <= d < 2592000 {
      EndingOfAppend(NatToString(d / DAY), " days");
    } else if 5184000 <= d < 7776000 {
      assert Phrase(d, includeSeconds) == "about 2 months";
    } else if 7776000 <= d < 31540000 {
      EndingOfAppend(NatToString(d / MONTH), " months");
    } else if 55195000 <= d < 63080000 {
      assert Phrase(d, includeSeconds) == "almost 2 years";
    } else if 63080000 <= d {
      YearsEnding(d);
    } else {
      FixedEndings(d, includeSeconds);
    }
  }

  /** "{n} minutes" is the phrase exactly for 90 <= d < 2700, with n the
      whole minutes in d, which lie between 1 and 44. */
  lemma MinutesPhrase(d: nat, includeSeconds: bool, n: nat)
    ensures Phrase(d, includeSeconds) == NatToString(n) + " minutes" <==> 90 <= d < 2700 && n == d / MINUTE
    ensures Phrase(d, includeSeconds) == NatToString(n) + " minutes" ==> 1 <= n <= 44
  {
    if Phrase(d, includeSeconds) == NatToString(n) + " minutes" {
      EndingOfAppend(NatToString(n), " minutes");
      PhraseEnding(d, includeSeconds);
      assert "" + NatToString(n) == NatToString(n);
      assert "" + NatToString(d / MINUTE) == NatToString(d / MINUTE);
      SameCount("", d / MINUTE, n, " minutes");
    }
  }

  /** Integer division lets a count of one reach the plural templates:
      90 s to under 120 s reads "1 minutes", and 5400 s to under 7200 s
      reads "about 1 hours". */
  lemma SingularCountsInPluralTemplates(d: nat, includeSeconds: bool)
    ensures 90 <= d < 120 ==> Phrase(d, includeSeconds) == "1 minutes"
    ensures 5400 <= d < 7200 ==> Phrase(d, includeSeconds) == "about 1 hours"
  {
  }

  /** "about {n} hours" is the phrase exactly for 5400 <= d < 86400, with n
      the whole hours in d, which lie between 1 and 23. */
  lemma HoursPhrase(d: nat, includeSeconds: bool, n: nat)
    ensures Phrase(d, includeSeconds) == "about " + NatToString(n) + " hours" <==> 5400 <= d < 86400 && n == d / HOUR
    ensures Phrase(d, includeSeconds) == "about " + NatToString(n) + " hours" ==> 1 <= n <= 23
  {
    if Phrase(d, includeSeconds) == "about " + NatToString(n) + " hours" {
      EndingOfAppend("about " + NatToString(n), " hours");
      PhraseEnding(d, includeSeconds);
      SameCount("about ", d / HOUR, n, " hours");
    }
  }

  /** "{n} days" is the phrase exactly for 172800 <= d < 2592000, with n the
      whole days in d, which lie between 2 and 29. */
  lemma DaysPhrase(d: nat, includeSeconds: bool, n: nat)
    ensures Phrase(d, includeSeconds) == NatToString(n) + " days" <==> 172800 <= d < 2592000 && n == d / DAY
    ensures Phrase(d, includeSeconds) == NatToString(n) + " days" ==> 2 <= n <= 29
  {
    if Phrase(d, includeSeconds) == NatToString(n) + " days" {
      EndingOfAppend(NatToString(n), " days");
      PhraseEnding(d, includeSeconds);
      assert "" + NatToString(n) == NatToString(n);
      assert "" + NatToString(d / DAY) == NatToString(d / DAY);
      SameCount("", d / DAY, n, " days");
    }
  }

  /** "{n} months" is the phrase exactly for 7776000 <= d < 31540000, with n
      the whole 30-day months in d, which lie between 3 and 12. */
  lemma MonthsPhrase(d: nat, includeSeconds: bool, n: nat)
    ensures Phrase(d, includeSeconds) == NatToString(n) + " months" <==> 7776000 <= d < 31540000 && n == d / MONTH
    ensures Phrase(d, includeSeconds) == NatToString(n) + " months" ==> 3 <= n <= 12
  {
    var p := Phrase(d, includeSeconds);
    if p == NatToString(n) + " months" {
      EndingOfAppend(NatToString(n), " months");
      PhraseEnding(d, includeSeconds);
      assert IsDigit(p[0]);
      assert "" + NatToString(n) == NatToString(n);
      assert "" + NatToString(d / MONTH) == NatToString(d / MONTH);
      SameCount("", d / MONTH, n, " months");
    }
  }

  /** From 63080000 s on, the phrase is the years phrase: the
      whole years are at least 2, the months left over at most 12, and the
      leftover months choose "about", "over" or "almost" (the next year). */
  lemma MultiYearRule(d: nat, includeSeconds: bool)
    requires d >= 63080000
    ensures d / YEAR >= 2 && (d % YEAR) / MONTH <= 12
    ensures var years, remainingMonths := d / YEAR, (d % YEAR) / MONTH;
      Phrase(d, includeSeconds)
        == if remainingMonths < 3 then "about " + NatToString(years) + " years"
           else if remainingMonths < 9 then "over " + NatToString(years) + " years"
           else "almost " + NatToString(years + 1) + " years"
  {
  }

  /** The first two letters of a years phrase tell which qualifier the
      leftover months chose. */
  lemma YearsOpening(d: nat)
    ensures var remainingMonths := (d % YEAR) / MONTH;
      |YearsPhrase(d)| >= 2 &&
      Opening(YearsPhrase(d))
        == if remainingMonths < 3 then "ab" else if remainingMonths < 9 then "ov" else "al"
  {
  }

  lemma QualifierOpenings()
    ensures Opening("about ") == "ab" && Opening("over ") == "ov" && Opening("almost ") == "al"
  {
  }

  lemma QualifiedOpening(qualifier: string, n: nat)
    requires |qualifier| >= 2
    ensures Opening(qualifier + NatToString(n) + " years") == Opening(qualifier)
  {
  }

  /** A phrase "{qualifier}{n} years" needs d >= 55195000. Below 63080000
      it is the fixed "almost 2 years"; from there on it is the years phrase,
      with the same first two letters. */
  lemma YearsFamily(d: nat, includeSeconds: bool, qualifier: string, n: nat)
    requires qualifier in {"about ", "over ", "almost "}
    requires Phrase(d, includeSeconds) == qualifier + NatToString(n) + " years"
    ensures 55195000 <= d
    ensures d < 63080000 ==> qualifier == "almost "
    ensures 63080000 <= d ==> Phrase(d, includeSeconds) == YearsPhrase(d)
    ensures 63080000 <= d ==> Opening(qualifier) == Opening(YearsPhrase(d))
  {
    EndingOfAppend(qualifier + NatToString(n), " years");
    PhraseEnding(d, includeSeconds);
    QualifiedOpening(qualifier, n);
    QualifierOpenings();
    if d < 63080000 {
      assert Opening(Phrase(d, includeSeconds)) == "al";
    }
  }

  /** "about {n} years" is the phrase exactly when d >= 63080000, fewer
      than 3 months are left over, and n = d / YEAR. */
  lemma AboutYearsPhrase(d: nat, includeSeconds: bool, n: nat)
    ensures Phrase(d, includeSeconds) == "about " + NatToString(n) + " years"
        <==> 63080000 <= d && (d % YEAR) / MONTH < 3 && n == d / YEAR
    ensures Phrase(d, includeSeconds) == "about " + NatToString(n) + " years" ==> n >= 2
  {
    if Phrase(d, includeSeconds) == "about " + NatToString(n) + " years" {
      YearsFamily(d, includeSeconds, "about ", n);
      YearsOpening(d);
      QualifierOpenings();
      assert (d % YEAR) / MONTH < 3;
      SameCount("about ", d / YEAR, n, " years");
    }
  }

  /** "over {n} years" is the phrase exactly when d >= 63080000, 3 to 8
      months are left over, and n = d / YEAR. */
  lemma OverYearsPhrase(d: nat, includeSeconds: bool, n: nat)
    ensures Phrase(d, includeSeconds) == "over " + NatToString(n) + " years"
        <==> 63080000 <= d && 3 <= (d % YEAR) / MONTH < 9 && n == d / YEAR
    ensures Phrase(d, includeSeconds) == "over " + NatToString(n) + " years" ==> n >= 2
  {
    if Phrase(d, includeSeconds) == "over " + NatToString(n) + " years" {
      YearsFamily(d, includeSeconds, "over ", n);
      YearsOpening(d);
      QualifierOpenings();
      assert 3 <= (d % YEAR) / MONTH < 9;
      SameCount("over ", d / YEAR, n, " years");
    }
  }

  /** "almost {n} years" is the phrase exactly when 55195000 <= d < 63080000
      (n = 2, the fixed phrase), or when d >= 63080000 and 9 or more months
      are left over (n = d / YEAR + 1). */
  lemma AlmostYearsPhrase(d: nat, includeSeconds: bool, n: nat)
    ensures Phrase(d, includeSeconds) == "almost " + NatToString(n) + " years"
        <==> ((55195000 <= d < 63080000 && n == 2)
              || (63080000 <= d && 9 <= (d % YEAR) / MONTH && n == d / YEAR + 1))
    ensures Phrase(d, includeSeconds) == "almost " + NatToString(n) + " years" ==> n >= 2
  {
    var p := Phrase(d, includeSeconds);
    if p == "almost " + NatToString(n) + " years" {
      YearsFamily(d, includeSeconds, "almost ", n);
      if d < 63080000 {
        assert "almost 2 years" == "almost " + NatToString(2) + " years";
        SameCount("almost ", 2, n, " years");
      } else {
        YearsOpening(d);
        QualifierOpenings();
        assert 9 <= (d % YEAR) / MONTH;
        SameCount("almost ", d / YEAR + 1, n, " years");
      }
    }
  }

  // ---------------------------------------------------------------------
  // The source's fixed vectors

  /** The vectors of the source's tests under an hour, without seconds
      and without suffix. */
  lemma TestVectorsUnderAnHour()
    ensures DistanceString(3, false, false) == "less than a minute"
    ensures DistanceString(7, false, false) == "less than a minute"
    ensures DistanceString(13, false, false) == "less than a minute"
    ensures DistanceString(21, false, false) == "less than a minute"
    ensures DistanceString(45, false, false) == "1 minute"
    ensures DistanceString(61, false, false) == "1 minute"
    ensures DistanceString(1920, false, false) == "32 minutes"
  {
    assert NatToString(32) == "32";
  }

  /** The vectors of the source's tests from an hour to under a year. */
  lemma TestVectorsUnderAYear()
    ensures DistanceString(3902, false, false) == "about 1 hour"
    ensures DistanceString(18002, false, false) == "about 5 hours"
    ensures DistanceString(86470, false, false) == "1 day"
    ensures DistanceString(345880, false, false) == "4 days"
    ensures DistanceString(2764800, false, false) == "about 1 month"
    ensures DistanceString(5184000, false, false) == "about 2 months"
    ensures DistanceString(10368000, false, false) == "4 months"
  {
  }

  /** The vectors of the source's tests from a year on. */
  lemma TestVectorsInYears()
    ensures DistanceString(34694000, false, false) == "about 1 year"
    ensures DistanceString(47310000, false, false) == "over 1 year"
    ensures DistanceString(61503000, false, false) == "almost 2 years"
    ensures DistanceString(160854000, false, false) == "about 5 years"
    ensures DistanceString(236550000, false, false) == "over 7 years"
    ensures DistanceString(249166000, false, false) == "almost 8 years"
  {
  }

  /** A date 9600 s after the base is "about 2 hours", "from now" with the
      suffix. */
  lemma NaiveFormatDistanceScenario()
    ensures NaiveFormatDistance(9600, 0, false, false) == "about 2 hours"
    ensures NaiveFormatDistance(9600, 0, false, true) == "about 2 hours from now"
  {
  }
}
