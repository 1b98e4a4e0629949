/** A data-driven reference for the formatter's ladder: an ordered table of
    (exclusive upper bound, seconds-only flag, phrase template) rules, looked
    up by taking the first rule that applies, with the years phrase past the
    end of the table. `LadderMatchesTable` shows the ladder in
    `FormatDistance.Phrase` computes exactly this lookup. */
module BucketTable {
  import opened Decimal
  import opened FormatDistance

  type Unit = u: nat | u > 0 witness 1

  /** A phrase that is fixed, or that interpolates the whole units in d. */
  datatype Template = Fixed(text: string) | Count(before: string, unit: Unit, after: string)

  /** A rule applies to magnitudes below `below`; a seconds-only rule applies
      only when sub-minute granularity was asked for. */
  datatype Rule = Rule(below: nat, secondsOnly: bool, template: Template)

  const Buckets: seq<Rule> := [
    Rule(5, true, Fixed("less than 5 seconds")),
    Rule(10, true, Fixed("less than 10 seconds")),
    Rule(20, true, Fixed("less than 20 seconds")),
    Rule(40, true, Fixed("half a minute")),
    Rule(60, true, Fixed("less than a minute")),
    Rule(90, true, Fixed("1 minute")),
    Rule(30, false, Fixed("less than a minute")),
    Rule(90, false, Fixed("1 minute")),
    Rule(2700, false, Count("", MINUTE, " minutes")),
    Rule(5400, false, Fixed("about 1 hour")),
    Rule(86400, false, Count("about ", HOUR, " hours")),
    Rule(172800, false, Fixed("1 day")),
    Rule(2592000, false, Count("", DAY, " days")),
    Rule(5184000, false, Fixed("about 1 month")),
    Rule(7776000, false, Fixed("about 2 months")),
    Rule(31540000, false, Count("", MONTH, " months")),
    Rule(39425000, false, Fixed("about 1 year")),
    Rule(55195000, false, Fixed("over 1 year")),
    Rule(63080000, false, Fixed("almost 2 years"))
  ]

  predicate Applies(r: Rule, d: nat, includeSeconds: bool) {
    d < r.below && (r.secondsOnly ==> includeSeconds)
  }

  function Render(t: Template, d: nat): string {
    match t
    case Fixed(text) => text
    case Count(before, unit, after) => before + NatToString(d / unit) + after
  }

  /** The index of the first rule at or after `from` that applies, or
      |Buckets| when none does. */
  function FirstApplicable(d: nat, includeSeconds: bool, from: nat): (i: nat)
    requires from <= |Buckets|
    ensures from <= i <= |Buckets|
    ensures i < |Buckets| ==> Applies(Buckets[i], d, includeSeconds)
    ensures forall j :: from <= j < i ==> !Applies(Buckets[j], d, includeSeconds)
    decreases |Buckets| - from
  {
    if from == |Buckets| then from
    else if Applies(Buckets[from], d, includeSeconds) then from
    else FirstApplicable(d, includeSeconds, from + 1)
  }

  /** The phrase the table gives: the first applicable rule's template, or
      the years phrase when no rule applies. */
  function TablePhrase(d: nat, includeSeconds: bool): string {
    var i := FirstApplicable(d, includeSeconds, 0);
    if i < |Buckets| then Render(Buckets[i].template, d) else YearsPhrase(d)
  }

  /** Among the rules of one kind the bounds strictly increase, so each rule
      owns the half-open interval from the previous bound to its own; the
      last bound is where the years phrase takes over. */
  lemma BucketsAscend()
    ensures forall i, j :: 0 <= i < j < |Buckets| && Buckets[i].secondsOnly == Buckets[j].secondsOnly
              ==> Buckets[i].below < Buckets[j].below
    ensures forall i :: 0 <= i < |Buckets| ==> Buckets[i].below <= 63080000
  {
  }

  /** The first rule applicable to d is the i-th. */
  lemma FirstIs(d: nat, includeSeconds: bool, i: nat)
    requires i < |Buckets| && Applies(Buckets[i], d, includeSeconds)
    requires forall j :: 0 <= j < i ==> !Applies(Buckets[j], d, includeSeconds)
    ensures FirstApplicable(d, includeSeconds, 0) == i
  {
  }

  /** From the 1-minute rules on, the first applicable rule is the one whose
      interval, from the previous rule's bound to its own, holds d. */
  lemma {:induction false} FirstFromInterval(d: nat, includeSeconds: bool, i: nat)
    requires 8 <= i < |Buckets| && Buckets[i - 1].below <= d < Buckets[i].below
    ensures FirstApplicable(d, includeSeconds, 0) == i
  {
    BucketsAscend();
    forall j | 0 <= j < i
      ensures !Applies(Buckets[j], d, includeSeconds)
    {
      if j < 6 {
        assert Buckets[j].below <= Buckets[5].below <= Buckets[7].below <= Buckets[i - 1].below;
      } else {
        assert Buckets[j].below <= Buckets[i - 1].below;
      }
    }
    FirstIs(d, includeSeconds, i);
  }

  /** With seconds asked for, the ladder and the table agree below one
      minute and a half. */
  lemma AgreeWithSeconds(d: nat)
    requires d < 90
    ensures Phrase(d, true) == TablePhrase(d, true)
  {
  }

  /** Without seconds, the ladder and the table agree below one minute and
      a half. */
  lemma AgreeWithoutSeconds(d: nat)
    requires d < 90
    ensures Phrase(d, false) == TablePhrase(d, false)
  {
  }

  /** The ladder and the table agree on the "{n} minutes" bucket. */
  lemma AgreeOnMinutes(d: nat, includeSeconds: bool)
    requires 90 <= d < 2700
    ensures Phrase(d, includeSeconds) == TablePhrase(d, includeSeconds)
  {
    FirstIs(d, includeSeconds, 8);
  }

  /** The ladder and the table agree on the "about {n} hours" bucket. */
  lemma AgreeOnHours(d: nat, includeSeconds: bool)
    requires 5400 <= d < 86400
    ensures Phrase(d, includeSeconds) == TablePhrase(d, includeSeconds)
  {
    assert Buckets[9].below == 5400 && Buckets[10].below == 86400;
    FirstFromInterval(d, includeSeconds, 10);
  }

  /** The ladder and the table agree on the "{n} days" bucket. */
  lemma AgreeOnDays(d: nat, includeSeconds: bool)
    requires 172800 <= d < 2592000
    ensures Phrase(d, includeSeconds) == TablePhrase(d, includeSeconds)
  {
    assert Buckets[11].below == 172800 && Buckets[12].below == 2592000;
    FirstFromInterval(d, includeSeconds, 12);
  }

  /** The ladder and the table agree on the "{n} months" bucket. */
  lemma AgreeOnMonths(d: nat, includeSeconds: bool)
    requires 7776000 <= d < 31540000
    ensures Phrase(d, includeSeconds) == TablePhrase(d, includeSeconds)
  {
    assert Buckets[14].below == 7776000 && Buckets[15].below == 31540000;
    FirstFromInterval(d, includeSeconds, 15);
  }

  /** The ladder and the table agree on "about 1 hour" and "1 day". */
  lemma {:induction false} AgreeOnHourAndDay(d: nat, includeSeconds: bool)
    requires 2700 <= d < 5400 || 86400 <= d < 172800
    ensures Phrase(d, includeSeconds) == TablePhrase(d, includeSeconds)
  {
    if d < 5400 {
      assert Buckets[8].below == 2700 && Buckets[9].below == 5400;
      FirstFromInterval(d, includeSeconds, 9);
    } else {
      assert Buckets[10].below == 86400 && Buckets[11].below == 172800;
      FirstFromInterval(d, includeSeconds, 11);
    }
  }

  /** The ladder and the table agree on "about 1 month" and "about 2 months". */
  lemma {:induction false} AgreeOnOneAndTwoMonths(d: nat, includeSeconds: bool)
    requires 2592000 <= d < 7776000
    ensures Phrase(d, includeSeconds) == TablePhrase(d, includeSeconds)
  {
    if d < 5184000 {
      assert Buckets[12].below == 2592000 && Buckets[13].below == 5184000;
      FirstFromInterval(d, includeSeconds, 13);
    } else {
      assert Buckets[13].below == 5184000 && Buckets[14].below == 7776000;
      FirstFromInterval(d, includeSeconds, 14);
    }
  }

  /** The ladder and the table agree on "about 1 year", "over 1 year" and
      "almost 2 years". */
  lemma {:induction false} AgreeOnFirstYears(d: nat, includeSeconds: bool)
    requires 31540000 <= d < 63080000
    ensures Phrase(d, includeSeconds) == TablePhrase(d, includeSeconds)
  {
    if d < 39425000 {
      assert Buckets[15].below == 31540000 && Buckets[16].below == 39425000;
      FirstFromInterval(d, includeSeconds, 16);
    } else if d < 55195000 {
      assert Buckets[16].below == 39425000 && Buckets[17].below == 55195000;
      FirstFromInterval(d, includeSeconds, 17);
    } else {
      assert Buckets[17].below == 55195000 && Buckets[18].below == 63080000;
      FirstFromInterval(d, includeSeconds, 18);
    }
  }

  /** Past the last bound no rule applies and both give the years phrase. */
  lemma AgreeOnYears(d: nat, includeSeconds: bool)
    requires 63080000 <= d
    ensures Phrase(d, includeSeconds) == TablePhrase(d, includeSeconds)
  {
    BucketsAscend();
  }

  /** The ladder and the table agree on every magnitude and flag. */
  lemma LadderMatchesTable(d: nat, includeSeconds: bool)
    ensures Phrase(d, includeSeconds) == TablePhrase(d, includeSeconds)
  {
    if d < 90 && includeSeconds {
      AgreeWithSeconds(d);
    } else if d < 90 {
      AgreeWithoutSeconds(d);
    } else if d < 2700 {
      AgreeOnMinutes(d, includeSeconds);
    } else if 5400 <= d < 86400 {
      AgreeOnHours(d, includeSeconds);
    } else if 172800 <= d < 2592000 {
      AgreeOnDays(d, includeSeconds);
    } else if 7776000 <= d < 31540000 {
      AgreeOnMonths(d, includeSeconds);
    } else if 63080000 <= d {
      AgreeOnYears(d, includeSeconds);
    } else if d < 172800 {
      AgreeOnHourAndDay(d, includeSeconds);
    } else if d < 7776000 {
      AgreeOnOneAndTwoMonths(d, includeSeconds);
    } else {
      AgreeOnFirstYears(d, includeSeconds);
    }
  }
}
