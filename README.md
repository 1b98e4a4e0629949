# Relative-time phrases and the search-mode toggle, in Dafny

This project models two small pure pieces of the Zed editor.

**The relative-time formatter** (`crates/ui2/src/utils/format_distance.rs`).
It turns a signed distance in seconds into an English phrase such as
"32 minutes", "about 5 hours" or "almost 8 years". When asked, it appends
" ago" (distance ≥ 0) or " from now" (distance < 0). The distance between two
timestamps is the base minus the date, so a date after the base reads
"from now".

- `FormatDistance.Phrase` is the ladder of half-open thresholds over the
  magnitude. The first match wins, as in the source.
- `FormatDistance.YearsPhrase` is the multi-year rule.
- `FormatDistance.DistanceString` adds the sign and the suffix.
- `FormatDistance.NaiveFormatDistance` composes it with `DistanceInSeconds`.
- `Decimal.NatToString` renders the numbers that `format!("{}", …)`
  interpolates.

Two references are proved equal to these definitions:

- `Decimal.DigitsValue` reads a digit string back. Rendering and reading are
  proved to be inverse bijections on canonical digit strings.
- `BucketTable` restates the ladder as a data table of
  (bound, seconds-only, template) rules with a first-applicable lookup.
  `BucketTable.LadderMatchesTable` proves the ladder and the table agree on
  every input. The table repeats the ladder's thresholds and phrases, so
  this shows the first-match semantics of the ordered ladder but cannot
  catch a wrong constant, which would sit in both copies. The independent
  content about the phrases is in the per-bucket characterisations
  (`MinutesPhrase` through `AlmostYearsPhrase`).

The model keeps the source's integer division. So 90 s to under 120 s reads
"1 minutes", and 5400 s to under 7200 s reads "about 1 hours"
(`FormatDistance.SingularCountsInPluralTemplates`).

**The search-mode toggle** (`crates/search/src/mode.rs`). `Mode.SearchMode`
is `Text` or `Regex`. Each mode has constant metadata: a label, a region id,
a tooltip, an activation action, left and right borders, and a button side.
`Mode.NextMode` switches to the other mode.

Timestamps are whole seconds since a common epoch. All integers are unbounded.

## Model

| member | source | states |
|---|---|---|
| `FormatDistance.DistanceInSeconds` | crates/ui2/src/utils/format_distance.rs:3-6 | The distance is base − date. It is negative exactly when the date lies after the base, and its magnitude is the gap between the two. |
| `FormatDistance.Phrase` | crates/ui2/src/utils/format_distance.rs:11-68 | The ladder is total: every magnitude and flag give a non-empty phrase. |
| `FormatDistance.YearsPhrase` | crates/ui2/src/utils/format_distance.rs:57-67 | Every years phrase ends in " years". Its full contract is stated by `MultiYearRule` and by the `AboutYearsPhrase`, `OverYearsPhrase` and `AlmostYearsPhrase` characterisations. |
| `FormatDistance.DistanceString` | crates/ui2/src/utils/format_distance.rs:8-75 | The output starts with the ladder's phrase for abs(distance), and is longer than it exactly when the suffix is asked for. Its full contract is stated by `SignDoesNotMatter` and `SuffixRule`. |
| `FormatDistance.NaiveFormatDistance` | crates/ui2/src/utils/format_distance.rs:77-86 | The output starts with the phrase for the gap between the two timestamps, and is longer than it exactly when the suffix is asked for. Its full contract is stated by `SuffixPolarity`. |
| `FormatDistance.SignDoesNotMatter` | crates/ui2/src/utils/format_distance.rs:8-19 | Without the suffix, the output depends only on the magnitude: d and −d give the same phrase, which is the ladder's phrase for abs(d). |
| `FormatDistance.SuffixRule` | crates/ui2/src/utils/format_distance.rs:70-74 | With the suffix, the output is the unsuffixed phrase plus " from now" (d < 0) or " ago" (d ≥ 0). With the suffix, d and −d read the same only when d = 0. |
| `FormatDistance.SuffixPolarity` | crates/ui2/src/utils/format_distance.rs:77-86 | For two timestamps with the suffix, the output is the phrase for the gap, plus " from now" when the date is after the base and " ago" otherwise. |
| `FormatDistance.WithoutSeconds` | crates/ui2/src/utils/format_distance.rs:31-34 | Without the seconds flag, any magnitude under 30 is "less than a minute" and any from 30 to under 90 is "1 minute". |
| `FormatDistance.SecondsFlagMatters` | crates/ui2/src/utils/format_distance.rs:19-34 | The seconds flag changes the phrase exactly when the magnitude is under 60. At 90 and above it has no effect, and from 60 to 89 both settings say "1 minute". |
| `FormatDistance.IncludeSecondsVectors` | crates/ui2/src/utils/format_distance.rs:164-171 | With the seconds flag, 3, 7, 13, 21, 45 and 61 give the six sub-minute phrases of the source's tests. |
| `FormatDistance.SingularCountsInPluralTemplates` | crates/ui2/src/utils/format_distance.rs:35-40 | 90 to 119 s reads "1 minutes" and 5400 to 7199 s reads "about 1 hours", because the count is truncated by integer division. |
| `FormatDistance.PhraseEnding` | crates/ui2/src/utils/format_distance.rs:35-67 | Proof helper for `MinutesPhrase` through `AlmostYearsPhrase`, not a promise of the source: the phrase's last three letters identify its unit family. "tes" means 90 ≤ d < 2700, "urs" means 5400 ≤ d < 86400, "ays" means 172800 ≤ d < 2592000, "ths" means 5184000 ≤ d < 31540000, and "ars" means d ≥ 55195000. Each holds in both directions. |
| `FormatDistance.MinutesPhrase` | crates/ui2/src/utils/format_distance.rs:35-36 | The phrase is "{n} minutes" iff 90 ≤ d < 2700 and n = d / 60. Such an n lies in 1..44. |
| `FormatDistance.HoursPhrase` | crates/ui2/src/utils/format_distance.rs:39-40 | The phrase is "about {n} hours" iff 5400 ≤ d < 86400 and n = d / 3600. Such an n lies in 1..23. |
| `FormatDistance.DaysPhrase` | crates/ui2/src/utils/format_distance.rs:43-44 | The phrase is "{n} days" iff 172800 ≤ d < 2592000 and n = d / 86400. Such an n lies in 2..29. |
| `FormatDistance.MonthsPhrase` | crates/ui2/src/utils/format_distance.rs:49-50 | The phrase is "{n} months" iff 7776000 ≤ d < 31540000 and n = d / 2592000. Such an n lies in 3..12. |
| `FormatDistance.MultiYearRule` | crates/ui2/src/utils/format_distance.rs:57-67 | For d ≥ 63080000, years = d / 31536000 is at least 2 and the leftover 30-day months are at most 12. The phrase is "about {years} years" under 3 leftover months, "over {years} years" under 9, and "almost {years+1} years" otherwise. |
| `FormatDistance.YearsOpening` | crates/ui2/src/utils/format_distance.rs:58-67 | Proof helper for the three years characterisations, not a promise of the source: the first two letters of the years phrase are "ab", "ov" or "al", according to the leftover months (< 3, < 9, otherwise). |
| `FormatDistance.YearsFamily` | crates/ui2/src/utils/format_distance.rs:55-67 | Proof helper for the three years characterisations: a phrase "{qualifier}{n} years" only occurs from 55195000 on. Below 63080000 it is the fixed "almost 2 years". From 63080000 on it is the years phrase, with the same qualifier. |
| `FormatDistance.AboutYearsPhrase` | crates/ui2/src/utils/format_distance.rs:61-62 | The phrase is "about {n} years" iff d ≥ 63080000, fewer than 3 months are left over, and n = d / 31536000. Then n ≥ 2. |
| `FormatDistance.OverYearsPhrase` | crates/ui2/src/utils/format_distance.rs:63-64 | The phrase is "over {n} years" iff d ≥ 63080000, 3 to 8 months are left over, and n = d / 31536000. Then n ≥ 2. |
| `FormatDistance.AlmostYearsPhrase` | crates/ui2/src/utils/format_distance.rs:55-67 | The phrase is "almost {n} years" iff either 55195000 ≤ d < 63080000 and n = 2, or d ≥ 63080000 with at least 9 months left over and n = d / 31536000 + 1. |
| `FormatDistance.TestVectorsUnderAnHour` | crates/ui2/src/utils/format_distance.rs:142-148 | The source's vectors 3 through 1920 give the phrases its tests expect; for example, 1920 gives "32 minutes". |
| `FormatDistance.TestVectorsUnderAYear` | crates/ui2/src/utils/format_distance.rs:149-155 | The vectors 3902 through 10368000 give the expected phrases, "about 1 hour" to "4 months". |
| `FormatDistance.TestVectorsInYears` | crates/ui2/src/utils/format_distance.rs:156-161 | The vectors 34694000 through 249166000 give the expected phrases, "about 1 year" to "almost 8 years". |
| `FormatDistance.NaiveFormatDistanceScenario` | crates/ui2/src/utils/format_distance.rs:104-127 | A date 9600 s after the base gives "about 2 hours", and "about 2 hours from now" with the suffix. |
| `Decimal.NatToString` | crates/ui2/src/utils/format_distance.rs:36 | The rendering of a number is a non-empty digit string with no leading zero. It has one digit exactly when the number is below 10. |
| `Decimal.ValueOfNatToString` | crates/ui2/src/utils/format_distance.rs:36 | Reading back a rendered number gives the number. |
| `Decimal.NatToStringOfValue` | crates/ui2/src/utils/format_distance.rs:36 | Rendering the value of a canonical digit string gives the string back. |
| `Decimal.NatToStringInjective` | crates/ui2/src/utils/format_distance.rs:36 | Two numbers render alike iff they are equal. So each phrase determines its interpolated count. |
| `BucketTable.FirstApplicable` | crates/ui2/src/utils/format_distance.rs:19-56 | The lookup returns the first rule that applies. Every rule before it does not apply, and it returns the end of the table when no rule applies. |
| `BucketTable.BucketsAscend` | crates/ui2/src/utils/format_distance.rs:19-56 | Among the seconds-only rules and among the other rules, the bounds strictly increase, so each rule owns one half-open interval. All bounds are at most 63080000, where the years phrase begins. |
| `BucketTable.LadderMatchesTable` | crates/ui2/src/utils/format_distance.rs:19-68 | For every magnitude and flag, the ladder gives the same phrase as the first applicable rule of the table, or the years phrase when no rule applies. |
| `Mode.DefaultMode` | crates/search/src/mode.rs:5-10 | The default mode is the one labelled "Text". |
| `Mode.SearchMode.Label` | crates/search/src/mode.rs:19-24 | The label is "Text" exactly for Text and "Regex" exactly for Regex. |
| `Mode.SearchMode.RegionId` | crates/search/src/mode.rs:26-31 | The region id is 3 exactly for Text and 5 exactly for Regex. |
| `Mode.SearchMode.TooltipText` | crates/search/src/mode.rs:33-38 | The tooltip is "Activate " + label + " Search". |
| `Mode.SearchMode.ActivateAction` | crates/search/src/mode.rs:40-45 | Text dispatches ActivateTextMode and Regex dispatches the other action. |
| `Mode.SearchMode.BorderRight` | crates/search/src/mode.rs:47-52 | Every mode's button has a right border. |
| `Mode.SearchMode.BorderLeft` | crates/search/src/mode.rs:54-59 | Only the Text button has a left border. |
| `Mode.SearchMode.ButtonSide` | crates/search/src/mode.rs:61-66 | The side is always present: Left exactly for Text, otherwise Right. |
| `Mode.NextMode` | crates/search/src/mode.rs:69-74 | The toggle never returns its argument; it has no fixed point. |
| `Mode.NextModeInvolution` | crates/search/src/mode.rs:69-74 | Toggling twice returns the starting mode. |
| `Mode.NextModeBijective` | crates/search/src/mode.rs:69-74 | The toggle is injective, and it is its own inverse: NextMode(a) = b iff NextMode(b) = a. |
| `Mode.MetadataInjective` | crates/search/src/mode.rs:19-66 | Label, region id, tooltip, action and button side each tell the two modes apart. |
| `Mode.ToggleLayout` | crates/search/src/mode.rs:47-74 | Toggling moves the button to the other side and flips the left border. The right border stays on. |

## Left out

- `naive_format_distance_from_now` (crates/ui2/src/utils/format_distance.rs:88-96) and its test (lines 129-138) are not modelled. They read the local wall clock, so their output depends on when they run. A caller of the model passes "now" as `baseDate` to `NaiveFormatDistance` instead.
- Date-time construction and parsing, and `signed_duration_since`, belong to the chrono library and are not part of this model. Timestamps are whole seconds. The truncation of sub-second durations by `num_seconds` therefore does not arise.
- `FormatDistance.Phrase`: the model uses unbounded integers. It does not model the 64-bit overflow of `distance.abs()` at the most negative 64-bit value. For that input the source panics in a debug build and keeps the negative value in a release build, while the model returns a phrase.
- `Mode.SearchMode.ActivateAction`: the action is an opaque tag. Boxing it as a trait object and dispatching it through the UI framework are not modelled.
- String allocation (`to_string`, `format!`) is not modelled: phrases are values of type `string`.
