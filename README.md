# Game review charts: record normalisation and selection

The repository draws two charts of video-game review scores from a JSON file
of Metacritic records: a grouped bar chart (`index.js`) and a circle-packing
bubble chart (`tiedye.js`). Before drawing, each script runs the same
`handleData` routine:

- `new Game(record)` for every JSON record, in input order. The constructor
  copies or renames the fields (`rating` becomes `esrb`, `release_date`
  becomes `release`, `metascore` becomes `score`, `user_score` becomes
  `userAverage`, and `critic_*` becomes `critic.{positive,negative,neutral}`).
  In `index.js` it also builds `user.{positive,negative,neutral,total}`.
- a chain of `Array.prototype.filter` stages:
  - a recency test on the last five characters of `release`;
  - an exact match against a publisher allow-list;
  - in `index.js` only, more than 20 user reviews;
  - in `index.js` only, dropping the last survivor with `slice(0, length - 1)`.

The model has one pipeline, configured twice (`Pipeline.Config`):

| module | file | contents |
|---|---|---|
| `Wrappers` | `wrappers.dfy` | `Option`: `None` is `undefined` or `NaN` |
| `JsNumber` | `js_number.dfy` | `slice(-5)`, then JavaScript's string-to-number conversion, then `>` |
| `Sequences` | `sequences.dfy` | `filter`, `slice(0, length - 1)`, and the subsequence relation |
| `Games` | `games.dfy` | raw record, `Game`, the constructor and its inverse `Restore` |
| `Pipeline` | `pipeline.dfy` | the stages, the display set and the lemmas about them |
| `BarChart` | `bar_chart.dfy` | `index.js`: cutoff 2017, 16 publishers, more than 20 user reviews, last survivor dropped |
| `BubbleChart` | `bubble_chart.dfy` | `tiedye.js`: cutoff 2010, 29 publishers, no review stage, nothing dropped |

The recency test is `game.release.slice(-5) > 2017`. JavaScript converts
the five-character string to a number, as section 7.1.4.1.1 of ECMA-262
(StringToNumber) describes:
- white space at both ends is trimmed;
- an empty string reads as 0;
- `0x`, `0o` and `0b` prefixes select base 16, 8 or 2;
- otherwise the string must be a signed decimal literal, which may have a
  fraction and an exponent;
- anything else is `NaN`, and every comparison with `NaN` is false.

`JsNumber.ToNumber` models this conversion. For a date written
"Oct 26, 2018", the tail " 2018" reads as 2018 (`JsNumber.YearTail`).

Consequences of the code as written:
- The recency test reads the last five characters, including the space
  before the year, and compares them as a number.
- A date written "2018-05-01" has the tail "05-01", which is `NaN`, so such
  a game never passes the recency test (`JsNumber.IsoDateTailIsNaN`,
  `Pipeline.IsoDatedGamesHidden`).
- The comment at index.js:65 names the one game it means to hide, but the
  code drops the last survivor by position, whatever its name
  (`Pipeline.LoneSurvivorHidden`).

## Model

| member | source | states |
|---|---|---|
| `JsNumber.TrimFrame` | index.js:55 | trimming a string removes exactly the JavaScript white space that surrounds the unspaced middle |
| `JsNumber.Tail` | index.js:55 | `slice(-5)` is the suffix of length `min(5, |s|)` |
| `JsNumber.ToNumber` | index.js:55 | StringToNumber on a tail of at most five characters: a string that trims to nothing reads as 0. The lemmas below state the blank, digit, signed, prefixed-base and NaN cases; fractions and exponents are defined but not stated separately |
| `JsNumber.TailAfter` | index.js:55 | `release.slice(-5) > year`: a tail that reads as NaN is never after any year |
| `JsNumber.BlankIsZero` | index.js:55 | a tail made only of white space (or empty) converts to 0 |
| `JsNumber.DigitsToNumber` | index.js:55 | white space followed by decimal digits converts to the digits' value |
| `JsNumber.YearTail` | index.js:55 | a release ending in a space and four digits has that year as its tail number |
| `JsNumber.MonthDayIsNaN` | index.js:55 | a tail of the form "MM-DD" (two digits, a dash, two digits) converts to NaN |
| `JsNumber.IsoDateTailIsNaN` | index.js:55 | a release written YYYY-MM-DD has a NaN tail and fails the test for every cutoff |
| `JsNumber.SignedDigits` | index.js:55 | a sign followed by one to four decimal digits converts to the digits' value, negated after `-` |
| `JsNumber.PrefixedToNumber` | tiedye.js:46 | `0x`, `0o` or `0b` (either case) followed by one to three digits of that base converts to their value in base 16, 8 or 2 |
| `JsNumber.ForeignCharIsNaN` | index.js:55 | a string whose trimmed form holds a character no numeric literal uses (not a digit up to base 16, sign, point or base letter) converts to NaN |
| `JsNumber.ForeignTailFails` | tiedye.js:46 | a release such as "TBA" whose tail holds such a character has a NaN tail and fails the recency test for every cutoff |
| `JsNumber.HexTail` | tiedye.js:46 | a release ending in `0x` and three hexadecimal digits has their base-16 value as its tail number |
| `JsNumber.HexYearTail` | tiedye.js:46 | for instance, a release ending in "0x7E2" reads as 2018 |
| `Sequences.Filter` | index.js:55-62 | `filter` returns an order-preserving subsequence whose elements all pass, and keeps every element that passes |
| `Sequences.FilterCounts` | index.js:55-62 | `filter` keeps each passing element as often as it occurs and removes every failing one |
| `Sequences.FilterFuse` | index.js:55-62 | two filters in a row equal one filter by both tests |
| `Sequences.SubsequenceTransitive` | index.js:55-65 | a subsequence of a subsequence is a subsequence, so chained stages preserve order |
| `Sequences.SubsequenceBounds` | index.js:55-65 | a subsequence is no longer than its source and adds no elements |
| `Sequences.DropLast` | index.js:65 | `slice(0, length - 1)` is the prefix of length `max(0, n - 1)` |
| `Games.Normalise` | index.js:1-40 | `Restore` gives back the record, so every field survives under its new key. The user object exists exactly in the index.js variant, and its total is defined iff all three counts are, and then equals their sum |
| `Games.Sum` | index.js:35 | the user total is defined exactly when all three counts are, and then it is their sum |
| `Games.FieldsRenamed` | index.js:3-36 | each key of the record lands in its renamed field (`rating` in `esrb`, `release_date` in `release`, `critic_neutral` in `critic.neutral`, ...), the user counts only in the index.js variant |
| `Games.BubbleGameHasNoUser` | tiedye.js:1-30 | the tiedye.js game equals the index.js game without `user` |
| `Pipeline.NormaliseAll` | index.js:51-52 | one game per record, in order: `Restore` gives back each record, without its user counts when the configuration has no review stage |
| `Pipeline.NormaliseAllShape` | index.js:51-52 | the games built from records that all have a release date all have one, and carry a `user` object exactly in the configuration with a review stage |
| `Pipeline.Recent` | index.js:55 | the recency callback: the release is present and its tail reads as a number above the cutoff |
| `Pipeline.KnownPublisher` | index.js:57-59 | the publisher callback: the publisher is present and exactly one of the listed names |
| `Pipeline.ReviewedByUsers` | index.js:61-62 | the review callback: the game has a `user` object whose total is defined and above the minimum |
| `Pipeline.KeepRecent` | index.js:55 | order-preserving subsequence. Every survivor's tail reads as a number above the cutoff, and every such input is kept as often as it occurs |
| `Pipeline.KeepKnown` | index.js:57-59 | order-preserving subsequence. Every survivor's publisher is exactly a listed name, and every such input is kept |
| `Pipeline.KeepReviewed` | index.js:61-62 | order-preserving subsequence. Every survivor has a defined user total above the minimum, and every such input is kept |
| `Pipeline.Survivors` | index.js:54-62 | the chained stages return a subsequence of the games whose elements pass every configured test |
| `Pipeline.SelectDisplaySet` | index.js:54-65 | the display set is a subsequence of the games, and each element passes every configured test |
| `Pipeline.SurvivorsAreOneFilter` | index.js:54-62 | the stage chain equals one filter by the conjunction of the tests |
| `Pipeline.DisplaySetIsOneFilter` | index.js:54-65 | the display set is the passing games in order, minus the last one when the configuration drops it |
| `Pipeline.DisplaySetLength` | index.js:65 | the display set has `max(0, n - 1)` games with the drop and `n` without, where `n` games pass |
| `Pipeline.LoneSurvivorHidden` | index.js:65 | a game that passes every test but is the only one to do so is not displayed |
| `Pipeline.DisplaySetComplete` | tiedye.js:45-53 | without the drop, each game is displayed exactly as often as it occurs if it passes, and never otherwise |
| `Pipeline.YearDatedRecent` | tiedye.js:45-46 | for a release ending in " YYYY", the recency test is exactly `YYYY > cutoff` |
| `Pipeline.IsoDatedGamesHidden` | index.js:54-55 | a game whose release is written YYYY-MM-DD is never in the display set |
| `BarChart.HandleData` | index.js:49-66 | the push loop builds one game per record, in order, each with a `user` object; the stages then return exactly the display set of those games under the bar chart's settings |
| `BarChart.DisplayedGames` | index.js:54-65 | the bar chart shows a subsequence of the built games. Each shown game has a tail above 2017, a listed publisher and a user total above 20. The shown games are the passing games minus the last |
| `BubbleChart.HandleData` | tiedye.js:40-54 | the push loop builds one game per record, in order, without `user`; the two stages then return exactly the display set of those games under the bubble chart's settings |
| `BubbleChart.DisplayedGames` | tiedye.js:45-53 | the bubble chart shows a subsequence of the built games, none with a `user` object. Each shown game has a tail above 2010 and a listed publisher. Every game with both properties is shown as often as it occurs |

## Left out

- `getData` (index.js:43-46, tiedye.js:33-37) and the top-level calls (index.js:146, tiedye.js:114) are left out: they fetch and parse the JSON file asynchronously through the charting library, which is I/O.
- `createVisualization` (index.js:69-144, tiedye.js:57-112) is left out: it computes scales and a circle-pack layout in floating point and writes SVG through the charting library.
- Missing release: the source throws a TypeError when a game has no `release` (`.slice` on undefined). This is a precondition of `BarChart.HandleData`, `BubbleChart.HandleData` and the recency stage (`AllReleased`). A `release_date` that is not a string also throws in the source; the model types it as a string.
- Review stage without `user`: the review stage would throw on a game without a `user` object. The configuration runs that stage only on games built with one (`AllWithUser`).
- A `null` element of the JSON array throws in the constructor's destructuring (index.js:3-18, tiedye.js:3-15), before any filter runs; the model's records are always objects.
- Review counts are integers or missing. A JSON `null` count (which JavaScript adds as 0) is not modelled. A string count, which `+` would concatenate, is not modelled either.
- `metascore`, `user_score` and the critic counts are only copied, so they are modelled as reals and integers, not as arbitrary JSON values.
- Strings are sequences of Unicode characters. `slice(-5)` counts UTF-16 code units, so a tail with characters outside the Basic Multilingual Plane is not modelled exactly.
- JsNumber.ToNumber: the fraction and exponent cases ("1.5", "2e3") are defined as StringToNumber defines them but no lemma states them separately, because release dates do not end that way.
- `JsNumber.ToNumber` uses reals for doubles. For strings of at most five characters, this decides every comparison with a whole-number year the same way. The literal `Infinity` needs eight characters, so it cannot occur in a tail.
- Determinism: running the pipeline twice on the same input gives the same output. This holds because the pipeline is a function; no lemma states it.
