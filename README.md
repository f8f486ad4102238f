# Fitness tracker server logic, modelled in Dafny

This project models the server-side logic of a small workout-logging web
application and proves properties of that model. It covers four parts:

- **The chat endpoint** (`POST /api/chat`):
  - builds a text context from the caller's exercises;
  - asks a language model for a JSON object of actions;
  - extracts the `{ … }` span from the model's reply, falling back softly when
    the reply cannot be parsed;
  - applies the actions (`add`, `update`, `delete`, `note`) in order to an
    in-memory copy of the caller's exercises and workout. Every action that
    reaches the datastore is answered by an oracle.
- **The metrics endpoint** (`GET /api/metrics`):
  - groups exercises by workout;
  - computes each week's weighted volume (kg × 2.2, cardio units excluded);
  - computes a composite score out of 100 for this week and last week, and the
    trend between them (a ±5 dead band);
  - computes the current streak of consecutive workout days;
  - builds a seven-day series.
- **Workout creation** (`POST /api/workouts`): looks up a template by id,
  inserts a workout carrying the template's name and tag, and inserts one
  exercise row per template exercise with `order` equal to its index.
- **The template table** and the list of available tags.

The model has seven modules:

- `Database`: row shapes and the datastore's answer.
- `Text`: ASCII lower-casing, substring search, number rendering and `join`.
- `Seqs`: an order-keeping `filter`.
- `Chat`, `Metrics`, `Templates` and `Workouts`: one per source file.

The code that changes state step by step is written as methods with loops, each
proved against a specification function:

- the chat action loop;
- the grouping `reduce`;
- the volume loops;
- the streak `while` loop;
- the seven-day loop.

The template lookup and the row `map` are pure and are written as functions.

Conventions:

- Dates are whole day numbers, and "today" is a parameter.
- Fractions are `real`. `Math.round(x)` is `floor(x + 0.5)`.
- Session, API key, language model, `JSON.parse` and datastore results are
  parameters.

Choices that follow the code's own behaviour:

- The chat handler (`src/app/api/chat/route.ts:10-17, 132-206`) recognises
  only `add`, `update`, `delete` and `note`. An action of any other kind is
  `Unrecognised` and changes nothing.
- Sets and reps are numbers in the row type (`src/types/database.ts:38-39`),
  so they are `int`.
- The fetch starts fourteen days back, but the time-of-day comparisons
  (`src/app/api/metrics/route.ts:57-65`) leave that day in neither week:
  - "this week" is days 0 to 6 back, with no upper bound;
  - "last week" is days 7 to 13 back.

## Model

| member | source | states |
|---|---|---|
| Text.Lower | src/app/api/chat/route.ts:153-156 | `toLowerCase` for ASCII: same length, each character lower-cased |
| Text.LowerIsLower | src/app/api/chat/route.ts:153-156 | lower-cased text has no capital letter, and lower-casing again changes nothing |
| Text.ContainsIffOccurs | src/app/api/chat/route.ts:155-156 | `includes` holds exactly when the needle occurs at some index, in both directions |
| Text.LowerContainsMiddle | src/app/api/chat/route.ts:155-156 | after lower-casing, a string still contains the lower-cased form of any piece of it |
| Text.NatToString | src/app/api/chat/route.ts:85 | a whole number renders as a non-empty digit string with no leading zero |
| Text.NatToStringRoundTrip | src/app/api/chat/route.ts:85 | reading the rendered digits back gives the number |
| Text.JoinSnoc | src/app/api/chat/route.ts:87 | joining one more part appends the separator and that part |
| Text.JoinContainsParts | src/app/api/chat/route.ts:87 | every part occurs in the result of `join` |
| Seqs.Filter | src/app/api/chat/route.ts:188 | `filter` never lengthens the list |
| Seqs.FilterMembers | src/app/api/metrics/route.ts:62-65 | `filter` keeps exactly the elements that pass the test |
| Seqs.FilterAll | src/app/api/chat/route.ts:188 | when every element passes, `filter` returns the list unchanged |
| Chat.FindMatch | src/app/api/chat/route.ts:153-157 | the first row whose lower-cased name contains the lower-cased search, or is contained in it; otherwise none matches |
| Chat.MatchesIff | src/app/api/chat/route.ts:181-184 | a match means the lower-cased name is a substring of the search, or the search a substring of the name |
| Chat.FindMatchIgnoresCase | src/app/api/chat/route.ts:153 | searches that differ only in letter case find the same row |
| Chat.SearchInsideNameMatches | src/app/api/chat/route.ts:155 | a search spelled inside the stored name matches it, whatever the case |
| Chat.NameInsideSearchMatches | src/app/api/chat/route.ts:156 | a search containing the stored name matches it, whatever the case |
| Chat.PrefixIgnoringCaseMatches | src/app/api/chat/route.ts:153-155 | a search that spells the start of the stored name, up to letter case, matches it |
| Chat.ShortSearchMatches | src/app/api/chat/route.ts:153-157 | "bench" matches "Bench Press" |
| Chat.AddAppendsOneRow | src/app/api/chat/route.ts:133-150 | `add` appends one row only when the exercise is named and the insert succeeds; sets default to 3 and reps to 8 (0 counts as missing), weight to null; order is the caller's list length; otherwise nothing changes |
| Chat.UpdateRewritesMatchedRow | src/app/api/chat/route.ts:151-177 | `update` replaces only the rows with the matched id, setting each given field and keeping the rest of the matched row; the length, the workout and the other rows stay the same; a missing or empty name, no match or a failed update changes nothing |
| Chat.RemoveUniqueId | src/app/api/chat/route.ts:188 | removing an id held by one row removes exactly that row and keeps the others in order |
| Chat.DeleteRemovesMatchedRow | src/app/api/chat/route.ts:178-189 | `delete` removes every row with the matched id whatever the datastore answers, keeping every row with another id; when ids are unique, exactly the matched row goes and the others keep their order; a missing or empty name or no match changes nothing |
| Chat.NoteSetsNotes | src/app/api/chat/route.ts:190-205 | a successful `note` sets notes to the original notes, a newline and the content, or to the content when there were no notes; otherwise nothing changes |
| Chat.UnrecognisedIsNoop | src/app/api/chat/route.ts:132-207 | an action of another kind changes nothing |
| Chat.RunSplit | src/app/api/chat/route.ts:129-132 | actions run strictly in order: running two batches in a row is the same as running them as one |
| Chat.LastNote | src/app/api/chat/route.ts:190-205 | finds the last note whose update succeeded, or reports that there is none |
| Chat.RunKeepsLastNote | src/app/api/chat/route.ts:190-205 | after a turn, the workout is the one from the last successful note, built on the original notes; with no such note it is unchanged |
| Chat.StepKeepsOrders | src/app/api/chat/route.ts:143 | if every row's order is the caller's list length or the order of one of the caller's rows, one action keeps it so |
| Chat.RunKeepsOrders | src/app/api/chat/route.ts:129-207 | after a turn, every row's order is the caller's original list length or the order of one of the caller's rows |
| Chat.AddInTurnTakesOriginalLength | src/app/api/chat/route.ts:133-150 | an add that lands at any point of a turn appends one row, with the caller's original list length as its order and the action's exercise as its name |
| Chat.UpdateSeesEarlierAdd | src/app/api/chat/route.ts:129-176 | an update can match a row added earlier in the same turn |
| Chat.ApplyActions | src/app/api/chat/route.ts:129-207 | the action loop ends with the state given by running every action in order from the caller's copies |
| Chat.ContextShape | src/app/api/chat/route.ts:80-88 | empty list: "No exercises in this workout yet."; otherwise the header followed by a line for each exercise |
| Chat.Lines | src/app/api/chat/route.ts:83-86 | the `map` gives one line per exercise |
| Chat.ContextGrowsByLine | src/app/api/chat/route.ts:80-88 | one exercise gives the header and its line; each further exercise appends a newline and its line, so the lines follow the header in list order |
| Chat.ContextHasLine | src/app/api/chat/route.ts:82-87 | the context contains the line of each exercise |
| Chat.LineShape | src/app/api/chat/route.ts:85 | a line begins "- name: S sets x " and ends in " lbs" exactly when the weight is truthy; otherwise it ends in " reps" |
| Chat.FirstIndex | src/app/api/chat/route.ts:113 | the first position of a character, or none |
| Chat.LastIndex | src/app/api/chat/route.ts:113 | the last position of a character, or none |
| Chat.JsonSpan | src/app/api/chat/route.ts:113-116 | the greedy span from the first `{` to the last `}`; it exists exactly when some `{` comes before some `}` |
| Chat.Post | src/app/api/chat/route.ts:57-221 | 401 without a user; 500 without an API key; 500 when the model call fails; 500 when the reply has no text; the apology and the caller's state unchanged when there is no span or parsing fails; otherwise the model's response and the state after the action loop |
| Metrics.Round | src/app/api/metrics/route.ts:94 | `Math.round`: the nearest integer, halves rounded up |
| Metrics.ExercisesOfMembers | src/app/api/metrics/route.ts:50-54 | a workout's bucket holds exactly the exercises with that workout id |
| Metrics.GroupByWorkout | src/app/api/metrics/route.ts:50-54 | one bucket for each workout id that occurs; each holds that workout's exercises in their original order |
| Metrics.ContributionExamples | src/app/api/metrics/route.ts:74-76 | 3 × 8 × 100 contributes 5280 in kg, 2400 in lbs and 0 in minutes |
| Metrics.ListVolumeNonNegative | src/app/api/metrics/route.ts:72-78 | with no negative counts or weights, a workout's volume is not negative |
| Metrics.PeriodVolumeNonNegative | src/app/api/metrics/route.ts:68-81 | with no negative counts or weights, a period's volume is not negative |
| Metrics.WorkoutVolume | src/app/api/metrics/route.ts:72-78 | the inner loop sums the contributions of one workout's exercises: sets × reps × weight in lbs for qualifying rows, 0 for the others |
| Metrics.RawVolume | src/app/api/metrics/route.ts:69-79 | the nested loops sum sets × reps × weight in lbs over the qualifying exercises of every workout in the list |
| Metrics.CalculateVolume | src/app/api/metrics/route.ts:68-81 | `calculateVolume` is that sum, rounded |
| Metrics.WeeksDisjoint | src/app/api/metrics/route.ts:62-65 | no workout is in both weeks, and the two counts together never exceed the fetched list |
| Metrics.MaxVolume | src/app/api/metrics/route.ts:97 | at least 1 and at least both volumes, and equal to one of the three |
| Metrics.ScoreBounds | src/app/api/metrics/route.ts:87-95 | the score lies in [0, 100] whenever 0 <= volume <= maximum |
| Metrics.ScoreMonotoneInCount | src/app/api/metrics/route.ts:89 | more workouts never lower the score |
| Metrics.TrendOf | src/app/api/metrics/route.ts:156-161 | `up` exactly when current > previous + 5; `down` exactly when current < previous - 5; `stable` exactly otherwise |
| Metrics.TrendAntisymmetric | src/app/api/metrics/route.ts:156-161 | swapping the two scores swaps `up` and `down` |
| Metrics.LatestDate | src/app/api/metrics/route.ts:103-110 | the first date after sorting newest first: a fetched date no earlier than any other |
| Metrics.RunLengthMeaning | src/app/api/metrics/route.ts:113-119 | the walk back from a day counts exactly the days with a workout before the first day without one |
| Metrics.StreakMeaning | src/app/api/metrics/route.ts:102-121 | the streak is 0 unless the latest workout is today or yesterday; otherwise it is at least 1 and counts the consecutive workout days back from that date |
| Metrics.StreakExamples | src/app/api/metrics/route.ts:102-121 | workouts today and yesterday only give a streak of 2; a latest workout before yesterday gives 0 |
| Metrics.Streak | src/app/api/metrics/route.ts:102-121 | the `while` loop computes the streak described above |
| Metrics.DayScoreBounds | src/app/api/metrics/route.ts:144-146 | 0 on a day without workouts; otherwise at most 100, and at least 30 when the day's volume is not negative |
| Metrics.WeeklyData | src/app/api/metrics/route.ts:124-153 | seven entries; entry k is day today-6+k with that day's count and score |
| Metrics.ComputeMetrics | src/app/api/metrics/route.ts:35-171 | `null` exactly when no workouts were fetched; otherwise the report, with a failed exercise fetch counting as no exercises |
| Metrics.Get | src/app/api/metrics/route.ts:9-174 | 401 without a user; 500 when the workout query fails; `null` for an empty window; otherwise the report |
| Metrics.ReportScoresInRange | src/app/api/metrics/route.ts:83-171 | with no negative data, both scores lie in [0, 100], the total volume is not negative, and there are no more weekly workouts than fetched ones |
| Metrics.QuietFortnight | src/app/api/metrics/route.ts:87-161 | no workout in either week gives two zero scores, zero volume and a stable trend |
| Metrics.WeeklySeriesShape | src/app/api/metrics/route.ts:124-153 | seven days in ascending order ending today; each entry counts that day's workouts; its score is 0 when there are none and never above 100 |
| Templates.TemplateIdsDistinct | src/lib/templates.ts:13-53 | four templates with pairwise distinct ids |
| Templates.TemplateSizes | src/lib/templates.ts:18-51 | only `custom` has no exercises; the others have four each |
| Templates.TemplateExercisesUnweighted | src/lib/templates.ts:19-45 | every template exercise has a null weight and positive sets and reps |
| Templates.TemplateTagsAvailable | src/lib/templates.ts:17-55 | every template's tag is "Lifting", one of the available tags |
| Workouts.FindTemplate | src/app/api/workouts/route.ts:42 | `find`: the first template with the id, or none when no template has it (or the id is missing) |
| Workouts.FindTemplateUnique | src/app/api/workouts/route.ts:42 | with distinct ids, looking up a template's id finds that template |
| Workouts.ShippedTemplatesFound | src/app/api/workouts/route.ts:42 | each shipped template is found by its own id |
| Workouts.ExerciseRowsFaithful | src/app/api/workouts/route.ts:68-75 | one row per template exercise, in order; row i has order i and the new workout's id; name, sets, reps and weight read back as the template's list |
| Workouts.UnauthenticatedWritesNothing | src/app/api/workouts/route.ts:36-38 | without a user: 401 and no write |
| Workouts.UnknownTemplateWritesNothing | src/app/api/workouts/route.ts:42-45 | an unknown template id: 400 and no write |
| Workouts.CreatedWorkoutFields | src/app/api/workouts/route.ts:50-87 | the workout insert carries the template's name and tag, today and the user id; an insert failure gives 500 with no further write; otherwise the response is the new workout |
| Workouts.ExerciseInsertOnlyWhenNonEmpty | src/app/api/workouts/route.ts:67-80 | a template with exercises adds one exercise insert of its rows; an empty one adds none |
| Workouts.CustomTemplateInsertsNoExercises | src/app/api/workouts/route.ts:67 | "custom" creates the workout and inserts no exercises |
| Workouts.ExerciseFailureIgnored | src/app/api/workouts/route.ts:81-87 | a failed exercise insert changes neither the response nor the writes |

## Left out

- Authentication, the datastore client and the language-model SDK are not modelled.
  - The session is an optional user id.
  - The API key is a flag.
  - The model's reply and `JSON.parse` are functions passed in.
  - Each datastore write answers through an oracle: an error, or the new row's id and timestamp.
- A row written successfully is taken to be the caller's row merged with the update. The datastore's own copy of the row is not modelled.
- The exact JSON shape of actions is not modelled. An `update` whose `sets` or `reps` is an explicit `null` is outside `Action`, whose counts are optional integers; only `weight` tells missing apart from `null`.
- A typed action whose name or content is not a string is not modelled. Truthiness is checked on optional strings only.
- JavaScript's rendering of a non-integer weight in the context line is the `numeral` parameter. Whole-number counts are rendered in decimal.
- The system prompt (`SYSTEM_PROMPT`) is not modelled. Only the user message (context plus quoted message) is assembled, and the model's behaviour on it is not modelled.
- `toLowerCase` is ASCII-only; Unicode case mapping is not modelled.
- IEEE-754 arithmetic (`* 2.2`, `* 12.5`, division, `Math.round` on inexact values) is exact `real` arithmetic here.
- Calendar dates, `toISOString`, time zones and time of day are whole day numbers, with "today" as a parameter.
  - The metrics query's filter (this user, fourteen days back, ascending by date) is not modelled; the fetched list is an input.
  - The newest-first sort before the streak is modelled only through its first element (the latest date).
- Metrics.GroupByWorkout: models the accumulator as a map from workout id to list. JavaScript object-key quirks (inherited keys such as `__proto__`) are not modelled.
- GET /api/workouts (a plain ordered query) is not modelled; neither are the other workout and exercise routes, the React components and pages, or the styling config.
- src/types/database.ts supplies the row shapes only. `Exercise` also carries the optional `unit` that the metrics code reads.
- `console.error` logging is not modelled.
