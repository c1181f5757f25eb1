# Fitness tracker core in Dafny

A model of the two Go packages at the heart of the fitness tracker:

- `spentcalories` parses a training record `"<steps>,<activity>,<duration>"`, for example `"3456,Ходьба,3h00m"`. It derives the distance from the height-based stride (45% of the height), the mean speed, and the calories. The calorie formula is the running one for the label `Бег` and the walking one for `Ходьба`. Any other label is an error.
- `daysteps` parses a day record `"<steps>,<duration>"`, for example `"678,0h50m"`. It measures the distance with a fixed stride of 0.65 m and takes the calories from the walking formula. Any failure gives an empty summary.

The Go library routines the parsers depend on are modelled on the standard library's implementation as of Go 1.22:

- `strings.Split` with a one-character separator;
- `strconv.Atoi` on a 64-bit platform;
- `time.ParseDuration`, including its unit table and its 64-bit overflow checks.

Files and modules:

| file | module | contents |
|---|---|---|
| `outcomes.dfy` | `Outcomes` | `Option`, `Result`, the error constructors, the `Within(stage, cause)` wrapping, and the three error kinds |
| `gotext.dfy` | `GoText` | `Split`/`Join`, decimal numerals, `Atoi` |
| `goduration.dfy` | `GoDuration` | `ParseDuration` and its steps, `Hours`, `Minutes` |
| `fields.dfy` | `Fields` | the step and duration field checks both parsers share, and record splitting |
| `spentcalories.dfy` | `SpentCalories` | `ParseTraining`, `Distance`, `MeanSpeed`, the two calorie formulas, the label table, `TrainingInfo` |
| `daysteps.dfy` | `DaySteps` | `ParsePackage`, `DayActionInfo` |

Representation choices:

- Weights, heights, distances, speeds and calories are `real`, which is float64 without rounding.
- A step count is an `int` in Go's 64-bit `int` range, enforced by `Atoi`.
- A duration is an `int` number of nanoseconds in the signed 64-bit range, enforced by `ParseDuration`.
- An error is a constructor of `Outcomes.Error`, one per error the packages create. `TrainingInfo` wraps an error with `fmt.Errorf("<stage>: %w", err)`; that becomes `Within(stage, cause)`, which keeps the cause.
- The report strings become the numbers they show. `DayActionInfo`'s empty string becomes `None`.

Two facts about the code that the error model follows:

- The activity labels are the Russian `Бег` (running) and `Ходьба` (walking).
- A step numeral outside the `int` range fails `strconv.Atoi`, and the code wraps that failure like a syntax error ("failed to extract steps"). The model therefore gives it the `StepsSyntax` constructor, whose kind is a format error.

## Model

| member | source | states |
|---|---|---|
| GoText.Split | internal/spentcalories/spentcalories.go:33 | a record splits into one more field than it has commas, and no field contains a comma |
| GoText.JoinSplit | internal/spentcalories/spentcalories.go:33 | rejoining the fields with the separator gives back the record exactly |
| GoText.SplitJoin | internal/daysteps/daysteps.go:33 | splitting a join of comma-free fields gives back those fields |
| GoText.SplitWithoutSeparator | internal/daysteps/daysteps.go:33-36 | a string without a comma is one field |
| GoText.SplitAfterField | internal/spentcalories/spentcalories.go:33-36 | a comma-free leading field splits off as the first field, and the rest splits on its own |
| GoText.Atoi | internal/spentcalories/spentcalories.go:38-41 | a successful read is within 64-bit `int`, is an optional sign followed by one or more decimal digits and nothing else, and is negative only after a `-` |
| GoText.ValueOfDigits | internal/spentcalories/spentcalories.go:38 | the decimal numeral of a number reads back as that number |
| GoText.AtoiFormatInt | internal/spentcalories/spentcalories.go:38 | reading the numeral of any 64-bit `int` gives back that integer |
| GoText.AtoiSign | internal/spentcalories/spentcalories.go:38-45 | `+` keeps and `-` negates a numeral, so `"-3"` reads as an integer and is rejected only by the positivity check |
| GoDuration.UnitNanos | internal/spentcalories/spentcalories.go:49 | a known unit is one or two characters long and lasts between 1 ns and 1 h |
| GoDuration.LeadingInt | internal/spentcalories/spentcalories.go:49 | the integer part read never passes `1<<63`, and what remains does not start with a digit |
| GoDuration.Number | internal/spentcalories/spentcalories.go:49 | a number consumes at least one character, has an integer part within `1<<63`, and a fraction scale of at least 1 |
| GoDuration.NextPair | internal/spentcalories/spentcalories.go:49 | a `<number><unit>` pair consumes input and is worth at most `1<<63` nanoseconds |
| GoDuration.Pairs | internal/spentcalories/spentcalories.go:49 | the running total of the pairs never passes `1<<63` |
| GoDuration.ParseDuration | internal/spentcalories/spentcalories.go:49-52 | a parsed duration lies in the signed 64-bit range, and the empty literal is an error |
| GoDuration.LeadingFraction | internal/spentcalories/spentcalories.go:49 | the fraction digits stop at the first non-digit, the scale is at least 1, and a fraction started below its scale stays below it (its value is less than one unit) |
| GoDuration.UnitLength | internal/spentcalories/spentcalories.go:49 | the unit ends at the end of the text or just before a digit or a `.` |
| GoDuration.PairValue | internal/spentcalories/spentcalories.go:49 | an accepted pair is worth at least its whole units and at most `1<<63` nanoseconds, and exactly the whole units when there is no fraction |
| GoDuration.LeadingIntStops | internal/spentcalories/spentcalories.go:49 | when it does not overflow, `leadingInt` stops exactly at the end of the numeral |
| GoDuration.UnknownUnit | internal/daysteps/daysteps.go:47-50 | every numeral followed by a unit outside the unit table (`"1d"`, `"5kg"`) is a duration syntax error, whatever follows |
| GoDuration.Hours | internal/spentcalories/spentcalories.go:77 | the hours are positive exactly for a positive duration, and sixty times the hours is the minutes |
| GoDuration.Minutes | internal/spentcalories/spentcalories.go:146 | the minutes are positive exactly for a positive duration |
| GoDuration.NextPairWhole | internal/daysteps/daysteps.go:47 | a whole-number pair `<digits><unit>` is worth that many units |
| GoDuration.HoursMinutes | internal/daysteps/daysteps.go:47 | any numerals `<h>h<m>m` parse to h hours plus m minutes while that fits in 63 bits |
| GoDuration.ParseHoursMinutes | internal/spentcalories/spentcalories.go:49 | the literal written from h and m parses back to h hours plus m minutes |
| GoDuration.ParseDurationSign | internal/spentcalories/spentcalories.go:49-56 | for every unsigned literal that parses, a leading `+` keeps its duration and a leading `-` negates it, so a negative literal parses and only the positivity check rejects it |
| GoDuration.ParseZero | internal/daysteps/daysteps.go:47-54 | `0`, `-0` and `+0` parse to 0, which the positivity check rejects |
| GoDuration.ParseMissingParts | internal/spentcalories/spentcalories.go:49-52 | the literals `90` (no unit), `h` (no number) and `-` (a lone sign) are syntax errors |
| GoDuration.PairsWithoutUnit | internal/spentcalories/spentcalories.go:49-52 | a numeral that ends the literal is a pair missing its unit, so the literal fails whatever total came before |
| GoDuration.NumberWithoutUnit | internal/daysteps/daysteps.go:47-50 | every bare numeral other than `0` is a duration syntax error |
| GoDuration.TrailingNumberWithoutUnit | internal/daysteps/daysteps.go:47-50 | a complete pair followed by a numeral without a unit (`1h30`) is a duration syntax error |
| GoDuration.ParseFraction | internal/spentcalories/spentcalories.go:49 | a fractional number of units, `1.5h`, is 90 minutes |
| GoDuration.ParseThreeHours | internal/spentcalories/spentcalories.go:24 | the example duration `3h00m` is three hours |
| GoDuration.ParseFiftyMinutes | internal/daysteps/daysteps.go:25-26 | the example duration `0h50m` is fifty minutes |
| Fields.StepsField | internal/spentcalories/spentcalories.go:38-45 | the step field fails only with the syntax or not-positive error, with the syntax error exactly when `Atoi` fails, and otherwise yields the positive integer `Atoi` read |
| Fields.DurationField | internal/daysteps/daysteps.go:47-54 | the duration field fails only with the syntax or not-positive error, with the syntax error exactly when `ParseDuration` fails, and otherwise yields the positive duration it read |
| Fields.SplitTwo | internal/daysteps/daysteps.go:33-36 | a day record of two comma-free fields splits into exactly those two |
| Fields.SplitThree | internal/spentcalories/spentcalories.go:33-36 | a training record of three comma-free fields splits into exactly those three |
| Fields.NumeralHasNoComma | internal/spentcalories/spentcalories.go:33-38 | a step numeral never contains the separator |
| SpentCalories.ParseTraining | internal/spentcalories/spentcalories.go:32-59 | bad format exactly when the comma count is not 2; otherwise each step and duration error exactly under its condition, in the source's order; success exactly when there are three fields, the step field reads as a positive integer and the duration field as a positive duration; on success, positive steps and duration read from fields 1 and 3, and the activity is field 2 unchanged |
| SpentCalories.ParseTrainingRecord | internal/spentcalories/spentcalories.go:32-59 | a record written from positive steps, a comma-free label and a positive duration literal parses back to exactly those values |
| SpentCalories.ParseTrainingNonPositiveSteps | internal/spentcalories/spentcalories.go:43-45 | every record whose step numeral is 0 or negative fails with the not-positive steps error, whatever follows |
| SpentCalories.ParseExampleRecord | internal/spentcalories/spentcalories.go:24-25 | `3456,<label>,3h00m` parses to 3456 steps, the label, and three hours |
| SpentCalories.MeanSpeed | internal/spentcalories/spentcalories.go:71-78 | a duration that is not positive gives speed 0; otherwise speed times hours is the distance |
| SpentCalories.Distance | internal/spentcalories/spentcalories.go:63-66 | the distance is zero exactly when the steps or the height are zero, and positive for positive steps and height |
| SpentCalories.DistancePositive | internal/spentcalories/spentcalories.go:63-66 | positive steps and height give a positive distance |
| SpentCalories.DistanceMonotone | internal/spentcalories/spentcalories.go:63-66 | for a height that is not negative, more steps never give a shorter distance |
| SpentCalories.CancelDuration | internal/spentcalories/spentcalories.go:144-146 | weight times speed times minutes over 60 is weight times distance, because minutes over 60 are hours |
| SpentCalories.RunningSpentCalories | internal/spentcalories/spentcalories.go:131-147 | an error exactly when steps, weight or duration is not positive, reported in that order; otherwise the calories are weight times distance |
| SpentCalories.RunningIgnoresHeight | internal/spentcalories/spentcalories.go:131-147 | running never checks the height: it succeeds for any height, and a negative height gives negative calories |
| SpentCalories.WalkingSpentCalories | internal/spentcalories/spentcalories.go:157-175 | an error exactly when steps, weight or height is not positive, reported in that order; otherwise 0 for a duration that is not positive, half of weight times distance for a positive one, and never negative |
| SpentCalories.WalkingIsHalfRunning | internal/spentcalories/spentcalories.go:131-175 | when both formulas accept the inputs, walking gives half the running calories |
| SpentCalories.WalkingExample | internal/spentcalories/spentcalories.go:157-175 | 1000 steps at 1.75 m over 10 minutes and 70 kg: 0.7875 km, 4.725 km/h, 27.5625 kcal |
| SpentCalories.ActivityOf | internal/spentcalories/spentcalories.go:95-107 | a label names an activity exactly when it is `Бег` or `Ходьба`, and then the activity's label is that label |
| SpentCalories.Calories | internal/spentcalories/spentcalories.go:96-105 | the chosen formula succeeds exactly when steps and weight are positive and, for running, the duration, for walking, the height; a failure is a range error wrapped in that formula's stage; running gives weight times distance; walking gives half of it for a positive duration and 0 otherwise |
| SpentCalories.LabelTable | internal/spentcalories/spentcalories.go:95-108 | the labels `Бег` and `Ходьба` name running and walking, and no other string names either |
| SpentCalories.TrainingInfo | internal/spentcalories/spentcalories.go:87-121 | a parse error is returned wrapped in the parse stage; a label outside the table is the unknown-training error; a report keeps the label, shows the parsed duration in hours (positive), the height-based distance, a speed whose product with the hours is that distance, and the chosen formula's calories |
| SpentCalories.Report | internal/spentcalories/spentcalories.go:96-120 | for a parsed training of a known activity, a report exactly when the chosen formula succeeds, otherwise that formula's error; the report keeps the label, shows the duration in hours (positive), the height-based distance, a speed whose product with the hours is that distance, and the formula's calories |
| SpentCalories.TrainingInfoSucceeds | internal/spentcalories/spentcalories.go:87-121 | a report exactly when the record parses, the label is known, the weight is positive and, for walking only, the height is positive |
| SpentCalories.TrainingInfoDispatch | internal/spentcalories/spentcalories.go:95-105 | `Бег` goes to the running formula and `Ходьба` to the walking one: a report exactly when that formula succeeds, with its calories, and otherwise its error wrapped in its stage |
| SpentCalories.TrainingInfoUnknownActivity | internal/spentcalories/spentcalories.go:106-107 | the error is of the unknown-activity kind exactly when a well-formed record carries a label outside the table |
| SpentCalories.TrainingInfoExample | internal/spentcalories/spentcalories.go:95-108 | for `3456,<label>,3h00m`, 75 kg and 1.8 m: `Бег` gives the running calories, which differ from the walking ones, and any unknown label such as `Плавание` is rejected |
| DaySteps.ParsePackage | internal/daysteps/daysteps.go:32-57 | bad format exactly when the comma count is not 1; otherwise each step and duration error exactly under its condition, in the source's order; success exactly when there are two fields, the step field reads as a positive integer and the duration field as a positive duration; on success, positive steps and duration read from fields 1 and 2 |
| DaySteps.ParsePackageRecord | internal/daysteps/daysteps.go:32-57 | a record written from positive steps and a positive duration literal parses back to exactly those values |
| DaySteps.ParseExamplePackage | internal/daysteps/daysteps.go:25-26 | `678,0h50m` parses to 678 steps over 50 minutes |
| DaySteps.DayActionInfo | internal/daysteps/daysteps.go:61-85 | a summary exactly when the record parses and weight and height are positive; it carries the parsed steps, a positive distance, and positive calories equal to the walking formula's, i.e. half of weight times the height-based distance |
| DaySteps.RepeatedStepCheckIsDead | internal/daysteps/daysteps.go:68-70 | the second step check never fires: the summary equals the one computed without it, on every input |
| DaySteps.DayDistanceIgnoresHeight | internal/daysteps/daysteps.go:72-73 | the summary distance is steps times 0.65 m in kilometres and is the same for every height |
| DaySteps.StrideAgreement | internal/daysteps/daysteps.go:72-75 | the distance shown equals the distance behind the calories exactly when 45% of the height is 0.65 m |
| DaySteps.DayMatchesWalkingTraining | internal/daysteps/daysteps.go:75 | a day record and the walking training record with the same steps and duration give the same calories |
| DaySteps.DayExample | internal/daysteps/daysteps.go:61-85 | `678,0h50m` at 75 kg and 1.75 m gives 0.4407 km and 20.0221875 kcal; a weight of 0 gives the empty summary |

## Left out

- Report formatting: the `fmt.Sprintf` templates and their two-decimal rounding are not modelled. A report is the numbers it would show.
- Logging: the `log.Printf` calls in `DayActionInfo` have no observable effect on the result and are left out.
- Error message text: each error is a constructor, not its message string.
- NaN and infinite weights and heights cannot be represented: `real` has neither. In Go a NaN weight or height passes the `<= 0` checks, so `TrainingInfo` returns a NaN report and `DayActionInfo` a non-empty summary. The model's "a result exactly when weight and height are positive" does not cover those inputs.
- Floating point: float64 arithmetic is exact `real` arithmetic, so rounding in the calorie, distance and speed formulas is not modelled.
- GoDuration.ParseDuration: Go adds the fraction of a unit through a float64 product. The model uses the exact quotient `f * unit / scale` rounded down, so a fraction whose float64 product rounds differently may differ by a nanosecond.
- GoDuration.Hours: `Duration.Hours` and `Duration.Minutes` are exact quotients here, whereas Go splits them into a whole and a float64 fractional part.
- Byte strings: Go strings are byte sequences and Dafny strings are character sequences. Every comparison the parsers make (the comma, a sign, the digits, the `.`) is on an ASCII character, which is one byte in UTF-8, so the two views agree. The unit `µs` is compared as characters.
- The constant `lenStep` of `spentcalories` is never used by its code and is not modelled.
- The `time.Duration` methods other than `Hours` and `Minutes` are not used by the core and are not modelled.
