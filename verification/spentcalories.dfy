/**
 The Go package `spentcalories`: the three-field training record
 `"<steps>,<activity>,<duration>"`, the height-based distance and speed
 formulas, the running and walking calorie formulas, and the dispatch of
 `TrainingInfo` on the activity label.

 Weight and height are `real` (Go's float64 without rounding); a step count
 is an `int`; a duration is an `int` number of nanoseconds.
 */
module SpentCalories {
  import opened Outcomes
  import opened GoText
  import opened GoDuration
  import opened Fields

  const MetersInKm: real := 1000.0
  const MinutesInHour: real := 60.0
  /** The stride as a fraction of the height. */
  const StepLengthCoefficient: real := 0.45
  const WalkingCaloriesCoefficient: real := 0.5

  /** A parsed training record. */
  datatype Training = Training(steps: int, activity: string, duration: int)

  /** `parseTraining`: split on commas into exactly three fields, then the
      step field, then the duration field; the first failing check decides
      the error. The middle field is the activity, taken as it is. */
  function ParseTraining(data: string): (r: Result<Training>)
    ensures r == Err(BadDataFormat) <==> Count(data, Comma) != 2
    ensures Count(data, Comma) == 2 ==>
      var parts := Split(data, Comma);
      && (r == Err(StepsSyntax) <==> Atoi(parts[0]).None?)
      && (r == Err(StepsNotPositive) <==> Atoi(parts[0]).Some? && Atoi(parts[0]).value <= 0)
      && (r == Err(DurationSyntax) <==>
            Atoi(parts[0]).Some? && Atoi(parts[0]).value > 0 && ParseDuration(parts[2]).None?)
      && (r == Err(DurationNotPositive) <==>
            Atoi(parts[0]).Some? && Atoi(parts[0]).value > 0
            && ParseDuration(parts[2]).Some? && ParseDuration(parts[2]).value <= 0)
    ensures r.Ok? <==>
      var parts := Split(data, Comma);
      && Count(data, Comma) == 2
      && Atoi(parts[0]).Some? && Atoi(parts[0]).value > 0
      && ParseDuration(parts[2]).Some? && ParseDuration(parts[2]).value > 0
    ensures r.Ok? ==>
      var parts := Split(data, Comma);
      && Count(data, Comma) == 2
      && r.value.steps > 0 && r.value.duration > 0
      && Atoi(parts[0]) == Some(r.value.steps)
      && r.value.activity == parts[1]
      && ParseDuration(parts[2]) == Some(r.value.duration)
  {
    var parts := Split(data, Comma);
    if |parts| != 3 then Err(BadDataFormat)
    else
      match StepsField(parts[0])
      case Err(e) => Err(e)
      case Ok(steps) =>
        var activity := parts[1];
        match DurationField(parts[2])
        case Err(e) => Err(e)
        case Ok(d) => Ok(Training(steps, activity, d))
  }

  /** `distance`: steps times a stride of 45% of the height, in kilometres. */
  function Distance(steps: int, height: real): (d: real)
    ensures d == 0.0 <==> steps == 0 || height == 0.0
    ensures steps > 0 && height > 0.0 ==> d > 0.0
  {
    steps as real * (height * StepLengthCoefficient) / MetersInKm
  }

  /** `meanSpeed`: distance per hour, and 0 for a duration that is not
      positive whatever the steps and height. */
  function MeanSpeed(steps: int, height: real, duration: int): (v: real)
    ensures duration <= 0 ==> v == 0.0
    ensures duration > 0 ==> v * Hours(duration) == Distance(steps, height)
  {
    if duration <= 0 then 0.0 else Distance(steps, height) / Hours(duration)
  }

  /** `RunningSpentCalories`: weight times mean speed times hours. It checks
      steps, weight and duration, in that order, and never the height. In
      exact arithmetic the duration cancels and the result is weight times
      distance. */
  function RunningSpentCalories(steps: int, weight: real, height: real, duration: int): (r: Result<real>)
    ensures r.Err? <==> steps <= 0 || weight <= 0.0 || duration <= 0
    ensures steps <= 0 ==> r == Err(StepsNotPositive)
    ensures steps > 0 && weight <= 0.0 ==> r == Err(WeightNotPositive)
    ensures steps > 0 && weight > 0.0 && duration <= 0 ==> r == Err(DurationNotPositive)
    ensures r.Ok? ==> r.value == weight * Distance(steps, height)
  {
    if steps <= 0 then Err(StepsNotPositive)
    else if weight <= 0.0 then Err(WeightNotPositive)
    else if duration <= 0 then Err(DurationNotPositive)
    else
      var ms := MeanSpeed(steps, height, duration);
      CancelDuration(weight, ms, duration, Distance(steps, height));
      Ok((weight * ms * Minutes(duration)) / MinutesInHour)
  }

  /** `WalkingSpentCalories`: half of weight times mean speed times hours. It
      checks steps, weight and height, in that order, and never the
      duration: a duration that is not positive gives 0 calories. */
  function WalkingSpentCalories(steps: int, weight: real, height: real, duration: int): (r: Result<real>)
    ensures r.Err? <==> steps <= 0 || weight <= 0.0 || height <= 0.0
    ensures steps <= 0 ==> r == Err(StepsNotPositive)
    ensures steps > 0 && weight <= 0.0 ==> r == Err(WeightNotPositive)
    ensures steps > 0 && weight > 0.0 && height <= 0.0 ==> r == Err(HeightNotPositive)
    ensures r.Ok? && duration <= 0 ==> r.value == 0.0
    ensures r.Ok? && duration > 0 ==> r.value == 0.5 * weight * Distance(steps, height)
    ensures r.Ok? ==> r.value >= 0.0
  {
    if steps <= 0 then Err(StepsNotPositive)
    else if weight <= 0.0 then Err(WeightNotPositive)
    else if height <= 0.0 then Err(HeightNotPositive)
    else
      var ms := MeanSpeed(steps, height, duration);
      var calories := weight * ms * Minutes(duration);
      var caloriesSpent := calories / MinutesInHour;
      if duration > 0 then
        CancelDuration(weight, ms, duration, Distance(steps, height));
        DistancePositive(steps, height);
        Ok(caloriesSpent * WalkingCaloriesCoefficient)
      else
        Ok(caloriesSpent * WalkingCaloriesCoefficient)
  }

  /** Minutes over sixty are hours, so speed times minutes over sixty is the distance. */
  lemma CancelDuration(weight: real, speed: real, duration: int, dist: real)
    requires duration > 0 && speed * Hours(duration) == dist
    ensures (weight * speed * Minutes(duration)) / MinutesInHour == weight * dist
  {
    assert Minutes(duration) / MinutesInHour == Hours(duration);
    calc {
      (weight * speed * Minutes(duration)) / MinutesInHour;
      weight * speed * (Minutes(duration) / MinutesInHour);
      weight * (speed * Hours(duration));
    }
  }

  lemma DistancePositive(steps: int, height: real)
    requires steps > 0 && height > 0.0
    ensures Distance(steps, height) > 0.0
  {
    assert height * StepLengthCoefficient > 0.0;
    assert steps as real * (height * StepLengthCoefficient) > 0.0;
  }

  /** The distance never decreases as the steps grow, for a height that is
      not negative. */
  lemma DistanceMonotone(steps: int, more: int, height: real)
    requires steps <= more && height >= 0.0
    ensures Distance(steps, height) <= Distance(more, height)
  {
    var stride := height * StepLengthCoefficient;
    assert stride >= 0.0;
    assert (more as real - steps as real) * stride >= 0.0;
    assert more as real * stride - steps as real * stride == (more as real - steps as real) * stride;
  }

  /** When both calorie functions accept the same inputs, walking burns
      exactly half of what running does. */
  lemma WalkingIsHalfRunning(steps: int, weight: real, height: real, duration: int)
    requires RunningSpentCalories(steps, weight, height, duration).Ok?
    requires WalkingSpentCalories(steps, weight, height, duration).Ok?
    ensures WalkingSpentCalories(steps, weight, height, duration).value
         == WalkingCaloriesCoefficient * RunningSpentCalories(steps, weight, height, duration).value
  {
  }

  /** The running formula accepts any height, including one that is not
      positive; a negative height then gives negative calories. */
  lemma RunningIgnoresHeight(steps: int, weight: real, duration: int, height: real)
    requires steps > 0 && weight > 0.0 && duration > 0
    ensures RunningSpentCalories(steps, weight, height, duration).Ok?
    ensures height < 0.0 ==> RunningSpentCalories(steps, weight, height, duration).value < 0.0
  {
    if height < 0.0 {
      var stride := height * StepLengthCoefficient;
      assert stride < 0.0;
      assert steps as real * stride < 0.0;
      assert Distance(steps, height) < 0.0;
      assert weight * Distance(steps, height) < 0.0;
    }
  }

  /** 1000 steps at 1.75 m over ten minutes, for 70 kg: 0.7875 km at
      4.725 km/h, 27.5625 kcal walking. */
  lemma WalkingExample()
    ensures Distance(1000, 1.75) == 0.7875
    ensures MeanSpeed(1000, 1.75, 10 * Minute) == 4.725
    ensures WalkingSpentCalories(1000, 70.0, 1.75, 10 * Minute) == Ok(27.5625)
  {
    assert Hours(10 * Minute) == 1.0 / 6.0;
  }

  /** The activity kinds `TrainingInfo` knows. */
  datatype Activity = Running | Walking

  /** The label table: the one place an activity kind meets its label. */
  function Label(a: Activity): string
  {
    match a
    case Running => "Бег"
    case Walking => "Ходьба"
  }

  /** The `switch` of `TrainingInfo`: the activity a label names, if any. */
  function ActivityOf(name: string): (r: Option<Activity>)
    ensures r.Some? <==> name == "Бег" || name == "Ходьба"
    ensures r.Some? ==> Label(r.value) == name
  {
    if name == "Бег" then Some(Running)
    else if name == "Ходьба" then Some(Walking)
    else None
  }

  /** The label table is a bijection between the kinds and the two labels:
      a kind's label names it, and a label that names a kind is its label. */
  lemma LabelTable(name: string, a: Activity)
    ensures ActivityOf(Label(a)) == Some(a)
    ensures ActivityOf(name) == Some(a) <==> name == Label(a)
  {
    assert "Бег" != "Ходьба" by {
      assert |"Бег"| != |"Ходьба"|;
    }
  }

  /** The numbers the report of `TrainingInfo` shows. */
  datatype TrainingReport = TrainingReport(activity: string, hours: real, distance: real, speed: real, calories: real)

  /** The calorie formula of an activity, with the stage name its errors are
      wrapped in. */
  function Calories(a: Activity, steps: int, weight: real, height: real, duration: int): (r: Result<real>)
    ensures r.Ok? <==>
      steps > 0 && weight > 0.0 && (a == Running ==> duration > 0) && (a == Walking ==> height > 0.0)
    ensures r.Err? ==>
      && r.error.Within?
      && r.error.stage == (if a == Running then RunningStage else WalkingStage)
      && KindOf(r.error) == RangeError
    ensures r.Ok? && a == Running ==> r.value == weight * Distance(steps, height)
    ensures r.Ok? && a == Walking && duration > 0 ==>
      r.value == WalkingCaloriesCoefficient * weight * Distance(steps, height)
    ensures r.Ok? && a == Walking && duration <= 0 ==> r.value == 0.0
  {
    var (stage, result) := match a
      case Running => (RunningStage, RunningSpentCalories(steps, weight, height, duration))
      case Walking => (WalkingStage, WalkingSpentCalories(steps, weight, height, duration));
    match result
    case Err(e) => Err(Within(stage, e))
    case Ok(c) => Ok(c)
  }

  /** `TrainingInfo`: parse the record, pass on a parse error wrapped as a
      parse-stage error, reject an unknown label, and otherwise report the
      chosen activity's calories with the distance and speed. */
  function TrainingInfo(data: string, weight: real, height: real): (r: Result<TrainingReport>)
    ensures ParseTraining(data).Err? ==> r == Err(Within(ParseTrainingStage, ParseTraining(data).error))
    ensures ParseTraining(data).Ok? && ActivityOf(ParseTraining(data).value.activity).None? ==>
      r == Err(UnknownTraining)
    ensures r.Ok? ==> ParseTraining(data).Ok? && ActivityOf(ParseTraining(data).value.activity).Some?
    ensures r.Ok? ==>
      var t := ParseTraining(data).value;
      && r.value.activity == t.activity
      && r.value.hours == Hours(t.duration)
      && r.value.hours > 0.0
    ensures r.Ok? ==>
      var t := ParseTraining(data).value;
      && r.value.distance == Distance(t.steps, height)
      && r.value.speed * r.value.hours == r.value.distance
    ensures r.Ok? ==>
      var t := ParseTraining(data).value;
      var c := Calories(ActivityOf(t.activity).value, t.steps, weight, height, t.duration);
      c.Ok? && r.value.calories == c.value
  {
    match ParseTraining(data)
    case Err(e) => Err(Within(ParseTrainingStage, e))
    case Ok(t) =>
      match ActivityOf(t.activity)
      case None => Err(UnknownTraining)
      case Some(a) => Report(t, a, weight, height)
  }

  /** The report of a parsed training of a known activity: the chosen
      formula's error, or the numbers `TrainingInfo` formats. */
  function Report(t: Training, a: Activity, weight: real, height: real): (r: Result<TrainingReport>)
    requires t.duration > 0
    ensures r.Ok? <==> Calories(a, t.steps, weight, height, t.duration).Ok?
    ensures r.Err? ==> r.error == Calories(a, t.steps, weight, height, t.duration).error
    ensures r.Ok? ==>
      && r.value.activity == t.activity
      && r.value.hours == Hours(t.duration)
      && r.value.hours > 0.0
      && r.value.distance == Distance(t.steps, height)
      && r.value.speed * r.value.hours == r.value.distance
      && r.value.calories == Calories(a, t.steps, weight, height, t.duration).value
  {
    match Calories(a, t.steps, weight, height, t.duration)
    case Err(e) => Err(e)
    case Ok(c) =>
      Ok(TrainingReport(t.activity, Hours(t.duration), Distance(t.steps, height),
                        MeanSpeed(t.steps, height, t.duration), c))
  }

  /** `TrainingInfo` succeeds exactly when the record parses, its label is
      known, the weight is positive and, for walking only, the height is
      positive. */
  lemma TrainingInfoSucceeds(data: string, weight: real, height: real)
    ensures TrainingInfo(data, weight, height).Ok? <==>
      && ParseTraining(data).Ok?
      && ActivityOf(ParseTraining(data).value.activity).Some?
      && weight > 0.0
      && (ActivityOf(ParseTraining(data).value.activity) == Some(Walking) ==> height > 0.0)
  {
  }

  /** The label `"Бег"` goes to the running formula and `"Ходьба"` to the
      walking one: the result succeeds when that formula does, reports its
      calories, and otherwise carries its error under that formula's stage. */
  lemma TrainingInfoDispatch(data: string, weight: real, height: real)
    requires ParseTraining(data).Ok?
    ensures var t := ParseTraining(data).value;
      var r := TrainingInfo(data, weight, height);
      t.activity == "Бег" ==>
        var c := RunningSpentCalories(t.steps, weight, height, t.duration);
        && (r.Ok? <==> c.Ok?)
        && (r.Ok? ==> r.value.calories == c.value)
        && (r.Err? ==> r.error == Within(RunningStage, c.error))
    ensures var t := ParseTraining(data).value;
      var r := TrainingInfo(data, weight, height);
      t.activity == "Ходьба" ==>
        var c := WalkingSpentCalories(t.steps, weight, height, t.duration);
        && (r.Ok? <==> c.Ok?)
        && (r.Ok? ==> r.value.calories == c.value)
        && (r.Err? ==> r.error == Within(WalkingStage, c.error))
  {
  }

  /** The error kinds of `TrainingInfo`: an unknown activity exactly when a
      well-formed record carries a label outside the table. */
  lemma TrainingInfoUnknownActivity(data: string, weight: real, height: real)
    ensures TrainingInfo(data, weight, height).Err? &&
            KindOf(TrainingInfo(data, weight, height).error) == UnknownActivityError
        <==> ParseTraining(data).Ok? && ActivityOf(ParseTraining(data).value.activity).None?
  {
    var r := TrainingInfo(data, weight, height);
    match ParseTraining(data)
    case Err(e) =>
      assert KindOf(e) != UnknownActivityError;
    case Ok(t) =>
      match ActivityOf(t.activity)
      case None =>
      case Some(a) =>
        if r.Err? {
          assert r.error.Within? && KindOf(r.error.cause) == RangeError;
        }
  }

  /** A record written from a positive step count, a comma-free label and a
      comma-free positive duration literal parses back to exactly those. */
  lemma ParseTrainingRecord(steps: int, activity: string, literal: string)
    requires 0 < steps <= IntMax
    requires Comma !in activity && Comma !in literal
    requires ParseDuration(literal).Some? && ParseDuration(literal).value > 0
    ensures ParseTraining(FormatInt(steps) + [Comma] + activity + [Comma] + literal)
         == Ok(Training(steps, activity, ParseDuration(literal).value))
  {
    NumeralHasNoComma(steps);
    SplitThree(FormatInt(steps), activity, literal);
    AtoiFormatInt(steps);
  }

  /** Every record with a step count that is not positive fails at the step
      check, whatever follows it, as `"-3"` and `"0"` do. */
  lemma ParseTrainingNonPositiveSteps(steps: int, activity: string, literal: string)
    requires IntMin <= steps <= 0
    requires Comma !in activity && Comma !in literal
    ensures ParseTraining(FormatInt(steps) + [Comma] + activity + [Comma] + literal) == Err(StepsNotPositive)
  {
    NumeralHasNoComma(steps);
    SplitThree(FormatInt(steps), activity, literal);
    AtoiFormatInt(steps);
  }

  lemma Numeral3456()
    ensures FormatInt(3456) == "3456"
  {
    assert Digits(3) == "3";
    assert Digits(34) == Digits(3) + "4";
    assert Digits(345) == Digits(34) + "5";
    assert Digits(3456) == Digits(345) + "6";
  }

  /** The example record `3456,<activity>,3h00m` parses into its three
      fields for every comma-free activity label. */
  lemma ParseExampleRecord(activity: string)
    requires Comma !in activity
    ensures ParseTraining("3456" + [Comma] + activity + [Comma] + "3h00m")
         == Ok(Training(3456, activity, 3 * Hour))
  {
    ParseThreeHours();
    Numeral3456();
    ParseTrainingRecord(3456, activity, "3h00m");
  }

  /** For the example record with 75 kg and 1.8 m: the label `"Бег"` goes to
      the running formula, not the walking one, and any label outside the
      table (such as `"Плавание"`) is rejected after a successful parse. */
  lemma TrainingInfoExample(activity: string)
    requires Comma !in activity
    ensures var r := TrainingInfo("3456" + [Comma] + activity + [Comma] + "3h00m", 75.0, 1.8);
      activity == "Бег" ==>
        && r.Ok?
        && r.value.calories == 75.0 * Distance(3456, 1.8)
        && r.value.calories != WalkingSpentCalories(3456, 75.0, 1.8, 3 * Hour).value
    ensures var r := TrainingInfo("3456" + [Comma] + activity + [Comma] + "3h00m", 75.0, 1.8);
      ActivityOf(activity).None? ==> r == Err(UnknownTraining)
  {
    var data := "3456" + [Comma] + activity + [Comma] + "3h00m";
    ParseExampleRecord(activity);
    TrainingInfoDispatch(data, 75.0, 1.8);
    DistancePositive(3456, 1.8);
  }
}
