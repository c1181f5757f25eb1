/**
 The Go package `daysteps`: the two-field day record
 `"<steps>,<duration>"` and the day summary, which measures the distance
 with a fixed stride of 0.65 m and takes the calories from the walking
 formula of `spentcalories`.

 The summary is a formatted string in Go, and the empty string whenever
 anything fails; here it is `None` for the empty string and otherwise the
 three numbers the string shows.
 */
module DaySteps {
  import opened Outcomes
  import opened GoText
  import opened GoDuration
  import opened Fields
  import opened SpentCalories

  /** The fixed stride, in metres, whatever the height. */
  const StepLength: real := 0.65

  /** A parsed day record. */
  datatype Package = Package(steps: int, duration: int)

  /** `parsePackage`: split on commas into exactly two fields, then the step
      field, then the duration field; the first failing check decides the
      error. */
  function ParsePackage(data: string): (r: Result<Package>)
    ensures r == Err(BadDataFormat) <==> Count(data, Comma) != 1
    ensures Count(data, Comma) == 1 ==>
      var parts := Split(data, Comma);
      && (r == Err(StepsSyntax) <==> Atoi(parts[0]).None?)
      && (r == Err(StepsNotPositive) <==> Atoi(parts[0]).Some? && Atoi(parts[0]).value <= 0)
      && (r == Err(DurationSyntax) <==>
            Atoi(parts[0]).Some? && Atoi(parts[0]).value > 0 && ParseDuration(parts[1]).None?)
      && (r == Err(DurationNotPositive) <==>
            Atoi(parts[0]).Some? && Atoi(parts[0]).value > 0
            && ParseDuration(parts[1]).Some? && ParseDuration(parts[1]).value <= 0)
    ensures r.Ok? <==>
      var parts := Split(data, Comma);
      && Count(data, Comma) == 1
      && Atoi(parts[0]).Some? && Atoi(parts[0]).value > 0
      && ParseDuration(parts[1]).Some? && ParseDuration(parts[1]).value > 0
    ensures r.Ok? ==>
      var parts := Split(data, Comma);
      && Count(data, Comma) == 1
      && r.value.steps > 0 && r.value.duration > 0
      && Atoi(parts[0]) == Some(r.value.steps)
      && ParseDuration(parts[1]) == Some(r.value.duration)
  {
    var parts := Split(data, Comma);
    if |parts| != 2 then Err(BadDataFormat)
    else
      match StepsField(parts[0])
      case Err(e) => Err(e)
      case Ok(steps) =>
        match DurationField(parts[1])
        case Err(e) => Err(e)
        case Ok(d) => Ok(Package(steps, d))
  }

  /** The numbers of the day summary. */
  datatype DayReport = DayReport(steps: int, distance: real, calories: real)

  /** `DayActionInfo`: parse the record, measure the distance with the fixed
      stride and ask the walking formula for the calories. Any failure, of the
      parse or of the formula, gives the empty summary (`None`). The second
      step check repeats one the parse has already made. */
  function DayActionInfo(data: string, weight: real, height: real): (r: Option<DayReport>)
    ensures r.Some? <==> ParsePackage(data).Ok? && weight > 0.0 && height > 0.0
    ensures r.Some? ==>
      var p := ParsePackage(data).value;
      && r.value.steps == p.steps
      && r.value.distance > 0.0
      && r.value.calories > 0.0
      && r.value.calories == WalkingSpentCalories(p.steps, weight, height, p.duration).value
      && r.value.calories == WalkingCaloriesCoefficient * weight * Distance(p.steps, height)
  {
    match ParsePackage(data)
    case Err(_) => None
    case Ok(p) =>
      if p.steps <= 0 then None
      else
        var meters := p.steps as real * StepLength;
        var kilometers := meters / MetersInKm;
        match WalkingSpentCalories(p.steps, weight, height, p.duration)
        case Err(_) => None
        case Ok(calories) =>
          DistancePositive(p.steps, height);
          Some(DayReport(p.steps, kilometers, calories))
  }

  /** The summary without the repeated step check, as a reference: the check
      never fires, so the two agree on every input. */
  function DayActionInfoWithoutGuard(data: string, weight: real, height: real): Option<DayReport>
  {
    match ParsePackage(data)
    case Err(_) => None
    case Ok(p) =>
      match WalkingSpentCalories(p.steps, weight, height, p.duration)
      case Err(_) => None
      case Ok(calories) => Some(DayReport(p.steps, p.steps as real * StepLength / MetersInKm, calories))
  }

  lemma RepeatedStepCheckIsDead(data: string, weight: real, height: real)
    ensures DayActionInfo(data, weight, height) == DayActionInfoWithoutGuard(data, weight, height)
  {
  }

  /** The day distance is the step count times the fixed stride: it grows
      with the steps and does not depend on the height. */
  lemma DayDistanceIgnoresHeight(data: string, weight: real, height: real, other: real)
    requires DayActionInfo(data, weight, height).Some?
    requires DayActionInfo(data, weight, other).Some?
    ensures DayActionInfo(data, weight, height).value.distance
         == DayActionInfo(data, weight, other).value.distance
    ensures DayActionInfo(data, weight, height).value.distance * MetersInKm
         == DayActionInfo(data, weight, height).value.steps as real * StepLength
  {
  }

  /** The two packages measure the same day differently: the distance shown
      matches the distance the calories are computed from exactly when 45% of
      the height is the fixed stride. */
  lemma StrideAgreement(data: string, weight: real, height: real)
    requires DayActionInfo(data, weight, height).Some?
    ensures var r := DayActionInfo(data, weight, height).value;
      r.distance == Distance(r.steps, height) <==> height * StepLengthCoefficient == StepLength
  {
    var r := DayActionInfo(data, weight, height).value;
    DayDistanceIgnoresHeight(data, weight, height, height);
    StrideScale(r.steps, r.distance, height);
  }

  /** A distance of `steps` fixed strides equals the height-based distance
      exactly when the two strides are equal. */
  lemma StrideScale(steps: int, distance: real, height: real)
    requires steps > 0 && distance * MetersInKm == steps as real * StepLength
    ensures distance == Distance(steps, height) <==> height * StepLengthCoefficient == StepLength
  {
    assert distance == steps as real * StepLength / MetersInKm;
    ScaledEqual(steps as real, StepLength, height * StepLengthCoefficient);
  }

  /** Scaling two lengths by the same positive count keeps them equal or
      different. */
  lemma ScaledEqual(n: real, a: real, b: real)
    requires n > 0.0
    ensures n * a / MetersInKm == n * b / MetersInKm <==> a == b
  {
    if n * a / MetersInKm == n * b / MetersInKm {
      assert n * (a - b) == 0.0;
    }
  }

  /** The walking label holds no comma. */
  lemma WalkingLabelHasNoComma()
    ensures Comma !in Label(Walking)
  {
  }

  /** A record written from a positive step count and a comma-free positive
      duration literal parses back to exactly those. */
  lemma ParsePackageRecord(steps: int, literal: string)
    requires 0 < steps <= IntMax
    requires Comma !in literal
    requires ParseDuration(literal).Some? && ParseDuration(literal).value > 0
    ensures ParsePackage(FormatInt(steps) + [Comma] + literal)
         == Ok(Package(steps, ParseDuration(literal).value))
  {
    NumeralHasNoComma(steps);
    SplitTwo(FormatInt(steps), literal);
    AtoiFormatInt(steps);
  }

  /** A day record and the walking training record with the same steps and
      duration burn the same calories. */
  lemma DayMatchesWalkingTraining(steps: int, literal: string, weight: real, height: real)
    requires 0 < steps <= IntMax
    requires Comma !in literal
    requires ParseDuration(literal).Some? && ParseDuration(literal).value > 0
    requires weight > 0.0 && height > 0.0
    ensures var day := DayActionInfo(FormatInt(steps) + [Comma] + literal, weight, height);
      var training := TrainingInfo(FormatInt(steps) + [Comma] + Label(Walking) + [Comma] + literal, weight, height);
      && day.Some? && training.Ok?
      && day.value.calories == training.value.calories
  {
    ParsePackageRecord(steps, literal);
    WalkingLabelHasNoComma();
    ParseTrainingRecord(steps, Label(Walking), literal);
    LabelTable(Label(Walking), Walking);
  }

  lemma Numeral678()
    ensures FormatInt(678) == "678"
  {
    assert Digits(6) == "6";
    assert Digits(67) == Digits(6) + "7";
    assert Digits(678) == Digits(67) + "8";
  }

  /** The duration of the example day record `678,0h50m`. */
  const ExampleDuration: string := "0h50m"

  /** The day record `678,0h50m` parses into 678 steps over 50 minutes. */
  lemma ParseExamplePackage()
    ensures ParsePackage("678" + [Comma] + ExampleDuration) == Ok(Package(678, 50 * Minute))
  {
    ParseFiftyMinutes();
    Numeral678();
    ParsePackageRecord(678, ExampleDuration);
  }

  /** For `678,0h50m`, 75 kg and 1.75 m: 0.4407 km and 20.0221875 kcal. */
  lemma DayExample()
    ensures DayActionInfo("678" + [Comma] + ExampleDuration, 75.0, 1.75) == Some(DayReport(678, 0.4407, 20.0221875))
    ensures DayActionInfo("678" + [Comma] + ExampleDuration, 0.0, 1.75).None?
  {
    ParseExamplePackage();
  }
}
