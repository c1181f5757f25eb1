/**
 The value types every other module returns: an optional value, and a
 value-or-error result whose errors mirror the errors the Go packages
 `spentcalories` and `daysteps` create.
 */
module Outcomes {

  /** A value that may be missing; used for the Go `(value, error)` pairs whose
      error carries no information the model needs. */
  datatype Option<+T> = None | Some(value: T)

  /** The stage name that `TrainingInfo` prefixes to an error it passes on
      (`fmt.Errorf("<stage>: %w", err)`). */
  datatype Stage = ParseTrainingStage | RunningStage | WalkingStage

  /** One constructor per error the two packages create, plus the wrapping
      that keeps the original error as the cause. */
  datatype Error =
    | BadDataFormat          // the record does not split into the expected number of fields
    | StepsSyntax            // the step field is not an integer
    | StepsNotPositive       // a step count <= 0
    | DurationSyntax         // the duration field is not a duration literal
    | DurationNotPositive    // a duration <= 0
    | WeightNotPositive      // a weight <= 0
    | HeightNotPositive      // a height <= 0
    | UnknownTraining        // an activity label outside the label table
    | Within(stage: Stage, cause: Error)

  /** The three kinds the errors fall into: malformed text, a value out of
      range, and an unsupported activity. */
  datatype Kind = FormatError | RangeError | UnknownActivityError

  /** The kind of an error; a wrapped error has the kind of its cause. */
  function KindOf(e: Error): Kind
  {
    match e
    case BadDataFormat => FormatError
    case StepsSyntax => FormatError
    case DurationSyntax => FormatError
    case StepsNotPositive => RangeError
    case DurationNotPositive => RangeError
    case WeightNotPositive => RangeError
    case HeightNotPositive => RangeError
    case UnknownTraining => UnknownActivityError
    case Within(_, cause) => KindOf(cause)
  }

  /** A value, or the error that prevented computing it. */
  datatype Result<+T> = Ok(value: T) | Err(error: Error)
}
