/**
 The field checks both record parsers run, in the same order: the step
 count must read as an integer and be positive, the duration must read as a
 duration literal and be positive.
 */
module Fields {
  import opened Outcomes
  import opened GoText
  import opened GoDuration

  /** The record separator. */
  const Comma: char := ','

  /** The step-count field: `strconv.Atoi`, then the positivity check. */
  function StepsField(field: string): (r: Result<int>)
    ensures r.Err? ==> r.error == StepsSyntax || r.error == StepsNotPositive
    ensures r == Err(StepsSyntax) <==> Atoi(field).None?
    ensures r.Ok? ==> r.value > 0 && Atoi(field) == Some(r.value)
  {
    match Atoi(field)
    case None => Err(StepsSyntax)
    case Some(n) => if n <= 0 then Err(StepsNotPositive) else Ok(n)
  }

  /** The duration field: `time.ParseDuration`, then the positivity check. */
  function DurationField(field: string): (r: Result<int>)
    ensures r.Err? ==> r.error == DurationSyntax || r.error == DurationNotPositive
    ensures r == Err(DurationSyntax) <==> ParseDuration(field).None?
    ensures r.Ok? ==> r.value > 0 && ParseDuration(field) == Some(r.value)
  {
    match ParseDuration(field)
    case None => Err(DurationSyntax)
    case Some(d) => if d <= 0 then Err(DurationNotPositive) else Ok(d)
  }

  /** A two-field record whose fields hold no comma splits back into them. */
  lemma SplitTwo(a: string, b: string)
    requires Comma !in a && Comma !in b
    ensures Split(a + [Comma] + b, Comma) == [a, b]
  {
    SplitAfterField(a, Comma, b);
    SplitWithoutSeparator(b, Comma);
  }

  /** A three-field record whose fields hold no comma splits back into them. */
  lemma SplitThree(a: string, b: string, c: string)
    requires Comma !in a && Comma !in b && Comma !in c
    ensures Split(a + [Comma] + b + [Comma] + c, Comma) == [a, b, c]
  {
    assert a + [Comma] + b + [Comma] + c == a + [Comma] + (b + [Comma] + c);
    SplitAfterField(a, Comma, b + [Comma] + c);
    SplitTwo(b, c);
  }

  /** A numeral holds no comma. */
  lemma NumeralHasNoComma(n: int)
    ensures Comma !in FormatInt(n)
  {
    if n < 0 {
      var ds := Digits(-n);
      assert FormatInt(n) == "-" + ds;
      assert forall i :: 0 <= i < |ds| ==> ds[i] != Comma by {
        forall i | 0 <= i < |ds| ensures ds[i] != Comma {
          assert IsDigit(ds[i]);
        }
      }
    } else {
      var ds := Digits(n);
      assert forall i :: 0 <= i < |ds| ==> ds[i] != Comma by {
        forall i | 0 <= i < |ds| ensures ds[i] != Comma {
          assert IsDigit(ds[i]);
        }
      }
    }
  }
}
