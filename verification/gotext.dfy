/**
 The two pieces of the Go standard library the record parsers rely on for
 text: `strings.Split` with a one-character separator, and `strconv.Atoi`
 on a 64-bit platform. Go strings are byte strings; here they are `string`
 (`seq<char>`). Every comparison below looks at ASCII characters only (the
 separator, the sign, the decimal digits), which occupy one byte in UTF-8
 and never occur inside a multi-byte sequence, so the two views agree.
 */
module GoText {
  import opened Outcomes

  /** Number of occurrences of `c` in `s` (`strings.Count` for a one-character string). */
  function Count(s: string, c: char): nat
  {
    if s == [] then 0 else (if s[0] == c then 1 else 0) + Count(s[1..], c)
  }

  /** `strings.Split(s, string(sep))`: the pieces of `s` between the
      occurrences of `sep`. There is one more piece than there are separators,
      so the empty string gives one (empty) piece. */
  function Split(s: string, sep: char): (parts: seq<string>)
    ensures |parts| == Count(s, sep) + 1
    ensures forall i :: 0 <= i < |parts| ==> sep !in parts[i]
    decreases |s|
  {
    if s == [] then [[]]
    else
      var rest := Split(s[1..], sep);
      if s[0] == sep then [[]] + rest
      else [[s[0]] + rest[0]] + rest[1..]
  }

  /** `strings.Join(parts, string(sep))`, the inverse of `Split`. */
  function Join(parts: seq<string>, sep: char): string
  {
    if parts == [] then []
    else if |parts| == 1 then parts[0]
    else parts[0] + [sep] + Join(parts[1..], sep)
  }

  /** Joining the pieces again gives back the original string. */
  lemma {:induction false} JoinSplit(s: string, sep: char)
    ensures Join(Split(s, sep), sep) == s
    decreases |s|
  {
    if s != [] {
      var rest := Split(s[1..], sep);
      JoinSplit(s[1..], sep);
      if s[0] == sep {
        assert s == [sep] + s[1..];
      } else if |rest| == 1 {
        assert s == [s[0]] + s[1..];
      } else {
        assert rest == [rest[0]] + rest[1..];
        assert Join(rest, sep) == rest[0] + [sep] + Join(rest[1..], sep);
        assert s == [s[0]] + s[1..];
      }
    }
  }

  /** A string without the separator is a single piece. */
  lemma {:induction false} SplitWithoutSeparator(x: string, sep: char)
    requires sep !in x
    ensures Split(x, sep) == [x]
    decreases |x|
  {
    if x != [] {
      assert sep !in x[1..] by {
        forall i | 0 <= i < |x[1..]| ensures x[1..][i] != sep {
          assert x[1..][i] == x[i + 1];
        }
      }
      SplitWithoutSeparator(x[1..], sep);
      assert [x[0]] + x[1..] == x;
    }
  }

  /** A leading separator-free field splits off as the first piece. */
  lemma {:induction false} SplitAfterField(x: string, sep: char, y: string)
    requires sep !in x
    ensures Split(x + [sep] + y, sep) == [x] + Split(y, sep)
    decreases |x|
  {
    var s := x + [sep] + y;
    if x == [] {
      assert s[1..] == y;
    } else {
      assert s[1..] == x[1..] + [sep] + y;
      assert sep !in x[1..] by {
        forall i | 0 <= i < |x[1..]| ensures x[1..][i] != sep {
          assert x[1..][i] == x[i + 1];
        }
      }
      SplitAfterField(x[1..], sep, y);
      assert [x[0]] + x[1..] == x;
    }
  }

  /** Splitting a join of separator-free pieces gives back the pieces. */
  lemma {:induction false} SplitJoin(parts: seq<string>, sep: char)
    requires |parts| >= 1
    requires forall i :: 0 <= i < |parts| ==> sep !in parts[i]
    ensures Split(Join(parts, sep), sep) == parts
    decreases |parts|
  {
    if |parts| == 1 {
      SplitWithoutSeparator(parts[0], sep);
    } else {
      SplitJoin(parts[1..], sep);
      SplitAfterField(parts[0], sep, Join(parts[1..], sep));
      assert [parts[0]] + parts[1..] == parts;
    }
  }

  predicate IsDigit(c: char)
  {
    '0' <= c <= '9'
  }

  predicate AllDigits(s: string)
  {
    forall i :: 0 <= i < |s| ==> IsDigit(s[i])
  }

  function DigitValue(c: char): nat
    requires IsDigit(c)
  {
    c as int - '0' as int
  }

  function DigitChar(d: nat): char
    requires d < 10
  {
    ('0' as int + d) as char
  }

  /** The value of the decimal digits `ds` read left to right, starting from
      the accumulator `x` (the loop of `strconv.ParseUint`). */
  function ValueFrom(ds: string, x: nat): nat
    requires AllDigits(ds)
    decreases |ds|
  {
    if ds == [] then x else ValueFrom(ds[1..], x * 10 + DigitValue(ds[0]))
  }

  /** The shortest decimal numeral of `n`. */
  function Digits(n: nat): (ds: string)
    ensures |ds| >= 1 && AllDigits(ds)
    decreases n
  {
    if n < 10 then [DigitChar(n)] else Digits(n / 10) + [DigitChar(n % 10)]
  }

  /** `strconv.Itoa`. */
  function FormatInt(n: int): string
  {
    if n < 0 then "-" + Digits(-n) else Digits(n)
  }

  /** The range of Go's `int` on a 64-bit platform. */
  const IntMin: int := -0x8000_0000_0000_0000
  const IntMax: int := 0x7fff_ffff_ffff_ffff

  /** `strconv.Atoi` on a 64-bit platform: an optional `+` or `-`, then one or
      more decimal digits, whose value must fit in `int`. Anything else (an
      empty string, a lone sign, a space, an underscore, a second sign) is a
      syntax error and a value outside `int` a range error; both are `None`. */
  function Atoi(s: string): (r: Option<int>)
    ensures r.Some? ==> IntMin <= r.value <= IntMax
    ensures r.Some? ==> |s| >= 1 && (IsDigit(s[0]) || s[0] == '+' || s[0] == '-')
    ensures r.Some? && r.value < 0 ==> s[0] == '-'
    ensures r.Some? ==>
      var body := if s[0] == '-' || s[0] == '+' then s[1..] else s;
      |body| >= 1 && AllDigits(body)
  {
    var signed := |s| > 0 && (s[0] == '-' || s[0] == '+');
    var body := if signed then s[1..] else s;
    if body == [] || !AllDigits(body) then None
    else
      var n: int := ValueFrom(body, 0);
      var v := if signed && s[0] == '-' then -n else n;
      if IntMin <= v <= IntMax then Some(v) else None
  }

  lemma {:induction false} ValueFromAppend(ds: string, c: char, x: nat)
    requires AllDigits(ds) && IsDigit(c)
    ensures AllDigits(ds + [c])
    ensures ValueFrom(ds + [c], x) == ValueFrom(ds, x) * 10 + DigitValue(c)
    decreases |ds|
  {
    if ds != [] {
      assert (ds + [c])[1..] == ds[1..] + [c];
      ValueFromAppend(ds[1..], c, x * 10 + DigitValue(ds[0]));
    } else {
      assert ([c])[1..] == [];
    }
  }

  /** Reading back the numeral of `n` gives `n`. */
  lemma {:induction false} ValueOfDigits(n: nat)
    ensures ValueFrom(Digits(n), 0) == n
    decreases n
  {
    if n >= 10 {
      ValueOfDigits(n / 10);
      ValueFromAppend(Digits(n / 10), DigitChar(n % 10), 0);
    }
  }

  /** `strconv.Atoi` is a left inverse of `strconv.Itoa` on the whole range of `int`. */
  lemma AtoiFormatInt(n: int)
    requires IntMin <= n <= IntMax
    ensures Atoi(FormatInt(n)) == Some(n)
  {
    if n < 0 {
      ValueOfDigits(-n);
      assert FormatInt(n)[1..] == Digits(-n);
    } else {
      ValueOfDigits(n);
    }
  }

  /** A leading `-` negates an unsigned numeral and a leading `+` keeps it, so
      a negative step count such as `"-3"` reads as an integer (and is then
      rejected only by the positivity check). */
  lemma AtoiSign(ds: string)
    requires |ds| >= 1 && AllDigits(ds) && ValueFrom(ds, 0) <= IntMax
    ensures Atoi(ds) == Some(ValueFrom(ds, 0))
    ensures Atoi("+" + ds) == Some(ValueFrom(ds, 0))
    ensures Atoi("-" + ds) == Some(0 - ValueFrom(ds, 0))
  {
    assert ("+" + ds)[1..] == ds;
    assert ("-" + ds)[1..] == ds;
  }
}
