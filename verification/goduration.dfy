/**
 `time.Duration` and `time.ParseDuration` from the Go standard library, as
 far as the record parsers use them. A duration is a signed 64-bit count of
 nanoseconds, modelled as an `int` that `ParseDuration` keeps in that range.

 The parser follows Go's algorithm step by step: an optional sign, the
 special literal `0`, then one or more `<number><unit>` pairs where the
 number is decimal digits with an optional fraction and the unit is the
 longest following run of characters that are neither digits nor `.`. The
 overflow tests are Go's, including the unsigned 64-bit wrap-around of the
 running total. The one deviation: Go scales a fraction with a float64
 product; here it is the exact quotient `f * unit / scale`, rounded down.
 */
module GoDuration {
  import opened Outcomes
  import opened GoText

  const Nanosecond: nat := 1
  const Microsecond: nat := 1000
  const Millisecond: nat := 1_000_000
  const Second: nat := 1_000_000_000
  const Minute: nat := 60_000_000_000
  const Hour: nat := 3_600_000_000_000

  /** `1<<63`, the bound Go's parser keeps its unsigned magnitudes under. */
  const Bound: nat := 0x8000_0000_0000_0000
  /** Unsigned 64-bit arithmetic wraps modulo `1<<64`. */
  const Uint64Modulus: nat := 0x1_0000_0000_0000_0000

  /** The unit table (`unitMap`): the length of one unit in nanoseconds. */
  function UnitNanos(u: string): (r: Option<nat>)
    ensures r.Some? ==> 1 <= r.value <= Hour
    ensures r.Some? ==> 1 <= |u| <= 2
  {
    if u == "ns" then Some(Nanosecond)
    else if u == "us" || u == "µs" || u == "μs" then Some(Microsecond)
    else if u == "ms" then Some(Millisecond)
    else if u == "s" then Some(Second)
    else if u == "m" then Some(Minute)
    else if u == "h" then Some(Hour)
    else None
  }

  /** `leadingInt`: the digits at the front of `s` read onto the accumulator
      `x`, with the rest of `s`; `None` when the value passes `1<<63`. */
  function LeadingInt(s: string, x: nat): (r: Option<(nat, string)>)
    requires x <= Bound
    ensures r.Some? ==> r.value.0 <= Bound && |r.value.1| <= |s|
    ensures r.Some? ==> r.value.1 == [] || !IsDigit(r.value.1[0])
    decreases |s|
  {
    if s == [] || !IsDigit(s[0]) then Some((x, s))
    else if x > Bound / 10 then None
    else
      var y := x * 10 + DigitValue(s[0]);
      if y > Bound then None else LeadingInt(s[1..], y)
  }

  /** `leadingFraction`: the digits after a decimal point, read onto `x` while
      they fit, with `scale` the power of ten they were read at. Digits past
      the point of overflow are consumed and ignored. */
  function LeadingFraction(s: string, x: nat, scale: nat, overflow: bool): (r: (nat, nat, string))
    requires scale >= 1
    ensures r.1 >= 1 && |r.2| <= |s|
    ensures r.2 == [] || !IsDigit(r.2[0])
    ensures x < scale ==> r.0 < r.1
    decreases |s|
  {
    if s == [] || !IsDigit(s[0]) then (x, scale, s)
    else if overflow || x > (Bound - 1) / 10 then LeadingFraction(s[1..], x, scale, true)
    else
      var y := x * 10 + DigitValue(s[0]);
      if y > Bound then LeadingFraction(s[1..], x, scale, true)
      else LeadingFraction(s[1..], y, scale * 10, false)
  }

  /** The length of the unit at the front of `s`: the characters before the
      next digit or `.`. */
  function UnitLength(s: string): (n: nat)
    ensures n <= |s|
    ensures n < |s| ==> s[n] == '.' || IsDigit(s[n])
  {
    if s == [] || s[0] == '.' || IsDigit(s[0]) then 0 else 1 + UnitLength(s[1..])
  }

  /** The number at the front of `s`: its integer part `v`, its fraction
      digits `f` read at power of ten `scale`, and the rest of `s`; `None` when
      there is no digit on either side of the point or the integer part
      passes `1<<63`. */
  function Number(s: string): (r: Option<(nat, nat, nat, string)>)
    ensures r.Some? ==> r.value.0 <= Bound && r.value.2 >= 1 && |r.value.3| < |s|
  {
    match LeadingInt(s, 0)
    case None => None
    case Some((v, s1)) =>
      var pre := |s1| != |s|;
      var hasPoint := s1 != [] && s1[0] == '.';
      var (f, scale, s2) := if hasPoint then LeadingFraction(s1[1..], 0, 1, false) else (0, 1, s1);
      var post := hasPoint && |s2| != |s1| - 1;
      if !pre && !post then None else Some((v, f, scale, s2))
  }

  /** The nanoseconds of `v.f` units, where the fraction is `f / scale`;
      `None` past `1<<63`. */
  function PairValue(v: nat, f: nat, scale: nat, unit: nat): (r: Option<nat>)
    requires scale >= 1 && unit >= 1
    ensures r.Some? ==> v * unit <= r.value <= Bound
    ensures r.Some? && f == 0 ==> r.value == v * unit
  {
    if v > Bound / unit then None
    else
      var whole := v * unit;
      var total := if f > 0 then whole + f * unit / scale else whole;
      if total > Bound then None else Some(total)
  }

  /** One `<number><unit>` pair at the front of `s`: its length in
      nanoseconds and the rest of `s`, or `None` for a missing number, a
      missing or unknown unit, or a value past `1<<63`. */
  function NextPair(s: string): (r: Option<(nat, string)>)
    ensures r.Some? ==> r.value.0 <= Bound && |r.value.1| < |s|
  {
    if s == [] || !(s[0] == '.' || IsDigit(s[0])) then None
    else
      match Number(s)
      case None => None
      case Some((v, f, scale, s2)) =>
        var i := UnitLength(s2);
        if i == 0 then None
        else
          match UnitNanos(s2[..i])
          case None => None
          case Some(unit) =>
            match PairValue(v, f, scale, unit)
            case None => None
            case Some(total) => Some((total, s2[i..]))
  }

  /** The loop of `ParseDuration` over the pairs, adding each onto the
      unsigned total `d`. */
  function Pairs(s: string, d: nat): (r: Option<nat>)
    requires d <= Bound
    ensures r.Some? ==> r.value <= Bound
    decreases |s|
  {
    if s == [] then Some(d)
    else
      match NextPair(s)
      case None => None
      case Some((v, rest)) =>
        var d' := (d + v) % Uint64Modulus;
        if d' > Bound then None else Pairs(rest, d')
  }

  /** `time.ParseDuration`: the duration a literal such as `"1h30m"` denotes,
      in nanoseconds, or `None` when Go reports an error. */
  function ParseDuration(s: string): (r: Option<int>)
    ensures r.Some? ==> -(Bound as int) <= r.value < Bound
    ensures s == [] ==> r.None?
  {
    var signed := s != [] && (s[0] == '-' || s[0] == '+');
    var t := if signed then s[1..] else s;
    if t == "0" then Some(0)
    else if t == [] then None
    else
      match Pairs(t, 0)
      case None => None
      case Some(d) =>
        if signed && s[0] == '-' then Some(0 - d)
        else if d > Bound - 1 then None
        else Some(d)
  }

  /** `Duration.Hours`, exactly. */
  function Hours(d: int): (h: real)
    ensures h > 0.0 <==> d > 0
    ensures h * 60.0 == Minutes(d)
  {
    d as real / Hour as real
  }

  /** `Duration.Minutes`, exactly. */
  function Minutes(d: int): (m: real)
    ensures m > 0.0 <==> d > 0
  {
    d as real / Minute as real
  }

  /** The literal `<h>h<m>m`, the form the records carry (`"3h00m"` is one
      spelling of `3h0m`). */
  function HoursMinutesLiteral(h: nat, m: nat): string
  {
    Digits(h) + "h" + Digits(m) + "m"
  }

  lemma {:induction false} ValueFromBounds(ds: string, x: nat)
    requires AllDigits(ds)
    ensures ValueFrom(ds, x) >= x
    ensures |ds| >= 1 ==> ValueFrom(ds, x) >= x * 10 + DigitValue(ds[0])
    decreases |ds|
  {
    if ds != [] {
      ValueFromBounds(ds[1..], x * 10 + DigitValue(ds[0]));
    }
  }

  /** `leadingInt` reads a numeral in full when its value stays within `1<<63`. */
  lemma {:induction false} LeadingIntNumeral(ds: string, rest: string, x: nat)
    requires AllDigits(ds) && ValueFrom(ds, x) <= Bound
    requires rest == [] || !IsDigit(rest[0])
    ensures x <= Bound
    ensures LeadingInt(ds + rest, x) == Some((ValueFrom(ds, x), rest))
    decreases |ds|
  {
    ValueFromBounds(ds, x);
    if ds == [] {
      assert ds + rest == rest;
    } else {
      assert (ds + rest)[0] == ds[0];
      assert (ds + rest)[1..] == ds[1..] + rest;
      ValueFromBounds(ds[1..], x * 10 + DigitValue(ds[0]));
      LeadingIntNumeral(ds[1..], rest, x * 10 + DigitValue(ds[0]));
    }
  }

  /** A numeral followed by something other than a digit or a point is a
      whole number. */
  lemma NumberWhole(ds: string, rest: string)
    requires |ds| >= 1 && AllDigits(ds) && ValueFrom(ds, 0) <= Bound
    requires rest == [] || (rest[0] != '.' && !IsDigit(rest[0]))
    ensures (ds + rest)[0] == ds[0]
    ensures Number(ds + rest) == Some((ValueFrom(ds, 0), 0, 1, rest))
  {
    LeadingIntNumeral(ds, rest, 0);
  }

  /** A whole number of units is that many times the unit. */
  lemma PairValueWhole(v: nat, unit: nat)
    requires unit >= 1 && v * unit <= Bound
    ensures PairValue(v, 0, 1, unit) == Some(v * unit)
  {
    DivBound(v, unit, Bound);
  }

  /** A whole-number pair `<ds><u>` is `ds` units long. */
  lemma NextPairWhole(ds: string, u: string, unit: nat, rest: string)
    requires |ds| >= 1 && AllDigits(ds)
    requires UnitNanos(u) == Some(unit)
    requires forall i :: 0 <= i < |u| ==> u[i] != '.' && !IsDigit(u[i])
    requires rest == [] || rest[0] == '.' || IsDigit(rest[0])
    requires ValueFrom(ds, 0) * unit <= Bound
    ensures NextPair(ds + u + rest) == Some((ValueFrom(ds, 0) * unit, rest))
  {
    var n := ValueFrom(ds, 0);
    var s1 := u + rest;
    assert UnitLength(s1) == |u| && s1[0] != '.' && !IsDigit(s1[0]) by {
      UnitLengthOf(u, rest);
    }
    assert n <= Bound by {
      LeMul(n, unit);
    }
    assert IsDigit((ds + s1)[0]) && Number(ds + s1) == Some((n, 0, 1, s1)) by {
      NumberWhole(ds, s1);
    }
    assert PairValue(n, 0, 1, unit) == Some(n * unit) by {
      PairValueWhole(n, unit);
    }
    AppendAssociative(ds, u, rest);
    NextPairFrom(ds + s1, n, s1, u, unit, rest);
  }

  lemma AppendAssociative(a: string, b: string, c: string)
    ensures a + b + c == a + (b + c)
  {
  }

  /** `NextPair` put together from its three steps: the number, the unit and
      the value. */
  lemma NextPairFrom(s: string, n: nat, s1: string, u: string, unit: nat, rest: string)
    requires s != [] && IsDigit(s[0])
    requires Number(s) == Some((n, 0, 1, s1))
    requires s1 == u + rest && |u| >= 1 && UnitLength(s1) == |u|
    requires UnitNanos(u) == Some(unit)
    requires PairValue(n, 0, 1, unit) == Some(n * unit)
    ensures NextPair(s) == Some((n * unit, rest))
  {
    assert s1[..|u|] == u;
    assert s1[|u|..] == rest;
  }

  lemma {:induction false} UnitLengthOf(u: string, rest: string)
    requires forall i :: 0 <= i < |u| ==> u[i] != '.' && !IsDigit(u[i])
    requires rest == [] || rest[0] == '.' || IsDigit(rest[0])
    ensures UnitLength(u + rest) == |u|
    ensures |u| >= 1 ==> (u + rest)[0] != '.' && !IsDigit((u + rest)[0])
    decreases |u|
  {
    if u == [] {
      assert u + rest == rest;
    } else {
      assert (u + rest)[1..] == u[1..] + rest;
      UnitLengthOf(u[1..], rest);
    }
  }

  lemma DivBound(n: nat, k: nat, b: nat)
    requires k >= 1 && n * k <= b
    ensures n <= b / k
  {
    var q := b / k;
    if n > q {
      MulMonotone(q + 1, n, k);
      assert false;
    }
  }

  lemma LeMul(n: nat, k: nat)
    requires k >= 1
    ensures n <= n * k
  {
    assert n * k == n + n * (k - 1);
  }

  lemma MulMonotone(a: nat, c: nat, k: nat)
    requires a <= c
    ensures a * k <= c * k
  {
    assert c * k - a * k == (c - a) * k;
  }

  /** Parsing `<h>h<m>m` gives back `h` hours and `m` minutes, whenever the
      sum fits in a `time.Duration`. */
  lemma ParseHoursMinutes(h: nat, m: nat)
    requires h * Hour + m * Minute < Bound
    ensures ParseDuration(HoursMinutesLiteral(h, m)) == Some(h * Hour + m * Minute)
  {
    ValueOfDigits(h);
    ValueOfDigits(m);
    HoursMinutes(Digits(h), Digits(m));
  }

  /** The general form: any two numerals, the first in hours, the second in minutes. */
  lemma HoursMinutes(hs: string, ms: string)
    requires |hs| >= 1 && AllDigits(hs) && |ms| >= 1 && AllDigits(ms)
    requires ValueFrom(hs, 0) * Hour + ValueFrom(ms, 0) * Minute < Bound
    ensures ParseDuration(hs + "h" + ms + "m").Some?
    ensures ParseDuration(hs + "h" + ms + "m").value == ValueFrom(hs, 0) * Hour + ValueFrom(ms, 0) * Minute
  {
    var hh, mm := ValueFrom(hs, 0) * Hour, ValueFrom(ms, 0) * Minute;
    var lit := hs + "h" + ms + "m";
    var t := ms + "m";
    assert lit == hs + "h" + t;
    assert t[0] == ms[0];
    NextPairWhole(hs, "h", Hour, t);
    assert t == ms + "m" + [];
    NextPairWhole(ms, "m", Minute, []);
    assert lit[0] == hs[0];
    UnsignedTwoPairs(lit, t, hh, mm);
  }

  /** An unsigned literal of two pairs, without wrap-around, is their sum. */
  lemma UnsignedTwoPairs(s: string, t: string, v: nat, w: nat)
    requires |s| >= 2 && IsDigit(s[0]) && t != [] && v + w < Bound
    requires NextPair(s) == Some((v, t)) && NextPair(t) == Some((w, []))
    ensures ParseDuration(s) == Some(v + w)
  {
    PairsCons(s, 0, v, t);
    PairsCons(t, v, w, []);
    UnsignedLiteral(s, v + w);
  }

  /** Without wrap-around, the loop adds the first pair and carries on. */
  lemma PairsCons(s: string, d: nat, v: nat, rest: string)
    requires s != [] && NextPair(s) == Some((v, rest)) && d + v <= Bound
    ensures Pairs(s, d) == Pairs(rest, d + v)
  {
    assert (d + v) % Uint64Modulus == d + v;
  }

  /** A literal that starts with a digit and is not the bare `0` is the sum of its pairs. */
  lemma UnsignedLiteral(s: string, d: nat)
    requires |s| >= 2 && IsDigit(s[0])
    requires Pairs(s, 0) == Some(d) && d < Bound
    ensures ParseDuration(s) == Some(d)
  {
  }

  /** A leading `+` changes nothing and a leading `-` negates, so a negative
      literal such as `"-1h"` parses (and is then rejected only by the
      positivity check). */
  lemma ParseDurationSign(s: string)
    requires s != [] && s[0] != '-' && s[0] != '+'
    requires ParseDuration(s).Some?
    ensures ParseDuration("+" + s) == ParseDuration(s)
    ensures ParseDuration("-" + s) == Some(0 - ParseDuration(s).value)
  {
    assert ("+" + s)[1..] == s;
    assert ("-" + s)[1..] == s;
  }

  /** `leadingInt` stops exactly where the numeral ends, whenever it does
      not overflow. */
  lemma {:induction false} LeadingIntStops(ds: string, rest: string, x: nat)
    requires AllDigits(ds) && x <= Bound
    requires rest == [] || !IsDigit(rest[0])
    ensures LeadingInt(ds + rest, x).Some? ==> LeadingInt(ds + rest, x).value.1 == rest
    decreases |ds|
  {
    if ds == [] {
      assert ds + rest == rest;
    } else {
      assert (ds + rest)[0] == ds[0];
      assert (ds + rest)[1..] == ds[1..] + rest;
      var y := x * 10 + DigitValue(ds[0]);
      if x <= Bound / 10 && y <= Bound {
        LeadingIntStops(ds[1..], rest, y);
      }
    }
  }

  /** A number followed by a unit that is not in the unit table is an error,
      whatever the number and whatever follows the unit (`"1d"`, `"5kg"`). */
  lemma UnknownUnit(ds: string, u: string, rest: string)
    requires |ds| >= 1 && AllDigits(ds)
    requires |u| >= 1 && UnitNanos(u).None?
    requires forall i :: 0 <= i < |u| ==> u[i] != '.' && !IsDigit(u[i])
    requires rest == [] || rest[0] == '.' || IsDigit(rest[0])
    ensures ParseDuration(ds + u + rest) == None
  {
    var s1 := u + rest;
    AppendAssociative(ds, u, rest);
    var s := ds + s1;
    assert s[0] == ds[0];
    assert UnitLength(s1) == |u| && s1[0] != '.' && !IsDigit(s1[0]) by {
      UnitLengthOf(u, rest);
    }
    assert s1[..|u|] == u;
    LeadingIntStops(ds, s1, 0);
    assert NextPair(s) == None;
    assert Pairs(s, 0) == None;
  }

  /** The two literals of the record examples. */
  lemma ParseThreeHours()
    ensures ParseDuration("3h00m") == Some(3 * Hour)
  {
    assert ValueFrom("3", 0) == 3;
    assert ValueFrom("00", 0) == 0;
    HoursMinutes("3", "00");
    assert "3" + "h" + "00" + "m" == "3h00m";
  }

  lemma ParseFiftyMinutes()
    ensures ParseDuration("0h50m") == Some(50 * Minute)
  {
    assert ValueFrom("0", 0) == 0;
    assert ValueFrom("50", 0) == 50;
    HoursMinutes("0", "50");
    assert "0" + "h" + "50" + "m" == "0h50m";
  }

  /** A numeral that ends the text has no unit, so the pair is missing its
      unit and the loop fails, whatever total it has reached. */
  lemma PairsWithoutUnit(ds: string, d: nat)
    requires |ds| >= 1 && AllDigits(ds) && d <= Bound
    ensures NextPair(ds) == None
    ensures Pairs(ds, d) == None
  {
    LeadingIntStops(ds, [], 0);
    assert ds + [] == ds;
  }

  /** A bare numeral other than `0` is missing its unit (`"90"`). */
  lemma NumberWithoutUnit(ds: string)
    requires |ds| >= 1 && AllDigits(ds) && ds != "0"
    ensures ParseDuration(ds) == None
  {
    PairsWithoutUnit(ds, 0);
  }

  /** A numeral after a complete pair is missing its unit too (`"1h30"`). */
  lemma TrailingNumberWithoutUnit(ds: string, u: string, unit: nat, ms: string)
    requires |ds| >= 1 && AllDigits(ds)
    requires UnitNanos(u) == Some(unit)
    requires forall i :: 0 <= i < |u| ==> u[i] != '.' && !IsDigit(u[i])
    requires |ms| >= 1 && AllDigits(ms)
    requires ValueFrom(ds, 0) * unit <= Bound
    ensures ParseDuration(ds + u + ms) == None
  {
    var s := ds + u + ms;
    var v := ValueFrom(ds, 0) * unit;
    NextPairWhole(ds, u, unit, ms);
    assert s[0] == ds[0];
    PairsCons(s, 0, v, ms);
    PairsWithoutUnit(ms, v);
  }

  /** The bare literal `0`, with or without a sign, parses to 0. */
  lemma ParseZero()
    ensures ParseDuration("0") == Some(0)
    ensures ParseDuration("-0") == Some(0)
    ensures ParseDuration("+0") == Some(0)
  {
    assert "-0"[1..] == "0";
    assert "+0"[1..] == "0";
  }

  /** A number without a unit, or a unit without a number, is an error. */
  lemma ParseMissingParts()
    ensures ParseDuration("90") == None
    ensures ParseDuration("h") == None
    ensures ParseDuration("-") == None
  {
    LeadingIntNumeral("90", [], 0);
    assert "90" + [] == "90";
    assert "-"[1..] == [];
  }

  /** A fraction of an hour. */
  lemma ParseFraction()
    ensures ParseDuration("1.5h") == Some(90 * Minute)
  {
    LeadingIntNumeral("1", ".5h", 0);
    assert "1" + ".5h" == "1.5h";
    assert ".5h"[1..] == "5h";
    assert "5h"[1..] == "h";
    assert LeadingFraction("5h", 0, 1, false) == (5, 10, "h");
    assert "h"[1..] == [];
    assert UnitLength("h") == 1;
    assert "h"[..1] == "h";
  }
}
