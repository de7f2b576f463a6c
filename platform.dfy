/** The parts of the .NET base library that the archive-naming and job
    construction code calls, stated as Dafny functions: nullable values,
    exceptions, `Path.Join`, integer formatting, `int.Parse`,
    `string.Split` and the conversion of a `TimeSpan` to whole milliseconds. */
module Platform {

  /** A C# nullable value: `None` stands for `null`. */
  datatype Option<T> = None | Some(value: T) {
    /** The `??` operator. */
    function GetOr(default: T): T {
      match this
      case Some(v) => v
      case None => default
    }
  }

  /** A value or the exception that the C# code throws instead. */
  datatype Result<T, E> = Ok(value: T) | Err(error: E)

  /** The runtime exceptions the modelled code can raise. */
  datatype Fault =
    | NullReference   // NullReferenceException
    | Format          // FormatException from int.Parse
    | Overflow        // OverflowException from int.Parse or Convert.ToUInt64
    | Argument        // ArgumentException

  /** C# `int`. */
  type Int32 = x: int | -0x8000_0000 <= x < 0x8000_0000

  /** C# `uint`. */
  type UInt32 = x: int | 0 <= x < 0x1_0000_0000

  const MaxUInt64: int := 0xFFFF_FFFF_FFFF_FFFF

  /** The identifiers handed out by the token generator are 64 characters long. */
  type Token = s: string | |s| == 64
    witness "0000000000000000000000000000000000000000000000000000000000000000"

  // ---------------------------------------------------------------------
  // Path.Join

  const DirectorySeparator: char := '/'

  /** `Path.Join(a, b)`, as plain joining with one separator. */
  function PathJoin(a: string, b: string): string {
    a + [DirectorySeparator] + b
  }

  /** Joining onto the same directory is injective in the last component. */
  lemma PathJoinCancel(a: string, b1: string, b2: string)
    ensures PathJoin(a, b1) == PathJoin(a, b2) <==> b1 == b2
  {
    if PathJoin(a, b1) == PathJoin(a, b2) {
      assert b1 == PathJoin(a, b1)[|a| + 1..];
      assert b2 == PathJoin(a, b2)[|a| + 1..];
    }
  }

  // ---------------------------------------------------------------------
  // Integer formatting and int.Parse

  predicate IsDigit(c: char) {
    '0' <= c <= '9'
  }

  predicate AllDigits(s: string) {
    forall i :: 0 <= i < |s| ==> IsDigit(s[i])
  }

  function DigitValue(c: char): (d: nat)
    requires IsDigit(c)
    ensures d < 10
  {
    c as int - '0' as int
  }

  function DigitChar(d: nat): (c: char)
    requires d < 10
    ensures IsDigit(c) && DigitValue(c) == d
  {
    (d + '0' as int) as char
  }

  /** Decimal digits of `n`, most significant first, without leading zeros. */
  function NatToString(n: nat): (s: string)
    ensures |s| > 0 && AllDigits(s)
  {
    if n < 10 then [DigitChar(n)] else NatToString(n / 10) + [DigitChar(n % 10)]
  }

  /** How C# renders an `int` inside an interpolated string (invariant culture). */
  function IntToString(n: int): (s: string)
    ensures |s| > 0 && (s[0] == '-' <==> n < 0)
  {
    if n < 0 then "-" + NatToString(-n) else NatToString(n)
  }

  /** The number a run of decimal digits denotes. */
  function DigitsValue(s: string): nat
    requires AllDigits(s)
  {
    if s == [] then 0 else DigitsValue(s[..|s| - 1]) * 10 + DigitValue(s[|s| - 1])
  }

  lemma {:induction false} DigitsValueOfNatToString(n: nat)
    ensures DigitsValue(NatToString(n)) == n
  {
    if n >= 10 {
      var s := NatToString(n);
      assert s[..|s| - 1] == NatToString(n / 10);
      DigitsValueOfNatToString(n / 10);
    }
  }

  /** `int.Parse(s)`: an optional sign followed by at least one decimal digit;
      anything else is a FormatException, a value outside `int` an
      OverflowException. */
  function ParseInt(s: string): (r: Result<int, Fault>)
    ensures r.Ok? ==> -0x8000_0000 <= r.value < 0x8000_0000
    ensures r.Ok? ==> |s| > 0
    ensures r.Err? ==> r.error == Format || r.error == Overflow
  {
    var signed := |s| > 0 && (s[0] == '-' || s[0] == '+');
    var digits := if signed then s[1..] else s;
    if digits == [] || !AllDigits(digits) then Err(Format)
    else
      var d: int := DigitsValue(digits);
      var v := if signed && s[0] == '-' then -d else d;
      if v < -0x8000_0000 || 0x8000_0000 <= v then Err(Overflow) else Ok(v)
  }

  /** Parsing reads back every `int` that formatting writes. */
  lemma ParseIntOfIntToString(n: Int32)
    ensures ParseInt(IntToString(n)) == Ok(n)
  {
    var s := IntToString(n);
    if n < 0 {
      var m: nat := -(n as int);
      DigitsValueOfNatToString(m);
      assert s[0] == '-' && s[1..] == NatToString(m);
    } else {
      DigitsValueOfNatToString(n);
      assert IsDigit(s[0]);
    }
  }

  lemma IntToStringInjective(a: Int32, b: Int32)
    ensures IntToString(a) == IntToString(b) <==> a == b
  {
    ParseIntOfIntToString(a);
    ParseIntOfIntToString(b);
  }

  // ---------------------------------------------------------------------
  // string.Split(char)

  /** `s.Split(sep)`: every piece between separators, empty pieces included. */
  function Split(s: string, sep: char): (parts: seq<string>)
    ensures |parts| > 0
    ensures forall i :: 0 <= i < |parts| ==> sep !in parts[i]
  {
    if s == [] then [""]
    else
      var rest := Split(s[1..], sep);
      if s[0] == sep then [""] + rest else [[s[0]] + rest[0]] + rest[1..]
  }

  /** A string without the separator is a single piece. */
  lemma {:induction false} SplitWithoutSeparator(s: string, sep: char)
    requires sep !in s
    ensures Split(s, sep) == [s]
  {
    if s != [] {
      SplitWithoutSeparator(s[1..], sep);
      assert [s[0]] + s[1..] == s;
    }
  }

  /** Splitting at the first separator: the piece before it, then the pieces of the rest. */
  lemma {:induction false} SplitAtFirstSeparator(x: string, sep: char, y: string)
    requires sep !in x
    ensures Split(x + [sep] + y, sep) == [x] + Split(y, sep)
  {
    if x == [] {
      assert x + [sep] + y == [sep] + y;
      assert ([sep] + y)[1..] == y;
    } else {
      SplitAtFirstSeparator(x[1..], sep, y);
      assert (x + [sep] + y)[1..] == x[1..] + [sep] + y;
      assert [x[0]] + x[1..] == x;
    }
  }

  /** `string.Join(sep, parts)`. */
  function JoinWith(parts: seq<string>, sep: char): string {
    if parts == [] then ""
    else if |parts| == 1 then parts[0]
    else parts[0] + [sep] + JoinWith(parts[1..], sep)
  }

  /** Splitting loses nothing: joining the pieces gives the string back. */
  lemma {:induction false} JoinWithSplit(s: string, sep: char)
    ensures JoinWith(Split(s, sep), sep) == s
  {
    if s != [] {
      var rest := Split(s[1..], sep);
      JoinWithSplit(s[1..], sep);
      if s[0] == sep {
        assert Split(s, sep)[1..] == rest;
      } else {
        var parts := Split(s, sep);
        assert parts[1..] == rest[1..];
        if |rest| == 1 {
          assert JoinWith(parts, sep) == [s[0]] + rest[0];
        } else {
          assert JoinWith(rest, sep) == rest[0] + [sep] + JoinWith(rest[1..], sep);
        }
      }
    }
  }

  // ---------------------------------------------------------------------
  // Convert.ToUInt64(TimeSpan.TotalMilliseconds)

  /** A `TimeSpan` is a signed 64-bit count of 100-nanosecond ticks. */
  type Ticks = t: int | -0x8000_0000_0000_0000 <= t < 0x8000_0000_0000_0000

  const TicksPerMillisecond: int := 10000

  /** `ticks / TicksPerMillisecond` rounded to the nearest integer, halves to even. */
  function RoundedMilliseconds(ticks: int): int {
    var q := ticks / TicksPerMillisecond;
    var m := ticks % TicksPerMillisecond;
    if m < TicksPerMillisecond / 2 then q
    else if m > TicksPerMillisecond / 2 then q + 1
    else if q % 2 == 0 then q else q + 1
  }

  /** `Convert.ToUInt64(span.TotalMilliseconds)`: rounds halves to even and
      throws an OverflowException when the rounded value is negative. */
  function ToUInt64Milliseconds(ticks: Ticks): (r: Result<nat, Fault>)
    ensures r.Ok? <==> ticks >= -TicksPerMillisecond / 2
    ensures r.Err? ==> r.error == Overflow
    ensures r.Ok? ==> r.value <= MaxUInt64
    ensures r.Ok? ==>
      -TicksPerMillisecond / 2 <= r.value * TicksPerMillisecond - ticks <= TicksPerMillisecond / 2
    ensures ticks >= 0 && ticks % TicksPerMillisecond == 0 ==> r == Ok(ticks / TicksPerMillisecond)
  {
    var ms := RoundedMilliseconds(ticks);
    if ms < 0 then Err(Overflow) else Ok(ms)
  }
}
