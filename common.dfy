/** Shared vocabulary of the model: optional values, results, the fixed-width
    integer types the client uses, an opaque 32-bit float, decimal rendering
    of integers and a few string predicates. */
module Common {

  /** Rust's `Option<T>`. */
  datatype Option<+T> = None | Some(value: T) {
    /** `unwrap_or_else` with a closure that returns `default` */
    function GetOr(default: T): (r: T)
      ensures Some? ==> r == value
      ensures None? ==> r == default
    {
      match this
      case Some(v) => v
      case None => default
    }
  }

  /** Rust's `Result<T, E>`. */
  datatype Result<+T, +E> = Ok(value: T) | Err(error: E)

  newtype u8 = x: int | 0 <= x < 0x100
  newtype u16 = x: int | 0 <= x < 0x1_0000
  newtype u32 = x: int | 0 <= x < 0x1_0000_0000
  newtype u64 = x: int | 0 <= x < 0x1_0000_0000_0000_0000

  /** An `f32`, known only by its IEEE-754 bit pattern; no arithmetic is modelled. */
  datatype F32 = F32(bits: bv32)

  /** An `f32` is finite unless its eight exponent bits are all set (infinity or NaN). */
  predicate IsFinite(x: F32) {
    (x.bits >> 23) & 0xFF != 0xFF
  }

  // ----- decimal rendering of unsigned integers (Rust's `to_string` / `{}`) -----

  predicate IsDigit(c: char) {
    '0' <= c <= '9'
  }

  function DigitChar(d: nat): (c: char)
    requires d < 10
    ensures IsDigit(c) && c as int - '0' as int == d
  {
    ('0' as int + d) as char
  }

  /** The shortest decimal numeral of `n`: digits only, no leading zero. */
  function Decimal(n: nat): (s: string)
    ensures |s| >= 1
    ensures forall i :: 0 <= i < |s| ==> IsDigit(s[i])
    ensures |s| > 1 ==> s[0] != '0'
  {
    if n < 10 then [DigitChar(n)] else Decimal(n / 10) + [DigitChar(n % 10)]
  }

  /** Reads a non-empty string of decimal digits back as a number. */
  function ParseDecimal(s: string): Option<nat> {
    if |s| == 0 then None
    else if !IsDigit(s[|s| - 1]) then None
    else
      var d := s[|s| - 1] as int - '0' as int;
      if |s| == 1 then Some(d)
      else
        match ParseDecimal(s[..|s| - 1])
        case None => None
        case Some(m) => Some(m * 10 + d)
  }

  /** Decimal rendering loses nothing: reading the numeral back yields the number. */
  lemma {:induction false} DecimalRoundTrip(n: nat)
    ensures ParseDecimal(Decimal(n)) == Some(n)
  {
    if n >= 10 {
      var head := Decimal(n / 10);
      var s := head + [DigitChar(n % 10)];
      assert s[..|s| - 1] == head;
      DecimalRoundTrip(n / 10);
    }
  }

  /** Rendering is injective: two numbers with the same numeral are equal. */
  lemma DecimalInjective(m: nat, n: nat)
    requires Decimal(m) == Decimal(n)
    ensures m == n
  {
    DecimalRoundTrip(m);
    DecimalRoundTrip(n);
  }

  /** Rust's `bool::to_string`. */
  function BoolText(b: bool): (s: string)
    ensures b <==> s == "true"
    ensures !b <==> s == "false"
  {
    if b then "true" else "false"
  }

  // ----- string predicates -----

  predicate StartsWith(s: string, prefix: string) {
    |prefix| <= |s| && s[..|prefix|] == prefix
  }

  /** `str::contains`: `t` occurs somewhere in `s`. */
  predicate Contains(s: string, t: string)
    decreases |s|
  {
    StartsWith(s, t) || (|s| > 0 && Contains(s[1..], t))
  }

  lemma StartsWithAppend(p: string, rest: string)
    ensures StartsWith(p + rest, p)
  {
    assert (p + rest)[..|p|] == p;
  }

  lemma {:induction false} ContainsAppended(front: string, t: string, back: string)
    ensures Contains(front + t + back, t)
    decreases |front|
  {
    if |front| == 0 {
      assert front + t + back == t + back;
      StartsWithAppend(t, back);
    } else {
      assert (front + t + back)[1..] == front[1..] + t + back;
      ContainsAppended(front[1..], t, back);
    }
  }
}
