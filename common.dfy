/** Value types shared by every component: optional values (C#'s null),
    the runtime faults the source can raise, opaque identifiers and the
    decimal rendering C# string interpolation applies to an `int`. */
module Common {

  /** A C# reference or nullable value: `None` stands for `null`. */
  datatype Option<T> = None | Some(value: T)

  /** The runtime exceptions the modelled code can raise. */
  datatype Exn =
    | DivideByZero      // `x % 0` on an int
    | IndexOutOfRange   // an array or list indexed outside its bounds
    | NullReference     // a member access on `null`
    | JsonParse         // JsonSerializer.Deserialize on malformed text
    | Raised            // whatever a caller-supplied delegate threw

  /** The outcome of an operation that may throw: `Done` or the exception
      that escaped. */
  datatype Outcome = Done | Threw(exn: Exn)

  /** The result of a computation that may throw. */
  datatype Result<T> = Ok(value: T) | Fault(exn: Exn)

  /** A System.Guid, kept opaque: only equality is observable.
      `Guid.NewGuid()` becomes a fresh id supplied by the caller. */
  datatype Guid = Guid(n: nat)

  /** `Guid.Empty`. */
  const EmptyGuid := Guid(0)

  function DigitChar(d: nat): (c: char)
    requires d < 10
    ensures '0' <= c <= '9' && c as int - '0' as int == d
  {
    (d + '0' as int) as char
  }

  predicate IsDigits(s: string) {
    forall i :: 0 <= i < |s| ==> '0' <= s[i] <= '9'
  }

  /** Decimal digits of `n`, most significant first, without leading zeros. */
  function NatToString(n: nat): (s: string)
    ensures |s| >= 1 && IsDigits(s)
    ensures n >= 10 <==> s[0] != '0' && |s| >= 2
    decreases n
  {
    if n < 10 then [DigitChar(n)] else NatToString(n / 10) + [DigitChar(n % 10)]
  }

  /** `$"{i}"` for a C# int: a minus sign, then the digits of |i|. */
  function IntToString(i: int): (s: string)
    ensures |s| >= 1
    ensures s[0] == '-' <==> i < 0
  {
    if i < 0 then "-" + NatToString(-i) else NatToString(i)
  }

  /** The value of a string of decimal digits (the reading direction of
      `NatToString`). */
  function DigitsValue(s: string): nat
    requires IsDigits(s)
  {
    if s == [] then 0 else 10 * DigitsValue(s[..|s| - 1]) + (s[|s| - 1] as int - '0' as int)
  }

  /** Reading the digits back gives the number: the rendering loses nothing. */
  lemma {:induction false} NatToStringRoundTrip(n: nat)
    ensures DigitsValue(NatToString(n)) == n
    decreases n
  {
    if n >= 10 {
      var s := NatToString(n);
      assert s[..|s| - 1] == NatToString(n / 10);
      NatToStringRoundTrip(n / 10);
    }
  }

  /** Distinct integers render to distinct strings, so ids built from an
      index (`Tablet_Button{n}`) never collide. */
  lemma IntToStringInjective(i: int, j: int)
    requires IntToString(i) == IntToString(j)
    ensures i == j
  {
    var s := IntToString(i);
    assert (i < 0) == (j < 0) by { assert s[0] == '-' <==> i < 0; assert s[0] == '-' <==> j < 0; }
    if i < 0 {
      assert s == "-" + NatToString(-i) && s == "-" + NatToString(-j);
      PrefixCancel("-", NatToString(-i), NatToString(-j));
      NatToStringInjective(-i, -j);
    } else {
      NatToStringInjective(i, j);
    }
  }

  lemma NatToStringInjective(a: nat, b: nat)
    requires NatToString(a) == NatToString(b)
    ensures a == b
  {
    NatToStringRoundTrip(a);
    NatToStringRoundTrip(b);
  }

  /** Equal prefixes cancel: used to show that `prefix + IntToString(n)` ids
      are injective in `n`. */
  lemma PrefixCancel(p: string, a: string, b: string)
    requires p + a == p + b
    ensures a == b
  {
    assert a == (p + a)[|p|..];
    assert b == (p + b)[|p|..];
  }
}
