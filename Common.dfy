/** Identifiers, the optional and failure-carrying wrappers, and the error kinds
    shared by the repositories and services of the task store. */
module Common {

  /** An opaque UUID (task, project, label, department, ... ids). */
  type Uuid = nat

  /** A user id (a Java `long`). */
  type UserId = int

  /** A `LocalDateTime`, as an abstract tick count. */
  type Instant = int

  /** A `LocalDate`, as an abstract day number. */
  type Day = int

  /** Localised names keyed by language code. */
  type LocalizedNames = map<string, string>

  /** A Java reference that may be null, or an `Optional`. */
  datatype Option<+T> = None | Some(value: T)

  /** The exceptions the core raises or propagates. */
  datatype Error =
    | NotFound            // DocumentHasNotFoundException
    | AccessDenied        // DocumentModificationAccessException
    | Invalid(message: string)  // DataValidationException
    | NoValue             // NoSuchElementException of Optional.get / orElseThrow
    | NullValue           // NullPointerException on a null reference
    | IllegalArgument     // UUID.fromString or Enum.valueOf on a malformed string
    | QueryFailed         // a database statement failed (the transaction rolls back)

  /** The outcome of an asynchronous pipeline: an item or a failure. */
  datatype Result<+T> = Success(value: T) | Failure(error: Error) {
    predicate IsFailure() {
      Failure?
    }

    function PropagateFailure<U>(): Result<U>
      requires Failure?
    {
      Failure(error)
    }

    function Extract(): T
      requires Success?
    {
      value
    }
  }

  function Min(a: int, b: int): int {
    if a <= b then a else b
  }

  function Max(a: int, b: int): int {
    if a <= b then b else a
  }

  /** The elements of a sequence, as a set. */
  function Elements<T>(s: seq<T>): set<T> {
    set x | x in s
  }
  /** The decimal digit character for `d`. */
  function Digit(d: nat): (c: char)
    requires d < 10
    ensures IsDigit(c)
  {
    ('0' as int + d) as char
  }

  predicate IsDigit(c: char) {
    '0' <= c <= '9'
  }

  /** `String.valueOf(n)` for a non-negative `int`: its decimal digits, most
      significant first, with no leading zero. */
  function DecimalString(n: nat): (s: string)
    ensures |s| >= 1 && forall i :: 0 <= i < |s| ==> IsDigit(s[i])
    ensures n >= 10 ==> s[0] != '0'
    decreases n
  {
    if n < 10 then [Digit(n)] else DecimalString(n / 10) + [Digit(n % 10)]
  }

  /** The value of a string of decimal digits. */
  function ParseDecimal(s: string): nat
    requires forall i :: 0 <= i < |s| ==> IsDigit(s[i])
  {
    if s == [] then 0
    else ParseDecimal(s[..|s| - 1]) * 10 + DigitValue(s[|s| - 1])
  }

  function DigitValue(c: char): (d: nat)
    requires IsDigit(c)
    ensures d < 10 && Digit(d) == c
  {
    c as int - '0' as int
  }

  /** Reading back the decimal rendering gives back the number. */
  lemma {:induction false} ParseDecimalString(n: nat)
    ensures ParseDecimal(DecimalString(n)) == n
    decreases n
  {
    var s := DecimalString(n);
    if n >= 10 {
      ParseDecimalString(n / 10);
      assert s[..|s| - 1] == DecimalString(n / 10);
    }
  }

  function Pow10(k: nat): (p: nat)
    ensures p >= 1
  {
    if k == 0 then 1 else 10 * Pow10(k - 1)
  }

  /** A number of `k` decimal digits renders as `k` characters. */
  lemma {:induction false} DecimalLength(n: nat, k: nat)
    requires k >= 1 && Pow10(k - 1) <= n < Pow10(k)
    ensures |DecimalString(n)| == k
    decreases k
  {
    if n >= 10 {
      assert k >= 2;
      assert Pow10(k - 1) == 10 * Pow10(k - 2);
      assert Pow10(k - 2) <= n / 10 < Pow10(k - 1);
      DecimalLength(n / 10, k - 1);
    }
  }

  /** A six-digit number renders as six characters. */
  lemma SixDigitsLength(n: nat)
    requires 100000 <= n <= 999999
    ensures |DecimalString(n)| == 6
  {
    assert Pow10(0) == 1;
    assert Pow10(1) == 10;
    assert Pow10(2) == 100;
    assert Pow10(3) == 1000;
    assert Pow10(4) == 10000;
    assert Pow10(5) == 100000;
    assert Pow10(6) == 1000000;
    DecimalLength(n, 6);
  }
}
