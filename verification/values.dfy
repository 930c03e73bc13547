/** Cell values shared by the script's tables, and Python's str() of the integers it prints. */
module Values {

  /** One cell of a table or one value in the primer engine's output: text, an integer,
      or a floating-point number carried as its printed form (never computed with). */
  datatype Cell = Str(s: string) | Int(n: int) | Float(repr: string)

  /** The character of decimal digit d. */
  function Digit(d: nat): char
    requires d < 10
  {
    ('0' as int + d) as char
  }

  predicate AllDigits(s: string) {
    forall i :: 0 <= i < |s| ==> '0' <= s[i] <= '9'
  }

  /** Python's str() of a non-negative integer: its shortest decimal numeral. */
  function Decimal(n: nat): (s: string)
    ensures 0 < |s| && AllDigits(s)
    ensures s[0] == '0' ==> n == 0
    ensures |s| == 1 <==> n < 10
  {
    if n < 10 then [Digit(n)] else Decimal(n / 10) + [Digit(n % 10)]
  }

  /** The number a string of decimal digits denotes. */
  function DigitsValue(s: string): nat
    requires AllDigits(s)
  {
    if s == [] then 0
    else
      10 * DigitsValue(s[..|s| - 1]) + (s[|s| - 1] as int - '0' as int)
  }

  /** Reading back the numeral of n gives n. */
  lemma {:induction false} DecimalRoundTrip(n: nat)
    ensures DigitsValue(Decimal(n)) == n
  {
    if n >= 10 {
      var s := Decimal(n);
      assert s[..|s| - 1] == Decimal(n / 10);
      DecimalRoundTrip(n / 10);
    }
  }

  /** Distinct numbers have distinct numerals. */
  lemma DecimalInjective(m: nat, n: nat)
    ensures Decimal(m) == Decimal(n) <==> m == n
  {
    DecimalRoundTrip(m);
    DecimalRoundTrip(n);
  }

  /** The "Set Number" column: "Set " followed by the 1-based set number. */
  function SetLabel(k: nat): string {
    "Set " + Decimal(k)
  }

  /** Set labels identify their set number: two labels are equal exactly when the numbers are. */
  lemma SetLabelsDistinct(j: nat, k: nat)
    ensures SetLabel(j) == SetLabel(k) <==> j == k
  {
    if SetLabel(j) == SetLabel(k) {
      assert Decimal(j) == SetLabel(j)[4..];
      assert Decimal(k) == SetLabel(k)[4..];
      DecimalInjective(j, k);
    }
  }

  /** Python's str() of a cell value: text as it is, an integer as an optional minus sign
      followed by the numeral of its magnitude, a float as its printed form. */
  function Render(c: Cell): (s: string)
    ensures c.Str? ==> s == c.s
    ensures c.Float? ==> s == c.repr
    ensures c.Int? ==> 0 < |s| && (s[0] == '-' <==> c.n < 0)
    ensures c.Int? && 0 <= c.n ==> AllDigits(s) && DigitsValue(s) == c.n
    ensures c.Int? && c.n < 0 ==> 0 < |s| && AllDigits(s[1..]) && DigitsValue(s[1..]) == -c.n
  {
    match c
    case Str(s) => s
    case Int(n) =>
      if n < 0 then
        DecimalRoundTrip(-n);
        assert ("-" + Decimal(-n))[1..] == Decimal(-n);
        "-" + Decimal(-n)
      else
        DecimalRoundTrip(n);
        Decimal(n)
    case Float(repr) => repr
  }
}

/** A value or the fault that stopped the run. */
module Results {

  datatype Result<+T, +E> = Ok(value: T) | Err(error: E) {
    predicate IsFailure() {
      Err?
    }

    function PropagateFailure<U>(): Result<U, E>
      requires Err?
    {
      Err(error)
    }

    function Extract(): T
      requires Ok?
    {
      value
    }
  }
}
