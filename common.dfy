/** Small shared vocabulary: optional values, the exceptions the modelled code can raise,
    and Python's `str()` on integers. */
module Common {

  datatype Option<+T> = None | Some(value: T)

  /** The exceptions the modelled Python code raises on its error paths. */
  datatype Error =
    | NotFound             // `db.get` returned None and an attribute of it was read
    | MissingQuestion      // the record's `question` relationship is None
    | UnknownCorrelation   // `alive_sessions.pop(key)` without a default, key absent
    | NoSession            // `session.person` read while `session` is None
    | IndexOutOfRange      // `message_relation[i]` past the end
    | BadWeekDay           // `WeekDays(x)` with x outside 0..6
    | MissingKey           // `self._every['delta']` before `every()` was called
    | PeopleUnavailable    // the user directory answered with a status other than 200
    | NotIterable          // a single id passed where the query needs a list of ids

  /** Result of an operation that returns a value or raises. */
  datatype Result<+T> = Ok(value: T) | Err(error: Error)

  /** Result of an operation that returns nothing but may raise. */
  datatype Outcome = Pass | Fail(error: Error)

  function Min(a: int, b: int): int { if a <= b then a else b }

  // ---------------------------------------------------------------------------------------------
  // Local time as a count of seconds since 1970-01-01 00:00, a Thursday

  const SecondsPerDay: int := 86400

  /** `datetime.weekday()`: 0 for Monday .. 6 for Sunday. */
  function DayOfWeek(now: int): (d: int)
    ensures 0 <= d < 7
  {
    (now / SecondsPerDay + 3) % 7
  }

  // ---------------------------------------------------------------------------------------------
  // Python's str() on an int, and the decimal reading it is the inverse of

  function DigitChar(d: nat): char
    requires d < 10
  {
    "0123456789"[d]
  }

  predicate IsDigit(c: char) { '0' <= c <= '9' }

  function DigitValue(c: char): nat
    requires IsDigit(c)
  {
    c as int - '0' as int
  }

  function NatToString(n: nat): (s: string)
    ensures |s| > 0
    ensures forall i :: 0 <= i < |s| ==> IsDigit(s[i])
    ensures s[0] == '0' ==> n == 0 && |s| == 1
  {
    if n < 10 then [DigitChar(n)] else NatToString(n / 10) + [DigitChar(n % 10)]
  }

  /** `str(n)` for an integer: an optional minus sign followed by the decimal digits, with no
      leading zero except in "0" itself. */
  function IntToString(n: int): (s: string)
    ensures |s| > 0
    ensures (s[0] == '-') <==> n < 0
    ensures var d := if n < 0 then 1 else 0;
      d < |s| && (forall i :: d <= i < |s| ==> IsDigit(s[i])) && (s[d] == '0' ==> n == 0 && |s| == d + 1)
    ensures n == 0 ==> s == "0"
  {
    if n < 0 then "-" + NatToString(-n) else NatToString(n)
  }

  function ParseNat(s: string): nat
    requires |s| > 0
    requires forall i :: 0 <= i < |s| ==> IsDigit(s[i])
  {
    if |s| == 1 then DigitValue(s[0])
    else 10 * ParseNat(s[..|s| - 1]) + DigitValue(s[|s| - 1])
  }

  function ParseInt(s: string): int
    requires |s| > 0
    requires s[0] == '-' ==> |s| > 1
    requires forall i :: (if s[0] == '-' then 1 else 0) <= i < |s| ==> IsDigit(s[i])
  {
    if s[0] == '-' then -(ParseNat(s[1..]) as int) else ParseNat(s)
  }

  lemma {:induction false} ParseNatToString(n: nat)
    ensures ParseNat(NatToString(n)) == n
  {
    if n >= 10 {
      var s := NatToString(n);
      assert s[..|s| - 1] == NatToString(n / 10);
      ParseNatToString(n / 10);
    }
  }

  /** Reading back the text `str(n)` gives `n`: so two different button ids never produce the same
      answer text. */
  lemma IntToStringRoundTrip(n: int)
    ensures var s := IntToString(n);
      (s[0] == '-' ==> |s| > 1) &&
      (forall i :: (if s[0] == '-' then 1 else 0) <= i < |s| ==> IsDigit(s[i])) &&
      ParseInt(s) == n
  {
    var s := IntToString(n);
    if n < 0 {
      assert s[1..] == NatToString(-n);
      ParseNatToString(-n);
    } else {
      assert NatToString(n)[0] != '-';
      ParseNatToString(n);
    }
  }

  lemma IntToStringInjective(a: int, b: int)
    ensures IntToString(a) == IntToString(b) ==> a == b
  {
    IntToStringRoundTrip(a);
    IntToStringRoundTrip(b);
  }
}
