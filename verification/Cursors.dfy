/** Numbers in query strings: `strconv.FormatUint`, `ParseUint`, `Atoi`, and the two handlers' parsers on top. */
module Cursors {

  const UINT64_LIMIT: nat := 0x1_0000_0000_0000_0000
  const INT64_LIMIT: int := 0x8000_0000_0000_0000

  datatype Query = Accepted(value: nat) | BadRequest

  predicate IsDigit(c: char) {
    '0' <= c <= '9'
  }

  predicate AllDigits(s: string) {
    forall i | 0 <= i < |s| :: IsDigit(s[i])
  }

  /** The value of a string of decimal digits. */
  function Value(s: string): nat
    requires AllDigits(s)
  {
    if s == "" then 0 else 10 * Value(s[..|s| - 1]) + (s[|s| - 1] as int - '0' as int)
  }

  function DigitChar(d: nat): char
    requires d < 10
  {
    ('0' as int + d) as char
  }

  function FormatUint(n: nat): string {
    if n < 10 then [DigitChar(n)] else FormatUint(n / 10) + [DigitChar(n % 10)]
  }

  /** `ParseUint(s, 10, 64)`: nothing but digits, at least one, and below 2^64. */
  function ParseUint(s: string): Query {
    if s != "" && AllDigits(s) && Value(s) < UINT64_LIMIT then Accepted(Value(s)) else BadRequest
  }

  /** `Atoi`: an optional sign and digits within the 64-bit range. */
  function Atoi(s: string): (bool, int) {
    var signed := s != "" && (s[0] == '-' || s[0] == '+');
    var digits := if signed then s[1..] else s;
    if digits == "" || !AllDigits(digits) then (false, 0)
    else
      var n: int := if signed && s[0] == '-' then -(Value(digits) as int) else Value(digits);
      if -INT64_LIMIT <= n < INT64_LIMIT then (true, n) else (false, 0)
  }

  /** An absent parameter is 0, "no bound"; anything that is not a positive 64-bit number is refused. */
  function ParseOptionalUint(raw: string): Query {
    if raw == "" then Accepted(0)
    else
      var q := ParseUint(raw);
      if q.BadRequest? || q.value == 0 then BadRequest else q
  }

  /** The stream handler's since_seq: anything that does not parse asks for no replay; 0 asks for all of it. */
  function ReplayFrom(raw: string): (bool, nat) {
    var q := ParseUint(raw);
    if q.Accepted? then (true, q.value) else (false, 0)
  }

  function ParseLimit(raw: string, fallback: nat, max: nat): (q: Query)
    ensures q.Accepted? && 0 < fallback ==> 0 < q.value && (0 < max ==> q.value <= max)
    ensures q.BadRequest? <==> raw != "" && (!Atoi(raw).0 || Atoi(raw).1 <= 0)
  {
    if raw != "" && (!Atoi(raw).0 || Atoi(raw).1 <= 0) then BadRequest
    else
      var limit: nat := if raw == "" then fallback else Atoi(raw).1;
      Accepted(if max > 0 && limit > max then max else limit)
  }

  /** Formatting gives digits whose value is the number, with no leading zero except for 0 itself. */
  lemma {:induction false} FormatValue(n: nat)
    ensures FormatUint(n) != "" && AllDigits(FormatUint(n)) && Value(FormatUint(n)) == n
    ensures FormatUint(n)[0] == '0' ==> n == 0
  {
    if n >= 10 {
      FormatValue(n / 10);
      var s := FormatUint(n);
      assert s[..|s| - 1] == FormatUint(n / 10);
    } else {
      assert FormatUint(n)[..0] == "";
    }
  }

  /** The client's since_seq arrives as the number it was. */
  lemma SinceRoundTrip(n: nat)
    requires n < UINT64_LIMIT
    ensures ReplayFrom(FormatUint(n)) == (true, n)
  {
    FormatValue(n);
  }

  /** Every cursor the hub prints for a stored item is accepted on the way back in, as the same number. */
  lemma CursorRoundTrip(n: nat)
    requires 0 < n < UINT64_LIMIT
    ensures ParseOptionalUint(FormatUint(n)) == Accepted(n)
  {
    FormatValue(n);
  }

  // ---- what the parsers take, spelled out ----

  function Zeros(k: nat): string {
    seq(k, _ => '0')
  }

  lemma FormatSamples()
    ensures FormatUint(0) == "0" && FormatUint(9) == "9" && FormatUint(10) == "10" && FormatUint(2048) == "2048"
    ensures FormatUint(37659) == "37659"
  {
    assert FormatUint(20) == "20" && FormatUint(204) == "204";
    assert FormatUint(37) == "37" && FormatUint(376) == "376" && FormatUint(3765) == "3765";
  }

  /** A string of digits is some zeros and then the printed value. */
  lemma {:induction false} DigitsOf(s: string) returns (k: nat)
    requires s != "" && AllDigits(s)
    ensures k < |s| && s == Zeros(k) + FormatUint(Value(s))
  {
    var n := |s| - 1;
    var init, last := s[..n], s[n] as int - '0' as int;
    if init == "" {
      assert Value(init) == 0 && Value(s) == last;
      k := 0;
    } else {
      k := DigitsOf(init);
      assert Value(s) / 10 == Value(init) && Value(s) % 10 == last;
      assert s == init + [DigitChar(last)];
      if Value(init) == 0 {
        assert FormatUint(Value(init)) == "0";
        assert Zeros(k) + "0" == Zeros(k + 1);
        k := k + 1;
      }
    }
  }

  lemma {:induction false} ZerosValue(k: nat, s: string)
    requires AllDigits(s)
    ensures AllDigits(Zeros(k) + s) && Value(Zeros(k) + s) == Value(s)
    decreases |s|
  {
    if s != "" {
      var n := |s| - 1;
      ZerosValue(k, s[..n]);
      assert (Zeros(k) + s)[..|Zeros(k) + s| - 1] == Zeros(k) + s[..n];
    } else {
      assert Zeros(k) + s == Zeros(k);
      AllZeros(k);
    }
  }

  lemma {:induction false} AllZeros(k: nat)
    ensures AllDigits(Zeros(k)) && Value(Zeros(k)) == 0
  {
    if k > 0 {
      AllZeros(k - 1);
      assert Zeros(k)[..k - 1] == Zeros(k - 1);
    }
  }

  /** The printed number, with any zeros in front. */
  ghost predicate Prints(s: string, n: nat) {
    exists k: nat :: s == Zeros(k) + FormatUint(n)
  }

  lemma PrintsExactly(s: string, n: nat)
    ensures Prints(s, n) <==> s != "" && AllDigits(s) && Value(s) == n
  {
    if s != "" && AllDigits(s) && Value(s) == n {
      var k := DigitsOf(s);
    }
    if Prints(s, n) {
      var k: nat :| s == Zeros(k) + FormatUint(n);
      FormatValue(n);
      ZerosValue(k, FormatUint(n));
    }
  }

  /** `ParseUint` takes exactly the printed numbers below 2^64. */
  lemma ParseUintExactly(s: string, n: nat)
    ensures ParseUint(s) == Accepted(n) <==> n < 0x1_0000_0000_0000_0000 && Prints(s, n)
  {
    PrintsExactly(s, n);
  }

  /** A cursor: absent for no bound, or such a number that is positive; everything else is refused. */
  lemma CursorExactly(raw: string)
    ensures ParseOptionalUint("") == Accepted(0)
    ensures raw != "" ==> ParseOptionalUint(raw) == if ParseUint(raw) == Accepted(0) then BadRequest else ParseUint(raw)
  {
  }

  /** since_seq: such a number, zero included; without one there is no replay. */
  lemma ReplayExactly(raw: string, n: nat)
    ensures ReplayFrom(raw) == (true, n) <==> ParseUint(raw) == Accepted(n)
    ensures !ReplayFrom(raw).0 <==> ParseUint(raw).BadRequest?
  {
  }

  /** `Atoi` takes exactly the printed numbers within 64 bits, behind an optional sign. */
  lemma AtoiExactly(s: string, n: int)
    ensures Atoi(s) == (true, n)
            <==> -0x8000_0000_0000_0000 <= n < 0x8000_0000_0000_0000
                 && ((n >= 0 && Prints(s, n)) || (n >= 0 && "+" <= s && Prints(s[1..], n))
                     || (n <= 0 && "-" <= s && Prints(s[1..], -n)))
  {
    hide Prints, Value;
    var size: nat := if n < 0 then -n else n;
    PrintsExactly(s, size);
    if s != "" {
      PrintsExactly(s[1..], size);
      assert AllDigits(s) ==> IsDigit(s[0]);
    }
  }

  /** The limit asked for, cut to the maximum; the fallback, cut too, when none is; 0 and below are refused. */
  lemma LimitExactly(raw: string, fallback: nat, max: nat)
    ensures ParseLimit("", fallback, max) == Accepted(if 0 < max < fallback then max else fallback)
    ensures raw != "" && Atoi(raw).0 && 0 < Atoi(raw).1 ==>
              ParseLimit(raw, fallback, max) == Accepted(if 0 < max < Atoi(raw).1 then max else Atoi(raw).1)
    ensures raw != "" && (!Atoi(raw).0 || Atoi(raw).1 <= 0) ==> ParseLimit(raw, fallback, max) == BadRequest
  {
  }
}
