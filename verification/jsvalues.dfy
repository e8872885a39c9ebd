/** The few JavaScript value rules the handlers depend on: truthiness of body
    fields, destructuring defaults, and number-to-string conversion in a
    template literal. */
module JsValues {
  import opened Results

  /** A string body field is truthy when present and non-empty. */
  predicate Truthy(v: Option<string>) {
    v.Some? && v.value != ""
  }

  /** A numeric body field is truthy when present and non-zero. */
  predicate TruthyNumber(v: Option<int>) {
    v.Some? && v.value != 0
  }

  /** A destructuring default `{ x = d } = body`: replaces only `undefined`. */
  function OrDefault(v: Option<string>, d: string): (r: string)
    ensures v.Some? ==> r == v.value
    ensures v.None? ==> r == d
  {
    match v
    case Some(x) => x
    case None => d
  }

  /** `if (v) field = v`: a truthy value replaces the current one. */
  function IfTruthy(v: Option<string>, current: string): (r: string)
    ensures Truthy(v) ==> r == v.value
    ensures !Truthy(v) ==> r == current
  {
    if Truthy(v) then v.value else current
  }

  predicate IsDigit(c: char) {
    '0' <= c <= '9'
  }

  function DigitChar(d: nat): (c: char)
    requires d < 10
    ensures IsDigit(c) && c as int - '0' as int == d
  {
    ('0' as int + d) as char
  }

  /** The decimal spelling of a natural number, without leading zeros. */
  function NatToString(n: nat): (r: string)
    ensures |r| >= 1
    ensures forall k :: 0 <= k < |r| ==> IsDigit(r[k])
    ensures r[0] == '0' ==> n == 0
  {
    if n < 10 then [DigitChar(n)] else NatToString(n / 10) + [DigitChar(n % 10)]
  }

  /** How a JavaScript number is written in a template literal, for the
      integers that print in plain decimal: those of magnitude below 10^21.
      Larger ones print in exponent form (`1e+21`), which is not modelled. */
  function NumberToString(n: int): (r: string)
    ensures |r| >= 1
    ensures n < 0 <==> r[0] == '-'
  {
    if n < 0 then "-" + NatToString(-n) else NatToString(n)
  }

  /** Reads a string of decimal digits back into a number. */
  function ParseDigits(s: string): int
    requires forall k :: 0 <= k < |s| ==> IsDigit(s[k])
  {
    if |s| == 0 then 0
    else ParseDigits(s[..|s| - 1]) * 10 + (s[|s| - 1] as int - '0' as int)
  }

  /** Parsing the spelling of a number gives the number back. */
  lemma {:induction false} ParseNatToString(n: nat)
    ensures ParseDigits(NatToString(n)) == n
  {
    if n >= 10 {
      var s := NatToString(n);
      var prefix := NatToString(n / 10);
      assert s[..|s| - 1] == prefix;
      ParseNatToString(n / 10);
    }
  }

  /** Different numbers are written differently. */
  lemma NumberToStringInjective(a: int, b: int)
    requires NumberToString(a) == NumberToString(b)
    ensures a == b
  {
    if a < 0 {
      assert NumberToString(a)[1..] == NatToString(-a);
      assert NumberToString(b)[1..] == NatToString(-b);
      ParseNatToString(-a);
      ParseNatToString(-b);
    } else {
      ParseNatToString(a);
      ParseNatToString(b);
    }
  }
}
