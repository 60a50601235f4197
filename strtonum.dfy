/** strtonum(3) as conf_divert_port calls it: strtoll in base 10 over the
    whole string, then a range check; 0 is returned on every error. */
module Strtonum {
  import opened Wrappers

  predicate IsDigit(c: char) { '0' <= c <= '9' }

  /** isspace in the C locale: space, \t, \n, \v, \f and \r. */
  predicate IsCSpace(c: char) { c == ' ' || '\t' <= c <= '\r' }

  predicate AllDigits(d: seq<char>) { forall k :: 0 <= k < |d| ==> IsDigit(d[k]) }

  /** The value of a run of decimal digits, most significant first. */
  function DigitsValue(d: seq<char>): nat
    requires AllDigits(d)
  {
    if d == [] then 0
    else DigitsValue(d[..|d| - 1]) * 10 + (d[|d| - 1] as int - '0' as int)
  }

  /** The sign and digits left once leading white space is skipped. */
  function SkipCSpace(s: seq<char>): (t: seq<char>)
    ensures |t| <= |s| && t == s[|s| - |t|..]
    ensures t == [] || !IsCSpace(t[0])
  {
    if s != [] && IsCSpace(s[0]) then SkipCSpace(s[1..]) else s
  }

  /** strtoll(s, &ep, 10) when it consumes all of s (ep != s, *ep == '\0'):
      optional white space, an optional sign, then one digit or more. */
  function Strtoll(s: seq<char>): (r: Option<int>)
  {
    var t := SkipCSpace(s);
    var neg := t != [] && t[0] == '-';
    var d := if t != [] && (t[0] == '-' || t[0] == '+') then t[1..] else t;
    if d != [] && AllDigits(d) then
      var v: int := DigitsValue(d);
      Some(if neg then -v else v)
    else None
  }

  datatype Num = Num(value: int) | Invalid | TooSmall | TooLarge

  /** strtonum(s, lo, hi): the number and a null errstr, or one of the
      three errors (the returned number is then 0). */
  function StrToNum(s: seq<char>, lo: int, hi: int): (r: Num)
    ensures r.Num? ==> lo <= r.value <= hi
    ensures r.Num? <==> lo <= hi && Strtoll(s).Some? && lo <= Strtoll(s).value <= hi
    ensures r.Num? ==> r.value == Strtoll(s).value
  {
    if lo > hi then Invalid
    else match Strtoll(s)
      case None => Invalid
      case Some(v) => if v < lo then TooSmall else if v > hi then TooLarge else Num(v)
  }

  /** The value strtonum returns: the number, or 0 when errstr is set. */
  function Returned(r: Num): int
  {
    if r.Num? then r.value else 0
  }

  /** The decimal spelling of n, without leading zeros. */
  function Decimal(n: nat): (d: seq<char>)
    ensures d != [] && AllDigits(d)
    decreases n
  {
    var last := (n % 10 + '0' as int) as char;
    if n < 10 then [last] else Decimal(n / 10) + [last]
  }

  lemma {:induction false} DecimalValue(n: nat)
    ensures DigitsValue(Decimal(n)) == n
    decreases n
  {
    var d := Decimal(n);
    if n >= 10 {
      assert d[..|d| - 1] == Decimal(n / 10);
      DecimalValue(n / 10);
    }
  }

  /** A bare run of digits is read as its value. */
  lemma StrtollDigits(d: seq<char>)
    requires d != [] && AllDigits(d)
    ensures Strtoll(d) == Some(DigitsValue(d))
  {
    assert !IsCSpace(d[0]) && d[0] != '-' && d[0] != '+';
    assert SkipCSpace(d) == d;
  }

  /** Every value in [lo, hi] written in decimal is read back by strtonum. */
  lemma DecimalRoundTrip(n: nat, lo: int, hi: int)
    requires lo <= n <= hi
    ensures StrToNum(Decimal(n), lo, hi) == Num(n)
  {
    DecimalValue(n);
    StrtollDigits(Decimal(n));
  }

  /** A string holding anything but white space, one sign and digits is refused. */
  lemma NonNumericInvalid(s: seq<char>, k: nat, lo: int, hi: int)
    requires 0 < k < |s| && !IsDigit(s[k])
    requires forall i :: 0 <= i < k ==> !IsCSpace(s[i])
    ensures StrToNum(s, lo, hi) == Invalid
  {
    assert SkipCSpace(s) == s;
  }
}
