/** Decimal integers: `std::stoi` as the extraction uses it to read integer
    fields of the report, and the decimal form `ostream << n` prints for the
    integers of the header. */
module Numbers {
  import opened Text

  const IntMin: int := -0x8000_0000
  const IntMax: int := 0x7FFF_FFFF

  predicate InIntRange(v: int) {
    IntMin <= v <= IntMax
  }

  /** Leading white space, which `std::stoi` skips. */
  function SkipSpaces(s: string): (r: string)
    ensures |r| <= |s| && r == s[|s| - |r|..]
    ensures r == [] || !IsSpace(r[0])
    ensures AllSpaces(s[..|s| - |r|])
  {
    if |s| > 0 && IsSpace(s[0]) then
      var r := SkipSpaces(s[1..]);
      assert s[1..][..|s| - 1 - |r|] == s[1..|s| - |r|];
      r
    else s
  }

  /** The longest prefix of ASCII digits. */
  function DigitRun(s: string): (d: string)
    ensures |d| <= |s| && AllDigits(d) && d == s[..|d|]
    ensures |d| == |s| || !IsDigit(s[|d|])
  {
    if |s| > 0 && IsDigit(s[0]) then
      var r := DigitRun(s[1..]);
      assert s[..|r| + 1] == [s[0]] + s[1..][..|r|];
      [s[0]] + r
    else []
  }

  /** The value of a string of digits. */
  function DecValue(d: string): nat
    requires AllDigits(d)
  {
    if d == [] then 0 else DecValue(d[..|d| - 1]) * 10 + DigitValue(d[|d| - 1])
  }

  /** `std::stoi(s)` in base 10: white space, an optional sign, at least one
      digit, anything after the digits ignored. `None` is the exception it
      throws: `invalid_argument` when there is no digit, `out_of_range` when
      the value does not fit an `int`. */
  function StoI(s: string): (r: Option<int>)
    ensures r.Some? ==> InIntRange(r.value)
  {
    var t := SkipSpaces(s);
    var neg := |t| > 0 && t[0] == '-';
    var u := if |t| > 0 && (t[0] == '-' || t[0] == '+') then t[1..] else t;
    var d := DigitRun(u);
    if d == [] then None
    else
      var v := if neg then -(DecValue(d) as int) else DecValue(d) as int;
      if InIntRange(v) then Some(v) else None
  }

  /** Digits of a natural number, most significant first. */
  function NatDigits(n: nat): (d: string)
    ensures |d| > 0 && AllDigits(d)
  {
    if n < 10 then [DigitChar(n)] else NatDigits(n / 10) + [DigitChar(n % 10)]
  }

  /** What `ostream << n` prints for an integer. */
  function Decimal(n: int): string {
    if n < 0 then "-" + NatDigits(-n) else NatDigits(n)
  }

  lemma {:induction false} DecValueNatDigits(n: nat)
    ensures DecValue(NatDigits(n)) == n
  {
    if n >= 10 {
      var d := NatDigits(n);
      assert d[..|d| - 1] == NatDigits(n / 10);
      DecValueNatDigits(n / 10);
    }
  }

  lemma {:induction false} DigitRunAll(d: string)
    requires AllDigits(d)
    ensures DigitRun(d) == d
  {
    if d != [] {
      DigitRunAll(d[1..]);
      assert [d[0]] + d[1..] == d;
    }
  }

  /** Reading a printed integer back with `std::stoi` gives it again. */
  lemma StoIDecimal(n: int)
    requires InIntRange(n)
    ensures StoI(Decimal(n)) == Some(n)
  {
    var s := Decimal(n);
    var m: nat := if n < 0 then -n else n;
    DecValueNatDigits(m);
    DigitRunAll(NatDigits(m));
    assert !IsSpace(s[0]);
    if n < 0 {
      assert s[1..] == NatDigits(m);
    } else {
      assert s[0] != '-' && s[0] != '+';
    }
  }

  /** `std::stoi` of an empty string throws. */
  lemma StoIEmpty()
    ensures StoI("") == None
  {
  }
}
