/** Sizes as text (rclone_tuning.py): decimal numbers with a binary unit, parsed and printed. */
module SizeText {
  import opened Options

  const KIB := 1024
  const MIB := 1024 * KIB
  const GIB := 1024 * MIB
  const TIB := 1024 * GIB

  predicate Digit(c: char) {
    '0' <= c <= '9'
  }

  function Decimal(n: nat): (s: string)
    ensures s != "" && forall i :: 0 <= i < |s| ==> Digit(s[i])
  {
    (if n < 10 then "" else Decimal(n / 10)) + ['0' + (n % 10) as char]
  }

  function Number(s: string): nat
    requires forall i :: 0 <= i < |s| ==> Digit(s[i])
  {
    if s == "" then 0
    else
      assert Digit(s[|s| - 1]);
      10 * Number(s[..|s| - 1]) + (s[|s| - 1] as int - '0' as int)
  }

  lemma {:induction false} NumberDecimal(n: nat)
    ensures Number(Decimal(n)) == n
  {
    var s := Decimal(n);
    if n >= 10 {
      NumberDecimal(n / 10);
      assert s[..|s| - 1] == Decimal(n / 10);
    } else {
      assert s[..|s| - 1] == "";
    }
  }

  function Power(k: nat): nat {
    if k == 0 then 1 else 10 * Power(k - 1)
  }

  /** A number has at most k digits exactly if it is below the k-th power of ten. */
  lemma {:induction false} DecimalLength(n: nat, k: nat)
    requires k > 0
    ensures |Decimal(n)| <= k <==> n < Power(k)
  {
    if n >= 10 && k > 1 {
      DecimalLength(n / 10, k - 1);
    } else if n < 10 {
      assert |Decimal(n)| == 1;
      PowerGrows(k);
    }
  }

  lemma {:induction false} PowerGrows(k: nat)
    requires k > 0
    ensures Power(k) >= 10
  {
    if k > 1 { PowerGrows(k - 1); }
  }

  /** The digits at the start. */
  function DigitRun(s: string): (n: nat)
    ensures n <= |s| && forall i :: 0 <= i < n ==> Digit(s[i])
    ensures n < |s| ==> !Digit(s[n])
  {
    if s == "" || !Digit(s[0]) then 0 else 1 + DigitRun(s[1..])
  }

  function Upper(c: char): char {
    if 'a' <= c <= 'z' then c - ' ' else c
  }

  function Multiplier(letter: char): Option<nat> {
    match letter
    case 'K' => Some(KIB)
    case 'M' => Some(MIB)
    case 'G' => Some(GIB)
    case 'T' => Some(TIB)
    case 'P' => Some(1024 * TIB)
    case _ => None
  }

  /** The bytes of a unit: B, or a letter with i, B or iB after it, in any case. */
  function Unit(s: string): Option<nat> {
    if |s| == 1 && Upper(s[0]) == 'B' then Some(1)
    else if |s| == 1 || (|s| == 2 && Upper(s[1]) in "IB") || (|s| == 3 && Upper(s[1]) == 'I' && Upper(s[2]) == 'B') then
      Multiplier(Upper(s[0]))
    else None
  }

  /** How a unit is written after its letter. */
  predicate UnitEnd(end: string) {
    end in ["", "I", "i", "B", "b", "IB", "Ib", "iB", "ib"]
  }

  function BytesOf(letter: char): nat {
    if letter in "Bb" then 1
    else if letter in "Kk" then 1024
    else if letter in "Mm" then 1048576
    else if letter in "Gg" then 1073741824
    else if letter in "Tt" then 1099511627776
    else 1125899906842624
  }

  /** Which texts are units, and of how many bytes. */
  lemma UnitMeans(s: string)
    ensures s == "" ==> Unit(s) == None
    ensures s != "" && (if s[0] in "Bb" then |s| == 1 else s[0] in "KkMmGgTtPp" && UnitEnd(s[1..])) ==>
      Unit(s) == Some(BytesOf(s[0]))
    ensures s != "" && !(if s[0] in "Bb" then |s| == 1 else s[0] in "KkMmGgTtPp" && UnitEnd(s[1..])) ==> Unit(s) == None
  {
    if |s| == 1 { assert s[1..] == ""; }
    if |s| == 2 { assert s[1..] == [s[1]]; }
    if |s| == 3 { assert s[1..] == [s[1], s[2]]; }
  }

  /** parse_size: at most 7 digits, a fraction of at most 3, and a unit. */
  function ParseSize(s: string): Option<nat> {
    var n := DigitRun(s);
    if !(1 <= n <= 7) then None
    else if n < |s| && s[n] == '.' then
      var f := DigitRun(s[n+1..]);
      var unit := Unit(s[n+1..][f..]);
      if !(1 <= f <= 3) || unit.None? then None
      else Some(Number(s[..n]) * unit.value + Fraction(s[n+1..][..f], unit.value))
    else
      var unit := Unit(s[n..]);
      if unit.None? then None else Some(Number(s[..n]) * unit.value)
  }

  function Quotient(n: nat, d: nat): nat
    requires d > 0
  {
    n / d
  }

  function Fraction(digits: string, unit: nat): nat
    requires forall i :: 0 <= i < |digits| ==> Digit(digits[i])
  {
    PowerPositive(|digits|);
    Quotient(Number(digits) * unit, Power(|digits|))
  }

  lemma {:induction false} PowerPositive(k: nat)
    ensures Power(k) > 0
  {
    if k > 0 { PowerPositive(k - 1); }
  }

  /** The units that format_size tries, and what remains. */
  const UNITS: seq<(string, nat)> := [("Ti", TIB), ("Gi", GIB), ("Mi", MIB), ("Ki", KIB)]

  /** The printed number and its unit. */
  function Printed(size: nat): (string, nat) {
    if size >= TIB && size % TIB == 0 then ("Ti", TIB)
    else if size >= GIB && size % GIB == 0 then ("Gi", GIB)
    else if size >= MIB && size % MIB == 0 then ("Mi", MIB)
    else if size >= KIB && size % KIB == 0 then ("Ki", KIB)
    else ("B", 1)
  }

  function FormatSize(size: nat): string {
    Decimal(size / Printed(size).1) + Printed(size).0
  }

  method PrintSize(size: nat) returns (s: string)
    ensures s == FormatSize(size)
  {
    var k := 0;
    while k < |UNITS|
      invariant 0 <= k <= |UNITS|
      invariant forall j :: 0 <= j < k ==> !(size >= UNITS[j].1 && size % UNITS[j].1 == 0)
    {
      var (suffix, unit) := UNITS[k];
      if size >= unit && size % unit == 0 {
        assert k > 0 ==> !(size >= UNITS[0].1 && size % UNITS[0].1 == 0);
        assert k > 1 ==> !(size >= UNITS[1].1 && size % UNITS[1].1 == 0);
        assert k > 2 ==> !(size >= UNITS[2].1 && size % UNITS[2].1 == 0);
        return Decimal(size / unit) + suffix;
      }
      k := k + 1;
    }
    assert UNITS[0].1 == TIB && UNITS[1].1 == GIB && UNITS[2].1 == MIB && UNITS[3].1 == KIB;
    assert size / 1 == size;
    return Decimal(size) + "B";
  }

  lemma {:induction false} RunOf(digits: string, rest: string)
    requires forall i :: 0 <= i < |digits| ==> Digit(digits[i])
    requires rest != "" && !Digit(rest[0])
    ensures DigitRun(digits + rest) == |digits|
  {
    if digits == "" {
      assert digits + rest == rest;
    } else {
      RunOf(digits[1..], rest);
      assert (digits + rest)[1..] == digits[1..] + rest;
    }
  }

  lemma UnitPrinted(size: nat)
    ensures var (suffix, unit) := Printed(size);
      && suffix != "" && !Digit(suffix[0]) && suffix[0] != '.' && Unit(suffix) == Some(unit)
      && unit > 0 && size % unit == 0
  {
  }

  predicate Digits(s: string) {
    forall i :: 0 <= i < |s| ==> Digit(s[i])
  }

  /** A size as it may be written: up to 7 digits, perhaps a point and up to 3 digits, and a unit. */
  predicate Written(s: string, digits: string, fraction: string, unit: string) {
    && Digits(digits) && 1 <= |digits| <= 7 && Digits(fraction) && |fraction| <= 3 && Unit(unit).Some?
    && s == digits + (if fraction == "" then "" else "." + fraction) + unit
  }

  lemma UnitBegins(unit: string)
    requires Unit(unit).Some?
    ensures unit != "" && !Digit(unit[0]) && unit[0] != '.'
  {
  }

  /** Its value: the number times the unit, and the fraction of a unit rounded down to whole bytes. */
  lemma ParsesWritten(s: string, digits: string, fraction: string, unit: string)
    requires Written(s, digits, fraction, unit)
    ensures var u := Unit(unit).value;
      ParseSize(s) == Some(Number(digits) * u + if fraction == "" then 0 else Fraction(fraction, u))
  {
    hide ParseSize, Unit, Number, Fraction, UnitEnd;
    UnitBegins(unit);
    if fraction == "" {
      WithoutPoint(digits, unit);
      ParsesWhole(digits, unit);
    } else {
      WithPoint(digits, fraction, unit);
      ParsesFraction(digits, fraction, unit);
    }
  }

  lemma WithoutPoint(digits: string, unit: string)
    ensures digits + "" + unit == digits + unit
    ensures (digits + unit)[..|digits|] == digits && (digits + unit)[|digits|..] == unit
  {
  }

  lemma WithPoint(digits: string, fraction: string, unit: string)
    ensures var rest := "." + (fraction + unit); var s := digits + rest;
      && digits + ("." + fraction) + unit == s && s[..|digits|] == digits && s[|digits|] == '.'
      && s[|digits| + 1..] == fraction + unit
  {
  }

  lemma ParsesWhole(digits: string, unit: string)
    requires Digits(digits) && 1 <= |digits| <= 7 && Unit(unit).Some? && unit != "" && !Digit(unit[0]) && unit[0] != '.'
    ensures ParseSize(digits + unit) == Some(Number(digits) * Unit(unit).value)
  {
    hide Unit, Number, Fraction, DigitRun;
    RunOf(digits, unit);
    WithoutPoint(digits, unit);
  }

  lemma ParsesFraction(digits: string, fraction: string, unit: string)
    requires Digits(digits) && 1 <= |digits| <= 7 && Digits(fraction) && 1 <= |fraction| <= 3
    requires Unit(unit).Some? && unit != "" && !Digit(unit[0])
    ensures ParseSize(digits + ("." + (fraction + unit))) ==
      Some(Number(digits) * Unit(unit).value + Fraction(fraction, Unit(unit).value))
  {
    hide Unit, Number, Fraction, DigitRun, ParseSize;
    RunOf(digits, "." + (fraction + unit));
    RunOf(fraction, unit);
    WithPoint(digits, fraction, unit);
    WithoutPoint(fraction, unit);
    var s := digits + ("." + (fraction + unit));
    assert DigitRun(s) == |digits| && DigitRun(s[|digits| + 1..]) == |fraction|;
    PointIs(s, |digits|, |fraction|);
  }

  lemma PointIs(s: string, n: nat, f: nat)
    requires n == DigitRun(s) && 1 <= n <= 7 && n < |s| && s[n] == '.' && f == DigitRun(s[n+1..]) && 1 <= f <= 3
    requires Unit(s[n+1..][f..]).Some?
    ensures var unit := Unit(s[n+1..][f..]).value;
      ParseSize(s) == Some(Number(s[..n]) * unit + Fraction(s[n+1..][..f], unit))
  {
    hide Unit, Number, Fraction, DigitRun;
  }

  lemma FractionMeans(fraction: string, unit: nat)
    requires Digits(fraction)
    ensures |fraction| == 1 ==> Fraction(fraction, unit) == Quotient(Number(fraction) * unit, 10)
    ensures |fraction| == 2 ==> Fraction(fraction, unit) == Quotient(Number(fraction) * unit, 100)
    ensures |fraction| == 3 ==> Fraction(fraction, unit) == Quotient(Number(fraction) * unit, 1000)
  {
    hide Number, Quotient;
    assert Power(1) == 10 && Power(2) == 100 && Power(3) == 1000;
  }

  /** Nothing else parses. */
  lemma ParsedIsWritten(s: string) returns (digits: string, fraction: string, unit: string)
    requires ParseSize(s).Some?
    ensures Written(s, digits, fraction, unit)
  {
    hide Unit, Number, Fraction, DigitRun;
    var n := DigitRun(s);
    digits := s[..n];
    if n < |s| && s[n] == '.' {
      var f := DigitRun(s[n+1..]);
      fraction, unit := s[n+1..][..f], s[n+1..][f..];
      CutAtPoint(s, n, f);
    } else {
      fraction, unit := "", s[n..];
      CutAt(s, n);
    }
  }

  lemma CutAt(s: string, n: nat)
    requires n <= |s|
    ensures s == s[..n] + "" + s[n..]
  {
  }

  lemma CutAtPoint(s: string, n: nat, f: nat)
    requires n < |s| && s[n] == '.' && f <= |s| - n - 1
    ensures s == s[..n] + ("." + s[n+1..][..f]) + s[n+1..][f..]
  {
  }

  /** The unit printed is the largest that divides the size. */
  lemma PrintsLargest(size: nat)
    ensures Printed(size) == ("Ti", 1099511627776) <==> size % 1099511627776 == 0 && size > 0
    ensures Printed(size) == ("Gi", 1073741824) <==> size % 1073741824 == 0 && size % 1099511627776 != 0
    ensures Printed(size) == ("Mi", 1048576) <==> size % 1048576 == 0 && size % 1073741824 != 0
    ensures Printed(size) == ("Ki", 1024) <==> size % 1024 == 0 && size % 1048576 != 0
    ensures Printed(size) == ("B", 1) <==> size == 0 || size % 1024 != 0
  {
    TiIsGi(size);
    GiIsMi(size);
    MiIsKi(size);
  }

  lemma TiIsGi(size: nat)
    ensures size % 1099511627776 == 0 ==> size % 1073741824 == 0
  {
    var n := size / 1099511627776;
    if size % 1099511627776 == 0 { assert size == 1073741824 * (1024 * n); }
  }

  lemma GiIsMi(size: nat)
    ensures size % 1073741824 == 0 ==> size % 1048576 == 0
  {
    var n := size / 1073741824;
    if size % 1073741824 == 0 { assert size == 1048576 * (1024 * n); }
  }

  lemma MiIsKi(size: nat)
    ensures size % 1048576 == 0 ==> size % 1024 == 0
  {
    var n := size / 1048576;
    if size % 1048576 == 0 { assert size == 1024 * (1024 * n); }
  }

  /**
   A printed size parses back to itself exactly if the printed number has at most 7 digits;
   otherwise it does not parse at all.
   */
  lemma ParseFormat(size: nat)
    ensures ParseSize(FormatSize(size)) ==
      if size / Printed(size).1 < 10_000_000 then Some(size) else None
  {
    var (suffix, unit) := Printed(size);
    var m := size / unit;
    var s := Decimal(m) + suffix;
    UnitPrinted(size);
    RunOf(Decimal(m), suffix);
    NumberDecimal(m);
    DecimalLength(m, 7);
    assert Power(7) == 10_000_000;
    assert s[|Decimal(m)|..] == suffix && s[..|Decimal(m)|] == Decimal(m);
    DivExact(size, unit);
  }

  lemma DivExact(size: nat, unit: nat)
    requires unit > 0 && size % unit == 0
    ensures (size / unit) * unit == size
  {
  }

  /** 64 MiB and one byte prints as it must, and does not parse. */
  lemma OneByteTooMany()
    ensures FormatSize(67108865) == Decimal(67108865) + "B" && ParseSize(FormatSize(67108865)) == None
  {
    ParseFormat(67108865);
    OddSize();
    hide ParseSize, Decimal, Printed;
    assert 67108865 / 1 == 67108865;
  }

  lemma OddSize()
    ensures Printed(67108865) == ("B", 1)
  {
    assert 67108865 == 65536 * KIB + 1;
    assert 67108865 % KIB == 1;
  }
}
