/** The printed form `<base>_v<NNN>` of versioned swarm objects, and how it is scanned back. */
module VersionNames {
  import opened Common

  /** `%03d`. */
  function Pad3(n: nat): (s: string)
    ensures AllDigits(s) && |s| >= 3
  {
    var d := Decimal(n);
    if |d| == 1 then "00" + d else if |d| == 2 then "0" + d else d
  }

  function VersionPrefix(base: string): string {
    base + "_v"
  }

  function VersionedName(base: string, version: nat): string {
    VersionPrefix(base) + Pad3(version)
  }

  /** `Sscanf("%d")`: an optional sign, then at least one digit; whatever follows is ignored. */
  function ScanInt(s: string): Option<int> {
    var signed := s != "" && (s[0] == '-' || s[0] == '+');
    var digits := if signed then s[1..] else s;
    if digits == "" || !IsDigit(digits[0]) then None
    else
      var magnitude: int := ScanDigits(0, digits);
      Some(if s[0] == '-' then -magnitude else magnitude)
  }

  /** The version a name carries under a base; 0 when it carries none, which the scan then ignores. */
  function VersionOf(base: string, name: string): int {
    if VersionPrefix(base) <= name then
      match ScanInt(name[|VersionPrefix(base)|..])
      case Some(v) => v
      case None => 0
    else 0
  }

  /** The name is exactly what `VersionedName` prints for the version it carries. */
  predicate Printed(base: string, name: string) {
    VersionOf(base, name) >= 1 && name == VersionedName(base, VersionOf(base, name))
  }

  lemma ScanPad3(n: nat)
    ensures ScanInt(Pad3(n)) == Some(n)
  {
    var d := Decimal(n);
    ScanDecimal(n);
    if |d| == 1 {
      ScanDigitsAppend(0, "00", d);
      assert "00"[1..] == "0" && "0"[1..] == "";
    } else if |d| == 2 {
      ScanDigitsAppend(0, "0", d);
      assert "0"[1..] == "";
    }
  }

  /** Printing then scanning a version gives it back, so distinct versions of a base have distinct names. */
  lemma ScanPrinted(base: string, version: nat)
    ensures VersionOf(base, VersionedName(base, version)) == version
  {
    var name := VersionedName(base, version);
    assert name[|VersionPrefix(base)|..] == Pad3(version);
    ScanPad3(version);
  }

  lemma {:induction false} ScanZeros(zeros: string, s: string)
    requires forall i :: 0 <= i < |zeros| ==> zeros[i] == '0'
    ensures ScanDigits(0, zeros + s) == ScanDigits(0, s)
  {
    if zeros == "" {
      assert zeros + s == s;
    } else {
      assert (zeros + s)[1..] == zeros[1..] + s;
      ScanZeros(zeros[1..], s);
    }
  }

  lemma NumberForm(zeros: string, n: nat, rest: string)
    requires (forall i :: 0 <= i < |zeros| ==> zeros[i] == '0') && (rest == "" || !IsDigit(rest[0]))
    ensures var digits := zeros + Decimal(n) + rest; IsDigit(digits[0]) && ScanDigits(0, digits) == n
  {
    assert zeros + Decimal(n) + rest == zeros + (Decimal(n) + rest);
    ScanZeros(zeros, Decimal(n) + rest);
    ScanDigitsAppend(0, Decimal(n), rest);
    ScanDecimal(n);
  }

  /** How a name is read behind its prefix: a number, with or without a sign and zeros in front, whatever comes behind it;
      without a digit there, or behind a sign there, it carries no version. */
  lemma ScanForms(base: string, sign: string, zeros: string, n: nat, rest: string)
    requires sign == "" || sign == "+" || sign == "-"
    requires (forall i :: 0 <= i < |zeros| ==> zeros[i] == '0') && (rest == "" || !('0' <= rest[0] <= '9'))
    ensures VersionOf(base, base + "_v" + (sign + (zeros + Decimal(n) + rest))) == (if sign == "-" then 0 - n else n)
    ensures sign != "" || rest == "" || (rest[0] != '+' && rest[0] != '-') ==> VersionOf(base, base + "_v" + (sign + rest)) == 0
  {
    var digits := zeros + Decimal(n) + rest;
    NumberForm(zeros, n, rest);
    Behind(base, sign + digits);
    Behind(base, sign + rest);
    hide ScanDigits, VersionOf;
    if sign == "" {
      assert sign + digits == digits && sign + rest == rest;
    } else {
      assert (sign + digits)[1..] == digits && (sign + rest)[1..] == rest;
    }
  }

  lemma Behind(base: string, s: string)
    ensures VersionOf(base, base + "_v" + s) == match ScanInt(s) case Some(v) => v case None => 0
  {
    assert (base + "_v" + s)[|VersionPrefix(base)|..] == s;
  }

  /** What a version's name looks like: three digits at least. */
  lemma PrintedForm(base: string, version: nat)
    ensures VersionedName(base, version) ==
      base + (if version < 10 then "_v00" else if version < 100 then "_v0" else "_v") + Decimal(version)
  {
    DecimalLength(version);
    assert "_v" + "00" == "_v00" && "_v" + "0" == "_v0";
    var d := Decimal(version);
    assert base + "_v" + ("00" + d) == base + ("_v" + "00") + d;
    assert base + "_v" + ("0" + d) == base + ("_v" + "0") + d;
  }

  lemma DecimalLength(n: nat)
    ensures |Decimal(n)| == 1 <==> n < 10
    ensures |Decimal(n)| == 2 <==> 10 <= n < 100
  {
    assert n >= 10 ==> Decimal(n) == Decimal(n / 10) + [DigitChar(n % 10)];
    assert n >= 100 ==> Decimal(n / 10) == Decimal(n / 10 / 10) + [DigitChar(n / 10 % 10)];
  }

  /** Two bases whose version prefixes do not extend one another. */
  predicate Apart(a: string, b: string) {
    !(VersionPrefix(a) <= VersionPrefix(b)) && !(VersionPrefix(b) <= VersionPrefix(a))
  }

  lemma PrefixesOfOneName(p: string, q: string, name: string)
    requires p <= name && q <= name
    ensures p <= q || q <= p
  {
    assert p == name[..|p|] && q == name[..|q|];
    if |p| <= |q| {
      assert q[..|p|] == p;
    } else {
      assert p[..|q|] == q;
    }
  }

  /** No name carries the prefixes of two bases that are apart. */
  lemma ApartNames(a: string, b: string, name: string)
    requires Apart(a, b) && VersionPrefix(a) <= name
    ensures !(VersionPrefix(b) <= name)
  {
    if VersionPrefix(b) <= name {
      PrefixesOfOneName(VersionPrefix(a), VersionPrefix(b), name);
    }
  }

  lemma UnderscoreAnchorsPrefix(x: string, y: string)
    requires '_' !in x && '_' !in y && VersionPrefix(x) <= VersionPrefix(y)
    ensures x == y
  {
    var p, q := VersionPrefix(x), VersionPrefix(y);
    assert q[|x|] == p[|x|] == '_';
    assert forall i :: 0 <= i < |y| ==> q[i] == y[i];
    assert |y| <= |x|;
    assert q[|y|] == '_';
    assert forall i :: 0 <= i < |x| ==> q[i] == p[i] == x[i];
    assert x == q[..|x|] == y;
  }

  /** Distinct bases without an underscore are apart, whatever else they contain. */
  lemma UnderscoreFreeApart(a: string, b: string)
    requires '_' !in a && '_' !in b && a != b
    ensures Apart(a, b)
  {
    if VersionPrefix(a) <= VersionPrefix(b) {
      UnderscoreAnchorsPrefix(a, b);
    }
    if VersionPrefix(b) <= VersionPrefix(a) {
      UnderscoreAnchorsPrefix(b, a);
    }
  }
}
