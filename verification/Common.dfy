/** Small vocabulary shared by every component: optional values, results, content fingerprints and decimal
    numbers. */
module Common {

  datatype Option<+T> = None | Some(value: T)

  datatype Result<+T, +E> = Ok(value: T) | Err(error: E)

  /** A stored fingerprint. `NoDigest` is the empty column; `Sha256` is the fingerprint of some content.
      SHA-256 is idealised: two contents have the same fingerprint only if they are equal. */
  datatype Digest = NoDigest | Sha256(content: string)

  function ContentHash(content: string): Digest {
    Sha256(content)
  }

  // ---------------------------------------------------------------------------
  // Decimal numbers
  // ---------------------------------------------------------------------------

  predicate IsDigit(c: char) {
    '0' <= c <= '9'
  }

  ghost predicate AllDigits(s: string) {
    forall i :: 0 <= i < |s| ==> IsDigit(s[i])
  }

  function DigitChar(d: nat): (c: char)
    requires d < 10
    ensures IsDigit(c) && DigitValue(c) == d
  {
    '0' + (d as char)
  }

  function DigitValue(c: char): (d: nat)
    requires IsDigit(c)
    ensures d < 10
  {
    (c as int) - ('0' as int)
  }

  /** Decimal notation without padding (`%d` of a non-negative number). */
  function Decimal(n: nat): (s: string)
    ensures |s| >= 1 && AllDigits(s)
  {
    if n < 10 then [DigitChar(n)] else Decimal(n / 10) + [DigitChar(n % 10)]
  }

  /** The digits are the usual ones, the most significant first. */
  lemma DecimalDigits(n: nat)
    ensures Decimal(n) == (if n < 10 then "" else Decimal(n / 10)) + ["0123456789"[n % 10]]
    ensures n > 0 ==> Decimal(n)[0] != '0'
  {
    DigitsInOrder(n % 10);
    if n >= 10 {
      DecimalDigits(n / 10);
    }
  }

  lemma DigitsInOrder(d: nat)
    requires d < 10
    ensures "0123456789"[d] == DigitChar(d)
  {
    assert d == 0 || d == 1 || d == 2 || d == 3 || d == 4 || d == 5 || d == 6 || d == 7 || d == 8 || d == 9;
  }

  /** Reads the longest run of digits at the front of `s`, continuing from `acc`. */
  function ScanDigits(acc: nat, s: string): nat
    decreases |s|
  {
    if s == "" || !IsDigit(s[0]) then acc else ScanDigits(10 * acc + DigitValue(s[0]), s[1..])
  }

  lemma {:induction false} ScanDigitsAppend(acc: nat, a: string, b: string)
    requires AllDigits(a)
    ensures ScanDigits(acc, a + b) == ScanDigits(ScanDigits(acc, a), b)
    decreases |a|
  {
    if a == "" {
      assert a + b == b;
    } else {
      assert (a + b)[1..] == a[1..] + b;
      ScanDigitsAppend(10 * acc + DigitValue(a[0]), a[1..], b);
    }
  }

  lemma {:induction false} ScanDecimal(n: nat)
    ensures ScanDigits(0, Decimal(n)) == n
  {
    if n < 10 {
      assert Decimal(n)[1..] == "";
    } else {
      ScanDecimal(n / 10);
      ScanDigitsAppend(0, Decimal(n / 10), [DigitChar(n % 10)]);
      assert [DigitChar(n % 10)][1..] == "";
    }
  }
}
