/** Numbers written out in decimal. */
module DecimalStrings {
  import opened Sequences

  const DIGITS := "0123456789"

  predicate Digits(s: string) {
    forall k :: 0 <= k < |s| ==> s[k] in DIGITS
  }

  function Natural(n: nat): string {
    (if n < 10 then "" else Natural(n / 10)) + [DIGITS[n % 10]]
  }

  /** What `%d` prints. */
  function Dec(n: int): string {
    if n < 0 then "-" + Natural(-n) else Natural(n)
  }

  function DigitValue(c: char): nat {
    if c in DIGITS then c as nat - '0' as nat else 0
  }

  /** Reading digits. */
  function Value(s: string): nat {
    if s == "" then 0 else Value(Init(s)) * 10 + DigitValue(Last(s))
  }

  lemma DigitOf(d: nat)
    requires d < 10
    ensures DIGITS[d] in DIGITS && DigitValue(DIGITS[d]) == d
  {
    assert DIGITS == ['0', '1', '2', '3', '4', '5', '6', '7', '8', '9'];
  }

  /** Reading what was written gives the number back. */
  lemma {:induction false} NaturalReads(n: nat)
    ensures Natural(n) != "" && Digits(Natural(n)) && Value(Natural(n)) == n
  {
    var s := Natural(n);
    DigitOf(n % 10);
    if n < 10 {
      assert Init(s) == "";
    } else {
      NaturalReads(n / 10);
      assert Init(s) == Natural(n / 10);
    }
  }

  /** A number is never written as nothing, and neither with a separator. */
  lemma DecPlain(n: int)
    ensures Dec(n) != "" && forall c :: c in Dec(n) ==> c in DIGITS || c == '-'
  {
    NaturalReads(if n < 0 then -n else n);
    assert forall c :: c in Natural(if n < 0 then -n else n) ==> c in DIGITS;
  }

  function Read(s: string): int {
    if s != "" && s[0] == '-' then -(Value(s[1..]) as int) else Value(s)
  }

  lemma DecReads(n: int)
    ensures Read(Dec(n)) == n
  {
    hide Natural, Value;
    if n < 0 {
      NaturalReads(-n);
      assert Dec(n)[1..] == Natural(-n);
    } else {
      NaturalReads(n);
      assert Natural(n)[0] in DIGITS;
    }
  }

  /** Different numbers are written differently. */
  lemma DecInjective(m: int, n: int)
    ensures Dec(m) == Dec(n) <==> m == n
  {
    hide Dec, Read;
    DecReads(m);
    DecReads(n);
  }
}
