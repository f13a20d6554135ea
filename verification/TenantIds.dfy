/** The literal a tenant id becomes (security/rewriter.py). */
module TenantIds {
  import opened Values

  predicate IsDigits(s: string) {
    |s| != 0 && forall i :: 0 <= i < |s| ==> '0' <= s[i] <= '9'
  }

  function DigitsValue(s: string): nat
    requires forall i :: 0 <= i < |s| ==> '0' <= s[i] <= '9'
  {
    if |s| == 0 then 0 else 10 * DigitsValue(s[..|s| - 1]) + (s[|s| - 1] - '0') as int
  }

  /** The typed literal node for a tenant id. */
  function TenantLiteral(id: string): Value {
    if IsDigits(id) then Number(DigitsValue(id)) else Text(id)
  }

  // ----- numbers as they are written -----

  const DIGITS: string := "0123456789"

  function Decimal(n: nat): string {
    if n < 10 then [DIGITS[n]] else Decimal(n / 10) + [DIGITS[n % 10]]
  }

  /** Leading zeros dropped, but for a last digit. */
  function WithoutZeros(s: string): string {
    if |s| > 1 && s[0] == '0' then WithoutZeros(s[1..]) else s
  }

  lemma DigitOf(c: char)
    requires '0' <= c <= '9'
    ensures (c - '0') as int < 10 && DIGITS[(c - '0') as int] == c
  {
    assert c == '0' || c == '1' || c == '2' || c == '3' || c == '4' || c == '5' || c == '6' || c == '7' || c == '8' ||
           c == '9';
  }

  lemma ValueOfDigit(d: nat)
    requires d < 10
    ensures '0' <= DIGITS[d] <= '9' && (DIGITS[d] - '0') as int == d
  {
    assert d == 0 || d == 1 || d == 2 || d == 3 || d == 4 || d == 5 || d == 6 || d == 7 || d == 8 || d == 9;
  }

  lemma {:induction false} WithoutZerosSnoc(s: string, c: char)
    requires |s| != 0
    ensures WithoutZeros(s + [c]) == if WithoutZeros(s) == "0" then [c] else WithoutZeros(s) + [c]
  {
    if |s| == 1 {
      assert (s + [c])[1..] == [c];
      assert s == [s[0]];
    } else {
      assert (s + [c])[1..] == s[1..] + [c];
      WithoutZerosSnoc(s[1..], c);
    }
  }

  lemma {:induction false} OneDigitIsZero(v: nat)
    requires v != 0
    ensures Decimal(v) != "0"
  {
    if v < 10 {
      ValueOfDigit(v);
    } else {
      assert |Decimal(v / 10)| != 0;
    }
  }

  lemma {:induction false} AppendDigit(v: nat, d: nat)
    requires d < 10
    ensures Decimal(10 * v + d) == if Decimal(v) == "0" then [DIGITS[d]] else Decimal(v) + [DIGITS[d]]
  {
    if v == 0 {
      assert Decimal(0) == "0";
    } else {
      OneDigitIsZero(v);
      assert (10 * v + d) / 10 == v && (10 * v + d) % 10 == d;
    }
  }

  /** Written out again, the value of digits is the digits without leading zeros. */
  lemma {:induction false} WrittenDigits(s: string)
    requires |s| != 0 && forall i :: 0 <= i < |s| ==> '0' <= s[i] <= '9'
    ensures Decimal(DigitsValue(s)) == WithoutZeros(s)
  {
    var before, last := s[..|s| - 1], s[|s| - 1];
    DigitOf(last);
    if |s| == 1 {
      assert DigitsValue(before) == 0 && s == [last];
    } else {
      WrittenDigits(before);
      assert s == before + [last];
      WithoutZerosSnoc(before, last);
      AppendDigit(DigitsValue(before), (last - '0') as int);
    }
  }

  /** Reading what was written gives the number back. */
  lemma {:induction false} ReadDecimal(n: nat)
    ensures IsDigits(Decimal(n)) && DigitsValue(Decimal(n)) == n
  {
    ValueOfDigit(n % 10);
    if n < 10 {
      assert Decimal(n)[..0] == "";
    } else {
      var s := Decimal(n);
      ReadDecimal(n / 10);
      assert s[..|s| - 1] == Decimal(n / 10) && s[|s| - 1] == DIGITS[n % 10];
    }
  }

  // ----- which literal an id gets -----

  /** An id of digits becomes the number that is written like it, leading zeros aside; any other id becomes
      the text it is. */
  lemma {:induction false} LiteralExactly(id: string)
    ensures |id| != 0 && (forall i :: 0 <= i < |id| ==> id[i] in "0123456789") ==>
      TenantLiteral(id).Number? && TenantLiteral(id).n >= 0 && Decimal(TenantLiteral(id).n) == WithoutZeros(id)
    ensures id == "" || (exists i :: 0 <= i < |id| && id[i] !in "0123456789") ==> TenantLiteral(id) == Text(id)
  {
    forall c: char
      ensures c in "0123456789" <==> '0' <= c <= '9'
    {
      if '0' <= c <= '9' {
        DigitOf(c);
      }
    }
    if IsDigits(id) {
      WrittenDigits(id);
    }
  }

  /** Ids that differ in leading zeros of a number at most. */
  predicate SameId(a: string, b: string) {
    a == b || (IsDigits(a) && IsDigits(b) && WithoutZeros(a) == WithoutZeros(b))
  }

  lemma SameLiteralExactly(a: string, b: string)
    ensures TenantLiteral(a) == TenantLiteral(b) <==> SameId(a, b)
  {
    if IsDigits(a) && IsDigits(b) {
      WrittenDigits(a);
      WrittenDigits(b);
      ReadDecimal(DigitsValue(a));
      ReadDecimal(DigitsValue(b));
    }
  }
}
