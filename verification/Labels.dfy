/** Label names: a prefix ending in an underscore and the label counter in decimal
    (src/compiler/Compiler.cpp:117-124, 157-160, 203-204). */
module Labels {

  const LOOP_START: string := ".lstart_"
  const LOOP_END: string := ".lend_"
  const LOOP_CONDITION: string := ".lcond_"
  const ELSE: string := ".else_"
  const END_CONDITIONAL: string := ".end_cond_"
  const CATCH: string := ".catch_"
  const FINALLY: string := ".finally_"

  function Digit(d: nat): char
    requires d < 10
  {
    "0123456789"[d]
  }

  function Decimal(n: nat): string {
    if n < 10 then [Digit(n)] else Decimal(n / 10) + [Digit(n % 10)]
  }

  predicate IsDigit(c: char) { '0' <= c <= '9' }

  lemma {:induction false} DecimalDigits(n: nat)
    ensures |Decimal(n)| > 0 && forall k :: 0 <= k < |Decimal(n)| ==> IsDigit(Decimal(n)[k])
  {
    if n >= 10 {
      DecimalDigits(n / 10);
    }
  }

  lemma {:induction false} DecimalInjective(m: nat, n: nat)
    requires Decimal(m) == Decimal(n)
    ensures m == n
  {
    var s := Decimal(m);
    assert Digit(m % 10) == s[|s| - 1] == Digit(n % 10);
    assert m % 10 == n % 10;
    DecimalDigits(m / 10);
    DecimalDigits(n / 10);
    if m >= 10 && n >= 10 {
      assert Decimal(m / 10) == s[..|s| - 1] == Decimal(n / 10);
      DecimalInjective(m / 10, n / 10);
    }
  }

  predicate IsPrefix(a: string) { a != [] && a[0] == '.' && a[|a| - 1] == '_' }

  function Tag(a: string, n: nat): string { a + Decimal(n) }

  /** A label's counter starts after its last underscore. */
  lemma TagShape(a: string, n: nat)
    requires IsPrefix(a)
    ensures Tag(a, n)[|a| - 1] == '_' && forall k :: |a| <= k < |Tag(a, n)| ==> IsDigit(Tag(a, n)[k])
  {
    DecimalDigits(n);
  }

  /** Labels made from different counter values differ, whatever their prefixes. */
  lemma TagInjective(a: string, m: nat, b: string, n: nat)
    requires IsPrefix(a) && IsPrefix(b) && Tag(a, m) == Tag(b, n)
    ensures m == n
  {
    TagShape(a, m);
    TagShape(b, n);
    assert |a| == |b|;
    assert Decimal(m) == Tag(a, m)[|a|..] == Decimal(n);
    DecimalInjective(m, n);
  }
}
