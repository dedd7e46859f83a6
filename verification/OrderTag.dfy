/** The tag that ties a broker order to the row that asked for it: "ft" and the
    row's id in decimal, cut to the twenty characters the broker keeps. */
module OrderTag {

  const TAG_LENGTH := 20
  const DIGITS := "0123456789"

  function Decimal(n: nat): (s: string)
    ensures s != []
  {
    if n < 10 then [DIGITS[n]] else Decimal(n / 10) + [DIGITS[n % 10]]
  }

  function BrokerOrderTag(id: nat): string {
    var full := "ft" + Decimal(id);
    if |full| <= TAG_LENGTH then full else full[..TAG_LENGTH]
  }

  // ---- reading the digits back ---------------------------------------------

  function DigitValue(c: char): nat {
    if '0' <= c <= '9' then (c - '0') as nat else 0
  }

  function Value(s: string): nat {
    if s == [] then 0 else 10 * Value(s[..|s| - 1]) + DigitValue(s[|s| - 1])
  }

  lemma {:induction false} ValueOfDecimal(n: nat)
    ensures Value(Decimal(n)) == n
  {
    if n < 10 {
      assert [DIGITS[n]][..0] == [];
    } else {
      var s := Decimal(n);
      assert s[..|s| - 1] == Decimal(n / 10);
      ValueOfDecimal(n / 10);
    }
  }

  function Pow10(k: nat): (p: nat)
    ensures p > 0
  {
    if k == 0 then 1 else 10 * Pow10(k - 1)
  }

  lemma {:induction false} DecimalLength(n: nat, k: nat)
    requires k > 0
    ensures |Decimal(n)| <= k <==> n < Pow10(k)
  {
    if n < 10 {
      Pow10AtLeast(k);
    } else if k == 1 {
      assert Pow10(1) == 10 * Pow10(0) == 10;
      assert |Decimal(n / 10)| >= 1;
    } else {
      DecimalLength(n / 10, k - 1);
    }
  }

  lemma {:induction false} Pow10AtLeast(k: nat)
    requires k > 0
    ensures Pow10(k) >= 10
  {
    if k > 1 {
      Pow10AtLeast(k - 1);
    } else {
      assert Pow10(1) == 10 * Pow10(0);
    }
  }

  /** The cut never bites below ten to the eighteenth, and always does above. */
  lemma TagUncutIff(id: nat)
    ensures BrokerOrderTag(id) == "ft" + Decimal(id) <==> id < Pow10(18)
  {
    DecimalLength(id, 18);
  }

  /** Below ten to the eighteenth, tags tell rows apart. */
  lemma TagsDistinct(a: nat, b: nat)
    requires a < Pow10(18) && b < Pow10(18) && BrokerOrderTag(a) == BrokerOrderTag(b)
    ensures a == b
  {
    TagUncutIff(a);
    TagUncutIff(b);
    assert Decimal(a) == ("ft" + Decimal(a))[2..] == ("ft" + Decimal(b))[2..] == Decimal(b);
    ValueOfDecimal(a);
    ValueOfDecimal(b);
  }

  lemma DecimalAppend(m: nat, d: nat)
    requires m > 0 && d < 10
    ensures Decimal(10 * m + d) == Decimal(m) + [DIGITS[d]]
  {
    var n := 10 * m + d;
    assert n / 10 == m && n % 10 == d;
  }

  lemma CutDropsLast(s: string, c: char)
    requires |s| >= 18
    ensures ("ft" + (s + [c]))[..20] == ("ft" + s)[..20]
  {
  }

  /** From there on, any two ids that differ in their last digit share a tag. */
  lemma TagsCollideBeyond(m: nat, d: nat)
    requires m >= Pow10(17) && d < 10
    ensures BrokerOrderTag(10 * m + d) == BrokerOrderTag(10 * m)
  {
    hide Pow10, Decimal;
    DecimalLength(m, 17);
    DecimalAppend(m, d);
    DecimalAppend(m, 0);
    CutDropsLast(Decimal(m), DIGITS[d]);
    CutDropsLast(Decimal(m), DIGITS[0]);
  }
}
