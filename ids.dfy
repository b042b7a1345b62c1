/** Record identifiers. Prisma hands out opaque string ids; the in-memory store
    mints them as decimal numerals from a counter, so a fresh id is one whose
    number is not below the counter. */
module Ids {

  type Id = string

  function DigitChar(d: nat): (c: char)
    requires d < 10
    ensures '0' <= c <= '9'
  {
    "0123456789"[d]
  }

  function DigitValue(c: char): nat {
    if '0' <= c <= '9' then (c as int - '0' as int) as nat else 0
  }

  /** The decimal numeral of `n`, most significant digit first. */
  function Decimal(n: nat): (s: string)
    ensures |s| >= 1
    decreases n
  {
    if n < 10 then [DigitChar(n)] else Decimal(n / 10) + [DigitChar(n % 10)]
  }

  /** Reads a numeral back; characters that are not digits count as 0. */
  function ParseDecimal(s: string): nat
    decreases |s|
  {
    if s == [] then 0 else ParseDecimal(s[..|s| - 1]) * 10 + DigitValue(s[|s| - 1])
  }

  lemma DigitRoundTrip(d: nat)
    requires d < 10
    ensures DigitValue(DigitChar(d)) == d
  {
    var digits := "0123456789";
    assert digits[0] == '0' && digits[1] == '1' && digits[2] == '2' && digits[3] == '3' && digits[4] == '4';
    assert digits[5] == '5' && digits[6] == '6' && digits[7] == '7' && digits[8] == '8' && digits[9] == '9';
  }

  lemma {:induction false} ParseDecimalOfDecimal(n: nat)
    ensures ParseDecimal(Decimal(n)) == n
    decreases n
  {
    if n < 10 {
      DigitRoundTrip(n);
      assert Decimal(n)[..0] == [];
    } else {
      var s := Decimal(n);
      assert s[..|s| - 1] == Decimal(n / 10);
      ParseDecimalOfDecimal(n / 10);
      DigitRoundTrip(n % 10);
    }
  }

  /** The id the store gives to the record created when its counter is `n`. */
  function MintId(n: nat): Id {
    Decimal(n)
  }

  function IdNumber(id: Id): nat {
    ParseDecimal(id)
  }

  /** Ids minted from different counter values differ, and an id minted from
      `n` is different from every id whose number is below `n`. */
  lemma {:induction false} MintIdFresh(n: nat, other: Id)
    requires IdNumber(other) < n
    ensures IdNumber(MintId(n)) == n
    ensures MintId(n) != other
  {
    ParseDecimalOfDecimal(n);
  }
}
