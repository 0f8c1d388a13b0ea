/**
 File names and notifications are inode numbers printed into 16-byte buffers, that
 is, cut off after 15 digits.
 */
module MailNames {

  function Digits(n: nat): (d: seq<nat>)
    ensures |d| > 0
  {
    if n < 10 then [n] else Digits(n / 10) + [n % 10]
  }

  /** snprintf(buf, 16, "%lu", n) */
  function Printed(n: nat): seq<nat> {
    if |Digits(n)| <= 15 then Digits(n) else Digits(n)[..15]
  }

  function Pow10(k: nat): nat {
    if k == 0 then 1 else 10 * Pow10(k - 1)
  }

  lemma {:induction false} DigitsInjective(a: nat, b: nat)
    requires Digits(a) == Digits(b)
    ensures a == b
  {
    if a >= 10 && b >= 10 {
      var da, db := Digits(a), Digits(b);
      assert Digits(a / 10) == da[..|da| - 1] == db[..|db| - 1] == Digits(b / 10);
      assert da[|da| - 1] == a % 10 && db[|db| - 1] == b % 10;
      DigitsInjective(a / 10, b / 10);
    }
  }

  lemma {:induction false} DigitsLength(n: nat, k: nat)
    requires k > 0 && n < Pow10(k)
    ensures |Digits(n)| <= k
  {
    if n >= 10 {
      DigitsLength(n / 10, k - 1);
    }
  }

  lemma {:induction false} PowerDigits(k: nat)
    ensures Pow10(k) > 0 && |Digits(Pow10(k))| == k + 1
  {
    if k > 0 {
      PowerDigits(k - 1);
    }
  }

  lemma CutOff()
    ensures Printed(Pow10(15)) == Printed(Pow10(14)) && Pow10(14) < Pow10(15)
  {
    hide Pow10, Digits;
    PowerDigits(14);
    PowerDigits(15);
    assert Pow10(15) == 10 * Pow10(14) by { TenTimes(14); }
    assert Digits(Pow10(15)) == Digits(Pow10(14)) + [0] by { ZeroAtEnd(Pow10(14)); }
  }

  lemma TenTimes(k: nat)
    ensures Pow10(k + 1) == 10 * Pow10(k)
  {
  }

  lemma ZeroAtEnd(n: nat)
    requires n > 0
    ensures Digits(10 * n) == Digits(n) + [0]
  {
  }

  /** Names made from inode numbers below `n` are all different exactly if no number below `n`
      has more than 15 digits. */
  lemma NamesFaithfulIff(n: nat)
    ensures (forall a: nat, b: nat :: a < n && b < n && Printed(a) == Printed(b) ==> a == b) <==> n <= Pow10(15)
  {
    if n <= Pow10(15) {
      forall a: nat, b: nat | a < n && b < n && Printed(a) == Printed(b) ensures a == b {
        hide Pow10, Digits;
        DigitsLength(a, 15);
        DigitsLength(b, 15);
        DigitsInjective(a, b);
      }
    } else {
      hide Pow10, Digits, Printed;
      CutOff();
    }
  }
}
