/** A record's stamp as text: what it says can be read back. */
module Stamps {
  import opened Durations
  import opened Splitting
  import opened LogFiles

  lemma {:induction false} DecimalReadsBack(n: nat)
    ensures AllAre(Decimal(n), IsDigit) && Value(Decimal(n)) == n
  {
    if n >= 10 {
      DecimalReadsBack(n / 10);
      assert Decimal(n)[..|Decimal(n)| - 1] == Decimal(n / 10);
    } else {
      assert Decimal(n)[..0] == "";
    }
  }

  lemma {:induction false} DecimalIsShort(n: nat, k: nat, bound: nat)
    requires k > 0 && bound == Tens(k) && n < bound
    ensures |Decimal(n)| <= k
    decreases k
  {
    if n >= 10 {
      assert k > 1;
      DecimalIsShort(n / 10, k - 1, Tens(k - 1));
    }
  }

  function Tens(k: nat): (t: nat)
    ensures t > 0
  {
    if k == 0 then 1 else 10 * Tens(k - 1)
  }

  /** Padding with zeros changes no number. */
  lemma {:induction false} ZerosCountNothing(k: nat, digits: string)
    requires AllAre(digits, IsDigit)
    ensures var s := seq(k, _ => '0') + digits;
            AllAre(s, IsDigit) && Value(s) == Value(digits)
    decreases |digits|, k
  {
    var s := seq(k, _ => '0') + digits;
    if digits == "" {
      if k > 0 {
        ZerosCountNothing(k - 1, "");
        assert s[..|s| - 1] == seq(k - 1, _ => '0') + "";
      }
    } else {
      var n := |digits| - 1;
      ZerosCountNothing(k, digits[..n]);
      assert s[..|s| - 1] == seq(k, _ => '0') + digits[..n];
    }
  }

  /** Microseconds of a second are exactly six digits, so the stamp reads back as the moment it was made. */
  lemma StampReadsBack(at: Timestamp, line: Bytes)
    requires at.micros < 1_000_000
    ensures var secs, micros := Decimal(at.secs), Six(at.micros);
            && Record(at, line) == secs + "." + micros + " " + line + [NEWLINE]
            && AllAre(secs, IsDigit) && Value(secs) == at.secs
            && |micros| == 6 && AllAre(micros, IsDigit) && Value(micros) == at.micros
  {
    DecimalReadsBack(at.secs);
    DecimalReadsBack(at.micros);
    assert Tens(6) == 1_000_000 by {
      assert Tens(3) == 1000;
    }
    DecimalIsShort(at.micros, 6, 1_000_000);
    ZerosCountNothing(6 - |Decimal(at.micros)|, Decimal(at.micros));
  }
}
