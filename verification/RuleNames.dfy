/**
 The names of generated routing rules, "<experiment>-<fault index>", and the
 proof that they are keys: the last dash separates the two parts again.
 */
module RuleNames {
  import opened Types

  function Digit(n: nat): char
    requires n < 10
  {
    "0123456789"[n]
  }

  function DigitValue(c: char): (r: Option<nat>)
    ensures r.Some? ==> r.value < 10
  {
    if '0' <= c <= '9' then Some((c - '0') as nat) else None
  }

  /** The `%v` format of a non-negative int. */
  function Decimal(n: nat): (r: string)
    ensures |r| > 0
  {
    if n < 10 then [Digit(n)] else Decimal(n / 10) + [Digit(n % 10)]
  }

  function ParseDecimal(s: string): Option<nat> {
    if s == [] then Some(0)
    else
      match (ParseDecimal(s[..|s| - 1]), DigitValue(s[|s| - 1]))
      case (Some(high), Some(low)) => Some(10 * high + low)
      case _ => None
  }

  /** The position just after the last dash, or 0 if there is none. */
  function AfterLastDash(s: string): (i: nat)
    ensures i <= |s|
  {
    if s == [] then 0 else if s[|s| - 1] == '-' then |s| else AfterLastDash(s[..|s| - 1])
  }

  function RuleName(experiment: string, index: nat): string {
    experiment + "-" + Decimal(index)
  }

  /** Splits a rule name at its last dash. */
  function SplitRuleName(name: string): Option<(string, nat)> {
    var i := AfterLastDash(name);
    if i == 0 then None
    else match ParseDecimal(name[i..]) case None => None case Some(n) => Some((name[..i - 1], n))
  }

  lemma DigitIsParsed(n: nat)
    requires n < 10
    ensures DigitValue(Digit(n)) == Some(n) && Digit(n) != '-'
  {
  }

  lemma ParseNothing()
    ensures ParseDecimal([]) == Some(0)
  {
  }

  lemma {:induction false} ParseAppend(s: string, c: char)
    ensures ParseDecimal(s + [c]) ==
      match (ParseDecimal(s), DigitValue(c)) case (Some(high), Some(low)) => Some(10 * high + low) case _ => None
  {
    assert (s + [c])[..|s|] == s;
  }

  lemma {:induction false} DecimalRoundTrip(n: nat)
    ensures ParseDecimal(Decimal(n)) == Some(n)
    ensures '-' !in Decimal(n)
  {
    hide ParseDecimal, Digit, DigitValue;
    DigitIsParsed(n % 10);
    ParseNothing();
    if n < 10 {
      ParseAppend([], Digit(n));
      assert [] + [Digit(n)] == [Digit(n)];
    } else {
      DecimalRoundTrip(n / 10);
      ParseAppend(Decimal(n / 10), Digit(n % 10));
    }
  }

  /** The usual digits: no leading zero, except for zero itself. */
  lemma {:induction false} DecimalIsPlain(n: nat)
    ensures Decimal(n)[0] == '0' <==> n == 0
    ensures n < 10 ==> |Decimal(n)| == 1
    ensures forall i :: 0 <= i < |Decimal(n)| ==> '0' <= Decimal(n)[i] <= '9'
  {
    if n >= 10 {
      DecimalIsPlain(n / 10);
    }
  }

  lemma {:induction false} LastDashIsTheSeparator(prefix: string, suffix: string)
    requires '-' !in suffix
    ensures AfterLastDash(prefix + "-" + suffix) == |prefix| + 1
  {
    var s := prefix + "-" + suffix;
    if suffix != [] {
      var init := suffix[..|suffix| - 1];
      assert s[..|s| - 1] == prefix + "-" + init;
      assert s[|s| - 1] == suffix[|suffix| - 1];
      LastDashIsTheSeparator(prefix, init);
    }
  }

  /** Whatever dashes and digits the experiment's name contains, both parts are recovered. */
  lemma RuleNameRoundTrip(experiment: string, index: nat)
    ensures SplitRuleName(RuleName(experiment, index)) == Some((experiment, index))
  {
    DecimalRoundTrip(index);
    LastDashIsTheSeparator(experiment, Decimal(index));
    var name := RuleName(experiment, index);
    assert name[|experiment| + 1..] == Decimal(index);
    assert name[..|experiment|] == experiment;
  }

  lemma RuleNameInjective(e1: string, i1: nat, e2: string, i2: nat)
    requires RuleName(e1, i1) == RuleName(e2, i2)
    ensures e1 == e2 && i1 == i2
  {
    RuleNameRoundTrip(e1, i1);
    RuleNameRoundTrip(e2, i2);
  }
}
