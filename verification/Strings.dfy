/** Cutting strings at a separator, and the numbers strings of digits stand for. */
module Strings {
  import opened Wrappers

  predicate IsDigit(c: char) {
    '0' <= c <= '9'
  }

  predicate AllDigits(s: string) {
    forall i :: 0 <= i < |s| ==> IsDigit(s[i])
  }

  /** What a string of decimal digits stands for. */
  function Number(s: string): (n: int)
    requires AllDigits(s)
    ensures n >= 0
  {
    if s == "" then 0 else Number(s[..|s| - 1]) * 10 + (s[|s| - 1] as int - '0' as int)
  }

  /** Cut at the first `separator`, which belongs to neither half. */
  function SplitOnce(s: string, separator: char): Option<(string, string)> {
    if s == "" then None
    else if s[0] == separator then Some(("", s[1..]))
    else
      var (head, tail) :- SplitOnce(s[1..], separator);
      Some(([s[0]] + head, tail))
  }

  lemma {:induction false} SplitFindsSeparator(a: string, separator: char, b: string)
    requires separator !in a
    ensures SplitOnce(a + [separator] + b, separator) == Some((a, b))
  {
    var s := a + [separator] + b;
    if a == "" {
      assert s[1..] == b;
    } else {
      assert s[1..] == a[1..] + [separator] + b;
      SplitFindsSeparator(a[1..], separator, b);
      assert a == [a[0]] + a[1..];
    }
  }
}
