/** What several of the models share: the optional value, decimal numerals, and the size of a subset. */
module Wrappers {
  datatype Option<+T> = None | Some(value: T)

  function Numeral(n: nat): string {
    if n < 10 then [('0' as int + n) as char] else Numeral(n / 10) + [('0' as int + n % 10) as char]
  }

  predicate AllDigits(s: string) {
    forall i :: 0 <= i < |s| ==> '0' <= s[i] <= '9'
  }

  function NumberOf(s: string): nat
    requires AllDigits(s)
  {
    if s == "" then 0 else 10 * NumberOf(s[..|s| - 1]) + (s[|s| - 1] - '0') as nat
  }

  /** A numeral reads as the number it was made of. */
  lemma {:induction false} NumeralRead(n: nat)
    ensures AllDigits(Numeral(n)) && Numeral(n) != "" && NumberOf(Numeral(n)) == n
  {
    var s := Numeral(n);
    if n >= 10 {
      NumeralRead(n / 10);
      assert s[..|s| - 1] == Numeral(n / 10);
    } else {
      assert s[..0] == "";
    }
  }

  lemma {:induction false} SubsetSize<T>(a: set<T>, b: set<T>)
    requires a <= b
    ensures |a| <= |b|
    decreases a
  {
    if x :| x in a { SubsetSize(a - {x}, b - {x}); }
  }
}
