/**
 * Text operations that several modules share.
 *
 * Decimal numerals and their values, the first and the last index of a character, and splitting at a separator. They
 * stand for the string operations of the language, so the lemmas here say what the models rely on: a numeral of a
 * number has that value, and splitting undoes joining texts that lack the separator.
 */
module Texts {
  import opened Wrappers

  predicate IsDigit(c: char) {
    '0' <= c <= '9'
  }

  predicate AllDigits(s: string) {
    forall i :: 0 <= i < |s| ==> IsDigit(s[i])
  }

  function DigitValue(c: char): (d: nat)
    requires IsDigit(c)
    ensures d < 10
  {
    c as int - '0' as int
  }

  function Digit(d: nat): (c: char)
    requires d < 10
    ensures IsDigit(c) && DigitValue(c) == d
  {
    ('0' as int + d) as char
  }

  /** The numeral of a natural number. */
  function Decimal(n: nat): (s: string)
    ensures s != [] && AllDigits(s)
  {
    if n < 10 then [Digit(n)] else Decimal(n / 10) + [Digit(n % 10)]
  }

  /** The number a text of digits stands for. */
  function Numeral(s: string): nat
    requires AllDigits(s)
  {
    if s == [] then 0 else 10 * Numeral(s[..|s| - 1]) + DigitValue(s[|s| - 1])
  }

  lemma {:induction false} NumeralOfDecimal(n: nat)
    ensures Numeral(Decimal(n)) == n
  {
    if n < 10 {
      assert Decimal(n)[..0] == [];
    } else {
      NumeralOfDecimal(n / 10);
      assert Decimal(n)[..|Decimal(n)| - 1] == Decimal(n / 10);
    }
  }

  predicate Lacks(s: string, c: char) {
    forall i :: 0 <= i < |s| ==> s[i] != c
  }

  /** `indexOf` of a character. */
  function IndexOf(s: string, c: char): Option<nat> {
    if s == [] then None
    else if s[0] == c then Some(0)
    else match IndexOf(s[1..], c)
      case None => None
      case Some(i) => Some(i + 1)
  }

  /** `lastIndexOf` of a character. */
  function LastIndexOf(s: string, c: char): Option<nat> {
    if s == [] then None
    else if s[|s| - 1] == c then Some(|s| - 1)
    else LastIndexOf(s[..|s| - 1], c)
  }

  /** `split` on a character: one piece more than there are separators. */
  function Split(s: string, c: char): (pieces: seq<string>)
    ensures pieces != []
  {
    if s == [] then [[]]
    else
      var rest := Split(s[1..], c);
      if s[0] == c then [[]] + rest else [[s[0]] + rest[0]] + rest[1..]
  }

  /** `join` with a character. */
  function Join(pieces: seq<string>, c: char): string {
    if pieces == [] then []
    else if |pieces| == 1 then pieces[0]
    else pieces[0] + [c] + Join(pieces[1..], c)
  }

  lemma {:induction false} IndexOfFirst(a: string, c: char, b: string)
    requires Lacks(a, c)
    ensures IndexOf(a + [c] + b, c) == Some(|a|)
  {
    if a == [] {
      assert a + [c] + b == [c] + b;
    } else {
      assert (a + [c] + b)[1..] == a[1..] + [c] + b;
      IndexOfFirst(a[1..], c, b);
    }
  }

  lemma {:induction false} IndexOfNone(s: string, c: char)
    ensures IndexOf(s, c).None? <==> Lacks(s, c)
    ensures IndexOf(s, c).Some? ==> var i := IndexOf(s, c).value; i < |s| && s[i] == c && Lacks(s[..i], c)
  {
    if s != [] {
      IndexOfNone(s[1..], c);
      if s[0] != c {
        assert Lacks(s[1..], c) <==> Lacks(s, c) by {
          if Lacks(s[1..], c) {
            forall i | 0 <= i < |s| ensures s[i] != c {
              assert i > 0 ==> s[i] == s[1..][i - 1];
            }
          }
        }
        if IndexOf(s[1..], c).Some? {
          var i := IndexOf(s[1..], c).value;
          forall j | 0 <= j < i + 1 ensures s[j] != c {
            assert j > 0 ==> s[j] == s[1..][..i][j - 1];
          }
        }
      }
    }
  }

  lemma {:induction false} LastIndexOfLast(a: string, c: char, b: string)
    requires Lacks(b, c)
    ensures LastIndexOf(a + [c] + b, c) == Some(|a|)
  {
    var s := a + [c] + b;
    if b == [] {
      assert s[|s| - 1] == c;
    } else {
      assert s[|s| - 1] == b[|b| - 1];
      assert s[..|s| - 1] == a + [c] + b[..|b| - 1];
      LastIndexOfLast(a, c, b[..|b| - 1]);
    }
  }

  lemma {:induction false} LastIndexOfNone(s: string, c: char)
    requires Lacks(s, c)
    ensures LastIndexOf(s, c).None?
  {
    if s != [] {
      LastIndexOfNone(s[..|s| - 1], c);
    }
  }

  lemma {:induction false} SplitWithout(s: string, c: char)
    requires Lacks(s, c)
    ensures Split(s, c) == [s]
  {
    if s != [] {
      SplitWithout(s[1..], c);
      assert [s[0]] + s[1..] == s;
    }
  }

  lemma {:induction false} SplitFirst(a: string, c: char, b: string)
    requires Lacks(a, c)
    ensures Split(a + [c] + b, c) == [a] + Split(b, c)
  {
    if a == [] {
      assert a + [c] + b == [c] + b;
      assert ([c] + b)[1..] == b;
    } else {
      assert (a + [c] + b)[1..] == a[1..] + [c] + b;
      SplitFirst(a[1..], c, b);
      assert [a[0]] + a[1..] == a;
    }
  }

  /** Splitting undoes joining when no piece holds the separator. */
  lemma {:induction false} SplitOfJoin(pieces: seq<string>, c: char)
    requires pieces != [] && forall p :: p in pieces ==> Lacks(p, c)
    ensures Split(Join(pieces, c), c) == pieces
  {
    assert pieces[0] in pieces;
    if |pieces| == 1 {
      SplitWithout(pieces[0], c);
    } else {
      SplitFirst(pieces[0], c, Join(pieces[1..], c));
      SplitOfJoin(pieces[1..], c);
      assert [pieces[0]] + pieces[1..] == pieces;
    }
  }

  lemma {:induction false} JoinLacks(pieces: seq<string>, c: char, d: char)
    requires c != d && forall p :: p in pieces ==> Lacks(p, d)
    ensures Lacks(Join(pieces, c), d)
  {
    if |pieces| == 1 {
      assert pieces[0] in pieces;
    } else if pieces != [] {
      assert pieces[0] in pieces;
      JoinLacks(pieces[1..], c, d);
    }
  }
}
