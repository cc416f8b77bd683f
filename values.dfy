/** Values shared by the viewer and the tree sampler: the elements of the
    game's action tuples, card colours, and Python's ordering of strings. */
module Values {

  datatype Option<+T> = None | Some(value: T)

  /** The game's card colours (an enumeration defined by the game engine). */
  datatype Colour = Red | Blue | Green | Yellow | Black | White | Orange | Pink | Gray | Wild

  /** One element of an action tuple: a string (a kind, a city, a player
      name, the word "deck"), an integer (a ticket count) or a colour. */
  datatype Item = Text(s: string) | Num(n: int) | Card(c: Colour)

  /** An action as the game produces it: a tuple of items.  The empty tuple
      is the falsy action (Python's None is modelled the same way). */
  type Action = seq<Item>

  /** Python's `a < b` on strings: lexicographic order on code points. */
  predicate StrLess(a: string, b: string)
    decreases |a|
  {
    if |a| == 0 then |b| > 0
    else if |b| == 0 then false
    else if a[0] != b[0] then a[0] < b[0]
    else StrLess(a[1..], b[1..])
  }

  lemma {:induction false} StrLessIrreflexive(a: string)
    ensures !StrLess(a, a)
    decreases |a|
  {
    if |a| > 0 {
      StrLessIrreflexive(a[1..]);
    }
  }

  lemma {:induction false} StrLessAsymmetric(a: string, b: string)
    ensures !(StrLess(a, b) && StrLess(b, a))
    decreases |a|
  {
    if |a| > 0 && |b| > 0 && a[0] == b[0] {
      StrLessAsymmetric(a[1..], b[1..]);
    }
  }

  lemma {:induction false} StrLessTotal(a: string, b: string)
    ensures a == b || StrLess(a, b) || StrLess(b, a)
    decreases |a|
  {
    if |a| > 0 && |b| > 0 && a[0] == b[0] {
      StrLessTotal(a[1..], b[1..]);
      if a[1..] == b[1..] {
        assert a == [a[0]] + a[1..] && b == [b[0]] + b[1..];
      }
    }
  }

  lemma {:induction false} StrLessTransitive(a: string, b: string, c: string)
    requires StrLess(a, b) && StrLess(b, c)
    ensures StrLess(a, c)
    decreases |a|
  {
    if |a| > 0 && a[0] == b[0] && b[0] == c[0] {
      StrLessTransitive(a[1..], b[1..], c[1..]);
    }
  }

  /** Decimal text of an integer, as Python's `str` gives it. */
  function IntToString(n: int): (r: string)
    ensures |r| >= 1
    ensures n < 0 <==> r[0] == '-'
    decreases if n < 0 then 1 - n else n
  {
    if n < 0 then "-" + IntToString(-n)
    else if n < 10 then [Digit(n)]
    else IntToString(n / 10) + [Digit(n % 10)]
  }

  function Digit(d: int): (c: char)
    requires 0 <= d < 10
    ensures '0' <= c <= '9'
  {
    ['0', '1', '2', '3', '4', '5', '6', '7', '8', '9'][d]
  }
}
