/** Decimal numerals and colon-separated texts. */
module Text {
  function Digit(d: nat): char
    requires d < 10
  {
    "0123456789"[d]
  }

  predicate IsDigit(c: char) { '0' <= c <= '9' }

  predicate IsNumeral(s: string) { s != [] && forall c :: c in s ==> IsDigit(c) }

  function ToDecimal(n: nat): (s: string)
    ensures IsNumeral(s)
  {
    if n < 10 then [Digit(n)] else ToDecimal(n / 10) + [Digit(n % 10)]
  }

  function FromDecimal(s: string): nat
    requires forall c :: c in s ==> IsDigit(c)
  {
    if s == [] then 0
    else
      assert IsDigit(s[|s| - 1]);
      10 * FromDecimal(s[..|s| - 1]) + (s[|s| - 1] as int - '0' as int)
  }

  lemma {:induction false} DecimalRoundTrip(n: nat)
    ensures FromDecimal(ToDecimal(n)) == n
    decreases n
  {
    if n >= 10 {
      DecimalRoundTrip(n / 10);
      assert ToDecimal(n)[..|ToDecimal(n)| - 1] == ToDecimal(n / 10);
    } else {
      assert [Digit(n)][..0] == [];
    }
  }

  /** The position of the last colon, or -1. */
  function LastColon(s: string): (i: int)
    ensures -1 <= i < |s|
    ensures i >= 0 ==> s[i] == ':'
    ensures forall j :: i < j < |s| ==> s[j] != ':'
  {
    if s == [] then -1
    else if s[|s| - 1] == ':' then |s| - 1
    else LastColon(s[..|s| - 1])
  }

  // ----- trimming -----

  /** White space and line ends, as ECMAScript counts them. */
  predicate IsSpace(c: char) {
    '\U{0009}' <= c <= '\U{000d}' || c == ' ' || c == '\U{00a0}' || c == '\U{1680}'
    || '\U{2000}' <= c <= '\U{200a}' || c == '\U{2028}' || c == '\U{2029}' || c == '\U{202f}' || c == '\U{205f}'
    || c == '\U{3000}' || c == '\U{feff}'
  }

  function TrimStart(s: string): (r: string)
    ensures r != [] ==> !IsSpace(r[0])
    ensures |r| <= |s| && r == s[|s| - |r|..]
  {
    if s != [] && IsSpace(s[0]) then TrimStart(s[1..]) else s
  }

  function TrimEnd(s: string): (r: string)
    ensures r != [] ==> !IsSpace(r[|r| - 1])
    ensures |r| <= |s| && r == s[..|r|]
  {
    if s != [] && IsSpace(s[|s| - 1]) then TrimEnd(s[..|s| - 1]) else s
  }

  /** The text between the first and the last character that is no space. */
  function Trim(s: string): (r: string)
    ensures r != [] ==> !IsSpace(r[0]) && !IsSpace(r[|r| - 1])
  {
    TrimEnd(TrimStart(s))
  }

  // ----- texts joined by a separator -----

  const SEPARATOR := "::"

  function Join(a: string, b: string): string { a + SEPARATOR + b }

  /** With the separator after it, `long` begins with `short` and a separator; the
      rest of the other text makes up for what is left. */
  predicate Swallows(long: string, rest: string, short: string, shortRest: string) {
    |long| > |short| && (long + SEPARATOR)[..|short| + 2] == short + SEPARATOR
    && shortRest == (long + SEPARATOR)[|short| + 2..] + rest
  }

  /** Joined texts agree exactly when their parts do, or when one first part
      swallows a separator of the other text. */
  lemma JoinsCollide(p: string, r: string, q: string, s: string)
    ensures Join(p, r) == Join(q, s) <==> (p == q && r == s) || Swallows(p, r, q, s) || Swallows(q, s, p, r)
  {
    if |p| == |q| {
      assert Join(p, r)[..|p|] == p && Join(p, r)[|p| + 2..] == r;
      assert Join(q, s)[..|q|] == q && Join(q, s)[|q| + 2..] == s;
    } else if |p| > |q| {
      LongerJoin(p, r, q, s);
    } else {
      LongerJoin(q, s, p, r);
    }
  }

  lemma LongerJoin(p: string, r: string, q: string, s: string)
    requires |p| > |q|
    ensures Join(p, r) == Join(q, s) <==> Swallows(p, r, q, s)
  {
    var head, tail := (p + SEPARATOR)[..|q| + 2], (p + SEPARATOR)[|q| + 2..];
    assert p + SEPARATOR == head + tail;
    assert Join(p, r) == head + (tail + r) && Join(q, s) == (q + SEPARATOR) + s;
    assert Join(p, r)[..|q| + 2] == head && Join(p, r)[|q| + 2..] == tail + r;
    assert Join(q, s)[..|q| + 2] == q + SEPARATOR && Join(q, s)[|q| + 2..] == s;
  }

  /** A text without colons swallows nothing. */
  lemma NothingToSwallow(long: string, rest: string, short: string, shortRest: string)
    requires ':' !in long
    ensures !Swallows(long, rest, short, shortRest)
  {
    if |long| > |short| {
      assert long[|short|] in long;
      assert (long + SEPARATOR)[..|short| + 2][|short|] == long[|short|] && (short + SEPARATOR)[|short|] == ':';
    }
  }
}
