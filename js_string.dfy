/**
 * The JavaScript string and number built-ins the dashboard's logic relies on,
 * restricted to the shapes it uses them in: `split` and `replace` with a
 * one-character pattern, `Number(...)`/`String(...)` on digit strings, and the
 * code-unit string order that `Array.prototype.sort` uses without a comparator.
 */
module JsString {
  import opened Wrappers

  // ---------------------------------------------------------------- search

  /** `s.indexOf(c)`, with `None` in place of -1. */
  function FirstIndex(s: string, c: char): (r: Option<nat>)
    ensures r.None? <==> c !in s
    ensures r.Some? ==> r.value < |s| && s[r.value] == c && c !in s[..r.value]
  {
    if |s| == 0 then None
    else if s[0] == c then Some(0)
    else
      match FirstIndex(s[1..], c)
      case None =>
        assert s == [s[0]] + s[1..];
        None
      case Some(i) =>
        assert s[..i + 1] == [s[0]] + s[1..][..i];
        Some(i + 1)
  }

  lemma FirstIndexAfterPrefix(a: string, c: char, b: string)
    requires c !in a
    ensures FirstIndex(a + [c] + b, c) == Some(|a|)
  {
    var s := a + [c] + b;
    assert s[|a|] == c && s[..|a|] == a;
  }

  // ---------------------------------------------------------------- split / join

  /** `s.split(c)` for a one-character separator: the pieces between the occurrences of `c`. */
  function Split(s: string, c: char): (r: seq<string>)
    ensures |r| >= 1
    ensures forall k :: 0 <= k < |r| ==> c !in r[k]
    decreases |s|
  {
    match FirstIndex(s, c)
    case None => [s]
    case Some(i) => [s[..i]] + Split(s[i + 1..], c)
  }

  /** `pieces.join(c)`. */
  function Join(pieces: seq<string>, c: char): string
  {
    if |pieces| == 0 then ""
    else if |pieces| == 1 then pieces[0]
    else pieces[0] + [c] + Join(pieces[1..], c)
  }

  /** Splitting and re-joining on the same separator gives the string back. */
  lemma {:induction false} JoinSplit(s: string, c: char)
    ensures Join(Split(s, c), c) == s
    decreases |s|
  {
    match FirstIndex(s, c)
    case None =>
    case Some(i) =>
      var rest := Split(s[i + 1..], c);
      var pieces := [s[..i]] + rest;
      assert pieces[0] == s[..i] && pieces[1..] == rest;
      calc {
        Join(pieces, c);
        s[..i] + [c] + Join(rest, c);
        { JoinSplit(s[i + 1..], c); }
        s[..i] + [c] + s[i + 1..];
      }
      assert s == s[..i] + [c] + s[i + 1..];
  }

  /** Joining pieces that do not contain the separator and splitting again gives the pieces back. */
  lemma {:induction false} SplitJoin(pieces: seq<string>, c: char)
    requires |pieces| >= 1
    requires forall k :: 0 <= k < |pieces| ==> c !in pieces[k]
    ensures Split(Join(pieces, c), c) == pieces
  {
    if |pieces| > 1 {
      var rest := Join(pieces[1..], c);
      var s := pieces[0] + [c] + rest;
      assert Join(pieces, c) == s;
      FirstIndexAfterPrefix(pieces[0], c, rest);
      assert s[..|pieces[0]|] == pieces[0];
      assert s[|pieces[0]| + 1..] == rest;
      assert Split(s, c) == [pieces[0]] + Split(rest, c);
      SplitJoin(pieces[1..], c);
      assert pieces == [pieces[0]] + pieces[1..];
    }
  }

  /** `s.split(c)` has one more piece than `s` has occurrences of `c`. */
  lemma {:induction false} SplitCount(s: string, c: char)
    ensures |Split(s, c)| == multiset(s)[c] + 1
    decreases |s|
  {
    match FirstIndex(s, c)
    case None =>
    case Some(i) =>
      SplitCount(s[i + 1..], c);
      assert s == s[..i] + [c] + s[i + 1..];
      assert multiset(s) == multiset(s[..i]) + multiset{c} + multiset(s[i + 1..]);
  }

  // ---------------------------------------------------------------- replace

  /**
   * `s.replace(c, "")` for a one-character pattern: a string pattern makes
   * JavaScript replace only its first occurrence.
   */
  function RemoveFirst(s: string, c: char): (r: string)
    ensures c !in s ==> r == s
    ensures c in s ==> exists k :: 0 <= k < |s| && s[k] == c && c !in s[..k] && r == s[..k] + s[k + 1..]
  {
    match FirstIndex(s, c)
    case None => s
    case Some(k) => s[..k] + s[k + 1..]
  }

  /** The first `c` after a stretch without one is the one removed. */
  lemma RemoveFirstAfterPrefix(a: string, c: char, b: string)
    requires c !in a
    ensures RemoveFirst(a + [c] + b, c) == a + b
  {
    FirstIndexAfterPrefix(a, c, b);
    var s := a + [c] + b;
    assert s[..|a|] == a && s[|a| + 1..] == b;
  }

  /** Exactly one occurrence of `c` goes, when there is one, and nothing else changes in count. */
  lemma RemoveFirstCount(s: string, c: char)
    ensures c in s ==> |RemoveFirst(s, c)| == |s| - 1
    ensures c in s ==> multiset(RemoveFirst(s, c)) == multiset(s) - multiset{c}
  {
    if c in s {
      var k := FirstIndex(s, c).value;
      assert s == s[..k] + [c] + s[k + 1..];
      assert multiset(s) == multiset(s[..k]) + multiset{c} + multiset(s[k + 1..]);
    }
  }

  // ---------------------------------------------------------------- digits

  predicate IsDigit(ch: char) {
    '0' <= ch <= '9'
  }

  predicate AllDigits(s: string) {
    forall k :: 0 <= k < |s| ==> IsDigit(s[k])
  }

  function DigitChar(d: nat): (ch: char)
    requires d < 10
    ensures IsDigit(ch)
  {
    ('0' as int + d) as char
  }

  function DigitValue(ch: char): (d: nat)
    requires IsDigit(ch)
    ensures d < 10 && DigitChar(d) == ch
  {
    ch as int - '0' as int
  }

  /** `String(n)` for a non-negative integer: its decimal form, without leading zeros. */
  function NatToString(n: nat): (r: string)
    ensures |r| >= 1 && AllDigits(r)
    ensures n < 10 <==> |r| == 1
    decreases n
  {
    if n < 10 then [DigitChar(n)] else NatToString(n / 10) + [DigitChar(n % 10)]
  }

  /** The number a string of decimal digits denotes. */
  function DigitsValue(s: string): nat
    requires AllDigits(s)
  {
    if |s| == 0 then 0 else DigitsValue(s[..|s| - 1]) * 10 + DigitValue(s[|s| - 1])
  }

  /** Reading back the decimal form of `n` gives `n`. */
  lemma {:induction false} DigitsValueOfNatToString(n: nat)
    ensures DigitsValue(NatToString(n)) == n
    decreases n
  {
    if n >= 10 {
      DigitsValueOfNatToString(n / 10);
      var s := NatToString(n);
      assert s[..|s| - 1] == NatToString(n / 10);
    }
  }

  lemma NatToStringInjective(a: nat, b: nat)
    requires NatToString(a) == NatToString(b)
    ensures a == b
  {
    DigitsValueOfNatToString(a);
    DigitsValueOfNatToString(b);
  }

  /** A leading zero does not change the value of a digit string. */
  lemma {:induction false} DigitsValueLeadingZero(s: string)
    requires AllDigits(s)
    ensures AllDigits("0" + s) && DigitsValue("0" + s) == DigitsValue(s)
    decreases |s|
  {
    if |s| > 0 {
      var t := "0" + s;
      assert t[..|t| - 1] == "0" + s[..|s| - 1];
      DigitsValueLeadingZero(s[..|s| - 1]);
    }
  }

  // ---------------------------------------------------------------- Number / String

  /** A JavaScript number as far as the dashboard produces one from text. */
  datatype JsNumber = NaN | Int(n: nat)

  /**
   * A character that can occur in some string `Number` reads as a number:
   * decimal and hexadecimal digits, the radix letters of `0x`, `0o` and `0b`,
   * signs, the decimal point, the letters of `Infinity`, and white space
   * (every character beyond ASCII is counted here, which covers the Unicode
   * spaces and line terminators).
   */
  predicate NumericLiteralChar(ch: char) {
    || IsDigit(ch) || 'a' <= ch <= 'f' || 'A' <= ch <= 'F'
    || ch in "xXoObB+-.Inity"
    || ch in " \t\n\r\U{B}\U{C}" || ch >= '\U{80}'
  }

  /** `s` holds a character no numeric literal contains, so `Number(s)` is NaN. */
  predicate NeverNumeric(s: string) {
    exists k :: 0 <= k < |s| && !NumericLiteralChar(s[k])
  }

  /**
   * `Number(s)` (or unary `+s`): the empty string is 0, a string of decimal
   * digits is its value, and a string holding a character no numeric literal
   * contains is NaN. The remaining strings (signs, decimals, exponents, radix
   * prefixes, `Infinity`, surrounding white space) are NaN here too, which
   * is where the model departs from JavaScript.
   */
  function ToNumber(s: string): (r: JsNumber)
    ensures s == "" ==> r == Int(0)
    ensures r.Int? && s != "" ==> AllDigits(s) && r.n == DigitsValue(s)
    ensures AllDigits(s) ==> r.Int?
    ensures NeverNumeric(s) ==> r.NaN?
  {
    if s == "" then Int(0) else if AllDigits(s) then Int(DigitsValue(s)) else NaN
  }

  /** `String(x)`. */
  function NumberToString(x: JsNumber): string
  {
    match x
    case NaN => "NaN"
    case Int(n) => NatToString(n)
  }

  /** `Number(String(x)) == x` for the integers `String` renders. */
  lemma ToNumberOfNumberToString(n: nat)
    ensures ToNumber(NumberToString(Int(n))) == Int(n)
  {
    DigitsValueOfNatToString(n);
  }

  /** `String(Number(s))` is canonical: a decimal form it produced is left as it is. */
  lemma NumberToStringCanonical(n: nat)
    ensures NumberToString(ToNumber(NatToString(n))) == NatToString(n)
  {
    ToNumberOfNumberToString(n);
  }

  // ---------------------------------------------------------------- default sort order

  /** `a <= b` in the UTF-16 code-unit order of `Array.prototype.sort` without a comparator. */
  predicate LexLe(a: string, b: string)
  {
    |a| == 0 || (|b| > 0 && (a[0] < b[0] || (a[0] == b[0] && LexLe(a[1..], b[1..]))))
  }

  lemma {:induction false} LexLeTotal(a: string, b: string)
    ensures LexLe(a, b) || LexLe(b, a)
  {
    if |a| > 0 && |b| > 0 && a[0] == b[0] {
      LexLeTotal(a[1..], b[1..]);
    }
  }

  lemma {:induction false} LexLeTransitive(a: string, b: string, c: string)
    requires LexLe(a, b) && LexLe(b, c)
    ensures LexLe(a, c)
  {
    if |a| > 0 && a[0] == b[0] && b[0] == c[0] {
      LexLeTransitive(a[1..], b[1..], c[1..]);
    }
  }

  lemma {:induction false} LexLeAntisymmetric(a: string, b: string)
    requires LexLe(a, b) && LexLe(b, a)
    ensures a == b
  {
    if |a| > 0 {
      LexLeAntisymmetric(a[1..], b[1..]);
      assert a == [a[0]] + a[1..] && b == [b[0]] + b[1..];
    }
  }

  /** For equally long strings, order is decided by the prefixes first and the last characters last. */
  lemma {:induction false} LexLeAppend(p: string, q: string, c: char, d: char)
    requires |p| == |q|
    ensures LexLe(p + [c], q + [d]) <==> (LexLe(p, q) && p != q) || (p == q && c <= d)
  {
    if |p| > 0 {
      assert (p + [c])[1..] == p[1..] + [c];
      assert (q + [d])[1..] == q[1..] + [d];
      LexLeAppend(p[1..], q[1..], c, d);
      if p[0] == q[0] {
        assert p == [p[0]] + p[1..] && q == [q[0]] + q[1..];
        assert p == q <==> p[1..] == q[1..];
      }
    }
  }

  /** Decimal forms of equal length sort as their numbers do. */
  lemma {:induction false} SameLengthOrder(a: nat, b: nat)
    requires |NatToString(a)| == |NatToString(b)|
    ensures LexLe(NatToString(a), NatToString(b)) <==> a <= b
    decreases a
  {
    if a >= 10 {
      SameLengthOrder(a / 10, b / 10);
      LexLeAppend(NatToString(a / 10), NatToString(b / 10), DigitChar(a % 10), DigitChar(b % 10));
      if NatToString(a / 10) == NatToString(b / 10) {
        NatToStringInjective(a / 10, b / 10);
      }
    }
  }

  /** The first element of `xs.sort()`: the one whose decimal form is least as a string. */
  function SortFirst(xs: seq<nat>): (r: nat)
    requires |xs| > 0
    ensures r in xs
  {
    if |xs| == 1 then xs[0]
    else
      var m := SortFirst(xs[1..]);
      if LexLe(NatToString(xs[0]), NatToString(m)) then xs[0] else m
  }

  /** The last element of `xs.sort()`: the one whose decimal form is greatest as a string. */
  function SortLast(xs: seq<nat>): (r: nat)
    requires |xs| > 0
    ensures r in xs
  {
    if |xs| == 1 then xs[0]
    else
      var m := SortLast(xs[1..]);
      if LexLe(NatToString(m), NatToString(xs[0])) then xs[0] else m
  }

  lemma {:induction false} SortFirstIsLeast(xs: seq<nat>)
    requires |xs| > 0
    ensures forall x :: x in xs ==> LexLe(NatToString(SortFirst(xs)), NatToString(x))
  {
    if |xs| == 1 {
      LexLeTotal(NatToString(xs[0]), NatToString(xs[0]));
    } else {
      SortFirstIsLeast(xs[1..]);
      var m := SortFirst(xs[1..]);
      LexLeTotal(NatToString(xs[0]), NatToString(m));
      forall x | x in xs ensures LexLe(NatToString(SortFirst(xs)), NatToString(x)) {
        if x != xs[0] {
          assert x in xs[1..];
          if LexLe(NatToString(xs[0]), NatToString(m)) {
            LexLeTransitive(NatToString(xs[0]), NatToString(m), NatToString(x));
          }
        } else {
          LexLeTotal(NatToString(x), NatToString(x));
        }
      }
    }
  }

  lemma {:induction false} SortLastIsGreatest(xs: seq<nat>)
    requires |xs| > 0
    ensures forall x :: x in xs ==> LexLe(NatToString(x), NatToString(SortLast(xs)))
  {
    if |xs| == 1 {
      LexLeTotal(NatToString(xs[0]), NatToString(xs[0]));
    } else {
      SortLastIsGreatest(xs[1..]);
      var m := SortLast(xs[1..]);
      LexLeTotal(NatToString(xs[0]), NatToString(m));
      forall x | x in xs ensures LexLe(NatToString(x), NatToString(SortLast(xs))) {
        if x != xs[0] {
          assert x in xs[1..];
          if LexLe(NatToString(m), NatToString(xs[0])) {
            LexLeTransitive(NatToString(x), NatToString(m), NatToString(xs[0]));
          }
        } else {
          LexLeTotal(NatToString(x), NatToString(x));
        }
      }
    }
  }

  /** When every number has as many digits as the others, the string sort is the numeric sort. */
  lemma SortEndsAreNumericWhenSameWidth(xs: seq<nat>)
    requires |xs| > 0
    requires forall x, y :: x in xs && y in xs ==> |NatToString(x)| == |NatToString(y)|
    ensures forall x :: x in xs ==> SortFirst(xs) <= x <= SortLast(xs)
  {
    SortFirstIsLeast(xs);
    SortLastIsGreatest(xs);
    forall x | x in xs ensures SortFirst(xs) <= x <= SortLast(xs) {
      SameLengthOrder(SortFirst(xs), x);
      SameLengthOrder(x, SortLast(xs));
    }
  }

  /** With numbers of different widths the string sort is not numeric: `[9, 10].sort()` is `[10, 9]`. */
  lemma SortIsNotNumeric()
    ensures SortFirst([9, 10]) == 10 && SortLast([9, 10]) == 9
  {
    assert NatToString(9) == "9";
    assert NatToString(1) == "1";
    assert NatToString(10) == "10";
    assert !LexLe("9", "10");
    assert LexLe("10", "9");
    assert [9, 10][1..] == [10];
  }
}
