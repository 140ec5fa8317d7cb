/**
 * The pieces of java.lang.String and java.lang.Integer that the modelled code
 * relies on: Integer.toString, Integer.parseInt, String.trim, String.split on
 * a one-character literal pattern and String.join, plus 32-bit wrap-around.
 */
module JavaText {
  import opened Wrappers

  const INT_MIN: int := -0x8000_0000
  const INT_MAX: int := 0x7fff_ffff

  predicate IsInt32(x: int)
  {
    INT_MIN <= x <= INT_MAX
  }

  /** A value of Java's int type. */
  type Int32 = x: int | IsInt32(x) witness 0

  /** Two's-complement wrap-around of a Java int addition. */
  function Wrap32(x: int): (r: int)
    ensures IsInt32(r)
    ensures (r - x) % 0x1_0000_0000 == 0
    ensures IsInt32(x) ==> r == x
  {
    (x - INT_MIN) % 0x1_0000_0000 + INT_MIN
  }

  /** IntStream.sum over ints: the sum wraps at 32 bits. */
  function SumInt32(ws: seq<int>): (r: int)
    ensures IsInt32(r)
  {
    if ws == [] then 0 else Wrap32(SumInt32(ws[..|ws| - 1]) + ws[|ws| - 1])
  }

  predicate IsDigit(c: char)
  {
    '0' <= c <= '9'
  }

  function DigitChar(d: nat): (c: char)
    requires d < 10
    ensures IsDigit(c) && c as int - '0' as int == d
  {
    ('0' as int + d) as char
  }

  /** Decimal digits of a natural number, most significant first, no leading zeros. */
  function NatToString(n: nat): (s: string)
    ensures |s| > 0 && forall i :: 0 <= i < |s| ==> IsDigit(s[i])
    ensures |s| > 1 ==> s[0] != '0'
  {
    if n < 10 then [DigitChar(n)] else NatToString(n / 10) + [DigitChar(n % 10)]
  }

  /** Integer.toString. */
  function IntToString(i: int): (s: string)
    ensures |s| > 0
  {
    (if i < 0 then "-" else "") + NatToString(if i < 0 then -i else i)
  }

  /** The value of a string of decimal digits. */
  function DigitsValue(s: string): nat
    requires forall i :: 0 <= i < |s| ==> IsDigit(s[i])
  {
    if s == [] then 0
    else
      assert IsDigit(s[|s| - 1]);
      10 * DigitsValue(s[..|s| - 1]) + (s[|s| - 1] as int - '0' as int)
  }

  predicate AllDigits(s: string)
  {
    |s| > 0 && forall i :: 0 <= i < |s| ==> IsDigit(s[i])
  }

  /** The unbounded value of an optionally signed decimal numeral, if it is one. */
  function ParseDecimal(s: string): (r: Option<int>)
    ensures r.Some? ==> |s| > 0
  {
    if |s| > 0 && (s[0] == '-' || s[0] == '+') then
      if AllDigits(s[1..]) then
        var v: int := DigitsValue(s[1..]);
        Some(if s[0] == '-' then -v else v)
      else None
    else if AllDigits(s) then Some(DigitsValue(s))
    else None
  }

  /**
   * Integer.parseInt over ASCII digits: an optional sign, at least one digit and a
   * value inside the 32-bit range; anything else throws NumberFormatException.
   */
  function ParseInt(s: string): (r: Result<int>)
    ensures r.Success? ==> IsInt32(r.value) && ParseDecimal(s) == Some(r.value)
    ensures r.Failure? ==> r.error.NumberFormat?
  {
    match ParseDecimal(s)
    case Some(v) => if IsInt32(v) then Success(v) else Failure(NumberFormat(s))
    case None => Failure(NumberFormat(s))
  }

  lemma {:induction false} DigitsValueOfNatToString(n: nat)
    ensures DigitsValue(NatToString(n)) == n
  {
    var s := NatToString(n);
    if n >= 10 {
      DigitsValueOfNatToString(n / 10);
      assert s[..|s| - 1] == NatToString(n / 10);
    }
  }

  /** Integer.toString and the unbounded parser are inverse. */
  lemma IntToStringParses(i: int)
    ensures ParseDecimal(IntToString(i)) == Some(i)
  {
    DigitsValueOfNatToString(if i < 0 then -i else i);
    if i < 0 {
      assert IntToString(i) == "-" + NatToString(-i);
      assert IntToString(i)[1..] == NatToString(-i);
    } else {
      assert IntToString(i) == NatToString(i);
    }
  }

  /** Integer.parseInt(Integer.toString(i)) == i for every Java int. */
  lemma ParseIntOfIntToString(i: int)
    requires IsInt32(i)
    ensures ParseInt(IntToString(i)) == Success(i)
  {
    IntToStringParses(i);
  }

  /** Distinct integers print differently. */
  lemma IntToStringInjective(i: int, j: int)
    ensures IntToString(i) == IntToString(j) ==> i == j
  {
    IntToStringParses(i);
    IntToStringParses(j);
  }

  predicate IsBlank(c: char)
  {
    c <= ' '
  }

  /** The first index from i on whose character is not blank (|s| when there is none). */
  function FirstNonBlank(s: string, i: nat): (k: nat)
    requires i <= |s|
    ensures i <= k <= |s|
    ensures k < |s| ==> !IsBlank(s[k])
    ensures forall m :: i <= m < k ==> IsBlank(s[m])
    decreases |s| - i
  {
    if i < |s| && IsBlank(s[i]) then FirstNonBlank(s, i + 1) else i
  }

  /** The end of s[..j] once its trailing blanks are dropped. */
  function EndNonBlank(s: string, j: nat): (k: nat)
    requires j <= |s|
    ensures k <= j
    ensures k > 0 ==> !IsBlank(s[k - 1])
    ensures forall m :: k <= m < j ==> IsBlank(s[m])
  {
    if j > 0 && IsBlank(s[j - 1]) then EndNonBlank(s, j - 1) else j
  }

  /** String.trim: strips every character up to U+0020 from both ends. */
  function Trim(s: string): (r: string)
    ensures |r| <= |s|
    ensures |r| > 0 ==> !IsBlank(r[0]) && !IsBlank(r[|r| - 1])
    ensures (|s| == 0 || (!IsBlank(s[0]) && !IsBlank(s[|s| - 1]))) ==> r == s
  {
    var start := FirstNonBlank(s, 0);
    var end := EndNonBlank(s, |s|);
    if start < end then s[start..end] else ""
  }

  /** Every piece between occurrences of c, empty pieces included. */
  function SplitAll(s: string, c: char): (parts: seq<string>)
    ensures |parts| >= 1
    ensures forall k :: 0 <= k < |parts| ==> c !in parts[k]
  {
    if |s| == 0 then [""]
    else
      var rest := SplitAll(s[1..], c);
      if s[0] == c then [""] + rest else [[s[0]] + rest[0]] + rest[1..]
  }

  function DropTrailingEmpty(parts: seq<string>): (r: seq<string>)
    ensures |r| <= |parts| && r == parts[..|r|]
    ensures |r| > 0 ==> r[|r| - 1] != ""
    ensures forall k :: |r| <= k < |parts| ==> parts[k] == ""
  {
    if |parts| > 0 && parts[|parts| - 1] == "" then DropTrailingEmpty(parts[..|parts| - 1]) else parts
  }

  /**
   * String.split with a one-character literal pattern: without a match the
   * string itself is the only piece; otherwise the trailing empty pieces are
   * removed (so a string made only of separators splits into nothing).
   */
  function JavaSplit(s: string, c: char): (parts: seq<string>)
    ensures forall k :: 0 <= k < |parts| ==> c !in parts[k]
  {
    if c !in s then [s] else DropTrailingEmpty(SplitAll(s, c))
  }

  /** String.join. */
  function Join(parts: seq<string>, c: char): string
  {
    if |parts| == 0 then ""
    else if |parts| == 1 then parts[0]
    else parts[0] + [c] + Join(parts[1..], c)
  }

  lemma {:induction false} JoinSplitAll(s: string, c: char)
    ensures Join(SplitAll(s, c), c) == s
  {
    if |s| > 0 {
      var rest := SplitAll(s[1..], c);
      JoinSplitAll(s[1..], c);
      if s[0] == c {
        assert SplitAll(s, c) == [""] + rest;
        assert Join([""] + rest, c) == "" + [c] + Join(rest, c);
        assert s == [s[0]] + s[1..];
      } else {
        var parts := [[s[0]] + rest[0]] + rest[1..];
        assert SplitAll(s, c) == parts;
        if |rest| == 1 {
          assert Join(parts, c) == [s[0]] + rest[0];
        } else {
          assert parts[1..] == rest[1..];
          assert Join(parts, c) == [s[0]] + rest[0] + [c] + Join(rest[1..], c);
          assert Join(rest, c) == rest[0] + [c] + Join(rest[1..], c);
        }
        assert s == [s[0]] + s[1..];
      }
    }
  }

  lemma {:induction false} SplitAllLastIsSuffix(s: string, c: char)
    requires |s| > 0 && s[|s| - 1] != c
    ensures SplitAll(s, c)[|SplitAll(s, c)| - 1] != ""
  {
    if |s| > 1 {
      SplitAllLastIsSuffix(s[1..], c);
    }
  }

  /**
   * A trimmed line splits on a space without losing anything: joining its
   * pieces again with a space gives the line back.
   */
  lemma TrimmedSplitJoin(t: string)
    requires t == Trim(t)
    ensures JavaSplit(t, ' ') == SplitAll(t, ' ')
    ensures Join(JavaSplit(t, ' '), ' ') == t
  {
    if ' ' in t {
      SplitAllLastIsSuffix(t, ' ');
    }
    JoinSplitAll(t, ' ');
  }
}
