/** Decimal text of integers, as Python's `str` renders an `int`, and the parser that reads it back. */
module Text {

  /** The character of a decimal digit. */
  function Digit(d: nat): (ch: char)
    requires d < 10
    ensures '0' <= ch <= '9' && (ch as int) - ('0' as int) == d
  {
    (('0' as int) + d) as char
  }

  predicate IsDigits(s: string) {
    |s| >= 1 && forall i :: 0 <= i < |s| ==> '0' <= s[i] <= '9'
  }

  /** The decimal digits of a natural number, most significant first, without leading zeros. */
  function DigitsText(n: nat): (s: string)
    ensures IsDigits(s)
    ensures n < 10 ==> s == [Digit(n)]
    decreases n
  {
    if n < 10 then [Digit(n)] else DigitsText(n / 10) + [Digit(n % 10)]
  }

  /** `str(n)` for a Python `int`: a minus sign before the digits of a negative number. */
  function IntText(n: int): (s: string)
    ensures |s| >= 1 && (n >= 0 ==> IsDigits(s))
  {
    if n < 0 then "-" + DigitsText(-n) else DigitsText(n)
  }

  /** The text of an integer is made of a minus sign and digits only. */
  lemma IntTextChars(n: int)
    ensures forall i :: 0 <= i < |IntText(n)| ==> IntText(n)[i] == '-' || '0' <= IntText(n)[i] <= '9'
  {
    var s := IntText(n);
    if n < 0 {
      var d := DigitsText(-n);
      assert s == "-" + d;
      forall i | 0 < i < |s| ensures '0' <= s[i] <= '9' {
        assert s[i] == d[i - 1];
      }
    }
  }

  /** The text of an integer holds no space, so it stays one word of a line. */
  lemma IntTextHasNoSpace(n: int)
    ensures ' ' !in IntText(n)
  {
    IntTextChars(n);
  }

  /** The value of a string of decimal digits. */
  function ParseDigits(s: string): int
    requires forall i :: 0 <= i < |s| ==> '0' <= s[i] <= '9'
  {
    if |s| == 0 then 0
    else ParseDigits(s[..|s| - 1]) * 10 + ((s[|s| - 1] as int) - ('0' as int))
  }

  /** An optional minus sign followed by decimal digits. */
  predicate IsIntText(s: string) {
    |s| >= 1 && (s[0] == '-' ==> IsDigits(s[1..])) && (s[0] != '-' ==> IsDigits(s))
  }

  /** `int(s)` for the strings `IntText` produces. */
  function ParseInt(s: string): int
    requires IsIntText(s)
  {
    if s[0] == '-' then -ParseDigits(s[1..]) else ParseDigits(s)
  }

  lemma {:induction false} ParseDigitsText(n: nat)
    ensures ParseDigits(DigitsText(n)) == n
    decreases n
  {
    if n >= 10 {
      var s := DigitsText(n);
      assert s[..|s| - 1] == DigitsText(n / 10);
      ParseDigitsText(n / 10);
    }
  }

  /** Reading back the text of any integer gives the integer: the rendering loses nothing. */
  lemma ParseIntText(n: int)
    ensures IsIntText(IntText(n))
    ensures ParseInt(IntText(n)) == n
  {
    var s := IntText(n);
    if n < 0 {
      var d := DigitsText(-n);
      assert s == "-" + d;
      assert s[0] == '-' && s[1..] == d;
      ParseDigitsText(-n);
    } else {
      assert s == DigitsText(n);
      assert '0' <= s[0] <= '9';
      ParseDigitsText(n);
    }
  }

  /** The text of a single decimal digit is that digit alone. */
  lemma DigitText(n: int)
    requires 0 <= n < 10
    ensures IntText(n) == [Digit(n)]
  {
  }

  /** `s.split(sep)` with an explicit separator: the pieces between the separators, empty ones included. */
  function Split(s: string, sep: char): (parts: seq<string>)
    ensures |parts| >= 1
    ensures forall k :: 0 <= k < |parts| ==> sep !in parts[k]
    decreases |s|
  {
    if |s| == 0 then [""]
    else
      var rest := Split(s[1..], sep);
      if s[0] == sep then [""] + rest else [[s[0]] + rest[0]] + rest[1..]
  }

  /** `sep.join(parts)`: the empty string for no parts. */
  function Join(parts: seq<string>, sep: char): string
    decreases |parts|
  {
    if |parts| == 0 then "" else if |parts| == 1 then parts[0] else parts[0] + [sep] + Join(parts[1..], sep)
  }

  /** Splitting after a piece free of the separator: the piece joins the first part of the rest. */
  lemma {:induction false} SplitAfter(p: string, t: string, sep: char)
    requires sep !in p
    ensures var rest := Split(t, sep); Split(p + t, sep) == [p + rest[0]] + rest[1..]
    decreases |p|
  {
    if |p| > 0 {
      assert (p + t)[1..] == p[1..] + t;
      SplitAfter(p[1..], t, sep);
      assert [p[0]] + (p[1..] + Split(t, sep)[0]) == p + Split(t, sep)[0];
    } else {
      var rest := Split(t, sep);
      assert p + t == t && p + rest[0] == rest[0];
      assert rest == [rest[0]] + rest[1..];
    }
  }

  /** Splitting the join of pieces free of the separator gives the pieces back. */
  lemma {:induction false} SplitJoin(parts: seq<string>, sep: char)
    requires |parts| >= 1 && forall k :: 0 <= k < |parts| ==> sep !in parts[k]
    ensures Split(Join(parts, sep), sep) == parts
    decreases |parts|
  {
    if |parts| == 1 {
      SplitAfter(parts[0], "", sep);
      assert parts[0] + "" == parts[0];
    } else {
      var tail := Join(parts[1..], sep);
      SplitJoin(parts[1..], sep);
      var t := [sep] + tail;
      assert t[1..] == tail;
      assert Split(t, sep) == [""] + parts[1..];
      SplitAfter(parts[0], t, sep);
      assert Join(parts, sep) == parts[0] + t;
      assert parts[0] + "" == parts[0];
      assert parts == [parts[0]] + parts[1..];
    }
  }
}
