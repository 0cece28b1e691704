/**
 * The text the limit checker produces: decimal rendering of a limit inside a
 * template literal, joining violation lines with a newline, and splitting a
 * message back into its lines the way the browser side does before it shows
 * one notification per line.
 */
module Text {

  predicate IsDigit(c: char) {
    '0' <= c <= '9'
  }

  function DigitChar(d: nat): (c: char)
    requires d < 10
    ensures IsDigit(c) && c as int - '0' as int == d
  {
    ('0' as int + d) as char
  }

  /** How JavaScript renders a non-negative integer: decimal digits, no leading zero. */
  function DecimalString(n: nat): (s: string)
    ensures |s| >= 1
    ensures forall i :: 0 <= i < |s| ==> IsDigit(s[i])
    ensures s[0] == '0' ==> n == 0
    ensures '\n' !in s
    decreases n
  {
    if n < 10 then [DigitChar(n)] else DecimalString(n / 10) + [DigitChar(n % 10)]
  }

  /** The value of a string of decimal digits. */
  function ParseDecimal(s: string): nat
    requires forall i :: 0 <= i < |s| ==> IsDigit(s[i])
  {
    if s == [] then 0
    else
      assert IsDigit(s[|s| - 1]);
      10 * ParseDecimal(s[..|s| - 1]) + (s[|s| - 1] as int - '0' as int)
  }

  /** The number shown in a message is exactly the configured limit. */
  lemma {:induction false} ParseDecimalString(n: nat)
    ensures ParseDecimal(DecimalString(n)) == n
    decreases n
  {
    if n >= 10 {
      var s := DecimalString(n);
      assert s[..|s| - 1] == DecimalString(n / 10);
      ParseDecimalString(n / 10);
    }
  }

  /** `lines.join('\n')`. */
  function Join(lines: seq<string>): (s: string)
    ensures |lines| == 0 ==> s == ""
    ensures |lines| == 1 ==> s == lines[0]
    decreases |lines|
  {
    if |lines| == 0 then ""
    else if |lines| == 1 then lines[0]
    else lines[0] + "\n" + Join(lines[1..])
  }

  /** The number of line breaks in `s`. */
  function NewlineCount(s: string): nat {
    if s == [] then 0 else (if s[0] == '\n' then 1 else 0) + NewlineCount(s[1..])
  }

  /** `s.split('\n')`: always at least one part, empty parts kept. */
  function Split(s: string): (parts: seq<string>)
    ensures |parts| == 1 + NewlineCount(s)
    ensures '\n' !in s ==> parts == [s]
    decreases |s|
  {
    if s == [] then [""]
    else
      var rest := Split(s[1..]);
      if s[0] == '\n' then [""] + rest
      else
        assert '\n' !in s ==> '\n' !in s[1..] && [s[0]] + s[1..] == s;
        [[s[0]] + rest[0]] + rest[1..]
  }

  lemma {:induction false} SplitLines(a: string, rest: string)
    requires '\n' !in a
    ensures Split(a + "\n" + rest) == [a] + Split(rest)
    decreases |a|
  {
    var s := a + "\n" + rest;
    if a == [] {
      assert s[0] == '\n' && s[1..] == rest;
    } else {
      assert s[1..] == a[1..] + "\n" + rest;
      SplitLines(a[1..], rest);
      assert [a[0]] + a[1..] == a;
    }
  }

  /** Splitting a joined message on line breaks gives back the lines, provided none holds a line break. */
  lemma {:induction false} SplitJoin(lines: seq<string>)
    requires |lines| >= 1
    requires forall i :: 0 <= i < |lines| ==> '\n' !in lines[i]
    ensures Split(Join(lines)) == lines
    decreases |lines|
  {
    if |lines| == 1 {
      assert Split(lines[0]) == [lines[0]];
    } else {
      SplitLines(lines[0], Join(lines[1..]));
      SplitJoin(lines[1..]);
      assert [lines[0]] + lines[1..] == lines;
    }
  }
}
