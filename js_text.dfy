/**
 * The few JavaScript string built-ins the calendar core relies on:
 * `String.prototype.trim`, the regular-expression class `\s`, the decimal
 * rendering of an integer (`String(n)`, template interpolation),
 * `padStart(2, '0')` and `Array.prototype.join`.
 */
module JsText {

  /** WhiteSpace and LineTerminator of ECMAScript: what `trim` removes and what `\s` matches. */
  predicate IsWhitespace(c: char) {
    || c == ' ' || c == '\t' || c == '\n' || c == '\U{000B}' || c == '\U{000C}' || c == '\r'
    || c == '\U{00A0}' || c == '\U{1680}' || ('\U{2000}' <= c <= '\U{200A}')
    || c == '\U{2028}' || c == '\U{2029}' || c == '\U{202F}' || c == '\U{205F}'
    || c == '\U{3000}' || c == '\U{FEFF}'
  }

  predicate AllWhitespace(s: string) {
    forall i :: 0 <= i < |s| ==> IsWhitespace(s[i])
  }

  /** How many white-space characters `s` starts with. */
  function LeadingSpace(s: string): (n: nat)
    ensures n <= |s| && (n == |s| || !IsWhitespace(s[n]))
    ensures forall i :: 0 <= i < n ==> IsWhitespace(s[i])
    decreases |s|
  {
    if s != [] && IsWhitespace(s[0]) then LeadingSpace(s[1..]) + 1 else 0
  }

  /** How many white-space characters `s` ends with. */
  function TrailingSpace(s: string): (n: nat)
    ensures n <= |s| && (n == |s| || !IsWhitespace(s[|s| - 1 - n]))
    ensures forall i :: |s| - n <= i < |s| ==> IsWhitespace(s[i])
    decreases |s|
  {
    if s != [] && IsWhitespace(s[|s| - 1]) then TrailingSpace(s[..|s| - 1]) + 1 else 0
  }

  /** Drops the leading white space (the first half of `trim`). */
  function TrimStart(s: string): (r: string)
    ensures |r| <= |s| && r == s[|s| - |r|..]
    ensures r == [] || !IsWhitespace(r[0])
    ensures AllWhitespace(s[..|s| - |r|])
  {
    s[LeadingSpace(s)..]
  }

  /** Drops the trailing white space (the second half of `trim`). */
  function TrimEnd(s: string): (r: string)
    ensures |r| <= |s| && r == s[..|r|]
    ensures r == [] || !IsWhitespace(r[|r| - 1])
    ensures AllWhitespace(s[|r|..])
  {
    s[..|s| - TrailingSpace(s)]
  }

  /** `String.prototype.trim`: the input without white space at either end. */
  function Trim(s: string): (r: string)
    ensures |r| <= |TrimStart(s)| && r == TrimStart(s)[..|r|]
    ensures r == [] || (!IsWhitespace(r[0]) && !IsWhitespace(r[|r| - 1]))
    ensures AllWhitespace(TrimStart(s)[|r|..])
    ensures r == [] <==> AllWhitespace(s)
  {
    var t := TrimStart(s);
    BlankTrim(s, t);
    TrimEnd(t)
  }

  /** Trimming is idempotent: a trimmed text has nothing left to trim. */
  lemma TrimIdempotent(s: string)
    ensures Trim(Trim(s)) == Trim(s)
  {
    var t := Trim(s);
    if t != [] {
      NothingToTrim(t);
    }
  }

  /** Trim finds the text between a white-space prefix and a white-space suffix. */
  lemma TrimBetween(a: string, t: string, b: string)
    requires AllWhitespace(a) && AllWhitespace(b)
    requires t != [] && !IsWhitespace(t[0]) && !IsWhitespace(t[|t| - 1])
    ensures Trim(a + t + b) == t
  {
    var s := a + t + b;
    var k := LeadingSpace(s);
    assert s[|a|] == t[0];
    assert TrimStart(s) == t + b;
    var u := t + b;
    var m := TrailingSpace(u);
    assert u[|t| - 1] == t[|t| - 1];
    assert TrimEnd(u) == t;
  }

  lemma NothingToTrim(t: string)
    requires t != [] && !IsWhitespace(t[0]) && !IsWhitespace(t[|t| - 1])
    ensures Trim(t) == t
  {
    assert TrimStart(t) == t;
    assert TrimEnd(t) == t;
  }

  lemma BlankTrim(s: string, t: string)
    requires t == TrimStart(s)
    ensures TrimEnd(t) == [] <==> AllWhitespace(s)
  {
    var k := |s| - |t|;
    if TrimEnd(t) == [] {
      assert t == [];
      forall i | 0 <= i < |s| ensures IsWhitespace(s[i]) {
        assert s[i] == s[..k][i];
      }
    } else {
      assert !IsWhitespace(s[k]) by { assert s[k] == t[0]; }
    }
  }

  predicate IsDigit(c: char) {
    '0' <= c <= '9'
  }

  predicate AllDigits(s: string) {
    forall i :: 0 <= i < |s| ==> IsDigit(s[i])
  }

  function DigitChar(d: nat): (c: char)
    requires d < 10
    ensures IsDigit(c) && DigitValue(c) == d
  {
    (48 + d) as char
  }

  function DigitValue(c: char): nat
    requires IsDigit(c)
  {
    c as int - 48
  }

  /** The decimal digits of a natural number, most significant first, without leading zeros. */
  function Decimal(n: nat): (r: string)
    ensures 1 <= |r| && AllDigits(r)
    ensures |r| > 1 ==> r[0] != '0'
  {
    if n < 10 then [DigitChar(n)] else Decimal(n / 10) + [DigitChar(n % 10)]
  }

  /** The number a string of decimal digits denotes. */
  function DigitsValue(s: string): nat
    requires AllDigits(s)
  {
    if s == [] then 0 else 10 * DigitsValue(s[..|s| - 1]) + DigitValue(s[|s| - 1])
  }

  lemma {:induction false} DecimalRoundTrip(n: nat)
    ensures DigitsValue(Decimal(n)) == n
  {
    if n >= 10 {
      var s := Decimal(n);
      assert s[..|s| - 1] == Decimal(n / 10);
      DecimalRoundTrip(n / 10);
    }
  }

  lemma {:induction false} DecimalWidth(n: nat)
    ensures n < 10 ==> |Decimal(n)| == 1
    ensures 10 <= n < 100 ==> |Decimal(n)| == 2
    ensures 100 <= n < 1000 ==> |Decimal(n)| == 3
    ensures 1000 <= n < 10000 ==> |Decimal(n)| == 4
  {
    if n >= 10 {
      DecimalWidth(n / 10);
    }
  }

  /** `String(i)` for an integer value: an optional minus sign, then the decimal digits. */
  function IntToString(i: int): (r: string)
    ensures i >= 0 ==> r == Decimal(i)
    ensures i < 0 ==> r == "-" + Decimal(-i)
  {
    if i < 0 then "-" + Decimal(-i) else Decimal(i)
  }

  /** `String(i).padStart(2, '0')`. */
  function Pad2(i: int): (r: string)
    ensures 0 <= i < 100 ==> |r| == 2 && AllDigits(r) && DigitsValue(r) == i
    ensures |r| >= 2
  {
    var s := IntToString(i);
    DecimalWidth(if i < 0 then -i else i);
    DecimalRoundTrip(if i < 0 then -i else i);
    if |s| < 2 then "0" + s else s
  }

  /** `lines.join(separator)`. */
  function Join(lines: seq<string>, separator: string): string
  {
    if |lines| == 0 then ""
    else if |lines| == 1 then lines[0]
    else lines[0] + separator + Join(lines[1..], separator)
  }

  predicate NoCarriageReturn(line: string) {
    forall i :: 0 <= i < |line| ==> line[i] != '\r'
  }

  /** Cutting a text at every CRLF, as a reader of a CRLF-joined document does. */
  function SplitCrLf(s: string): (r: seq<string>)
    ensures |r| >= 1
    decreases |s|
  {
    if s == [] then [""]
    else if |s| >= 2 && s[0] == '\r' && s[1] == '\n' then [""] + SplitCrLf(s[2..])
    else
      var rest := SplitCrLf(s[1..]);
      [[s[0]] + rest[0]] + rest[1..]
  }

  /** A line without a carriage return is glued, whole, to the front of the first piece after it. */
  lemma {:induction false} SplitAfterLine(line: string, rest: string)
    requires NoCarriageReturn(line)
    ensures SplitCrLf(line + rest) == [line + SplitCrLf(rest)[0]] + SplitCrLf(rest)[1..]
    decreases |line|
  {
    var after := SplitCrLf(rest);
    if line == [] {
      assert line + rest == rest && line + after[0] == after[0];
      assert [after[0]] + after[1..] == after;
    } else {
      assert NoCarriageReturn(line[1..]) by {
        forall i | 0 <= i < |line[1..]| ensures line[1..][i] != '\r' {
          assert line[1..][i] == line[i + 1];
        }
      }
      SplitAfterLine(line[1..], rest);
      assert line + rest == [line[0]] + (line[1..] + rest);
      SplitCons(line[0], line[1..] + rest);
      assert [line[0]] + (line[1..] + after[0]) == line + after[0];
    }
  }

  /** A character other than a carriage return joins the first piece of what follows it. */
  lemma SplitCons(c: char, t: string)
    requires c != '\r'
    ensures SplitCrLf([c] + t) == [[c] + SplitCrLf(t)[0]] + SplitCrLf(t)[1..]
  {
    assert ([c] + t)[1..] == t;
  }

  /** Joining with CRLF loses nothing: lines free of carriage returns split back to themselves. */
  lemma {:induction false} JoinSplitRoundTrip(lines: seq<string>)
    requires |lines| >= 1
    requires forall i :: 0 <= i < |lines| ==> NoCarriageReturn(lines[i])
    ensures SplitCrLf(Join(lines, "\r\n")) == lines
    decreases |lines|
  {
    if |lines| == 1 {
      SplitAfterLine(lines[0], "");
      assert lines[0] + "" == lines[0];
    } else {
      var tail := Join(lines[1..], "\r\n");
      JoinSplitRoundTrip(lines[1..]);
      assert ("\r\n" + tail)[2..] == tail;
      assert SplitCrLf("\r\n" + tail) == [""] + lines[1..];
      SplitAfterLine(lines[0], "\r\n" + tail);
      assert Join(lines, "\r\n") == lines[0] + ("\r\n" + tail);
      assert lines[0] + "" == lines[0];
      assert [lines[0]] + lines[1..] == lines;
    }
  }
}
