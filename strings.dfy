/**
  The Java string operations the task store and the command parsers rely on:
  decimal rendering of an int (string concatenation with an int),
  Integer.parseInt, String.contains, String.trim, joining lines and
  splitting on a separator character.
 */
module Strings {
  import opened Wrappers

  /** Java's int range. */
  const IntMin: int := -0x8000_0000
  const IntMax: int := 0x7fff_ffff

  predicate IsDigit(c: char) { '0' <= c <= '9' }

  predicate IsDigits(s: string) { forall i :: 0 <= i < |s| ==> IsDigit(s[i]) }

  /** A non-empty run of ASCII digits. */
  predicate IsNumeral(s: string) { |s| > 0 && IsDigits(s) }

  /** A run of digits contains no other char. */
  lemma DigitsExclude(s: string, c: char)
    requires IsDigits(s) && !IsDigit(c)
    ensures c !in s
  {
  }

  function DigitChar(d: nat): (c: char)
    requires d < 10
    ensures IsDigit(c)
  {
    ('0' as int + d) as char
  }

  function DigitValue(c: char): (d: nat)
    requires IsDigit(c)
    ensures d < 10 && DigitChar(d) == c
  {
    c as int - '0' as int
  }

  // ---------------------------------------------------------------------------
  // Decimal numbers
  // ---------------------------------------------------------------------------

  /** The decimal text of a non-negative number, as `"" + n` gives it in Java. */
  function NatToString(n: nat): (s: string)
    ensures IsNumeral(s)
    ensures s[0] == '0' ==> n == 0
  {
    if n < 10 then [DigitChar(n)] else NatToString(n / 10) + [DigitChar(n % 10)]
  }

  /** The value of a string of decimal digits (most significant first). */
  function DigitsValue(s: string): nat
    requires IsDigits(s)
  {
    if s == [] then 0 else 10 * DigitsValue(s[..|s| - 1]) + DigitValue(s[|s| - 1])
  }

  /** Reading back a rendered number gives the number. */
  lemma {:induction false} DigitsValueOfNatToString(n: nat)
    ensures DigitsValue(NatToString(n)) == n
  {
    var s := NatToString(n);
    if n >= 10 {
      assert s[..|s| - 1] == NatToString(n / 10);
      DigitsValueOfNatToString(n / 10);
    }
  }

  /** Rendering is injective: different numbers give different texts. */
  lemma NatToStringInjective(m: nat, n: nat)
    requires NatToString(m) == NatToString(n)
    ensures m == n
  {
    DigitsValueOfNatToString(m);
    DigitsValueOfNatToString(n);
  }

  /**
    Integer.parseInt: an optional '+' or '-' followed by at least one ASCII
    digit, with a value inside the int range; anything else is None (Java
    throws NumberFormatException).
   */
  function ParseInt(s: string): (r: Option<int>)
    ensures r.Some? ==> IntMin <= r.value <= IntMax
    ensures r.Some? ==> IsNumeral(s) || (|s| > 1 && (s[0] == '-' || s[0] == '+') && IsNumeral(s[1..]))
  {
    if |s| > 0 && (s[0] == '-' || s[0] == '+') then
      var magnitude := s[1..];
      if IsNumeral(magnitude) then
        var v: int := if s[0] == '-' then -(DigitsValue(magnitude) as int) else DigitsValue(magnitude);
        if IntMin <= v <= IntMax then Some(v) else None
      else None
    else if IsNumeral(s) then
      if DigitsValue(s) <= IntMax then Some(DigitsValue(s)) else None
    else None
  }

  /** Parsing the decimal text of an int-sized natural number gives it back. */
  lemma ParseIntOfNatToString(n: nat)
    requires n <= IntMax
    ensures ParseInt(NatToString(n)) == Some(n)
  {
    DigitsValueOfNatToString(n);
  }

  /**
    Every optionally signed numeral, leading zeros included, is read as its
    signed value when that value is an int, and rejected otherwise.
   */
  lemma ParseIntOfSignedNumeral(sign: string, digits: string)
    requires sign == "" || sign == "+" || sign == "-"
    requires IsNumeral(digits)
    ensures var v := if sign == "-" then -(DigitsValue(digits) as int) else DigitsValue(digits) as int;
      ParseInt(sign + digits) == (if IntMin <= v <= IntMax then Some(v) else None)
  {
    if sign == "" {
      assert sign + digits == digits;
    } else {
      assert (sign + digits)[1..] == digits;
    }
  }

  // ---------------------------------------------------------------------------
  // Substring search (String.contains)
  // ---------------------------------------------------------------------------

  /** `pat` occurs in `text` starting at index `i`. */
  predicate OccursAt(text: string, pat: string, i: int)
  {
    0 <= i && i + |pat| <= |text| && text[i..i + |pat|] == pat
  }

  /** text.contains(pat): case-sensitive, and the empty pattern is everywhere. */
  predicate Contains(text: string, pat: string)
    decreases |text|
  {
    pat <= text || (|text| > 0 && Contains(text[1..], pat))
  }

  /** Contains agrees with the positional definition of a substring. */
  lemma {:induction false} ContainsIffOccurs(text: string, pat: string)
    ensures Contains(text, pat) <==> exists i :: OccursAt(text, pat, i)
    decreases |text|
  {
    if pat <= text {
      assert OccursAt(text, pat, 0);
    } else if |text| > 0 {
      ContainsIffOccurs(text[1..], pat);
      if Contains(text[1..], pat) {
        var j :| OccursAt(text[1..], pat, j);
        assert text[j + 1..j + 1 + |pat|] == text[1..][j..j + |pat|];
        assert OccursAt(text, pat, j + 1);
      }
      if i :| OccursAt(text, pat, i) {
        assert i != 0;
        assert text[1..][i - 1..i - 1 + |pat|] == text[i..i + |pat|];
        assert OccursAt(text[1..], pat, i - 1);
      }
    }
  }

  // ---------------------------------------------------------------------------
  // String.trim
  // ---------------------------------------------------------------------------

  /** String.trim removes every leading and trailing char whose code is at most U+0020. */
  predicate IsTrimSpace(c: char) { c <= ' ' }

  predicate AllTrimSpace(s: string) { forall i :: 0 <= i < |s| ==> IsTrimSpace(s[i]) }

  predicate StartsVisible(s: string) { |s| > 0 && !IsTrimSpace(s[0]) }

  predicate EndsVisible(s: string) { |s| > 0 && !IsTrimSpace(s[|s| - 1]) }

  function TrimStart(s: string): (r: string)
    ensures r == [] || !IsTrimSpace(r[0])
  {
    if |s| > 0 && IsTrimSpace(s[0]) then TrimStart(s[1..]) else s
  }

  function TrimEnd(s: string): (r: string)
    ensures r == [] || !IsTrimSpace(r[|r| - 1])
  {
    if |s| > 0 && IsTrimSpace(s[|s| - 1]) then TrimEnd(s[..|s| - 1]) else s
  }

  /** String.trim: what is left has no whitespace at either end. */
  function Trim(s: string): (r: string)
    ensures r == [] || (!IsTrimSpace(r[0]) && !IsTrimSpace(r[|r| - 1]))
  {
    TrimEndRemovesOnlyWhitespace(TrimStart(s));
    TrimEnd(TrimStart(s))
  }

  /** Trim removes only whitespace: the text is the result with whitespace around it. */
  lemma {:induction false} TrimStartRemovesOnlyWhitespace(s: string)
    ensures var r := TrimStart(s); |r| <= |s| && r == s[|s| - |r|..] && AllTrimSpace(s[..|s| - |r|])
    decreases |s|
  {
    if |s| > 0 && IsTrimSpace(s[0]) {
      TrimStartRemovesOnlyWhitespace(s[1..]);
      var r := TrimStart(s);
      assert s[1..][..|s| - 1 - |r|] == s[1..|s| - |r|];
    } else {
      assert s[..0] == [];
    }
  }

  lemma {:induction false} TrimEndRemovesOnlyWhitespace(s: string)
    ensures var r := TrimEnd(s); |r| <= |s| && r == s[..|r|] && AllTrimSpace(s[|r|..])
    decreases |s|
  {
    if |s| > 0 && IsTrimSpace(s[|s| - 1]) {
      TrimEndRemovesOnlyWhitespace(s[..|s| - 1]);
      var r := TrimEnd(s);
      assert s[..|s| - 1][|r|..] + [s[|s| - 1]] == s[|r|..];
    } else {
      assert s[|s|..] == [];
    }
  }

  /** A text that starts with a visible char is not trimmed away. */
  lemma TrimKeepsVisibleStart(s: string)
    requires StartsVisible(s)
    ensures Trim(s) != []
  {
    TrimEndRemovesOnlyWhitespace(s);
  }

  /** Trimming text that starts and ends with a visible char, followed by whitespace, gives the text. */
  lemma {:induction false} TrimDropsTrailing(x: string, ws: string)
    requires StartsVisible(x) && EndsVisible(x)
    requires AllTrimSpace(ws)
    ensures Trim(x + ws) == x
    decreases |ws|
  {
    assert TrimStart(x + ws) == x + ws;
    if ws == [] {
      assert x + ws == x;
    } else {
      var w := ws[..|ws| - 1];
      assert (x + ws)[..|x + ws| - 1] == x + w;
      TrimDropsTrailing(x, w);
      assert TrimStart(x + w) == x + w;
    }
  }

  /** Trailing whitespace appended to a text makes no difference once the end is trimmed. */
  lemma {:induction false} TrimEndIgnoresTrailing(x: string, ws: string)
    requires AllTrimSpace(ws)
    ensures TrimEnd(x + ws) == TrimEnd(x)
    decreases |ws|
  {
    if ws == [] {
      assert x + ws == x;
    } else {
      var w := ws[..|ws| - 1];
      assert (x + ws)[..|x + ws| - 1] == x + w;
      TrimEndIgnoresTrailing(x, w);
    }
  }

  /** Trimming a text that starts visibly, followed by whitespace, trims the text alone. */
  lemma TrimIgnoresTrailing(x: string, ws: string)
    requires StartsVisible(x) && AllTrimSpace(ws)
    ensures Trim(x + ws) == Trim(x)
  {
    assert TrimStart(x + ws) == x + ws;
    assert TrimStart(x) == x;
    TrimEndIgnoresTrailing(x, ws);
  }

  // ---------------------------------------------------------------------------
  // Joining lines
  // ---------------------------------------------------------------------------

  /** The lines joined by "\n", with no newline after the last one. */
  function JoinLines(lines: seq<string>): string
  {
    if |lines| == 0 then ""
    else if |lines| == 1 then lines[0]
    else lines[0] + "\n" + JoinLines(lines[1..])
  }

  /** Each line followed by "\n": what a loop that appends `line + "\n"` builds. */
  function Terminated(lines: seq<string>): string
  {
    if lines == [] then "" else Terminated(lines[..|lines| - 1]) + lines[|lines| - 1] + "\n"
  }

  lemma {:induction false} JoinLinesSnoc(lines: seq<string>, last: string)
    requires lines != []
    ensures JoinLines(lines + [last]) == JoinLines(lines) + "\n" + last
    decreases |lines|
  {
    if |lines| > 1 {
      assert (lines + [last])[1..] == lines[1..] + [last];
      JoinLinesSnoc(lines[1..], last);
    }
  }

  /** Terminating every line is joining them and adding one final newline. */
  lemma {:induction false} TerminatedIsJoinedPlusNewline(lines: seq<string>)
    requires lines != []
    ensures Terminated(lines) == JoinLines(lines) + "\n"
    decreases |lines|
  {
    var init := lines[..|lines| - 1];
    if init != [] {
      TerminatedIsJoinedPlusNewline(init);
      JoinLinesSnoc(init, lines[|lines| - 1]);
      assert init + [lines[|lines| - 1]] == lines;
    }
  }

  /** A join of lines whose first line is non-empty begins with that line. */
  lemma JoinLinesStartsWith(lines: seq<string>)
    requires lines != []
    ensures lines[0] <= JoinLines(lines)
  {
  }

  lemma {:induction false} JoinLinesEndsWith(lines: seq<string>)
    requires lines != []
    ensures var j := JoinLines(lines); var l := lines[|lines| - 1];
      |l| <= |j| && j[|j| - |l|..] == l
    decreases |lines|
  {
    if |lines| > 1 {
      JoinLinesEndsWith(lines[1..]);
    }
  }

  // ---------------------------------------------------------------------------
  // Splitting on a separator character
  // ---------------------------------------------------------------------------

  /** The pieces of `s` between occurrences of `sep`, empty pieces kept. */
  function Split(s: string, sep: char): (r: seq<string>)
    ensures |r| >= 1
    ensures forall k :: 0 <= k < |r| ==> sep !in r[k]
  {
    if s == [] then [""]
    else
      var rest := Split(s[1..], sep);
      if s[0] == sep then [""] + rest else [[s[0]] + rest[0]] + rest[1..]
  }

  /** The pieces put back together with the separator between them. */
  function JoinWith(parts: seq<string>, sep: char): string
    requires |parts| >= 1
  {
    if |parts| == 1 then parts[0] else parts[0] + [sep] + JoinWith(parts[1..], sep)
  }

  lemma {:induction false} SplitNoSeparator(s: string, sep: char)
    requires sep !in s
    ensures Split(s, sep) == [s]
    decreases |s|
  {
    if s != [] {
      SplitNoSeparator(s[1..], sep);
      assert [s[0]] + s[1..] == s;
    }
  }

  lemma {:induction false} SplitAtFirst(a: string, sep: char, b: string)
    requires sep !in a
    ensures Split(a + [sep] + b, sep) == [a] + Split(b, sep)
    decreases |a|
  {
    var s := a + [sep] + b;
    if a == [] {
      assert s[1..] == b;
    } else {
      assert s[1..] == a[1..] + [sep] + b;
      SplitAtFirst(a[1..], sep, b);
      assert [a[0]] + a[1..] == a;
    }
  }

  /** Splitting a join of separator-free pieces gives the pieces back. */
  lemma {:induction false} SplitJoinWith(parts: seq<string>, sep: char)
    requires |parts| >= 1
    requires forall k :: 0 <= k < |parts| ==> sep !in parts[k]
    ensures Split(JoinWith(parts, sep), sep) == parts
    decreases |parts|
  {
    if |parts| == 1 {
      SplitNoSeparator(parts[0], sep);
    } else {
      SplitJoinWith(parts[1..], sep);
      SplitAtFirst(parts[0], sep, JoinWith(parts[1..], sep));
    }
  }

  /** Joining the pieces of a split with the separator gives the text back. */
  lemma {:induction false} JoinWithSplit(s: string, sep: char)
    ensures JoinWith(Split(s, sep), sep) == s
    decreases |s|
  {
    if s != [] {
      JoinWithSplit(s[1..], sep);
      var rest := Split(s[1..], sep);
      if s[0] != sep {
        var r := Split(s, sep);
        assert r[0] == [s[0]] + rest[0] && r[1..] == rest[1..];
        if |rest| > 1 {
          assert JoinWith(rest, sep) == rest[0] + [sep] + JoinWith(rest[1..], sep);
        }
      } else {
        assert Split(s, sep)[1..] == rest;
      }
    }
  }

  /** Every char of the text other than the separator lies in one of the pieces. */
  lemma {:induction false} SplitCovers(s: string, sep: char, c: char)
    requires c in s && c != sep
    ensures exists k :: 0 <= k < |Split(s, sep)| && c in Split(s, sep)[k]
    decreases |s|
  {
    var r := Split(s, sep);
    var rest := Split(s[1..], sep);
    if s[0] == c {
      assert c in r[0];
    } else {
      SplitCovers(s[1..], sep, c);
      var k :| 0 <= k < |rest| && c in rest[k];
      if s[0] == sep {
        assert r[k + 1] == rest[k];
      } else if k == 0 {
        assert c in r[0];
      } else {
        assert r[k] == rest[k];
      }
    }
  }
}
