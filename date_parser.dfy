/**
  DateParser.giveDate: a dotted "year.month.day" date becomes "day Mon year";
  anything else gives null (None), never a partial date.

  Only two cases of this function are pinned down ("2020.11.11" and
  "2020/11.11"); the policy for the rest is this model's:
  - the text must be exactly three non-empty runs of ASCII digits separated
    by '.';
  - the month must be 1..12 and picks its abbreviation from a fixed table;
  - the day must be 1..31 (no check against the month's length);
  - day and year are written as decimal numbers, so leading zeros drop out.
 */
module DateParser {
  import opened Wrappers
  import opened Strings

  const MonthNames: seq<string> :=
    ["Jan", "Feb", "Mar", "Apr", "May", "Jun", "Jul", "Aug", "Sep", "Oct", "Nov", "Dec"]

  /** The three-letter abbreviation of month m (1 = January). */
  function MonthAbbrev(m: int): (r: string)
    requires 1 <= m <= 12
    ensures |r| == 3 && r == MonthNames[m - 1]
  {
    MonthNames[m - 1]
  }

  /** The three fields of a dotted date, when the text has that shape. */
  predicate IsDottedDate(parts: seq<string>)
  {
    |parts| == 3 && IsNumeral(parts[0]) && IsNumeral(parts[1]) && IsNumeral(parts[2])
  }

  /** DateParser.giveDate. */
  function GiveDate(raw: string): (r: Option<string>)
    ensures r.Some? ==> IsDottedDate(Split(raw, '.'))
  {
    var parts := Split(raw, '.');
    if !IsDottedDate(parts) then None
    else
      var year, month, day := DigitsValue(parts[0]), DigitsValue(parts[1]), DigitsValue(parts[2]);
      if 1 <= month <= 12 && 1 <= day <= 31 then
        Some(NatToString(day) + " " + MonthAbbrev(month) + " " + NatToString(year))
      else None
  }

  /** The dotted text of a date given as numbers. */
  function Dotted(year: nat, month: nat, day: nat): string
  {
    JoinWith([NatToString(year), NatToString(month), NatToString(day)], '.')
  }

  /** Three pieces joined with '.' between them. */
  lemma JoinWithThree(y: string, m: string, d: string)
    ensures JoinWith([y, m, d], '.') == y + "." + m + "." + d
  {
    assert [y, m, d][1..] == [m, d];
    assert [m, d][1..] == [d];
    assert JoinWith([m, d], '.') == m + ['.'] + d;
    assert y + ['.'] + (m + ['.'] + d) == y + "." + m + "." + d;
  }

  /**
    Any three digit runs joined by dots, leading zeros included: the date is
    reordered into day, month abbreviation and year when the month is 1..12
    and the day 1..31, and is null otherwise.
   */
  lemma GiveDateOfNumerals(y: string, m: string, d: string)
    requires IsNumeral(y) && IsNumeral(m) && IsNumeral(d)
    ensures var year, month, day := DigitsValue(y), DigitsValue(m), DigitsValue(d);
      GiveDate(y + "." + m + "." + d)
      == if 1 <= month <= 12 && 1 <= day <= 31
         then Some(NatToString(day) + " " + MonthAbbrev(month) + " " + NatToString(year))
         else None
  {
    var parts := [y, m, d];
    forall k | 0 <= k < 3
      ensures '.' !in parts[k]
    {
      DigitsExclude(parts[k], '.');
    }
    SplitJoinWith(parts, '.');
    JoinWithThree(y, m, d);
  }

  /** Every accepted text is three digit runs joined by dots, so the lemma above covers it. */
  lemma GiveDateIsDotted(raw: string)
    requires GiveDate(raw).Some?
    ensures var parts := Split(raw, '.');
      |parts| == 3 && IsNumeral(parts[0]) && IsNumeral(parts[1]) && IsNumeral(parts[2])
      && raw == parts[0] + "." + parts[1] + "." + parts[2]
  {
    var parts := Split(raw, '.');
    JoinWithSplit(raw, '.');
    assert parts == [parts[0], parts[1], parts[2]];
    JoinWithThree(parts[0], parts[1], parts[2]);
  }

  /** The dotted text of numbers written without leading zeros is reordered as above. */
  lemma GiveDateOfDotted(year: nat, month: nat, day: nat)
    requires 1 <= month <= 12 && 1 <= day <= 31
    ensures GiveDate(Dotted(year, month, day))
         == Some(NatToString(day) + " " + MonthAbbrev(month) + " " + NatToString(year))
  {
    GiveDateOfNumerals(NatToString(year), NatToString(month), NatToString(day));
    JoinWithThree(NatToString(year), NatToString(month), NatToString(day));
    DigitsValueOfNatToString(year);
    DigitsValueOfNatToString(month);
    DigitsValueOfNatToString(day);
  }

  /** A date is recognised only in text made of digits and dots. */
  lemma GiveDateOnlyDigitsAndDots(raw: string, c: char)
    requires GiveDate(raw).Some? && c in raw
    ensures IsDigit(c) || c == '.'
  {
    if c != '.' {
      SplitCovers(raw, '.', c);
      var parts := Split(raw, '.');
      var k :| 0 <= k < |parts| && c in parts[k];
      var j :| 0 <= j < |parts[k]| && parts[k][j] == c;
      assert IsDigit(parts[k][j]);
    }
  }

  /** Any other separator, even in one place, gives null rather than a partial date. */
  lemma GiveDateRejectsSlash(raw: string)
    requires '/' in raw
    ensures GiveDate(raw) == None
  {
    if GiveDate(raw).Some? {
      GiveDateOnlyDigitsAndDots(raw, '/');
    }
  }

  /** The numbers of the dotted date in DateParserTest.dummyTest. */
  lemma SampleDate()
    ensures NatToString(2020) == "2020"
    ensures Dotted(2020, 11, 11) == "2020.11.11"
    ensures NatToString(11) + " " + MonthAbbrev(11) + " " + NatToString(2020) == "11 Nov 2020"
  {
    assert NatToString(2020) == "2020" by {
      assert NatToString(2) == "2";
      assert NatToString(20) == "20";
      assert NatToString(202) == "202";
    }
    assert NatToString(11) == "11" by {
      assert NatToString(1) == "1";
    }
    assert Dotted(2020, 11, 11) == "2020" + ['.'] + ("11" + ['.'] + "11");
  }

  /** DateParserTest.dummyTest. */
  lemma GiveDateExample()
    ensures GiveDate("2020.11.11") == Some("11 Nov 2020")
  {
    GiveDateOfDotted(2020, 11, 11);
    SampleDate();
  }

  /** DateParserTest.anotherDummyTest. */
  lemma GiveDateSlashExample()
    ensures GiveDate("2020/11.11") == None
  {
    GiveDateRejectsSlash("2020/11.11");
  }

  /** The fields of the zero-padded date "2020.01.05". */
  lemma PaddedSample()
    ensures DigitsValue("2020") == 2020 && DigitsValue("01") == 1 && DigitsValue("05") == 5
    ensures NatToString(5) + " " + MonthAbbrev(1) + " " + NatToString(2020) == "5 Jan 2020"
  {
    SampleDate();
    DigitsValueOfNatToString(2020);
    assert DigitsValue("0") == 0 by { assert "0"[..0] == ""; }
    assert DigitsValue("01") == 1 by { assert "01"[..1] == "0"; }
    assert DigitsValue("05") == 5 by { assert "05"[..1] == "0"; }
  }

  /** A zero-padded month and day lose their leading zeros. */
  lemma GiveDatePaddedExample()
    ensures GiveDate("2020.01.05") == Some("5 Jan 2020")
  {
    PaddedSample();
    GiveDateOfNumerals("2020", "01", "05");
    assert "2020" + "." + "01" + "." + "05" == "2020.01.05";
  }

  /** A month outside 1..12 gives null. */
  lemma GiveDateMonthOutOfRangeExample()
    ensures GiveDate("2020.13.01") == None
  {
    assert DigitsValue("13") == 13 by { assert "13"[..1] == "1"; }
    GiveDateOfNumerals("2020", "13", "01");
    assert "2020" + "." + "13" + "." + "01" == "2020.13.01";
  }
}
