/**
  The date stamp drawn on the certificate: the local calendar date at render
  time as `day/month/year`, with a one-based month and no zero padding. The
  wall clock is not modelled; the date is passed in as a `Today` value.

  `ParseStamp` is the reference reading of a stamp; it is proved to invert
  `Stamp` in both directions, which pins the format down exactly.
*/
module DateStamp {
  import opened Wrappers
  import opened Decimal

  /** The local date as `Date` reports it: day of month, zero-based month, full year. */
  datatype Today = Today(day: int, month0: int, year: int)

  const Separator: char := '/'

  /** The stamp text built from `getDate()`, `getMonth() + 1` and `getFullYear()`. */
  function Stamp(t: Today): (s: string)
    ensures |s| >= 5
  {
    IntToDecimal(t.day) + [Separator] + IntToDecimal(t.month0 + 1) + [Separator] + IntToDecimal(t.year)
  }

  /** Position of the first separator in `s`, or `|s|` when there is none. */
  function SeparatorIndex(s: string): (k: nat)
    ensures k <= |s|
    ensures k < |s| ==> s[k] == Separator
    ensures forall j :: 0 <= j < k ==> s[j] != Separator
  {
    if |s| == 0 || s[0] == Separator then 0 else 1 + SeparatorIndex(s[1..])
  }

  /** The separator-free pieces of `s`, left to right. */
  function Split(s: string): (parts: seq<string>)
    ensures |parts| >= 1
    decreases |s|
  {
    var k := SeparatorIndex(s);
    if k == |s| then [s] else [s[..k]] + Split(s[k + 1..])
  }

  /** The pieces glued back together with the separator between neighbours. */
  function Join(parts: seq<string>): string
    requires |parts| >= 1
  {
    if |parts| == 1 then parts[0] else parts[0] + [Separator] + Join(parts[1..])
  }

  /** Reads `d/m/y` back into its three integers; anything else is rejected. */
  function ParseStamp(s: string): Option<(int, int, int)> {
    var parts := Split(s);
    if |parts| == 3 && ParseInt(parts[0]).Some? && ParseInt(parts[1]).Some? && ParseInt(parts[2]).Some? then
      Some((ParseInt(parts[0]).value, ParseInt(parts[1]).value, ParseInt(parts[2]).value))
    else
      None
  }

  lemma {:induction false} SeparatorIndexOfPrefix(a: string, rest: string)
    requires Separator !in a
    ensures SeparatorIndex(a + [Separator] + rest) == |a|
    decreases |a|
  {
    if |a| > 0 {
      assert (a + [Separator] + rest)[1..] == a[1..] + [Separator] + rest;
      SeparatorIndexOfPrefix(a[1..], rest);
    }
  }

  lemma SplitOfPrefix(a: string, rest: string)
    requires Separator !in a
    ensures Split(a + [Separator] + rest) == [a] + Split(rest)
  {
    var s := a + [Separator] + rest;
    SeparatorIndexOfPrefix(a, rest);
    assert s[..|a|] == a;
    assert s[|a| + 1..] == rest;
  }

  lemma SplitOfPlain(a: string)
    requires Separator !in a
    ensures Split(a) == [a]
  {
  }

  /** Joining a head onto further pieces puts one separator after the head. */
  lemma JoinCons(head: string, rest: seq<string>)
    requires |rest| >= 1
    ensures Join([head] + rest) == head + [Separator] + Join(rest)
  {
    var parts := [head] + rest;
    assert parts[0] == head && parts[1..] == rest;
  }

  /** Splitting loses nothing: joining the pieces gives the original text. */
  lemma {:induction false} JoinSplit(s: string)
    ensures Join(Split(s)) == s
    decreases |s|
  {
    var k := SeparatorIndex(s);
    if k < |s| {
      var head, rest := s[..k], s[k + 1..];
      CutAtSeparator(s, k);
      assert Separator !in head by {
        assert forall j :: 0 <= j < |head| ==> head[j] == s[j];
      }
      SplitOfPrefix(head, rest);
      JoinCons(head, Split(rest));
      JoinSplit(rest);
    }
  }

  /** A text cut at one of its separators is the part before, the separator, and the part after. */
  lemma CutAtSeparator(s: string, k: nat)
    requires k < |s| && s[k] == Separator
    ensures s == s[..k] + [Separator] + s[k + 1..]
  {
  }

  lemma NoSeparatorInDecimal(i: int)
    ensures Separator !in IntToDecimal(i)
  {
    DecimalAlphabet(i);
  }

  /** Two separator-free pieces joined by a separator split back into those pieces. */
  lemma SplitOfTwo(b: string, c: string)
    requires Separator !in b && Separator !in c
    ensures Split(b + [Separator] + c) == [b, c]
  {
    SplitOfPrefix(b, c);
    SplitOfPlain(c);
  }

  /** Regrouping three pieces around their separators. */
  lemma JoinedThree(a: string, b: string, c: string)
    ensures a + [Separator] + b + [Separator] + c == a + [Separator] + (b + [Separator] + c)
  {
  }

  /** Three separator-free pieces joined by separators split back into those pieces. */
  lemma SplitOfThree(a: string, b: string, c: string)
    requires Separator !in a && Separator !in b && Separator !in c
    ensures Split(a + [Separator] + b + [Separator] + c) == [a, b, c]
  {
    JoinedThree(a, b, c);
    SplitOfTwo(b, c);
    SplitOfPrefix(a, b + [Separator] + c);
  }

  /** The stamp reads back as the day, the one-based month and the year. */
  lemma ParseStampOfStamp(t: Today)
    ensures ParseStamp(Stamp(t)) == Some((t.day, t.month0 + 1, t.year))
  {
    var a, b, c := IntToDecimal(t.day), IntToDecimal(t.month0 + 1), IntToDecimal(t.year);
    assert Split(Stamp(t)) == [a, b, c] by {
      NoSeparatorInDecimal(t.day);
      NoSeparatorInDecimal(t.month0 + 1);
      NoSeparatorInDecimal(t.year);
      SplitOfThree(a, b, c);
    }
    assert ParseInt(a) == Some(t.day) by {
      ParseIntOfDecimal(t.day);
    }
    assert ParseInt(b) == Some(t.month0 + 1) by {
      ParseIntOfDecimal(t.month0 + 1);
    }
    assert ParseInt(c) == Some(t.year) by {
      ParseIntOfDecimal(t.year);
    }
  }

  /** Every text that reads as a stamp is exactly the stamp of that date: no padding, no other spelling. */
  lemma StampOfParseStamp(s: string)
    requires ParseStamp(s).Some?
    ensures var (d, m, y) := ParseStamp(s).value; s == Stamp(Today(d, m - 1, y))
  {
    var parts := Split(s);
    var d, m, y := ParseInt(parts[0]).value, ParseInt(parts[1]).value, ParseInt(parts[2]).value;
    assert ParseStamp(s).value == (d, m, y);
    assert s == parts[0] + [Separator] + parts[1] + [Separator] + parts[2] by {
      JoinSplit(s);
      JoinOfThree(parts);
    }
    assert IntToDecimal(d) == parts[0] && IntToDecimal(m) == parts[1] && IntToDecimal(y) == parts[2] by {
      DecimalOfParseInt(parts[0]);
      DecimalOfParseInt(parts[1]);
      DecimalOfParseInt(parts[2]);
    }
    assert Today(d, m - 1, y).month0 + 1 == m;
  }

  lemma JoinOfThree(parts: seq<string>)
    requires |parts| == 3
    ensures Join(parts) == parts[0] + [Separator] + parts[1] + [Separator] + parts[2]
  {
    var rest := parts[1..];
    assert rest[1..] == [parts[2]];
    assert Join(rest[1..]) == parts[2];
    assert Join(rest) == parts[1] + [Separator] + parts[2];
  }

  /** A single-digit day or month is written with one digit, not padded to two. */
  lemma StampUnpadded(t: Today)
    requires 1 <= t.day <= 9 && 0 <= t.month0 <= 8
    ensures Stamp(t)[0] == DigitChar(t.day) && Stamp(t)[1] == Separator
    ensures Stamp(t)[2] == DigitChar(t.month0 + 1) && Stamp(t)[3] == Separator
  {
  }
}
