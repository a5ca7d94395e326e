/**
 * The Python string built-ins the seam tokeniser relies on, on ASCII text:
 * `str.strip(chars)`, `str.split(sep)` with a one-character separator,
 * `str(n)` (and so `f"{n}"`) for an integer, and `int(s)` in base 10.
 */
module PythonText {
  import opened Wrappers

  // ---------------------------------------------------------------------
  // str.strip(chars)
  // ---------------------------------------------------------------------

  /** `s.lstrip(cs)`. */
  function StripLeft(s: string, cs: set<char>): string {
    if |s| > 0 && s[0] in cs then StripLeft(s[1..], cs) else s
  }

  /** `s.rstrip(cs)`. */
  function StripRight(s: string, cs: set<char>): string {
    if |s| > 0 && s[|s| - 1] in cs then StripRight(s[..|s| - 1], cs) else s
  }

  /** `lstrip` drops the longest prefix made of characters of `cs`, and nothing else. */
  lemma {:induction false} StripLeftDropsPrefix(s: string, cs: set<char>)
    ensures var r := StripLeft(s, cs);
      && |r| <= |s| && r == s[|s| - |r|..]
      && (forall i :: 0 <= i < |s| - |r| ==> s[i] in cs)
      && (|r| > 0 ==> r[0] !in cs)
  {
    if |s| > 0 && s[0] in cs {
      StripLeftDropsPrefix(s[1..], cs);
      var r := StripLeft(s[1..], cs);
      assert forall i :: 1 <= i < |s| ==> s[1..][i - 1] == s[i];
      assert s[1..][|s| - 1 - |r|..] == s[|s| - |r|..];
    }
  }

  /** `rstrip` drops the longest suffix made of characters of `cs`, and nothing else. */
  lemma {:induction false} StripRightDropsSuffix(s: string, cs: set<char>)
    ensures var r := StripRight(s, cs);
      && |r| <= |s| && r == s[..|r|]
      && (forall i :: |r| <= i < |s| ==> s[i] in cs)
      && (|r| > 0 ==> r[|r| - 1] !in cs)
  {
    if |s| > 0 && s[|s| - 1] in cs {
      StripRightDropsSuffix(s[..|s| - 1], cs);
      var r := StripRight(s[..|s| - 1], cs);
      assert s[..|s| - 1][..|r|] == s[..|r|];
    }
  }

  /** `s.strip(cs)`. */
  function Strip(s: string, cs: set<char>): string {
    StripRight(StripLeft(s, cs), cs)
  }

  /** Characters of `cs` in front of a text that does not start with one are all dropped. */
  lemma {:induction false} StripLeftPrefix(p: string, s: string, cs: set<char>)
    requires forall i :: 0 <= i < |p| ==> p[i] in cs
    requires |s| > 0 && s[0] !in cs
    ensures StripLeft(p + s, cs) == s
  {
    if |p| > 0 {
      assert (p + s)[1..] == p[1..] + s;
      StripLeftPrefix(p[1..], s, cs);
    } else {
      assert p + s == s;
    }
  }

  /** Characters of `cs` after a text that does not end with one are all dropped. */
  lemma {:induction false} StripRightSuffix(s: string, p: string, cs: set<char>)
    requires forall i :: 0 <= i < |p| ==> p[i] in cs
    requires |s| > 0 && s[|s| - 1] !in cs
    ensures StripRight(s + p, cs) == s
  {
    if |p| > 0 {
      assert (s + p)[..|s + p| - 1] == s + p[..|p| - 1];
      StripRightSuffix(s, p[..|p| - 1], cs);
    } else {
      assert s + p == s;
    }
  }

  /** Stripping removes runs of `cs` around a text that starts and ends outside `cs`. */
  lemma StripBetween(p: string, s: string, q: string, cs: set<char>)
    requires forall i :: 0 <= i < |p| ==> p[i] in cs
    requires forall i :: 0 <= i < |q| ==> q[i] in cs
    requires |s| > 0 && s[0] !in cs && s[|s| - 1] !in cs
    ensures Strip(p + s + q, cs) == s
  {
    assert p + s + q == p + (s + q);
    StripLeftPrefix(p, s + q, cs);
    StripRightSuffix(s, q, cs);
  }

  /** Stripping is the identity on a text that neither starts nor ends with a character of `cs`. */
  lemma StripUntouched(s: string, cs: set<char>)
    requires |s| > 0 && s[0] !in cs && s[|s| - 1] !in cs
    ensures Strip(s, cs) == s
  {
  }

  // ---------------------------------------------------------------------
  // str.split(sep)
  // ---------------------------------------------------------------------

  /** Number of occurrences of `c` in `s`. */
  function Count(s: string, c: char): nat {
    if |s| == 0 then 0 else (if s[0] == c then 1 else 0) + Count(s[1..], c)
  }

  /** `s.split(sep)`: the fields between separators, one more than there are separators. */
  function Split(s: string, sep: char): (r: seq<string>)
    ensures |r| == Count(s, sep) + 1
    ensures forall k :: 0 <= k < |r| ==> sep !in r[k]
  {
    if |s| == 0 then [""]
    else
      var rest := Split(s[1..], sep);
      if s[0] == sep then [""] + rest
      else [[s[0]] + rest[0]] + rest[1..]
  }

  /** `sep.join(fs)`. */
  function Join(fs: seq<string>, sep: char): string
    requires |fs| >= 1
  {
    if |fs| == 1 then fs[0] else fs[0] + [sep] + Join(fs[1..], sep)
  }

  /** Joining the fields of a split gives the text back. */
  lemma {:induction false} JoinSplit(s: string, sep: char)
    ensures Join(Split(s, sep), sep) == s
  {
    if |s| > 0 {
      var rest := Split(s[1..], sep);
      JoinSplit(s[1..], sep);
      if s[0] == sep {
        assert ([""] + rest)[1..] == rest;
      } else {
        var r := [[s[0]] + rest[0]] + rest[1..];
        assert r[1..] == rest[1..];
        if |rest| > 1 {
          assert rest == [rest[0]] + rest[1..];
          assert Join(rest, sep) == rest[0] + [sep] + Join(rest[1..], sep);
        }
      }
    }
  }

  /** Splitting a join of separator-free fields gives the fields back. */
  lemma {:induction false} SplitJoin(fs: seq<string>, sep: char)
    requires |fs| >= 1
    requires forall k :: 0 <= k < |fs| ==> sep !in fs[k]
    ensures Split(Join(fs, sep), sep) == fs
  {
    if |fs| == 1 {
      SplitPrepend(fs[0], [], sep);
      assert fs[0] + [] == fs[0];
    } else {
      SplitJoin(fs[1..], sep);
      SplitField(fs[0], Join(fs[1..], sep), sep);
      assert fs[0] + [sep] + Join(fs[1..], sep) == fs[0] + ([sep] + Join(fs[1..], sep));
      assert [fs[0]] + fs[1..] == fs;
    }
  }

  /** A separator-free field in front of a text joins the text's first field. */
  lemma {:induction false} SplitPrepend(f: string, rest: string, sep: char)
    requires sep !in f
    ensures Split(f + rest, sep) == [f + Split(rest, sep)[0]] + Split(rest, sep)[1..]
  {
    var r := Split(rest, sep);
    if |f| == 0 {
      assert f + rest == rest;
      assert f + r[0] == r[0];
      assert r == [r[0]] + r[1..];
    } else {
      SplitPrepend(f[1..], rest, sep);
      assert (f + rest)[1..] == f[1..] + rest;
      assert [f[0]] + (f[1..] + r[0]) == f + r[0];
    }
  }

  /** A separator-free field followed by the separator is a field of its own. */
  lemma SplitField(f: string, rest: string, sep: char)
    requires sep !in f
    ensures Split(f + [sep] + rest, sep) == [f] + Split(rest, sep)
  {
    SplitPrepend(f, [sep] + rest, sep);
    assert f + [sep] + rest == f + ([sep] + rest);
    assert ([sep] + rest)[1..] == rest;
    assert Split([sep] + rest, sep) == [""] + Split(rest, sep);
    assert f + "" == f;
  }

  // ---------------------------------------------------------------------
  // str(n) for an integer
  // ---------------------------------------------------------------------

  predicate IsDigit(c: char) {
    '0' <= c <= '9'
  }

  predicate AllDigits(s: string) {
    forall i :: 0 <= i < |s| ==> IsDigit(s[i])
  }

  function DigitChar(d: nat): (c: char)
    requires d < 10
    ensures IsDigit(c)
  {
    ('0' as int + d) as char
  }

  function DigitValue(c: char): (d: nat)
    requires IsDigit(c)
    ensures d < 10 && DigitChar(d) == c
  {
    c as int - '0' as int
  }

  /** Decimal digits of `n`, most significant first, without leading zeros. */
  function NatToString(n: nat): (s: string)
    ensures |s| >= 1 && AllDigits(s)
    ensures s[0] == '0' ==> n == 0
    decreases n
  {
    if n < 10 then [DigitChar(n)] else NatToString(n / 10) + [DigitChar(n % 10)]
  }

  /** `str(n)`: a minus sign in front of the digits of a negative number. */
  function IntToString(n: int): (s: string)
    ensures |s| >= 1 && IsDigit(s[|s| - 1])
    ensures s[0] == '-' || IsDigit(s[0])
    ensures ',' !in s
  {
    if n < 0 then "-" + NatToString(-n) else NatToString(n)
  }

  /** The number a string of decimal digits denotes. */
  function DigitsValue(s: string): nat
    requires AllDigits(s)
  {
    if |s| == 0 then 0 else DigitsValue(s[..|s| - 1]) * 10 + DigitValue(s[|s| - 1])
  }

  /** Reading back the digits of `n` gives `n`. */
  lemma {:induction false} NatToStringValue(n: nat)
    ensures DigitsValue(NatToString(n)) == n
    decreases n
  {
    if n >= 10 {
      var s := NatToString(n);
      NatToStringValue(n / 10);
      assert s[..|s| - 1] == NatToString(n / 10);
    }
  }

  // ---------------------------------------------------------------------
  // int(s), base 10
  // ---------------------------------------------------------------------

  /**
   * The ASCII characters `int` skips around the number: space and `\t` to
   * `\r`, the set C's `isspace` accepts.  The separators 28 to 31, which
   * `str.isspace` also accepts, are not skipped.
   */
  const AsciiSpace: set<char> := {' ', '\t', '\n', 11 as char, 12 as char, '\r'}

  /**
   * A digit group: digits with single underscores allowed between two
   * digits (`1_000`), as Python accepts in integer literals.
   */
  predicate Grouped(s: string) {
    && |s| >= 1
    && IsDigit(s[0])
    && IsDigit(s[|s| - 1])
    && (forall i :: 0 <= i < |s| ==> IsDigit(s[i]) || s[i] == '_')
    && (forall i :: 0 <= i < |s| - 1 ==> s[i] == '_' ==> s[i + 1] != '_')
  }

  function DropUnderscores(s: string): (r: string)
    ensures (forall i :: 0 <= i < |s| ==> IsDigit(s[i]) || s[i] == '_') ==> AllDigits(r)
    ensures AllDigits(s) ==> r == s
  {
    if |s| == 0 then []
    else (if s[0] == '_' then [] else [s[0]]) + DropUnderscores(s[1..])
  }

  function GroupValue(s: string): nat
    requires Grouped(s)
  {
    DigitsValue(DropUnderscores(s))
  }

  /** An optionally signed digit group, with nothing around it. */
  function ParseSigned(t: string): Option<int> {
    if |t| > 0 && (t[0] == '+' || t[0] == '-') then
      if Grouped(t[1..]) then
        var v: int := GroupValue(t[1..]);
        Some(if t[0] == '-' then -v else v)
      else None
    else if Grouped(t) then Some(GroupValue(t))
    else None
  }

  /**
   * `int(s)`: optional surrounding whitespace, an optional sign and a digit
   * group.  Anything else raises `ValueError`, modelled as `None`.
   */
  function ParseInt(s: string): Option<int> {
    ParseSigned(Strip(s, AsciiSpace))
  }

  lemma DigitsAreGrouped(s: string)
    requires |s| >= 1 && AllDigits(s)
    ensures Grouped(s) && GroupValue(s) == DigitsValue(s)
  {
  }

  lemma ParseSignedNat(n: nat)
    ensures ParseSigned(NatToString(n)) == Some(n)
  {
    DigitsAreGrouped(NatToString(n));
    NatToStringValue(n);
  }

  lemma ParseSignedNegative(n: nat)
    requires n > 0
    ensures ParseSigned("-" + NatToString(n)) == Some(-(n as int))
  {
    var s := "-" + NatToString(n);
    assert s[1..] == NatToString(n);
    ParseSignedNat(n);
  }

  lemma ParseIntTrimmed(s: string)
    requires |s| > 0 && s[0] !in AsciiSpace && s[|s| - 1] !in AsciiSpace
    ensures ParseInt(s) == ParseSigned(s)
  {
    StripUntouched(s, AsciiSpace);
  }

  lemma ParseIntNat(n: nat)
    ensures ParseInt(NatToString(n)) == Some(n)
  {
    ParseIntTrimmed(NatToString(n));
    ParseSignedNat(n);
  }

  lemma ParseIntNegative(n: nat)
    requires n > 0
    ensures ParseInt("-" + NatToString(n)) == Some(-(n as int))
  {
    ParseIntTrimmed("-" + NatToString(n));
    ParseSignedNegative(n);
  }

  /** `int(str(n)) == n` for every integer. */
  lemma ParseIntToString(n: int)
    ensures ParseInt(IntToString(n)) == Some(n)
  {
    if n < 0 {
      var m: nat := -n;
      assert IntToString(n) == "-" + NatToString(m);
      ParseIntNegative(m);
    } else {
      assert IntToString(n) == NatToString(n);
      ParseIntNat(n);
    }
  }

  /** A text without a single digit is never an integer. */
  lemma ParseIntNeedsDigit(s: string)
    requires forall i :: 0 <= i < |s| ==> !IsDigit(s[i])
    ensures ParseInt(s) == None
  {
    var t := Strip(s, AsciiSpace);
    var u := StripLeft(s, AsciiSpace);
    StripLeftDropsPrefix(s, AsciiSpace);
    StripRightDropsSuffix(u, AsciiSpace);
    assert t == u[..|t|];
    assert u == s[|s| - |u|..];
    assert forall i :: 0 <= i < |t| ==> t[i] == s[|s| - |u| + i];
    if |t| > 1 {
      assert !IsDigit(t[1]);
    }
  }

  /** Surrounding whitespace is skipped. */
  lemma ParseIntSkipsSpace()
    ensures ParseInt(" 7\n") == Some(7)
  {
    assert " 7\n" == " " + "7" + "\n";
    StripBetween(" ", "7", "\n", AsciiSpace);
    assert DigitsValue("7") == 7 by {
      assert "7"[..0] == "";
    }
  }

  lemma ParseIntSigned()
    ensures ParseInt("-12") == Some(-12)
  {
    ParseIntTrimmed("-12");
    assert "-12"[1..] == "12";
    assert DigitsValue("12") == 12 by {
      assert "12"[..1] == "1";
      assert "1"[..0] == "";
    }
  }

  /** Single underscores between digits are accepted and ignored. */
  lemma ParseIntUnderscore()
    ensures ParseInt("1_000") == Some(1000)
  {
    ParseIntTrimmed("1_000");
    assert DropUnderscores("1_000") == "1000" by {
      assert "1_000"[1..] == "_000";
      assert "_000"[1..] == "000";
    }
    assert DigitsValue("1000") == 1000 by {
      assert "1000"[..3] == "100";
      assert "100"[..2] == "10";
      assert "10"[..1] == "1";
      assert "1"[..0] == "";
    }
  }

  lemma ParseIntRejects()
    ensures ParseInt("1__0") == None
    ensures ParseInt("1 2") == None
    ensures ParseInt("") == None
  {
    ParseIntTrimmed("1__0");
    assert "1__0"[1] == '_' && "1__0"[2] == '_';
    ParseIntTrimmed("1 2");
    assert "1 2"[1] == ' ';
  }

  /** An ASCII information separator (here 28) before the digits is not whitespace to `int`. */
  lemma ParseIntRejectsSeparator()
    ensures ParseInt([28 as char, '1']) == None
  {
    ParseIntTrimmed([28 as char, '1']);
  }
}
