/**
 * The few pieces of the Java library whose exact behaviour the save-file decoder depends on:
 * String.split with a one-character separator, Integer.parseInt and Long.parseLong,
 * Boolean.parseBoolean, the decimal form of an int, joining with a separator, and the lines
 * a BufferedReader yields.
 */
module JavaText {
  import opened Outcomes

  const INT_MIN: int := -0x8000_0000
  const INT_MAX: int := 0x7fff_ffff
  const LONG_MIN: int := -0x8000_0000_0000_0000
  const LONG_MAX: int := 0x7fff_ffff_ffff_ffff

  /** The separator System.lineSeparator() gives on the platforms this model covers. */
  const LineSeparator: string := "\n"

  // ---------------------------------------------------------------------------------------
  // Searching and counting

  /** Index of the first `c` in `s`, or |s| when `s` has none. */
  function IndexOf(s: string, c: char): (i: nat)
    ensures i <= |s|
    ensures i < |s| ==> s[i] == c
    ensures forall j :: 0 <= j < i ==> s[j] != c
    ensures i == |s| <==> c !in s
  {
    if |s| == 0 then 0
    else if s[0] == c then 0
    else 1 + IndexOf(s[1..], c)
  }

  /** Number of occurrences of `c` in `s`. */
  function CountChar(s: string, c: char): (n: nat)
    ensures n <= |s|
    ensures n == 0 <==> c !in s
  {
    if |s| == 0 then 0
    else CountChar(s[..|s| - 1], c) + (if s[|s| - 1] == c then 1 else 0)
  }

  // ---------------------------------------------------------------------------------------
  // Splitting and joining

  /** Every field between occurrences of `sep`, empty ones included: k separators give k + 1 fields. */
  function Fields(s: string, sep: char): (r: seq<string>)
    ensures |r| >= 1
    decreases |s|
  {
    var i := IndexOf(s, sep);
    if i == |s| then [s] else [s[..i]] + Fields(s[i + 1..], sep)
  }

  /** Drops the empty fields at the end of `fs`. */
  function StripTrailingEmpty(fs: seq<string>): (r: seq<string>)
    ensures |r| <= |fs|
  {
    if fs == [] then []
    else if fs[|fs| - 1] == "" then StripTrailingEmpty(fs[..|fs| - 1])
    else fs
  }

  /**
   * String.split(sep) for a one-character separator: a string without `sep` is its own only
   * field (even the empty string); otherwise leading empty fields stay and trailing empty
   * fields are dropped, so ":" splits into no fields at all.
   */
  function Split(s: string, sep: char): (r: seq<string>)
  {
    if sep !in s then [s] else StripTrailingEmpty(Fields(s, sep))
  }

  /** The fields of `fs` with `sep` between each adjacent pair. */
  function Join(fs: seq<string>, sep: string): (r: string)
  {
    if |fs| == 0 then ""
    else if |fs| == 1 then fs[0]
    else Join(fs[..|fs| - 1], sep) + sep + fs[|fs| - 1]
  }

  /** Joining one more field of `fs` appends the separator and that field. */
  lemma JoinPrefixStep(fs: seq<string>, i: nat, sep: string)
    requires 1 <= i < |fs|
    ensures Join(fs[..i + 1], sep) == Join(fs[..i], sep) + sep + fs[i]
  {
    assert fs[..i + 1][..i] == fs[..i];
  }

  /** Every field of `fs` followed by `sep`: what a StringBuilder holds before the last separator is deleted. */
  function Terminated(fs: seq<string>, sep: string): (r: string)
  {
    if |fs| == 0 then "" else Terminated(fs[..|fs| - 1], sep) + fs[|fs| - 1] + sep
  }

  lemma {:induction false} TerminatedIsJoinPlusSeparator(fs: seq<string>, sep: string)
    requires |fs| >= 1
    ensures Terminated(fs, sep) == Join(fs, sep) + sep
  {
    if |fs| > 1 {
      TerminatedIsJoinPlusSeparator(fs[..|fs| - 1], sep);
    }
  }

  lemma {:induction false} JoinCons(x: string, fs: seq<string>, sep: string)
    requires |fs| >= 1
    ensures Join([x] + fs, sep) == x + sep + Join(fs, sep)
  {
    var xs := [x] + fs;
    if |fs| == 1 {
      assert xs[..|xs| - 1] == [x];
    } else {
      assert xs[..|xs| - 1] == [x] + fs[..|fs| - 1];
      JoinCons(x, fs[..|fs| - 1], sep);
    }
  }

  /**
   * Joining k fields with a separator that holds `c` once yields exactly k - 1 occurrences of `c`,
   * and when the last field is not empty the text does not end in `c`.
   */
  lemma {:induction false} JoinSeparatorCount(fs: seq<string>, sep: string, c: char)
    requires |fs| >= 1 && CountChar(sep, c) == 1
    requires forall k :: 0 <= k < |fs| ==> c !in fs[k]
    ensures CountChar(Join(fs, sep), c) == |fs| - 1
    ensures fs[|fs| - 1] != "" ==> Join(fs, sep)[|Join(fs, sep)| - 1] != c
  {
    var last := fs[|fs| - 1];
    if |fs| > 1 {
      var init := fs[..|fs| - 1];
      JoinSeparatorCount(init, sep, c);
      CountCharConcat(Join(init, sep) + sep, last, c);
      CountCharConcat(Join(init, sep), sep, c);
      var j := Join(fs, sep);
      if last != "" {
        assert j[|j| - 1] == last[|last| - 1];
      }
    }
  }

  lemma {:induction false} CountCharConcat(a: string, b: string, c: char)
    ensures CountChar(a + b, c) == CountChar(a, c) + CountChar(b, c)
  {
    if |b| > 0 {
      assert (a + b)[..|a + b| - 1] == a + b[..|b| - 1];
      CountCharConcat(a, b[..|b| - 1], c);
    } else {
      assert a + b == a;
    }
  }

  lemma IndexOfAfterPlainPrefix(x: string, c: char, y: string)
    requires c !in x
    ensures IndexOf(x + [c] + y, c) == |x|
  {
    var s := x + [c] + y;
    assert forall j :: 0 <= j < |x| ==> s[j] == x[j];
    assert s[|x|] == c;
  }

  lemma FieldsAfterPlainPrefix(x: string, c: char, y: string)
    requires c !in x
    ensures Fields(x + [c] + y, c) == [x] + Fields(y, c)
  {
    var s := x + [c] + y;
    IndexOfAfterPlainPrefix(x, c, y);
    assert s[..|x|] == x;
    assert s[|x| + 1..] == y;
  }

  /** Splitting a joined list gives back its fields when no field holds the separator. */
  lemma {:induction false} FieldsOfJoin(fs: seq<string>, c: char)
    requires |fs| >= 1
    requires forall k :: 0 <= k < |fs| ==> c !in fs[k]
    ensures Fields(Join(fs, [c]), c) == fs
  {
    if |fs| > 1 {
      JoinCons(fs[0], fs[1..], [c]);
      assert [fs[0]] + fs[1..] == fs;
      FieldsAfterPlainPrefix(fs[0], c, Join(fs[1..], [c]));
      FieldsOfJoin(fs[1..], c);
    }
  }

  /** A string is what comes before position i, the character at i, and what comes after. */
  lemma SplitAround(s: string, i: nat)
    requires i < |s|
    ensures s == s[..i] + [s[i]] + s[i + 1..]
  {
  }

  /** Joining the fields of a string gives back the string. */
  lemma {:induction false} JoinOfFields(s: string, c: char)
    ensures Join(Fields(s, c), [c]) == s
    decreases |s|
  {
    var i := IndexOf(s, c);
    if i < |s| {
      var rest := s[i + 1..];
      var tail := Fields(rest, c);
      assert Fields(s, c) == [s[..i]] + tail;
      JoinOfFields(rest, c);
      JoinCons(s[..i], tail, [c]);
      SplitAround(s, i);
    }
  }

  /** String.split undoes joining when no field holds the separator and the last field is not empty. */
  lemma SplitOfJoin(fs: seq<string>, c: char)
    requires |fs| >= 1
    requires forall k :: 0 <= k < |fs| ==> c !in fs[k]
    requires fs[|fs| - 1] != "" || |fs| == 1
    ensures Split(Join(fs, [c]), c) == fs
  {
    FieldsOfJoin(fs, c);
    if |fs| > 1 {
      JoinCons(fs[0], fs[1..], [c]);
      assert [fs[0]] + fs[1..] == fs;
      assert Join(fs, [c])[|fs[0]|] == c;
    }
  }

  lemma SplitOfPlain(s: string, c: char)
    requires c !in s
    ensures Split(s, c) == [s]
  {
  }

  /** A separator at the end of the text adds one empty field. */
  lemma {:induction false} FieldsOfTrailingSeparator(s: string, c: char)
    ensures Fields(s + [c], c) == Fields(s, c) + [""]
    decreases |s|
  {
    var i := IndexOf(s, c);
    if i == |s| {
      FieldsAfterPlainPrefix(s, c, []);
      assert s + [c] == s + [c] + [];
      assert Fields([], c) == [""];
      assert Fields(s, c) == [s];
    } else {
      var x, y := s[..i], s[i + 1..];
      SplitAround(s, i);
      FieldsOfTrailingSeparator(y, c);
      TrailingSeparatorAfterField(x, c, y);
    }
  }

  /** The step of FieldsOfTrailingSeparator past a first field that holds no separator. */
  lemma TrailingSeparatorAfterField(x: string, c: char, y: string)
    requires c !in x
    requires Fields(y + [c], c) == Fields(y, c) + [""]
    ensures Fields(x + [c] + y + [c], c) == Fields(x + [c] + y, c) + [""]
  {
    Reassociate(x + [c], y, [c]);
    FieldsAfterPlainPrefix(x, c, y + [c]);
    FieldsAfterPlainPrefix(x, c, y);
    ConsSnoc(x, Fields(y, c), "");
  }

  /** Concatenation of text regroups freely. */
  lemma Reassociate(a: string, b: string, d: string)
    ensures a + b + d == a + (b + d)
  {
  }

  /** A field in front and a field at the back can be added in either order. */
  lemma ConsSnoc(a: string, b: seq<string>, z: string)
    ensures [a] + (b + [z]) == ([a] + b) + [z]
  {
  }

  /** String.split drops trailing empty fields: a separator added to non-empty text changes nothing. */
  lemma SplitIgnoresTrailingSeparator(s: string, c: char)
    requires s != ""
    ensures Split(s + [c], c) == Split(s, c)
  {
    FieldsOfTrailingSeparator(s, c);
    var fs := Fields(s, c);
    assert c in s + [c];
    assert (fs + [""])[..|fs|] == fs;
    assert Split(s + [c], c) == StripTrailingEmpty(fs);
    if c !in s {
      assert fs == [s];
    }
  }

  // ---------------------------------------------------------------------------------------
  // Integers

  predicate IsDigit(ch: char) {
    '0' <= ch <= '9'
  }

  predicate AllDigits(s: string) {
    forall k :: 0 <= k < |s| ==> IsDigit(s[k])
  }

  /** The value of a string of decimal digits, most significant first. */
  function DigitsValue(ds: string): nat
    requires AllDigits(ds)
  {
    if ds == [] then 0
    else DigitsValue(ds[..|ds| - 1]) * 10 + (ds[|ds| - 1] as int - '0' as int)
  }

  /**
   * Integer.parseInt and Long.parseLong for the range [lo, hi]: an optional '+' or '-' and then
   * at least one decimal digit, with a value in range; anything else is a NumberFormatException.
   */
  function ParseIntegral(s: string, lo: int, hi: int): (r: Option<int>)
    ensures r.Some? ==> lo <= r.value <= hi
  {
    if |s| == 0 then None
    else
      var digits := if s[0] == '-' || s[0] == '+' then s[1..] else s;
      if |digits| == 0 || !AllDigits(digits) then None
      else
        var v: int := if s[0] == '-' then -(DigitsValue(digits) as int) else DigitsValue(digits);
        if lo <= v <= hi then Some(v) else None
  }

  /** Integer.parseInt: None stands for NumberFormatException. */
  function ParseInt(s: string): Option<int> {
    ParseIntegral(s, INT_MIN, INT_MAX)
  }

  /** Long.parseLong: None stands for NumberFormatException. */
  function ParseLong(s: string): Option<int> {
    ParseIntegral(s, LONG_MIN, LONG_MAX)
  }

  function DigitChar(d: int): (c: char)
    requires 0 <= d <= 9
    ensures IsDigit(c) && c as int - '0' as int == d
  {
    ('0' as int + d) as char
  }

  /** The decimal form of a non-negative number, without leading zeros. */
  function NatToString(n: nat): (s: string)
    ensures |s| >= 1 && AllDigits(s)
  {
    if n < 10 then [DigitChar(n)] else NatToString(n / 10) + [DigitChar(n % 10)]
  }

  /** Integer.toString and string concatenation of an int. */
  function IntToString(i: int): string {
    if i < 0 then "-" + NatToString(-i) else NatToString(i)
  }

  lemma {:induction false} DigitsValueOfNatToString(n: nat)
    ensures DigitsValue(NatToString(n)) == n
  {
    if n >= 10 {
      var s := NatToString(n);
      assert s[..|s| - 1] == NatToString(n / 10);
      DigitsValueOfNatToString(n / 10);
    }
  }

  /** Parsing the decimal form of a number in range gives the number back. */
  lemma ParseIntegralOfIntToString(i: int, lo: int, hi: int)
    requires lo <= i <= hi
    ensures ParseIntegral(IntToString(i), lo, hi) == Some(i)
  {
    var s := IntToString(i);
    if i < 0 {
      var digits := NatToString(-i);
      assert s[0] == '-' && s[1..] == digits;
      DigitsValueOfNatToString(-i);
      assert AllDigits(digits) && DigitsValue(digits) == -i;
    } else {
      DigitsValueOfNatToString(i);
      assert IsDigit(s[0]) && s[0] != '-' && s[0] != '+';
    }
  }

  lemma NatToStringHasNo(n: nat, c: char)
    requires !IsDigit(c)
    ensures c !in NatToString(n)
  {
    var s := NatToString(n);
    assert forall k :: 0 <= k < |s| ==> s[k] != c;
  }

  // ---------------------------------------------------------------------------------------
  // Booleans

  function LowerAscii(ch: char): char {
    if 'A' <= ch <= 'Z' then (ch as int + 32) as char else ch
  }

  /** String.equalsIgnoreCase for ASCII letters. */
  predicate EqualsIgnoreCase(a: string, b: string) {
    |a| == |b| && forall k :: 0 <= k < |a| ==> LowerAscii(a[k]) == LowerAscii(b[k])
  }

  /** Boolean.parseBoolean: true exactly when the token is "true" ignoring case; any other token is false. */
  function ParseBoolean(s: string): (b: bool)
    ensures b <==> EqualsIgnoreCase(s, "true")
  {
    |s| == 4 && LowerAscii(s[0]) == 't' && LowerAscii(s[1]) == 'r'
    && LowerAscii(s[2]) == 'u' && LowerAscii(s[3]) == 'e'
  }

  // ---------------------------------------------------------------------------------------
  // Lines

  /**
   * The lines BufferedReader.readLine yields for a text whose lines end in LineSeparator:
   * a terminator right at the end of the text does not start another line.
   */
  function ReaderLines(text: string): (r: seq<string>)
  {
    if text == [] then []
    else
      var fs := Fields(text, '\n');
      if fs[|fs| - 1] == "" then fs[..|fs| - 1] else fs
  }

  /** Two lines joined by LineSeparator read back as those two lines, or as one if the second is empty. */
  lemma ReaderLinesOfTwo(first: string, second: string)
    requires '\n' !in first && '\n' !in second
    ensures ReaderLines(first + LineSeparator + second) == if second == "" then [first] else [first, second]
  {
    var text := first + LineSeparator + second;
    assert text == first + ['\n'] + second;
    FieldsAfterPlainPrefix(first, '\n', second);
  }
}
