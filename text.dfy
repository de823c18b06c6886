/** String helpers shared by the models: the few JavaScript and Python string
    operations the source relies on (`startsWith`, `endsWith`, `includes`/`in`,
    `toLowerCase`/`lower`, `replace(/\D/g, '')`, `String(n)`, `padStart`,
    `split`, `str.replace`), written over `seq<char>`. */
module Text {

  import opened Lists

  predicate IsDigit(c: char)
  {
    '0' <= c <= '9'
  }

  predicate AllDigits(s: string)
  {
    forall i :: 0 <= i < |s| ==> IsDigit(s[i])
  }

  /** Lower-casing of one character; only the ASCII letters are mapped. */
  function LowerChar(c: char): char
  {
    if 'A' <= c <= 'Z' then (c as int + 32) as char else c
  }

  function Lower(s: string): (r: string)
    ensures |r| == |s|
    ensures forall i :: 0 <= i < |s| ==> r[i] == LowerChar(s[i])
  {
    if s == [] then [] else [LowerChar(s[0])] + Lower(s[1..])
  }

  predicate StartsWith(s: string, prefix: string)
  {
    |prefix| <= |s| && s[..|prefix|] == prefix
  }

  predicate EndsWith(s: string, suffix: string)
  {
    |suffix| <= |s| && s[|s| - |suffix|..] == suffix
  }

  /** `s.includes(sub)` in JavaScript, `sub in s` in Python. */
  predicate Contains(s: string, sub: string)
    decreases |s|
  {
    StartsWith(s, sub) || (|s| > 0 && Contains(s[1..], sub))
  }

  lemma {:induction false} ContainsSuffix(s: string, suffix: string)
    requires EndsWith(s, suffix)
    ensures Contains(s, suffix)
    decreases |s|
  {
    if |suffix| < |s| {
      assert s[1..][|s[1..]| - |suffix|..] == s[|s| - |suffix|..];
      ContainsSuffix(s[1..], suffix);
    } else {
      assert s[..|suffix|] == s[|s| - |suffix|..];
    }
  }

  /** `s.replace(/\D/g, '')`: the ASCII digits of `s`, in order. */
  function Digits(s: string): (r: string)
    ensures AllDigits(r)
    ensures |r| <= |s|
  {
    if s == [] then []
    else if IsDigit(s[0]) then [s[0]] + Digits(s[1..])
    else Digits(s[1..])
  }

  /** `Digits` keeps exactly the digit characters of `s`, in their order. */
  lemma {:induction false} DigitsAreFilter(s: string)
    ensures Digits(s) == Filter(s, IsDigit)
  {
    if s != [] {
      DigitsAreFilter(s[1..]);
    }
  }

  lemma {:induction false} DigitsOfDigits(s: string)
    requires AllDigits(s)
    ensures Digits(s) == s
  {
    if s != [] {
      DigitsOfDigits(s[1..]);
    }
  }

  function Repeat(c: char, k: nat): (r: string)
    ensures |r| == k
    ensures forall i :: 0 <= i < k ==> r[i] == c
  {
    seq(k, _ => c)
  }

  function DigitChar(d: nat): (c: char)
    requires d < 10
    ensures IsDigit(c)
  {
    ('0' as int + d) as char
  }

  function DigitValue(c: char): (d: nat)
    requires IsDigit(c)
    ensures d < 10
    ensures DigitChar(d) == c
  {
    c as int - '0' as int
  }

  /** `String(n)` for a non-negative integer: its decimal digits, no leading zero. */
  function Decimal(n: nat): (r: string)
    ensures 1 <= |r|
    ensures AllDigits(r)
    ensures n > 0 ==> r[0] != '0'
    decreases n
  {
    if n < 10 then [DigitChar(n)] else Decimal(n / 10) + [DigitChar(n % 10)]
  }

  /** The value of a string of decimal digits; leading zeros are allowed. */
  /** A number below 10, 100 or 1000 prints with at most one, two or three digits. */
  lemma DecimalWidth(n: nat)
    ensures n < 10 ==> |Decimal(n)| == 1
    ensures n < 100 ==> |Decimal(n)| <= 2
    ensures n < 1000 ==> |Decimal(n)| <= 3
  {
    if n >= 10 {
      DecimalWidth(n / 10);
    }
  }

  function ParseDecimal(s: string): (r: nat)
    requires AllDigits(s)
  {
    if s == [] then 0 else ParseDecimal(s[..|s| - 1]) * 10 + DigitValue(s[|s| - 1])
  }

  lemma {:induction false} ParseDecimalOfDecimal(n: nat)
    ensures ParseDecimal(Decimal(n)) == n
    decreases n
  {
    if n >= 10 {
      var d := Decimal(n / 10);
      assert (d + [DigitChar(n % 10)])[..|d|] == d;
      ParseDecimalOfDecimal(n / 10);
    }
  }

  lemma {:induction false} ParseDecimalOfZeros(k: nat)
    ensures ParseDecimal(Repeat('0', k)) == 0
  {
    if k > 0 {
      assert Repeat('0', k)[..k - 1] == Repeat('0', k - 1);
      ParseDecimalOfZeros(k - 1);
    }
  }

  lemma {:induction false} ParseDecimalIgnoresLeadingZeros(k: nat, s: string)
    requires AllDigits(s)
    ensures AllDigits(Repeat('0', k) + s)
    ensures ParseDecimal(Repeat('0', k) + s) == ParseDecimal(s)
  {
    var z := Repeat('0', k);
    if s == [] {
      assert z + s == z;
      ParseDecimalOfZeros(k);
    } else {
      var init := s[..|s| - 1];
      assert (z + s)[..|z + s| - 1] == z + init;
      ParseDecimalIgnoresLeadingZeros(k, init);
    }
  }

  /** `s.padStart(width, fill)` with a one-character fill. */
  function PadStart(s: string, width: nat, fill: char): (r: string)
    ensures |r| == if |s| < width then width else |s|
    ensures EndsWith(r, s)
    ensures forall i :: 0 <= i < |r| - |s| ==> r[i] == fill
  {
    if |s| >= width then s
    else
      var r := Repeat(fill, width - |s|) + s;
      assert r[|r| - |s|..] == s;
      r
  }

  /** The pieces of `s` between separator characters, like `s.split(sep)`
      (empty pieces included). */
  function SplitOn(s: string, sep: char -> bool): (r: seq<string>)
    ensures 1 <= |r|
    ensures forall i, j :: 0 <= i < |r| && 0 <= j < |r[i]| ==> !sep(r[i][j])
  {
    if s == [] then [[]]
    else
      var rest := SplitOn(s[1..], sep);
      if sep(s[0]) then [[]] + rest else [[s[0]] + rest[0]] + rest[1..]
  }

  /** A string without separators is a single piece. */
  lemma {:induction false} SplitOnPlain(s: string, sep: char -> bool)
    requires forall i :: 0 <= i < |s| ==> !sep(s[i])
    ensures SplitOn(s, sep) == [s]
  {
    if s != [] {
      SplitOnPlain(s[1..], sep);
      assert [s[0]] + s[1..] == s;
    }
  }

  /** The first separator ends the first piece. */
  lemma {:induction false} SplitOnAt(a: string, c: char, b: string, sep: char -> bool)
    requires forall i :: 0 <= i < |a| ==> !sep(a[i])
    requires sep(c)
    ensures SplitOn(a + [c] + b, sep) == [a] + SplitOn(b, sep)
  {
    var s := a + [c] + b;
    if a == [] {
      assert s[1..] == b;
    } else {
      assert s[1..] == a[1..] + [c] + b;
      SplitOnAt(a[1..], c, b, sep);
      assert [a[0]] + a[1..] == a;
    }
  }

  /** The pieces that are not empty, in their order. */
  function NonEmpty(pieces: seq<string>): (r: seq<string>)
    ensures forall i :: 0 <= i < |r| ==> r[i] != [] && r[i] in pieces
    ensures forall p :: p in pieces && p != [] ==> p in r
  {
    if pieces == [] then []
    else if pieces[0] == [] then NonEmpty(pieces[1..])
    else [pieces[0]] + NonEmpty(pieces[1..])
  }

  /** The characters Python's `str.isspace` accepts. */
  predicate IsSpace(c: char)
  {
    c == ' ' || '\t' <= c <= '\r' || '\U{1c}' <= c <= '\U{1f}'
    || c == '\U{85}' || c == '\U{a0}' || c == '\U{1680}' || '\U{2000}' <= c <= '\U{200a}'
    || c == '\U{2028}' || c == '\U{2029}' || c == '\U{202f}' || c == '\U{205f}' || c == '\U{3000}'
  }

  /** Python's `s.split()`: the maximal runs of non-whitespace characters. */
  function Words(s: string): (r: seq<string>)
    ensures forall i :: 0 <= i < |r| ==> r[i] != []
    ensures forall i, j :: 0 <= i < |r| && 0 <= j < |r[i]| ==> !IsSpace(r[i][j])
  {
    NonEmpty(SplitOn(s, IsSpace))
  }

  /** The strings of `pieces` one after another. */
  function Joined(pieces: seq<string>): (r: string)
    ensures |pieces| == 1 ==> r == pieces[0]
  {
    if pieces == [] then [] else pieces[0] + Joined(pieces[1..])
  }

  function NotSpace(c: char): bool
  {
    !IsSpace(c)
  }

  /** Dropping the empty pieces leaves the joined text unchanged. */
  lemma {:induction false} JoinedNonEmpty(pieces: seq<string>)
    ensures Joined(NonEmpty(pieces)) == Joined(pieces)
  {
    if pieces != [] {
      JoinedNonEmpty(pieces[1..]);
      if pieces[0] == [] {
        assert Joined(pieces) == Joined(pieces[1..]);
      }
    }
  }

  /** Splitting on whitespace loses only the whitespace. */
  lemma {:induction false} JoinedSplitOnSpace(s: string)
    ensures Joined(SplitOn(s, IsSpace)) == Filter(s, NotSpace)
  {
    if s != [] {
      var rest := SplitOn(s[1..], IsSpace);
      JoinedSplitOnSpace(s[1..]);
      if !IsSpace(s[0]) {
        var first := [s[0]] + rest[0];
        assert ([first] + rest[1..])[1..] == rest[1..];
        assert Joined([first] + rest[1..]) == first + Joined(rest[1..]);
        assert Joined(rest) == rest[0] + Joined(rest[1..]);
      } else {
        assert ([[]] + rest)[1..] == rest;
      }
    }
  }

  /** `split()` drops no text: the words, joined, are the string's
      non-whitespace characters in their order. */
  lemma WordsKeepText(s: string)
    ensures Joined(Words(s)) == Filter(s, NotSpace)
  {
    JoinedNonEmpty(SplitOn(s, IsSpace));
    JoinedSplitOnSpace(s);
  }

  /** Python's `s.replace(pat, '')`: every non-overlapping occurrence of `pat`,
      scanning from the left, removed. */
  function RemoveAll(s: string, pat: string): (r: string)
    requires pat != []
    decreases |s|
  {
    if |s| < |pat| then s
    else if s[..|pat|] == pat then RemoveAll(s[|pat|..], pat)
    else [s[0]] + RemoveAll(s[1..], pat)
  }

  /** `pat` occurs in `s` at index `i`. */
  predicate OccursAt(s: string, pat: string, i: nat)
  {
    i + |pat| <= |s| && s[i..i + |pat|] == pat
  }

  /** A string in which `pat` does not occur is left alone by `replace`. */
  lemma {:induction false} RemoveAllAbsent(s: string, pat: string)
    requires pat != []
    requires forall i: nat :: !OccursAt(s, pat, i)
    ensures RemoveAll(s, pat) == s
    decreases |s|
  {
    if |s| >= |pat| {
      assert !OccursAt(s, pat, 0);
      assert s[0..|pat|] == s[..|pat|];
      forall i: nat
        ensures !OccursAt(s[1..], pat, i)
      {
        assert !OccursAt(s, pat, i + 1);
        if i + |pat| <= |s[1..]| {
          assert s[1..][i..i + |pat|] == s[i + 1..i + 1 + |pat|];
        }
      }
      RemoveAllAbsent(s[1..], pat);
      assert [s[0]] + s[1..] == s;
    }
  }
}
