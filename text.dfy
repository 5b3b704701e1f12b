/** Character and string helpers shared by every model in the project.
  * Strings are `seq<char>`.  Case-insensitive comparison folds ASCII letters only;
  * whitespace is exactly the set that .NET's char.IsWhiteSpace accepts. */
module Text {

  datatype Option<T> = None | Some(value: T)

  /** char.IsWhiteSpace: U+0009..U+000D, U+0085 and the Unicode space, line and
    * paragraph separators. */
  predicate IsWhiteSpace(c: char) {
    var n := c as int;
    (0x09 <= n <= 0x0D) || n == 0x20 || n == 0x85 || n == 0xA0 || n == 0x1680
    || (0x2000 <= n <= 0x200A) || n == 0x2028 || n == 0x2029 || n == 0x202F
    || n == 0x205F || n == 0x3000
  }

  /** string.IsNullOrWhiteSpace (a null string is represented by ""). */
  predicate IsBlank(s: string) {
    forall i :: 0 <= i < |s| ==> IsWhiteSpace(s[i])
  }

  predicate IsAsciiLetter(c: char) { ('a' <= c <= 'z') || ('A' <= c <= 'Z') }
  predicate IsAsciiDigit(c: char) { '0' <= c <= '9' }

  /** char.IsLetterOrDigit, restricted to ASCII letters and digits. */
  predicate IsLetterOrDigit(c: char) { IsAsciiLetter(c) || IsAsciiDigit(c) }

  function LowerChar(c: char): (r: char)
    ensures IsLetterOrDigit(r) <==> IsLetterOrDigit(c)
    ensures IsWhiteSpace(r) <==> IsWhiteSpace(c)
    ensures !('A' <= r <= 'Z')
  {
    if 'A' <= c <= 'Z' then (c as int + 32) as char else c
  }

  function UpperChar(c: char): (r: char)
    ensures IsWhiteSpace(r) <==> IsWhiteSpace(c)
    ensures !('a' <= r <= 'z')
  {
    if 'a' <= c <= 'z' then (c as int - 32) as char else c
  }

  /** ToLowerInvariant, character by character. */
  function Lower(s: string): (r: string)
    ensures |r| == |s|
    ensures forall i :: 0 <= i < |s| ==> r[i] == LowerChar(s[i])
  {
    seq(|s|, i requires 0 <= i < |s| => LowerChar(s[i]))
  }

  /** ToUpperInvariant, character by character. */
  function Upper(s: string): (r: string)
    ensures |r| == |s|
    ensures forall i :: 0 <= i < |s| ==> r[i] == UpperChar(s[i])
  {
    seq(|s|, i requires 0 <= i < |s| => UpperChar(s[i]))
  }

  /** string.Equals(a, b, StringComparison.OrdinalIgnoreCase). */
  predicate EqIgnoreCase(a: string, b: string) {
    Lower(a) == Lower(b)
  }

  /** Strings equal ignoring case are blank together. */
  lemma BlankIgnoreCase(a: string, b: string)
    requires EqIgnoreCase(a, b)
    ensures IsBlank(a) <==> IsBlank(b)
  {
    forall i | 0 <= i < |a| ensures IsWhiteSpace(a[i]) <==> IsWhiteSpace(b[i]) {
      assert Lower(a)[i] == Lower(b)[i];
    }
  }

  lemma EqIgnoreCaseLength(a: string, b: string)
    requires EqIgnoreCase(a, b)
    ensures |a| == |b|
  {
    assert |Lower(a)| == |Lower(b)|;
  }

  /** t has no lower-case letter, like the literals a ToUpperInvariant() value is
    * compared with. */
  predicate NoLowerCase(t: string) {
    forall i :: 0 <= i < |t| ==> !('a' <= t[i] <= 'z')
  }

  /** Comparing ToUpperInvariant() with such a literal is a case-insensitive comparison. */
  lemma UpperMatches(s: string, t: string)
    requires NoLowerCase(t)
    ensures Upper(s) == t <==> EqIgnoreCase(s, t)
  {
    if |s| == |t| {
      forall i | 0 <= i < |s|
        ensures UpperChar(s[i]) == t[i] <==> LowerChar(s[i]) == LowerChar(t[i])
      {
      }
      if Upper(s) == t {
        assert forall i :: 0 <= i < |s| ==> Lower(s)[i] == Lower(t)[i];
      }
      if EqIgnoreCase(s, t) {
        assert forall i :: 0 <= i < |s| ==> Upper(s)[i] == t[i];
      }
    } else {
      assert |Lower(s)| != |Lower(t)|;
    }
  }

  /** list.Contains(x, StringComparer.OrdinalIgnoreCase). */
  predicate ContainsIgnoreCase(xs: seq<string>, x: string) {
    exists i :: 0 <= i < |xs| && EqIgnoreCase(xs[i], x)
  }

  /** s.StartsWith(p, StringComparison.OrdinalIgnoreCase). */
  predicate StartsWithIgnoreCase(s: string, p: string) {
    |p| <= |s| && Lower(s[..|p|]) == Lower(p)
  }

  /** The least index at or after `from` holding a non-whitespace character, or |s|. */
  function SkipWhiteSpace(s: string, from: nat): (k: nat)
    requires from <= |s|
    ensures from <= k <= |s|
    ensures forall i :: from <= i < k ==> IsWhiteSpace(s[i])
    ensures k < |s| ==> !IsWhiteSpace(s[k])
    decreases |s| - from
  {
    if from == |s| || !IsWhiteSpace(s[from]) then from else SkipWhiteSpace(s, from + 1)
  }

  /** The least index in [from, hi) holding a non-whitespace character, or hi. */
  function SkipWhiteSpaceTo(s: string, from: nat, hi: nat): (k: nat)
    requires from <= hi <= |s|
    ensures from <= k <= hi
    ensures forall i :: from <= i < k ==> IsWhiteSpace(s[i])
    ensures k < hi ==> !IsWhiteSpace(s[k])
    decreases hi - from
  {
    if from == hi || !IsWhiteSpace(s[from]) then from else SkipWhiteSpaceTo(s, from + 1, hi)
  }

  /** The greatest end position in [lo, hi] such that the character before it is not
    * whitespace, or lo when s[lo..hi] is all whitespace. */
  function BackWhiteSpace(s: string, lo: nat, hi: nat): (k: nat)
    requires lo <= hi <= |s|
    ensures lo <= k <= hi
    ensures forall i :: k <= i < hi ==> IsWhiteSpace(s[i])
    ensures k > lo ==> !IsWhiteSpace(s[k - 1])
    decreases hi - lo
  {
    if hi == lo || !IsWhiteSpace(s[hi - 1]) then hi else BackWhiteSpace(s, lo, hi - 1)
  }

  /** string.Trim(). */
  function Trim(s: string): (r: string)
    ensures |r| <= |s|
    ensures IsBlank(s) <==> r == []
    ensures r != [] ==> !IsWhiteSpace(r[0]) && !IsWhiteSpace(r[|r| - 1])
    ensures exists a :: TrimmedAt(s, r, a)
  {
    var a := SkipWhiteSpace(s, 0);
    var b := BackWhiteSpace(s, a, |s|);
    assert b > a ==> !IsWhiteSpace(s[a]);
    assert TrimmedAt(s, s[a..b], a);
    s[a..b]
  }

  /** r is s with only white space removed before position a and after a + |r|. */
  predicate TrimmedAt(s: string, r: string, a: int) {
    0 <= a <= |s| - |r| && r == s[a..a + |r|]
    && (forall i :: 0 <= i < a ==> IsWhiteSpace(s[i]))
    && (forall i :: a + |r| <= i < |s| ==> IsWhiteSpace(s[i]))
  }

  lemma TrimOfTrimmed(s: string)
    requires s == [] || (!IsWhiteSpace(s[0]) && !IsWhiteSpace(s[|s| - 1]))
    ensures Trim(s) == s
  {
  }

  /** Trimming keeps a text blank exactly when it was blank. */
  lemma TrimBlank(s: string)
    ensures IsBlank(Trim(s)) <==> IsBlank(s)
  {
    var t := Trim(s);
    if t != [] {
      assert !IsWhiteSpace(t[0]);
    }
  }

  /** Trimming twice is trimming once. */
  lemma TrimIdempotent(s: string)
    ensures Trim(Trim(s)) == Trim(s)
  {
    TrimOfTrimmed(Trim(s));
  }

  /** string.Join(sep, xs): the strings in order with sep between neighbours. */
  function Join(sep: string, xs: seq<string>): string
    decreases |xs|
  {
    if xs == [] then "" else if |xs| == 1 then xs[0] else xs[0] + sep + Join(sep, xs[1..])
  }

  /** Appending a string to a join puts one separator before it. */
  lemma {:induction false} JoinSnoc(sep: string, xs: seq<string>, x: string)
    ensures Join(sep, xs + [x]) == if xs == [] then x else Join(sep, xs) + sep + x
    decreases |xs|
  {
    if xs == [] {
      assert xs + [x] == [x];
    } else {
      assert (xs + [x])[1..] == xs[1..] + [x];
      JoinSnoc(sep, xs[1..], x);
    }
  }

  /** A join starts with its first string. */
  lemma JoinStarts(sep: string, xs: seq<string>)
    requires xs != []
    ensures Join(sep, xs)[..|xs[0]|] == xs[0]
  {
  }

  /** Joining strings that are not blank, trimmed, gives a trimmed string that is not
    * blank. */
  lemma JoinTrimmed(sep: string, xs: seq<string>)
    requires xs != []
    requires forall k :: 0 <= k < |xs| ==> !IsBlank(xs[k]) && Trim(xs[k]) == xs[k]
    ensures !IsBlank(Join(sep, xs)) && Trim(Join(sep, xs)) == Join(sep, xs)
  {
    var j := Join(sep, xs);
    var last := xs[|xs| - 1];
    var init := xs[..|xs| - 1];
    assert xs == init + [last];
    JoinSnoc(sep, init, last);
    JoinStarts(sep, xs);
    assert xs[0] != [] && last != [];
    assert j[0] == xs[0][0];
    assert j[|j| - 1] == last[|last| - 1];
    TrimOfTrimmed(j);
  }

  /** The position of the first c in s, or |s| when there is none. */
  function FirstIndexOf(s: string, c: char): (i: nat)
    ensures i <= |s|
    ensures i < |s| ==> s[i] == c
    ensures c !in s[..i]
    ensures forall j :: 0 <= j < i ==> s[j] != c
    decreases |s|
  {
    if s == [] then 0
    else if s[0] == c then 0
    else
      assert s[..1 + FirstIndexOf(s[1..], c)] == [s[0]] + s[1..][..FirstIndexOf(s[1..], c)];
      1 + FirstIndexOf(s[1..], c)
  }

  /** s.Split(c, 2): the text before the first c and the text after it, or None when
    * s has no c. */
  function SplitFirst(s: string, c: char): (r: Option<(string, string)>)
    ensures r.None? <==> c !in s
    ensures r.Some? ==> s == r.value.0 + [c] + r.value.1 && c !in r.value.0
  {
    var i := FirstIndexOf(s, c);
    if i == |s| then
      assert s[..i] == s;
      None
    else
      assert s == s[..i] + [c] + s[i + 1..];
      Some((s[..i], s[i + 1..]))
  }

  /** Splitting a + [c] + b, where a has no c, gives back a and b. */
  lemma SplitFirstOf(a: string, c: char, b: string)
    requires c !in a
    ensures SplitFirst(a + [c] + b, c) == Some((a, b))
  {
    var s := a + [c] + b;
    var r := SplitFirst(s, c);
    var i := |r.value.0|;
    assert s[|a|] == c;
    forall j | 0 <= j < |a|
      ensures s[j] != c
    {
      assert s[j] == a[j];
    }
    assert r.value.0 == a;
  }

  /** s[..n] when n < |s|, else s: the first n characters. */
  function TakeAtMost(s: string, n: nat): (r: string)
    ensures |r| == if |s| < n then |s| else n
    ensures r == s[..|r|]
  {
    if |s| <= n then s else s[..n]
  }

  // ---------------------------------------------------------------------
  // Decimal numbers: formatting ("{n}", "{n:D4}") and int.TryParse

  function DigitChar(d: nat): (c: char)
    requires d < 10
    ensures IsAsciiDigit(c) && DigitValue(c) == d
  {
    ('0' as int + d) as char
  }

  /** Decimal digits of a natural number, most significant first, no leading zeros. */
  function Digits(n: nat): (r: string)
    ensures |r| >= 1
    ensures forall i :: 0 <= i < |r| ==> IsAsciiDigit(r[i])
    ensures n >= 10 ==> r[0] != '0'
    decreases n
  {
    if n < 10 then [DigitChar(n)] else Digits(n / 10) + [DigitChar(n % 10)]
  }

  /** Value of a string of decimal digits (leading zeros allowed). */
  function DigitsValue(s: string): (v: nat)
    requires forall i :: 0 <= i < |s| ==> IsAsciiDigit(s[i])
    decreases |s|
  {
    if s == [] then 0
    else DigitsValue(s[..|s| - 1]) * 10 + DigitValue(s[|s| - 1])
  }

  function DigitValue(c: char): (d: nat)
    requires IsAsciiDigit(c)
    ensures d < 10
  {
    (c as int) - ('0' as int)
  }

  lemma {:induction false} DigitsValueOfDigits(n: nat)
    ensures DigitsValue(Digits(n)) == n
    decreases n
  {
    if n >= 10 {
      var d := Digits(n);
      assert d[..|d| - 1] == Digits(n / 10);
      DigitsValueOfDigits(n / 10);
    }
  }

  lemma {:induction false} DigitsValueLeadingZero(s: string)
    requires forall i :: 0 <= i < |s| ==> IsAsciiDigit(s[i])
    ensures DigitsValue(['0'] + s) == DigitsValue(s)
    decreases |s|
  {
    if s != [] {
      var t := ['0'] + s;
      assert t[..|t| - 1] == ['0'] + s[..|s| - 1];
      DigitsValueLeadingZero(s[..|s| - 1]);
    }
  }

  /** Interpolation of an int: an optional '-' followed by its decimal digits. */
  function IntToString(n: int): (r: string)
    ensures |r| >= 1
    ensures n < 0 <==> r[0] == '-'
  {
    if n < 0 then "-" + Digits(-n) else Digits(n)
  }

  function Zeros(k: nat): (r: string)
    ensures |r| == k && forall i :: 0 <= i < k ==> r[i] == '0'
  {
    if k == 0 then [] else ['0'] + Zeros(k - 1)
  }

  /** The "D4" format of a non-negative number: digits left-padded with zeros to four. */
  function PadD4(n: nat): (r: string)
    ensures |r| >= 4
    ensures forall i :: 0 <= i < |r| ==> IsAsciiDigit(r[i])
  {
    var d := Digits(n);
    if |d| >= 4 then d else Zeros(4 - |d|) + d
  }

  lemma {:induction false} ZerosValue(k: nat, d: string)
    requires AllDigits(d)
    ensures AllDigits(Zeros(k) + d) && DigitsValue(Zeros(k) + d) == DigitsValue(d)
  {
    if k > 0 {
      ZerosValue(k - 1, d);
      assert Zeros(k) + d == ['0'] + (Zeros(k - 1) + d);
      DigitsValueLeadingZero(Zeros(k - 1) + d);
    } else {
      assert Zeros(k) + d == d;
    }
  }

  /** Parsing the digits of "{n:D4}" gives n back. */
  lemma PadD4Value(n: nat)
    ensures DigitsValue(PadD4(n)) == n
  {
    DigitsValueOfDigits(n);
    if |Digits(n)| < 4 {
      ZerosValue(4 - |Digits(n)|, Digits(n));
    }
  }

  const Int32Min: int := -0x8000_0000
  const Int32Max: int := 0x7FFF_FFFF

  predicate IsInt32(n: int) { Int32Min <= n <= Int32Max }

  /** The white space NumberStyles.Integer lets int.TryParse skip at both ends. */
  predicate IsNumberWhite(c: char) { c == ' ' || ('\t' <= c <= '\r') }

  function StripNumberWhite(s: string): (r: string)
    ensures |r| <= |s|
    ensures r != [] ==> !IsNumberWhite(r[0]) && !IsNumberWhite(r[|r| - 1])
    decreases |s|
  {
    if |s| > 0 && IsNumberWhite(s[0]) then StripNumberWhite(s[1..])
    else if |s| > 0 && IsNumberWhite(s[|s| - 1]) then StripNumberWhite(s[..|s| - 1])
    else s
  }

  predicate AllDigits(s: string) { forall i :: 0 <= i < |s| ==> IsAsciiDigit(s[i]) }

  /** int.TryParse(s, out n) with the invariant culture: optional surrounding white
    * space, an optional '+' or '-', one or more ASCII digits, and a value that fits
    * in 32 bits; anything else fails. */
  function ParseInt(s: string): (r: Option<int>)
    ensures r.Some? ==> IsInt32(r.value)
  {
    var t := StripNumberWhite(s);
    var neg := |t| > 0 && t[0] == '-';
    var body := if |t| > 0 && (t[0] == '-' || t[0] == '+') then t[1..] else t;
    if body == [] || !AllDigits(body) then None
    else
      var v: int := if neg then -(DigitsValue(body) as int) else DigitsValue(body);
      if IsInt32(v) then Some(v) else None
  }

  /** Formatting a 32-bit int and parsing it back gives the same number. */
  lemma ParseIntOfIntToString(n: int)
    requires IsInt32(n)
    ensures ParseInt(IntToString(n)) == Some(n)
  {
    var s := IntToString(n);
    assert StripNumberWhite(s) == s;
    if n < 0 {
      assert s[1..] == Digits(-n);
      DigitsValueOfDigits(-n);
    } else {
      DigitsValueOfDigits(n);
    }
  }
}
