/** The pieces of the Java and Joda-Time libraries that the core leans on:
    32-bit ints, `Integer.parseInt`, `String.split("/")` and Joda's
    zero-padded decimal printing. */
module JavaText {
  import opened Results

  const MinInt: int := -0x8000_0000
  const MaxInt: int := 0x7fff_ffff

  /** A Java `int`. */
  type int32 = x: int | -0x8000_0000 <= x <= 0x7fff_ffff

  /** Java's two's-complement wrap-around of an exact integer result. */
  function Wrap32(x: int): (r: int32)
    ensures MinInt <= x <= MaxInt ==> r == x
    ensures (r - x) % 0x1_0000_0000 == 0
  {
    (x + 0x8000_0000) % 0x1_0000_0000 - 0x8000_0000
  }

  // ----- decimal digits -----------------------------------------------------

  predicate IsDigit(c: char) { '0' <= c <= '9' }

  predicate AllDigits(s: string) { forall i :: 0 <= i < |s| ==> IsDigit(s[i]) }

  function DigitValue(c: char): nat
    requires IsDigit(c)
  {
    (c as int) - ('0' as int)
  }

  function DigitChar(n: nat): (c: char)
    requires n < 10
    ensures IsDigit(c) && DigitValue(c) == n
  {
    (('0' as int) + n) as char
  }

  /** The value of a string of decimal digits, most significant first. */
  function DigitsValue(s: string): nat
    requires AllDigits(s)
    decreases |s|
  {
    if |s| == 0 then 0 else 10 * DigitsValue(s[..|s| - 1]) + DigitValue(s[|s| - 1])
  }

  /** The shortest decimal representation of `n` ("0" for zero). */
  function ToDigits(n: nat): (s: string)
    ensures |s| >= 1 && AllDigits(s)
    decreases n
  {
    if n < 10 then [DigitChar(n)] else ToDigits(n / 10) + [DigitChar(n % 10)]
  }

  function Zeros(k: nat): (s: string)
    ensures |s| == k && AllDigits(s)
  {
    seq(k, _ => '0')
  }

  /** `s` left-padded with '0' up to `width` characters. */
  function PadLeft(s: string, width: nat): (r: string)
  {
    if |s| >= width then s else Zeros(width - |s|) + s
  }

  /** Joda's `FormatUtils.appendPaddedInteger(value, size)`: a '-' for a
      negative value, then the magnitude zero-padded to `size` digits. */
  function PaddedInteger(n: int, width: nat): (s: string)
    ensures '/' !in s
    ensures |s| >= 1
  {
    if n < 0 then "-" + PadLeft(ToDigits(-n), width) else PadLeft(ToDigits(n), width)
  }

  // ----- Integer.parseInt ---------------------------------------------------

  /** Java's `Integer.parseInt(s)` over ASCII digits: an optional '+' or '-',
      then at least one decimal digit, the value lying in the int range.
      Any other text throws NumberFormatException (here: None). */
  function ParseInt(s: string): (r: Option<int32>)
    ensures r.Some? ==> |s| >= 1 && (IsDigit(s[0]) || s[0] == '+' || s[0] == '-')
    ensures r.Some? ==> IsDigit(s[|s| - 1])
    ensures r.Some? ==> forall i :: 1 <= i < |s| ==> IsDigit(s[i])
    ensures r.Some? && r.value < 0 ==> s[0] == '-'
  {
    if |s| == 0 then None
    else
      var negative := s[0] == '-';
      var digits := if s[0] == '-' || s[0] == '+' then s[1..] else s;
      if |digits| == 0 || !AllDigits(digits) then None
      else
        var v: int := if negative then -(DigitsValue(digits) as int) else DigitsValue(digits);
        if MinInt <= v <= MaxInt then Some(v) else None
  }

  // ----- String.split("/") --------------------------------------------------

  /** The pieces of `s` between its '/' characters, empty pieces included. */
  function Segments(s: string): (r: seq<string>)
    ensures |r| >= 1
    ensures forall i :: 0 <= i < |r| ==> '/' !in r[i]
    ensures Join(r) == s
    decreases |s|
  {
    if |s| == 0 then [""]
    else if s[0] == '/' then [""] + Segments(s[1..])
    else
      var rest := Segments(s[1..]);
      [[s[0]] + rest[0]] + rest[1..]
  }

  /** The pieces joined back with '/' between them. */
  function Join(parts: seq<string>): string
    decreases |parts|
  {
    if |parts| == 0 then ""
    else if |parts| == 1 then parts[0]
    else parts[0] + "/" + Join(parts[1..])
  }

  function DropTrailingEmpty(parts: seq<string>): (r: seq<string>)
    ensures |r| <= |parts| && r == parts[..|r|]
    ensures |r| > 0 ==> r[|r| - 1] != ""
    ensures forall i :: |r| <= i < |parts| ==> parts[i] == ""
    decreases |parts|
  {
    if |parts| > 0 && parts[|parts| - 1] == "" then DropTrailingEmpty(parts[..|parts| - 1]) else parts
  }

  /** Java's `s.split("/")`: a string without '/' is returned whole;
      otherwise the pieces between the separators, with trailing empty
      pieces removed. */
  function Split(s: string): (r: seq<string>)
    ensures forall i :: 0 <= i < |r| ==> '/' !in r[i]
    ensures '/' !in s ==> r == [s]
    ensures '/' in s ==> |r| <= |Segments(s)| && r == Segments(s)[..|r|]
    ensures '/' in s ==> forall i :: |r| <= i < |Segments(s)| ==> Segments(s)[i] == ""
    ensures '/' in s && |r| > 0 ==> r[|r| - 1] != ""
  {
    if '/' !in s then [s] else DropTrailingEmpty(Segments(s))
  }

  // ----- lemmas ---------------------------------------------------------------

  lemma {:induction false} DigitsValueSnoc(s: string, c: char)
    requires AllDigits(s) && IsDigit(c)
    ensures AllDigits(s + [c]) && DigitsValue(s + [c]) == 10 * DigitsValue(s) + DigitValue(c)
  {
    assert (s + [c])[..|s|] == s;
  }

  /** Reading back the digits written by ToDigits gives the number. */
  lemma {:induction false} DigitsValueOfToDigits(n: nat)
    ensures DigitsValue(ToDigits(n)) == n
    decreases n
  {
    if n >= 10 {
      DigitsValueOfToDigits(n / 10);
      DigitsValueSnoc(ToDigits(n / 10), DigitChar(n % 10));
    }
  }

  /** Leading zeros do not change the value of a digit string. */
  lemma {:induction false} DigitsValueLeadingZeros(k: nat, s: string)
    requires AllDigits(s)
    ensures AllDigits(Zeros(k) + s) && DigitsValue(Zeros(k) + s) == DigitsValue(s)
    decreases |s|
  {
    var z := Zeros(k);
    if |s| == 0 {
      assert z + s == z;
      ZerosValue(k);
    } else {
      var init := s[..|s| - 1];
      DigitsValueLeadingZeros(k, init);
      assert (z + s)[..|z + s| - 1] == z + init;
    }
  }

  lemma {:induction false} ZerosValue(k: nat)
    ensures DigitsValue(Zeros(k)) == 0
    decreases k
  {
    if k > 0 {
      assert Zeros(k)[..k - 1] == Zeros(k - 1);
      ZerosValue(k - 1);
    }
  }

  /** A number below 10^k needs at most k digits. */
  lemma {:induction false} ToDigitsLength(n: nat, k: nat)
    requires k >= 1 && n < Pow10(k)
    ensures |ToDigits(n)| <= k
    decreases k
  {
    if n >= 10 {
      ToDigitsLength(n / 10, k - 1);
    }
  }

  function Pow10(k: nat): (p: nat)
    ensures p >= 1
  {
    if k == 0 then 1 else 10 * Pow10(k - 1)
  }

  lemma PadLeftValue(s: string, width: nat)
    requires AllDigits(s)
    ensures AllDigits(PadLeft(s, width)) && |PadLeft(s, width)| >= |s|
    ensures DigitsValue(PadLeft(s, width)) == DigitsValue(s)
  {
    if |s| < width { DigitsValueLeadingZeros(width - |s|, s); }
  }

  lemma ParseIntOfDigits(s: string)
    requires |s| > 0 && AllDigits(s) && DigitsValue(s) <= MaxInt
    ensures ParseInt(s) == Some(DigitsValue(s))
  {
    assert IsDigit(s[0]);
  }

  lemma ParseIntOfNegatedDigits(s: string)
    requires |s| > 0 && AllDigits(s) && DigitsValue(s) <= -MinInt
    ensures ParseInt("-" + s) == Some(-(DigitsValue(s) as int))
  {
    assert ("-" + s)[0] == '-' && ("-" + s)[1..] == s;
  }

  /** Integer.parseInt reads back what appendPaddedInteger prints, for every
      int and every padding width. */
  lemma ParseIntOfPaddedInteger(n: int32, width: nat)
    ensures ParseInt(PaddedInteger(n, width)) == Some(n)
  {
    var m: nat := if n < 0 then -(n as int) else n;
    PadLeftValue(ToDigits(m), width);
    DigitsValueOfToDigits(m);
    if n < 0 {
      ParseIntOfNegatedDigits(PadLeft(ToDigits(m), width));
    } else {
      ParseIntOfDigits(PadLeft(ToDigits(m), width));
    }
  }

  /** Integer.parseInt throws on the empty string, on a lone sign and on a
      non-digit after the optional sign. */
  lemma ParseIntRejects(s: string)
    ensures s == "" || s == "+" || s == "-" ==> ParseInt(s) == None
    ensures (exists i :: 1 <= i < |s| && !IsDigit(s[i])) ==> ParseInt(s) == None
    ensures |s| > 0 && !IsDigit(s[0]) && s[0] != '+' && s[0] != '-' ==> ParseInt(s) == None
  {
    if i :| 1 <= i < |s| && !IsDigit(s[i]) {
      var digits := if s[0] == '-' || s[0] == '+' then s[1..] else s;
      assert !AllDigits(digits) by {
        if s[0] == '-' || s[0] == '+' { assert digits[i - 1] == s[i]; } else { assert digits[i] == s[i]; }
      }
    }
  }

  /** Splitting a '/'-free piece, a '/', and the rest yields the piece
      followed by the split of the rest. */
  lemma {:induction false} SegmentsCons(a: string, rest: string)
    requires '/' !in a
    ensures Segments(a + "/" + rest) == [a] + Segments(rest)
    decreases |a|
  {
    if |a| == 0 {
      assert a + "/" + rest == ['/'] + rest;
      assert (['/'] + rest)[1..] == rest;
    } else {
      var s := a + "/" + rest;
      assert s[0] == a[0] && s[1..] == a[1..] + "/" + rest;
      SegmentsCons(a[1..], rest);
      assert [a[0]] + a[1..] == a;
    }
  }

  lemma {:induction false} SegmentsOfPlain(a: string)
    requires '/' !in a
    ensures Segments(a) == [a]
    decreases |a|
  {
    if |a| > 0 {
      assert '/' !in a[1..] by { forall i | 0 <= i < |a[1..]| ensures a[1..][i] != '/' { assert a[1..][i] == a[i + 1]; } }
      SegmentsOfPlain(a[1..]);
      assert [a[0]] + a[1..] == a;
    }
  }

  /** Split undoes Join on three '/'-free pieces, the last one non-empty. */
  lemma SplitThree(a: string, b: string, c: string)
    requires '/' !in a && '/' !in b && '/' !in c && c != ""
    ensures Split(a + "/" + b + "/" + c) == [a, b, c]
  {
    var bc := b + "/" + c;
    SeparatorAssoc(a, b, c);
    SegmentsOfPlain(c);
    SegmentsCons(b, c);
    SegmentsCons(a, bc);
    assert (a + "/" + bc)[|a|] == '/';
  }

  /** With a fourth piece after the third, Split still starts with the
      first three pieces. */
  lemma SplitThreeThenRest(a: string, b: string, c: string, rest: string)
    requires '/' !in a && '/' !in b && '/' !in c && c != ""
    ensures |Split(a + "/" + b + "/" + c + "/" + rest)| >= 3
    ensures Split(a + "/" + b + "/" + c + "/" + rest)[0] == a
    ensures Split(a + "/" + b + "/" + c + "/" + rest)[1] == b
    ensures Split(a + "/" + b + "/" + c + "/" + rest)[2] == c
  {
    var s := a + "/" + b + "/" + c + "/" + rest;
    SeparatorAssoc4(a, b, c, rest);
    SegmentsCons(c, rest);
    SegmentsCons(b, c + "/" + rest);
    SegmentsCons(a, b + "/" + (c + "/" + rest));
    var parts := Segments(s);
    assert parts[..3] == [a, b, c];
    assert s[|a|] == '/';
    var kept := DropTrailingEmpty(parts);
    assert |kept| >= 3;
    assert kept[..3] == parts[..3];
  }

  /** Regrouping of '/'-joined text, stated apart from the split proofs so
      that they reason about one concatenation shape only. */
  lemma SeparatorAssoc(a: string, b: string, c: string)
    ensures a + "/" + b + "/" + c == a + "/" + (b + "/" + c)
  {
  }

  lemma SeparatorAssoc4(a: string, b: string, c: string, d: string)
    ensures a + "/" + b + "/" + c + "/" + d == a + "/" + (b + "/" + (c + "/" + d))
  {
  }
}
