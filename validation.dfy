/** ZIP code validation and the thousands grouping of the display formatters
    (src/utils/validation.ts). */
module Validation {

  // ---------------------------------------------------------------------------
  // String.prototype.trim
  // ---------------------------------------------------------------------------

  /** The code points ECMAScript counts as WhiteSpace or LineTerminator, which
      `trim` strips from both ends. */
  predicate IsWhitespace(c: char) {
    || c == '\t' || c == '\n' || c == '\U{000B}' || c == '\U{000C}' || c == '\r'
    || c == ' ' || c == '\U{00A0}' || c == '\U{1680}'
    || ('\U{2000}' <= c <= '\U{200A}')
    || c == '\U{2028}' || c == '\U{2029}' || c == '\U{202F}' || c == '\U{205F}'
    || c == '\U{3000}' || c == '\U{FEFF}'
  }

  predicate AllWhitespace(s: string) {
    forall i :: 0 <= i < |s| ==> IsWhitespace(s[i])
  }

  /** Neither end of `s` is whitespace (vacuous for the empty string). */
  predicate Unpadded(s: string) {
    s != [] ==> !IsWhitespace(s[0]) && !IsWhitespace(s[|s| - 1])
  }

  /** Drops the leading whitespace. */
  function TrimStart(s: string): string {
    if s != [] && IsWhitespace(s[0]) then TrimStart(s[1..]) else s
  }

  /** Drops the trailing whitespace. */
  function TrimEnd(s: string): string {
    if s != [] && IsWhitespace(s[|s| - 1]) then TrimEnd(s[..|s| - 1]) else s
  }

  /** What `TrimStart` leaves is a suffix of `s`, what it drops is all
      whitespace, and what it leaves does not start with whitespace. */
  lemma {:induction false} TrimStartSpec(s: string)
    ensures var r := TrimStart(s);
      |r| <= |s| && r == s[|s| - |r|..] && AllWhitespace(s[..|s| - |r|])
      && (r != [] ==> !IsWhitespace(r[0]))
  {
    if s != [] && IsWhitespace(s[0]) {
      var t := s[1..];
      TrimStartSpec(t);
      var r := TrimStart(t);
      assert r == TrimStart(s);
      var n := |s| - |r|;
      assert t[|t| - |r|..] == s[n..];
      assert AllWhitespace(t[..|t| - |r|]);
      forall i | 0 <= i < n ensures IsWhitespace(s[..n][i]) {
        if i > 0 { assert s[..n][i] == t[..|t| - |r|][i - 1]; }
      }
    }
  }

  /** What `TrimEnd` leaves is a prefix of `s`, what it drops is all
      whitespace, and what it leaves does not end with whitespace. */
  lemma {:induction false} TrimEndSpec(s: string)
    ensures var r := TrimEnd(s);
      |r| <= |s| && r == s[..|r|] && AllWhitespace(s[|r|..])
      && (r != [] ==> !IsWhitespace(r[|r| - 1]))
  {
    if s != [] && IsWhitespace(s[|s| - 1]) {
      var t := s[..|s| - 1];
      TrimEndSpec(t);
      var r := TrimEnd(t);
      assert r == TrimEnd(s);
      assert t[..|r|] == s[..|r|];
      assert AllWhitespace(t[|r|..]);
      forall i | 0 <= i < |s| - |r| ensures IsWhitespace(s[|r|..][i]) {
        if i < |s| - 1 - |r| { assert s[|r|..][i] == t[|r|..][i]; }
      }
    }
  }

  function Trim(s: string): string {
    TrimEnd(TrimStart(s))
  }

  /** `Trim(s)` is the middle of `s` once all whitespace is taken off both ends. */
  lemma TrimIsMiddle(s: string)
    ensures exists i, j :: 0 <= i <= j <= |s| && Trim(s) == s[i..j]
                           && AllWhitespace(s[..i]) && AllWhitespace(s[j..])
    ensures Unpadded(Trim(s))
  {
    var t := TrimStart(s);
    TrimStartSpec(s);
    TrimEndSpec(t);
    var i := |s| - |t|;
    var j := i + |TrimEnd(t)|;
    assert Trim(s) == s[i..j];
    assert s[j..] == t[|TrimEnd(t)|..];
    if Trim(s) != [] {
      assert Trim(s)[0] == t[0];
    }
  }

  lemma TrimStartPadded(p: string, z: string)
    requires AllWhitespace(p) && (z == [] || !IsWhitespace(z[0]))
    ensures TrimStart(p + z) == z
  {
    if p != [] {
      assert (p + z)[1..] == p[1..] + z;
      TrimStartPadded(p[1..], z);
    }
  }

  lemma TrimEndPadded(z: string, q: string)
    requires AllWhitespace(q) && (z == [] || !IsWhitespace(z[|z| - 1]))
    ensures TrimEnd(z + q) == z
  {
    if q != [] {
      assert (z + q)[..|z + q| - 1] == z + q[..|q| - 1];
      TrimEndPadded(z, q[..|q| - 1]);
    } else {
      assert z + q == z;
    }
  }

  /** Whitespace around an unpadded string is exactly what `trim` removes. */
  lemma {:induction false} TrimPadded(p: string, z: string, q: string)
    requires AllWhitespace(p) && AllWhitespace(q) && Unpadded(z)
    ensures Trim(p + z + q) == z
  {
    if z == [] {
      assert p + z + q == p + q;
      TrimStartPadded(p + q, []);
      assert p + q + [] == p + q;
      assert AllWhitespace(p + q);
      TrimEndPadded([], []);
    } else {
      assert p + z + q == p + (z + q);
      TrimStartPadded(p, z + q);
      TrimEndPadded(z, q);
    }
  }

  /** `trim` yields "" exactly for the blank and whitespace-only strings. */
  lemma TrimEmptyIffBlank(s: string)
    ensures Trim(s) == [] <==> AllWhitespace(s)
  {
    TrimIsMiddle(s);
    if AllWhitespace(s) {
      assert s == s + [] + [];
      TrimPadded(s, [], []);
    }
    var i, j :| 0 <= i <= j <= |s| && Trim(s) == s[i..j]
                && AllWhitespace(s[..i]) && AllWhitespace(s[j..]);
    if Trim(s) == [] {
      assert i == j;
      forall k | 0 <= k < |s| ensures IsWhitespace(s[k]) {
        if k < i { assert s[k] == s[..i][k]; } else { assert s[k] == s[j..][k - j]; }
      }
    }
  }

  // ---------------------------------------------------------------------------
  // isValidZipCode: /^\d{5}(-\d{4})?$/ tested on the trimmed input
  // ---------------------------------------------------------------------------

  /** `\d` without the `u` flag: the ASCII digits only. */
  predicate IsAsciiDigit(c: char) {
    '0' <= c <= '9'
  }

  predicate AllDigits(s: string) {
    forall i :: 0 <= i < |s| ==> IsAsciiDigit(s[i])
  }

  /** The anchored pattern `^\d{5}(-\d{4})?$`: five digits, optionally followed by
      a hyphen and four digits, and nothing else. */
  predicate MatchesZipPattern(t: string) {
    || (|t| == 5 && AllDigits(t))
    || (|t| == 10 && AllDigits(t[..5]) && t[5] == '-' && AllDigits(t[6..]))
  }

  predicate IsValidZipCode(zipCode: string) {
    MatchesZipPattern(Trim(zipCode))
  }

  /** A string matching the pattern has no whitespace at either end. */
  lemma PatternIsUnpadded(t: string)
    requires MatchesZipPattern(t)
    ensures Unpadded(t)
  {
    assert IsAsciiDigit(t[0]);
    if |t| == 10 {
      assert t[9] == t[6..][3];
    }
  }

  /** The validator accepts exactly the strings made of a well-formed ZIP code
      (five digits, or five digits, hyphen, four digits) with any whitespace
      around it. */
  lemma ValidZipIffPaddedPattern(s: string)
    ensures IsValidZipCode(s) <==>
      exists i, j :: 0 <= i <= j <= |s| && AllWhitespace(s[..i]) && AllWhitespace(s[j..])
                     && MatchesZipPattern(s[i..j])
  {
    TrimIsMiddle(s);
    if exists i, j :: 0 <= i <= j <= |s| && AllWhitespace(s[..i]) && AllWhitespace(s[j..])
                      && MatchesZipPattern(s[i..j]) {
      var i, j :| 0 <= i <= j <= |s| && AllWhitespace(s[..i]) && AllWhitespace(s[j..])
                  && MatchesZipPattern(s[i..j]);
      PatternIsUnpadded(s[i..j]);
      assert s == s[..i] + s[i..j] + s[j..];
      TrimPadded(s[..i], s[i..j], s[j..]);
    }
  }

  lemma AllWhitespaceConcat(a: string, b: string)
    requires AllWhitespace(a) && AllWhitespace(b)
    ensures AllWhitespace(a + b)
  {
    forall k | 0 <= k < |a + b| ensures IsWhitespace((a + b)[k]) {
      if k >= |a| { assert (a + b)[k] == b[k - |a|]; }
    }
  }

  lemma Regroup(p: string, a: string, b: string, c: string, q: string)
    ensures p + (a + b + c) + q == (p + a) + b + (c + q)
  {
  }

  lemma SplitThree(z: string, i: int, j: int)
    requires 0 <= i <= j <= |z|
    ensures z == z[..i] + z[i..j] + z[j..]
  {
  }

  /** Trimming discards surrounding whitespace entirely. */
  lemma TrimIgnoresPadding(p: string, z: string, q: string)
    requires AllWhitespace(p) && AllWhitespace(q)
    ensures Trim(p + z + q) == Trim(z)
  {
    TrimIsMiddle(z);
    var i, j :| 0 <= i <= j <= |z| && Trim(z) == z[i..j]
                && AllWhitespace(z[..i]) && AllWhitespace(z[j..]);
    var left, mid, right := z[..i], z[i..j], z[j..];
    SplitThree(z, i, j);
    Regroup(p, left, mid, right, q);
    AllWhitespaceConcat(p, left);
    AllWhitespaceConcat(right, q);
    TrimPadded(p + left, mid, right + q);
  }

  /** Surrounding whitespace never changes the verdict. */
  lemma SurroundingWhitespaceIgnored(p: string, z: string, q: string)
    requires AllWhitespace(p) && AllWhitespace(q)
    ensures IsValidZipCode(p + z + q) == IsValidZipCode(z)
  {
    TrimIgnoresPadding(p, z, q);
  }

  /** Every accepted input trims to 5 or 10 characters, so blank input and any
      other length are rejected. */
  lemma AcceptedLength(s: string)
    requires IsValidZipCode(s)
    ensures |Trim(s)| == 5 || |Trim(s)| == 10
    ensures !AllWhitespace(s)
  {
    TrimEmptyIffBlank(s);
  }

  /** There is no numeric range check: any five ASCII digits, leading zeros
      included, form a valid ZIP code, bare or padded. */
  lemma AnyFiveDigitsAccepted(z: string, p: string, q: string)
    requires |z| == 5 && AllDigits(z)
    requires AllWhitespace(p) && AllWhitespace(q)
    ensures IsValidZipCode(p + z + q)
  {
    PatternIsUnpadded(z);
    TrimPadded(p, z, q);
  }

  /** Likewise any five digits, a hyphen and four digits, bare or padded. */
  lemma AnyPlusFourAccepted(z: string, ext: string, p: string, q: string)
    requires |z| == 5 && AllDigits(z) && |ext| == 4 && AllDigits(ext)
    requires AllWhitespace(p) && AllWhitespace(q)
    ensures IsValidZipCode(p + (z + "-" + ext) + q)
  {
    var t := z + "-" + ext;
    assert t[..5] == z && t[6..] == ext;
    PatternIsUnpadded(t);
    TrimPadded(p, t, q);
  }

  /** Five-digit inputs the validation tests expect to be accepted, one with
      leading zeros. */
  lemma AcceptedFiveDigitExamples()
    ensures IsValidZipCode("12345") && IsValidZipCode("90210") && IsValidZipCode("00001")
  {
    AcceptUnpadded("12345");
    AcceptUnpadded("90210");
    AcceptUnpadded("00001");
  }

  /** ZIP+4 inputs the validation tests expect to be accepted. */
  lemma AcceptedPlusFourExamples()
    ensures IsValidZipCode("12345-6789") && IsValidZipCode("90210-1234")
  {
    AnyPlusFourAccepted("12345", "6789", "", "");
    assert "" + ("12345" + "-" + "6789") + "" == "12345-6789";
    AnyPlusFourAccepted("90210", "1234", "", "");
    assert "" + ("90210" + "-" + "1234") + "" == "90210-1234";
  }

  /** The padded inputs the validation tests expect to be accepted. */
  lemma AcceptedPaddedExamples()
    ensures IsValidZipCode(" 12345 ") && IsValidZipCode("  12345-6789  ")
  {
    AnyFiveDigitsAccepted("12345", " ", " ");
    assert " " + "12345" + " " == " 12345 ";
    AnyPlusFourAccepted("12345", "6789", "  ", "  ");
    assert "  " + ("12345" + "-" + "6789") + "  " == "  12345-6789  ";
  }

  /** The inputs the validation tests expect to be rejected. */
  lemma RejectedExamples()
    ensures !IsValidZipCode("123") && !IsValidZipCode("123456") && !IsValidZipCode("abcde")
    ensures !IsValidZipCode("12345-67890") && !IsValidZipCode("12345-abc")
    ensures !IsValidZipCode("") && !IsValidZipCode("12-345")
  {
    RejectUnpadded("123");
    RejectUnpadded("123456");
    RejectUnpadded("abcde");
    assert !IsAsciiDigit("abcde"[0]);
    RejectUnpadded("12345-67890");
    RejectUnpadded("12345-abc");
    RejectUnpadded("12-345");
    TrimEmptyIffBlank("");
  }

  lemma AcceptUnpadded(s: string)
    requires MatchesZipPattern(s)
    ensures IsValidZipCode(s)
  {
    PatternIsUnpadded(s);
    TrimPadded("", s, "");
    assert "" + s + "" == s;
  }

  /** A string without whitespace at its ends is judged as it stands. */
  lemma RejectUnpadded(s: string)
    requires s != [] && !IsWhitespace(s[0]) && !IsWhitespace(s[|s| - 1])
    ensures IsValidZipCode(s) == MatchesZipPattern(s)
  {
    TrimPadded("", s, "");
    assert "" + s + "" == s;
  }

  // ---------------------------------------------------------------------------
  // formatMileage / formatCurrency on natural numbers (en-US grouping)
  // ---------------------------------------------------------------------------

  function DigitChar(d: nat): char
    requires d < 10
  {
    (48 + d) as char
  }

  /** The decimal numeral of `n`. */
  function DecimalDigits(n: nat): string {
    if n < 10 then [DigitChar(n)] else DecimalDigits(n / 10) + [DigitChar(n % 10)]
  }

  /** The number a string of decimal digits denotes. */
  function DigitsValue(s: string): nat
    requires AllDigits(s)
  {
    if s == [] then 0 else DigitsValue(s[..|s| - 1]) * 10 + (s[|s| - 1] as int - 48)
  }

  /** The numeral is made of digits, has no leading zero, and denotes `n`. */
  lemma {:induction false} DecimalDigitsSpec(n: nat)
    ensures var r := DecimalDigits(n);
      r != [] && AllDigits(r) && (|r| > 1 ==> r[0] != '0') && DigitsValue(r) == n
  {
    if n >= 10 {
      DecimalDigitsSpec(n / 10);
      var r := DecimalDigits(n);
      assert r[..|r| - 1] == DecimalDigits(n / 10);
    }
  }

  /** Inserts a comma before every complete group of three characters counted
      from the right. */
  function GroupThousands(ds: string): string {
    if |ds| <= 3 then ds
    else GroupThousands(ds[..|ds| - 3]) + "," + ds[|ds| - 3..]
  }

  lemma ModFour(d: int)
    ensures (d + 4) % 4 == d % 4
  {
  }

  /** One comma per complete group of three digits; a comma stands exactly
      where the distance to the end is a multiple of four, so every group but
      the first has three digits and the first has one to three; everything
      else is a digit. */
  lemma {:induction false} GroupThousandsLayout(ds: string)
    requires ds != [] && AllDigits(ds)
    ensures var r := GroupThousands(ds);
      && |r| == |ds| + (|ds| - 1) / 3
      && forall i :: 0 <= i < |r| ==>
           (r[i] == ',' <==> (|r| - i) % 4 == 0) && (r[i] != ',' ==> IsAsciiDigit(r[i]))
  {
    var r := GroupThousands(ds);
    if |ds| <= 3 {
      forall i | 0 <= i < |r|
        ensures (r[i] == ',' <==> (|r| - i) % 4 == 0) && (r[i] != ',' ==> IsAsciiDigit(r[i]))
      {
        assert IsAsciiDigit(ds[i]);
      }
    } else {
      var head, tail := ds[..|ds| - 3], ds[|ds| - 3..];
      assert AllDigits(head) by {
        forall k | 0 <= k < |head| ensures IsAsciiDigit(head[k]) { assert head[k] == ds[k]; }
      }
      GroupThousandsLayout(head);
      var g := GroupThousands(head);
      assert r == g + "," + tail;
      assert |r| == |g| + 4;
      forall i | 0 <= i < |r|
        ensures (r[i] == ',' <==> (|r| - i) % 4 == 0) && (r[i] != ',' ==> IsAsciiDigit(r[i]))
      {
        if i < |g| {
          assert r[i] == g[i];
          ModFour(|g| - i);
        } else if i > |g| {
          assert r[i] == tail[i - |g| - 1] == ds[i - |g| - 1 + |ds| - 3];
          assert IsAsciiDigit(ds[i - |g| - 1 + |ds| - 3]);
        }
      }
    }
  }

  /** Removes the grouping separators. */
  function RemoveCommas(s: string): string {
    if s == [] then []
    else (if s[0] == ',' then [] else [s[0]]) + RemoveCommas(s[1..])
  }

  lemma {:induction false} RemoveCommasAppend(a: string, b: string)
    ensures RemoveCommas(a + b) == RemoveCommas(a) + RemoveCommas(b)
  {
    if a != [] {
      assert (a + b)[0] == a[0];
      assert (a + b)[1..] == a[1..] + b;
      RemoveCommasAppend(a[1..], b);
    } else {
      assert a + b == b;
    }
  }

  lemma {:induction false} NoCommas(ds: string)
    requires AllDigits(ds)
    ensures RemoveCommas(ds) == ds
  {
    if ds != [] {
      assert IsAsciiDigit(ds[0]);
      NoCommas(ds[1..]);
    }
  }

  /** Dropping the commas gives back the digits that were grouped. */
  lemma {:induction false} GroupThousandsRoundTrip(ds: string)
    requires AllDigits(ds)
    ensures RemoveCommas(GroupThousands(ds)) == ds
  {
    if |ds| <= 3 {
      NoCommas(ds);
    } else {
      var head, tail := ds[..|ds| - 3], ds[|ds| - 3..];
      assert AllDigits(head) by {
        forall k | 0 <= k < |head| ensures IsAsciiDigit(head[k]) { assert head[k] == ds[k]; }
      }
      assert AllDigits(tail) by {
        forall k | 0 <= k < |tail| ensures IsAsciiDigit(tail[k]) { assert tail[k] == ds[k + |ds| - 3]; }
      }
      var g := GroupThousands(head);
      calc {
        RemoveCommas(GroupThousands(ds));
        { assert GroupThousands(ds) == g + ("," + tail); }
        RemoveCommas(g + ("," + tail));
        { RemoveCommasAppend(g, "," + tail); }
        RemoveCommas(g) + RemoveCommas("," + tail);
        { GroupThousandsRoundTrip(head); RemoveCommasAppend(",", tail); NoCommas(tail); }
        head + ([] + tail);
        { assert head + tail == ds; }
        ds;
      }
    }
  }

  /** `formatMileage` on a natural number. */
  function FormatMileage(mileage: nat): string {
    GroupThousands(DecimalDigits(mileage))
  }

  /** `formatCurrency` on a natural number: no fraction digits, so only "$" is
      added in front of the grouped digits. */
  function FormatCurrency(amount: nat): string {
    "$" + FormatMileage(amount)
  }

  /** The formatted mileage is the numeral of `n` grouped in threes from the
      right, and reading it back (dropping the commas) gives `n`. */
  lemma FormatMileageSpec(n: nat)
    ensures var r := FormatMileage(n);
      && |r| == |DecimalDigits(n)| + (|DecimalDigits(n)| - 1) / 3
      && (forall i :: 0 <= i < |r| ==>
            (r[i] == ',' <==> (|r| - i) % 4 == 0) && (r[i] != ',' ==> IsAsciiDigit(r[i])))
      && RemoveCommas(r) == DecimalDigits(n)
      && AllDigits(RemoveCommas(r)) && DigitsValue(RemoveCommas(r)) == n
  {
    DecimalDigitsSpec(n);
    GroupThousandsLayout(DecimalDigits(n));
    GroupThousandsRoundTrip(DecimalDigits(n));
  }

  /** The currency text is "$" followed by the formatted mileage of the same
      number, and reads back to the amount. */
  lemma FormatCurrencySpec(n: nat)
    ensures var r := FormatCurrency(n);
      && r[0] == '$' && r[1..] == FormatMileage(n)
      && AllDigits(RemoveCommas(r[1..])) && DigitsValue(RemoveCommas(r[1..])) == n
  {
    FormatMileageSpec(n);
  }

  /** The mileage texts the formatting tests expect. */
  lemma FormatMileageExamples()
    ensures FormatMileage(15000) == "15,000" && FormatMileage(1000) == "1,000"
    ensures FormatMileage(999) == "999" && FormatMileage(0) == "0"
  {
    assert DecimalDigits(0) == "0";
    assert DecimalDigits(999) == "999";
    assert DecimalDigits(15000) == "15000";
    assert DecimalDigits(1000) == "1000";
  }

  /** The currency texts the formatting tests expect for whole amounts. */
  lemma FormatCurrencyExamples()
    ensures FormatCurrency(45000) == "$45,000" && FormatCurrency(1000) == "$1,000"
    ensures FormatCurrency(999) == "$999" && FormatCurrency(0) == "$0"
  {
    FormatMileageExamples();
    assert DecimalDigits(45000) == "45000";
  }

  lemma MillionDigits()
    ensures DecimalDigits(1000000) == "1000000"
  {
    assert DecimalDigits(1000) == "1000";
  }

  /** One million has two separators. */
  lemma FormatMileageMillion()
    ensures FormatMileage(1000000) == "1,000,000"
  {
    MillionDigits();
    var head := "1000000"[..4];
    assert head == "1000";
    assert GroupThousands(head) == "1,000";
    assert GroupThousands("1000000") == GroupThousands(head) + "," + "000";
  }

  lemma FormatCurrencyMillion()
    ensures FormatCurrency(1000000) == "$1,000,000"
  {
    FormatMileageMillion();
  }
}
