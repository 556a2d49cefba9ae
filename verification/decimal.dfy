/**
 * Decimal text to number, as `strconv.ParseUint(s, 10, 32)` does it for the `candidate_id`
 * query parameter of the stats handler (service/pkg.go:96): the text must be non-empty, consist
 * only of the ASCII digits 0-9 (no sign, no underscores, no prefix) and denote a value that fits
 * in 32 unsigned bits. Digits are consumed left to right and the scan stops at the first
 * character that is not a digit or at the first prefix whose value leaves the 32-bit range.
 */
module Decimal {
  import opened Optional

  /** Largest value `ParseUint` accepts with bit size 32. */
  const MaxUint32: nat := 0xFFFF_FFFF

  predicate IsDigit(c: char) {
    '0' <= c <= '9'
  }

  predicate IsDigits(s: string) {
    forall i :: 0 <= i < |s| ==> IsDigit(s[i])
  }

  function DigitValue(c: char): nat
    requires IsDigit(c)
  {
    c as int - '0' as int
  }

  function DigitChar(d: nat): char
    requires d < 10
  {
    ('0' as int + d) as char
  }

  /** The number a string of decimal digits denotes, read from its last digit. */
  function Value(s: string): nat
    requires IsDigits(s)
  {
    if |s| == 0 then 0 else 10 * Value(s[..|s| - 1]) + DigitValue(s[|s| - 1])
  }

  lemma ValueAppend(s: string, c: char)
    requires IsDigits(s) && IsDigit(c)
    ensures IsDigits(s + [c])
    ensures Value(s + [c]) == 10 * Value(s) + DigitValue(c)
  {
    assert (s + [c])[..|s|] == s;
  }

  /** A prefix of a digit string never denotes more than the whole string. */
  lemma {:induction false} ValuePrefixBound(s: string, k: nat)
    requires IsDigits(s) && k <= |s|
    ensures Value(s[..k]) <= Value(s)
    decreases |s|
  {
    if k < |s| {
      var init := s[..|s| - 1];
      assert init[..k] == s[..k];
      ValuePrefixBound(init, k);
    } else {
      assert s[..k] == s;
    }
  }

  /**
   * The digit scan from position `i`, where `acc` is the value of the digits already read.
   * It succeeds exactly when the whole string is digits and its value fits in 32 bits.
   */
  function ScanFrom(s: string, i: nat, acc: nat): (r: Option<nat>)
    requires i <= |s|
    requires IsDigits(s[..i]) && acc == Value(s[..i]) && acc <= MaxUint32
    ensures r.Some? <==> IsDigits(s) && Value(s) <= MaxUint32
    ensures r.Some? ==> r.value == Value(s)
    decreases |s| - i
  {
    if i == |s| then
      assert s[..i] == s;
      Some(acc)
    else if !IsDigit(s[i]) then
      None
    else
      var n := 10 * acc + DigitValue(s[i]);
      assert s[..i + 1] == s[..i] + [s[i]];
      ValueAppend(s[..i], s[i]);
      if n > MaxUint32 then
        assert IsDigits(s) ==> Value(s) > MaxUint32 by {
          if IsDigits(s) { ValuePrefixBound(s, i + 1); }
        }
        None
      else
        ScanFrom(s, i + 1, n)
  }

  /**
   * `strconv.ParseUint(s, 10, 32)`: `Some(value)` for an accepted string, `None` for either
   * of its errors (a syntax error or a range error).
   */
  function ParseUint32(s: string): (r: Option<nat>)
    ensures r.Some? <==> s != "" && IsDigits(s) && Value(s) <= MaxUint32
    ensures r.Some? ==> r.value == Value(s) <= MaxUint32
  {
    if s == "" then None else ScanFrom(s, 0, 0)
  }

  /** The canonical decimal spelling of `n`: no sign and no leading zeros. */
  function DecimalString(n: nat): (s: string)
    ensures s != "" && IsDigits(s)
  {
    if n < 10 then [DigitChar(n)] else DecimalString(n / 10) + [DigitChar(n % 10)]
  }

  /** The spelled value reads back as `n`. */
  lemma {:induction false} DecimalStringValue(n: nat)
    ensures Value(DecimalString(n)) == n
  {
    if n >= 10 {
      DecimalStringValue(n / 10);
      ValueAppend(DecimalString(n / 10), DigitChar(n % 10));
    }
  }

  /** Round trip: parsing the spelling of `n` gives back `n` exactly when `n` fits in 32 bits. */
  lemma ParseDecimalString(n: nat)
    ensures ParseUint32(DecimalString(n)) == if n <= MaxUint32 then Some(n) else None
  {
    DecimalStringValue(n);
  }

  /** A leading zero changes nothing: "007" is accepted as 7. */
  lemma {:induction false} LeadingZero(s: string)
    requires s != ""
    ensures ParseUint32("0" + s) == ParseUint32(s)
  {
    if IsDigits(s) {
      LeadingZeroValue(s);
    } else {
      var i :| 0 <= i < |s| && !IsDigit(s[i]);
      assert ("0" + s)[i + 1] == s[i];
    }
  }

  lemma {:induction false} LeadingZeroValue(s: string)
    requires IsDigits(s)
    ensures IsDigits("0" + s) && Value("0" + s) == Value(s)
    decreases |s|
  {
    if |s| > 0 {
      var init := s[..|s| - 1];
      LeadingZeroValue(init);
      assert ("0" + s)[..|s|] == "0" + init;
    }
  }
}
