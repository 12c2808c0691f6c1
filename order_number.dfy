/** pkg/domain/gophermart.go: order-number validation. A Go string is a byte
    string; here each char of a `string` stands for one byte. */
module OrderNumber {
  import opened Wrappers
  import opened Errors
  import opened Config

  const OrderNumberMaxLength := 65535

  // ---- the pattern ^\s*\d+\s*$ ----

  /** RE2's `\s`: tab, newline, form feed, carriage return and space (vertical
      tab is not included). */
  predicate IsSpace(c: char)
  {
    c == ' ' || c as int == 9 || c as int == 10 || c as int == 12 || c as int == 13
  }

  predicate AllSpaces(s: string)
  {
    forall k :: 0 <= k < |s| ==> IsSpace(s[k])
  }

  /** The end of the run of spaces that starts at `from`. */
  function SkipSpaces(s: string, from: nat): (end: nat)
    requires from <= |s|
    ensures from <= end <= |s|
    ensures forall k :: from <= k < end ==> IsSpace(s[k])
    ensures end < |s| ==> !IsSpace(s[end])
    decreases |s| - from
  {
    if from < |s| && IsSpace(s[from]) then SkipSpaces(s, from + 1) else from
  }

  /** The end of the run of digits that starts at `from`. */
  function SkipDigits(s: string, from: nat): (end: nat)
    requires from <= |s|
    ensures from <= end <= |s|
    ensures forall k :: from <= k < end ==> IsDigit(s[k])
    ensures end < |s| ==> !IsDigit(s[end])
    decreases |s| - from
  {
    if from < |s| && IsDigit(s[from]) then SkipDigits(s, from + 1) else from
  }

  /** `orderNumRegex.MatchString`: optional spaces, one or more digits,
      optional spaces, and nothing else. */
  function MatchesPattern(s: string): bool
  {
    var digitsStart := SkipSpaces(s, 0);
    var digitsEnd := SkipDigits(s, digitsStart);
    digitsStart < digitsEnd && SkipSpaces(s, digitsEnd) == |s|
  }

  /** `s` is spaces, then the digits `s[i..j]`, then spaces. */
  predicate PatternSplit(s: string, i: nat, j: nat)
  {
    i < j <= |s| && AllSpaces(s[..i]) && AllDigits(s[i..j]) && AllSpaces(s[j..])
  }

  /** The scanner matches exactly the strings the pattern describes. */
  lemma MatchesPatternIff(s: string)
    ensures MatchesPattern(s) <==> exists i, j :: PatternSplit(s, i, j)
  {
    var a := SkipSpaces(s, 0);
    var b := SkipDigits(s, a);
    if MatchesPattern(s) {
      assert PatternSplit(s, a, b);
    }
    if i: nat, j: nat :| PatternSplit(s, i, j) {
      forall k | 0 <= k < i
        ensures IsSpace(s[k])
      {
        assert s[..i][k] == s[k];
      }
      forall k | i <= k < j
        ensures IsDigit(s[k])
      {
        assert s[i..j][k - i] == s[k];
      }
      forall k | j <= k < |s|
        ensures IsSpace(s[k])
      {
        assert s[j..][k - j] == s[k];
      }
      assert IsDigit(s[i]) && !IsSpace(s[i]);
      assert a == i;
      assert j < |s| ==> IsSpace(s[j]) && !IsDigit(s[j]);
      assert b == j;
    }
  }

  /** A leading or trailing space is admitted by the pattern. */
  lemma PaddedNumberMatches()
    ensures MatchesPattern(" 79927398713 ")
  {
    assert PatternSplit(" 79927398713 ", 1, 12);
    MatchesPatternIff(" 79927398713 ");
  }

  // ---- CheckLuhn as written ----

  function DigitValue(c: char): nat
    requires IsDigit(c)
  {
    (c - '0') as nat
  }

  /** `strconv.Atoi` on a one-byte string accepts exactly the ASCII digits. */
  lemma AtoiOneByte(c: char)
    ensures Atoi([c]).Some? <==> IsDigit(c)
    ensures IsDigit(c) ==> Atoi([c]).value == DigitValue(c)
  {
    if IsDigit(c) {
      assert [c][..0] == [];
      assert DigitsValue([c]) == DigitValue(c);
    }
  }

  /** What one digit adds to `sum` in the loop as written: the digit, doubled
      at the doubled positions, counts only when it exceeds 9, and then as
      digit − 9. */
  function WrittenWeight(d: nat, doubled: bool): nat
  {
    var v := if doubled then 2 * d else d;
    if v > 9 then v - 9 else 0
  }

  /** `sum` after the loop as written has read the digits of `s`, where the
      index `i` is doubled when `i % 2 == parity`. */
  function WrittenSum(s: string, parity: nat): nat
    requires AllDigits(s)
  {
    if s == [] then 0
    else WrittenSum(s[..|s| - 1], parity) + WrittenWeight(DigitValue(s[|s| - 1]), (|s| - 1) % 2 == parity)
  }

  /** The verdict of `CheckLuhn` as written. */
  predicate LuhnAsWritten(s: string)
  {
    AllDigits(s) && WrittenSum(s, |s| % 2) % 10 == 0
  }

  /** `CheckLuhn`. */
  method CheckLuhn(number: string) returns (ok: bool)
    ensures ok == LuhnAsWritten(number)
    // any byte that is not an ASCII digit, a space included, rejects the number
    ensures ok ==> AllDigits(number)
  {
    var sum := 0;
    var nDigits := |number|;
    var parity := nDigits % 2;
    var i := 0;
    while i < nDigits
      invariant 0 <= i <= nDigits
      invariant AllDigits(number[..i])
      invariant sum == WrittenSum(number[..i], parity)
    {
      AtoiOneByte(number[i]);
      var parsed := Atoi([number[i]]);
      if parsed.None? {
        return false;
      }
      var digit := parsed.value;
      if i % 2 == parity {
        digit := digit * 2;
      }
      if digit > 9 {
        digit := digit - 9;
        sum := sum + digit;
      }
      assert number[..i + 1][..i] == number[..i];
      i := i + 1;
    }
    assert number[..i] == number;
    ok := sum % 10 == 0;
  }

  // ---- the Luhn formula (ISO/IEC 7812-1, Annex B) ----

  /** What one digit adds in the Luhn formula: the digit, or its double with 9
      subtracted when the double exceeds 9. */
  function LuhnWeight(d: nat, doubled: bool): nat
  {
    var v := if doubled then 2 * d else d;
    if v > 9 then v - 9 else v
  }

  /** The Luhn sum read from the right, doubling every second digit; the
      rightmost digit is doubled when `doubleLast`. */
  function LuhnSum(s: string, doubleLast: bool): nat
    requires AllDigits(s)
  {
    if s == [] then 0
    else LuhnWeight(DigitValue(s[|s| - 1]), doubleLast) + LuhnSum(s[..|s| - 1], !doubleLast)
  }

  /** The Luhn check: the check digit is the rightmost, which is not doubled. */
  predicate LuhnValid(s: string)
  {
    AllDigits(s) && LuhnSum(s, false) % 10 == 0
  }

  /** The left-to-right sum with the Luhn weight, as the loop computes it. */
  function LuhnPrefixSum(s: string, parity: nat): nat
    requires AllDigits(s)
  {
    if s == [] then 0
    else LuhnPrefixSum(s[..|s| - 1], parity) + LuhnWeight(DigitValue(s[|s| - 1]), (|s| - 1) % 2 == parity)
  }

  /** Reading from the left with `i % 2 == parity` doubled is reading from the
      right with the matching position doubled. */
  lemma {:induction false} LuhnPrefixSumFromRight(s: string, parity: nat)
    requires AllDigits(s) && parity < 2
    ensures s != [] ==> LuhnPrefixSum(s, parity) == LuhnSum(s, (|s| - 1) % 2 == parity)
  {
    if |s| > 1 {
      var init := s[..|s| - 1];
      LuhnPrefixSumFromRight(init, parity);
      assert ((|init| - 1) % 2 == parity) == !((|s| - 1) % 2 == parity);
    } else if |s| == 1 {
      assert s[..0] == [];
    }
  }

  /** `CheckLuhn` with every digit added, as the Luhn formula has it. */
  method CheckLuhnIntended(number: string) returns (ok: bool)
    ensures ok == LuhnValid(number)
  {
    var sum := 0;
    var nDigits := |number|;
    var parity := nDigits % 2;
    var i := 0;
    while i < nDigits
      invariant 0 <= i <= nDigits
      invariant AllDigits(number[..i])
      invariant sum == LuhnPrefixSum(number[..i], parity)
    {
      AtoiOneByte(number[i]);
      var parsed := Atoi([number[i]]);
      if parsed.None? {
        return false;
      }
      var digit := parsed.value;
      if i % 2 == parity {
        digit := digit * 2;
      }
      if digit > 9 {
        digit := digit - 9;
      }
      sum := sum + digit;
      assert number[..i + 1][..i] == number[..i];
      i := i + 1;
    }
    assert number[..i] == number;
    LuhnPrefixSumFromRight(number, parity);
    ok := sum % 10 == 0;
  }

  /** The Luhn formula accepts 3413042486 (its sum is 40)... */
  lemma LuhnAcceptsNumber()
    ensures LuhnValid("3413042486")
  {
    assert "3"[..0] == "";
    assert LuhnSum("3", true) == 6;
    assert "34"[..1] == "3";
    assert LuhnSum("34", false) == 10;
    assert "341"[..2] == "34";
    assert LuhnSum("341", true) == 12;
    assert "3413"[..3] == "341";
    assert LuhnSum("3413", false) == 15;
    assert "34130"[..4] == "3413";
    assert LuhnSum("34130", true) == 15;
    assert "341304"[..5] == "34130";
    assert LuhnSum("341304", false) == 19;
    assert "3413042"[..6] == "341304";
    assert LuhnSum("3413042", true) == 23;
    assert "34130424"[..7] == "3413042";
    assert LuhnSum("34130424", false) == 27;
    assert "341304248"[..8] == "34130424";
    assert LuhnSum("341304248", true) == 34;
    assert "3413042486"[..9] == "341304248";
    assert LuhnSum("3413042486", false) == 40;
  }

  /** ...but the as-written loop rejects it (its sum is 7). */
  lemma WrittenRejectsLuhnNumber()
    ensures !LuhnAsWritten("3413042486")
  {
    assert "3"[..0] == "";
    assert WrittenSum("3", 0) == 0;
    assert "34"[..1] == "3";
    assert WrittenSum("34", 0) == 0;
    assert "341"[..2] == "34";
    assert WrittenSum("341", 0) == 0;
    assert "3413"[..3] == "341";
    assert WrittenSum("3413", 0) == 0;
    assert "34130"[..4] == "3413";
    assert WrittenSum("34130", 0) == 0;
    assert "341304"[..5] == "34130";
    assert WrittenSum("341304", 0) == 0;
    assert "3413042"[..6] == "341304";
    assert WrittenSum("3413042", 0) == 0;
    assert "34130424"[..7] == "3413042";
    assert WrittenSum("34130424", 0) == 0;
    assert "341304248"[..8] == "34130424";
    assert WrittenSum("341304248", 0) == 7;
    assert "3413042486"[..9] == "341304248";
    assert WrittenSum("3413042486", 0) == 7;
  }

  /** 3413042466 fails the Luhn formula (its sum is 36)... */
  lemma LuhnRejectsNumber()
    ensures !LuhnValid("3413042466")
  {
    assert "3"[..0] == "";
    assert LuhnSum("3", true) == 6;
    assert "34"[..1] == "3";
    assert LuhnSum("34", false) == 10;
    assert "341"[..2] == "34";
    assert LuhnSum("341", true) == 12;
    assert "3413"[..3] == "341";
    assert LuhnSum("3413", false) == 15;
    assert "34130"[..4] == "3413";
    assert LuhnSum("34130", true) == 15;
    assert "341304"[..5] == "34130";
    assert LuhnSum("341304", false) == 19;
    assert "3413042"[..6] == "341304";
    assert LuhnSum("3413042", true) == 23;
    assert "34130424"[..7] == "3413042";
    assert LuhnSum("34130424", false) == 27;
    assert "341304246"[..8] == "34130424";
    assert LuhnSum("341304246", true) == 30;
    assert "3413042466"[..9] == "341304246";
    assert LuhnSum("3413042466", false) == 36;
  }

  /** ...and the as-written loop rejects it too (its sum is 3). */
  lemma WrittenRejectsNonLuhnNumber()
    ensures !LuhnAsWritten("3413042466")
  {
    assert "3"[..0] == "";
    assert WrittenSum("3", 0) == 0;
    assert "34"[..1] == "3";
    assert WrittenSum("34", 0) == 0;
    assert "341"[..2] == "34";
    assert WrittenSum("341", 0) == 0;
    assert "3413"[..3] == "341";
    assert WrittenSum("3413", 0) == 0;
    assert "34130"[..4] == "3413";
    assert WrittenSum("34130", 0) == 0;
    assert "341304"[..5] == "34130";
    assert WrittenSum("341304", 0) == 0;
    assert "3413042"[..6] == "341304";
    assert WrittenSum("3413042", 0) == 0;
    assert "34130424"[..7] == "3413042";
    assert WrittenSum("34130424", 0) == 0;
    assert "341304246"[..8] == "34130424";
    assert WrittenSum("341304246", 0) == 3;
    assert "3413042466"[..9] == "341304246";
    assert WrittenSum("3413042466", 0) == 3;
  }

  /** The as-written loop accepts a number the Luhn formula rejects. */
  lemma WrittenAcceptsNonLuhnNumber()
    ensures !LuhnValid("1")
    ensures LuhnAsWritten("1")
  {
  }

  // ---- CheckOrderNumber ----

  /** The numbers CheckOrderNumber accepts. */
  predicate Accepted(number: string)
  {
    |number| <= OrderNumberMaxLength && MatchesPattern(number) && LuhnAsWritten(number)
  }

  /** `CheckOrderNumber`: the length guard, the pattern, then CheckLuhn as
      written. */
  method CheckOrderNumber(number: string) returns (ok: bool, err: Option<Error>)
    ensures |number| > OrderNumberMaxLength ==> !ok && err == Some(OrderNumberTooLong)
    ensures |number| <= OrderNumberMaxLength && !MatchesPattern(number) ==> !ok && err == Some(BadOrderNumber)
    ensures |number| <= OrderNumberMaxLength && MatchesPattern(number) ==> err == None && ok == LuhnAsWritten(number)
    ensures ok == Accepted(number)
    // an accepted number is a non-empty run of ASCII digits without padding
    ensures ok ==> err == None && number != [] && AllDigits(number)
  {
    if |number| > OrderNumberMaxLength {
      return false, Some(OrderNumberTooLong);
    }
    if !MatchesPattern(number) {
      return false, Some(BadOrderNumber);
    }
    ok := CheckLuhn(number);
    err := None;
  }
}
