/**
 * The credit-card page: the card-number check (13 to 19 digits after spaces are
 * removed, then the Luhn mod-10 check digit of Annex B of ISO/IEC 7812-1), the
 * expiry and CVC checks, the as-you-type formatting of the card number and the
 * CVC length limit, and the order in which "Continue Booking" applies them.
 */
module Payment {
  import opened Text
  import Dates

  /** The reverse of a string (`s[::-1]`). */
  function Reverse(s: string): (r: string)
    ensures |r| == |s|
    ensures forall i :: 0 <= i < |s| ==> r[i] == s[|s| - 1 - i]
  {
    if s == [] then [] else Reverse(s[1..]) + [s[0]]
  }

  /**
   * What the digit `d` at position `i` counted from the right (0 = the check
   * digit) adds to the Luhn sum: odd positions are doubled, less 9 above 9.
   */
  function LuhnTerm(d: nat, i: nat): (n: nat)
    requires d < 10
    ensures n < 10
  {
    if i % 2 == 1 then (if 2 * d > 9 then 2 * d - 9 else 2 * d) else d
  }

  /** At every position the Luhn term is a one-to-one map of the ten digits. */
  lemma LuhnTermInjective(a: nat, b: nat, i: nat)
    requires a < 10 && b < 10 && a != b
    ensures LuhnTerm(a, i) != LuhnTerm(b, i)
  {
  }

  /** The sum of the Luhn terms of the first `k` characters of the reversed digits `r`. */
  function LuhnPrefix(r: string, k: nat): nat
    requires AllDigits(r) && k <= |r|
  {
    if k == 0 then 0 else LuhnPrefix(r, k - 1) + LuhnTerm(DigitValue(r[k - 1]), k - 1)
  }

  /** The Luhn sum of a digit string. */
  function LuhnSum(s: string): nat
    requires AllDigits(s)
  {
    LuhnPrefix(Reverse(s), |s|)
  }

  /** `luhn_algorithm`: walks the reversed digits, accumulating the Luhn terms. */
  method LuhnAlgorithm(s: string) returns (ok: bool)
    requires AllDigits(s)
    ensures ok <==> LuhnSum(s) % 10 == 0
  {
    var total := 0;
    var reversed := Reverse(s);
    var i := 0;
    while i < |reversed|
      invariant 0 <= i <= |reversed|
      invariant total == LuhnPrefix(reversed, i)
    {
      var n := DigitValue(reversed[i]);
      if i % 2 == 1 {
        n := n * 2;
        if n > 9 {
          n := n - 9;
        }
      }
      total := total + n;
      i := i + 1;
    }
    ok := total % 10 == 0;
  }

  /** The acceptance rule of `validate_card_number`, stated on the typed text. */
  predicate CardNumberAccepted(cardNumber: string)
  {
    var digits := RemoveSpaces(cardNumber);
    13 <= |digits| <= 19 && AllDigits(digits) && LuhnSum(digits) % 10 == 0
  }

  /** `validate_card_number`: the `^\d{13,19}$` match on the space-free text, then Luhn. */
  method ValidateCardNumber(cardNumber: string) returns (ok: bool)
    ensures ok <==> CardNumberAccepted(cardNumber)
  {
    var digits := RemoveSpaces(cardNumber);
    if !(13 <= |digits| <= 19 && AllDigits(digits)) {
      return false;
    }
    ok := LuhnAlgorithm(digits);
  }

  /**
   * If two reversed digit strings differ only at position q, their Luhn prefix
   * sums differ exactly by the two terms at q once q is included.
   */
  lemma {:induction false} LuhnPrefixDiff(r1: string, r2: string, q: nat, k: nat)
    requires AllDigits(r1) && AllDigits(r2) && |r1| == |r2|
    requires q < |r1| && k <= |r1|
    requires forall j :: 0 <= j < |r1| && j != q ==> r1[j] == r2[j]
    ensures LuhnPrefix(r1, k) - LuhnPrefix(r2, k)
         == if q < k then LuhnTerm(DigitValue(r1[q]), q) - LuhnTerm(DigitValue(r2[q]), q) else 0
  {
    if k > 0 {
      LuhnPrefixDiff(r1, r2, q, k - 1);
    }
  }

  /**
   * Changing any single digit of a number whose Luhn sum is 0 mod 10 makes the
   * sum nonzero mod 10.
   */
  lemma LuhnDetectsSingleDigitChange(s: string, t: string, p: nat)
    requires AllDigits(s) && AllDigits(t) && |s| == |t| && p < |s|
    requires s[p] != t[p]
    requires forall j :: 0 <= j < |s| && j != p ==> s[j] == t[j]
    requires LuhnSum(s) % 10 == 0
    ensures LuhnSum(t) % 10 != 0
  {
    var r1, r2 := Reverse(s), Reverse(t);
    var q := |s| - 1 - p;
    assert r1[q] == s[p] && r2[q] == t[p];
    assert AllDigits(r1) && AllDigits(r2);
    LuhnPrefixDiff(r1, r2, q, |s|);
    var a, b := DigitValue(s[p]), DigitValue(t[p]);
    assert a != b;
    LuhnTermInjective(a, b, q);
    var x: int, y: int := LuhnSum(s), LuhnSum(t);
    assert x - y == LuhnTerm(a, q) - LuhnTerm(b, q);
    if y % 10 == 0 {
      DifferenceOfMultiplesOfTen(x, y);
      assert false;
    }
  }

  /** Two multiples of ten less than ten apart are equal. */
  lemma DifferenceOfMultiplesOfTen(x: int, y: int)
    requires x % 10 == 0 && y % 10 == 0 && -10 < x - y < 10
    ensures x == y
  {
    var k := x / 10 - y / 10;
    assert x - y == 10 * k;
  }

  /**
   * The same on the card field, where `format_card_number` has grouped the
   * digits with spaces: if one digit of an accepted card number is replaced
   * by another digit, the number is rejected.
   */
  lemma CardNumberSingleDigitChangeRejected(s: string, t: string, p: nat)
    requires CardNumberAccepted(s)
    requires |t| == |s| && p < |s| && IsDigit(s[p]) && IsDigit(t[p]) && t[p] != s[p]
    requires forall j :: 0 <= j < |s| && j != p ==> s[j] == t[j]
    ensures !CardNumberAccepted(t)
  {
    var q := RemoveSpacesOneChange(s, t, p);
    var ds, dt := RemoveSpaces(s), RemoveSpaces(t);
    assert AllDigits(dt) by {
      forall j | 0 <= j < |dt| ensures IsDigit(dt[j]) {
        if j != q {
          assert dt[j] == ds[j];
        }
      }
    }
    LuhnDetectsSingleDigitChange(ds, dt, q);
  }

  /** The check digit is counted as it is: appending `c` adds its value to the sum with a final '0'. */
  lemma LuhnAppendDigit(payload: string, c: char)
    requires AllDigits(payload) && IsDigit(c)
    ensures AllDigits(payload + [c]) && AllDigits(payload + ['0'])
    ensures LuhnSum(payload + [c]) == LuhnSum(payload + ['0']) + DigitValue(c)
  {
    var t, base := payload + [c], payload + ['0'];
    assert AllDigits(t) && AllDigits(base);
    var r1, r2 := Reverse(t), Reverse(base);
    assert AllDigits(r1) && AllDigits(r2);
    assert r1[0] == c && r2[0] == '0';
    assert forall j :: 0 <= j < |r1| && j != 0 ==> r1[j] == r2[j];
    LuhnPrefixDiff(r1, r2, 0, |t|);
  }

  /**
   * For every payload exactly one final digit makes the Luhn sum 0 mod 10:
   * the check digit of Annex B of ISO/IEC 7812-1.
   */
  lemma LuhnCheckDigitUnique(payload: string, c: char, e: char)
    requires AllDigits(payload) && IsDigit(c) && IsDigit(e)
    ensures AllDigits(payload + [c]) && AllDigits(payload + [e])
    ensures c == DigitChar((10 - LuhnSum(payload + ['0']) % 10) % 10) ==> LuhnSum(payload + [c]) % 10 == 0
    ensures LuhnSum(payload + [c]) % 10 == 0 && LuhnSum(payload + [e]) % 10 == 0 ==> c == e
  {
    LuhnAppendDigit(payload, c);
    LuhnAppendDigit(payload, e);
    var n := |payload| + 1;
    if c != e && LuhnSum(payload + [c]) % 10 == 0 {
      assert (payload + [c])[n - 1] == c && (payload + [e])[n - 1] == e;
      assert forall j :: 0 <= j < n && j != n - 1 ==> (payload + [c])[j] == (payload + [e])[j];
      LuhnDetectsSingleDigitChange(payload + [c], payload + [e], n - 1);
    }
  }

  lemma ReverseIs(s: string, r: string)
    requires |r| == |s| && forall i :: 0 <= i < |s| ==> r[i] == s[|s| - 1 - i]
    ensures Reverse(s) == r
  {
  }

  lemma ExampleLuhnPrefix(r: string)
    requires r == "6630382115102354"
    ensures AllDigits(r) && LuhnPrefix(r, 16) == 50
  {
    assert LuhnPrefix(r, 1) == 6;
    assert LuhnPrefix(r, 2) == 9;
    assert LuhnPrefix(r, 3) == 12;
    assert LuhnPrefix(r, 4) == 12;
    assert LuhnPrefix(r, 5) == 15;
    assert LuhnPrefix(r, 6) == 22;
    assert LuhnPrefix(r, 7) == 24;
    assert LuhnPrefix(r, 8) == 26;
    assert LuhnPrefix(r, 9) == 27;
    assert LuhnPrefix(r, 10) == 28;
    assert LuhnPrefix(r, 11) == 29;
    assert LuhnPrefix(r, 12) == 29;
    assert LuhnPrefix(r, 13) == 31;
    assert LuhnPrefix(r, 14) == 37;
    assert LuhnPrefix(r, 15) == 42;
    assert LuhnPrefix(r, 16) == 50;
  }

  lemma ExampleLuhnSum(s: string)
    requires s == "4532015112830366"
    ensures AllDigits(s) && LuhnSum(s) == 50
  {
    var r := "6630382115102354";
    ReverseIs(s, r);
    ExampleLuhnPrefix(r);
  }

  /**
   * A well-known valid test number passes, the same number with its last digit
   * changed fails, and so does a number that is too short.
   */
  lemma CardNumberExamples(s: string, t: string, u: string)
    requires s == "4532015112830366" && t == "4532015112830367" && u == "453201511283"
    ensures CardNumberAccepted(s) && !CardNumberAccepted(t) && !CardNumberAccepted(u)
  {
    ExampleLuhnSum(s);
    RemoveSpacesNoSpaces(s);
    assert t[15] != s[15] && forall j :: 0 <= j < 16 && j != 15 ==> s[j] == t[j];
    assert AllDigits(t);
    LuhnDetectsSingleDigitChange(s, t, 15);
    RemoveSpacesNoSpaces(t);
    RemoveSpacesNoSpaces(u);
  }

  /** `validate_expiry_date`: two-digit month, four-digit year, not before the current (year, month). */
  function ExpiryAccepted(month: string, year: string, currentYear: int, currentMonth: int): (ok: bool)
    ensures ok ==> |month| == 2 && AllDigits(month) && |year| == 4 && AllDigits(year)
  {
    if !(|month| == 2 && AllDigits(month) && |year| == 4 && AllDigits(year)) then false
    else
      var expiryYear := ParseNat(year);
      var expiryMonth := ParseNat(month);
      !(expiryYear < currentYear || (expiryYear == currentYear && expiryMonth < currentMonth))
  }

  /**
   * Once the two fields are well formed, the check is the order of YYYYMM
   * numbers: the card is accepted iff its (year, month) is not before today's.
   */
  lemma ExpiryIsYearMonthOrder(month: string, year: string, currentYear: int, currentMonth: int)
    requires |month| == 2 && AllDigits(month) && |year| == 4 && AllDigits(year)
    requires 1 <= currentMonth <= 12
    ensures ExpiryAccepted(month, year, currentYear, currentMonth)
        <==> ParseNat(year) * 100 + ParseNat(month) >= currentYear * 100 + currentMonth
  {
    ParseNatBound(month);
    assert Pow10(2) == 100;
  }

  /** A card expiring in the current month is still accepted; one that expired last month is not. */
  lemma ExpiryCurrentMonthBoundary(currentYear: nat, currentMonth: nat)
    requires 1000 <= currentYear <= 9999 && 1 <= currentMonth <= 12
    ensures ExpiryAccepted(Dates.Pad2(currentMonth), Dates.Pad4(currentYear), currentYear, currentMonth)
    ensures currentMonth > 1 ==>
      !ExpiryAccepted(Dates.Pad2(currentMonth - 1), Dates.Pad4(currentYear), currentYear, currentMonth)
    ensures !ExpiryAccepted(Dates.Pad2(12), Dates.Pad4(currentYear - 1), currentYear, currentMonth)
  {
    Dates.ParseNatPad2(currentMonth);
    Dates.ParseNatPad2(currentMonth - 1);
    Dates.ParseNatPad2(12);
    Dates.ParseNatPad4(currentYear);
    Dates.ParseNatPad4(currentYear - 1);
  }

  /** The month is never range-checked: "13" and "00" pass as long as the year is in the future. */
  lemma ExpiryMonthNotRangeChecked(currentYear: nat, currentMonth: int)
    requires currentYear < 9999
    ensures ExpiryAccepted("13", Dates.Pad4(currentYear + 1), currentYear, currentMonth)
    ensures ExpiryAccepted("00", Dates.Pad4(currentYear + 1), currentYear, currentMonth)
  {
    Dates.ParseNatPad4(currentYear + 1);
  }

  /** `validate_cvc`: `^\d{3,4}$`. */
  predicate CvcAccepted(cvc: string)
  {
    3 <= |cvc| <= 4 && AllDigits(cvc)
  }

  /** `limit_cvc_input`: keeps at most the first four characters. */
  function LimitCvcInput(cvc: string): (r: string)
    ensures |r| == if |cvc| > 4 then 4 else |cvc|
    ensures r <= cvc
  {
    if |cvc| > 4 then cvc[..4] else cvc
  }

  /** Limiting is idempotent, leaves an accepted CVC alone, and never invalidates the first four characters. */
  lemma LimitCvcInputProperties(cvc: string)
    ensures LimitCvcInput(LimitCvcInput(cvc)) == LimitCvcInput(cvc)
    ensures CvcAccepted(cvc) ==> LimitCvcInput(cvc) == cvc
    ensures |cvc| >= 3 && AllDigits(cvc[..3]) && (|cvc| == 3 || IsDigit(cvc[3]))
            ==> CvcAccepted(LimitCvcInput(cvc))
  {
    var r := LimitCvcInput(cvc);
    if |cvc| >= 4 && AllDigits(cvc[..3]) && IsDigit(cvc[3]) {
      assert forall i :: 0 <= i < 4 ==> r[i] == cvc[i];
    }
  }

  /** The 4-character groups of `s` (`[s[i:i+4] for i in range(0, len(s), 4)]`). */
  function Chunks(s: string): (groups: seq<string>)
    ensures |groups| == (|s| + 3) / 4
    decreases |s|
  {
    if |s| == 0 then [] else if |s| <= 4 then [s] else [s[..4]] + Chunks(s[4..])
  }

  /** `sep.join(groups)`. */
  function Join(groups: seq<string>, sep: string): string
  {
    if |groups| == 0 then [] else if |groups| == 1 then groups[0] else groups[0] + sep + Join(groups[1..], sep)
  }

  function Concat(groups: seq<string>): string
  {
    if |groups| == 0 then [] else groups[0] + Concat(groups[1..])
  }

  /** Every group but the last has four characters, the last has one to four, and together they spell `s`. */
  lemma {:induction false} ChunksShape(s: string)
    ensures Concat(Chunks(s)) == s
    ensures forall i :: 0 <= i < |Chunks(s)| - 1 ==> |Chunks(s)[i]| == 4
    ensures |s| > 0 ==> 1 <= |Chunks(s)[|Chunks(s)| - 1]| <= 4
    decreases |s|
  {
    if |s| > 4 {
      ChunksShape(s[4..]);
      assert s == s[..4] + s[4..];
    }
  }

  lemma {:induction false} RemoveSpacesJoin(groups: seq<string>)
    requires forall i :: 0 <= i < |groups| ==> ' ' !in groups[i]
    ensures RemoveSpaces(Join(groups, " ")) == Concat(groups)
  {
    if |groups| == 1 {
      assert ' ' !in groups[0];
      RemoveSpacesNoSpaces(groups[0]);
    } else if |groups| > 1 {
      RemoveSpacesJoin(groups[1..]);
      RemoveSpacesAppend(groups[0] + " ", Join(groups[1..], " "));
      RemoveSpacesAppend(groups[0], " ");
      assert ' ' !in groups[0];
      RemoveSpacesNoSpaces(groups[0]);
      assert RemoveSpaces(" ") == [] by {
        assert " "[1..] == [];
      }
    }
  }

  /** The space-free text capped at 16 characters, which `format_card_number` then groups. */
  function CappedDigits(cardNumber: string): string
  {
    var digits := RemoveSpaces(cardNumber);
    if |digits| > 16 then digits[..16] else digits
  }

  /** `format_card_number`: remove spaces, keep at most 16 characters, group by four. */
  function FormatCardNumber(cardNumber: string): string
  {
    Join(Chunks(CappedDigits(cardNumber)), " ")
  }

  lemma ChunksHaveNoSpaces(s: string)
    requires ' ' !in s
    ensures forall i :: 0 <= i < |Chunks(s)| ==> ' ' !in Chunks(s)[i]
    decreases |s|
  {
    if |s| > 4 {
      assert forall c :: c in s[..4] ==> c in s;
      assert forall c :: c in s[4..] ==> c in s;
      ChunksHaveNoSpaces(s[4..]);
    }
  }

  /**
   * Removing the spaces from the formatted text gives back the first
   * min(16, n) characters of the space-free input.
   */
  lemma FormatCardNumberContent(cardNumber: string)
    ensures RemoveSpaces(FormatCardNumber(cardNumber)) == CappedDigits(cardNumber)
    ensures |CappedDigits(cardNumber)| <= 16
    ensures CappedDigits(cardNumber) <= RemoveSpaces(cardNumber)
    ensures |RemoveSpaces(FormatCardNumber(cardNumber))| <= |RemoveSpaces(cardNumber)|
  {
    var d := CappedDigits(cardNumber);
    assert forall c :: c in d ==> c in RemoveSpaces(cardNumber);
    ChunksHaveNoSpaces(d);
    RemoveSpacesJoin(Chunks(d));
    ChunksShape(d);
  }

  /** Every space-separated group of the output except the last has exactly four characters. */
  lemma FormatCardNumberGroups(cardNumber: string)
    ensures var groups := Chunks(CappedDigits(cardNumber));
      FormatCardNumber(cardNumber) == Join(groups, " ")
      && |groups| <= 4
      && (forall i :: 0 <= i < |groups| ==> ' ' !in groups[i])
      && (forall i :: 0 <= i < |groups| - 1 ==> |groups[i]| == 4)
  {
    var d := CappedDigits(cardNumber);
    assert forall c :: c in d ==> c in RemoveSpaces(cardNumber);
    ChunksHaveNoSpaces(d);
    ChunksShape(d);
  }

  /** Formatting text that is already formatted changes nothing. */
  lemma FormatCardNumberIdempotent(cardNumber: string)
    ensures FormatCardNumber(FormatCardNumber(cardNumber)) == FormatCardNumber(cardNumber)
  {
    FormatCardNumberContent(cardNumber);
    FormatCardNumberContent(FormatCardNumber(cardNumber));
  }

  /**
   * Formatting never changes the verdict on a number of at most 16 characters,
   * and whatever the formatted field holds is accepted only with 13 to 16 digits:
   * a 17- to 19-digit number, which the check would accept, cannot be typed in.
   */
  lemma FormatCardNumberAndAcceptance(cardNumber: string)
    ensures |RemoveSpaces(cardNumber)| <= 16 ==>
      (CardNumberAccepted(FormatCardNumber(cardNumber)) <==> CardNumberAccepted(cardNumber))
    ensures CardNumberAccepted(FormatCardNumber(cardNumber)) ==>
      13 <= |RemoveSpaces(FormatCardNumber(cardNumber))| <= 16
  {
    FormatCardNumberContent(cardNumber);
  }

  /** The outcome of "Continue Booking" on the card page. */
  datatype CardCheck = MissingDetails | InvalidCardNumber | InvalidExpiry | InvalidCvc | CardAccepted

  /**
   * `CreditCardPage.validate_and_proceed` without the page switch: the four
   * checks in order, stopping at the first that fails.
   */
  method CheckCardDetails(cardNumber: string, month: string, year: string, cvc: string,
                          currentYear: int, currentMonth: int) returns (r: CardCheck)
    ensures r == MissingDetails <==> (cardNumber == [] || month == [] || year == [] || cvc == [])
    ensures r == InvalidCardNumber <==>
      cardNumber != [] && month != [] && year != [] && cvc != [] && !CardNumberAccepted(cardNumber)
    ensures r == InvalidExpiry <==>
      cardNumber != [] && month != [] && year != [] && cvc != [] && CardNumberAccepted(cardNumber)
      && !ExpiryAccepted(month, year, currentYear, currentMonth)
    ensures r == InvalidCvc <==>
      cardNumber != [] && month != [] && year != [] && cvc != [] && CardNumberAccepted(cardNumber)
      && ExpiryAccepted(month, year, currentYear, currentMonth) && !CvcAccepted(cvc)
    ensures r == CardAccepted <==>
      CardNumberAccepted(cardNumber) && ExpiryAccepted(month, year, currentYear, currentMonth) && CvcAccepted(cvc)
  {
    if !(cardNumber != [] && month != [] && year != [] && cvc != []) {
      return MissingDetails;
    }
    var cardOk := ValidateCardNumber(cardNumber);
    if !cardOk {
      return InvalidCardNumber;
    }
    if !ExpiryAccepted(month, year, currentYear, currentMonth) {
      return InvalidExpiry;
    }
    if !CvcAccepted(cvc) {
      return InvalidCvc;
    }
    return CardAccepted;
  }
}
