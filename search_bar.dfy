/** The IMO search bar: an IMO number is seven decimal digits whose last
    digit is the weighted sum of the first six (weights 7 down to 2) modulo
    10; a search is forwarded only for a valid number, otherwise an error is
    shown. */
module SearchBar {
  import opened PilotageData
  import opened TimeFormat

  /** `\d` without the `u` flag: the ASCII digits only. */
  predicate IsDigit(c: char)
  {
    '0' <= c <= '9'
  }

  /** `Number(c)` for a digit character. */
  function DigitValue(c: char): (v: nat)
    requires IsDigit(c)
    ensures v <= 9
  {
    (c as int) - ('0' as int)
  }

  /** `/^\d{7}$/.test(s)`: exactly seven digits and nothing else. */
  predicate SevenDigits(s: string)
  {
    |s| == 7 && forall i :: 0 <= i < 7 ==> IsDigit(s[i])
  }

  /** The IMO check: 7·d0 + 6·d1 + 5·d2 + 4·d3 + 3·d4 + 2·d5 ends in d6. */
  predicate ValidImo(s: string)
  {
    SevenDigits(s) &&
    (7 * DigitValue(s[0]) + 6 * DigitValue(s[1]) + 5 * DigitValue(s[2]) +
     4 * DigitValue(s[3]) + 3 * DigitValue(s[4]) + 2 * DigitValue(s[5])) % 10 == DigitValue(s[6])
  }

  /** The running sum after the first `n` weighted digits. */
  function PartialSum(digits: seq<nat>, n: nat): nat
    requires n <= 6 <= |digits|
  {
    if n == 0 then 0 else PartialSum(digits, n - 1) + digits[n - 1] * (8 - n)
  }

  /** Six loop steps add up the digits with weights 7 down to 2. */
  lemma {:induction false} PartialSumIsWeighted(digits: seq<nat>)
    requires 6 <= |digits|
    ensures PartialSum(digits, 6) ==
            7 * digits[0] + 6 * digits[1] + 5 * digits[2] + 4 * digits[3] + 3 * digits[4] + 2 * digits[5]
  {
    assert PartialSum(digits, 1) == 7 * digits[0];
    assert PartialSum(digits, 2) == PartialSum(digits, 1) + 6 * digits[1];
    assert PartialSum(digits, 3) == PartialSum(digits, 2) + 5 * digits[2];
    assert PartialSum(digits, 4) == PartialSum(digits, 3) + 4 * digits[3];
    assert PartialSum(digits, 5) == PartialSum(digits, 4) + 3 * digits[4];
  }

  /** `isValidImo(imo)`: the pattern test, then the loop over the first six
      digits with a decreasing multiplier, then the comparison with the last. */
  method IsValidImo(imo: string) returns (valid: bool)
    ensures valid <==> ValidImo(imo)
  {
    if !SevenDigits(imo) {
      return false;
    }
    var digitsArray: seq<nat> := seq(7, i requires 0 <= i < 7 => DigitValue(imo[i]));
    var multiplier := 7;
    var sum := 0;
    for i := 0 to 6
      invariant multiplier == 7 - i
      invariant sum == PartialSum(digitsArray, i)
    {
      sum := sum + digitsArray[i] * multiplier;
      multiplier := multiplier - 1;
    }
    PartialSumIsWeighted(digitsArray);
    var lastDigit := sum % 10;
    valid := lastDigit == digitsArray[6];
  }

  /** The check digit that completes six digits. */
  function CheckDigit(prefix: string): (c: char)
    requires |prefix| == 6 && forall i :: 0 <= i < 6 ==> IsDigit(prefix[i])
    ensures IsDigit(c)
  {
    var sum := 7 * DigitValue(prefix[0]) + 6 * DigitValue(prefix[1]) + 5 * DigitValue(prefix[2]) +
               4 * DigitValue(prefix[3]) + 3 * DigitValue(prefix[4]) + 2 * DigitValue(prefix[5]);
    ('0' as int + sum % 10) as char
  }

  /** Every six digits have exactly one valid completion: appending the
      check digit gives a valid number, and any valid number with those six
      digits ends in it. */
  lemma CheckDigitIsUnique(prefix: string, last: char)
    requires |prefix| == 6 && forall i :: 0 <= i < 6 ==> IsDigit(prefix[i])
    ensures ValidImo(prefix + [CheckDigit(prefix)])
    ensures ValidImo(prefix + [last]) ==> last == CheckDigit(prefix)
  {
    var s := prefix + [CheckDigit(prefix)];
    assert forall i :: 0 <= i < 6 ==> s[i] == prefix[i];
    var t := prefix + [last];
    assert forall i :: 0 <= i < 6 ==> t[i] == prefix[i];
  }

  /** Altering the check digit of a valid number makes it invalid. */
  lemma CheckDigitChangeDetected(s: string, c: char)
    requires ValidImo(s) && IsDigit(c) && c != s[6]
    ensures !ValidImo(s[..6] + [c])
  {
    var t := s[..6] + [c];
    assert forall i :: 0 <= i < 6 ==> t[i] == s[i];
  }

  /** A change of 5 in a digit of even weight (6, 4 or 2) goes undetected:
      `9074729` and `9574729` are both valid. */
  lemma EvenWeightsMissAChangeOfFive()
    ensures ValidImo("9074729") && ValidImo("9574729")
  {
    assert DigitValue('9') == 9 && DigitValue('0') == 0 && DigitValue('7') == 7;
    assert DigitValue('4') == 4 && DigitValue('2') == 2 && DigitValue('5') == 5;
  }

  /** A number failing only the check digit is rejected. */
  lemma WrongCheckDigitRejected()
    ensures SevenDigits("9074728") && !ValidImo("9074728")
  {
    assert DigitValue('9') == 9 && DigitValue('0') == 0 && DigitValue('7') == 7;
    assert DigitValue('4') == 4 && DigitValue('2') == 2 && DigitValue('8') == 8;
  }

  const InvalidImoMessage: string := "Invalid IMO number"

  /** The `SearchBar` component's state: the input text, the error shown
      (`null` as `None`), and the numbers handed to `onSearch` so far. */
  class SearchBarState {
    var imo: string
    var error: Option<string>
    var searched: seq<string>

    /** Only valid numbers are ever handed to `onSearch`. */
    predicate Valid()
      reads this
    {
      forall k :: 0 <= k < |searched| ==> ValidImo(searched[k])
    }

    /** `useState('')` and `useState(null)`. */
    constructor ()
      ensures Valid()
      ensures imo == "" && error == None && searched == []
    {
      imo := "";
      error := None;
      searched := [];
    }

    /** `disabled={!imo.trim()}`. */
    predicate EnterDisabled()
      reads this
    {
      Trim(imo) == ""
    }

    /** A valid number has no surrounding space, so it is searched as typed
        and the Enter button is enabled for it. */
    lemma ValidImoEnablesEnter()
      requires ValidImo(imo)
      ensures Trim(imo) == imo && !EnterDisabled()
    {
      assert IsDigit(imo[0]) && IsDigit(imo[6]);
      TrimFixesTrimmed(imo);
    }

    /** `onChange`: `setImo(input.target.value)`. */
    method SetImo(value: string)
      requires Valid()
      modifies this
      ensures Valid()
      ensures imo == value && error == old(error) && searched == old(searched)
    {
      imo := value;
    }

    /** `handleSearch`: an invalid number only sets the error; a valid one
      clears it and is handed to `onSearch`. */
    method HandleSearch()
      requires Valid()
      modifies this
      ensures Valid()
      ensures imo == old(imo)
      ensures !ValidImo(imo) ==> error == Some(InvalidImoMessage) && searched == old(searched)
      ensures ValidImo(imo) ==> error == None && searched == old(searched) + [imo]
    {
      var ok := IsValidImo(imo);
      if !ok {
        error := Some(InvalidImoMessage);
        return;
      }
      error := None;
      searched := searched + [imo];
    }
  }
}
