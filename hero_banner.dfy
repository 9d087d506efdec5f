/**
 * `HeroBanner`: the counter is drawn one digit per box.
 */
module HeroBanner {
  import JsText

  const InitialCounter: nat := 232

  /** `counterValue.toString().split('')`: the decimal numeral of the counter,
      one single-character string per digit. */
  function CounterDigits(n: nat): (digits: seq<string>)
    ensures |digits| == |JsText.DecimalString(n)|
    ensures forall i :: 0 <= i < |digits| ==> |digits[i]| == 1 && JsText.IsDigit(digits[i][0])
    ensures Joined(digits) == JsText.DecimalString(n)
    ensures JsText.DigitsValue(Joined(digits)) == n
    ensures |digits| > 1 ==> digits[0] != "0"
  {
    Split(JsText.DecimalString(n))
  }

  /** `split('')` on a string: its characters as one-character strings. */
  function Split(s: string): (parts: seq<string>)
    ensures |parts| == |s|
    ensures forall i :: 0 <= i < |s| ==> parts[i] == [s[i]]
    ensures Joined(parts) == s
    decreases |s|
  {
    if s == [] then [] else [[s[0]]] + Split(s[1..])
  }

  /** `join('')`. */
  function Joined(parts: seq<string>): string
    decreases |parts|
  {
    if parts == [] then "" else parts[0] + Joined(parts[1..])
  }

  /** The banner starts with the boxes 2, 3, 2. */
  lemma InitialDigits()
    ensures CounterDigits(InitialCounter) == ["2", "3", "2"]
  {
    assert JsText.DecimalString(2) == "2";
    assert JsText.DecimalString(23) == "23";
    assert JsText.DecimalString(232) == "232";
    assert Split("232") == ["2", "3", "2"] by {
      assert Split("2") == ["2"];
      assert Split("32") == ["3", "2"];
    }
  }
}
