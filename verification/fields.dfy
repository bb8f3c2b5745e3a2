/** `parseResult` with the three fixed patterns `TMP: ([0-9]+)`,
    `HUM: ([0-9]+)` and `BRI: ([0-9]+)`: the leftmost tag followed by at
    least one digit, with the greedy capture of the digits after it. */
module Fields {
  import opened Results
  import opened Decimal

  const TemperatureLabel := "TMP: "
  const HumidityLabel := "HUM: "
  const BrightnessLabel := "BRI: "

  /** The pattern `LABEL([0-9]+)` matches at position `i` of `text`. */
  predicate MatchAt(text: string, tag: string, i: int)
  {
    0 <= i && i + |tag| < |text| && text[i..i + |tag|] == tag && IsDigit(text[i + |tag|])
  }

  /** `i` is the leftmost position at which the pattern matches. */
  predicate LeftmostMatch(text: string, tag: string, i: int)
  {
    MatchAt(text, tag, i) && forall j :: 0 <= j < i ==> !MatchAt(text, tag, j)
  }

  /** The pattern matches somewhere in `text`. */
  predicate HasMatch(text: string, tag: string)
  {
    exists i :: 0 <= i < |text| && MatchAt(text, tag, i)
  }

  /** `v` is the value of the digits captured at the leftmost match. */
  predicate Captures(text: string, tag: string, v: nat)
  {
    exists i :: 0 <= i < |text| && LeftmostMatch(text, tag, i) && v == DecimalValue(DigitRun(text[i + |tag|..]))
  }

  /** The greedy `[0-9]+` capture: the longest run of digits `s` starts with. */
  function DigitRun(s: string): (run: string)
    ensures AllDigits(run)
  {
    if |s| == 0 || !IsDigit(s[0]) then ""
    else [s[0]] + DigitRun(s[1..])
  }

  /** The capture is a prefix of `s` and cannot be extended by a digit. */
  lemma {:induction false} DigitRunMaximal(s: string)
    ensures DigitRun(s) <= s
    ensures |DigitRun(s)| == |s| || !IsDigit(s[|DigitRun(s)|])
    decreases |s|
  {
    if |s| > 0 && IsDigit(s[0]) {
      DigitRunMaximal(s[1..]);
    }
  }

  /** Scan for the leftmost match at or after `from`. */
  function FindMatch(text: string, tag: string, from: nat): (r: Option<nat>)
    requires from <= |text|
    ensures r.Some? ==> from <= r.value && MatchAt(text, tag, r.value)
    decreases |text| - from
  {
    if from == |text| then None
    else if MatchAt(text, tag, from) then Some(from)
    else FindMatch(text, tag, from + 1)
  }

  /** The scan finds nothing exactly when nothing at or after `from`
      matches, and what it finds is the first match from there on. */
  lemma {:induction false} FindMatchMeaning(text: string, tag: string, from: nat)
    requires from <= |text|
    ensures FindMatch(text, tag, from).Some? ==>
      forall j :: from <= j < FindMatch(text, tag, from).value ==> !MatchAt(text, tag, j)
    ensures FindMatch(text, tag, from).None? <==> forall j :: from <= j ==> !MatchAt(text, tag, j)
    decreases |text| - from
  {
    if from < |text| && !MatchAt(text, tag, from) {
      FindMatchMeaning(text, tag, from + 1);
    }
  }

  /** `parseResult(data, re, name)`: the value of the digits captured at
      the leftmost match, or the error naming the field. */
  function ParseField(text: string, tag: string, name: string): (r: Result<nat, string>)
    ensures r.Err? ==> r.error == "Failed to get " + name
  {
    match FindMatch(text, tag, 0)
    case None => Err("Failed to get " + name)
    case Some(i) => Ok(DecimalValue(DigitRun(text[i + |tag|..])))
  }

  /** `parseResult` succeeds exactly when the pattern matches, and then
      returns the value of the greedy digit capture at the leftmost match. */
  lemma ParseFieldMeaning(text: string, tag: string, name: string)
    ensures ParseField(text, tag, name).Ok? <==> HasMatch(text, tag)
    ensures ParseField(text, tag, name).Ok? ==> Captures(text, tag, ParseField(text, tag, name).value)
  {
    FindMatchMeaning(text, tag, 0);
    match FindMatch(text, tag, 0)
    case None =>
    case Some(i) => assert LeftmostMatch(text, tag, i);
  }

  /** A field written as its label and a rendered number is read back as
      that number, provided nothing before it already matches and the
      rendering is not followed by a further digit. */
  lemma FieldRoundTrip(before: string, tag: string, n: nat, after: string, name: string)
    requires forall j :: 0 <= j < |before| ==> !MatchAt(before + tag + NatToDecimal(n) + after, tag, j)
    requires |after| == 0 || !IsDigit(after[0])
    ensures ParseField(before + tag + NatToDecimal(n) + after, tag, name) == Ok(n)
  {
    var digits := NatToDecimal(n);
    var rest := digits + after;
    var text := before + tag + digits + after;
    assert text == before + tag + rest;
    MatchAtJunction(before, tag, rest);
    FindMatchStopsAt(text, tag, 0, |before|);
    DigitRunOfRendering(digits, after);
    DecimalOfRendering(n);
  }

  /** Text that continues a label with a digit matches right at the label. */
  lemma MatchAtJunction(before: string, tag: string, rest: string)
    requires |rest| > 0 && IsDigit(rest[0])
    ensures MatchAt(before + tag + rest, tag, |before|)
    ensures (before + tag + rest)[|before| + |tag|..] == rest
  {
    var text := before + tag + rest;
    assert text[|before|..|before| + |tag|] == tag;
    assert text[|before| + |tag|] == rest[0];
  }

  /** The scan stops at the first match it reaches. */
  lemma {:induction false} FindMatchStopsAt(text: string, tag: string, from: nat, i: nat)
    requires from <= i && MatchAt(text, tag, i)
    requires forall j :: from <= j < i ==> !MatchAt(text, tag, j)
    ensures FindMatch(text, tag, from) == Some(i)
    decreases i - from
  {
    if from < i {
      FindMatchStopsAt(text, tag, from + 1, i);
    }
  }

  /** The capture after a digit string not followed by a digit is that string. */
  lemma {:induction false} DigitRunOfRendering(digits: string, after: string)
    requires AllDigits(digits)
    requires |after| == 0 || !IsDigit(after[0])
    ensures DigitRun(digits + after) == digits
    decreases |digits|
  {
    if |digits| > 0 {
      assert (digits + after)[1..] == digits[1..] + after;
      DigitRunOfRendering(digits[1..], after);
      assert digits == [digits[0]] + digits[1..];
    } else {
      assert digits + after == after;
    }
  }
}
