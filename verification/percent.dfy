/** The percent-token scanner both model-answer normalizers use:
    `text.match(/(\d{1,3})%/g)` followed by `parseInt` of each match. */
module Percent {
  import opened Decimal

  /** The pattern `\d{1,3}%` matches at `i`. Because `\d{1,3}` is greedy and
      may only give digits back, a match at `i` exists exactly when the maximal
      digit run starting at `i` has one to three digits and is followed by
      `%`; a longer run cannot match at `i` at all. */
  predicate MatchAt(s: string, i: nat)
    requires i <= |s|
  {
    var k := DigitRun(s, i);
    1 <= k <= 3 && i + k < |s| && s[i + k] == '%'
  }

  /** `parseInt` of the match at `i`: the value of its digits. */
  function TokenValue(s: string, i: nat): (v: nat)
    requires i <= |s| && MatchAt(s, i)
    ensures v <= 999
  {
    var k := DigitRun(s, i);
    DigitRunMaximal(s, i);
    DigitsValueBound(s[i..i + k]);
    DigitsValue(s[i..i + k])
  }

  /** The matches of a global scan started at `i`: after a match the scan
      resumes just past its `%`, otherwise one character further on. */
  function ScanFrom(s: string, i: nat): (r: seq<nat>)
    requires i <= |s|
    ensures forall j :: 0 <= j < |r| ==> r[j] <= 999
    ensures |r| <= |s| - i
    decreases |s| - i
  {
    if i == |s| then []
    else if MatchAt(s, i) then [TokenValue(s, i)] + ScanFrom(s, i + DigitRun(s, i) + 1)
    else ScanFrom(s, i + 1)
  }

  /** Every percent token of `text`, in order of appearance. */
  function Percents(text: string): seq<nat> {
    ScanFrom(text, 0)
  }

  /** The scan from `i` finds nothing exactly when the pattern matches at no
      position from `i` on. */
  lemma {:induction false} ScanFromEmptyIff(s: string, i: nat)
    requires i <= |s|
    ensures ScanFrom(s, i) == [] <==> forall j :: i <= j < |s| ==> !MatchAt(s, j)
    decreases |s| - i
  {
    if i < |s| && !MatchAt(s, i) {
      ScanFromEmptyIff(s, i + 1);
    }
  }

  /** A text has no percent token exactly when no position starts one. */
  lemma PercentsEmptyIff(text: string)
    ensures Percents(text) == [] <==> forall j :: 0 <= j < |text| ==> !MatchAt(text, j)
  {
    ScanFromEmptyIff(text, 0);
  }

  /** Text without a `%` sign has no percent token. */
  lemma NoPercentSign(text: string)
    requires '%' !in text
    ensures Percents(text) == []
  {
    PercentsEmptyIff(text);
    forall j | 0 <= j < |text|
      ensures !MatchAt(text, j)
    {
      var k := DigitRun(text, j);
      if j + k < |text| {
        assert text[j + k] in text;
      }
    }
  }

  /** One step of the scan from `i`. */
  lemma ScanStep(s: string, i: nat)
    requires i < |s|
    ensures MatchAt(s, i) ==> ScanFrom(s, i) == [TokenValue(s, i)] + ScanFrom(s, i + DigitRun(s, i) + 1)
    ensures !MatchAt(s, i) ==> ScanFrom(s, i) == ScanFrom(s, i + 1)
  {
  }

  lemma AppendStep(r: seq<nat>, v: nat, rest: seq<nat>)
    ensures r + ([v] + rest) == (r + [v]) + rest
  {
  }

  /** The length of the digit run at `i`, counted by a loop. */
  method CountDigits(s: string, i: nat) returns (k: nat)
    requires i <= |s|
    ensures k == DigitRun(s, i)
  {
    k := 0;
    while i + k < |s| && IsDigit(s[i + k])
      invariant i + k <= |s|
      invariant DigitRun(s, i) == k + DigitRun(s, i + k)
      decreases |s| - k
    {
      k := k + 1;
    }
  }

  /** The scan as the regular-expression engine runs it: a loop over
      `lastIndex`. */
  method ScanPercents(s: string) returns (r: seq<nat>)
    ensures r == Percents(s)
  {
    r := [];
    var i := 0;
    while i < |s|
      invariant i <= |s|
      invariant r + ScanFrom(s, i) == Percents(s)
      decreases |s| - i
    {
      var k := CountDigits(s, i);
      var matched := 1 <= k <= 3 && i + k < |s| && s[i + k] == '%';
      assert matched == MatchAt(s, i);
      ScanStep(s, i);
      if matched {
        var v := TokenValue(s, i);
        AppendStep(r, v, ScanFrom(s, i + k + 1));
        r, i := r + [v], i + k + 1;
      } else {
        i := i + 1;
      }
    }
  }

  /** A run of five digits yields only its last three: the scan fails at the
      first two digits and matches from the third. */
  lemma LongRunYieldsTail()
    ensures Percents("12345%") == [345]
  {
    var s := "12345%";
    assert DigitRun(s, 5) == 0;
    assert DigitRun(s, 4) == 1;
    assert DigitRun(s, 3) == 2;
    assert DigitRun(s, 2) == 3;
    assert DigitRun(s, 1) == 4;
    assert DigitRun(s, 0) == 5;
    assert s[2..5] == "345";
    assert DigitsValue("345") == 345 by {
      assert "345"[..2] == "34";
      assert "34"[..1] == "3";
      assert "3"[..0] == "";
    }
    assert ScanFrom(s, 6) == [];
  }
}
