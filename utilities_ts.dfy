/** ZIP extraction of src/utilities.ts: `parseZipCode` and `hasValidZipCode`,
    both guarded by `typeof message === 'string'`. */
module UtilitiesTs {
  import opened JsValues
  import opened ZipPattern

  /** `Array.prototype.pop` on the match array: its last element. */
  function Pop(xs: seq<string>): string
    requires xs != []
  {
    xs[|xs| - 1]
  }

  /** `parseZipCode(message)`: the last of the global `/\d{5}/g` matches when
      the message is a string in which the pattern occurs, and '' otherwise. */
  function ParseZipCode(message: Field): (r: string)
    ensures r == "" || IsZip(r)
    ensures r == "" <==> !(message.Given? && ContainsZip(message.text))
    ensures r != "" ==> exists i :: ZipAt(message.text, i) && r == message.text[i..i + 5]
  {
    if message.Given? && Test(message.text) then
      var matches := MatchAll(message.text).value;
      var last := |matches| - 1;
      ZipAtIsZip(message.text, MatchStarts(message.text, 0)[last]);
      Pop(matches)
    else
      ""
  }

  /** `hasValidZipCode(message)`: false for a non-string, otherwise whether
      `parseZipCode` found something. */
  function HasValidZipCode(message: Field): (b: bool)
    ensures b <==> message.Given? && ContainsZip(message.text)
    ensures b <==> ParseZipCode(message) != ""
  {
    if message.Absent? then false
    else |ParseZipCode(message)| > 0
  }

  /** The extracted ZIP is the text of the last match the global scan finds. */
  lemma ParseZipCodeIsLastMatch(s: string)
    ensures var ms := MatchStarts(s, 0);
      && (ms == [] ==> ParseZipCode(Given(s)) == "")
      && (ms != [] ==> ParseZipCode(Given(s)) == s[ms[|ms| - 1]..ms[|ms| - 1] + 5])
  {
  }

  /** The extracted ZIP is the last entry of the greedy left-to-right match
      list of the message, and '' when that list is empty. */
  lemma ParseZipCodeIsLastGreedyMatch(s: string, ms: seq<nat>)
    requires GreedyMatchList(s, 0, ms)
    ensures ms == [] ==> ParseZipCode(Given(s)) == ""
    ensures ms != [] ==> ZipAt(s, ms[|ms| - 1]) && ParseZipCode(Given(s)) == s[ms[|ms| - 1]..ms[|ms| - 1] + 5]
  {
    GreedyMatchListUnique(s, 0, ms);
    ParseZipCodeIsLastMatch(s);
  }

  /** In a message of ten digits the two matches sit back to back and the
      second one wins. */
  lemma TenDigitsGiveTheLastFive(s: string)
    requires |s| == 10 && forall k | 0 <= k < 10 :: IsAsciiDigit(s[k])
    ensures ParseZipCode(Given(s)) == s[5..10]
  {
    assert ZipAt(s, 0) && ZipAt(s, 5);
    assert GreedyMatchList(s, 10, []) by {
      assert ResumeAt(10, [], 0) == 10;
    }
    GreedyMatchListCons(s, 5, 5, []);
    GreedyMatchListCons(s, 0, 0, [5]);
    assert [0] + [5] == [0, 5];
    ParseZipCodeIsLastGreedyMatch(s, [0, 5]);
  }

  /** In a message of six digits the candidate at index 1 overlaps the match
      at 0 and is never reported: the scan resumes at 5, where only one
      character is left. */
  lemma SixDigitsGiveTheFirstFive(s: string)
    requires |s| == 6 && forall k | 0 <= k < 6 :: IsAsciiDigit(s[k])
    ensures ParseZipCode(Given(s)) == s[0..5]
  {
  }

  /** `"1234567890"` gives `"67890"`. */
  lemma TenDigitExample()
    ensures ParseZipCode(Given("1234567890")) == "67890"
  {
    var s := "1234567890";
    assert forall k | 0 <= k < 10 :: IsAsciiDigit(s[k]);
    TenDigitsGiveTheLastFive(s);
    assert s[5..10] == "67890";
  }

  /** `"123456"` gives `"12345"`. */
  lemma SixDigitExample()
    ensures ParseZipCode(Given("123456")) == "12345"
  {
  }

  /** Any run of at least five digits is accepted; the pattern does not ask
      for exactly five. */
  lemma LongerDigitRunIsAccepted(s: string, i: nat, n: nat)
    requires 5 <= n && i + n <= |s|
    requires forall k | i <= k < i + n :: IsAsciiDigit(s[k])
    ensures HasValidZipCode(Given(s))
    ensures IsZip(ParseZipCode(Given(s)))
  {
    assert ZipAt(s, i);
  }

  /** A non-string message yields no ZIP. */
  lemma NonStringHasNoZip()
    ensures ParseZipCode(Absent) == ""
    ensures !HasValidZipCode(Absent)
  {
  }

  /** Extracting again from an extracted ZIP gives it back. */
  lemma ParseZipCodeIdempotent(message: Field)
    ensures var z := ParseZipCode(message); z != "" ==> ParseZipCode(Given(z)) == z
  {
  }
}
