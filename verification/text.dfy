/**
  Case-insensitive comparison as the backend uses it: `s.lowercase() == "true"`
  and `s.lowercase() != "false"`. Kotlin's `lowercase()` maps the full Unicode
  range, but the only characters whose lower-case form is one of the letters
  of "true" or "false" are those letters in upper and lower case, so lowering
  ASCII letters alone decides both comparisons exactly.
*/
module Text {

  function LowerChar(c: char): char {
    if 'A' <= c <= 'Z' then (c as int + 32) as char else c
  }

  function Lower(s: string): (r: string)
    ensures |r| == |s|
    ensures forall i :: 0 <= i < |s| ==> r[i] == LowerChar(s[i])
  {
    if s == [] then [] else [LowerChar(s[0])] + Lower(s[1..])
  }

  /** `s.lowercase() == word` for a lower-case ASCII `word`. */
  predicate EqualsIgnoringCase(s: string, word: string) {
    Lower(s) == word
  }

  /**
    Comparing with a lower-case word ignoring case accepts exactly the
    strings of the same length that match it letter by letter in either case.
  */
  lemma EqualsIgnoringCaseLetterwise(s: string, word: string)
    requires forall i :: 0 <= i < |word| ==> 'a' <= word[i] <= 'z'
    ensures EqualsIgnoringCase(s, word) <==>
              |s| == |word| &&
              forall i :: 0 <= i < |s| ==> s[i] == word[i] || s[i] as int == word[i] as int - 32
  {
    if EqualsIgnoringCase(s, word) {
      forall i | 0 <= i < |s|
        ensures s[i] == word[i] || s[i] as int == word[i] as int - 32
      {
        assert Lower(s)[i] == LowerChar(s[i]);
      }
    }
    if |s| == |word| && forall i :: 0 <= i < |s| ==> s[i] == word[i] || s[i] as int == word[i] as int - 32 {
      assert forall i :: 0 <= i < |s| ==> Lower(s)[i] == word[i];
    }
  }

  lemma LowerExamples()
    ensures Lower("TRUE") == "true" && Lower("FALSE") == "false" && Lower("on") == "on"
  {
    assert Lower("TRUE") == "true" by {
      assert Lower("TRUE")[0] == 't' && Lower("TRUE")[1] == 'r' && Lower("TRUE")[2] == 'u' && Lower("TRUE")[3] == 'e';
    }
    assert Lower("FALSE") == "false" by {
      assert Lower("FALSE")[0] == 'f' && Lower("FALSE")[1] == 'a' && Lower("FALSE")[2] == 'l';
      assert Lower("FALSE")[3] == 's' && Lower("FALSE")[4] == 'e';
    }
    assert Lower("on") == "on" by {
      assert Lower("on")[0] == 'o' && Lower("on")[1] == 'n';
    }
  }
}
