/**
 * The two java.lang.String queries the search relies on: `contains` (a line
 * holds the search term) and `endsWith` (a file name has the ".txt" suffix).
 * Strings are sequences of characters; no case folding takes place.
 */
module Text {

  /** `term` occurs in `text` starting at position `i`. */
  predicate OccursAt(text: string, term: string, i: nat)
  {
    i + |term| <= |text| && text[i..i + |term|] == term
  }

  /**
   * String.contains: tries every start position from the left.
   * The empty term is contained in every string, the empty one included.
   */
  function Contains(text: string, term: string): bool
    decreases |text|
  {
    if |term| > |text| then false
    else if text[..|term|] == term then true
    else Contains(text[1..], term)
  }

  /** Contains answers exactly the question "does term occur somewhere in text". */
  lemma {:induction false} ContainsIffOccurs(text: string, term: string)
    ensures Contains(text, term) <==> exists i: nat :: OccursAt(text, term, i)
    decreases |text|
  {
    if |term| > |text| {
    } else if text[..|term|] == term {
      assert OccursAt(text, term, 0);
    } else {
      var rest := text[1..];
      ContainsIffOccurs(rest, term);
      if Contains(rest, term) {
        var j: nat :| OccursAt(rest, term, j);
        assert text[j + 1..j + 1 + |term|] == rest[j..j + |term|];
        assert OccursAt(text, term, j + 1);
      } else {
        forall i: nat | OccursAt(text, term, i)
          ensures false
        {
          assert i != 0;
          assert rest[i - 1..i - 1 + |term|] == text[i..i + |term|];
          assert OccursAt(rest, term, i - 1);
        }
      }
    }
  }

  /** The empty term occurs in every line, even an empty one. */
  lemma EmptyTermAlwaysContained(text: string)
    ensures Contains(text, "")
  {
  }

  /** String.endsWith. */
  predicate EndsWith(s: string, suffix: string)
  {
    |suffix| <= |s| && s[|s| - |suffix|..] == suffix
  }

  /** endsWith holds exactly when the string is some prefix followed by the suffix. */
  lemma EndsWithIffSplit(s: string, suffix: string)
    ensures EndsWith(s, suffix) <==> exists p: string :: p + suffix == s
  {
    if EndsWith(s, suffix) {
      var p := s[..|s| - |suffix|];
      assert p + suffix == s;
    }
    forall p: string | p + suffix == s
      ensures EndsWith(s, suffix)
    {
      assert s[|p|..] == suffix;
    }
  }
}
