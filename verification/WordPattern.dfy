/** What the patterns of search fields and sort fields share: a run of word characters up to the
    end of the text, where an end of line may follow. */
module WordPattern {

  /** Which characters are word characters is left open, but for the ones the patterns use. */
  predicate WordClass(word: char -> bool) {
    !word(':') && !word('\n') && !word('+') && !word('-')
    && forall c: char :: 'a' <= c <= 'z' || c == '_' ==> word(c)
  }

  predicate AllWord(word: char -> bool, s: string) {
    s != "" && forall i :: 0 <= i < |s| ==> word(s[i])
  }

  /** A `$` also matches before an end of line that ends the text. */
  function Body(s: string): string {
    if s != "" && s[|s| - 1] == '\n' then s[..|s| - 1] else s
  }

  /** The text is a prefix and a run of word characters, with or without an end of line. */
  predicate Reads(word: char -> bool, s: string, prefix: string, field: string) {
    AllWord(word, field) && (s == prefix + field || s == prefix + field + "\n")
  }

  lemma ReadsIffBody(word: char -> bool, s: string, prefix: string, field: string)
    requires WordClass(word)
    ensures Reads(word, s, prefix, field) <==> AllWord(word, field) && Body(s) == prefix + field
  {
    if AllWord(word, field) {
      var t := prefix + field;
      assert t[|t| - 1] == field[|field| - 1];
      assert (t + "\n")[..|t|] == t;
      if s != "" && s[|s| - 1] == '\n' { assert s == s[..|s| - 1] + "\n"; }
    }
  }
}
