/**
  * File-name sanitising: every character a file system may reject becomes
  * '_', edge whitespace is trimmed, and a blank result is replaced by a
  * fallback name.
  */
module FileNameSanitizer {

  import opened Text

  /** The characters of the class `[\\/:*?"<>|]`. */
  predicate IsInvalidChar(c: char)
  {
    c == '\\' || c == '/' || c == ':' || c == '*' || c == '?' || c == '"' || c == '<' || c == '>' || c == '|'
  }

  /** `replace(invalidChars, "_")`: one '_' per invalid char, every other char kept in place. */
  function ReplaceInvalid(s: string): (r: string)
    ensures |r| == |s|
    ensures forall i :: 0 <= i < |s| ==> r[i] == (if IsInvalidChar(s[i]) then '_' else s[i])
    ensures forall i :: 0 <= i < |r| ==> !IsInvalidChar(r[i])
  {
    seq(|s|, i requires 0 <= i < |s| => if IsInvalidChar(s[i]) then '_' else s[i])
  }

  /** The cleaned title before the blank check. */
  function Cleaned(title: string): string
  {
    Trim(ReplaceInvalid(title))
  }

  function Sanitize(title: string, fallback: string): (r: string)
    ensures IsBlank(Cleaned(title)) ==> r == fallback
    ensures !IsBlank(Cleaned(title)) ==>
      && r != ""
      && (forall i :: 0 <= i < |r| ==> !IsInvalidChar(r[i]))
      && !IsWhitespace(r[0]) && !IsWhitespace(r[|r| - 1])
  {
    var cleaned := Cleaned(title);
    if IsBlank(cleaned) then fallback else cleaned
  }

  /**
    * A non-fallback result is a contiguous slice of the title with each
    * invalid char replaced by '_', everything outside it being whitespace.
    */
  lemma SanitizeKeepsOrder(title: string, fallback: string)
    requires !IsBlank(Cleaned(title))
    ensures
      var r := Sanitize(title, fallback);
      var a := TrimStartIndex(ReplaceInvalid(title));
      && a + |r| <= |title|
      && (forall i :: 0 <= i < |r| ==>
            r[i] == (if IsInvalidChar(title[a + i]) then '_' else title[a + i]))
      && (forall i :: 0 <= i < a ==> IsWhitespace(title[i]))
      && (forall i :: a + |r| <= i < |title| ==> IsWhitespace(title[i]))
  {
    var replaced := ReplaceInvalid(title);
    var r := Sanitize(title, fallback);
    var a := TrimStartIndex(replaced);
    forall i | 0 <= i < a ensures IsWhitespace(title[i]) {
      assert IsWhitespace(replaced[i]);
    }
    forall i | a + |r| <= i < |title| ensures IsWhitespace(title[i]) {
      assert IsWhitespace(replaced[i]);
    }
  }

  /** Sanitising a non-fallback result again gives it back unchanged. */
  lemma SanitizeIdempotent(title: string, fallback: string, fallback2: string)
    requires !IsBlank(Cleaned(title))
    ensures Sanitize(Sanitize(title, fallback), fallback2) == Sanitize(title, fallback)
  {
    var r := Sanitize(title, fallback);
    assert ReplaceInvalid(r) == r;
    TrimOfTrimmed(r);
  }
}
