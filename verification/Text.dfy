/** The string handling the write path relies on: trimming, and the description sanitizer
    (`backend/app/command_registry.py`). */
module Text {
  import opened Common

  /** ASCII whitespace, as `str.strip` sees it. */
  predicate IsSpace(c: char) {
    c == ' ' || ('\t' <= c <= '\r') || (28 as char <= c <= 31 as char)
  }

  function StripLeft(s: string): string {
    if s != "" && IsSpace(s[0]) then StripLeft(s[1..]) else s
  }

  function StripRight(s: string): string {
    if s != "" && IsSpace(s[|s| - 1]) then StripRight(s[..|s| - 1]) else s
  }

  /** `str.strip`. */
  function Strip(s: string): string {
    StripRight(StripLeft(s))
  }

  /** No whitespace at either end. */
  predicate Trimmed(s: string) {
    s == "" || (!IsSpace(s[0]) && !IsSpace(s[|s| - 1]))
  }

  lemma {:induction false} StripLeftEnds(s: string)
    ensures var r := StripLeft(s);
            && (r == "" || !IsSpace(r[0]))
            && (r == s <==> s == "" || !IsSpace(s[0]))
            && |r| <= |s|
  {
    if s != "" && IsSpace(s[0]) {
      StripLeftEnds(s[1..]);
    }
  }

  lemma {:induction false} StripRightEnds(s: string)
    ensures var r := StripRight(s);
            && r <= s && (r == "" || !IsSpace(r[|r| - 1]))
            && (r == s <==> s == "" || !IsSpace(s[|s| - 1]))
  {
    if s != "" && IsSpace(s[|s| - 1]) {
      StripRightEnds(s[..|s| - 1]);
    }
  }

  lemma StripTrims(s: string)
    ensures Trimmed(Strip(s))
    ensures Strip(s) == s <==> Trimmed(s)
  {
    StripLeftEnds(s);
    StripRightEnds(StripLeft(s));
  }

  lemma StripTwice(s: string)
    ensures Strip(Strip(s)) == Strip(s)
  {
    StripTrims(s);
    StripTrims(Strip(s));
  }

  const DESCRIPTION_LIMIT: nat := 64

  predicate DescriptionChar(c: char) {
    ('a' <= c <= 'z') || ('A' <= c <= 'Z') || ('0' <= c <= '9') || c in " -_./"
  }

  datatype TextError = EmptyText | TooLong | BadCharacter

  function Sanitize(value: string): Result<string, TextError> {
    if value == "" then Err(EmptyText)
    else
      var text := Strip(value);
      if |text| > DESCRIPTION_LIMIT then Err(TooLong)
      else if exists i :: 0 <= i < |text| && !DescriptionChar(text[i]) then Err(BadCharacter)
      else Ok(text)
  }

  /** What passes is trimmed, bounded and made of harmless characters, and passes again unchanged; the one
      exception is text of nothing but spaces, which passes as the empty text and is then refused. */
  lemma SanitizedIsStable(value: string)
    requires Sanitize(value).Ok?
    ensures var text := Sanitize(value).value;
            && Trimmed(text) && |text| <= DESCRIPTION_LIMIT
            && (forall i :: 0 <= i < |text| ==> DescriptionChar(text[i]))
            && (Sanitize(text) == Ok(text) <==> text != "")
  {
    StripTrims(value);
    StripTrims(Strip(value));
  }

  /** And exactly this passes: something, of at most 64 harmless characters once it is trimmed. */
  lemma SanitizesExactly(value: string)
    ensures Sanitize(value).Ok? <==>
            value != "" && |Strip(value)| <= 64 && forall c :: c in Strip(value) ==> DescriptionChar(c)
    ensures Sanitize(value).Ok? ==> Sanitize(value).value == Strip(value)
  {
    assert forall c :: c in Strip(value) <==> exists i :: 0 <= i < |Strip(value)| && Strip(value)[i] == c;
  }
}
