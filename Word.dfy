/**
 * The Word component (components/Word.tsx): one displayed token of an English
 * line, which looks itself up in the dictionary on a triple click.
 */
module Word {
  import opened Wrappers
  import opened JsString

  /** `\w` of a regular expression without the `u` flag: ASCII letters, digits and `_`. */
  predicate IsWordChar(c: char) {
    'a' <= c <= 'z' || 'A' <= c <= 'Z' || '0' <= c <= '9' || c == '_'
  }

  /** `[^\w]`: every other character. */
  predicate IsNonWordChar(c: char) {
    !IsWordChar(c)
  }

  /**
   * The lookup key of a token, `text.replace(/^[^\w]+|[^\w]+$/g, '')`: the
   * first alternative removes the maximal leading run of non-word characters,
   * the second the maximal trailing run of what is left.
   */
  function CleanWord(text: string): (key: string)
    ensures |key| <= |text|
    ensures key != [] ==> IsWordChar(key[0]) && IsWordChar(key[|key| - 1])
    ensures key == [] <==> forall k :: 0 <= k < |text| ==> !IsWordChar(text[k])
  {
    Strip(text, IsNonWordChar)
  }

  /**
   * The key is a contiguous slice of the token, so its inner characters are
   * kept as they are, and only non-word characters lie outside it.
   */
  lemma CleanWordIsSlice(text: string)
    ensures var i := LeadingRun(text, IsNonWordChar);
      var key := CleanWord(text);
      i + |key| <= |text| && key == text[i..i + |key|]
      && (forall k :: 0 <= k < i ==> !IsWordChar(text[k]))
      && (forall k :: i + |key| <= k < |text| ==> !IsWordChar(text[k]))
  {
    StripIsCore(text, IsNonWordChar);
  }

  /**
   * Reference characterisation: if text[i..j] starts and ends with a word
   * character (or is empty) and only non-word characters surround it, then it
   * is the lookup key.
   */
  lemma CleanWordIsUnique(text: string, i: int, j: int)
    requires 0 <= i <= j <= |text|
    requires forall k :: 0 <= k < i ==> !IsWordChar(text[k])
    requires forall k :: j <= k < |text| ==> !IsWordChar(text[k])
    requires i < j ==> IsWordChar(text[i]) && IsWordChar(text[j - 1])
    ensures CleanWord(text) == text[i..j]
  {
    assert IsCore(text, IsNonWordChar, i, j);
    CoreIsStrip(text, IsNonWordChar, i, j);
  }

  /** Cleaning a key again leaves it unchanged. */
  lemma CleanWordIdempotent(text: string)
    ensures CleanWord(CleanWord(text)) == CleanWord(text)
  {
    StripIdempotent(text, IsNonWordChar);
  }

  /** Trailing punctuation is dropped from the key. */
  lemma TrailingCommaExample()
    ensures CleanWord("hello,") == "hello"
  {
    CleanWordIsUnique("hello,", 0, 5);
  }

  /** Punctuation on both sides is dropped, whatever the character (here an em dash). */
  lemma SurroundingDashesExample()
    ensures CleanWord("\U{2014}word\U{2014}") == "word"
  {
    CleanWordIsUnique("\U{2014}word\U{2014}", 1, 5);
  }

  /** Punctuation inside the token is kept. */
  lemma InnerApostropheExample()
    ensures CleanWord("it's") == "it's"
  {
    CleanWordIsUnique("it's", 0, 4);
  }

  /** A token made only of punctuation has an empty key, so it is never looked up. */
  lemma PunctuationOnlyExample(detail: int)
    ensures CleanWord("\U{2014}") == ""
    ensures Click(RenderWord("\U{2014}"), detail) == None
  {
    CleanWordIsUnique("\U{2014}", 1, 1);
  }

  /** What the component renders: whitespace-only text as a plain span, anything else with a click handler. */
  datatype Span = PlainSpan(text: string) | ClickableSpan(text: string)

  /** The render choice of Word: `!text.trim()` selects the plain span; either shows the token. */
  function RenderWord(text: string): (span: Span)
    ensures span.text == text
  {
    if Trim(text) == [] then PlainSpan(text) else ClickableSpan(text)
  }

  /** The plain, handler-less span is rendered exactly for empty or all-whitespace tokens. */
  lemma RenderWordPlainIff(text: string)
    ensures RenderWord(text).PlainSpan? <==> forall k :: 0 <= k < |text| ==> IsJsWhitespace(text[k])
  {
  }

  /**
   * handleClick: the key handed to onTripleClick for a click with this
   * `detail`, if any; a triple click calls back exactly when the token holds
   * a word character.
   */
  function HandleClick(text: string, detail: int): (lookup: Option<string>)
    ensures lookup.Some? <==> detail == 3 && exists k :: 0 <= k < |text| && IsWordChar(text[k])
    ensures lookup.Some? ==> lookup.value == CleanWord(text)
  {
    var key := CleanWord(text);
    if detail == 3 && |key| > 0 then Some(key) else None
  }

  /** A click on a rendered span; a plain span has no handler. */
  function Click(span: Span, detail: int): (lookup: Option<string>)
    ensures lookup.Some? ==> span.ClickableSpan? && detail == 3 && lookup.value == CleanWord(span.text)
  {
    match span
    case PlainSpan(_) => None
    case ClickableSpan(text) => HandleClick(text, detail)
  }

  /**
   * Clicking a rendered token calls back exactly when the click count is 3 and
   * the key is non-empty, and then with the key; the whitespace check before
   * it never hides a non-empty key.
   */
  lemma TripleClickFiresIff(text: string, detail: int)
    ensures var lookup := Click(RenderWord(text), detail);
      (lookup.Some? <==> detail == 3 && CleanWord(text) != [])
      && (lookup.Some? ==> lookup.value == CleanWord(text))
  {
    RenderWordPlainIff(text);
    if RenderWord(text).PlainSpan? {
      forall k | 0 <= k < |text| ensures !IsWordChar(text[k]) {
        assert IsJsWhitespace(text[k]);
      }
    }
  }

  /** Whitespace-only tokens get no handler, so no click count ever looks them up. */
  lemma WhitespaceTokenNeverFires(text: string, detail: int)
    requires forall k :: 0 <= k < |text| ==> IsJsWhitespace(text[k])
    ensures RenderWord(text) == PlainSpan(text)
    ensures Click(RenderWord(text), detail) == None
  {
    RenderWordPlainIff(text);
  }
}
