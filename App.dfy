/**
 * The App component (App.tsx): the API key setup, the translation request,
 * the dictionary lookup started by a triple click, and the rendering of the
 * English lines as clickable words.
 */
module App {
  import opened Wrappers
  import opened Types
  import opened JsString
  import Word

  /** The message shown when a translation fails. */
  const TranslateFailureMessage: string := "Failed to translate. Check your API key or connection."

  /** The two screens: the key setup form, or the translator itself. */
  datatype View = SetupView | MainView

  /**
   * One piece of a rendered English line: a Word element with its token, or
   * the space after it. A Word element shows its token (Word.RenderWord).
   */
  datatype Fragment = WordFragment(token: string) | Separator

  /**
   * `words.map((word, index) => ...)` from `index` on: each word becomes a
   * Word component, followed by a space unless it is the last one.
   */
  function RenderFrom(words: seq<string>, index: nat): (fragments: seq<Fragment>)
    ensures index < |words| ==> |fragments| == 2 * (|words| - index) - 1
    ensures index >= |words| ==> fragments == []
    decreases |words| - index
  {
    if index >= |words| then []
    else
      [WordFragment(words[index])]
      + (if index < |words| - 1 then [Separator] else [])
      + RenderFrom(words, index + 1)
  }

  /** renderInteractiveEnglish: the line split on single spaces, rendered word by word. */
  function RenderInteractiveEnglish(text: string): (fragments: seq<Fragment>)
    ensures |fragments| == 2 * |SplitOnSpace(text)| - 1
  {
    RenderFrom(SplitOnSpace(text), 0)
  }

  /** The text a sequence of fragments shows on screen. */
  function DisplayedText(fragments: seq<Fragment>): string {
    if fragments == [] then []
    else
      (match fragments[0]
       case WordFragment(token) => token
       case Separator => " ")
      + DisplayedText(fragments[1..])
  }

  /** The number of separators among the fragments. */
  function SeparatorCount(fragments: seq<Fragment>): nat {
    if fragments == [] then 0
    else (if fragments[0].Separator? then 1 else 0) + SeparatorCount(fragments[1..])
  }

  /** The texts of the Word components among the fragments, in order. */
  function WordTexts(fragments: seq<Fragment>): seq<string> {
    if fragments == [] then []
    else (if fragments[0].WordFragment? then [fragments[0].token] else []) + WordTexts(fragments[1..])
  }

  lemma {:induction false} FragmentsAppend(a: seq<Fragment>, b: seq<Fragment>)
    ensures DisplayedText(a + b) == DisplayedText(a) + DisplayedText(b)
    ensures SeparatorCount(a + b) == SeparatorCount(a) + SeparatorCount(b)
    ensures WordTexts(a + b) == WordTexts(a) + WordTexts(b)
  {
    if a != [] {
      assert (a + b)[1..] == a[1..] + b;
      FragmentsAppend(a[1..], b);
    } else {
      assert a + b == b;
    }
  }

  /** What a single fragment shows and counts. */
  lemma SingleFragment(f: Fragment)
    ensures DisplayedText([f]) == if f.Separator? then " " else f.token
    ensures SeparatorCount([f]) == if f.Separator? then 1 else 0
    ensures WordTexts([f]) == if f.Separator? then [] else [f.token]
  {
    assert [f][1..] == [];
  }

  /** What a word followed by a separator and further fragments shows and counts. */
  lemma WordThenSeparator(word: Fragment, rest: seq<Fragment>)
    requires word.WordFragment?
    ensures DisplayedText([word] + ([Separator] + rest)) == word.token + " " + DisplayedText(rest)
    ensures SeparatorCount([word] + ([Separator] + rest)) == 1 + SeparatorCount(rest)
    ensures WordTexts([word] + ([Separator] + rest)) == [word.token] + WordTexts(rest)
  {
    SingleFragment(word);
    SingleFragment(Separator);
    FragmentsAppend([Separator], rest);
    FragmentsAppend([word], [Separator] + rest);
  }

  /** The last word renders as itself, with no separator. */
  lemma RenderLastWord(words: seq<string>)
    requires |words| > 0
    ensures DisplayedText(RenderFrom(words, |words| - 1)) == JoinWithSpace(words[|words| - 1..])
    ensures SeparatorCount(RenderFrom(words, |words| - 1)) == 0
    ensures WordTexts(RenderFrom(words, |words| - 1)) == words[|words| - 1..]
  {
    var n := |words| - 1;
    var word := WordFragment(words[n]);
    assert RenderFrom(words, n) == [word] by {
      assert RenderFrom(words, n + 1) == [];
      assert RenderFrom(words, n) == [word] + [] + RenderFrom(words, n + 1);
    }
    assert words[n..] == [words[n]];
    SingleFragment(word);
  }

  /** A word before further words renders as itself, a separator, then the rest. */
  lemma RenderFromStep(words: seq<string>, index: nat)
    requires index < |words| - 1
    requires DisplayedText(RenderFrom(words, index + 1)) == JoinWithSpace(words[index + 1..])
    requires SeparatorCount(RenderFrom(words, index + 1)) == |words| - index - 2
    requires WordTexts(RenderFrom(words, index + 1)) == words[index + 1..]
    ensures DisplayedText(RenderFrom(words, index)) == JoinWithSpace(words[index..])
    ensures SeparatorCount(RenderFrom(words, index)) == |words| - index - 1
    ensures WordTexts(RenderFrom(words, index)) == words[index..]
  {
    var word := WordFragment(words[index]);
    var rest := RenderFrom(words, index + 1);
    var tail := words[index..];
    assert RenderFrom(words, index) == [word] + ([Separator] + rest);
    WordThenSeparator(word, rest);
    assert tail[1..] == words[index + 1..];
    assert DisplayedText(RenderFrom(words, index)) == JoinWithSpace(tail) by {
      JoinWithSpaceCons(tail);
    }
    assert tail == [words[index]] + words[index + 1..];
  }

  /**
   * Rendering words from `index` on shows them joined with single spaces,
   * with one separator between consecutive words and the words in order.
   */
  lemma {:induction false} RenderFromShows(words: seq<string>, index: nat)
    requires index < |words|
    ensures DisplayedText(RenderFrom(words, index)) == JoinWithSpace(words[index..])
    ensures SeparatorCount(RenderFrom(words, index)) == |words| - index - 1
    ensures WordTexts(RenderFrom(words, index)) == words[index..]
    decreases |words| - index
  {
    if index == |words| - 1 {
      RenderLastWord(words);
    } else {
      RenderFromShows(words, index + 1);
      RenderFromStep(words, index);
    }
  }

  /**
   * A rendered English line shows exactly the original line; it holds one
   * Word per piece of `split(' ')`, in order, and one separator fewer.
   */
  lemma RenderShowsLine(text: string)
    ensures DisplayedText(RenderInteractiveEnglish(text)) == text
    ensures WordTexts(RenderInteractiveEnglish(text)) == SplitOnSpace(text)
    ensures SeparatorCount(RenderInteractiveEnglish(text)) == |SplitOnSpace(text)| - 1
  {
    RenderFromShows(SplitOnSpace(text), 0);
    JoinSplit(text);
  }

  /** The React state of App, field by field, with `storage` for the localStorage entry. */
  datatype AppState = AppState(
    storage: Option<string>,
    apiKey: string,
    tempKey: string,
    isKeySaved: bool,
    inputText: string,
    segments: seq<TranslationSegment>,
    translationStatus: LoadingState,
    isSidebarOpen: bool,
    isDictLoading: bool,
    dictEntry: Option<DictionaryEntry>)

  class App {
    /** localStorage under the key "gemini_api_key". */
    var storage: Option<string>
    var apiKey: string
    var tempKey: string
    var isKeySaved: bool
    var inputText: string
    var segments: seq<TranslationSegment>
    var translationStatus: LoadingState
    var isSidebarOpen: bool
    var isDictLoading: bool
    var dictEntry: Option<DictionaryEntry>

    ghost function State(): AppState
      reads this
    {
      AppState(storage, apiKey, tempKey, isKeySaved, inputText, segments,
               translationStatus, isSidebarOpen, isDictLoading, dictEntry)
    }

    /**
     * A key is saved exactly when there is one, and then it is the stored
     * one; only a failed translation carries a message, the fixed one.
     */
    ghost predicate Valid()
      reads this
    {
      (isKeySaved <==> apiKey != "")
      && (isKeySaved ==> storage == Some(apiKey))
      && translationStatus.message == (if translationStatus.status == Error then Some(TranslateFailureMessage) else None)
    }

    /** Which screen App renders: the setup form until a key is saved. */
    function CurrentView(): (view: View)
      reads this
      ensures Valid() ==> (view == MainView <==> apiKey != "")
    {
      if !isKeySaved then SetupView else MainView
    }

    /** The initial values of every `useState`, with whatever localStorage holds. */
    constructor (stored: Option<string>)
      ensures Valid()
      ensures State() == AppState(stored, "", "", false, "", [], LoadingState(Idle, None), false, false, None)
      ensures CurrentView() == SetupView
    {
      storage := stored;
      apiKey := "";
      tempKey := "";
      isKeySaved := false;
      inputText := "";
      segments := [];
      translationStatus := LoadingState(Idle, None);
      isSidebarOpen := false;
      isDictLoading := false;
      dictEntry := None;
    }

    /** The mount effect: a non-empty stored key is taken as the API key. */
    method Mount()
      requires Valid()
      modifies this
      ensures Valid()
      ensures State() ==
        if storage.Some? && storage.value != "" then old(State()).(apiKey := storage.value, isKeySaved := true)
        else old(State())
      ensures old(!isKeySaved) ==> (CurrentView() == MainView <==> storage.Some? && storage.value != "")
    {
      if storage.Some? && storage.value != "" {
        apiKey := storage.value;
        isKeySaved := true;
      }
    }

    /** Typing into the key field. */
    method EditTempKey(value: string)
      requires Valid()
      modifies this
      ensures Valid()
      ensures State() == old(State()).(tempKey := value)
    {
      tempKey := value;
    }

    /**
     * handleSaveKey: a key that is not blank is trimmed, stored, made the API
     * key, and the field is emptied; a blank one changes nothing.
     */
    method SaveKey()
      requires Valid()
      modifies this
      ensures Valid()
      ensures var key := Trim(old(tempKey));
        State() ==
          if key != "" then old(State()).(storage := Some(key), apiKey := key, isKeySaved := true, tempKey := "")
          else old(State())
      ensures CurrentView() == MainView <==> old(isKeySaved) || Trim(old(tempKey)) != ""
    {
      var key := Trim(tempKey);
      if key != "" {
        storage := Some(key);
        apiKey := key;
        isKeySaved := true;
        tempKey := "";
      }
    }

    /**
     * handleClearKey: the stored key is removed and the app returns to the
     * setup view with no key, no segments and no input; the sidebar, the
     * dictionary entry and the translation status are kept.
     */
    method ClearKey()
      requires Valid()
      modifies this
      ensures Valid()
      ensures State() == old(State()).(storage := None, apiKey := "", isKeySaved := false, segments := [], inputText := "")
      ensures CurrentView() == SetupView
    {
      storage := None;
      apiKey := "";
      isKeySaved := false;
      segments := [];
      inputText := "";
    }

    /** Typing into the text area. */
    method EditInputText(value: string)
      requires Valid()
      modifies this
      ensures Valid()
      ensures State() == old(State()).(inputText := value)
    {
      inputText := value;
    }

    /** The eraser button of the text area. */
    method ClearInputText()
      requires Valid()
      modifies this
      ensures Valid()
      ensures State() == old(State()).(inputText := "")
    {
      inputText := "";
    }

    /**
     * The synchronous part of handleTranslate: blank input or no key returns
     * early with nothing changed; otherwise the status becomes loading and
     * the request for inputText starts.
     */
    method RequestTranslate() returns (started: bool)
      requires Valid()
      modifies this
      ensures Valid()
      ensures started <==> Trim(old(inputText)) != "" && old(apiKey) != ""
      ensures started ==> old(CurrentView()) == MainView
      ensures State() ==
        if started then old(State()).(translationStatus := LoadingState(Loading, None)) else old(State())
    {
      if Trim(inputText) == "" || apiKey == "" {
        return false;
      }
      translationStatus := LoadingState(Loading, None);
      started := true;
    }

    /**
     * The rest of handleTranslate, once the service has answered: the
     * segments are replaced and the status is success, or the status is the
     * fixed error and the earlier segments stay.
     */
    method CompleteTranslate(result: Result<seq<TranslationSegment>, RequestFailure>)
      requires Valid()
      modifies this
      ensures Valid()
      ensures State() ==
        match result
        case Ok(translated) => old(State()).(segments := translated, translationStatus := LoadingState(Success, None))
        case Err(_) => old(State()).(translationStatus := LoadingState(Error, Some(TranslateFailureMessage)))
    {
      match result
      case Ok(translated) =>
        segments := translated;
        translationStatus := LoadingState(Success, None);
      case Err(_) =>
        translationStatus := LoadingState(Error, Some(TranslateFailureMessage));
    }

    /**
     * The synchronous part of handleTripleClick: without a key nothing
     * changes; otherwise the sidebar opens, shows loading, the old entry is
     * dropped and the lookup of `word` starts.
     */
    method RequestLookup(word: string) returns (started: bool)
      requires Valid()
      modifies this
      ensures Valid()
      ensures started <==> old(apiKey) != ""
      ensures started ==> old(CurrentView()) == MainView
      ensures State() ==
        if started then old(State()).(isSidebarOpen := true, isDictLoading := true, dictEntry := None)
        else old(State())
    {
      if apiKey == "" {
        return false;
      }
      isSidebarOpen := true;
      isDictLoading := true;
      dictEntry := None;
      started := true;
    }

    /**
     * The rest of handleTripleClick, once the service has answered: the entry
     * is shown on success, a failure is only logged, and loading ends either way.
     */
    method CompleteLookup(result: Result<DictionaryEntry, RequestFailure>)
      requires Valid()
      modifies this
      ensures Valid()
      ensures State() ==
        match result
        case Ok(entry) => old(State()).(dictEntry := Some(entry), isDictLoading := false)
        case Err(_) => old(State()).(isDictLoading := false)
    {
      if result.Ok? {
        dictEntry := Some(result.value);
      }
      isDictLoading := false;
    }

    /** closeSidebar. */
    method CloseSidebar()
      requires Valid()
      modifies this
      ensures Valid()
      ensures State() == old(State()).(isSidebarOpen := false)
    {
      isSidebarOpen := false;
    }

    /**
     * A click with count `detail` on a word of a rendered line: the Word
     * component decides whether to call back, and the callback is
     * handleTripleClick. The result is the word whose lookup started.
     */
    method ClickWord(token: string, detail: int) returns (lookedUp: Option<string>)
      requires Valid()
      modifies this
      ensures Valid()
      ensures lookedUp.Some? <==> detail == 3 && Word.CleanWord(token) != "" && old(apiKey) != ""
      ensures lookedUp.Some? ==> lookedUp.value == Word.CleanWord(token)
      ensures lookedUp.Some? ==> old(CurrentView()) == MainView
      ensures State() ==
        if lookedUp.Some? then old(State()).(isSidebarOpen := true, isDictLoading := true, dictEntry := None)
        else old(State())
    {
      Word.TripleClickFiresIff(token, detail);
      lookedUp := None;
      var key := Word.Click(Word.RenderWord(token), detail);
      if key.Some? {
        var started := RequestLookup(key.value);
        if started {
          lookedUp := key;
        }
      }
    }
  }

  /** With nothing stored, the setup view stays after mounting and after saving a blank key. */
  method BlankKeyScenario()
  {
    var app := new App(None);
    app.Mount();
    assert app.CurrentView() == SetupView;
    app.EditTempKey("  ");
    assert Trim("  ") == "" by {
      assert IsJsWhitespace("  "[0]) && IsJsWhitespace("  "[1]);
    }
    app.SaveKey();
    assert app.CurrentView() == SetupView && app.storage == None;
  }

  /** Saving "abc123" stores it and opens the translator; clearing it returns to the setup view. */
  method SaveAndClearScenario()
  {
    var app := new App(None);
    app.EditTempKey("abc123");
    assert Trim("abc123") == "abc123" by {
      CoreIsStrip("abc123", IsJsWhitespace, 0, 6);
    }
    app.SaveKey();
    assert app.CurrentView() == MainView && app.storage == Some("abc123") && app.tempKey == "";
    app.ClearKey();
    assert app.CurrentView() == SetupView && app.storage == None;
  }
}
