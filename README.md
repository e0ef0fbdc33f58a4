# Burmese interlinear translator: a verified model of its client-side logic

The application is a browser front end over a hosted AI service. The user
saves an API key, enters English text and gets it back sentence by sentence
with a Burmese translation under each line. Every English word on screen can
be triple-clicked. That opens a dictionary sidebar, and the sidebar can play
the word's pronunciation as raw 16-bit PCM audio.

This project models the three pieces of that client that hold logic:

- **Word** (`Word.dfy`): the lookup key of a token, which is the token without
  its leading and trailing runs of non-word characters. It also models the
  rule that only a click count of exactly 3 with a non-empty key starts a
  lookup, and that whitespace-only tokens get no click handler.
- **Audio decoding** (`PcmAudio.dfy`, `DictionarySidebar.dfy`): the
  binary-string-to-bytes loop, the little-endian signed 16-bit reading, the
  per-channel de-interleaving and normalisation into a buffer, and the busy
  flag of the pronunciation button.
- **App state** (`App.dfy`): the API key setup (mount-time load, save,
  clear), the translation and dictionary requests with their success and
  failure completions, the choice between the setup view and the main view,
  and the rendering of an English line as words separated by single spaces.

`JsString.dfy` holds the JavaScript built-ins these rely on: `trim()`,
`split(' ')`, and one general "strip a character class from both ends"
function. The `cleanWord` regex and `trim()` are both instances of it.
`Types.dfy` transcribes the records of `types.ts` and names the two ways an
asynchronous step can fail. `Wrappers.dfy` holds `Option` and `Result`.

Asynchronous handlers are split in two. A *request* method runs the
synchronous part up to the `await`. A *complete* method takes the outcome of
the remote call (`Ok` or `Err`) and applies the rest. The remote service is
never modelled: its answer is the parameter of the complete method.
`localStorage` is the field `storage: Option<string>`.

## Model

| member | source | states |
|---|---|---|
| JsString.LeadingRun | components/Word.tsx:11 | the length of the maximal leading run: every character before it is dropped, and the next one is not |
| JsString.TrailingRun | components/Word.tsx:11 | the length of the maximal trailing run: every character after the cut is dropped, and the one before it is not |
| JsString.Strip | components/Word.tsx:11 | the stripped string is no longer than the input; if it is non-empty, it starts and ends with a kept character; it is empty iff every character of the input is dropped |
| JsString.StripIsCore | components/Word.tsx:11 | the result is the contiguous slice that starts after the leading run, with only dropped characters before and after it |
| JsString.CoreIsStrip | components/Word.tsx:11 | any slice surrounded only by dropped characters, and starting and ending with kept ones, equals the result (an independent characterisation) |
| JsString.StripIdempotent | components/Word.tsx:11 | stripping twice gives the same as stripping once |
| JsString.Trim | App.tsx:34 | `trim()` returns a string that neither starts nor ends with JavaScript whitespace; it is empty iff the input is all whitespace |
| JsString.TrimIdempotent | App.tsx:34-36 | trimming the trimmed key changes nothing |
| JsString.SplitOnSpace | App.tsx:86 | `split(' ')` gives one more piece than the text has spaces, and no piece contains a space |
| JsString.JoinSplit | App.tsx:86-90 | joining the pieces of `split(' ')` with single spaces reproduces the line exactly |
| JsString.SplitJoin | App.tsx:86-90 | splitting space-free pieces joined by single spaces gives the same pieces back |
| Word.CleanWord | components/Word.tsx:11 | the key is no longer than the token; if non-empty it starts and ends with an ASCII letter, digit or `_`; it is empty iff the token has no such character |
| Word.CleanWordIsSlice | components/Word.tsx:9-11 | the key is a contiguous slice of the token, so inner characters (such as the apostrophe of "it's") and case are kept; only non-word characters lie outside it |
| Word.CleanWordIsUnique | components/Word.tsx:11 | any slice that starts and ends with word characters and is surrounded only by non-word characters is the key |
| Word.CleanWordIdempotent | components/Word.tsx:11 | cleaning a key again leaves it unchanged |
| Word.TrailingCommaExample | components/Word.tsx:9-11 | "hello," gives the key "hello" |
| Word.SurroundingDashesExample | components/Word.tsx:9-11 | "—word—" gives the key "word" |
| Word.InnerApostropheExample | components/Word.tsx:9-11 | "it's" keeps its apostrophe: the key is "it's" |
| Word.PunctuationOnlyExample | components/Word.tsx:18-20 | a token of punctuation only ("—") has an empty key and no click count looks it up |
| Word.RenderWord | components/Word.tsx:24-37 | whichever span is chosen, it shows the token unchanged |
| Word.RenderWordPlainIff | components/Word.tsx:24-27 | the plain, handler-less span is chosen iff the token is empty or all JavaScript whitespace |
| Word.HandleClick | components/Word.tsx:13-22 | a click calls back iff its count is 3 and the token holds an ASCII letter, digit or `_`, and then with the cleaned key |
| Word.Click | components/Word.tsx:24-37 | a click calls back only on the span with a handler, only for a count of 3, and only with the token's key |
| Word.TripleClickFiresIff | components/Word.tsx:13-22 | a click on a rendered token calls back iff the count is 3 and the key is non-empty, and then with the key; counts 1, 2 and 4 never do |
| Word.WhitespaceTokenNeverFires | components/Word.tsx:24-27 | a whitespace-only token is rendered without a handler, so no click count triggers a lookup |
| PcmAudio.CharCodes | components/DictionarySidebar.tsx:164-168 | one byte per character of the binary string, byte i equal to the code of character i |
| PcmAudio.CharCodesRoundTrip | components/DictionarySidebar.tsx:162-170 | the bytes determine the binary string and the binary string determines the bytes |
| PcmAudio.Decode | components/DictionarySidebar.tsx:162-170 | a fresh array, as long as the binary string, holding its character codes in order |
| PcmAudio.Int16LE | components/DictionarySidebar.tsx:178 | the sample is congruent to `lo + 256*hi` modulo 65536, lies in [-32768, 32767], and is negative iff the top bit of `hi` is set |
| PcmAudio.Int16LERoundTrip | components/DictionarySidebar.tsx:178 | reading a byte pair and writing the sample back are inverse to each other, both ways |
| PcmAudio.Samples | components/DictionarySidebar.tsx:178 | the int16 view of an even number of bytes has byteLength / 2 samples |
| PcmAudio.EncodeSamples | components/DictionarySidebar.tsx:178 | the little-endian encoding of samples has two bytes per sample |
| PcmAudio.SamplesOfEncoding | components/DictionarySidebar.tsx:178 | reading the samples of an encoding gives the samples back |
| PcmAudio.EncodingOfSamples | components/DictionarySidebar.tsx:178 | encoding the samples read from an even byte stream gives the bytes back |
| PcmAudio.Normalize | components/DictionarySidebar.tsx:185 | `sample / 32768` lies in [-1, 32767/32768] and is negative iff the sample is |
| PcmAudio.NormalizeFacts | components/DictionarySidebar.tsx:185 | -32768 maps to exactly -1, 0 to 0 and 32767 to 32767/32768; the map is strictly increasing |
| PcmAudio.FrameIndexInRange | components/DictionarySidebar.tsx:179-185 | for every channel c and frame i < sampleCount / numChannels, the index read, `i*numChannels + c`, is inside the samples |
| PcmAudio.ChannelData | components/DictionarySidebar.tsx:179-186 | a channel has sampleCount / numChannels frames (a trailing partial frame is dropped), each in [-1, 1) |
| PcmAudio.DecodeEncodedSamples | components/DictionarySidebar.tsx:178-186 | decoding the bytes of interleaved samples gives bytes / 2 / numChannels frames, and frame i of channel c is `sample[i*numChannels + c] / 32768` |
| PcmAudio.MonoChannelIsAllSamples | components/DictionarySidebar.tsx:36 | with one channel, as the only caller uses, the frame count equals the sample count and frame i is sample i normalised |
| PcmAudio.AudioBuffer.constructor | components/DictionarySidebar.tsx:180 | `createBuffer` gives a fresh zero-filled buffer of the requested channels, length and rate |
| PcmAudio.FillChannel | components/DictionarySidebar.tsx:183-186 | the loop over frames writes every frame of one channel with its normalised sample and leaves the other channels as they were |
| PcmAudio.DecodeAudioData | components/DictionarySidebar.tsx:172-189 | an odd byte count fails (RangeError from the Int16Array view); no channel, or less than one whole frame, fails (NotSupportedError from createBuffer); otherwise a fresh buffer in which every frame of every channel is written with its normalised sample |
| DictionarySidebar.Sidebar.constructor | components/DictionarySidebar.tsx:21 | the busy flag starts cleared |
| DictionarySidebar.Sidebar.RequestPlayAudio | components/DictionarySidebar.tsx:23-26 | nothing changes without an entry word, while audio is loading, or without a key; otherwise the busy flag is set and the request starts |
| DictionarySidebar.Sidebar.CompletePlayAudio | components/DictionarySidebar.tsx:27-48 | the busy flag is cleared on success and on failure; a 24 kHz mono buffer of the normalised samples is produced iff the audio arrived with an even, non-zero byte count |
| App.RenderFrom | App.tsx:87-92 | the words from an index on render as one Word element per word with a separator between consecutive ones: 2·n − 1 fragments for n words |
| App.RenderInteractiveEnglish | App.tsx:85-93 | a line with n pieces under `split(' ')` renders as 2·n − 1 fragments |
| App.RenderLastWord | App.tsx:87-92 | the last word renders as its own Word element with no space after it |
| App.RenderFromStep | App.tsx:87-92 | a word before further words renders as its Word element, one space, then the rendering of the rest |
| App.RenderFromShows | App.tsx:87-92 | the words from an index on render as the words joined by single spaces, with one separator between consecutive words, the words in order |
| App.RenderShowsLine | App.tsx:85-93 | a rendered English line shows exactly the original line, with one Word per piece of `split(' ')` and one separator fewer than pieces |
| App.App.CurrentView | App.tsx:98 | in any valid state, the translator is shown exactly when there is an API key, and the setup form otherwise |
| App.App.constructor | App.tsx:11-22 | every state field starts at its `useState` default; the setup view is shown |
| App.App.Mount | App.tsx:24-31 | a non-empty stored key becomes the API key and marks it saved; an absent or empty one changes nothing, so the setup view stays |
| App.App.EditTempKey | App.tsx:128 | only the key field changes |
| App.App.SaveKey | App.tsx:33-40 | a non-blank key field is trimmed, stored, made the API key and marked saved, and the field is emptied; a blank one changes nothing; the main view shows iff a key is saved |
| App.App.ClearKey | App.tsx:42-48 | storage is emptied, the key is removed and unsaved, and segments and input are emptied; sidebar, dictionary and status fields are untouched; the setup view shows |
| App.App.EditInputText | App.tsx:199 | only the input text changes |
| App.App.ClearInputText | App.tsx:203 | only the input text changes, to "" |
| App.App.RequestTranslate | App.tsx:50-53 | nothing changes for blank input or without a key; otherwise only the status changes, to loading; a request starts only from the main view |
| App.App.CompleteTranslate | App.tsx:54-63 | success replaces the segments and sets the status to success; failure sets the error status with the fixed message and keeps the segments |
| App.App.RequestLookup | App.tsx:66-70 | without a key nothing changes; otherwise the sidebar opens, dictionary loading is set and the entry is cleared; a lookup starts only from the main view |
| App.App.CompleteLookup | App.tsx:72-79 | loading ends whatever the outcome; the entry is set only on success |
| App.App.CloseSidebar | App.tsx:82 | only the sidebar closes |
| App.App.ClickWord | App.tsx:66-80 | a click on a rendered word starts a lookup of its key iff the count is 3, the key is non-empty and an API key is set, which happens only in the main view |

Every `App` method also keeps `App.Valid()`. This invariant says three things.
A key is marked saved exactly when the API key is non-empty. A saved key is
the stored one. A translation status carries a message exactly when it is
an error, and then the message is the fixed one.

## Left out

- Calls to the hosted AI service (`services/geminiService.ts`): prompts, the
  response schema and `JSON.parse` are in code this model does not see.
  Each call is a `Result` parameter of the matching complete method.
  The service's own `if (!apiKey) throw` guard is never reached from these
  handlers, because each handler checks the key before calling.
- `atob`, the base64 decoding of section 4 of RFC 4648: it is a browser
  built-in. `CompletePlayAudio` takes its output, a string of character codes
  below 256, or `Err(InvalidBase64)` when it rejects its input.
- Audio playback (`AudioContext` creation, `createBufferSource`, `connect`,
  `start`): this is platform audio I/O. The model stops at the buffer that is
  handed to playback. A playback failure would only be logged, then the busy
  flag is cleared, which the model does unconditionally.
- PcmAudio.DecodeAudioData: requires at most 32 channels and a rate of 8000
  to 96000 Hz. Every Web Audio implementation accepts those values. Above 32
  channels, or outside that rate range, whether `createBuffer` throws depends
  on the platform. Zero channels is modelled: it always fails with
  NotSupportedError. The only caller passes 1 channel at 24000 Hz.
- PcmAudio.DecodeAudioData: in the source, `frameCount` is a float. Let F
  be the number of whole frames and r the number of samples left over. When
  r > 0, `createBuffer` truncates the length to F, and the loop makes one more
  pass, i = F. That pass reads sample F·numChannels + c, which is undefined
  for c ≥ r. It writes index F, which the length-F typed array ignores. The
  model uses integer division and leaves that pass out, which gives the same
  buffer. The Int16Array view assumes a little-endian host, as the source
  does.
- Float32 storage: the normalised values are `real`. Division by 32768 of a
  16-bit integer is exact in float32, so nothing is lost.
- Characters are Dafny code points, whereas JavaScript strings are UTF-16
  code units. For `\w`, for `trim()`'s whitespace and for splitting on `' '`,
  this changes no result: all of these characters are in the Basic
  Multilingual Plane, and both halves of a surrogate pair are non-word and
  non-whitespace.
- The race between overlapping dictionary lookups, where the last response
  to arrive wins, is asynchronous interleaving. Each request and completion
  is modelled on its own. Any sequence of them can be replayed with these
  methods, but the model makes no claim about their order.
- JSX markup, CSS classes, icons and the sidebar's display of entry fields
  are UI only. So are the `disabled` states of the buttons (save when the
  key field is blank, translate while loading or when the input is blank,
  play while audio is loading). The handlers' own guards are modelled.
