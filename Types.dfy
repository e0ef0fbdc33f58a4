/** The records the application passes around (types.ts). */
module Types {
  import opened Wrappers

  /** One sentence or phrase of the input and its Burmese translation. */
  datatype TranslationSegment = TranslationSegment(english: string, burmese: string)

  /** A dictionary entry; `phonetic` and `burmeseDefinition` are optional fields. */
  datatype DictionaryEntry = DictionaryEntry(
    word: string,
    phonetic: Option<string>,
    partOfSpeech: string,
    definition: string,
    exampleSentence: string,
    burmeseDefinition: Option<string>)

  datatype Status = Idle | Loading | Success | Error

  /** Progress of the translation request, with an optional message for the user. */
  datatype LoadingState = LoadingState(status: Status, message: Option<string>)

  /**
   * Why an asynchronous step produced no value: the call to the hosted AI
   * service threw, or `atob` rejected the base64 audio it returned.
   */
  datatype RequestFailure = ServiceFailure | InvalidBase64
}
