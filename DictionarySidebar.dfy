/**
 * The DictionarySidebar component (components/DictionarySidebar.tsx): its
 * only state is `isAudioLoading`, the busy flag of the pronunciation button.
 */
module DictionarySidebar {
  import opened Wrappers
  import opened Types
  import opened PcmAudio

  /** The format the speech service delivers: 24 kHz mono. */
  const PronunciationSampleRate: nat := 24000
  const PronunciationChannels: nat := 1

  /** The guard of handlePlayAudio: an entry with a word, not already busy, and a key. */
  predicate CanPlay(entry: Option<DictionaryEntry>, isAudioLoading: bool, apiKey: string) {
    entry.Some? && entry.value.word != "" && !isAudioLoading && apiKey != ""
  }

  class Sidebar {
    var isAudioLoading: bool

    constructor ()
      ensures !isAudioLoading
    {
      isAudioLoading := false;
    }

    /**
     * The synchronous part of handlePlayAudio: either the guard returns early
     * and nothing changes, or the busy flag is set and the pronunciation
     * request starts.
     */
    method RequestPlayAudio(entry: Option<DictionaryEntry>, apiKey: string) returns (started: bool)
      modifies this
      ensures started <==> CanPlay(entry, old(isAudioLoading), apiKey)
      ensures isAudioLoading == (old(isAudioLoading) || started)
    {
      if entry.None? || entry.value.word == "" || isAudioLoading || apiKey == "" {
        return false;
      }
      isAudioLoading := true;
      started := true;
    }

    /**
     * The rest of handlePlayAudio, once the service has answered: `audio` is
     * what `atob` made of the returned base64, or the failure of the service
     * call or of `atob`. The bytes are decoded into a 24 kHz mono buffer,
     * which is what playback receives; a failure is only logged. Either way
     * the busy flag is cleared.
     */
    method CompletePlayAudio(audio: Result<string, RequestFailure>) returns (played: Option<AudioBuffer>)
      requires audio.Ok? ==> IsBinaryString(audio.value)
      modifies this
      ensures !isAudioLoading
      ensures played.Some? <==> audio.Ok? && |audio.value| % 2 == 0 && |audio.value| >= 2
      ensures played.Some? ==>
        var buffer := played.value;
        var samples := Samples(CharCodes(audio.value));
        fresh(buffer) && fresh(buffer.channels)
        && buffer.sampleRate == PronunciationSampleRate && buffer.numberOfChannels == 1
        && buffer.length == |samples| && buffer.channels.Length0 == 1 && buffer.channels.Length1 == |samples|
        && forall i :: 0 <= i < |samples| ==> buffer.channels[0, i] == Normalize(samples[i])
    {
      played := None;
      if audio.Ok? {
        var audioBytes := Decode(audio.value);
        assert audioBytes[..] == CharCodes(audio.value);
        var decoded := DecodeAudioData(audioBytes, PronunciationSampleRate, PronunciationChannels);
        if decoded.Ok? {
          played := Some(decoded.value);
          forall i | 0 <= i < decoded.value.length
            ensures decoded.value.channels[0, i] == Normalize(Samples(audioBytes[..])[i])
          {
            MonoChannelIsAllSamples(Samples(audioBytes[..]), i);
          }
        }
      }
      isAudioLoading := false;
    }
  }
}
