/**
 * The audio helpers of components/DictionarySidebar.tsx: `decode` turns the
 * binary string that `atob` returns into bytes, and `decodeAudioData` reads
 * those bytes as 16-bit little-endian PCM and fills one buffer per channel.
 */
module PcmAudio {
  import opened Wrappers

  newtype uint8 = x: int | 0 <= x < 0x100
  newtype int16 = x: int | -0x8000 <= x < 0x8000

  /** A string whose every character code is below 256, as `atob` returns. */
  predicate IsBinaryString(s: string) {
    forall i :: 0 <= i < |s| ==> s[i] as int < 0x100
  }

  /** The byte values of a binary string, one per character. */
  function CharCodes(binary: string): (bytes: seq<uint8>)
    requires IsBinaryString(binary)
    ensures |bytes| == |binary|
    ensures forall i :: 0 <= i < |binary| ==> bytes[i] as int == binary[i] as int
  {
    seq(|binary|, i requires 0 <= i < |binary| => binary[i] as int as uint8)
  }

  /** The binary string whose character codes are the given bytes. */
  function BinaryString(bytes: seq<uint8>): (s: string)
    ensures IsBinaryString(s) && |s| == |bytes|
  {
    seq(|bytes|, i requires 0 <= i < |bytes| => bytes[i] as int as char)
  }

  /** Reading bytes back from a binary string undoes writing them into one, and conversely. */
  lemma CharCodesRoundTrip(binary: string, bytes: seq<uint8>)
    requires IsBinaryString(binary)
    ensures BinaryString(CharCodes(binary)) == binary
    ensures CharCodes(BinaryString(bytes)) == bytes
  {
  }

  /**
   * `decode`: a fresh Uint8Array as long as the binary string, byte i being
   * the code of character i.
   */
  method Decode(binary: string) returns (bytes: array<uint8>)
    requires IsBinaryString(binary)
    ensures fresh(bytes)
    ensures bytes[..] == CharCodes(binary)
  {
    var len := |binary|;
    bytes := new uint8[len];
    for i := 0 to len
      invariant forall k :: 0 <= k < i ==> bytes[k] == CharCodes(binary)[k]
    {
      bytes[i] := binary[i] as int as uint8;
    }
  }

  /**
   * The sample a little-endian byte pair holds, read as two's complement:
   * it is congruent to lo + 256 * hi modulo 65536 and negative exactly
   * when the top bit of hi is set.
   */
  function Int16LE(lo: uint8, hi: uint8): (x: int16)
    ensures (lo as int + 0x100 * hi as int - x as int) % 0x10000 == 0
    ensures x < 0 <==> hi >= 0x80
  {
    var u := lo as int + 0x100 * hi as int;
    (if u >= 0x8000 then u - 0x10000 else u) as int16
  }

  /** The low byte of a sample in two's complement. */
  function LowByte(x: int16): uint8 {
    ((x as int + 0x10000) % 0x100) as uint8
  }

  /** The high byte of a sample in two's complement. */
  function HighByte(x: int16): uint8 {
    ((x as int + 0x10000) % 0x10000 / 0x100) as uint8
  }

  /** Every sample is read back from its two bytes, and every byte pair from its sample. */
  lemma Int16LERoundTrip(x: int16, lo: uint8, hi: uint8)
    ensures Int16LE(LowByte(x), HighByte(x)) == x
    ensures LowByte(Int16LE(lo, hi)) == lo && HighByte(Int16LE(lo, hi)) == hi
  {
    var u := (x as int + 0x10000) % 0x10000;
    assert u == if x < 0 then x as int + 0x10000 else x as int;
    assert LowByte(x) as int == u % 0x100;
    assert LowByte(x) as int + 0x100 * HighByte(x) as int == u;

    var v := lo as int + 0x100 * hi as int;
    var y := Int16LE(lo, hi);
    assert (y as int + 0x10000) % 0x10000 == v;
    assert v % 0x100 == lo as int && v / 0x100 == hi as int;
  }

  /** `new Int16Array(bytes.buffer)` over an even number of bytes: byte pairs read in order. */
  function Samples(bytes: seq<uint8>): (samples: seq<int16>)
    requires |bytes| % 2 == 0
    ensures |samples| == |bytes| / 2
  {
    seq(|bytes| / 2, k requires 0 <= k < |bytes| / 2 => Int16LE(bytes[2 * k], bytes[2 * k + 1]))
  }

  /** The elements of a sequence of pairs, each pair's first then second. */
  function Flatten<T>(pairs: seq<(T, T)>): (flat: seq<T>)
    ensures |flat| == 2 * |pairs| && |flat| % 2 == 0
  {
    if pairs == [] then [] else [pairs[0].0, pairs[0].1] + Flatten(pairs[1..])
  }

  lemma {:induction false} FlattenAt<T>(pairs: seq<(T, T)>, k: nat)
    requires k < |pairs|
    ensures Flatten(pairs)[2 * k] == pairs[k].0 && Flatten(pairs)[2 * k + 1] == pairs[k].1
  {
    var rest := Flatten(pairs[1..]);
    assert Flatten(pairs) == [pairs[0].0, pairs[0].1] + rest;
    if k > 0 {
      FlattenAt(pairs[1..], k - 1);
      assert pairs[1..][k - 1] == pairs[k];
    }
  }

  /**
   * The little-endian byte stream of a sequence of samples (what the speech
   * service sends): each sample as its low byte then its high byte.
   */
  function EncodeSamples(samples: seq<int16>): (bytes: seq<uint8>)
    ensures |bytes| == 2 * |samples| && |bytes| % 2 == 0
  {
    Flatten(seq(|samples|, k requires 0 <= k < |samples| => (LowByte(samples[k]), HighByte(samples[k]))))
  }

  /** Sample k is encoded at bytes 2k and 2k + 1. */
  lemma EncodeSamplesAt(samples: seq<int16>, k: nat)
    requires k < |samples|
    ensures EncodeSamples(samples)[2 * k] == LowByte(samples[k])
    ensures EncodeSamples(samples)[2 * k + 1] == HighByte(samples[k])
  {
    FlattenAt(seq(|samples|, k requires 0 <= k < |samples| => (LowByte(samples[k]), HighByte(samples[k]))), k);
  }

  /** Sample k read from an encoding is the sample that was encoded. */
  lemma SampleOfEncodingAt(samples: seq<int16>, k: nat)
    requires k < |samples|
    ensures Samples(EncodeSamples(samples))[k] == samples[k]
  {
    var bytes := EncodeSamples(samples);
    EncodeSamplesAt(samples, k);
    assert Samples(bytes)[k] == Int16LE(bytes[2 * k], bytes[2 * k + 1]);
    Int16LERoundTrip(samples[k], bytes[2 * k], bytes[2 * k + 1]);
  }

  /** Reading samples from their encoding gives them back. */
  lemma SamplesOfEncoding(samples: seq<int16>)
    ensures Samples(EncodeSamples(samples)) == samples
  {
    forall k | 0 <= k < |samples|
      ensures Samples(EncodeSamples(samples))[k] == samples[k]
    {
      SampleOfEncodingAt(samples, k);
    }
  }

  /** The pair of bytes encoding sample k read from a byte stream is the pair it was read from. */
  lemma EncodingOfSampleAt(bytes: seq<uint8>, k: nat)
    requires |bytes| % 2 == 0 && k < |bytes| / 2
    ensures EncodeSamples(Samples(bytes))[2 * k] == bytes[2 * k]
    ensures EncodeSamples(Samples(bytes))[2 * k + 1] == bytes[2 * k + 1]
  {
    var samples := Samples(bytes);
    EncodeSamplesAt(samples, k);
    assert samples[k] == Int16LE(bytes[2 * k], bytes[2 * k + 1]);
    Int16LERoundTrip(samples[k], bytes[2 * k], bytes[2 * k + 1]);
  }

  lemma EncodingOfSamples(bytes: seq<uint8>)
    requires |bytes| % 2 == 0
    ensures EncodeSamples(Samples(bytes)) == bytes
  {
    var encoded := EncodeSamples(Samples(bytes));
    forall i | 0 <= i < |bytes|
      ensures encoded[i] == bytes[i]
    {
      var k := i / 2;
      assert k < |bytes| / 2 && (i == 2 * k || i == 2 * k + 1);
      EncodingOfSampleAt(bytes, k);
    }
  }

  /** `sample / 32768.0`; the division by a power of two is exact. */
  function Normalize(x: int16): (v: real)
    ensures -1.0 <= v <= 32767.0 / 32768.0
    ensures v < 0.0 <==> x < 0
  {
    x as real / 32768.0
  }

  /** The end points of the range, and distinct samples stay distinct. */
  lemma NormalizeFacts(x: int16, y: int16)
    ensures Normalize(-0x8000) == -1.0 && Normalize(0) == 0.0 && Normalize(0x7FFF) == 32767.0 / 32768.0
    ensures x < y ==> Normalize(x) < Normalize(y)
  {
  }

  /** Frame i of channel c lies inside the interleaved samples. */
  lemma {:induction false} FrameIndexInRange(sampleCount: nat, numChannels: nat, channel: nat, i: nat)
    requires 0 < numChannels && channel < numChannels && i < sampleCount / numChannels
    ensures i * numChannels + channel < sampleCount
  {
    var frames := sampleCount / numChannels;
    assert frames * numChannels <= sampleCount;
    assert (i + 1) * numChannels <= frames * numChannels by {
      assert i + 1 <= frames;
    }
  }

  /**
   * The normalised samples of one channel: frame i of channel c is sample
   * i * numChannels + c, and a trailing partial frame is dropped.
   */
  function ChannelData(samples: seq<int16>, numChannels: nat, channel: nat): (data: seq<real>)
    requires 0 < numChannels && channel < numChannels
    ensures |data| == |samples| / numChannels
    ensures forall i :: 0 <= i < |data| ==> -1.0 <= data[i] < 1.0
  {
    seq(|samples| / numChannels, i requires 0 <= i < |samples| / numChannels =>
      FrameIndexInRange(|samples|, numChannels, channel, i);
      Normalize(samples[i * numChannels + channel]))
  }

  /**
   * Decoding the byte encoding of interleaved samples gives back, channel by
   * channel, exactly the normalised samples: bytes / 2 / numChannels frames,
   * frame i of channel c being sample i * numChannels + c divided by 32768.
   */
  lemma DecodeEncodedSamples(samples: seq<int16>, numChannels: nat, channel: nat)
    requires 0 < numChannels && channel < numChannels
    ensures var data := ChannelData(Samples(EncodeSamples(samples)), numChannels, channel);
      |data| == |EncodeSamples(samples)| / 2 / numChannels
      && forall i :: 0 <= i < |data| ==>
           i * numChannels + channel < |samples| && data[i] == samples[i * numChannels + channel] as real / 32768.0
  {
    var bytes := EncodeSamples(samples);
    assert Samples(bytes) == samples by {
      SamplesOfEncoding(samples);
    }
    var data := ChannelData(samples, numChannels, channel);
    forall i | 0 <= i < |data|
      ensures i * numChannels + channel < |samples| && data[i] == samples[i * numChannels + channel] as real / 32768.0
    {
      FrameIndexInRange(|samples|, numChannels, channel, i);
    }
  }

  /** With one channel, as the dictionary sidebar uses, the channel is every sample in order. */
  lemma MonoChannelIsAllSamples(samples: seq<int16>, i: nat)
    requires i < |samples|
    ensures |ChannelData(samples, 1, 0)| == |samples|
    ensures ChannelData(samples, 1, 0)[i] == Normalize(samples[i])
  {
  }

  /** Why the platform refuses to build the buffer. */
  datatype AudioError =
    | RangeError         // the Int16Array view of an odd number of bytes
    | NotSupportedError  // createBuffer asked for no channel or zero frames

  /** Channel counts and sample rates every Web Audio implementation accepts. */
  const MaxChannels: nat := 32
  const MinSampleRate: nat := 8000
  const MaxSampleRate: nat := 96000

  /**
   * An AudioBuffer as `createBuffer` allocates it: `channels[c, i]` is
   * element i of `getChannelData(c)`, every one zero at first.
   */
  class AudioBuffer {
    const numberOfChannels: nat
    const length: nat
    const sampleRate: nat
    const channels: array2<real>

    constructor (numberOfChannels: nat, length: nat, sampleRate: nat)
      ensures this.numberOfChannels == numberOfChannels && this.length == length
      ensures this.sampleRate == sampleRate
      ensures fresh(channels)
      ensures channels.Length0 == numberOfChannels && channels.Length1 == length
      ensures forall c, i :: 0 <= c < numberOfChannels && 0 <= i < length ==> channels[c, i] == 0.0
    {
      this.numberOfChannels := numberOfChannels;
      this.length := length;
      this.sampleRate := sampleRate;
      channels := new real[numberOfChannels, length]((c, i) => 0.0);
    }
  }

  /**
   * The inner loop of `decodeAudioData`: `getChannelData(channel)` is filled
   * frame by frame with its normalised samples; the other channels are kept.
   */
  method FillChannel(channels: array2<real>, samples: seq<int16>, numChannels: nat, channel: nat)
    requires channel < numChannels == channels.Length0
    requires channels.Length1 == |samples| / numChannels
    modifies channels
    ensures forall i :: 0 <= i < channels.Length1 ==>
      channels[channel, i] == ChannelData(samples, numChannels, channel)[i]
    ensures forall c, i :: 0 <= c < channels.Length0 && c != channel && 0 <= i < channels.Length1 ==>
      channels[c, i] == old(channels[c, i])
  {
    for i := 0 to channels.Length1
      invariant forall k :: 0 <= k < i ==>
        channels[channel, k] == ChannelData(samples, numChannels, channel)[k]
      invariant forall c, k :: 0 <= c < channels.Length0 && c != channel && 0 <= k < channels.Length1 ==>
        channels[c, k] == old(channels[c, k])
    {
      FrameIndexInRange(|samples|, numChannels, channel, i);
      channels[channel, i] := Normalize(samples[i * numChannels + channel]);
    }
  }

  /**
   * `decodeAudioData`: fails with RangeError on an odd byte count, and with
   * NotSupportedError when there is no channel or not one whole frame (a
   * frame count of Infinity or NaN becomes length 0); otherwise a fresh
   * buffer of bytes / 2 / numChannels frames whose channel c holds
   * ChannelData(samples, numChannels, c).
   */
  method DecodeAudioData(data: array<uint8>, sampleRate: nat, numChannels: nat)
    returns (result: Result<AudioBuffer, AudioError>)
    requires numChannels <= MaxChannels
    requires MinSampleRate <= sampleRate <= MaxSampleRate
    ensures result.Ok? <==> data.Length % 2 == 0 && numChannels > 0 && data.Length / 2 / numChannels > 0
    ensures result.Err? ==> result.error == if data.Length % 2 != 0 then RangeError else NotSupportedError
    ensures result.Ok? ==>
      var buffer := result.value;
      fresh(buffer) && fresh(buffer.channels)
      && buffer.numberOfChannels == numChannels && buffer.sampleRate == sampleRate
      && buffer.length == data.Length / 2 / numChannels
      && buffer.channels.Length0 == numChannels && buffer.channels.Length1 == buffer.length
      && forall c, i :: 0 <= c < numChannels && 0 <= i < buffer.length ==>
           buffer.channels[c, i] == ChannelData(Samples(data[..]), numChannels, c)[i]
  {
    if data.Length % 2 != 0 {
      return Err(RangeError);
    }
    var dataInt16 := Samples(data[..]);
    if numChannels == 0 || |dataInt16| / numChannels == 0 {
      return Err(NotSupportedError);
    }
    var frameCount := |dataInt16| / numChannels;
    var buffer := new AudioBuffer(numChannels, frameCount, sampleRate);
    for channel := 0 to numChannels
      invariant forall c, i :: 0 <= c < channel && 0 <= i < frameCount ==>
        buffer.channels[c, i] == ChannelData(dataInt16, numChannels, c)[i]
    {
      FillChannel(buffer.channels, dataInt16, numChannels, channel);
    }
    return Ok(buffer);
  }
}
