/**
 * The sample application's raw WAV reader: it skips the fixed 44-byte
 * canonical RIFF/WAVE header without looking at it and reads the rest of
 * the file as 16-bit little-endian linear PCM samples.
 *
 * Files are given as a map from file name to contents; a name that is not
 * in the map is a file that cannot be opened.
 */
module Wav {

  /** One byte of a file (C++ char read as unsigned). */
  newtype byte = b: int | 0 <= b < 0x100

  /** A signed 16-bit PCM sample (C++ int16_t). */
  newtype int16 = x: int | -0x8000 <= x < 0x8000

  /** The file system as the reader sees it: name to byte contents. */
  type FileSystem = map<string, seq<byte>>

  /** Size of the canonical RIFF/WAVE header that the reader skips. */
  const RiffHeaderSize: nat := 44

  /** What readAudioFromFile hands back: the samples and the error flag. */
  datatype AudioRead = AudioRead(samples: seq<int16>, errorOccurred: bool)

  /** The little-endian two's-complement sample stored as the bytes lo, hi. */
  function DecodeSample(lo: byte, hi: byte): (s: int16)
    ensures (s as int + 0x10000) % 0x10000 == lo as int + 0x100 * hi as int
    ensures s < 0 <==> hi as int >= 0x80
  {
    var u := lo as int + 0x100 * hi as int;
    if u < 0x8000 then u as int16 else (u - 0x10000) as int16
  }

  /** The two bytes (low first) that store the sample s. */
  function EncodeSample(s: int16): (bytes: (byte, byte))
    ensures DecodeSample(bytes.0, bytes.1) == s
  {
    var u := if s < 0 then s as int + 0x10000 else s as int;
    ((u % 0x100) as byte, (u / 0x100) as byte)
  }

  /** Decoding is injective: the two bytes are recovered from the sample. */
  lemma EncodeDecodeSample(lo: byte, hi: byte)
    ensures EncodeSample(DecodeSample(lo, hi)) == (lo, hi)
  {
  }

  /** Reads consecutive byte pairs as samples; an odd trailing byte is dropped. */
  function DecodePcm(data: seq<byte>): (samples: seq<int16>)
    ensures |samples| == |data| / 2
    ensures forall i :: 0 <= i < |samples| ==> samples[i] == DecodeSample(data[2 * i], data[2 * i + 1])
    decreases |data|
  {
    if |data| < 2 then []
    else
      var rest := DecodePcm(data[2..]);
      assert forall i :: 1 <= i < |rest| + 1 ==> data[2..][2 * (i - 1)] == data[2 * i];
      [DecodeSample(data[0], data[1])] + rest
  }

  /** The little-endian byte image of a sequence of samples. */
  function EncodePcm(samples: seq<int16>): (data: seq<byte>)
    ensures |data| == 2 * |samples|
  {
    if samples == [] then []
    else [EncodeSample(samples[0]).0, EncodeSample(samples[0]).1] + EncodePcm(samples[1..])
  }

  /** Decoding the byte image of samples gives the samples back. */
  lemma {:induction false} DecodeEncodePcm(samples: seq<int16>)
    ensures DecodePcm(EncodePcm(samples)) == samples
  {
    if samples != [] {
      var data := EncodePcm(samples);
      DecodeEncodePcm(samples[1..]);
      assert data[2..] == EncodePcm(samples[1..]);
    }
  }

  /** Encoding the decoded samples gives back the bytes, less a trailing odd byte. */
  lemma {:induction false} EncodeDecodePcm(data: seq<byte>)
    ensures EncodePcm(DecodePcm(data)) == data[..|data| / 2 * 2]
    decreases |data|
  {
    if |data| >= 2 {
      EncodeDecodeSample(data[0], data[1]);
      EncodeDecodePcm(data[2..]);
      assert DecodePcm(data)[1..] == DecodePcm(data[2..]);
      assert data[..|data| / 2 * 2] == data[..2] + data[2..][..|data[2..]| / 2 * 2];
    }
  }

  /**
   * readAudioFromFile: an unopenable file or one of at most 44 bytes is an
   * error with no samples; otherwise every complete byte pair after the
   * header is one sample and the error flag is cleared.
   */
  function ReadAudioFromFile(files: FileSystem, fileName: string): (r: AudioRead)
    ensures r.errorOccurred <==> fileName !in files || |files[fileName]| <= RiffHeaderSize
    ensures r.errorOccurred ==> r.samples == []
    ensures !r.errorOccurred ==>
      |r.samples| == (|files[fileName]| - RiffHeaderSize) / 2 &&
      forall i :: 0 <= i < |r.samples| ==>
        r.samples[i] == DecodeSample(files[fileName][RiffHeaderSize + 2 * i], files[fileName][RiffHeaderSize + 2 * i + 1])
  {
    if fileName !in files then AudioRead([], true)
    else
      var data := files[fileName];
      if |data| <= RiffHeaderSize then AudioRead([], true)
      else
        var body := data[RiffHeaderSize..];
        assert forall i :: 0 <= i < |body| ==> body[i] == data[RiffHeaderSize + i];
        AudioRead(DecodePcm(body), false)
  }

  /** A file made of any 44-byte header and the image of some samples reads back as those samples. */
  lemma ReadAudioRoundTrip(files: FileSystem, fileName: string, header: seq<byte>, samples: seq<int16>)
    requires |header| == RiffHeaderSize && samples != []
    requires fileName in files && files[fileName] == header + EncodePcm(samples)
    ensures ReadAudioFromFile(files, fileName) == AudioRead(samples, false)
  {
    var data := files[fileName];
    assert data[RiffHeaderSize..] == EncodePcm(samples);
    DecodeEncodePcm(samples);
  }

  /** A file of 45 bytes is not an error, yet it holds no sample. */
  lemma OneByteBodyIsEmptySuccess(files: FileSystem, fileName: string)
    requires fileName in files && |files[fileName]| == RiffHeaderSize + 1
    ensures ReadAudioFromFile(files, fileName) == AudioRead([], false)
  {
  }
}
