/** The byte layout float32ToWavBlob produces: a 44-byte canonical RIFF/WAVE header (a "RIFF"
    chunk of form "WAVE" holding a 16-byte "fmt " chunk for mono 16-bit PCM and a "data" chunk),
    then one signed 16-bit little-endian sample per input sample. */
module Wav {
  import opened LittleEndian
  import opened Pcm

  const HeaderSize: nat := 44
  const DefaultSampleRate: int := 16000

  /** The bytes writeString stores: one byte per character, its code reduced modulo 2^8
      (charCodeAt then setUint8). */
  function AsciiBytes(s: string): (r: seq<Byte>)
    ensures |r| == |s|
    ensures forall i :: 0 <= i < |s| && s[i] as int < 0x100 ==> r[i] == s[i] as int
  {
    seq(|s|, i requires 0 <= i < |s| => (s[i] as int) % 0x100)
  }

  /** The header as the thirteen writes of float32ToWavBlob lay it down, field after field. */
  function Header(n: nat, sampleRate: int): seq<Byte>
  {
    AsciiBytes("RIFF") + Uint32Bytes(36 + n * 2) + AsciiBytes("WAVE")
    + AsciiBytes("fmt ") + Uint32Bytes(16) + Uint16Bytes(1) + Uint16Bytes(1)
    + Uint32Bytes(sampleRate) + Uint32Bytes(sampleRate * 2) + Uint16Bytes(2) + Uint16Bytes(16)
    + AsciiBytes("data") + Uint32Bytes(n * 2)
  }

  /** What setInt16(offset, s < 0 ? s * 0x8000 : s * 0x7FFF, true) stores for one sample. */
  function SampleBytes(x: real): (r: seq<Byte>)
    ensures |r| == 2
  {
    Uint16Bytes(Int16Bits(Scale(Clamp(x))))
  }

  /** The sample payload, in input order. */
  function Payload(samples: seq<real>): seq<Byte>
  {
    if samples == [] then []
    else Payload(samples[..|samples| - 1]) + SampleBytes(samples[|samples| - 1])
  }

  /** The whole buffer float32ToWavBlob wraps into its Blob. */
  function WavBytes(samples: seq<real>, sampleRate: int): seq<Byte>
  {
    Header(|samples|, sampleRate) + Payload(samples)
  }

  /** The 44 header bytes described field by field, through the little-endian readers, as a
      WAV reader would check them for n samples. Length fields hold their value reduced modulo
      2^32, as setUint32 stores it. */
  ghost predicate HeaderDescribes(b: seq<Byte>, n: nat, sampleRate: int)
  {
    |b| >= HeaderSize
    && b[0..4] == [0x52, 0x49, 0x46, 0x46]             // "RIFF"
    && ReadUint32(b, 4) == (36 + 2 * n) % Two32         // RIFF chunk size
    && b[8..12] == [0x57, 0x41, 0x56, 0x45]            // "WAVE"
    && b[12..16] == [0x66, 0x6D, 0x74, 0x20]           // "fmt "
    && ReadUint32(b, 16) == 16                          // fmt chunk size
    && ReadUint16(b, 20) == 1                           // audio format: PCM
    && ReadUint16(b, 22) == 1                           // channels: mono
    && ReadUint32(b, 24) == sampleRate % Two32          // sample rate
    && ReadUint32(b, 28) == (sampleRate * 2) % Two32    // byte rate
    && ReadUint16(b, 32) == 2                           // block align
    && ReadUint16(b, 34) == 16                          // bits per sample
    && b[36..40] == [0x64, 0x61, 0x74, 0x61]           // "data"
    && ReadUint32(b, 40) == (2 * n) % Two32             // data chunk size
  }

  /** A whole container for these samples at this rate: the header, then sample i at offset
      44 + 2i as its signed 16-bit value, and nothing more. */
  ghost predicate IsWav(b: seq<Byte>, samples: seq<real>, sampleRate: int)
  {
    |b| == HeaderSize + 2 * |samples|
    && HeaderDescribes(b, |samples|, sampleRate)
    && forall i :: 0 <= i < |samples| ==> ReadInt16(b, HeaderSize + 2 * i) == SampleValue(samples[i])
  }

  lemma {:induction false} PayloadLength(samples: seq<real>)
    ensures |Payload(samples)| == 2 * |samples|
  {
    if samples != [] {
      PayloadLength(samples[..|samples| - 1]);
    }
  }

  /** Sample i of the input occupies payload bytes 2i and 2i + 1. */
  lemma {:induction false} PayloadSampleAt(samples: seq<real>, i: nat)
    requires i < |samples|
    ensures |Payload(samples)| == 2 * |samples|
    ensures Payload(samples)[2 * i..2 * i + 2] == SampleBytes(samples[i])
  {
    PayloadLength(samples);
    var init := samples[..|samples| - 1];
    PayloadLength(init);
    if i < |samples| - 1 {
      PayloadSampleAt(init, i);
      assert Payload(samples)[2 * i..2 * i + 2] == Payload(init)[2 * i..2 * i + 2];
    } else {
      assert Payload(samples)[2 * i..2 * i + 2] == SampleBytes(samples[i]);
    }
  }

  /** The payload of a longer prefix adds the next sample's two bytes at the end. */
  lemma PayloadSnoc(samples: seq<real>, i: nat)
    requires i < |samples|
    ensures Payload(samples[..i + 1]) == Payload(samples[..i]) + SampleBytes(samples[i])
  {
    assert samples[..i + 1][..i] == samples[..i];
  }

  /** The buffer is exactly 44 + 2n bytes; no samples give the 44-byte header alone. */
  lemma WavLength(samples: seq<real>, sampleRate: int)
    ensures |WavBytes(samples, sampleRate)| == HeaderSize + 2 * |samples|
    ensures samples == [] ==> WavBytes(samples, sampleRate) == Header(0, sampleRate)
  {
    PayloadLength(samples);
  }

  /** The header the encoder writes passes the field-by-field description. */
  lemma HeaderFields(n: nat, sampleRate: int)
    ensures |Header(n, sampleRate)| == HeaderSize
    ensures HeaderDescribes(Header(n, sampleRate), n, sampleRate)
  {
    var h := Header(n, sampleRate);
    assert AsciiBytes("RIFF") == [0x52, 0x49, 0x46, 0x46];
    assert AsciiBytes("WAVE") == [0x57, 0x41, 0x56, 0x45];
    assert AsciiBytes("fmt ") == [0x66, 0x6D, 0x74, 0x20];
    assert AsciiBytes("data") == [0x64, 0x61, 0x74, 0x61];
    assert h[4..8] == Uint32Bytes(36 + n * 2);
    assert h[16..20] == Uint32Bytes(16);
    assert h[20..22] == Uint16Bytes(1);
    assert h[22..24] == Uint16Bytes(1);
    assert h[24..28] == Uint32Bytes(sampleRate);
    assert h[28..32] == Uint32Bytes(sampleRate * 2);
    assert h[32..34] == Uint16Bytes(2);
    assert h[34..36] == Uint16Bytes(16);
    assert h[40..44] == Uint32Bytes(n * 2);
  }

  /** The header description reads only the first 44 bytes. */
  lemma HeaderDescribesPrefix(b: seq<Byte>, c: seq<Byte>, n: nat, sampleRate: int)
    requires |b| >= HeaderSize && |c| >= HeaderSize && b[..HeaderSize] == c[..HeaderSize]
    requires HeaderDescribes(c, n, sampleRate)
    ensures HeaderDescribes(b, n, sampleRate)
  {
    forall k | 0 <= k < HeaderSize ensures b[k] == c[k] {
      assert b[..HeaderSize][k] == c[..HeaderSize][k];
    }
  }

  /** Two buffers that pass the header description for the same n and rate agree on all 44
      header bytes. */
  lemma HeaderDescribesUnique(b: seq<Byte>, c: seq<Byte>, n: nat, sampleRate: int)
    requires HeaderDescribes(b, n, sampleRate) && HeaderDescribes(c, n, sampleRate)
    ensures b[..HeaderSize] == c[..HeaderSize]
  {
    SlicesAgree(b, c, 0, 4);
    Uint32FieldAgrees(b, c, 4);
    SlicesAgree(b, c, 8, 12);
    SlicesAgree(b, c, 12, 16);
    Uint32FieldAgrees(b, c, 16);
    Uint16FieldAgrees(b, c, 20);
    Uint16FieldAgrees(b, c, 22);
    Uint32FieldAgrees(b, c, 24);
    Uint32FieldAgrees(b, c, 28);
    Uint16FieldAgrees(b, c, 32);
    Uint16FieldAgrees(b, c, 34);
    SlicesAgree(b, c, 36, 40);
    Uint32FieldAgrees(b, c, 40);
    assert forall k :: 0 <= k < HeaderSize ==> b[k] == c[k];
  }

  lemma SlicesAgree(b: seq<Byte>, c: seq<Byte>, lo: nat, hi: nat)
    requires lo <= hi <= |b| && hi <= |c| && b[lo..hi] == c[lo..hi]
    ensures forall k :: lo <= k < hi ==> b[k] == c[k]
  {
    forall k | lo <= k < hi ensures b[k] == c[k] {
      assert b[lo..hi][k - lo] == c[lo..hi][k - lo];
    }
  }

  lemma Uint16FieldAgrees(b: seq<Byte>, c: seq<Byte>, offset: nat)
    requires offset + 2 <= |b| && offset + 2 <= |c| && ReadUint16(b, offset) == ReadUint16(c, offset)
    ensures forall k :: offset <= k < offset + 2 ==> b[k] == c[k]
  {
    Uint16Inverse(b, offset);
    Uint16Inverse(c, offset);
    SlicesAgree(b, c, offset, offset + 2);
  }

  lemma Uint32FieldAgrees(b: seq<Byte>, c: seq<Byte>, offset: nat)
    requires offset + 4 <= |b| && offset + 4 <= |c| && ReadUint32(b, offset) == ReadUint32(c, offset)
    ensures forall k :: offset <= k < offset + 4 ==> b[k] == c[k]
  {
    Uint32Inverse(b, offset);
    Uint32Inverse(c, offset);
    SlicesAgree(b, c, offset, offset + 4);
  }

  /** Bytes past the header that equal the payload put sample i at offset 44 + 2i. */
  lemma PayloadDescribes(b: seq<Byte>, samples: seq<real>)
    requires |b| == HeaderSize + 2 * |samples| && b[HeaderSize..] == Payload(samples)
    ensures forall i :: 0 <= i < |samples| ==> ReadInt16(b, HeaderSize + 2 * i) == SampleValue(samples[i])
  {
    forall i | 0 <= i < |samples|
      ensures ReadInt16(b, HeaderSize + 2 * i) == SampleValue(samples[i])
    {
      var o := HeaderSize + 2 * i;
      PayloadSampleAt(samples, i);
      assert b[o..o + 2] == b[HeaderSize..][2 * i..2 * i + 2];
      SampleBytesReadBack(samples[i]);
      assert ReadInt16(b, o) == ReadInt16(SampleBytes(samples[i]), 0);
    }
  }

  /** Conversely, the signed values at offsets 44 + 2i pin down the payload bytes. */
  lemma PayloadDetermined(b: seq<Byte>, samples: seq<real>)
    requires |b| == HeaderSize + 2 * |samples|
    requires forall i :: 0 <= i < |samples| ==> ReadInt16(b, HeaderSize + 2 * i) == SampleValue(samples[i])
    ensures b[HeaderSize..] == Payload(samples)
  {
    var p := Payload(samples);
    PayloadLength(samples);
    forall k | 0 <= k < 2 * |samples|
      ensures b[HeaderSize + k] == p[k]
    {
      var i := k / 2;
      var o := HeaderSize + 2 * i;
      PayloadSampleAt(samples, i);
      SampleBytesReadBack(samples[i]);
      assert ReadInt16(b, o) == ReadInt16(SampleBytes(samples[i]), 0);
      Uint16Inverse(b, o);
      Uint16Inverse(SampleBytes(samples[i]), 0);
      assert b[o..o + 2] == SampleBytes(samples[i]) == p[2 * i..2 * i + 2];
      assert b[HeaderSize + k] == b[o..o + 2][k - 2 * i];
    }
  }

  /** The encoder's output is a well-formed container for its input, field by field. */
  lemma WavBytesIsWav(samples: seq<real>, sampleRate: int)
    ensures IsWav(WavBytes(samples, sampleRate), samples, sampleRate)
  {
    var n := |samples|;
    var b := WavBytes(samples, sampleRate);
    var h := Header(n, sampleRate);
    PayloadLength(samples);
    HeaderFields(n, sampleRate);
    assert b[..HeaderSize] == h[..HeaderSize];
    HeaderDescribesPrefix(b, h, n, sampleRate);
    assert b[HeaderSize..] == Payload(samples);
    PayloadDescribes(b, samples);
  }

  /** Conversely, the field-by-field description pins down every byte: the encoder's output is
      the only buffer that describes these samples at this rate. */
  lemma IsWavOnlyWavBytes(b: seq<Byte>, samples: seq<real>, sampleRate: int)
    requires IsWav(b, samples, sampleRate)
    ensures b == WavBytes(samples, sampleRate)
  {
    var w := WavBytes(samples, sampleRate);
    WavBytesIsWav(samples, sampleRate);
    HeaderDescribesUnique(b, w, |samples|, sampleRate);
    PayloadDetermined(b, samples);
    PayloadDetermined(w, samples);
    assert b == b[..HeaderSize] + b[HeaderSize..];
    assert w == w[..HeaderSize] + w[HeaderSize..];
  }

  /** In any container, the RIFF chunk size is the length of everything after its own eight
      bytes and the data chunk size is the payload length, as long as they fit in 32 bits. */
  lemma ChunkSizesMatchLength(b: seq<Byte>, samples: seq<real>, sampleRate: int)
    requires IsWav(b, samples, sampleRate)
    requires 36 + 2 * |samples| < Two32
    ensures ReadUint32(b, 4) == |b| - 8 == 36 + 2 * |samples|
    ensures ReadUint32(b, 40) == |b| - HeaderSize == 2 * |samples|
  {
    assert HeaderDescribes(b, |samples|, sampleRate);
    assert (36 + 2 * |samples|) % Two32 == 36 + 2 * |samples|;
    assert (2 * |samples|) % Two32 == 2 * |samples|;
  }

  /** The sample-rate field holds the rate and the byte-rate field twice the rate (mono, two
      bytes per sample), when both fit in 32 bits. */
  lemma RateFields(b: seq<Byte>, samples: seq<real>, sampleRate: int)
    requires IsWav(b, samples, sampleRate)
    requires 0 <= sampleRate * 2 < Two32
    ensures ReadUint32(b, 24) == sampleRate
    ensures ReadUint32(b, 28) == sampleRate * 2
  {
    assert HeaderDescribes(b, |samples|, sampleRate);
    assert 0 <= sampleRate < Two32;
    assert sampleRate % Two32 == sampleRate;
    assert (sampleRate * 2) % Two32 == sampleRate * 2;
  }

  /** With the default rate of float32ToWavBlob the two rate fields hold 16000 and 32000. */
  lemma DefaultRateFields(samples: seq<real>)
    ensures ReadUint32(WavBytes(samples, DefaultSampleRate), 24) == 16000
    ensures ReadUint32(WavBytes(samples, DefaultSampleRate), 28) == 32000
  {
    WavBytesIsWav(samples, DefaultSampleRate);
    RateFields(WavBytes(samples, DefaultSampleRate), samples, DefaultSampleRate);
  }

  /** Sample i lands at offset 44 + 2i as its signed 16-bit PCM value, as its two bytes. */
  lemma SampleAt(samples: seq<real>, sampleRate: int, i: nat)
    requires i < |samples|
    ensures var b := WavBytes(samples, sampleRate);
            HeaderSize + 2 * i + 2 <= |b|
            && b[HeaderSize + 2 * i..HeaderSize + 2 * i + 2] == SampleBytes(samples[i])
  {
    PayloadLength(samples);
    PayloadSampleAt(samples, i);
    var b := WavBytes(samples, sampleRate);
    assert b[HeaderSize + 2 * i..HeaderSize + 2 * i + 2] == Payload(samples)[2 * i..2 * i + 2];
  }
}
