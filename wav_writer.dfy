/** float32ToWavBlob as the source runs it: allocate a 44 + 2n byte ArrayBuffer, then fill it
    in place through DataView writes, the header first and then one sample per loop turn. */
module WavWriter {
  import opened LittleEndian
  import opened Pcm
  import opened Wav

  /** writeString: the bytes of s, one per character, at offset, offset + 1, ... */
  method WriteString(view: array<Byte>, offset: nat, s: string)
    requires offset + |s| <= view.Length
    modifies view
    ensures view[..offset] == old(view[..offset])
    ensures view[offset..offset + |s|] == AsciiBytes(s)
    ensures forall k :: offset + |s| <= k < view.Length ==> view[k] == old(view[k])
  {
    for i := 0 to |s|
      invariant view[..offset] == old(view[..offset])
      invariant view[offset..offset + i] == AsciiBytes(s)[..i]
      invariant forall k :: offset + i <= k < view.Length ==> view[k] == old(view[k])
    {
      view[offset + i] := (s[i] as int) % 0x100;
      assert view[offset..offset + i + 1] == view[offset..offset + i] + [view[offset + i]];
    }
  }

  /** writeUint16: DataView.setUint16(offset, value, true). */
  method WriteUint16(view: array<Byte>, offset: nat, value: int)
    requires offset + 2 <= view.Length
    modifies view
    ensures view[..offset] == old(view[..offset])
    ensures view[offset..offset + 2] == Uint16Bytes(value)
    ensures forall k :: offset + 2 <= k < view.Length ==> view[k] == old(view[k])
  {
    var r := Uint16Bytes(value);
    view[offset] := r[0];
    view[offset + 1] := r[1];
  }

  /** writeUint32: DataView.setUint32(offset, value, true). */
  method WriteUint32(view: array<Byte>, offset: nat, value: int)
    requires offset + 4 <= view.Length
    modifies view
    ensures view[..offset] == old(view[..offset])
    ensures view[offset..offset + 4] == Uint32Bytes(value)
    ensures forall k :: offset + 4 <= k < view.Length ==> view[k] == old(view[k])
  {
    var r := Uint32Bytes(value);
    view[offset] := r[0];
    view[offset + 1] := r[1];
    view[offset + 2] := r[2];
    view[offset + 3] := r[3];
    assert view[offset..offset + 4] == r;
  }

  /** DataView.setInt16(offset, value, true): ToInt16 truncates toward zero and reduces modulo
      2^16, and the two bytes are stored low byte first. */
  method SetInt16(view: array<Byte>, offset: nat, value: real)
    requires offset + 2 <= view.Length
    modifies view
    ensures view[..offset] == old(view[..offset])
    ensures view[offset..offset + 2] == Uint16Bytes(Int16Bits(value))
    ensures forall k :: offset + 2 <= k < view.Length ==> view[k] == old(view[k])
  {
    WriteUint16(view, offset, Int16Bits(value));
  }

  /** float32ToWavBlob(audioBuffer, sampleRate = 16000): the buffer it wraps into its Blob is
      exactly the canonical container of the samples at that rate. */
  method Float32ToWav(samples: seq<real>, sampleRate: int := DefaultSampleRate) returns (view: array<Byte>)
    ensures fresh(view)
    ensures view[..] == WavBytes(samples, sampleRate)
  {
    var n := |samples|;
    view := new Byte[HeaderSize + n * 2](_ => 0);
    WriteHeader(view, n, sampleRate);
    WriteSamples(view, samples);
  }

  /** The sample loop of float32ToWavBlob: sample i, clamped and scaled, goes through setInt16
      at offset 44 + 2i; the header in front is left as it was. */
  method WriteSamples(view: array<Byte>, samples: seq<real>)
    requires view.Length == HeaderSize + |samples| * 2
    modifies view
    ensures view[..] == old(view[..HeaderSize]) + Payload(samples)
  {
    ghost var header := view[..HeaderSize];
    for i := 0 to |samples|
      invariant view[..HeaderSize + 2 * i] == header + Payload(samples[..i])
    {
      var s := Max(-1.0, Min(1.0, samples[i]));
      SetInt16(view, HeaderSize + i * 2, if s < 0.0 then s * NegativeScale else s * PositiveScale);
      PrefixExtends(view[..], header + Payload(samples[..i]), SampleBytes(samples[i]));
      PayloadSnoc(samples, i);
    }
    assert samples[..|samples|] == samples;
    assert view[..] == view[..HeaderSize + 2 * |samples|];
  }

  /** The thirteen header writes of float32ToWavBlob, at offsets 0 to 40. */
  method WriteHeader(view: array<Byte>, n: nat, sampleRate: int)
    requires view.Length == HeaderSize + n * 2
    modifies view
    ensures view[..HeaderSize] == Header(n, sampleRate)
    ensures forall k :: HeaderSize <= k < view.Length ==> view[k] == old(view[k])
  {
    WriteString(view, 0, "RIFF");
    ghost var done := AsciiBytes("RIFF");
    WriteUint32(view, 4, 36 + n * 2);
    PrefixExtends(view[..], done, Uint32Bytes(36 + n * 2));
    done := done + Uint32Bytes(36 + n * 2);
    WriteString(view, 8, "WAVE");
    PrefixExtends(view[..], done, AsciiBytes("WAVE"));
    done := done + AsciiBytes("WAVE");
    WriteString(view, 12, "fmt ");
    PrefixExtends(view[..], done, AsciiBytes("fmt "));
    done := done + AsciiBytes("fmt ");
    WriteUint32(view, 16, 16);
    PrefixExtends(view[..], done, Uint32Bytes(16));
    done := done + Uint32Bytes(16);
    WriteUint16(view, 20, 1);
    PrefixExtends(view[..], done, Uint16Bytes(1));
    done := done + Uint16Bytes(1);
    WriteUint16(view, 22, 1);
    PrefixExtends(view[..], done, Uint16Bytes(1));
    done := done + Uint16Bytes(1);
    WriteUint32(view, 24, sampleRate);
    PrefixExtends(view[..], done, Uint32Bytes(sampleRate));
    done := done + Uint32Bytes(sampleRate);
    WriteUint32(view, 28, sampleRate * 2);
    PrefixExtends(view[..], done, Uint32Bytes(sampleRate * 2));
    done := done + Uint32Bytes(sampleRate * 2);
    WriteUint16(view, 32, 2);
    PrefixExtends(view[..], done, Uint16Bytes(2));
    done := done + Uint16Bytes(2);
    WriteUint16(view, 34, 16);
    PrefixExtends(view[..], done, Uint16Bytes(16));
    done := done + Uint16Bytes(16);
    WriteString(view, 36, "data");
    PrefixExtends(view[..], done, AsciiBytes("data"));
    done := done + AsciiBytes("data");
    WriteUint32(view, 40, n * 2);
    PrefixExtends(view[..], done, Uint32Bytes(n * 2));
    done := done + Uint32Bytes(n * 2);
  }

  /** When the bytes already laid down are a prefix of b and the field just written follows
      them, the two together are a prefix of b. */
  lemma PrefixExtends(b: seq<Byte>, done: seq<Byte>, field: seq<Byte>)
    requires |done| + |field| <= |b|
    requires b[..|done|] == done && b[|done|..|done| + |field|] == field
    ensures b[..|done| + |field|] == done + field
  {
    assert b[..|done| + |field|] == b[..|done|] + b[|done|..|done| + |field|];
  }
}
