# Voice client turn gating and WAV encoding, in Dafny

This project models the browser client of a voice interface (`src/components/App.jsx`). The
client has two parts:

- **`float32ToWavBlob`** turns a mono sample buffer into a canonical RIFF/WAVE container. The
  container has a 44-byte header: a `RIFF` chunk of form `WAVE`, a 16-byte `fmt ` chunk for
  PCM, mono, 16 bits per sample, and a `data` chunk. One signed 16-bit little-endian value per
  sample follows the header. The buffer is filled in place through `DataView` writes.
- **The `App` component's handlers** keep the flags `isConnected`, `vadActive` and
  `isSpeaking`, the `audioUrls` list, the socket in `ws.current` and the module-level playback
  `source`. They react to WebSocket open, close and message events, to the end of a playback,
  and to the voice-activity detector's speech-start and speech-end callbacks.

Modules, one per layer of the encoder plus one for the component:

- `LittleEndian` (`little_endian.dfy`): bytes, what `setUint16`/`setUint32` store (the value
  reduced modulo 2^16 or 2^32, low byte first), and the readers that invert them.
- `Pcm` (`pcm.dfy`): the per-sample rule. Clamp to [-1, 1]. Scale negatives by 0x8000 and the
  rest by 0x7FFF. Then apply `setInt16`'s ToInt16, which truncates toward zero and reduces
  modulo 2^16. Samples are mathematical reals, not IEEE floats.
- `Wav` (`wav.dfy`): `WavBytes`, the buffer the encoder produces, and `IsWav`, an independent
  description of the buffer field by field through the little-endian readers. The two are
  proved equivalent in both directions.
- `WavWriter` (`wav_writer.dfy`): the encoder as the source runs it, on an `array` filled by
  `WriteString`, `WriteUint16`, `WriteUint32` and `setInt16`. It is proved to produce exactly
  `WavBytes`.
- `VoiceApp` (`voice_app.dfy`): `Step` is the effect of one handler on an `AppState` value.
  Lemmas about `Step` cover traces of events. The class `App` holds the same state as fields,
  with one method per handler. Each method is proved to move the state exactly as `Step` says.

Modelling decisions:

- Every socket ever constructed is kept. `connectWebSocket` replaces `ws.current` when the
  current socket is not open, but the old socket keeps its handlers. Its `onopen` and
  `onclose` still set both flags, which is why the send in `onSpeechEnd` checks
  `ws.current.readyState` again after the `isConnected` gate.
- A socket's `readyState` runs through CONNECTING, OPEN, CLOSING and CLOSED. The client never
  calls `close()`, but when the server starts the closing handshake the browser sets CLOSING
  and fires `onclose` only once the handshake ends. No handler runs at CLOSING, so both flags
  stay set and the speech gate stays open. `onSpeechEnd` then takes its log-only branch: the
  URL is recorded and nothing is sent (`ClosingSocketRecordsWithoutSending`).
- The two `await`s inside `onmessage` and `onSpeechEnd` are collapsed, so each handler runs as
  one step.
- Whether `decodeAudioData` accepts a payload is an input of the message event (`decodes`). A
  failed decode is caught in `onmessage` and only logged, so `vadActive` stays false.
- No barge-in or cancellation exists. A new reply overwrites `source` without stopping the
  playing one. Any playback's `onended` sets `vadActive`, `OverlappingReplies` shows the
  consequence, and the re-enabling happens even after the socket has closed.

## Model

| member | source | states |
|---|---|---|
| `LittleEndian.ReadUint16` | src/components/App.jsx:19-21 | the 16-bit little-endian field at an offset is below 2^16 |
| `LittleEndian.ReadUint32` | src/components/App.jsx:23-25 | the 32-bit little-endian field at an offset is below 2^32 |
| `LittleEndian.ReadInt16` | src/components/App.jsx:44 | a signed 16-bit field lies in [-32768, 32767] and is congruent to its unsigned reading modulo 2^16 |
| `LittleEndian.Uint16Bytes` | src/components/App.jsx:19-21 | `setUint16(offset, v, true)` stores two bytes that read back little-endian as `v mod 2^16` |
| `LittleEndian.Uint32Bytes` | src/components/App.jsx:23-25 | `setUint32(offset, v, true)` stores four bytes that read back little-endian as `v mod 2^32` |
| `LittleEndian.Uint16Inverse` | src/components/App.jsx:19-21 | any two bytes are exactly what `setUint16` writes for the value they read as (the converse round trip) |
| `LittleEndian.Uint32Inverse` | src/components/App.jsx:23-25 | any four bytes are exactly what `setUint32` writes for the value they read as |
| `LittleEndian.Uint16Determines` | src/components/App.jsx:19-21 | a 16-bit field that reads as `v mod 2^16` holds exactly the bytes `setUint16(v)` writes |
| `LittleEndian.Uint32Determines` | src/components/App.jsx:23-25 | a 32-bit field that reads as `v mod 2^32` holds exactly the bytes `setUint32(v)` writes |
| `Pcm.Min` | src/components/App.jsx:43 | `Math.min`: the result is at most both arguments and is one of them |
| `Pcm.Max` | src/components/App.jsx:43 | `Math.max`: the result is at least both arguments and is one of them |
| `Pcm.Clamp` | src/components/App.jsx:43 | `Math.max(-1, Math.min(1, x))` lies in [-1, 1], is `x` inside that range, 1 above it and -1 below it |
| `Pcm.TruncateTowardZero` | src/components/App.jsx:44 | ToInt16's truncation: the integer between 0 and `r` that is less than one away from `r` |
| `Pcm.Scale` | src/components/App.jsx:44 | no contract of its own: the asymmetric scaling `s < 0 ? s * 0x8000 : s * 0x7FFF`, whose effect is stated by `SampleInRange`, `SampleSaturates` and `SampleKeepsSign` |
| `Pcm.TruncateMonotone` | src/components/App.jsx:44 | truncation toward zero never reverses the order of two reals |
| `Pcm.SampleValue` | src/components/App.jsx:43-44 | no contract of its own: the PCM value of a sample (clamp, scale, truncate); `SampleInRange`, `SampleSaturates`, `SampleQuantisationError`, `SampleKeepsSign`, `SampleMonotone` and `SampleBytesReadBack` give its meaning |
| `Pcm.Int16Bits` | src/components/App.jsx:44 | the bit pattern `setInt16` stores lies in [0, 2^16) |
| `Pcm.SampleInRange` | src/components/App.jsx:43-44 | every sample becomes a value in [-32768, 32767], so ToInt16 never wraps |
| `Pcm.SampleSaturates` | src/components/App.jsx:43-44 | x ≥ 1 yields 32767 and x ≤ -1 yields -32768 |
| `Pcm.SampleQuantisationError` | src/components/App.jsx:43-44 | the stored value is within one step of the scaled clamped sample, rounded toward zero |
| `Pcm.SampleKeepsSign` | src/components/App.jsx:43-44 | a positive value comes only from a positive sample, a negative one only from a negative sample |
| `Pcm.SampleMonotone` | src/components/App.jsx:43-44 | a larger sample never gives a smaller stored value |
| `Pcm.SampleBytesReadBack` | src/components/App.jsx:44 | the two bytes `setInt16` stores read back as a signed 16-bit value equal to the sample's PCM value |
| `Wav.AsciiBytes` | src/components/App.jsx:13-17 | `writeString` stores one byte per character and, for ASCII text, the byte is the character code |
| `Wav.SampleBytes` | src/components/App.jsx:44 | a sample occupies exactly two bytes |
| `Wav.Header` | src/components/App.jsx:27-39 | no contract of its own: the thirteen fields in write order; `HeaderFields` states each field at its offset and `HeaderDescribesUnique` that the description fixes these bytes |
| `Wav.Payload` | src/components/App.jsx:41-45 | no contract of its own: the samples' bytes in input order; `PayloadLength`, `PayloadSampleAt`, `PayloadSnoc` and `PayloadDescribes` give its meaning |
| `Wav.WavBytes` | src/components/App.jsx:9-48 | no contract of its own: header then payload; `WavBytesIsWav` and `IsWavOnlyWavBytes` prove it equal, in both directions, to the field-by-field description `IsWav`, and `WavLength` gives its length |
| `Wav.PayloadLength` | src/components/App.jsx:41-45 | n samples give 2n payload bytes |
| `Wav.PayloadSnoc` | src/components/App.jsx:42-45 | one more loop turn appends the next sample's two bytes |
| `Wav.PayloadSampleAt` | src/components/App.jsx:42-45 | sample i occupies payload bytes 2i and 2i+1 |
| `Wav.WavLength` | src/components/App.jsx:10 | the buffer is 44 + 2n bytes; an empty input gives the 44-byte header alone |
| `Wav.HeaderFields` | src/components/App.jsx:27-39 | the header is 44 bytes: tags "RIFF"@0, "WAVE"@8, "fmt "@12, "data"@36; RIFF size 36+2n@4, fmt size 16@16, format 1@20, channels 1@22, rate@24, byte rate 2·rate@28, block align 2@32, bits 16@34, data size 2n@40 (sizes modulo 2^32) |
| `Wav.HeaderDescribesPrefix` | src/components/App.jsx:27-39 | the header description depends only on the first 44 bytes |
| `Wav.HeaderDescribesUnique` | src/components/App.jsx:27-39 | two buffers that satisfy the header description for the same n and rate have the same 44 header bytes |
| `Wav.SlicesAgree` | src/components/App.jsx:27-39 | equal slices agree byte by byte |
| `Wav.Uint16FieldAgrees` | src/components/App.jsx:19-21 | equal 16-bit fields have equal bytes |
| `Wav.Uint32FieldAgrees` | src/components/App.jsx:23-25 | equal 32-bit fields have equal bytes |
| `Wav.PayloadDescribes` | src/components/App.jsx:41-45 | when the bytes after the header are the payload, the int16 at 44+2i is sample i's PCM value |
| `Wav.PayloadDetermined` | src/components/App.jsx:41-45 | conversely, the int16 values at 44+2i fix every payload byte |
| `Wav.WavBytesIsWav` | src/components/App.jsx:9-48 | the encoder's buffer satisfies the full field-by-field description of the container for its input |
| `Wav.IsWavOnlyWavBytes` | src/components/App.jsx:9-48 | any buffer satisfying that description is the encoder's buffer (the other direction) |
| `Wav.ChunkSizesMatchLength` | src/components/App.jsx:28-39 | when 36+2n fits in 32 bits, the RIFF size field is total length − 8 = 36+2n and the data size field is total length − 44 = 2n |
| `Wav.RateFields` | src/components/App.jsx:34-35 | when 2·rate fits in 32 bits, the rate field holds the rate and the byte-rate field twice the rate |
| `Wav.DefaultRateFields` | src/components/App.jsx:9-35 | with the default rate the fields hold 16000 and 32000 |
| `Wav.SampleAt` | src/components/App.jsx:41-45 | sample i is stored at offsets 44+2i and 45+2i of the buffer |
| `WavWriter.WriteString` | src/components/App.jsx:13-17 | writes the string's bytes at the consecutive offsets and leaves every other byte as it was |
| `WavWriter.WriteUint16` | src/components/App.jsx:19-21 | writes `setUint16`'s two bytes at the offset and leaves every other byte as it was |
| `WavWriter.WriteUint32` | src/components/App.jsx:23-25 | writes `setUint32`'s four bytes at the offset and leaves every other byte as it was |
| `WavWriter.SetInt16` | src/components/App.jsx:44 | writes ToInt16's two bytes at the offset and leaves every other byte as it was |
| `WavWriter.WriteHeader` | src/components/App.jsx:27-39 | the thirteen writes leave exactly the header in bytes 0..43 and do not touch the payload area |
| `WavWriter.WriteSamples` | src/components/App.jsx:41-45 | the loop leaves the header in place followed by the payload of all samples, in order |
| `WavWriter.Float32ToWav` | src/components/App.jsx:9-48 | returns a fresh buffer equal to `WavBytes(samples, sampleRate)`, with `sampleRate` defaulting to 16000 |
| `VoiceApp.Step` | src/components/App.jsx:67-136 | speech-start and speech-end change nothing unless `isConnected && vadActive`. An accepted speech-end appends exactly one fresh URL for the encoded segment, sends it only when `ws.current` is open, and clears `isSpeaking`. An accepted speech-start sets `isSpeaking`. Open sets `isConnected` and `vadActive`, close clears both. The start of a closing handshake changes only that socket's ready state. A message clears `vadActive` and, if decodable, starts a playback that becomes `source`. Any playback's end sets `vadActive` and changes nothing else. Connect adds a socket unless the current one is open |
| `VoiceApp.InitialConsistent` | src/components/App.jsx:60-65 | the initial state satisfies the consistency invariant |
| `VoiceApp.StepConsistent` | src/components/App.jsx:67-136 | every handler preserves the invariant: URLs are distinct and hold encoded segments, every sent frame carries a recorded segment on an existing socket, there are no more frames than URLs, and playback handles were all issued with `source` the latest |
| `VoiceApp.RecordingConsistent` | src/components/App.jsx:119-130 | recording one encoded segment and maybe sending it keeps the invariant |
| `VoiceApp.FramesKeep` | src/components/App.jsx:128-129 | adding a URL keeps every sent frame backed by a recorded URL |
| `VoiceApp.FramesAppend` | src/components/App.jsx:122-129 | sending a frame together with recording its blob keeps every sent frame backed by a recorded URL |
| `VoiceApp.RunConsistent` | src/components/App.jsx:67-136 | the invariant holds after any sequence of deliverable events |
| `VoiceApp.RunExtendsHistory` | src/components/App.jsx:122-129 | `audioUrls` and the sent frames are append-only: earlier entries stay, in order, at the front |
| `VoiceApp.MutedUntilPlaybackEnds` | src/components/App.jsx:67-136 | once `vadActive` is false, nothing is recorded or sent, and it stays false, until a playback ends or a socket opens |
| `VoiceApp.SilentWhileDisconnected` | src/components/App.jsx:96-136 | while no socket opens, a disconnected client records and sends nothing, even if a playback end re-enables `vadActive` |
| `VoiceApp.OverlappingReplies` | src/components/App.jsx:77-83 | two replies play at once; the superseded one's end re-opens the gate while the other still plays, and the next utterance is sent |
| `VoiceApp.ClosingSocketRecordsWithoutSending` | src/components/App.jsx:96-129 | after the server starts closing an open socket and before its `onclose`, the gate is still open: the next utterance's URL is recorded and nothing is sent |
| `VoiceApp.App.constructor` | src/components/App.jsx:60-65 | the component starts disconnected, muted, not speaking, with no URLs, sockets or playbacks |
| `VoiceApp.App.ConnectWebSocket` | src/components/App.jsx:88-90 | moves the state as `Step` does for the connect button and keeps the invariant |
| `VoiceApp.App.OnOpen` | src/components/App.jsx:91-95 | moves the state as `Step` does for that socket's open and keeps the invariant |
| `VoiceApp.App.BeginClosing` | src/components/App.jsx:122-126 | the closing handshake sets that socket CLOSING and runs no handler, as `Step` says, keeping the invariant |
| `VoiceApp.App.OnClose` | src/components/App.jsx:96-100 | moves the state as `Step` does for that socket's close and keeps the invariant |
| `VoiceApp.App.OnMessage` | src/components/App.jsx:103-111 | moves the state as `Step` does for an inbound message and returns the new playback's handle, if any |
| `VoiceApp.App.PlayAudio` | src/components/App.jsx:67-86 | clears `vadActive`; if the payload decodes, a fresh playback becomes `source` and joins the running ones; nothing else changes |
| `VoiceApp.App.OnPlaybackEnded` | src/components/App.jsx:81-83 | moves the state as `Step` does for a playback's end and keeps the invariant |
| `VoiceApp.App.OnSpeechStart` | src/components/App.jsx:132-136 | moves the state as `Step` does for speech-start and keeps the invariant |
| `VoiceApp.App.OnSpeechEnd` | src/components/App.jsx:116-131 | encodes with `Float32ToWav` and moves the state as `Step` does for speech-end, keeping the invariant |

## Left out

- `server.js` is not part of this model. It is the HTTP and WebSocket bootstrap, and its
  message handler only logs.
- `blobToBase64`, `Blob`, `FileReader` and `JSON.stringify` are browser APIs. The envelope
  carries the WAV bytes that its base64 text stands for.
- `URL.createObjectURL` becomes a fresh serial number paired with the blob.
- AudioContext creation, `decodeAudioData`, `createBufferSource`, `connect` and `start` are
  platform audio calls. Only their effect is kept: a decode succeeds or fails (an event
  input), and a started playback later delivers its `onended`.
- The `await` points inside `onmessage` and `onSpeechEnd` are collapsed. Each handler is one
  atomic step, so events that the browser could interleave between `setVadActive(false)` and
  `source.start()`, or between encoding and sending, are not modelled.
- React rendering, hooks and stale closures are not modelled. Handlers read the current state.
- The detector itself (`useMicVAD` and its `enabled: vadActive` option) is not modelled.
  Speech events may arrive at any time, and the handlers' own gate decides.
- `onerror` only logs and is left out. Logging (`console.log`/`console.error`) is left out.
- IEEE-754 rounding, NaN and infinities of the float samples are not modelled: samples are
  reals. ToInt16's NaN-to-0 case therefore does not arise.
- An `ArrayBuffer` too large to allocate, and `DataView` range errors, are not modelled. Every
  write the encoder makes is in range by construction.
- `WavWriter.WriteString` does not model characters above U+FFFF, where `charCodeAt` returns a
  UTF-16 surrogate rather than the code point. Only the four ASCII tags are ever written.
