/** The App component's turn gating: the flags isConnected, vadActive and isSpeaking, the list
    audioUrls, the WebSocket in ws.current and the module-level playback source, driven one
    event at a time by the WebSocket callbacks, the playback-ended callback and the voice
    activity detector's speech-start and speech-end callbacks. */
module VoiceApp {
  import opened LittleEndian
  import opened Wav
  import opened WavWriter

  datatype Option<T> = None | Some(value: T)

  /** WebSocket.readyState. The client never calls close(), but a socket still passes through
      Closing when the server starts the closing handshake, before its onclose fires. */
  datatype ReadyState = Connecting | Open | Closing | Closed

  /** The message onSpeechEnd sends, { audio: <base64 of the WAV blob> }; the field holds the
      bytes the base64 text stands for. */
  datatype Envelope = Envelope(audio: seq<Byte>)

  /** One ws.send: which socket it went out on and what it carried. */
  datatype Frame = Frame(socket: nat, envelope: Envelope)

  /** What URL.createObjectURL returns: a fresh name (its serial) for a blob. */
  datatype ObjectUrl = ObjectUrl(serial: nat, blob: seq<Byte>)

  /** Everything the handlers read or write. Every WebSocket the client constructed is in
      sockets, oldest first; ws.current is the last one. source is the module-level variable
      playAudio overwrites; playing holds the playbacks whose onended has not fired yet. */
  datatype AppState = AppState(
    sockets: seq<ReadyState>,
    isConnected: bool,
    vadActive: bool,
    isSpeaking: bool,
    audioUrls: seq<ObjectUrl>,
    sent: seq<Frame>,
    source: Option<nat>,
    playing: set<nat>,
    nextHandle: nat)

  /** The state after useState(false) / useState([]) / useRef(null), before any event. */
  const Initial: AppState := AppState([], false, false, false, [], [], None, {}, 0)

  datatype Event =
    | ConnectClicked                             // connectWebSocket, from the button
    | SocketOpened(socket: nat)                   // that socket's onopen
    | SocketClosing(socket: nat)                  // the server starts the closing handshake:
                                                  // readyState becomes CLOSING, no handler runs
    | SocketClosed(socket: nat)                   // that socket's onclose
    | MessageReceived(socket: nat, decodes: bool) // that socket's onmessage; decodes says whether
                                                  // decodeAudioData accepted the payload
    | PlaybackEnded(handle: nat)                  // that playback's source.onended
    | SpeechStarted                               // useMicVAD onSpeechStart
    | SpeechEnded(audio: seq<real>)               // useMicVAD onSpeechEnd with the captured samples

  /** The one gate both speech handlers test first. */
  predicate Accepting(s: AppState)
  {
    s.isConnected && s.vadActive
  }

  /** ws.current && ws.current.readyState === WebSocket.OPEN */
  predicate CurrentOpen(s: AppState)
  {
    |s.sockets| > 0 && s.sockets[|s.sockets| - 1] == Open
  }

  /** Events the browser can deliver in state s: an open only for a connecting socket, the
      start of a closing handshake only on an open one, a close only for one not yet closed, a
      message only on an open socket, an onended only for a playback still running. The app's
      own and the detector's events can always arrive. */
  predicate Deliverable(s: AppState, e: Event)
  {
    match e
    case SocketOpened(id) => id < |s.sockets| && s.sockets[id] == Connecting
    case SocketClosing(id) => id < |s.sockets| && s.sockets[id] == Open
    case SocketClosed(id) => id < |s.sockets| && s.sockets[id] != Closed
    case MessageReceived(id, _) => id < |s.sockets| && s.sockets[id] == Open
    case PlaybackEnded(h) => h in s.playing
    case _ => true
  }

  /** The effect of one handler run to completion. */
  function Step(s: AppState, e: Event): (r: AppState)
    requires Deliverable(s, e)
    // speech events are gated: when the gate is shut nothing changes at all
    ensures (e.SpeechStarted? || e.SpeechEnded?) && !Accepting(s) ==> r == s
    ensures e.SpeechStarted? && Accepting(s) ==> r == s.(isSpeaking := true)
    // an accepted speech-end records exactly one new URL for the encoded segment, after the
    // earlier ones, sends that same container only if ws.current is open, and clears isSpeaking
    ensures e.SpeechEnded? && Accepting(s) ==>
      var blob := WavBytes(e.audio, DefaultSampleRate);
      r.audioUrls == s.audioUrls + [ObjectUrl(|s.audioUrls|, blob)]
      && r.sent == (if CurrentOpen(s) then s.sent + [Frame(|s.sockets| - 1, Envelope(blob))] else s.sent)
      && !r.isSpeaking
      && r.isConnected == s.isConnected && r.vadActive == s.vadActive && r.sockets == s.sockets
      && r.playing == s.playing && r.source == s.source
    // open turns both flags on and close turns both off, whichever socket it was
    ensures e.SocketOpened? ==> r.isConnected && r.vadActive
    ensures e.SocketClosed? ==> !r.isConnected && !r.vadActive
    ensures (e.SocketOpened? || e.SocketClosed?) ==>
      r.isSpeaking == s.isSpeaking && r.audioUrls == s.audioUrls && r.sent == s.sent
      && r.playing == s.playing && |r.sockets| == |s.sockets|
    // the closing handshake runs no handler: both flags stay as they were, so the speech gate
    // stays open, and only that socket leaves Open
    ensures e.SocketClosing? ==>
      r.isConnected == s.isConnected && r.vadActive == s.vadActive && r.isSpeaking == s.isSpeaking
      && r.audioUrls == s.audioUrls && r.sent == s.sent && r.playing == s.playing
      && r.source == s.source && |r.sockets| == |s.sockets| && r.sockets[e.socket] == Closing
      && (forall j :: 0 <= j < |s.sockets| && j != e.socket ==> r.sockets[j] == s.sockets[j])
    // an inbound message mutes the detector; a decodable one starts a new playback and makes it
    // the current source without stopping any earlier one
    ensures e.MessageReceived? ==>
      !r.vadActive && r.isConnected == s.isConnected && r.isSpeaking == s.isSpeaking
      && r.audioUrls == s.audioUrls && r.sent == s.sent && r.sockets == s.sockets
      && r.playing == (if e.decodes then s.playing + {s.nextHandle} else s.playing)
      && r.source == (if e.decodes then Some(s.nextHandle) else s.source)
    // the end of any playback, current or superseded, connected or not, re-enables the detector
    // and changes nothing else
    ensures e.PlaybackEnded? ==> r == s.(vadActive := true, playing := s.playing - {e.handle})
    // the button opens a new socket unless the current one is open
    ensures e.ConnectClicked? ==>
      r == (if CurrentOpen(s) then s else s.(sockets := s.sockets + [Connecting]))
  {
    match e
    case ConnectClicked =>
      if CurrentOpen(s) then s else s.(sockets := s.sockets + [Connecting])
    case SocketOpened(id) =>
      s.(sockets := s.sockets[id := Open], isConnected := true, vadActive := true)
    case SocketClosing(id) =>
      s.(sockets := s.sockets[id := Closing])
    case SocketClosed(id) =>
      s.(sockets := s.sockets[id := Closed], isConnected := false, vadActive := false)
    case MessageReceived(_, decodes) =>
      if decodes then
        s.(vadActive := false, source := Some(s.nextHandle), playing := s.playing + {s.nextHandle},
           nextHandle := s.nextHandle + 1)
      else
        s.(vadActive := false)
    case PlaybackEnded(h) =>
      s.(vadActive := true, playing := s.playing - {h})
    case SpeechStarted =>
      if Accepting(s) then s.(isSpeaking := true) else s
    case SpeechEnded(audio) =>
      if !Accepting(s) then s
      else
        var blob := WavBytes(audio, DefaultSampleRate);
        var sent := if CurrentOpen(s) then s.sent + [Frame(|s.sockets| - 1, Envelope(blob))] else s.sent;
        s.(sent := sent, audioUrls := s.audioUrls + [ObjectUrl(|s.audioUrls|, blob)], isSpeaking := false)
  }

  /** A sequence of events the browser can deliver one after another from s. */
  ghost predicate Feasible(s: AppState, trace: seq<Event>)
    decreases |trace|
  {
    trace == [] || (Deliverable(s, trace[0]) && Feasible(Step(s, trace[0]), trace[1..]))
  }

  /** The state after every event of the trace, in order. */
  ghost function Run(s: AppState, trace: seq<Event>): AppState
    requires Feasible(s, trace)
    decreases |trace|
  {
    if trace == [] then s else Run(Step(s, trace[0]), trace[1..])
  }

  /** A recorded segment is the 16 kHz container of some sample buffer. */
  ghost predicate IsEncodedSegment(blob: seq<Byte>)
  {
    exists audio: seq<real> :: blob == WavBytes(audio, DefaultSampleRate)
  }

  /** The recorded URLs are distinct (serial i at index i) and each holds an encoded segment. */
  ghost predicate UrlsRecorded(urls: seq<ObjectUrl>)
  {
    forall i :: 0 <= i < |urls| ==> urls[i].serial == i && IsEncodedSegment(urls[i].blob)
  }

  /** There are never more frames than recordings, and each frame went out on a socket that
      exists and carries a recorded segment. */
  ghost predicate FramesRecorded(sent: seq<Frame>, urls: seq<ObjectUrl>, sockets: nat)
  {
    |sent| <= |urls|
    && forall k :: 0 <= k < |sent| ==>
         sent[k].socket < sockets
         && exists i :: 0 <= i < |urls| && urls[i].blob == sent[k].envelope.audio
  }

  /** The playbacks running and the current source were all handed out, and source is the
      latest of them. */
  ghost predicate HandlesIssued(s: AppState)
  {
    (forall h :: h in s.playing ==> h < s.nextHandle)
    && (if s.nextHandle == 0 then s.source == None else s.source == Some(s.nextHandle - 1))
  }

  /** What every reachable state satisfies. */
  ghost predicate Consistent(s: AppState)
  {
    UrlsRecorded(s.audioUrls)
    && FramesRecorded(s.sent, s.audioUrls, |s.sockets|)
    && HandlesIssued(s)
  }

  lemma InitialConsistent()
    ensures Consistent(Initial)
  {
  }

  /** Every handler keeps the state consistent. */
  lemma StepConsistent(s: AppState, e: Event)
    requires Consistent(s) && Deliverable(s, e)
    ensures Consistent(Step(s, e))
  {
    match e
    case SpeechEnded(audio) =>
      if Accepting(s) {
        RecordingConsistent(s, WavBytes(audio, DefaultSampleRate));
      }
    case MessageReceived(_, decodes) =>
    case _ =>
  }

  /** Recording one encoded segment, and sending it on the current socket if that is open,
      keeps the state consistent. */
  lemma RecordingConsistent(s: AppState, blob: seq<Byte>)
    requires Consistent(s) && IsEncodedSegment(blob)
    ensures var sent := if CurrentOpen(s) then s.sent + [Frame(|s.sockets| - 1, Envelope(blob))] else s.sent;
            Consistent(s.(sent := sent, audioUrls := s.audioUrls + [ObjectUrl(|s.audioUrls|, blob)], isSpeaking := false))
  {
    var urls := s.audioUrls + [ObjectUrl(|s.audioUrls|, blob)];
    assert UrlsRecorded(urls);
    if CurrentOpen(s) {
      FramesAppend(s.sent, s.audioUrls, |s.sockets|, Frame(|s.sockets| - 1, Envelope(blob)));
    } else {
      FramesKeep(s.sent, s.audioUrls, |s.sockets|, ObjectUrl(|s.audioUrls|, blob));
    }
  }

  lemma FramesKeep(sent: seq<Frame>, urls: seq<ObjectUrl>, sockets: nat, u: ObjectUrl)
    requires FramesRecorded(sent, urls, sockets)
    ensures FramesRecorded(sent, urls + [u], sockets)
  {
    var urls' := urls + [u];
    forall k | 0 <= k < |sent|
      ensures exists i :: 0 <= i < |urls'| && urls'[i].blob == sent[k].envelope.audio
    {
      var i :| 0 <= i < |urls| && urls[i].blob == sent[k].envelope.audio;
      assert urls'[i] == urls[i];
    }
  }

  lemma FramesAppend(sent: seq<Frame>, urls: seq<ObjectUrl>, sockets: nat, f: Frame)
    requires FramesRecorded(sent, urls, sockets) && f.socket < sockets
    ensures FramesRecorded(sent + [f], urls + [ObjectUrl(|urls|, f.envelope.audio)], sockets)
  {
    var urls' := urls + [ObjectUrl(|urls|, f.envelope.audio)];
    FramesKeep(sent, urls, sockets, ObjectUrl(|urls|, f.envelope.audio));
    var sent' := sent + [f];
    forall k | 0 <= k < |sent'|
      ensures sent'[k].socket < sockets
      ensures exists i :: 0 <= i < |urls'| && urls'[i].blob == sent'[k].envelope.audio
    {
      if k == |sent| {
        assert urls'[|urls|].blob == sent'[k].envelope.audio;
      } else {
        assert sent'[k] == sent[k];
      }
    }
  }

  /** Consistency holds after any feasible trace. */
  lemma {:induction false} RunConsistent(s: AppState, trace: seq<Event>)
    requires Consistent(s) && Feasible(s, trace)
    ensures Consistent(Run(s, trace))
    decreases |trace|
  {
    if trace != [] {
      StepConsistent(s, trace[0]);
      RunConsistent(Step(s, trace[0]), trace[1..]);
    }
  }

  /** The history is append-only: the recorded URLs and the sent frames of s stay, in order, at
      the front of those of any later state. */
  lemma {:induction false} RunExtendsHistory(s: AppState, trace: seq<Event>)
    requires Feasible(s, trace)
    ensures var r := Run(s, trace);
            |s.audioUrls| <= |r.audioUrls| && r.audioUrls[..|s.audioUrls|] == s.audioUrls
            && |s.sent| <= |r.sent| && r.sent[..|s.sent|] == s.sent
    decreases |trace|
  {
    if trace != [] {
      var t := Step(s, trace[0]);
      RunExtendsHistory(t, trace[1..]);
      var r := Run(s, trace);
      assert |s.audioUrls| <= |t.audioUrls| && t.audioUrls[..|s.audioUrls|] == s.audioUrls;
      assert r.audioUrls[..|s.audioUrls|] == r.audioUrls[..|t.audioUrls|][..|s.audioUrls|];
      assert |s.sent| <= |t.sent| && t.sent[..|s.sent|] == s.sent;
      assert r.sent[..|s.sent|] == r.sent[..|t.sent|][..|s.sent|];
    }
  }

  /** Once a reply has muted the detector, nothing is recorded or sent, and the detector stays
      muted, until some playback ends or some socket opens: this is how the client keeps from
      capturing its own reply. */
  lemma {:induction false} MutedUntilPlaybackEnds(s: AppState, trace: seq<Event>)
    requires Feasible(s, trace) && !s.vadActive
    requires forall k :: 0 <= k < |trace| ==> !trace[k].PlaybackEnded? && !trace[k].SocketOpened?
    ensures Run(s, trace).audioUrls == s.audioUrls && Run(s, trace).sent == s.sent
    ensures !Run(s, trace).vadActive
    decreases |trace|
  {
    if trace != [] {
      assert !trace[0].PlaybackEnded? && !trace[0].SocketOpened?;
      var t := Step(s, trace[0]);
      assert !t.vadActive && t.audioUrls == s.audioUrls && t.sent == s.sent;
      MutedUntilPlaybackEnds(t, trace[1..]);
    }
  }

  /** While no socket opens, a disconnected client records and sends nothing, even though a
      playback ending may turn vadActive back on. */
  lemma {:induction false} SilentWhileDisconnected(s: AppState, trace: seq<Event>)
    requires Feasible(s, trace) && !s.isConnected
    requires forall k :: 0 <= k < |trace| ==> !trace[k].SocketOpened?
    ensures Run(s, trace).audioUrls == s.audioUrls && Run(s, trace).sent == s.sent
    ensures !Run(s, trace).isConnected
    decreases |trace|
  {
    if trace != [] {
      assert !trace[0].SocketOpened?;
      var t := Step(s, trace[0]);
      assert !t.isConnected && t.audioUrls == s.audioUrls && t.sent == s.sent;
      SilentWhileDisconnected(t, trace[1..]);
    }
  }

  /** One session as the code runs it: connect, open, one utterance sent; then two replies
      arrive and both play (the second does not stop the first). The first one ending, although
      it is no longer the current source, re-opens the gate while the second is still playing,
      so the next utterance is recorded and sent during playback. */
  lemma OverlappingReplies(a: seq<real>, b: seq<real>)
    ensures var s1 := Step(Step(Step(Initial, ConnectClicked), SocketOpened(0)), SpeechEnded(a));
            s1.sent == [Frame(0, Envelope(WavBytes(a, DefaultSampleRate)))]
            && var s2 := Step(Step(s1, MessageReceived(0, true)), MessageReceived(0, true));
            s2.playing == {0, 1} && s2.source == Some(1) && !Accepting(s2)
            && var s3 := Step(s2, PlaybackEnded(0));
            Accepting(s3) && s3.playing == {1}
            && Step(s3, SpeechEnded(b)).sent == s1.sent + [Frame(0, Envelope(WavBytes(b, DefaultSampleRate)))]
  {
    var s0 := Step(Step(Initial, ConnectClicked), SocketOpened(0));
    assert s0.sockets == [Open] && Accepting(s0) && CurrentOpen(s0);
    var s1 := Step(s0, SpeechEnded(a));
    var s2 := Step(Step(s1, MessageReceived(0, true)), MessageReceived(0, true));
    assert s2.playing == {0, 1};
    var s3 := Step(s2, PlaybackEnded(0));
    assert s3.playing == {0, 1} - {0} == {1};
  }

  /** The server closes the session while the gate is open: onclose has not fired yet, so the
      next utterance still passes the isConnected && vadActive gate and its URL is recorded,
      but ws.current is CLOSING, so nothing is sent (the log-only branch of onSpeechEnd). */
  lemma ClosingSocketRecordsWithoutSending(a: seq<real>)
    ensures var s0 := Step(Step(Step(Initial, ConnectClicked), SocketOpened(0)), SocketClosing(0));
            Accepting(s0) && !CurrentOpen(s0)
            && var s1 := Step(s0, SpeechEnded(a));
            s1.sent == [] && s1.audioUrls == [ObjectUrl(0, WavBytes(a, DefaultSampleRate))]
            && Step(s1, SocketClosed(0)).sockets == [Closed]
  {
    var s0 := Step(Step(Step(Initial, ConnectClicked), SocketOpened(0)), SocketClosing(0));
    assert s0.sockets == [Closing];
  }

  /** The App component itself: its React state and refs as fields, one method per handler. */
  class App {
    var sockets: seq<ReadyState>
    var isConnected: bool
    var vadActive: bool
    var isSpeaking: bool
    var audioUrls: seq<ObjectUrl>
    var sent: seq<Frame>
    var source: Option<nat>
    var playing: set<nat>
    var nextHandle: nat

    function State(): AppState
      reads this
    {
      AppState(sockets, isConnected, vadActive, isSpeaking, audioUrls, sent, source, playing, nextHandle)
    }

    ghost predicate Valid()
      reads this
    {
      Consistent(State())
    }

    constructor ()
      ensures Valid() && State() == Initial
    {
      sockets, isConnected, vadActive, isSpeaking := [], false, false, false;
      audioUrls, sent := [], [];
      source, playing, nextHandle := None, {}, 0;
    }

    /** connectWebSocket: a new socket, unless ws.current is already open. */
    method ConnectWebSocket()
      requires Valid()
      modifies this
      ensures Valid() && State() == Step(old(State()), ConnectClicked)
    {
      StepConsistent(State(), ConnectClicked);
      if |sockets| == 0 || sockets[|sockets| - 1] != Open {
        sockets := sockets + [Connecting];
      }
    }

    /** ws.onopen of the given socket. */
    method OnOpen(socket: nat)
      requires Valid() && Deliverable(State(), SocketOpened(socket))
      modifies this
      ensures Valid() && State() == Step(old(State()), SocketOpened(socket))
    {
      StepConsistent(State(), SocketOpened(socket));
      sockets := sockets[socket := Open];
      isConnected := true;
      vadActive := true;
    }

    /** The browser's side of a closing handshake the server started: readyState becomes
        CLOSING and no handler of the component runs. */
    method BeginClosing(socket: nat)
      requires Valid() && Deliverable(State(), SocketClosing(socket))
      modifies this
      ensures Valid() && State() == Step(old(State()), SocketClosing(socket))
    {
      StepConsistent(State(), SocketClosing(socket));
      sockets := sockets[socket := Closing];
    }

    /** ws.onclose of the given socket. */
    method OnClose(socket: nat)
      requires Valid() && Deliverable(State(), SocketClosed(socket))
      modifies this
      ensures Valid() && State() == Step(old(State()), SocketClosed(socket))
    {
      StepConsistent(State(), SocketClosed(socket));
      sockets := sockets[socket := Closed];
      isConnected := false;
      vadActive := false;
    }

    /** ws.onmessage of the given socket: hands the payload to playAudio. */
    method OnMessage(socket: nat, decodes: bool) returns (handle: Option<nat>)
      requires Valid() && Deliverable(State(), MessageReceived(socket, decodes))
      modifies this
      ensures Valid() && State() == Step(old(State()), MessageReceived(socket, decodes))
      ensures handle == (if decodes then Some(old(nextHandle)) else None)
    {
      StepConsistent(State(), MessageReceived(socket, decodes));
      handle := PlayAudio(decodes);
    }

    /** playAudio: mute the detector first; then, if the platform decodes the payload, a new
        buffer source becomes the module-level source and starts. The previous source is not
        stopped. */
    method PlayAudio(decodes: bool) returns (handle: Option<nat>)
      modifies this
      ensures State() == (if decodes then old(State()).(vadActive := false, source := Some(old(nextHandle)),
                            playing := old(playing) + {old(nextHandle)}, nextHandle := old(nextHandle) + 1)
                          else old(State()).(vadActive := false))
      ensures handle == (if decodes then Some(old(nextHandle)) else None)
    {
      vadActive := false;
      handle := None;
      if decodes {
        source := Some(nextHandle);
        playing := playing + {nextHandle};
        handle := source;
        nextHandle := nextHandle + 1;
      }
    }

    /** source.onended of the given playback. */
    method OnPlaybackEnded(handle: nat)
      requires Valid() && Deliverable(State(), PlaybackEnded(handle))
      modifies this
      ensures Valid() && State() == Step(old(State()), PlaybackEnded(handle))
    {
      StepConsistent(State(), PlaybackEnded(handle));
      vadActive := true;
      playing := playing - {handle};
    }

    /** useMicVAD onSpeechStart. */
    method OnSpeechStart()
      requires Valid()
      modifies this
      ensures Valid() && State() == Step(old(State()), SpeechStarted)
    {
      StepConsistent(State(), SpeechStarted);
      if !isConnected || !vadActive {
        return;
      }
      isSpeaking := true;
    }

    /** useMicVAD onSpeechEnd: encode, send if the current socket is open, record the blob's URL,
        clear isSpeaking. */
    method OnSpeechEnd(audio: seq<real>)
      requires Valid()
      modifies this
      ensures Valid() && State() == Step(old(State()), SpeechEnded(audio))
    {
      StepConsistent(State(), SpeechEnded(audio));
      if !isConnected || !vadActive {
        return;
      }
      var wav := Float32ToWav(audio);
      var blob := wav[..];
      if |sockets| > 0 && sockets[|sockets| - 1] == Open {
        sent := sent + [Frame(|sockets| - 1, Envelope(blob))];
      }
      audioUrls := audioUrls + [ObjectUrl(|audioUrls|, blob)];
      isSpeaking := false;
    }
  }
}
