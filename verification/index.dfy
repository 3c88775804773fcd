/** src/index.js: the chat session. Start-up sets the recording globals,
    runs the fingerprint initialisation and opens the socket; then the
    socket's `open` and `message` events and the input's `keypress`, the
    send button's and the microphone icon's `click` events each run one
    handler to completion. */
module Index {
  import opened Wrappers
  import opened JsValue
  import opened Browser
  import opened Utils
  import opened Fingerprint
  import opened SocketMessages
  import opened Ws
  import opened AudioVideo

  /** What the handlers draw, in the order they draw it. */
  datatype RenderOp =
    | Configure(change: DomChange)
    | DisplayBotMessage(reply: Classified)
    | DisplayUserMessage(text: string)
    | ClearQuickReplies
    | ScrollToBottom

  /** The configuration's DOM writes as render operations. */
  function AsRenders(changes: seq<DomChange>): (ops: seq<RenderOp>)
    ensures |ops| == |changes| && forall i :: 0 <= i < |changes| ==> ops[i] == Configure(changes[i])
  {
    seq(|changes|, i requires 0 <= i < |changes| => Configure(changes[i]))
  }

  /** What one inbound message leads to: the renders, whether the
      handler's promise rejects, and the tray it leaves. */
  datatype Effect = Effect(renders: seq<RenderOp>, outcome: Outcome<JsError>, tray: Tray)

  /** The `message` handler's effect for the text `data` on a page whose
      tray is `t`: a parse failure rejects before anything is drawn; a
      configuration message is applied and not displayed; every other
      message is displayed; the messages area is scrolled last unless
      something threw. */
  function MessageEffect(jsonParse: string -> Option<Json>, data: string, t: Tray): Effect {
    match DefaultMessageParser(jsonParse, data)
    case Failure(e) => Effect([], Fail(e), t)
    case Success(c) =>
      if c.isConfMessage then
        var applied := ConfigurationChanges(c.conf, t);
        if applied.outcome.Fail? then Effect(AsRenders(applied.changes), applied.outcome, applied.tray)
        else Effect(AsRenders(applied.changes) + [ScrollToBottom], Pass, applied.tray)
      else Effect([DisplayBotMessage(c), ScrollToBottom], Pass, t)
  }

  /** The handshake `open` sends: `formatOutgoingMessage('', {getConfig: true})`. */
  function Handshake(amb: Ambient): Envelope {
    FormatOutgoingMessage(Some(""), NoOptions.(getConfig := Some(true)), amb)
  }

  /** The envelope for typed text: `formatOutgoingMessage(message)`. */
  function TextEnvelope(text: string, amb: Ambient): Envelope {
    FormatOutgoingMessage(Some(text), NoOptions, amb)
  }

  /** The renders after a text was sent. */
  function UserTurn(text: string): seq<RenderOp> {
    [DisplayUserMessage(text), ScrollToBottom, ClearQuickReplies]
  }

  class Session {
    const window: Window
    const document: Document
    const input: InputElement
    const devices: MediaDevices
    const socket: BankBuddyWebSocket
    const library: FingerprintLibrary
    const jsonParse: string -> Option<Json>
    /** Everything drawn so far, oldest first. */
    var renders: seq<RenderOp>
    /** Which of the microphone icon and the dropdown are still in the page. */
    var tray: Tray

    /** While `RECORDING` is set, `RECORDER` is a running recorder. */
    ghost predicate Valid()
      reads this, window, window.recorder
    {
      window.recording ==> window.recorder != null && window.recorder.state == Recording
    }

    /** Loading the page: `RECORDING` false and `RECORDER` null, then
        `init()`: the identity is chosen, the socket starts connecting and
        the messages area is scrolled. */
    constructor (cookie: string, locationTenant: Option<string>, tenantId: string, websocketUrl: string,
                 microphoneAllowed: bool, visitorId: string, jsonParse: string -> Option<Json>)
      ensures Valid()
      ensures !window.recording && window.recorder == null
      ensures window.browserFP == Some(Identity(ParseCookies(cookie), visitorId))
      ensures window.locationTenant == locationTenant && window.tenantId == tenantId
      ensures document.cookie == cookie && input.value == ""
      ensures devices.allowed == microphoneAllowed && devices.requests == []
      ensures socket.url == websocketUrl && socket.readyState == Connecting && socket.frames == []
      ensures this.jsonParse == jsonParse
      ensures renders == [ScrollToBottom] && tray == LoadedTray
      ensures fresh(window) && fresh(document) && fresh(input) && fresh(devices) && fresh(socket) && fresh(library)
    {
      var w := new Window(locationTenant, tenantId);
      var doc := new Document(cookie);
      var lib := new FingerprintLibrary(visitorId);
      InitializeFingerPrint(w, doc, lib);
      window, document, library := w, doc, lib;
      input := new InputElement("");
      devices := new MediaDevices(microphoneAllowed);
      socket := new BankBuddyWebSocket(websocketUrl);
      this.jsonParse := jsonParse;
      renders := [ScrollToBottom];
      tray := LoadedTray;
    }

    /** The `open` handler: the connection is up and exactly one frame, the
        configuration request, is sent. */
    method OnOpen() returns (o: Outcome<JsError>)
      modifies socket`readyState, socket`frames
      ensures socket.readyState == Open && o == Pass
      ensures socket.frames == old(socket.frames) + [Stringified(Handshake(AmbientOf(window)))]
    {
      socket.Opened();
      o := socket.SendJSONMessage(FormatOutgoingMessage(Some(""), NoOptions.(getConfig := Some(true)), AmbientOf(window)));
    }

    /** The `message` handler for a frame with text `data`. Each message is
        classified on its own: nothing records that a configuration was
        already applied. */
    method OnMessage(data: string) returns (o: Outcome<JsError>)
      modifies this`renders, this`tray
      ensures renders == old(renders) + MessageEffect(jsonParse, data, old(tray)).renders
      ensures o == MessageEffect(jsonParse, data, old(tray)).outcome
      ensures tray == MessageEffect(jsonParse, data, old(tray)).tray
    {
      var parserFunc: string -> Result<Classified, JsError> := s => DefaultMessageParser(jsonParse, s);
      var incoming := socket.ParseIncomingMessage(data, Given(parserFunc), jsonParse);
      var responseObject := incoming.value;
      if responseObject.Failure? {
        o := Fail(responseObject.error);
        return;
      }
      var c := responseObject.value;
      if c.isConfMessage {
        var applied := ConfigurationChanges(c.conf, tray);
        renders := renders + AsRenders(applied.changes);
        tray := applied.tray;
        if applied.outcome.Fail? {
          o := applied.outcome;
          return;
        }
      }
      if !c.isConfMessage {
        renders := renders + [DisplayBotMessage(c)];
      }
      renders := renders + [ScrollToBottom];
      o := Pass;
    }

    /** Reading the input and, for a non-empty text, sending it and then
        drawing the user's turn; a send that throws stops the handler. */
    method SubmitInput() returns (o: Outcome<JsError>)
      modifies input`value, socket`frames, this`renders
      ensures input.value == ""
      ensures old(input.value) == "" ==> o == Pass && socket.frames == old(socket.frames) && renders == old(renders)
      ensures old(input.value) != "" ==>
        && (o.Pass? <==> socket.readyState != Connecting)
        && socket.frames == old(socket.frames)
             + (if socket.readyState == Open then [Stringified(TextEnvelope(old(input.value), AmbientOf(window)))] else [])
        && renders == old(renders) + (if o.Pass? then UserTurn(old(input.value)) else [])
    {
      var message := GetInputValueAndClearInput(input);
      if message != "" {
        o := socket.SendJSONMessage(FormatOutgoingMessage(Some(message), NoOptions, AmbientOf(window)));
        if o.Pass? {
          renders := renders + UserTurn(message);
        }
      } else {
        o := Pass;
      }
    }

    /** The input's `keypress` handler: only Enter submits. */
    method OnKeypress(e: KeyboardEvent) returns (o: Outcome<JsError>)
      modifies input`value, socket`frames, this`renders
      ensures !PressedKeyIsEnter(e) ==>
        o == Pass && input.value == old(input.value) && socket.frames == old(socket.frames) && renders == old(renders)
      ensures PressedKeyIsEnter(e) ==> input.value == ""
      ensures PressedKeyIsEnter(e) && old(input.value) == "" ==>
        o == Pass && socket.frames == old(socket.frames) && renders == old(renders)
      ensures PressedKeyIsEnter(e) && old(input.value) != "" ==>
        && (o.Pass? <==> socket.readyState != Connecting)
        && socket.frames == old(socket.frames)
             + (if socket.readyState == Open then [Stringified(TextEnvelope(old(input.value), AmbientOf(window)))] else [])
        && renders == old(renders) + (if o.Pass? then UserTurn(old(input.value)) else [])
    {
      if PressedKeyIsEnter(e) {
        o := SubmitInput();
      } else {
        o := Pass;
      }
    }

    /** The send button's `click` handler. */
    method OnSendClick() returns (o: Outcome<JsError>)
      modifies input`value, socket`frames, this`renders
      ensures input.value == ""
      ensures old(input.value) == "" ==> o == Pass && socket.frames == old(socket.frames) && renders == old(renders)
      ensures old(input.value) != "" ==>
        && (o.Pass? <==> socket.readyState != Connecting)
        && socket.frames == old(socket.frames)
             + (if socket.readyState == Open then [Stringified(TextEnvelope(old(input.value), AmbientOf(window)))] else [])
        && renders == old(renders) + (if o.Pass? then UserTurn(old(input.value)) else [])
    {
      o := SubmitInput();
    }

    /** The microphone icon's `click` handler, where `captured` is what the
        running recorder holds. Not recording: a recording is started and
        nothing is sent. Recording: it is stopped and exactly one audio
        frame is sent. */
    method OnMicClick(captured: seq<bv8>) returns (o: Outcome<JsError>)
      requires Valid()
      modifies window`recording, window`recorder, window.recorder, devices`requests, socket`frames
      ensures Valid()
      ensures !old(window.recording) ==>
        && socket.frames == old(socket.frames)
        && devices.requests == old(devices.requests) + [Constraints(true, false)]
        && (devices.allowed ==> window.recording && fresh(window.recorder) && o == Pass)
        && (!devices.allowed ==> !window.recording && window.recorder == old(window.recorder) && o == Fail(NotAllowedError))
      ensures old(window.recording) ==>
        && !window.recording && window.recorder == old(window.recorder) && window.recorder.state == Stopped
        && devices.requests == old(devices.requests)
        && (o.Pass? <==> socket.readyState != Connecting)
        && socket.frames == old(socket.frames)
             + (if socket.readyState == Open then [Stringified(AudioEnvelope(captured, AmbientOf(window)))] else [])
    {
      if !window.recording {
        o := StartAudioRecording(window, devices);
      } else {
        var audioBlob := StopAudioRecording(window, captured);
        o := socket.SendAudioMessage(audioBlob.value, window);
      }
    }
  }

  /** The handshake asks for the configuration and carries no payload. */
  lemma HandshakeRequestsConfiguration(amb: Ambient)
    ensures var env := Handshake(amb);
      env.getConfig && PayloadCount(env) == 0 && env.tenant == TenantOf(NoOptions, amb) && env.sender == amb.fingerprint
  {
  }

  /** Typed text travels in `message` with `get_config` false. */
  lemma TextEnvelopeCarriesText(text: string, amb: Ambient)
    requires text != ""
    ensures var env := TextEnvelope(text, amb);
      env.message == Some(text) && env.audioB64 == None && env.fileB64 == None && !env.getConfig
  {
  }

  /** Exactly one of applying the configuration and displaying happens for
      a classified message: a configuration message is never displayed,
      any other is displayed once and configures nothing. */
  lemma MessageIsConfiguredOrDisplayed(jsonParse: string -> Option<Json>, data: string, t: Tray)
    requires DefaultMessageParser(jsonParse, data).Success?
    ensures var c := DefaultMessageParser(jsonParse, data).value;
      var ops := MessageEffect(jsonParse, data, t).renders;
      && (c.isConfMessage ==> forall i :: 0 <= i < |ops| ==> !ops[i].DisplayBotMessage?)
      && (c.isConfMessage ==> ops[..|ConfigurationChanges(c.conf, t).changes|] == AsRenders(ConfigurationChanges(c.conf, t).changes))
      && (!c.isConfMessage ==> ops == [DisplayBotMessage(c), ScrollToBottom])
  {
  }

  /** A message the parser rejects draws nothing. */
  lemma RejectedMessageDrawsNothing(jsonParse: string -> Option<Json>, data: string, t: Tray)
    requires DefaultMessageParser(jsonParse, data).Failure?
    ensures MessageEffect(jsonParse, data, t) == Effect([], Fail(DefaultMessageParser(jsonParse, data).error), t)
  {
  }

  /** A configuration message that removes the microphone icon or the
      dropdown, received a second time after it was applied, throws a
      `TypeError` and leaves the messages area unscrolled; one that removes
      nothing is applied again and scrolls. */
  lemma RepeatedConfigurationMessage(jsonParse: string -> Option<Json>, data: string, t: Tray)
    requires DefaultMessageParser(jsonParse, data).Success? && DefaultMessageParser(jsonParse, data).value.isConfMessage
    requires MessageEffect(jsonParse, data, t).outcome.Pass?
    ensures var c := DefaultMessageParser(jsonParse, data).value;
      var again := MessageEffect(jsonParse, data, MessageEffect(jsonParse, data, t).tray);
      && (RemovesElement(c.conf) ==> again.outcome == Fail(TypeError) && ScrollToBottom !in again.renders)
      && (!RemovesElement(c.conf) ==> again.outcome.Pass? && again.renders[|again.renders| - 1] == ScrollToBottom)
  {
    var c := DefaultMessageParser(jsonParse, data).value;
    RepeatedConfiguration(c.conf, t);
    var again := ConfigurationChanges(c.conf, ConfigurationChanges(c.conf, t).tray);
    assert forall i :: 0 <= i < |AsRenders(again.changes)| ==> AsRenders(again.changes)[i].Configure?;
  }
}
