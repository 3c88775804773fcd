/** src/ws.js: `BankBuddyWebSocket`, a WebSocket whose send methods frame
    envelopes, and its hook for parsing what arrives. */
module Ws {
  import opened Wrappers
  import opened Browser
  import opened SocketMessages
  import opened JsValue
  import Utils
  import Base64

  /** What one `send` puts on the wire. `Stringified(env)` is the text
      `JSON.stringify(env)`; `Unserialized(env)` is what `send` makes of
      the object itself, its string conversion "[object Object]". */
  datatype Frame = Stringified(env: Envelope) | Unserialized(obj: Envelope)

  /** The envelope a server can read back from a frame. */
  function Delivered(f: Frame): Option<Envelope> {
    match f
    case Stringified(env) => Some(env)
    case Unserialized(_) => None
  }

  /** The connection state of a WebSocket. */
  datatype ReadyState = Connecting | Open | Closing | Closed

  /** The ambient values `formatOutgoingMessage` reads from the globals. */
  function AmbientOf(w: Window): Ambient
    reads w
  {
    Ambient(w.browserFP, w.locationTenant, w.tenantId)
  }

  /** The envelope `sendAudioMessage(audio)` builds. */
  function AudioEnvelope(audio: seq<bv8>, amb: Ambient): Envelope {
    FormatOutgoingMessage(Some(Utils.ArrayBufferToBase64(audio)), NoOptions.(messageType := Some("audio")), amb)
  }

  /** The envelope `sendFileMessage(file)` builds. */
  function FileEnvelope(file: seq<bv8>, amb: Ambient): Envelope {
    FormatOutgoingMessage(Some(Utils.ArrayBufferToBase64(file)), NoOptions.(messageType := Some("file")), amb)
  }

  class BankBuddyWebSocket {
    const url: string
    var readyState: ReadyState
    /** The frames the connection has transmitted, oldest first. */
    var frames: seq<Frame>

    /** `new BankBuddyWebSocket(url)`: connecting, nothing sent. */
    constructor (url: string)
      ensures this.url == url && readyState == Connecting && frames == []
    {
      this.url := url;
      readyState := Connecting;
      frames := [];
    }

    /** The connection is established (the event before `open` fires). */
    method Opened()
      modifies this`readyState
      ensures readyState == Open
    {
      readyState := Open;
    }

    /** `WebSocket.send(data)`: an `InvalidStateError` while connecting; an
        open connection transmits the frame; a closing or closed one drops
        it without an error. */
    method Send(f: Frame) returns (o: Outcome<JsError>)
      modifies this`frames
      ensures old(readyState) == Connecting ==> o == Fail(InvalidStateError)
      ensures old(readyState) != Connecting ==> o == Pass
      ensures frames == old(frames) + (if readyState == Open then [f] else [])
    {
      if readyState == Connecting {
        o := Fail(InvalidStateError);
      } else {
        if readyState == Open {
          frames := frames + [f];
        }
        o := Pass;
      }
    }

    /** `sendJSONMessage(message)`: one serialised frame. */
    method SendJSONMessage(message: Envelope) returns (o: Outcome<JsError>)
      modifies this`frames
      ensures o.Pass? <==> old(readyState) != Connecting
      ensures frames == old(frames) + (if readyState == Open then [Stringified(message)] else [])
    {
      o := Send(Stringified(message));
    }

    /** `sendFileMessage(file)` as written: the envelope object goes to
        `send` without `JSON.stringify`, so the server receives
        "[object Object]". */
    method SendFileMessage(file: seq<bv8>, w: Window) returns (o: Outcome<JsError>)
      modifies this`frames
      ensures o.Pass? <==> old(readyState) != Connecting
      ensures frames == old(frames) + (if readyState == Open then [Unserialized(FileEnvelope(file, AmbientOf(w)))] else [])
    {
      var base64FileBlob := Utils.ArrayBufferToBase64(file);
      o := Send(Unserialized(FormatOutgoingMessage(Some(base64FileBlob), NoOptions.(messageType := Some("file")), AmbientOf(w))));
    }

    /** `sendFileMessage(file)` with the serialisation the audio path has. */
    method SendFileMessageStringified(file: seq<bv8>, w: Window) returns (o: Outcome<JsError>)
      modifies this`frames
      ensures o.Pass? <==> old(readyState) != Connecting
      ensures frames == old(frames) + (if readyState == Open then [Stringified(FileEnvelope(file, AmbientOf(w)))] else [])
    {
      var base64FileBlob := Utils.ArrayBufferToBase64(file);
      o := SendJSONMessage(FormatOutgoingMessage(Some(base64FileBlob), NoOptions.(messageType := Some("file")), AmbientOf(w)));
    }

    /** `sendAudioMessage(audio)`: one serialised audio envelope. */
    method SendAudioMessage(audio: seq<bv8>, w: Window) returns (o: Outcome<JsError>)
      modifies this`frames
      ensures o.Pass? <==> old(readyState) != Connecting
      ensures frames == old(frames) + (if readyState == Open then [Stringified(AudioEnvelope(audio, AmbientOf(w)))] else [])
    {
      var base64AudioBlob := Utils.ArrayBufferToBase64(audio);
      o := SendJSONMessage(FormatOutgoingMessage(Some(base64AudioBlob), NoOptions.(messageType := Some("audio")), AmbientOf(w)));
    }

    /** `parseIncomingMessage(message, parserFunc)`: a left-out parser
        defaults to `JSON.parse`, a falsy one gives back the message itself,
        and a function is applied to the message. */
    function ParseIncomingMessage<R>(message: string, parserFunc: ParserArg<R>,
                                     jsonParse: string -> Option<Json>): (r: Incoming<R>)
      ensures r.Raw? <==> parserFunc.Falsy?
      ensures r.Raw? ==> r.message == message
      ensures parserFunc.Omitted? ==> r.ParsedJson? && (r.json.Failure? <==> jsonParse(message).None?)
                                      && (r.json.Success? ==> Some(r.json.value) == jsonParse(message))
      ensures parserFunc.Given? ==> r == Parsed(parserFunc.parse(message))
    {
      match parserFunc
      case Omitted => ParsedJson(JsonParse(jsonParse, message))
      case Falsy => Raw(message)
      case Given(parse) => Parsed(parse(message))
    }
  }

  /** The `parserFunc` argument of `parseIncomingMessage`: left out or
      `undefined`, so that the default `JSON.parse` applies; a falsy value
      such as `null`; or a function. */
  datatype ParserArg<R> = Omitted | Falsy | Given(parse: string -> R)

  /** What `parseIncomingMessage` resolves to: the message itself, what
      `JSON.parse` made of it, or the given parser's result. */
  datatype Incoming<R> = Raw(message: string) | ParsedJson(json: Result<Json, JsError>) | Parsed(value: R)

  /** `JSON.parse(message)`, which throws a `SyntaxError` where `jsonParse`
      has no value. */
  function JsonParse(jsonParse: string -> Option<Json>, message: string): (r: Result<Json, JsError>)
    ensures r.Failure? <==> jsonParse(message).None?
    ensures r.Failure? ==> r.error == SyntaxError
  {
    match jsonParse(message)
    case None => Failure(SyntaxError)
    case Some(v) => Success(v)
  }

  /** With the parser argument left out, `parseIncomingMessage` rejects
      exactly the messages for which the client's own parser,
      `defaultMessageParser`, reports a `SyntaxError`: both start with
      `JSON.parse`. */
  lemma DefaultParserRejectsLikeMessageParser(socket: BankBuddyWebSocket, jsonParse: string -> Option<Json>, message: string)
    ensures var r := socket.ParseIncomingMessage<Classified>(message, Omitted, jsonParse);
      r.json.Failure? <==> DefaultMessageParser(jsonParse, message) == Failure(SyntaxError)
  {
    ParserFailsExactly(jsonParse, message);
  }

  /** An empty audio buffer encodes to "", which is falsy: the envelope
      has no `audio_b64` and no other payload. */
  lemma EmptyAudioHasNoPayload(amb: Ambient)
    ensures var env := AudioEnvelope([], amb);
      env.audioB64 == None && PayloadCount(env) == 0
  {
  }

  /** A non-empty audio buffer travels as the base64 of its bytes, in
      `audio_b64` only, and the server can decode it back. */
  lemma AudioEnvelopeCarriesBytes(audio: seq<bv8>, amb: Ambient)
    requires audio != []
    ensures var env := AudioEnvelope(audio, amb);
      && env.audioB64 == Some(Base64.Encode(audio))
      && env.message == None && env.fileB64 == None && !env.getConfig
      && Base64.Decode(env.audioB64.value) == Some(audio)
  {
    Utils.ArrayBufferToBase64IsRfc4648(audio);
  }

  /** The file frame as written carries no envelope the server can read,
      whereas the serialised one carries the file's base64 in `file_b64`. */
  lemma FileFrameIsUnreadable(file: seq<bv8>, amb: Ambient)
    requires file != []
    ensures Delivered(Unserialized(FileEnvelope(file, amb))) == None
    ensures var d := Delivered(Stringified(FileEnvelope(file, amb)));
      d.Some? && d.value.fileB64 == Some(Base64.Encode(file)) && Base64.Decode(d.value.fileB64.value) == Some(file)
  {
    Utils.ArrayBufferToBase64IsRfc4648(file);
  }
}
